// The cached document tree (cache/fs.rs, cache/db.rs): inode rows, directory entries,
// chunk rows and remote paths, and what the insert-only operations do to them. The
// functions here are the specification of the methods of `Db` and `UnisonFs`.
module Tree {
  import opened Basics
  import opened ChunkStore
  import opened Paths

  // fs_inode, without times and ownership.
  datatype Inode = Inode(isDir: bool, size: nat)

  // fs_dentry: the inode entered under a parent and a name.
  type Dentries = map<(nat, string), nat>

  datatype Store = Store(
    inodes: map<nat, Inode>,
    chunks: map<nat, Chunks>,               // fs_data
    dentries: Dentries,                     // fs_dentry
    remote: map<nat, string>,               // fs_remote.remote_path
    nextIno: nat)                           // AUTOINCREMENT: numbers are never reused

  const ROOT := 1
  const CLIMB_LIMIT := 64

  const NEW_STORE := Store(map[ROOT := Inode(true, 0)], map[], map[], map[], ROOT + 1)

  // ---- Operations ------------------------------------------------------------------------

  function Lookup(d: Dentries, parent: nat, name: string): Option<nat> {
    if (parent, name) in d then Some(d[(parent, name)]) else None
  }

  function Walk(d: Dentries, from: nat, parts: Parts): Option<nat>
    decreases |parts|
  {
    if parts == [] then Some(from)
    else match Lookup(d, from, parts[0])
      case None => None
      case Some(ino) => Walk(d, ino, parts[1..])
  }

  // A new inode, entered under `parent`.
  function AddEntry(s: Store, parent: nat, name: string, isDir: bool): Store {
    s.(inodes := s.inodes[s.nextIno := Inode(isDir, 0)], dentries := s.dentries[(parent, name) := s.nextIno],
      nextIno := s.nextIno + 1)
  }

  function MakeDirs(s: Store, from: nat, parts: Parts): Store
    decreases |parts|
  {
    if parts == [] then s
    else match Lookup(s.dentries, from, parts[0])
      case Some(ino) => MakeDirs(s, ino, parts[1..])
      case None => MakeDirs(AddEntry(s, from, parts[0], true), s.nextIno, parts[1..])
  }

  function FileOf(s: Store, ino: nat): File {
    File(if ino in s.chunks then s.chunks[ino] else map[], if ino in s.inodes then s.inodes[ino].size else 0)
  }

  // The chunk rows and the size of `ino`; the size is kept in its inode row, if any.
  function PutFile(s: Store, ino: nat, f: File): Store {
    s.(chunks := s.chunks[ino := f.chunks],
       inodes := if ino in s.inodes then s.inodes[ino := s.inodes[ino].(size := f.size)] else s.inodes)
  }

  // The directory the document goes to, once its directories exist.
  function ParentOf(s: Store, path: string): nat {
    if ParentPath(path) == "" then ROOT
    else match Walk(s.dentries, ROOT, ResolveParts(ParentPath(path)))
      case Some(ino) => ino
      case None => ROOT
  }

  // The store with an inode for the document, and that inode.
  function Place(s: Store, path: string): (Store, nat) {
    var a := MakeDirs(s, ROOT, DirParts(path));
    var parent := ParentOf(a, path);
    match Lookup(a.dentries, parent, FileName(path))
    case Some(ino) => (a, ino)
    case None =>
      var b := AddEntry(a, parent, FileName(path), false);
      (b.(remote := b.remote[a.nextIno := path]), a.nextIno)
  }

  function UpsertDoc(s: Store, path: string, content: Bytes, cs: nat): (Store, nat)
    requires cs > 0
  {
    var (placed, ino) := Place(s, path);
    (PutFile(placed, ino, Replace(content, cs)), ino)
  }

  // ---- Well-formed trees --------------------------------------------------------------------

  // Children are younger than their parents and have one entry each; nothing refers to
  // an inode number that was not given out.
  ghost predicate TreeOk(s: Store) {
    && ROOT in s.inodes && s.inodes[ROOT].isDir
    && (forall i :: i in s.inodes ==> i < s.nextIno)
    && (forall i :: i in s.chunks ==> i in s.inodes)
    && (forall i :: i in s.remote ==> i in s.inodes)
    && (forall k :: k in s.dentries ==> ROOT <= k.0 < s.dentries[k] && k.0 in s.inodes && s.dentries[k] in s.inodes)
    && (forall k, l :: k in s.dentries && l in s.dentries && s.dentries[k] == s.dentries[l] ==> k == l)
  }

  ghost predicate NamedOk(s: Store) {
    forall k :: k in s.dentries ==> NameOk(k.1)
  }

  lemma {:induction false} WalkSnoc(d: Dentries, from: nat, parts: Parts, name: string)
    ensures Walk(d, from, parts + [name]) ==
      match Walk(d, from, parts) case None => None case Some(ino) => Lookup(d, ino, name)
    decreases |parts|
  {
    if parts == [] {
      assert [] + [name] == [name] && [name][1..] == [];
    } else {
      assert (parts + [name])[1..] == parts[1..] + [name] && (parts + [name])[0] == parts[0];
      match Lookup(d, from, parts[0]) {
        case None =>
        case Some(ino) => WalkSnoc(d, ino, parts[1..], name);
      }
    }
  }

  // The last step of a walk.
  lemma WalkLast(s: Store, parts: Parts)
    requires parts != [] && Walk(s.dentries, ROOT, parts).Some?
    ensures var up := Walk(s.dentries, ROOT, Initial(parts));
      && up.Some? && (up.value, Last(parts)) in s.dentries
      && Walk(s.dentries, ROOT, parts) == Some(s.dentries[(up.value, Last(parts))])
  {
    assert parts == Initial(parts) + [Last(parts)];
    WalkSnoc(s.dentries, ROOT, Initial(parts), Last(parts));
  }

  lemma {:induction false} WalkBounds(s: Store, parts: Parts)
    requires TreeOk(s) && Walk(s.dentries, ROOT, parts).Some?
    ensures var i := Walk(s.dentries, ROOT, parts).value; i in s.inodes && ROOT <= i && (parts != [] ==> ROOT < i)
    ensures NamedOk(s) ==> NamesOk(parts)
    decreases |parts|
  {
    if parts != [] {
      WalkLast(s, parts);
      WalkBounds(s, Initial(parts));
      if NamedOk(s) {
        forall n | n in parts ensures NameOk(n) {
          assert n in Initial(parts) || n == Last(parts);
        }
      }
    }
  }

  // An inode has one path.
  lemma {:induction false} OnePath(s: Store, a: Parts, b: Parts)
    requires TreeOk(s) && Walk(s.dentries, ROOT, a).Some? && Walk(s.dentries, ROOT, a) == Walk(s.dentries, ROOT, b)
    ensures a == b
    decreases |a|
  {
    if a == [] || b == [] {
      WalkBounds(s, a);
      WalkBounds(s, b);
    } else {
      WalkLast(s, a);
      WalkLast(s, b);
      OnePath(s, Initial(a), Initial(b));
      assert a == Initial(a) + [Last(a)] && b == Initial(b) + [Last(b)];
    }
  }

  // ---- Growing the tree ----------------------------------------------------------------------

  // `t` has all of `s`, and the paths it adds lead towards `p`.
  ghost predicate Grows(s: Store, t: Store, p: Parts) {
    && (forall q :: Walk(s.dentries, ROOT, q).Some? ==> Walk(t.dentries, ROOT, q) == Walk(s.dentries, ROOT, q))
    && (forall q :: Walk(s.dentries, ROOT, q).None? && Walk(t.dentries, ROOT, q).Some? ==> q <= p)
    && (forall k :: k in s.dentries ==> k in t.dentries && t.dentries[k] == s.dentries[k])
    && (forall k :: k in t.dentries && k !in s.dentries ==> s.nextIno <= t.dentries[k])
    && (forall i :: i in s.inodes ==> i in t.inodes && t.inodes[i] == s.inodes[i])
    && (forall i :: i in t.inodes && i !in s.inodes ==> s.nextIno <= i && t.inodes[i].size == 0)
    && s.nextIno <= t.nextIno
    && t.chunks == s.chunks
  }

  lemma {:induction false} WalkAdd(s: Store, from: nat, q: Parts, parent: nat, name: string, isDir: bool)
    requires TreeOk(s) && (parent, name) !in s.dentries && from < s.nextIno && parent < s.nextIno
    ensures var t := AddEntry(s, parent, name, isDir);
      && (Walk(s.dentries, from, q).Some? ==> Walk(t.dentries, from, q) == Walk(s.dentries, from, q))
      && (Walk(s.dentries, from, q).None? && Walk(t.dentries, from, q).Some? ==>
            q != [] && Last(q) == name && Walk(s.dentries, from, Initial(q)) == Some(parent))
    decreases |q|
  {
    var t := AddEntry(s, parent, name, isDir);
    if q != [] {
      var rest := q[1..];
      if Lookup(s.dentries, from, q[0]).Some? {
        WalkAdd(s, s.dentries[(from, q[0])], rest, parent, name, isDir);
        if rest != [] {
          assert Initial(q)[0] == q[0] && Initial(q)[1..] == Initial(rest) && Last(rest) == Last(q);
        }
      } else if (from, q[0]) == (parent, name) {
        assert Lookup(t.dentries, from, q[0]) == Some(s.nextIno);
        if rest != [] {
          assert Lookup(t.dentries, s.nextIno, rest[0]).None?;
          assert Walk(t.dentries, s.nextIno, rest).None?;
        }
        assert rest == [] ==> Initial(q) == [];
      }
    }
  }

  lemma AddKeepsOk(s: Store, parent: nat, name: string, isDir: bool)
    requires TreeOk(s) && (parent, name) !in s.dentries && ROOT <= parent && parent in s.inodes
    ensures TreeOk(AddEntry(s, parent, name, isDir))
    ensures NamedOk(s) && NameOk(name) ==> NamedOk(AddEntry(s, parent, name, isDir))
  {
  }

  lemma AddGrows(s: Store, done: Parts, parent: nat, name: string, isDir: bool)
    requires TreeOk(s) && Walk(s.dentries, ROOT, done) == Some(parent) && (parent, name) !in s.dentries
    ensures var t := AddEntry(s, parent, name, isDir);
      TreeOk(t) && Grows(s, t, done + [name]) && Walk(t.dentries, ROOT, done + [name]) == Some(s.nextIno)
    ensures NamedOk(s) && NameOk(name) ==> NamedOk(AddEntry(s, parent, name, isDir))
  {
    hide TreeOk, Walk, NamedOk, NameOk;
    BoundedInodes(s);
    WalkBounds(s, done);
    AddKeepsOk(s, parent, name, isDir);
    var t := AddEntry(s, parent, name, isDir);
    forall q
      ensures Walk(s.dentries, ROOT, q).Some? ==> Walk(t.dentries, ROOT, q) == Walk(s.dentries, ROOT, q)
      ensures Walk(s.dentries, ROOT, q).None? && Walk(t.dentries, ROOT, q).Some? ==> q <= done + [name]
    {
      WalkAdd(s, ROOT, q, parent, name, isDir);
      if Walk(s.dentries, ROOT, q).None? && Walk(t.dentries, ROOT, q).Some? {
        OnePath(s, Initial(q), done);
        assert q == Initial(q) + [Last(q)];
      }
    }
    WalkSnoc(t.dentries, ROOT, done, name);
  }

  lemma BoundedInodes(s: Store)
    requires TreeOk(s)
    ensures ROOT < s.nextIno && forall i :: i in s.inodes ==> i < s.nextIno
  {
  }

  lemma GrowsTransitive(s: Store, t: Store, u: Store, p: Parts, r: Parts)
    requires Grows(s, t, p) && Grows(t, u, r) && p <= r
    ensures Grows(s, u, r)
  {
    hide Walk;
    forall q | Walk(s.dentries, ROOT, q).None? && Walk(u.dentries, ROOT, q).Some? ensures q <= r {
      if Walk(t.dentries, ROOT, q).Some? {
        assert q <= p;
      }
    }
  }

  // Ensuring directories adds exactly the missing ones.
  lemma {:induction false} MakeDirsGrows(s: Store, done: Parts, from: nat, parts: Parts)
    requires TreeOk(s) && Walk(s.dentries, ROOT, done) == Some(from)
    ensures var t := MakeDirs(s, from, parts);
      TreeOk(t) && Grows(s, t, done + parts) && Walk(t.dentries, ROOT, done + parts).Some? && t.remote == s.remote
    ensures NamedOk(s) && NamesOk(parts) ==> NamedOk(MakeDirs(s, from, parts))
    decreases |parts|
  {
    if parts == [] {
      assert done + parts == done;
    } else {
      hide Grows, TreeOk, NamedOk, NameOk;
      var name, rest := parts[0], parts[1..];
      assert done + [name] + rest == done + parts;
      assert NamesOk(parts) ==> NamesOk(rest);
      WalkSnoc(s.dentries, ROOT, done, name);
      if Lookup(s.dentries, from, name).Some? {
        MakeDirsGrows(s, done + [name], s.dentries[(from, name)], rest);
      } else {
        AddGrows(s, done, from, name, true);
        var mid := AddEntry(s, from, name, true);
        MakeDirsGrows(mid, done + [name], s.nextIno, rest);
        GrowsTransitive(s, mid, MakeDirs(mid, s.nextIno, rest), done + [name], done + parts);
      }
    }
  }

  // ---- Upsert refines a map ---------------------------------------------------------------------

  ghost function Content(s: Store, ino: nat): Bytes { ReadAll(FileOf(s, ino)) }

  // An inode without a row has no content.
  lemma NoRowNoContent(s: Store, ino: nat)
    requires ino !in s.inodes
    ensures Content(s, ino) == []
  {
  }

  predicate IsDir(s: Store, ino: nat) { ino in s.inodes && s.inodes[ino].isDir }

  // The file at a path, if there is one.
  function DocFile(s: Store, parts: Parts): Option<File> {
    match Walk(s.dentries, ROOT, parts)
    case None => None
    case Some(ino) => if IsDir(s, ino) then None else Some(FileOf(s, ino))
  }

  // The document at a path: the content of its file.
  ghost function Doc(s: Store, parts: Parts): Option<Bytes> {
    match DocFile(s, parts) case None => None case Some(f) => Some(ReadAll(f))
  }

  // What placing a document does to the tree, for the components `p` of its path.
  ghost predicate Placed(s: Store, path: string, p: Parts, t: Store, ino: nat) {
    && TreeOk(t)
    && Walk(t.dentries, ROOT, p) == Some(ino)
    && Grows(s, t, p)
    && (Walk(s.dentries, ROOT, p).Some? ==> t.remote == s.remote)
    && (Walk(s.dentries, ROOT, p).None? ==>
      t.remote == s.remote[ino := path] && ino in t.inodes && ino !in s.inodes && !IsDir(t, ino))
    && (forall i :: i in t.inodes && i !in s.inodes && i != ino ==> IsDir(t, i))
    && (NamedOk(s) && NamesOk(p) ==> NamedOk(t))
  }

  // The directories of the path are there, and nothing else changed.
  ghost predicate Housed(s: Store, dirs: Parts, a: Store, parent: nat) {
    && TreeOk(a)
    && Walk(a.dentries, ROOT, dirs) == Some(parent)
    && Grows(s, a, dirs)
    && a.remote == s.remote
    && (forall i :: i in a.inodes && i !in s.inodes ==> IsDir(a, i))
    && (NamedOk(s) && NamesOk(dirs) ==> NamedOk(a))
  }

  lemma {:induction false} MakeDirsMakesDirs(s: Store, from: nat, parts: Parts)
    ensures forall i :: i in MakeDirs(s, from, parts).inodes && i !in s.inodes ==> IsDir(MakeDirs(s, from, parts), i)
    ensures forall i :: i in s.inodes && i < s.nextIno ==>
      i in MakeDirs(s, from, parts).inodes && MakeDirs(s, from, parts).inodes[i] == s.inodes[i]
    ensures MakeDirs(s, from, parts).nextIno >= s.nextIno
    decreases |parts|
  {
    if parts != [] {
      match Lookup(s.dentries, from, parts[0]) {
        case Some(ino) => MakeDirsMakesDirs(s, ino, parts[1..]);
        case None => MakeDirsMakesDirs(AddEntry(s, from, parts[0], true), s.nextIno, parts[1..]);
      }
    }
  }

  // The document's directory is the last one ensured.
  lemma ParentIsDir(s: Store, path: string)
    requires Walk(s.dentries, ROOT, DirParts(path)).Some?
    ensures Walk(s.dentries, ROOT, DirParts(path)) == Some(ParentOf(s, path))
  {
    ParentParts(path);
    if ParentPath(path) == "" {
      assert ResolveParts("") == [] by { assert Split("", '/') == [""]; assert NonEmpty([""]) == []; }
    }
  }

  lemma RemoteApart(s: Store, t: Store, ino: nat, path: string, p: Parts)
    requires TreeOk(t) && ino in t.inodes
    ensures var u := t.(remote := t.remote[ino := path]);
      TreeOk(u) && (Grows(s, t, p) ==> Grows(s, u, p)) && (NamedOk(t) ==> NamedOk(u))
  {
    hide Walk;
  }

  lemma HousedMeaning(s: Store, path: string)
    requires TreeOk(s)
    ensures var a := MakeDirs(s, ROOT, DirParts(path)); Housed(s, DirParts(path), a, ParentOf(a, path))
  {
    hide TreeOk, Grows, NamedOk, DirParts, MakeDirs, ParentOf;
    var dirs := DirParts(path);
    assert [] + dirs == dirs;
    MakeDirsGrows(s, [], ROOT, dirs);
    MakeDirsMakesDirs(s, ROOT, dirs);
    ParentIsDir(MakeDirs(s, ROOT, dirs), path);
  }

  // The document itself is not there yet.
  lemma PlaceNew(s: Store, dirs: Parts, a: Store, parent: nat, name: string, path: string)
    requires TreeOk(s) && Housed(s, dirs, a, parent) && Lookup(a.dentries, parent, name).None?
    ensures var b := AddEntry(a, parent, name, false);
      Placed(s, path, dirs + [name], b.(remote := b.remote[a.nextIno := path]), a.nextIno)
  {
    hide Walk, NameOk, NamedOk, TreeOk;
    WalkSnoc(a.dentries, ROOT, dirs, name);
    BoundedInodes(a);
    var b := AddEntry(a, parent, name, false);
    assert (dirs + [name])[|dirs|] == name;
    AddGrows(a, dirs, parent, name, false);
    assert Walk(s.dentries, ROOT, dirs + [name]).None?;
    assert a.nextIno !in s.inodes;
    hide Grows;
    GrowsTransitive(s, a, b, dirs, dirs + [name]);
    RemoteApart(s, b, a.nextIno, path, dirs + [name]);
  }

  lemma PlaceOld(s: Store, dirs: Parts, a: Store, parent: nat, name: string, path: string)
    requires TreeOk(s) && Housed(s, dirs, a, parent) && Lookup(a.dentries, parent, name).Some?
    ensures Placed(s, path, dirs + [name], a, a.dentries[(parent, name)])
  {
    hide Walk, NameOk, NamedOk, TreeOk;
    WalkSnoc(a.dentries, ROOT, dirs, name);
    assert (dirs + [name])[|dirs|] == name;
    forall q | Walk(s.dentries, ROOT, q).None? && Walk(a.dentries, ROOT, q).Some? ensures q <= dirs + [name] {
      assert q <= dirs;
    }
    assert Walk(s.dentries, ROOT, dirs + [name]).Some?;
  }

  lemma PlaceMeaning(s: Store, path: string)
    requires TreeOk(s)
    ensures Placed(s, path, DocParts(path), Place(s, path).0, Place(s, path).1)
  {
    hide TreeOk, MakeDirs, ParentOf, DirParts, FileName, AddEntry, Placed, Housed;
    var a := MakeDirs(s, ROOT, DirParts(path));
    HousedMeaning(s, path);
    if Lookup(a.dentries, ParentOf(a, path), FileName(path)).None? {
      PlaceNew(s, DirParts(path), a, ParentOf(a, path), FileName(path), path);
    } else {
      PlaceOld(s, DirParts(path), a, ParentOf(a, path), FileName(path), path);
    }
  }

  lemma PutFileApart(s: Store, ino: nat, f: File)
    requires TreeOk(s) && ino in s.inodes
    ensures var t := PutFile(s, ino, f);
      && TreeOk(t) && (NamedOk(s) ==> NamedOk(t))
      && t.dentries == s.dentries && t.remote == s.remote && t.inodes.Keys == s.inodes.Keys
      && FileOf(t, ino) == f
      && forall i :: i in s.inodes ==> IsDir(t, i) == IsDir(s, i) && (i != ino ==> FileOf(t, i) == FileOf(s, i))
  {
    hide Walk;
  }

  // A path that comes to resolve resolves to a new inode.
  lemma {:induction false} NewPathNewInode(s: Store, t: Store, p: Parts, q: Parts)
    requires TreeOk(s) && TreeOk(t) && Grows(s, t, p)
    requires Walk(s.dentries, ROOT, q).None? && Walk(t.dentries, ROOT, q).Some?
    ensures Walk(t.dentries, ROOT, q).value !in s.inodes
    decreases |q|
  {
    assert q != [];
    hide Walk;
    WalkLast(t, q);
    WalkSnoc(s.dentries, ROOT, Initial(q), Last(q));
    assert q == Initial(q) + [Last(q)];
    if Walk(s.dentries, ROOT, Initial(q)).None? {
      NewPathNewInode(s, t, p, Initial(q));
    }
  }

  // Growing leaves old documents as they were.
  lemma GrownDoc(s: Store, t: Store, p: Parts, q: Parts)
    requires TreeOk(s) && Grows(s, t, p) && Walk(s.dentries, ROOT, q).Some?
    ensures DocFile(t, q) == DocFile(s, q)
  {
    WalkBounds(s, q);
    hide Walk;
  }

  predicate IsDirAt(s: Store, parts: Parts) {
    match Walk(s.dentries, ROOT, parts)
    case None => false
    case Some(ino) => IsDir(s, ino)
  }

  // Placing adds no document but its own.
  lemma PlacedDoc(s: Store, path: string, p: Parts, t: Store, ino: nat, q: Parts)
    requires TreeOk(s) && Placed(s, path, p, t, ino) && q != p
    ensures DocFile(t, q) == DocFile(s, q)
    ensures Walk(s.dentries, ROOT, q).None? && Walk(t.dentries, ROOT, q).Some? ==> q < p && IsDirAt(t, q)
  {
    hide Walk;
    if Walk(s.dentries, ROOT, q).Some? {
      GrownDoc(s, t, p, q);
    } else if Walk(t.dentries, ROOT, q).Some? {
      WalkBounds(t, q);
      if Walk(t.dentries, ROOT, q) == Some(ino) { OnePath(t, p, q); }
      if Walk(t.dentries, ROOT, q).value in s.inodes { NewPathNewInode(s, t, p, q); }
    }
  }

  // A file's bytes are behind one path only.
  lemma PutDoc(s: Store, p: Parts, ino: nat, f: File, q: Parts)
    requires TreeOk(s) && Walk(s.dentries, ROOT, p) == Some(ino)
    ensures var t := PutFile(s, ino, f);
      DocFile(t, q) == if q == p && !IsDir(s, ino) then Some(f) else DocFile(s, q)
  {
    WalkBounds(s, p);
    PutFileApart(s, ino, f);
    hide Walk, PutFile, FileOf;
    if Walk(s.dentries, ROOT, q).Some? {
      WalkBounds(s, q);
      if Walk(s.dentries, ROOT, q) == Some(ino) { OnePath(s, p, q); }
    }
  }

  // The tree after an upsert, apart from what its files hold.
  lemma UpsertTree(s: Store, path: string, content: Bytes, cs: nat)
    requires TreeOk(s) && cs > 0
    ensures var (t, ino) := UpsertDoc(s, path, content, cs); var p := DocParts(path);
      && TreeOk(t)
      && Walk(t.dentries, ROOT, p) == Some(ino) && FileOf(t, ino) == Replace(content, cs)
      && (forall q :: Walk(s.dentries, ROOT, q).Some? ==> Walk(t.dentries, ROOT, q) == Walk(s.dentries, ROOT, q))
      && t.remote == (if Walk(s.dentries, ROOT, p).Some? then s.remote else s.remote[ino := path])
      && (NamedOk(s) && NamesOk(p) ==> NamedOk(t))
  {
    hide DocParts, Place, Walk, Replace, TreeOk, NamedOk, PutFile, FileOf, NamesOk;
    var p := DocParts(path);
    PlaceMeaning(s, path);
    WalkBounds(Place(s, path).0, p);
    PutFileApart(Place(s, path).0, Place(s, path).1, Replace(content, cs));
  }

  // An inode that gets a remote path is a new one.
  lemma UpsertFreshIno(s: Store, path: string, content: Bytes, cs: nat)
    requires TreeOk(s) && cs > 0 && Walk(s.dentries, ROOT, DocParts(path)).None?
    ensures UpsertDoc(s, path, content, cs).1 !in s.inodes
  {
    hide DocParts, Place, Walk, Replace, TreeOk, NamedOk, PutFile, NamesOk, Grows;
    PlaceMeaning(s, path);
  }

  lemma UpsertKeepsInodes(s: Store, path: string, content: Bytes, cs: nat)
    requires TreeOk(s) && cs > 0
    ensures forall i :: i in s.inodes ==> i in UpsertDoc(s, path, content, cs).0.inodes
  {
    hide DocParts, Place, Walk, Replace, TreeOk, NamedOk, NamesOk;
    PlaceMeaning(s, path);
  }

  // A path that comes to resolve resolves to a new inode.
  lemma UpsertNewInode(s: Store, path: string, content: Bytes, cs: nat, q: Parts)
    requires TreeOk(s) && cs > 0
    requires Walk(s.dentries, ROOT, q).None? && Walk(UpsertDoc(s, path, content, cs).0.dentries, ROOT, q).Some?
    ensures Walk(UpsertDoc(s, path, content, cs).0.dentries, ROOT, q).value !in s.inodes
  {
    hide DocParts, Place, Walk, Replace, TreeOk, NamedOk, NamesOk, Grows;
    PlaceMeaning(s, path);
    NewPathNewInode(s, Place(s, path).0, DocParts(path), q);
  }

  // No other inode's rows change.
  lemma UpsertKeepsFiles(s: Store, path: string, content: Bytes, cs: nat, i: nat)
    requires TreeOk(s) && cs > 0 && i in s.inodes && i != UpsertDoc(s, path, content, cs).1
    ensures FileOf(UpsertDoc(s, path, content, cs).0, i) == FileOf(s, i)
  {
    hide DocParts, Place, Walk, Replace, TreeOk, NamedOk, PutFile, NamesOk;
    var p := DocParts(path);
    PlaceMeaning(s, path);
    WalkBounds(Place(s, path).0, p);
    PutFileApart(Place(s, path).0, Place(s, path).1, Replace(content, cs));
  }

  // The files and directories after an upsert, path by path.
  lemma UpsertAt(s: Store, path: string, content: Bytes, cs: nat, q: Parts)
    requires TreeOk(s) && cs > 0
    ensures var t, p := UpsertDoc(s, path, content, cs).0, DocParts(path);
      && DocFile(t, q) == (if q == p && !IsDirAt(s, p) then Some(Replace(content, cs)) else DocFile(s, q))
      && IsDirAt(t, q) ==
          (if Walk(s.dentries, ROOT, q).Some? then IsDirAt(s, q) else q < p && Walk(t.dentries, ROOT, q).Some?)
      && (Walk(s.dentries, ROOT, q).None? && Walk(t.dentries, ROOT, q).Some? ==> q <= p)
  {
    hide DocParts, Place, Walk, Replace, TreeOk, PutFile, FileOf;
    var p, placed, ino := DocParts(path), Place(s, path).0, Place(s, path).1;
    PlaceMeaning(s, path);
    WalkBounds(placed, p);
    PutFileApart(placed, ino, Replace(content, cs));
    PutDoc(placed, p, ino, Replace(content, cs), q);
    DirsPlaced(s, path, p, placed, ino, p);
    if Walk(placed.dentries, ROOT, q).Some? { DirsPlaced(s, path, p, placed, ino, q); }
    hide Placed, Grows;
    if q != p { PlacedDoc(s, path, p, placed, ino, q); }
    if Walk(placed.dentries, ROOT, q).Some? { WalkBounds(placed, q); }
  }

  lemma DirsPlaced(s: Store, path: string, p: Parts, t: Store, ino: nat, q: Parts)
    requires TreeOk(s) && Placed(s, path, p, t, ino) && Walk(t.dentries, ROOT, q).Some?
    ensures Walk(s.dentries, ROOT, q).Some? ==> IsDirAt(t, q) == IsDirAt(s, q)
    ensures Walk(s.dentries, ROOT, q).None? ==> IsDirAt(t, q) == (q < p) && q <= p
  {
    hide Walk, TreeOk;
    if Walk(s.dentries, ROOT, q).Some? {
      WalkBounds(s, q);
    } else if q != p {
      PlacedDoc(s, path, p, t, ino, q);
    }
  }

  // Upserting a document gives its path exactly the new body, and changes no other
  // document: not its inode, not its bytes. An existing path keeps its inode. Paths that
  // come to resolve are the directories on the way. A path that is already a directory is
  // the one case where no document appears.
  lemma UpsertUpdatesOnePath(s: Store, path: string, content: Bytes, cs: nat)
    requires TreeOk(s) && cs > 0
    ensures var (t, ino) := UpsertDoc(s, path, content, cs); var p := DocParts(path);
      && TreeOk(t)
      && Walk(t.dentries, ROOT, p) == Some(ino) && Content(t, ino) == content
      && (forall q :: Walk(s.dentries, ROOT, q).Some? ==> Walk(t.dentries, ROOT, q) == Walk(s.dentries, ROOT, q))
      && (forall q :: Doc(t, q) == if q == p && !IsDirAt(s, p) then Some(content) else Doc(s, q))
      && (forall q :: Walk(s.dentries, ROOT, q).None? && Walk(t.dentries, ROOT, q).Some? && q != p ==>
        q < p && IsDirAt(t, q))
      && t.remote == if Walk(s.dentries, ROOT, p).Some? then s.remote else s.remote[ino := path]
  {
    UpsertTree(s, path, content, cs);
    hide DocParts, UpsertDoc, Walk, TreeOk, ReadAll, Replace, Represents, FileOf, IsDirAt, DocFile;
    ReplaceRefines(content, cs);
    ReadAllRefines(Replace(content, cs), content, cs);
    var t, p := UpsertDoc(s, path, content, cs).0, DocParts(path);
    forall q
      ensures Doc(t, q) == if q == p && !IsDirAt(s, p) then Some(content) else Doc(s, q)
      ensures Walk(s.dentries, ROOT, q).None? && Walk(t.dentries, ROOT, q).Some? && q != p ==> q < p && IsDirAt(t, q)
    {
      UpsertAt(s, path, content, cs, q);
    }
  }
}
