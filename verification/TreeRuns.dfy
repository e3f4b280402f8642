// Insert-only runs of the cached tree against the plainest model of a file system there
// is: a map from path to bytes and a set of directories.
module TreeRuns {
  import opened Basics
  import opened ChunkStore
  import opened Paths
  import opened PathRoundTrip
  import opened Tree

  const MAX_NAME_LEN := 255

  datatype TreeOp =
    | Upsert(path: string, body: Bytes)                       // a pulled document
    | Mkdir(dir: Parts, name: string)
    | Create(dir: Parts, name: string)
    | WriteTo(file: Parts, offset: nat, data: Bytes)
    | TruncateTo(file: Parts, size: nat)
    | Flush(file: Parts)

  // `mkdir` and `create_file` under the directory at `dir`; errors change nothing, and
  // creating a file that exists opens it.
  function Enter(s: Store, dir: Parts, name: string, isDir: bool): Store {
    match Walk(s.dentries, ROOT, dir)
    case None => s
    case Some(parent) =>
      if |name| > MAX_NAME_LEN || !IsDir(s, parent) || Lookup(s.dentries, parent, name).Some? then s
      else AddEntry(s, parent, name, isDir)
  }

  // An operation on the open file at `parts`; directories cannot be opened.
  function OnFile(s: Store, parts: Parts, f: File -> File): Store {
    match Walk(s.dentries, ROOT, parts)
    case None => s
    case Some(ino) => if IsDir(s, ino) then s else PutFile(s, ino, f(FileOf(s, ino)))
  }

  ghost function Apply(s: Store, op: TreeOp, cs: nat): Store
    requires cs > 0
  {
    match op
    case Upsert(path, body) => UpsertDoc(s, path, body, cs).0
    case Mkdir(dir, name) => Enter(s, dir, name, true)
    case Create(dir, name) => Enter(s, dir, name, false)
    case WriteTo(file, offset, data) => OnFile(s, file, f => Write(f, offset, data, cs))
    case TruncateTo(file, size) => OnFile(s, file, f => Truncate(f, size, cs))
    case Flush(file) =>
      match Walk(s.dentries, ROOT, file)
      case None => s
      case Some(ino) => Register(s, ino)
  }

  ghost function Run(s: Store, ops: seq<TreeOp>, cs: nat): Store
    requires cs > 0
  {
    if ops == [] then s else Apply(Run(s, ops[..|ops| - 1], cs), ops[|ops| - 1], cs)
  }

  // ---- The plain model ---------------------------------------------------------------------

  datatype Plain = Plain(docs: map<Parts, Bytes>, dirs: set<Parts>)

  const NEW_PLAIN := Plain(map[], {[]})

  function Prefixes(p: Parts): set<Parts> { set i | 0 <= i < |p| :: p[..i] }

  predicate Known(m: Plain, p: Parts) { p in m.docs || p in m.dirs }

  function PlainStep(m: Plain, op: TreeOp): Plain {
    match op
    case Upsert(path, body) =>
      var p := DocParts(path);
      Plain(if p in m.dirs then m.docs else m.docs[p := body], m.dirs + (set q | q in Prefixes(p) && q !in m.docs))
    case Mkdir(dir, name) =>
      if |name| > 255 || dir !in m.dirs || Known(m, dir + [name]) then m
        else m.(dirs := m.dirs + {dir + [name]})
    case Create(dir, name) =>
      if |name| > 255 || dir !in m.dirs || Known(m, dir + [name]) then m
        else m.(docs := m.docs[dir + [name] := []])
    case WriteTo(file, offset, data) =>
      if file in m.docs then m.(docs := m.docs[file := FlatWrite(m.docs[file], offset, data)]) else m
    case TruncateTo(file, size) =>
      if file in m.docs then m.(docs := m.docs[file := FlatTruncate(m.docs[file], size)]) else m
    case Flush(_) => m
  }

  function PlainRun(ops: seq<TreeOp>): Plain {
    if ops == [] then NEW_PLAIN else PlainStep(PlainRun(ops[..|ops| - 1]), ops[|ops| - 1])
  }

  // Writes and truncations the chunked files do as a flat buffer does.
  predicate OpOk(m: Plain, op: TreeOp, cs: nat)
    requires cs > 0
  {
    match op
    case WriteTo(file, offset, data) => file in m.docs ==> Covered(|m.docs[file]|, offset, data, cs)
    case TruncateTo(file, size) => file in m.docs ==> size <= |m.docs[file]|
    case _ => true
  }

  ghost predicate RunOk(ops: seq<TreeOp>, cs: nat)
    requires cs > 0
  {
    forall i :: 0 <= i < |ops| ==> OpOk(PlainRun(ops[..i]), ops[i], cs)
  }

  ghost predicate Agrees(s: Store, m: Plain, cs: nat, q: Parts) {
    && (q in m.dirs <==> IsDirAt(s, q))
    && (q in m.docs <==> DocFile(s, q).Some?)
    && (q in m.docs && DocFile(s, q).Some? ==> Represents(DocFile(s, q).value, m.docs[q], cs))
  }

  // The tree holds exactly the documents and directories of the map.
  ghost predicate Refines(s: Store, m: Plain, cs: nat) {
    && TreeOk(s)
    && (forall q :: Agrees(s, m, cs, q))
  }

  lemma AgreesKnown(s: Store, m: Plain, cs: nat, q: Parts)
    requires Agrees(s, m, cs, q)
    ensures Known(m, q) <==> Walk(s.dentries, ROOT, q).Some?
    ensures !(q in m.docs && q in m.dirs)
  {
  }

  // ---- One step --------------------------------------------------------------------------------

  lemma {:induction false} WalkPrefix(d: Dentries, p: Parts, i: nat)
    requires i <= |p| && Walk(d, ROOT, p).Some?
    ensures Walk(d, ROOT, p[..i]).Some?
    decreases |p|
  {
    if i < |p| {
      assert p == Initial(p) + [Last(p)];
      WalkSnoc(d, ROOT, Initial(p), Last(p));
      WalkPrefix(d, Initial(p), i);
      assert Initial(p)[..i] == p[..i];
    } else {
      assert p[..i] == p;
    }
  }

  lemma PrefixesMeaning(p: Parts, q: Parts)
    ensures q in Prefixes(p) <==> q < p
  {
    if q < p {
      assert q == p[..|q|];
    }
  }

  lemma UpsertRefines(s: Store, m: Plain, path: string, body: Bytes, cs: nat)
    requires cs > 0 && Refines(s, m, cs)
    ensures Refines(UpsertDoc(s, path, body, cs).0, PlainStep(m, Upsert(path, body)), cs)
  {
    hide TreeOk, UpsertDoc, DocParts, Walk, Represents, Replace, Prefixes, IsDirAt, DocFile;
    var t, n, p := UpsertDoc(s, path, body, cs).0, PlainStep(m, Upsert(path, body)), DocParts(path);
    UpsertTree(s, path, body, cs);
    ReplaceRefines(body, cs);
    forall q ensures Agrees(t, n, cs, q) {
      assert Agrees(s, m, cs, q) && Agrees(s, m, cs, p);
      AgreesKnown(s, m, cs, q);
      UpsertAt(s, path, body, cs, q);
      PrefixesMeaning(p, q);
      if q <= p {
        WalkPrefix(t.dentries, p, |q|);
        assert q == p[..|q|];
      }
    }
  }

  lemma AddAt(s: Store, dir: Parts, parent: nat, name: string, isDir: bool, q: Parts)
    requires TreeOk(s) && Walk(s.dentries, ROOT, dir) == Some(parent) && (parent, name) !in s.dentries
    ensures var t := AddEntry(s, parent, name, isDir);
      if q == dir + [name] then
        && Walk(s.dentries, ROOT, q).None?
        && DocFile(t, q) == (if isDir then None else Some(EMPTY_FILE)) && IsDirAt(t, q) == isDir
      else DocFile(t, q) == DocFile(s, q) && IsDirAt(t, q) == IsDirAt(s, q)
  {
    hide TreeOk, Walk, NamedOk;
    var t := AddEntry(s, parent, name, isDir);
    AddGrows(s, dir, parent, name, isDir);
    BoundedInodes(s);
    WalkBounds(s, dir);
    WalkSnoc(s.dentries, ROOT, dir, name);
    FreshHasNoRows(s);
    if Walk(s.dentries, ROOT, q).Some? {
      WalkBounds(s, q);
    } else if q != dir + [name] && Walk(t.dentries, ROOT, q).Some? {
      WalkAdd(s, ROOT, q, parent, name, isDir);
      OnePath(s, Initial(q), dir);
    }
  }

  lemma FreshHasNoRows(s: Store)
    requires TreeOk(s)
    ensures s.nextIno !in s.inodes && s.nextIno !in s.chunks
  {
  }

  lemma EnterRefines(s: Store, m: Plain, dir: Parts, name: string, isDir: bool, cs: nat)
    requires cs > 0 && Refines(s, m, cs)
    ensures Refines(Enter(s, dir, name, isDir), PlainStep(m, if isDir then Mkdir(dir, name) else Create(dir, name)), cs)
  {
    hide TreeOk, Walk, Represents, DocFile, NamedOk, AddEntry;
    var t, n := Enter(s, dir, name, isDir), PlainStep(m, if isDir then Mkdir(dir, name) else Create(dir, name));
    assert Agrees(s, m, cs, dir) && Agrees(s, m, cs, dir + [name]);
    AgreesKnown(s, m, cs, dir + [name]);
    WalkSnoc(s.dentries, ROOT, dir, name);
    if |name| <= MAX_NAME_LEN && dir in m.dirs && !Known(m, dir + [name]) {
      var parent := Walk(s.dentries, ROOT, dir).value;
      AddGrows(s, dir, parent, name, isDir);
      EmptyRepresents(cs);
      forall q ensures Agrees(t, n, cs, q) {
        assert Agrees(s, m, cs, q);
        AddAt(s, dir, parent, name, isDir, q);
      }
    }
  }

  lemma EmptyRepresents(cs: nat)
    requires cs > 0
    ensures Represents(EMPTY_FILE, [], cs)
  {
  }

  // Rewriting the file at `file` so that it stands for `buf`.
  lemma RewriteRefines(s: Store, m: Plain, file: Parts, f: File, buf: Bytes, cs: nat)
    requires cs > 0 && Refines(s, m, cs) && file in m.docs && Represents(f, buf, cs)
    ensures Walk(s.dentries, ROOT, file).Some?
    ensures Refines(PutFile(s, Walk(s.dentries, ROOT, file).value, f), m.(docs := m.docs[file := buf]), cs)
  {
    hide TreeOk, Walk, Represents, PutFile, FileOf, NamedOk;
    assert Agrees(s, m, cs, file);
    var ino := Walk(s.dentries, ROOT, file).value;
    WalkBounds(s, file);
    PutFileApart(s, ino, f);
    var t, n := PutFile(s, ino, f), m.(docs := m.docs[file := buf]);
    forall q ensures Agrees(t, n, cs, q) {
      assert Agrees(s, m, cs, q);
      PutDoc(s, file, ino, f, q);
      if Walk(s.dentries, ROOT, q).Some? { WalkBounds(s, q); }
    }
  }

  lemma OnFileRefines(s: Store, m: Plain, op: TreeOp, cs: nat)
    requires cs > 0 && Refines(s, m, cs) && OpOk(m, op, cs) && (op.WriteTo? || op.TruncateTo?)
    ensures Refines(Apply(s, op, cs), PlainStep(m, op), cs)
  {
    hide TreeOk, Walk, Represents, PutFile, Write, Truncate, FlatWrite, FlatTruncate, Covered, FileOf;
    var file := op.file;
    assert Agrees(s, m, cs, file);
    if file in m.docs {
      var f, buf := DocFile(s, file).value, m.docs[file];
      if op.WriteTo? {
        WriteRefines(f, buf, op.offset, op.data, cs);
        RewriteRefines(s, m, file, Write(f, op.offset, op.data, cs), FlatWrite(buf, op.offset, op.data), cs);
      } else {
        TruncateRefines(f, buf, op.size, cs);
        RewriteRefines(s, m, file, Truncate(f, op.size, cs), FlatTruncate(buf, op.size), cs);
      }
    }
  }

  lemma RegisterRefines(s: Store, m: Plain, ino: nat, cs: nat)
    requires cs > 0 && Refines(s, m, cs) && ino in s.inodes
    ensures Refines(Register(s, ino), m, cs)
  {
    hide Walk, Represents, BuildPath;
    var t := Register(s, ino);
    forall q ensures Agrees(t, m, cs, q) {
      assert Agrees(s, m, cs, q);
    }
  }

  lemma StepRefines(s: Store, m: Plain, op: TreeOp, cs: nat)
    requires cs > 0 && Refines(s, m, cs) && OpOk(m, op, cs)
    ensures Refines(Apply(s, op, cs), PlainStep(m, op), cs)
  {
    hide Refines, UpsertDoc, Enter, Register;
    match op {
      case Upsert(path, body) => UpsertRefines(s, m, path, body, cs);
      case Mkdir(dir, name) => EnterRefines(s, m, dir, name, true, cs);
      case Create(dir, name) => EnterRefines(s, m, dir, name, false, cs);
      case Flush(file) =>
        if Walk(s.dentries, ROOT, file).Some? {
          RefinesTree(s, m, cs);
          WalkBounds(s, file);
          RegisterRefines(s, m, Walk(s.dentries, ROOT, file).value, cs);
        }
      case WriteTo(_, _, _) => OnFileRefines(s, m, op, cs);
      case TruncateTo(_, _) => OnFileRefines(s, m, op, cs);
    }
  }

  lemma RefinesTree(s: Store, m: Plain, cs: nat)
    requires Refines(s, m, cs)
    ensures TreeOk(s)
  {
  }

  // ---- Whole runs -----------------------------------------------------------------------------

  lemma NewRefines(cs: nat)
    requires cs > 0
    ensures Refines(NEW_STORE, NEW_PLAIN, cs)
  {
    forall q ensures Agrees(NEW_STORE, NEW_PLAIN, cs, q) {
      if q != [] {
        assert Walk(NEW_STORE.dentries, ROOT, q).None?;
      }
    }
  }

  // After any insert-only run of upserts, directory and file creation, covered writes,
  // non-growing truncations and flushes, the documents of the tree are those of the map:
  // the same paths, with the same bytes, beside the same directories.
  lemma {:induction false} TreeRefinesMap(ops: seq<TreeOp>, cs: nat)
    requires cs > 0 && RunOk(ops, cs)
    ensures Refines(Run(NEW_STORE, ops, cs), PlainRun(ops), cs)
    ensures forall q ::
      Doc(Run(NEW_STORE, ops, cs), q) == if q in PlainRun(ops).docs then Some(PlainRun(ops).docs[q]) else None
  {
    hide Refines;
    if ops == [] {
      NewRefines(cs);
    } else {
      var front := ops[..|ops| - 1];
      forall i | 0 <= i < |front| ensures OpOk(PlainRun(front[..i]), front[i], cs) {
        assert front[..i] == ops[..i];
      }
      TreeRefinesMap(front, cs);
      StepRefines(Run(NEW_STORE, front, cs), PlainRun(front), ops[|ops| - 1], cs);
    }
    RefinesDocs(Run(NEW_STORE, ops, cs), PlainRun(ops), cs);
  }

  lemma RefinesDocs(s: Store, m: Plain, cs: nat)
    requires cs > 0 && Refines(s, m, cs)
    ensures forall q :: Doc(s, q) == if q in m.docs then Some(m.docs[q]) else None
  {
    hide TreeOk, Represents, DocFile, ReadAll;
    forall q ensures Doc(s, q) == if q in m.docs then Some(m.docs[q]) else None {
      assert Agrees(s, m, cs, q);
      if q in m.docs {
        ReadAllRefines(DocFile(s, q).value, m.docs[q], cs);
      }
    }
  }

  // A resolved path keeps its inode through any run.
  lemma {:induction false} InodesAreStable(s: Store, ops: seq<TreeOp>, cs: nat, q: Parts)
    requires cs > 0 && TreeOk(s) && Walk(s.dentries, ROOT, q).Some?
    ensures TreeOk(Run(s, ops, cs)) && Walk(Run(s, ops, cs).dentries, ROOT, q) == Walk(s.dentries, ROOT, q)
  {
    hide TreeOk, Walk, Apply;
    if ops != [] {
      InodesAreStable(s, ops[..|ops| - 1], cs, q);
      StepKeepsTree(Run(s, ops[..|ops| - 1], cs), ops[|ops| - 1], cs);
    }
  }

  lemma StepKeepsTree(s: Store, op: TreeOp, cs: nat)
    requires cs > 0 && TreeOk(s)
    ensures var t := Apply(s, op, cs);
      TreeOk(t) && forall q :: Walk(s.dentries, ROOT, q).Some? ==>
        Walk(t.dentries, ROOT, q) == Walk(s.dentries, ROOT, q)
  {
    hide TreeOk, Walk, UpsertDoc, NamedOk, PutFile, AddEntry, FileOf, BuildPath;
    match op {
      case Upsert(path, body) => UpsertTree(s, path, body, cs);
      case Flush(file) =>
        if Walk(s.dentries, ROOT, file).Some? {
          WalkBounds(s, file);
          RegisterTree(s, Walk(s.dentries, ROOT, file).value);
        }
      case Mkdir(dir, name) => EnterTree(s, dir, name, true);
      case Create(dir, name) => EnterTree(s, dir, name, false);
      case WriteTo(file, offset, data) => OnFileTree(s, file, f => Write(f, offset, data, cs));
      case TruncateTo(file, size) => OnFileTree(s, file, f => Truncate(f, size, cs));
    }
  }

  lemma OnFileTree(s: Store, parts: Parts, f: File -> File)
    requires TreeOk(s)
    ensures var t := OnFile(s, parts, f);
      TreeOk(t) && t.dentries == s.dentries && t.remote == s.remote && (NamedOk(s) ==> NamedOk(t))
  {
    hide TreeOk, Walk, NamedOk, PutFile, FileOf;
    if Walk(s.dentries, ROOT, parts).Some? {
      var ino := Walk(s.dentries, ROOT, parts).value;
      WalkBounds(s, parts);
      PutFileApart(s, ino, f(FileOf(s, ino)));
    }
  }

  lemma RegisterTree(s: Store, ino: nat)
    requires TreeOk(s) && ino in s.inodes
    ensures TreeOk(Register(s, ino)) && Register(s, ino).dentries == s.dentries
  {
    hide BuildPath;
  }

  lemma EnterTree(s: Store, dir: Parts, name: string, isDir: bool)
    requires TreeOk(s)
    ensures var t := Enter(s, dir, name, isDir);
      && TreeOk(t) && t.remote == s.remote && (NamedOk(s) && NameOk(name) ==> NamedOk(t))
      && forall q :: Walk(s.dentries, ROOT, q).Some? ==> Walk(t.dentries, ROOT, q) == Walk(s.dentries, ROOT, q)
  {
    hide TreeOk, Walk, NamedOk, NameOk;
    if Enter(s, dir, name, isDir) != s {
      AddGrows(s, dir, Walk(s.dentries, ROOT, dir).value, name, isDir);
    }
  }

  // ---- Remote paths over runs ---------------------------------------------------------------------

  // Names are usable as path components, and a file whose path is derived at its flush is
  // where deriving inverts resolving.
  ghost predicate PathOpOk(s: Store, op: TreeOp) {
    match op
    case Upsert(path, _) => NamesOk(DocParts(path))
    case Mkdir(_, name) => NameOk(name)
    case Create(_, name) => NameOk(name)
    case Flush(file) =>
      file != [] && (Walk(s.dentries, ROOT, file).Some? && Walk(s.dentries, ROOT, file).value !in s.remote ==>
        RoundTrips(file))
    case _ => true
  }

  lemma StepKeepsPaths(s: Store, op: TreeOp, cs: nat)
    requires cs > 0 && TreeOk(s) && NamedOk(s) && PathsOk(s) && PathOpOk(s, op)
    ensures NamedOk(Apply(s, op, cs)) && PathsOk(Apply(s, op, cs))
  {
    hide TreeOk, Walk, UpsertDoc, NamedOk, PutFile, AddEntry, FileOf, BuildPath, DocParts, NameOk, RoundTrips, NamesOk;
    StepKeepsTree(s, op, cs);
    match op {
      case Upsert(path, body) =>
        UpsertTree(s, path, body, cs);
        UpsertKeepsPaths(s, path, body, cs);
      case Mkdir(dir, name) => EnterTree(s, dir, name, true);
      case Create(dir, name) => EnterTree(s, dir, name, false);
      case Flush(file) =>
        if Walk(s.dentries, ROOT, file).Some? {
          FlushStepKeepsPaths(s, file);
        }
      case WriteTo(file, offset, data) => OnFileTree(s, file, f => Write(f, offset, data, cs));
      case TruncateTo(file, size) => OnFileTree(s, file, f => Truncate(f, size, cs));
    }
  }

  lemma FlushStepKeepsPaths(s: Store, file: Parts)
    requires TreeOk(s) && NamedOk(s) && PathsOk(s) && file != [] && Walk(s.dentries, ROOT, file).Some?
    requires Walk(s.dentries, ROOT, file).value !in s.remote ==> RoundTrips(file)
    ensures var t := Register(s, Walk(s.dentries, ROOT, file).value); NamedOk(t) && PathsOk(t)
  {
    hide TreeOk, Walk, BuildPath, DocParts, RoundTrips, PathsOk;
    if Walk(s.dentries, ROOT, file).value !in s.remote {
      FlushKeepsPathsIff(s, file);
    }
  }

  // A new file at the root, created and flushed: the path derived for it leads to it if and
  // only if its name is that of a writable root. Any other name breaks the remote paths.
  lemma RootFileKeepsPathsIff(s: Store, name: string, cs: nat)
    requires cs > 0 && TreeOk(s) && NamedOk(s) && PathsOk(s)
    requires NameOk(name) && |name| <= MAX_NAME_LEN && Lookup(s.dentries, ROOT, name).None?
    ensures PathsOk(Run(s, [Create([], name), Flush([name])], cs)) <==> WritableRoot(name)
  {
    hide TreeOk, NamedOk, Walk, DocParts, NameOk, BuildPath, PathsOk, RoundTrips;
    var t := CreateAtRoot(s, name, cs);
    CreateThenFlush(s, name, cs);
    StepKeepsPaths(s, Create([], name), cs);
    FlushKeepsPathsIff(t, [name]);
    assert RoundTrips([name]) == WritableRoot(name) by { OneName(name); }
  }

  lemma OneName(name: string)
    ensures RoundTrips([name]) == WritableRoot(name)
  {
  }

  lemma CreateThenFlush(s: Store, name: string, cs: nat)
    requires cs > 0
    ensures Run(s, [Create([], name), Flush([name])], cs) == Apply(Apply(s, Create([], name), cs), Flush([name]), cs)
  {
    hide Apply;
    var ops := [Create([], name), Flush([name])];
    assert ops[..1] == [ops[0]] && [ops[0]][..0] == [];
    assert Run(s, [], cs) == s && Run(s, [ops[0]], cs) == Apply(s, ops[0], cs);
  }

  lemma CreateAtRoot(s: Store, name: string, cs: nat) returns (t: Store)
    requires cs > 0 && TreeOk(s) && NamedOk(s)
    requires NameOk(name) && |name| <= MAX_NAME_LEN && Lookup(s.dentries, ROOT, name).None?
    ensures t == Apply(s, Create([], name), cs) && TreeOk(t) && NamedOk(t)
    ensures Walk(t.dentries, ROOT, [name]).Some? && Walk(t.dentries, ROOT, [name]).value !in t.remote
  {
    t := AddEntry(s, ROOT, name, false);
    assert Walk(s.dentries, ROOT, []) == Some(ROOT);
    assert [] + [name] == [name];
    AddGrows(s, [], ROOT, name, false);
    FreshHasNoRows(s);
    hide NamedOk, Walk, NameOk, Grows;
  }

  ghost predicate PathRunOk(ops: seq<TreeOp>, cs: nat)
    requires cs > 0
  {
    forall i :: 0 <= i < |ops| ==> PathOpOk(Run(NEW_STORE, ops[..i], cs), ops[i])
  }

  // Through such runs every recorded remote path resolves to its own inode, so no two
  // inodes share one.
  lemma {:induction false} RemotePathsConsistent(ops: seq<TreeOp>, cs: nat)
    requires cs > 0 && PathRunOk(ops, cs)
    ensures var s := Run(NEW_STORE, ops, cs); TreeOk(s) && NamedOk(s) && PathsOk(s)
    ensures var s := Run(NEW_STORE, ops, cs);
      forall i, j :: i in s.remote && j in s.remote && s.remote[i] == s.remote[j] ==> i == j
  {
    hide Walk, DocParts, Apply, PathOpOk;
    if ops != [] {
      var front := ops[..|ops| - 1];
      forall i | 0 <= i < |front| ensures PathOpOk(Run(NEW_STORE, front[..i], cs), front[i]) {
        assert front[..i] == ops[..i];
      }
      RemotePathsConsistent(front, cs);
      hide TreeOk, NamedOk;
      StepKeepsTree(Run(NEW_STORE, front, cs), ops[|ops| - 1], cs);
      StepKeepsPaths(Run(NEW_STORE, front, cs), ops[|ops| - 1], cs);
    }
  }
}
