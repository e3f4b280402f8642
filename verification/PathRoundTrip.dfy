// Deriving a document path from an inode (`build_path_for_ino`, cache/db.rs) against
// resolving paths to inodes (cache/fs.rs), and the consistency of the recorded remote
// paths that rests on the two being inverse.
module PathRoundTrip {
  import opened Basics
  import opened Paths
  import opened Tree

  // The entry that names an inode.
  ghost function EntryOf(d: Dentries, ino: nat): (k: Option<(nat, string)>)
    ensures k.None? ==> forall e :: e in d ==> d[e] != ino
    ensures k.Some? ==> k.value in d && d[k.value] == ino
  {
    if exists e :: e in d && d[e] == ino then
      var e :| e in d && d[e] == ino;
      Some(e)
    else None
  }

  // Names on the way up, at most `limit` of them.
  ghost function Climb(d: Dentries, ino: nat, limit: nat): Option<Parts>
    decreases limit
  {
    if limit == 0 then Some([])
    else match EntryOf(d, ino)
      case None => None
      case Some((parent, name)) =>
        if parent == ROOT then Some([name])
        else match Climb(d, parent, limit - 1)
          case None => None
          case Some(up) => Some(up + [name])
  }

  // Bare paths are private notes.
  function MountPath(joined: string): string {
    if joined == "private" || joined == "workspace" || "private/" <= joined || "workspace/" <= joined then "/" + joined
    else "/private/notes/" + joined
  }

  ghost function BuildPath(d: Dentries, ino: nat): Option<string> {
    if ino == ROOT then None
    else match Climb(d, ino, CLIMB_LIMIT)
      case None => None
      case Some(parts) => if parts == [] then None else Some(MountPath(Join(parts)))
  }

  predicate WritableRoot(name: string) { name == "private" || name == "workspace" }

  // Paths the climb gives back. Beyond its limit it drops the top of the path; what it
  // puts there instead is right for one depth and one top only.
  predicate RoundTrips(parts: Parts) {
    if |parts| <= 64 then parts != [] && WritableRoot(parts[0])
    else |parts| == 66 && parts[0] == "private" && parts[1] == "notes" && !WritableRoot(parts[2])
  }

  // The climb sees the last `limit` names of the path.
  lemma {:induction false} ClimbMeaning(s: Store, parts: Parts, limit: nat)
    requires TreeOk(s) && parts != [] && Walk(s.dentries, ROOT, parts).Some?
    ensures Climb(s.dentries, Walk(s.dentries, ROOT, parts).value, limit) == Some(parts[Max(0, |parts| - limit)..])
    decreases |parts|
  {
    hide Walk;
    if limit > 0 {
      WalkLast(s, parts);
      var up := Walk(s.dentries, ROOT, Initial(parts)).value;
      var ino := Walk(s.dentries, ROOT, parts).value;
      assert EntryOf(s.dentries, ino) == Some((up, Last(parts)));
      if up == ROOT {
        RootPath(s, Initial(parts));
        assert parts == [Last(parts)];
      } else {
        NotRootPath(s, Initial(parts));
        ClimbMeaning(s, Initial(parts), limit - 1);
        ClimbStep(parts, limit);
      }
    } else {
      assert parts[|parts|..] == [];
    }
  }

  lemma ClimbStep(parts: Parts, limit: nat)
    requires |parts| > 1 && limit > 0
    ensures Initial(parts)[Max(0, |parts| - 1 - (limit - 1))..] + [Last(parts)] == parts[Max(0, |parts| - limit)..]
  {
  }

  lemma RootPath(s: Store, parts: Parts)
    requires TreeOk(s) && Walk(s.dentries, ROOT, parts) == Some(ROOT)
    ensures parts == []
  {
    WalkBounds(s, parts);
  }

  lemma NotRootPath(s: Store, parts: Parts)
    requires Walk(s.dentries, ROOT, parts).Some? && Walk(s.dentries, ROOT, parts) != Some(ROOT)
    ensures parts != []
  {
  }

  // ---- The text of a path ------------------------------------------------------------------

  // A joined path starts with its first name, up to a slash or its end.
  lemma JoinHead(parts: Parts, name: string)
    requires parts != [] && NamesOk(parts) && NameOk(name)
    ensures Join(parts) == name || name + "/" <= Join(parts) <==> parts[0] == name
  {
    var joined := Join(parts);
    assert parts[0] in parts;
    SplitJoin(parts);
    if joined == name {
      SplitWhole(name, '/');
    } else if name + "/" <= joined {
      assert joined == name + ['/'] + joined[|name| + 1..];
      SplitHead(name, '/', joined[|name| + 1..]);
    }
  }

  lemma JoinCons(name: string, parts: Parts)
    requires parts != []
    ensures Join([name] + parts) == name + "/" + Join(parts)
  {
    assert ([name] + parts)[1..] == parts;
  }

  lemma JoinNotes(parts: Parts)
    requires parts != []
    ensures "/" + Join(["private", "notes"] + parts) == "/private/notes/" + Join(parts)
  {
    var rest := Join(parts);
    assert ["private", "notes"] + parts == ["private"] + (["notes"] + parts);
    JoinCons("private", ["notes"] + parts);
    JoinCons("notes", parts);
    hide Join;
    assert "/" + ("private" + "/" + ("notes" + "/" + rest)) == "/private/notes/" + rest;
  }

  lemma MountPathMeaning(parts: Parts)
    requires parts != [] && NamesOk(parts)
    ensures MountPath(Join(parts)) == Absolute(if WritableRoot(parts[0]) then parts else ["private", "notes"] + parts)
  {
    SmallNames();
    hide NameOk, NamesOk, Join;
    JoinHead(parts, "private");
    JoinHead(parts, "workspace");
    JoinNotes(parts);
    assert "private" + "/" == "private/" && "workspace" + "/" == "workspace/";
  }

  lemma SmallNames()
    ensures NameOk("private") && NameOk("workspace") && NameOk("notes")
  {
  }

  // The names the built path stands for.
  ghost function Mounted(parts: Parts): Parts
    requires parts != []
  {
    var seen := parts[Max(0, |parts| - CLIMB_LIMIT)..];
    if WritableRoot(seen[0]) then seen else ["private", "notes"] + seen
  }

  lemma MountedIff(parts: Parts)
    requires parts != []
    ensures Mounted(parts) == parts <==> RoundTrips(parts)
  {
    var seen := parts[Max(0, |parts| - CLIMB_LIMIT)..];
    var full := ["private", "notes"] + seen;
    if |parts| == CLIMB_LIMIT + 2 {
      assert full[0] == "private" && full[1] == "notes";
      assert parts == parts[..2] + seen;
      if parts[0] == "private" && parts[1] == "notes" {
        assert parts[..2] == ["private", "notes"];
      }
    }
  }

  lemma BuildPathMeaning(s: Store, parts: Parts)
    requires TreeOk(s) && NamedOk(s) && parts != [] && Walk(s.dentries, ROOT, parts).Some?
    ensures NamesOk(parts) && NamesOk(Mounted(parts))
    ensures BuildPath(s.dentries, Walk(s.dentries, ROOT, parts).value) == Some(Absolute(Mounted(parts)))
  {
    hide Walk, TreeOk, NamedOk, MountPath, Absolute, NameOk;
    WalkBounds(s, parts);
    ClimbMeaning(s, parts, CLIMB_LIMIT);
    var seen := parts[Max(0, |parts| - CLIMB_LIMIT)..];
    assert seen != [] && NamesOk(seen);
    MountPathMeaning(seen);
    SmallNames();
  }

  // For an inode at `parts`: the built path is the path of those names, and resolving
  // the built path gives the inode back, if and only if `parts` is one that round-trips.
  lemma BuildInvertsResolve(s: Store, parts: Parts)
    requires TreeOk(s) && NamedOk(s) && parts != [] && Walk(s.dentries, ROOT, parts).Some?
    ensures var ino := Walk(s.dentries, ROOT, parts).value; var path := BuildPath(s.dentries, ino);
      && path.Some?
      && (path.value == Absolute(parts) <==> RoundTrips(parts))
      && (Walk(s.dentries, ROOT, ResolveParts(path.value)) == Some(ino) <==> RoundTrips(parts))
      && (Walk(s.dentries, ROOT, DocParts(path.value)) == Some(ino) <==> RoundTrips(parts))
  {
    hide Walk, TreeOk, NamedOk, BuildPath, Absolute, NamesOk, Mounted, RoundTrips, ResolveParts, DocParts;
    BuildPathMeaning(s, parts);
    MountedIff(parts);
    MountedNonEmpty(parts);
    AbsoluteParts(Mounted(parts));
    if Absolute(Mounted(parts)) == Absolute(parts) { AbsoluteInjective(Mounted(parts), parts); }
    if Walk(s.dentries, ROOT, Mounted(parts)) == Walk(s.dentries, ROOT, parts) { OnePath(s, parts, Mounted(parts)); }
  }

  // The root has no path, and neither has an inode without an entry.
  lemma NoPathWithoutEntry(d: Dentries, ino: nat)
    requires ino == 1 || forall k :: k in d ==> d[k] != ino
    ensures BuildPath(d, ino).None?
  {
  }

  lemma MountedNonEmpty(parts: Parts)
    requires parts != []
    ensures Mounted(parts) != []
  {
  }

  // ---- Remote paths ----------------------------------------------------------------------------

  // Every recorded remote path leads to the inode it is recorded for.
  ghost predicate PathsOk(s: Store) {
    forall i :: i in s.remote ==> Walk(s.dentries, ROOT, DocParts(s.remote[i])) == Some(i)
  }

  lemma UpsertKeepsPaths(s: Store, path: string, content: Bytes, cs: nat)
    requires TreeOk(s) && PathsOk(s) && cs > 0
    ensures PathsOk(UpsertDoc(s, path, content, cs).0)
  {
    hide TreeOk, UpsertDoc, Walk, DocParts, Doc, IsDirAt;
    UpsertUpdatesOnePath(s, path, content, cs);
  }

  // `flush` records the derived path of an inode that has none.
  ghost function Register(s: Store, ino: nat): Store {
    if ino in s.remote then s
    else match BuildPath(s.dentries, ino)
      case None => s
      case Some(path) => s.(remote := s.remote[ino := path])
  }

  // Creating a file and flushing it keeps the paths consistent if and only if its path
  // round-trips.
  lemma FlushKeepsPathsIff(s: Store, parts: Parts)
    requires TreeOk(s) && NamedOk(s) && PathsOk(s) && parts != [] && Walk(s.dentries, ROOT, parts).Some?
    requires Walk(s.dentries, ROOT, parts).value !in s.remote
    ensures PathsOk(Register(s, Walk(s.dentries, ROOT, parts).value)) <==> RoundTrips(parts)
  {
    hide TreeOk, NamedOk, Walk, DocParts, BuildPath, RoundTrips, Absolute, ResolveParts;
    BuildInvertsResolve(s, parts);
    var ino := Walk(s.dentries, ROOT, parts).value;
    var t := Register(s, ino);
    assert Walk(t.dentries, ROOT, DocParts(t.remote[ino])) == Some(ino) <==> RoundTrips(parts);
  }
}
