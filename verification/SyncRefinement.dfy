// The local half of `Sync` is a picture of the tables: its documents, remote rows and
// dirty flags by path are those of `Pull.Cache`, and its local steps are the operations
// of `Pull`, `DbFile` and `Tree` seen through that picture.
module SyncRefinement {
  import opened Basics
  import opened ChunkStore
  import opened Paths
  import opened PathRoundTrip
  import opened PushQueue
  import opened Pull
  import opened Sync
  import SyncRuns
  import opened Tree
  import TreeRuns

  // The one spelling of a path that `build_path_for_ino` produces.
  predicate Canonical(p: Path) {
    var parts := DocParts(p);
    NamesOk(parts) && p == Absolute(parts)
  }

  ghost predicate DocAt(c: Cache, s: Sys, p: Path) {
    Doc(c.store, DocParts(p)) == if p in s.local then Some(s.local[p]) else None
  }

  ghost predicate KnownAt(c: Cache, s: Sys, p: Path) {
    p in s.known <==> Owner(c.store, p).Some?
  }

  function FlagAt(c: Cache, p: Path): Option<int> {
    match At(c, DocParts(p))
    case None => None
    case Some(ino) => if ino in c.dirty then Some(c.dirty[ino]) else None
  }

  ghost predicate DirtyAt(c: Cache, s: Sys, p: Path) {
    FlagAt(c, p) == if p in s.dirty then Some(s.dirty[p]) else None
  }

  ghost predicate PicturedAt(c: Cache, s: Sys, p: Path) {
    DocAt(c, s, p) && KnownAt(c, s, p) && DirtyAt(c, s, p)
  }

  // Only inodes with a row have a dirty flag.
  ghost predicate DirtyOk(c: Cache) {
    forall i :: i in c.dirty ==> i in c.store.inodes
  }

  ghost predicate Pictures(c: Cache, s: Sys) {
    && CacheOk(c) && DirtyOk(c)
    && forall p :: Canonical(p) ==> PicturedAt(c, s, p)
  }

  lemma OwnerIsAt(c: Cache, p: Path)
    requires CacheOk(c) && Owner(c.store, p).Some?
    ensures At(c, DocParts(p)) == Owner(c.store, p)
  {
    hide TreeOk;
  }

  // ---- Pulling ---------------------------------------------------------------------------------

  // Both halves guard the same documents.
  lemma GuardsAgree(c: Cache, s: Sys, doc: Listed)
    requires Pictures(c, s) && Canonical(doc.path)
    ensures Guarded(c, doc) == Protected(s, doc)
  {
    hide Canonical, CacheOk, Outdated, Doc, DocParts;
    assert PicturedAt(c, s, doc.path);
    if Owner(c.store, doc.path).Some? { OwnerIsAt(c, doc.path); }
  }

  // The rows an upsert leaves for a path.
  lemma OwnerAfter(c: Cache, doc: Listed, cs: nat, p: Path)
    requires cs > 0 && CacheOk(c) && Canonical(doc.path) && Canonical(p)
    ensures Owner(ApplyDoc(c, doc, cs).store, p).Some? <==>
      Owner(c.store, p).Some? || (p == doc.path && At(c, DocParts(doc.path)).None?)
  {
    hide TreeOk, PathsOk, UpsertDoc, DocParts, Walk, Absolute, NamesOk;
    var store, ino := UpsertDoc(c.store, doc.path, Body(doc), cs).0, UpsertDoc(c.store, doc.path, Body(doc), cs).1;
    UpsertTree(c.store, doc.path, Body(doc), cs);
    if At(c, DocParts(doc.path)).None? {
      UpsertFreshIno(c.store, doc.path, Body(doc), cs);
      RemoteHasRows(c.store);
      assert store.remote[ino] == doc.path;
      if Owner(c.store, p).Some? {
        assert store.remote[Owner(c.store, p).value] == p;
      }
    }
  }

  lemma RemoteHasRows(s: Store)
    requires TreeOk(s)
    ensures forall i :: i in s.remote ==> i in s.inodes
  {
  }

  lemma DocAfter(c: Cache, doc: Listed, cs: nat, q: Parts)
    requires cs > 0 && CacheOk(c) && !IsDirAt(c.store, DocParts(doc.path))
    ensures Doc(ApplyDoc(c, doc, cs).store, q) == if q == DocParts(doc.path) then Some(Body(doc)) else Doc(c.store, q)
  {
    hide TreeOk, PathsOk, UpsertDoc, DocParts, Walk, Doc, IsDirAt;
    UpsertUpdatesOnePath(c.store, doc.path, Body(doc), cs);
  }

  lemma FlagAfter(c: Cache, doc: Listed, cs: nat, p: Path)
    requires cs > 0 && CacheOk(c) && DirtyOk(c)
    ensures FlagAt(ApplyDoc(c, doc, cs), p) == if DocParts(p) == DocParts(doc.path) then None else FlagAt(c, p)
  {
    hide CacheOk, DocParts, Walk, FileOf, ReadAll, UpsertDoc;
    ApplyAt(c, doc, cs, DocParts(p));
    if At(c, DocParts(p)).None? && At(ApplyDoc(c, doc, cs), DocParts(p)).Some? {
      NewIsClean(c, doc, cs, DocParts(p));
    }
  }

  lemma NewIsClean(c: Cache, doc: Listed, cs: nat, q: Parts)
    requires cs > 0 && CacheOk(c) && DirtyOk(c) && At(c, q).None? && At(ApplyDoc(c, doc, cs), q).Some?
    ensures At(ApplyDoc(c, doc, cs), q).value !in ApplyDoc(c, doc, cs).dirty
  {
    hide TreeOk, PathsOk, DocParts, Walk, UpsertDoc;
    UpsertNewInode(c.store, doc.path, Body(doc), cs, q);
  }

  lemma DirtyOkAfter(c: Cache, doc: Listed, cs: nat)
    requires cs > 0 && CacheOk(c) && DirtyOk(c)
    ensures DirtyOk(ApplyDoc(c, doc, cs))
  {
    hide TreeOk, PathsOk, DocParts, Walk, UpsertDoc;
    UpsertKeepsInodes(c.store, doc.path, Body(doc), cs);
  }

  lemma DocIffAt(c: Cache, parts: Parts)
    requires !IsDirAt(c.store, parts)
    ensures Doc(c.store, parts).Some? <==> At(c, parts).Some?
  {
    hide ReadAll, FileOf;
  }

  lemma ReconciledAt(c: Cache, s: Sys, doc: Listed, cs: nat, t: Sys, p: Path)
    requires cs > 0 && CacheOk(c) && DirtyOk(c) && PicturedAt(c, s, p) && PicturedAt(c, s, doc.path)
    requires Canonical(doc.path) && Canonical(p) && !IsDirAt(c.store, DocParts(doc.path))
    requires t.local == s.local[doc.path := Body(doc)] && t.dirty == s.dirty - {doc.path}
    requires t.known == if doc.path in s.local then s.known else s.known + {doc.path}
    ensures PicturedAt(ApplyDoc(c, doc, cs), t, p)
  {
    CanonicalOne(p);
    hide Canonical, CacheOk, DirtyOk, DocParts, At, ApplyDoc, FlagAt, Doc, IsDirAt, Owner;
    DocIffAt(c, DocParts(doc.path));
    DocAfter(c, doc, cs, DocParts(p));
    OwnerAfter(c, doc, cs, p);
    FlagAfter(c, doc, cs, p);
  }

  // A step of the pull is `ReconcileDoc` on the tables, for a document listed under its
  // canonical path that is not a directory here.
  lemma ReconcilePictures(c: Cache, s: Sys, cs: nat)
    requires cs > 0 && Pictures(c, s) && Pulls(s)
    requires var doc := s.pull.value.todo[0]; Canonical(doc.path) && !IsDirAt(c.store, DocParts(doc.path))
    ensures var doc := s.pull.value.todo[0];
      Pictures(if Takes(c, doc, s.pull.value.since) then ApplyDoc(c, doc, cs) else c, Reconcile(s))
  {
    hide Canonical, CacheOk, DirtyOk, DocAt, KnownAt, DirtyAt, ApplyDoc, IsDirAt, Skipped, Protected, Guarded;
    var doc, t := s.pull.value.todo[0], Reconcile(s);
    GuardsAgree(c, s, doc);
    if Takes(c, doc, s.pull.value.since) {
      ApplyKeepsOk(c, doc, cs);
      DirtyOkAfter(c, doc, cs);
      forall p | Canonical(p) ensures PicturedAt(ApplyDoc(c, doc, cs), t, p) {
        ReconciledAt(c, s, doc, cs, t, p);
      }
    } else {
      forall p | Canonical(p) ensures PicturedAt(c, t, p) {
        SamePicture(c, s, t, p);
      }
    }
  }

  lemma SamePicture(c: Cache, s: Sys, t: Sys, p: Path)
    requires PicturedAt(c, s, p) && t.local == s.local && t.known == s.known && t.dirty == s.dirty
    ensures PicturedAt(c, t, p)
  {
  }

  // Canonical paths are told apart by their components.
  lemma CanonicalOne(p: Path)
    requires Canonical(p)
    ensures forall q :: Canonical(q) && DocParts(q) == DocParts(p) ==> q == p
  {
  }

  // ---- Whole pulls ----------------------------------------------------------------------------------

  function PullDocs(n: nat): seq<Step> { seq(n, i => PullDoc) }

  // A pull that nothing comes between.
  function WholePull(listing: seq<Listed>, full: bool): seq<Step> {
    [BeginPull(listing, full)] + PullDocs(|listing|) + [FinishPull]
  }

  // Each document is listed under its canonical path, and is no directory here when its turn comes.
  ghost predicate ListedOk(c: Cache, listing: seq<Listed>, since: string, cs: nat)
    requires cs > 0
  {
    forall i :: 0 <= i < |listing| ==>
      && Canonical(listing[i].path)
      && !IsDirAt(After(c, listing[..i], since, cs).store, DocParts(listing[i].path))
  }

  // Where the pull stands after `n` documents.
  ghost predicate PulledTo(c: Cache, s: Sys, listing: seq<Listed>, since: string, cs: nat, t: Sys, n: nat)
    requires cs > 0 && n <= |listing|
  {
    && Pictures(After(c, listing[..n], since, cs), t) && t.mark == s.mark
    && t.pull == Some(Pulling(listing[n..], since, Newest(since, Taken(c, listing[..n], since, cs)), s.top))
  }

  lemma ReconcileTakes(s: Sys, c: Cache)
    requires Pulls(s) && Pictures(c, s) && Canonical(s.pull.value.todo[0].path)
    ensures var pulling := s.pull.value; var doc := pulling.todo[0];
      && Reconcile(s).mark == s.mark
      && Reconcile(s).pull == Some(Pulling(pulling.todo[1..], pulling.since,
        if Takes(c, doc, pulling.since) && StrLt(pulling.newest, doc.updatedAt) then doc.updatedAt else pulling.newest,
        pulling.horizon))
  {
    GuardsAgree(c, s, s.pull.value.todo[0]);
    hide Canonical, CacheOk, DirtyOk, PicturedAt, Skipped, Protected, Guarded;
  }

  lemma TakenSteps(c: Cache, listing: seq<Listed>, since: string, cs: nat, n: nat)
    requires cs > 0 && n < |listing|
    ensures var before, doc := After(c, listing[..n], since, cs), listing[n];
      var newest := Newest(since, Taken(c, listing[..n], since, cs));
      && After(c, listing[..n + 1], since, cs)
        == (if Takes(before, doc, since) then ApplyDoc(before, doc, cs) else before)
      && Newest(since, Taken(c, listing[..n + 1], since, cs))
        == if Takes(before, doc, since) && StrLt(newest, doc.updatedAt) then doc.updatedAt else newest
  {
    assert listing[..n + 1][..n] == listing[..n];
    var done := Taken(c, listing[..n], since, cs);
    assert (done + [listing[n]])[..|done|] == done;
    hide ApplyDoc, Takes;
  }

  lemma ListedAt(c: Cache, listing: seq<Listed>, since: string, cs: nat, n: nat)
    requires cs > 0 && n < |listing| && ListedOk(c, listing, since, cs)
    ensures Canonical(listing[n].path)
      && !IsDirAt(After(c, listing[..n], since, cs).store, DocParts(listing[n].path))
  {
  }

  lemma PullStep(t: Sys)
    requires Pulls(t)
    ensures Apply(t, PullDoc) == Reconcile(t)
  {
  }

  lemma PulledDoc(c: Cache, s: Sys, listing: seq<Listed>, since: string, cs: nat, t: Sys, n: nat)
    requires cs > 0 && n < |listing| && ListedOk(c, listing, since, cs) && PulledTo(c, s, listing, since, cs, t, n)
    ensures PulledTo(c, s, listing, since, cs, Apply(t, PullDoc), n + 1)
  {
    hide Canonical, Pictures, ListedOk, ApplyDoc, IsDirAt, Takes, After, Taken, Newest, Reconcile, Apply, DocParts,
      StrLt;
    assert listing[n..][1..] == listing[n + 1..] && listing[n..][0] == listing[n];
    ListedAt(c, listing, since, cs, n);
    var before := After(c, listing[..n], since, cs);
    PullStep(t);
    ReconcileTakes(t, before);
    ReconcilePictures(before, t, cs);
    TakenSteps(c, listing, since, cs, n);
  }

  lemma RunPulls(begun: Sys, n: nat)
    requires n > 0
    ensures Run(begun, PullDocs(n)) == Apply(Run(begun, PullDocs(n - 1)), PullDoc)
  {
    hide Apply;
    assert PullDocs(n)[..n - 1] == PullDocs(n - 1);
  }

  lemma NothingPulled(begun: Sys)
    ensures Run(begun, PullDocs(0)) == begun
  {
  }

  lemma {:induction false} PulledDocs(c: Cache, s: Sys, listing: seq<Listed>, since: string, cs: nat, begun: Sys,
    n: nat)
    requires cs > 0 && n <= |listing| && ListedOk(c, listing, since, cs) && PulledTo(c, s, listing, since, cs, begun, 0)
    ensures PulledTo(c, s, listing, since, cs, Run(begun, PullDocs(n)), n)
  {
    hide Apply, ListedOk, PulledTo, Run, PullDocs;
    if n > 0 {
      PulledDocs(c, s, listing, since, cs, begun, n - 1);
      RunPulls(begun, n);
      PulledDoc(c, s, listing, since, cs, Run(begun, PullDocs(n - 1)), n - 1);
    } else {
      NothingPulled(begun);
    }
  }

  lemma MarkedPicture(c: Cache, s: Sys, d: Cache, t: Sys)
    requires Pictures(c, s) && d == c.(lastSeen := d.lastSeen)
    requires t.local == s.local && t.known == s.known && t.dirty == s.dirty
    ensures Pictures(d, t)
  {
    forall p | Canonical(p) ensures PicturedAt(d, t, p) {
      assert PicturedAt(c, s, p);
    }
  }

  // A pull that nothing comes between is a delta pull, or a full one, on the tables, and leaves
  // the same watermark.
  lemma WholePullPictures(c: Cache, s: Sys, listing: seq<Listed>, full: bool, cs: nat)
    requires cs > 0 && Pictures(c, s) && s.mark == Watermark(c) && Enabled(s, BeginPull(listing, full))
    requires ListedOk(c, listing, if full then "" else Watermark(c), cs)
    ensures var d, t := if full then FullPulled(c, listing, cs) else DeltaPulled(c, listing, cs),
        Run(s, WholePull(listing, full));
      Pictures(d, t) && t.mark == Watermark(d) && t.pull.None?
  {
    hide Canonical, CacheOk, DirtyOk, PicturedAt, ListedOk, After, Taken, Newest, Complete;
    var n, since := |listing|, if full then "" else Watermark(c);
    var begun := Apply(s, BeginPull(listing, full));
    Begins(c, s, listing, since, cs, begun);
    PulledDocs(c, s, listing, since, cs, begun, n);
    var pulled := Run(begun, PullDocs(n));
    assert listing[..n] == listing && listing[n..] == [];
    WholeRun(s, listing, full);
    var d, t := if full then FullPulled(c, listing, cs) else DeltaPulled(c, listing, cs), Apply(pulled, FinishPull);
    MarkedPicture(After(c, listing, since, cs), pulled, d, t);
  }

  lemma Begins(c: Cache, s: Sys, listing: seq<Listed>, since: string, cs: nat, begun: Sys)
    requires cs > 0 && Pictures(c, s) && begun == s.(pull := Some(Pulling(listing, since, since, s.top)))
    ensures PulledTo(c, s, listing, since, cs, begun, 0)
  {
    assert listing[..0] == [] && listing[0..] == listing;
    MarkedPicture(c, s, c, begun);
  }

  lemma WholeRun(s: Sys, listing: seq<Listed>, full: bool)
    ensures Run(s, WholePull(listing, full))
      == Apply(Run(Apply(s, BeginPull(listing, full)), PullDocs(|listing|)), FinishPull)
  {
    hide Apply;
    var begin, all := [BeginPull(listing, full)], WholePull(listing, full);
    assert all[..|all| - 1] == begin + PullDocs(|listing|);
    assert Run(s, begin) == Apply(Run(s, begin[..0]), begin[0]) && begin[..0] == [];
    SyncRuns.RunConcat(s, begin, PullDocs(|listing|));
  }

  // ---- Local edits --------------------------------------------------------------------------------

  // The tables after a write to the file `ino`, or a truncation of it.
  function Written(c: Cache, ino: nat, f: File, marks: bool, now: int): Cache {
    c.(store := PutFile(c.store, ino, f), dirty := if marks then c.dirty[ino := now] else c.dirty)
  }

  lemma WrittenDoc(c: Cache, p: Parts, ino: nat, f: File, q: Parts)
    requires CacheOk(c) && At(c, p) == Some(ino) && Doc(c.store, p).Some?
    ensures Doc(PutFile(c.store, ino, f), q) == if q == p then Some(ReadAll(f)) else Doc(c.store, q)
  {
    hide TreeOk, PathsOk, Walk, ReadAll, PutFile, FileOf;
    PutDoc(c.store, p, ino, f, q);
  }

  // The flag of one path is set.
  lemma MarkedFlag(c: Cache, d: Cache, p: Path, ino: nat, now: int, q: Path)
    requires CacheOk(c) && At(c, DocParts(p)) == Some(ino)
    requires d.store.dentries == c.store.dentries && d.dirty == c.dirty[ino := now]
    ensures FlagAt(d, q) == if DocParts(q) == DocParts(p) then Some(now) else FlagAt(c, q)
  {
    hide TreeOk, PathsOk, Walk, DocParts;
    if At(c, DocParts(q)) == Some(ino) { OnePath(c.store, DocParts(p), DocParts(q)); }
  }

  lemma SameFlag(c: Cache, d: Cache, q: Path)
    requires d.store.dentries == c.store.dentries && d.dirty == c.dirty
    ensures FlagAt(d, q) == FlagAt(c, q)
  {
  }

  lemma EditedAt(c: Cache, s: Sys, p: Path, ino: nat, f: File, marks: bool, now: int, t: Sys, q: Path)
    requires CacheOk(c) && PicturedAt(c, s, q) && PicturedAt(c, s, p) && Canonical(p) && Canonical(q)
    requires p in s.local && At(c, DocParts(p)) == Some(ino)
    requires t.local == s.local[p := ReadAll(f)] && t.known == s.known
      && t.dirty == if marks then s.dirty[p := now] else s.dirty
    ensures PicturedAt(Written(c, ino, f, marks, now), t, q)
  {
    CanonicalOne(p);
    hide Canonical, CacheOk, DocParts, At, ReadAll, Owner, Doc, FlagAt;
    var d := Written(c, ino, f, marks, now);
    WrittenDoc(c, DocParts(p), ino, f, DocParts(q));
    if marks { MarkedFlag(c, d, p, ino, now, q); } else { SameFlag(c, d, q); }
    OwnerSame(c.store, d.store, q);
  }

  lemma PutFileApartAt(s: Store, parts: Parts, ino: nat, f: File)
    requires TreeOk(s) && Walk(s.dentries, ROOT, parts) == Some(ino)
    ensures var t := PutFile(s, ino, f);
      ino in s.inodes && TreeOk(t) && t.dentries == s.dentries && t.remote == s.remote && t.inodes.Keys == s.inodes.Keys
  {
    hide TreeOk, Walk;
    WalkBounds(s, parts);
    PutFileApart(s, ino, f);
  }

  // A write to an open file, or a truncation of it, is an edit of its path.
  lemma EditPictures(c: Cache, s: Sys, p: Path, f: File, marks: bool, now: int)
    requires Pictures(c, s) && Canonical(p) && p in s.local && At(c, DocParts(p)).Some?
    ensures Pictures(Written(c, At(c, DocParts(p)).value, f, marks, now), Apply(s, Edit(p, ReadAll(f), marks, now)))
  {
    hide Canonical, TreeOk, DocParts, Walk, ReadAll, PutFile, DocAt, KnownAt, DirtyAt;
    var ino, t := At(c, DocParts(p)).value, Apply(s, Edit(p, ReadAll(f), marks, now));
    PutFileApartAt(c.store, DocParts(p), ino, f);
    forall q | Canonical(q) ensures PicturedAt(Written(c, ino, f, marks, now), t, q) {
      EditedAt(c, s, p, ino, f, marks, now, t, q);
    }
  }

  // The tables after creating an empty file.
  function Created(c: Cache, parent: nat, name: string): Cache {
    c.(store := AddEntry(c.store, parent, name, false))
  }

  lemma CreatedFlag(c: Cache, dir: Parts, parent: nat, name: string, q: Path)
    requires CacheOk(c) && DirtyOk(c) && Walk(c.store.dentries, ROOT, dir) == Some(parent)
    requires Lookup(c.store.dentries, parent, name).None?
    ensures FlagAt(Created(c, parent, name), q) == FlagAt(c, q)
  {
    hide TreeOk, PathsOk, Walk, DocParts, NamedOk;
    var s, t := c.store, AddEntry(c.store, parent, name, false);
    AddGrows(s, dir, parent, name, false);
    TreeRuns.FreshHasNoRows(s);
    if Walk(s.dentries, ROOT, DocParts(q)).None? && Walk(t.dentries, ROOT, DocParts(q)).Some? {
      NewPathNewInode(s, t, dir + [name], DocParts(q));
      WalkBounds(t, DocParts(q));
    }
  }

  lemma CreatedAt(c: Cache, s: Sys, p: Path, parent: nat, t: Sys, q: Path)
    requires CacheOk(c) && DirtyOk(c) && PicturedAt(c, s, q) && Canonical(p) && Canonical(q)
    requires var parts := DocParts(p); Walk(c.store.dentries, ROOT, Initial(parts)) == Some(parent)
    requires Lookup(c.store.dentries, parent, Last(DocParts(p))).None?
    requires t.local == s.local[p := []] && t.known == s.known && t.dirty == s.dirty
    ensures PicturedAt(Created(c, parent, Last(DocParts(p))), t, q)
  {
    CanonicalOne(p);
    var parts := DocParts(p);
    var d := Created(c, parent, Last(parts));
    assert parts == Initial(parts) + [Last(parts)];
    TreeRuns.AddAt(c.store, Initial(parts), parent, Last(parts), false, DocParts(q));
    assert ReadAll(EMPTY_FILE) == [] by { EmptyReads(); }
    CreatedFlag(c, Initial(parts), parent, Last(parts), q);
    OwnerSame(c.store, d.store, q);
    hide Canonical, CacheOk, DocParts, Owner, FlagAt, DocFile, ReadAll, Initial, Last, IsDirAt, AddEntry;
  }

  lemma EmptyReads()
    ensures ReadAll(EMPTY_FILE) == []
  {
    TreeRuns.EmptyRepresents(1);
    ReadAllRefines(EMPTY_FILE, [], 1);
  }

  // Creating a file is an edit of its path that leaves it empty and raises no flag.
  lemma CreatePictures(c: Cache, s: Sys, p: Path, now: int)
    requires Pictures(c, s) && Canonical(p) && Walk(c.store.dentries, ROOT, Initial(DocParts(p))).Some?
    requires var parent := Walk(c.store.dentries, ROOT, Initial(DocParts(p))).value;
      IsDir(c.store, parent) && Lookup(c.store.dentries, parent, Last(DocParts(p))).None?
    ensures var parent := Walk(c.store.dentries, ROOT, Initial(DocParts(p))).value;
      Pictures(Created(c, parent, Last(DocParts(p))), Apply(s, Edit(p, [], false, now)))
  {
    hide Canonical, TreeOk, PathsOk, DocParts, Walk, DocAt, KnownAt, DirtyAt, Initial, Last, NamedOk;
    assert DocParts(p) != [] by { SomeParts(p); }
    var parent, t := Walk(c.store.dentries, ROOT, Initial(DocParts(p))).value, Apply(s, Edit(p, [], false, now));
    CreatedOk(c, Initial(DocParts(p)), parent, Last(DocParts(p)));
    forall q | Canonical(q) ensures PicturedAt(Created(c, parent, Last(DocParts(p))), t, q) {
      CreatedAt(c, s, p, parent, t, q);
    }
  }

  lemma SomeParts(path: string)
    ensures DocParts(path) != []
  {
    hide DirParts, FileName;
  }

  lemma CreatedOk(c: Cache, dir: Parts, parent: nat, name: string)
    requires CacheOk(c) && DirtyOk(c) && Walk(c.store.dentries, ROOT, dir) == Some(parent)
    requires Lookup(c.store.dentries, parent, name).None?
    ensures CacheOk(Created(c, parent, name)) && DirtyOk(Created(c, parent, name))
  {
    AddGrows(c.store, dir, parent, name, false);
    hide TreeOk, Walk, DocParts, NamedOk;
  }

  lemma OwnerSame(s: Store, t: Store, p: Path)
    requires s.remote == t.remote
    ensures Owner(s, p).Some? == Owner(t, p).Some?
  {
    if Owner(s, p).Some? { assert t.remote[Owner(s, p).value] == p; }
    if Owner(t, p).Some? { assert s.remote[Owner(t, p).value] == p; }
  }

  // ---- Flushes ------------------------------------------------------------------------------------

  // The tables after a flush that records or finds the path `p`.
  function Flushed(c: Cache, ino: nat, p: Path, now: int): Cache {
    c.(store := c.store.(remote := c.store.remote[ino := p]), dirty := c.dirty[ino := now])
  }

  lemma FlushedAt(c: Cache, s: Sys, p: Path, ino: nat, now: int, t: Sys, q: Path)
    requires CacheOk(c) && PicturedAt(c, s, q) && Canonical(p) && Canonical(q)
    requires At(c, DocParts(p)) == Some(ino) && (ino in c.store.remote ==> c.store.remote[ino] == p)
    requires t.local == s.local && t.known == s.known + {p} && t.dirty == s.dirty[p := now]
    ensures PicturedAt(Flushed(c, ino, p, now), t, q)
  {
    CanonicalOne(p);
    hide Canonical, CacheOk, DocParts, At, Owner, Doc, FlagAt;
    var d := Flushed(c, ino, p, now);
    assert Doc(d.store, DocParts(q)) == Doc(c.store, DocParts(q))
      by { DocIgnoresRemote(c.store, d.store, DocParts(q)); }
    MarkedFlag(c, d, p, ino, now, q);
    OwnerRegistered(c.store, d.store, ino, p, q);
  }

  lemma DocIgnoresRemote(s: Store, t: Store, parts: Parts)
    requires t == s.(remote := t.remote)
    ensures Doc(t, parts) == Doc(s, parts)
  {
  }

  // A flush of a file whose path round-trips is a flush of that path.
  lemma FlushPictures(c: Cache, s: Sys, p: Path, now: int)
    requires Pictures(c, s) && NamedOk(c.store) && Canonical(p) && p in s.local && !IsNoisePath(p)
    requires At(c, DocParts(p)).Some? && RoundTrips(DocParts(p))
    requires At(c, DocParts(p)).value in c.store.remote ==> c.store.remote[At(c, DocParts(p)).value] == p
    ensures var ino := At(c, DocParts(p)).value;
      && Register(c.store, ino) == c.store.(remote := c.store.remote[ino := p])
      && Pictures(Flushed(c, ino, p, now), Apply(s, Flush(p, now)))
  {
    hide Canonical, TreeOk, PathsOk, NamedOk, DocParts, Walk, IsNoisePath, RoundTrips, Register, DocAt, KnownAt,
      DirtyAt, Upsert;
    var ino, t := At(c, DocParts(p)).value, Apply(s, Flush(p, now));
    RegisteredAs(c.store, p);
    WalkBounds(c.store, DocParts(p));
    forall q | Canonical(q) ensures PicturedAt(Flushed(c, ino, p, now), t, q) {
      FlushedAt(c, s, p, ino, now, t, q);
    }
  }

  // What registering leaves in the tables.
  lemma RegisteredAs(s: Store, p: Path)
    requires TreeOk(s) && NamedOk(s) && PathsOk(s) && Canonical(p) && RoundTrips(DocParts(p))
    requires Walk(s.dentries, ROOT, DocParts(p)).Some?
    requires var ino := Walk(s.dentries, ROOT, DocParts(p)).value; ino in s.remote ==> s.remote[ino] == p
    ensures var ino := Walk(s.dentries, ROOT, DocParts(p)).value; var t := Register(s, ino);
      t == s.(remote := s.remote[ino := p]) && TreeOk(t) && PathsOk(t)
  {
    hide BuildPath, NamedOk, TreeOk, PathsOk, Walk, DocParts, Absolute, NamesOk;
    var ino := Walk(s.dentries, ROOT, DocParts(p)).value;
    WalkBounds(s, DocParts(p));
    TreeRuns.RegisterTree(s, ino);
    if ino in s.remote {
      assert s.remote[ino := p] == s.remote;
    } else {
      BuildInvertsResolve(s, DocParts(p));
      FlushKeepsPathsIff(s, DocParts(p));
    }
  }

  lemma OwnerRegistered(s: Store, t: Store, ino: nat, p: Path, q: Path)
    requires t.remote == s.remote[ino := p] && (ino in s.remote ==> s.remote[ino] == p)
    ensures Owner(t, q).Some? <==> Owner(s, q).Some? || q == p
  {
    if Owner(s, q).Some? { assert t.remote[Owner(s, q).value] == q; }
    if q == p { assert t.remote[ino] == p; }
    if Owner(t, q).Some? && q != p { assert s.remote[Owner(t, q).value] == q; }
  }

  // ---- Pushes -------------------------------------------------------------------------------------

  // The bytes a worker reads are those of the file at the path, or none.
  lemma ReadPictures(c: Cache, s: Sys, p: Path)
    requires Pictures(c, s) && Canonical(p) && Enabled(s, Read(p))
    ensures Pictures(c, Apply(s, Read(p)))
    ensures Apply(s, Read(p)).held[p].body
      == Some(match Doc(c.store, DocParts(p)) case Some(body) => body case None => [])
  {
    hide Canonical, CacheOk, DirtyOk, DocParts, Doc, KnownAt, DirtyAt;
    var t := Apply(s, Read(p));
    assert PicturedAt(c, s, p);
    forall q | Canonical(q) ensures PicturedAt(c, t, q) {
      SamePicture(c, s, t, q);
    }
  }

  lemma ClearedFlag(c: Cache, p: Path, ino: nat, q: Path)
    requires CacheOk(c) && At(c, DocParts(p)) == Some(ino)
    ensures FlagAt(c.(dirty := c.dirty - {ino}), q) == if DocParts(q) == DocParts(p) then None else FlagAt(c, q)
  {
    hide TreeOk, PathsOk, Walk, DocParts;
    if At(c, DocParts(q)) == Some(ino) { OnePath(c.store, DocParts(p), DocParts(q)); }
  }

  lemma ClearedAt(c: Cache, s: Sys, p: Path, ino: nat, t: Sys, q: Path)
    requires CacheOk(c) && PicturedAt(c, s, q) && Canonical(p) && Canonical(q) && At(c, DocParts(p)) == Some(ino)
    requires t.local == s.local && t.known == s.known && t.dirty == s.dirty - {p}
    ensures PicturedAt(c.(dirty := c.dirty - {ino}), t, q)
  {
    CanonicalOne(p);
    hide Canonical, CacheOk, DocParts, At, Doc, FlagAt, Owner;
    ClearedFlag(c, p, ino, q);
  }

  // Settling the push of the file at the path, with the server's answer or without one, is
  // settling the path.
  lemma SettlePictures(c: Cache, s: Sys, p: Path, job: Job, now: int)
    requires Pictures(c, s) && Canonical(p) && Enabled(s, Settle(p)) && At(c, DocParts(p)).Some?
    requires job.op.kind == Write && job.op.contentIno == At(c, DocParts(p))
    ensures var pass := Pass(job, now, s.held[p].result, None);
      Pictures(c.(dirty := c.dirty - UnflaggedBy(pass)), Apply(s, Settle(p)))
  {
    hide Canonical, TreeOk, PathsOk, DocParts, Walk, DocAt, KnownAt, DirtyAt, SettleRows;
    var ino, t := At(c, DocParts(p)).value, Apply(s, Settle(p));
    var pass := Pass(job, now, s.held[p].result, None);
    var d := c.(dirty := c.dirty - UnflaggedBy(pass));
    if s.held[p].result == Some(Done) {
      assert UnflaggedBy(pass) == {ino};
    } else {
      assert UnflaggedBy(pass) == {};
    }
    forall q | Canonical(q) ensures PicturedAt(d, t, q) {
      if s.held[p].result == Some(Done) {
        ClearedAt(c, s, p, ino, t, q);
      } else {
        assert d == c;
        SamePicture(c, s, t, q);
      }
    }
  }
}
