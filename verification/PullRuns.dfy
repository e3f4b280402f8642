// Two pulls that undo something, as the exact conditions of `Pull` say they do.
module PullRuns {
  import opened Basics
  import opened ChunkStore
  import opened Paths
  import opened PathRoundTrip
  import opened Pull
  import opened Tree
  import opened TreeRuns

  // ---- A full pull that lowers the watermark ------------------------------------------------------

  const EMPTY_CACHE := Cache(NEW_STORE, map[], None)

  // A document is pulled into an empty cache and then edited at `now`.
  ghost function Edited(doc: Listed, f: File, now: int, cs: nat): Cache
    requires cs > 0
  {
    var c, ino := DeltaPulled(EMPTY_CACHE, [doc], cs), UpsertDoc(NEW_STORE, doc.path, Body(doc), cs).1;
    c.(store := PutFile(c.store, ino, f), dirty := c.dirty[ino := now])
  }

  lemma NothingThere(path: string)
    ensures TreeOk(NEW_STORE) && PathsOk(NEW_STORE) && Walk(NEW_STORE.dentries, ROOT, DocParts(path)).None?
  {
    hide DirParts, FileName;
    assert DocParts(path) != [];
  }

  lemma PulledFirst(doc: Listed, cs: nat)
    requires cs > 0 && doc.updatedAt != ""
    ensures DeltaPulled(EMPTY_CACHE, [doc], cs) == ApplyDoc(EMPTY_CACHE, doc, cs).(lastSeen := Some(doc.updatedAt))
  {
    hide ApplyDoc, StrLe;
    assert [doc][..0] == [];
    assert After(EMPTY_CACHE, [doc][..0], "", cs) == EMPTY_CACHE && Taken(EMPTY_CACHE, [doc][..0], "", cs) == [];
    assert Newest("", [doc][..0]) == "" && StrLt("", doc.updatedAt);
  }

  // Its path is recorded for it alone, and the edit protects it.
  lemma EditedGuards(doc: Listed, f: File, now: int, cs: nat)
    requires cs > 0 && Outdated(now, doc) && doc.updatedAt != ""
    ensures var c := Edited(doc, f, now, cs);
      Watermark(c) == doc.updatedAt && CacheOk(c) && Guarded(c, doc) && forall e: Listed :: e.path != doc.path ==>
        !Guarded(c, e)
  {
    hide UpsertDoc, DocParts, Walk, Replace, TreeOk, NamedOk, PutFile, FileOf, PathsOk, Outdated;
    var p, s := DocParts(doc.path), UpsertDoc(NEW_STORE, doc.path, Body(doc), cs).0;
    var ino := UpsertDoc(NEW_STORE, doc.path, Body(doc), cs).1;
    NothingThere(doc.path);
    PulledFirst(doc, cs);
    hide DeltaPulled;
    UpsertTree(NEW_STORE, doc.path, Body(doc), cs);
    UpsertKeepsPaths(NEW_STORE, doc.path, Body(doc), cs);
    WalkBounds(s, p);
    PutFileApart(s, ino, f);
    SamePaths(s, PutFile(s, ino, f));
    assert s.remote == map[ino := doc.path];
    OwnerOk(Edited(doc, f, now, cs), doc.path, ino);
  }

  lemma SamePaths(s: Store, t: Store)
    requires PathsOk(s) && t.dentries == s.dentries && t.remote == s.remote
    ensures PathsOk(t)
  {
    hide Walk, DocParts;
  }

  // A delta pull brings a document, it is edited, and before the edit is pushed a full pull
  // lists it beside an older document: the first is held off by its dirty flag, the second
  // is applied, and the watermark goes back to the second.
  lemma FullPullGoesBack(doc: Listed, older: Listed, f: File, now: int, cs: nat)
    requires cs > 0 && Outdated(now, doc) && DocParts(older.path) != DocParts(doc.path)
    requires older.updatedAt != "" && StrLt(older.updatedAt, doc.updatedAt)
    ensures var c := Edited(doc, f, now, cs);
      && Watermark(c) == doc.updatedAt
      && StrLt(Watermark(FullPulled(c, [doc, older], cs)), Watermark(c))
  {
    hide CacheOk, DocParts, Guarded, FullPulled, StrLt, Comparable, Outdated, Stamped, ApplyDoc, UpsertDoc, PutFile;
    var c, docs := Edited(doc, f, now, cs), [doc, older];
    assert doc.updatedAt != "" by { StrLtTotal(older.updatedAt, doc.updatedAt); StrLeEmpty(older.updatedAt); }
    EditedGuards(doc, f, now, cs);
    hide Edited, Watermark;
    TwoComparable(doc, older);
    assert older in docs && !Guarded(c, older);
    FullLowersIff(c, docs, cs);
  }

  lemma TwoComparable(a: Listed, b: Listed)
    requires DocParts(a.path) != DocParts(b.path)
    ensures Comparable([a, b])
  {
    hide DocParts, Stamped;
  }

  // ---- A new file that a pull overwrites ----------------------------------------------------------

  // A file is created and written, and not flushed yet: it is dirty, but no path is recorded.
  ghost function Unflushed(c: Cache, parent: nat, name: string, data: Bytes, now: int, cs: nat): Cache
    requires cs > 0
  {
    var s := AddEntry(c.store, parent, name, false);
    var ino := c.store.nextIno;
    c.(store := PutFile(s, ino, Write(FileOf(s, ino), 0, data, cs)), dirty := c.dirty[ino := now])
  }

  lemma WrittenWhole(data: Bytes, cs: nat)
    requires cs > 0
    ensures ReadAll(Write(EMPTY_FILE, 0, data, cs)) == data
  {
    hide Index, Represents, Write, FlatWrite, ReadAll;
    EmptyIsCovered(data, cs);
    FlatWriteMeaning([], 0, data);
    EmptyRepresents(cs);
    WriteRefines(EMPTY_FILE, [], 0, data, cs);
    ReadAllRefines(Write(EMPTY_FILE, 0, data, cs), FlatWrite([], 0, data), cs);
    assert FlatWrite([], 0, data) == data;
  }

  lemma EmptyIsCovered(data: Bytes, cs: nat)
    requires cs > 0
    ensures Covered(0, 0, data, cs)
  {
  }

  // In any consistent cache, whatever the edit's time: the written bytes are there, a pull of
  // a document at that path leaves the document's body instead, and the edit is dirty no more.
  lemma UnflushedFileLost(c: Cache, dir: Parts, name: string, data: Bytes, now: int, doc: Listed, cs: nat)
    requires cs > 0 && CacheOk(c) && Walk(c.store.dentries, ROOT, dir).Some?
    requires Lookup(c.store.dentries, Walk(c.store.dentries, ROOT, dir).value, name).None?
    requires DocParts(doc.path) == dir + [name]
    ensures var b := Unflushed(c, Walk(c.store.dentries, ROOT, dir).value, name, data, now, cs);
      var ino, d := c.store.nextIno, After(b, [doc], "", cs);
      && At(b, DocParts(doc.path)) == Some(ino) && Content(b.store, ino) == data && ino in b.dirty
      && At(d, DocParts(doc.path)) == Some(ino) && Content(d.store, ino) == Body(doc) && ino !in d.dirty
  {
    hide TreeOk, Walk, DocParts, ReadAll, Write, ApplyDoc, PutFile, PathsOk, NamedOk, NameOk, Outdated;
    var parent, ino := Walk(c.store.dentries, ROOT, dir).value, c.store.nextIno;
    var s, b := AddEntry(c.store, parent, name, false), Unflushed(c, parent, name, data, now, cs);
    FreshHasNoRows(c.store);
    AddGrows(c.store, dir, parent, name, false);
    PutFileApart(s, ino, Write(FileOf(s, ino), 0, data, cs));
    WrittenWhole(data, cs);
    GrownPaths(c.store, b.store, dir + [name]);
    assert ino !in b.store.remote by { RemoteInodes(c.store); }
    NoGuard(b, doc, ino);
    ApplyAt(b, doc, cs, DocParts(doc.path));
    assert [doc][..0] == [];
    assert After(b, [doc][..0], "", cs) == b;
  }

  lemma GrownPaths(s: Store, t: Store, p: Parts)
    requires PathsOk(s) && t.remote == s.remote
    requires forall q :: Walk(s.dentries, ROOT, q).Some? ==> Walk(t.dentries, ROOT, q) == Walk(s.dentries, ROOT, q)
    ensures PathsOk(t)
  {
    hide Walk, DocParts;
  }

  lemma RemoteInodes(s: Store)
    requires TreeOk(s)
    ensures forall i :: i in s.remote ==> i < s.nextIno
  {
  }

  lemma NoGuard(c: Cache, doc: Listed, ino: nat)
    requires CacheOk(c) && At(c, DocParts(doc.path)) == Some(ino) && ino !in c.store.remote
    ensures !Guarded(c, doc)
  {
    hide TreeOk, Walk, DocParts, Outdated;
  }

  // ---- Hydration -----------------------------------------------------------------------------------

  // Fetching a document into the cache: the upsert of a pull, with no dirty guard before it,
  // and with the flag and the watermark left as they are.
  function Hydrated(c: Cache, path: string, body: Bytes, cs: nat): Cache
    requires cs > 0
  {
    c.(store := UpsertDoc(c.store, path, body, cs).0)
  }

  // So it puts the fetched body in the place of a local edit however late, and leaves the
  // edit's flag up over it.
  lemma HydrationOverwrites(c: Cache, path: string, body: Bytes, cs: nat, i: nat)
    requires cs > 0 && CacheOk(c) && At(c, DocParts(path)) == Some(i)
    ensures var d := Hydrated(c, path, body, cs);
      && CacheOk(d) && d.dirty == c.dirty && d.lastSeen == c.lastSeen
      && At(d, DocParts(path)) == Some(i) && Content(d.store, i) == body
  {
    hide TreeOk, PathsOk, UpsertDoc, DocParts, Walk, IsDirAt, Doc, Content;
    UpsertUpdatesOnePath(c.store, path, body, cs);
    UpsertKeepsPaths(c.store, path, body, cs);
  }
}
