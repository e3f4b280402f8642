// Reconciling a listing of the server's documents into the cache (sync/pull.rs): newer
// wins, except over local edits that are newer still.
module Pull {
  import opened Basics
  import opened Calendar
  import opened ChunkStore
  import opened Database
  import opened Paths
  import opened PathRoundTrip
  import opened Tree
  import opened UnisonFs

  datatype Listed = Listed(path: string, body: Option<Bytes>, updatedAt: string)

  datatype Cache = Cache(store: Store, dirty: map<nat, int>, lastSeen: Option<string>)

  function Body(doc: Listed): Bytes { if doc.body.Some? then doc.body.value else [] }

  function Watermark(c: Cache): string { if c.lastSeen.Some? then c.lastSeen.value else "" }

  // ---- What a pull does -------------------------------------------------------------------

  // The inode recorded for a remote path.
  ghost function Owner(s: Store, path: string): (ino: Option<nat>)
    ensures ino.None? ==> forall i :: i in s.remote ==> s.remote[i] != path
    ensures ino.Some? ==> ino.value in s.remote && s.remote[ino.value] == path
  {
    if exists i :: i in s.remote && s.remote[i] == path then
      var i :| i in s.remote && s.remote[i] == path;
      Some(i)
    else None
  }

  predicate Skipped(doc: Listed, since: string) {
    since != "" && StrLe(doc.updatedAt, since)
  }

  // A local edit at or after the remote timestamp protects its inode.
  predicate Outdated(since: int, doc: Listed) {
    ParseMs(doc.updatedAt).Some? && ParseMs(doc.updatedAt).value <= since
  }

  ghost predicate Guarded(c: Cache, doc: Listed) {
    var ino := Owner(c.store, doc.path);
    ino.Some? && ino.value in c.dirty && Outdated(c.dirty[ino.value], doc)
  }

  function ApplyDoc(c: Cache, doc: Listed, cs: nat): Cache
    requires cs > 0
  {
    var (store, ino) := UpsertDoc(c.store, doc.path, Body(doc), cs);
    c.(store := store, dirty := c.dirty - {ino})
  }

  ghost predicate Takes(c: Cache, doc: Listed, since: string) {
    !Skipped(doc, since) && !Guarded(c, doc)
  }

  // The documents of the listing that are applied, in order, and the cache after them.
  ghost function Taken(c: Cache, docs: seq<Listed>, since: string, cs: nat): seq<Listed>
    requires cs > 0
    decreases docs, 1
  {
    if docs == [] then []
    else
      var n := |docs| - 1;
      var done := Taken(c, docs[..n], since, cs);
      if Takes(After(c, docs[..n], since, cs), docs[n], since) then done + [docs[n]] else done
  }

  ghost function After(c: Cache, docs: seq<Listed>, since: string, cs: nat): Cache
    requires cs > 0
    decreases docs, 0
  {
    if docs == [] then c
    else
      var n := |docs| - 1;
      var before := After(c, docs[..n], since, cs);
      if Takes(before, docs[n], since) then ApplyDoc(before, docs[n], cs) else before
  }

  function Newest(start: string, taken: seq<Listed>): string {
    if taken == [] then start
    else
      var n := |taken| - 1;
      var newest := Newest(start, taken[..n]);
      if StrLt(newest, taken[n].updatedAt) then taken[n].updatedAt else newest
  }

  ghost function DeltaPulled(c: Cache, docs: seq<Listed>, cs: nat): Cache
    requires cs > 0
  {
    var since := Watermark(c);
    var newest := Newest(since, Taken(c, docs, since, cs));
    After(c, docs, since, cs).(lastSeen := if newest != "" && newest != since then Some(newest) else c.lastSeen)
  }

  // A full pull ignores the watermark, and overwrites it.
  ghost function FullPulled(c: Cache, docs: seq<Listed>, cs: nat): Cache
    requires cs > 0
  {
    var newest := Newest("", Taken(c, docs, "", cs));
    After(c, docs, "", cs).(lastSeen := if newest != "" then Some(newest) else c.lastSeen)
  }

  // ---- The loops ---------------------------------------------------------------------------

  ghost function CacheOf(db: Db): Cache
    reads db
  {
    Cache(db.Tables(), db.dirty, db.lastSeen)
  }

  lemma OwnerUnique(s: Store, path: string, i: nat)
    requires PathsOk(s) && i in s.remote && s.remote[i] == path
    ensures Owner(s, path) == Some(i)
  {
  }

  // One document of the listing.
  method ReconcileDoc(fs: UnisonFs, doc: Listed) returns (taken: bool)
    requires fs.Coherent() && PathsOk(fs.db.Tables())
    modifies fs`dentryCache, fs.db`inodes, fs.db`nextIno, fs.db`dentries, fs.db`chunks, fs.db`remote, fs.db`dirty
    ensures fs.Coherent()
    ensures taken == !Guarded(old(CacheOf(fs.db)), doc)
    ensures CacheOf(fs.db) == if taken then ApplyDoc(old(CacheOf(fs.db)), doc, fs.db.chunkSize) else old(CacheOf(fs.db))
  {
    hide UpsertDoc, DocParts, Walk;
    var owner := fs.db.InoByRemotePath(doc.path);
    if owner.Some? {
      OwnerUnique(fs.db.Tables(), doc.path, owner.value);
      if owner.value in fs.db.dirty && Outdated(fs.db.dirty[owner.value], doc) {
        return false;
      }
    }
    var ino := fs.UpsertBrainDoc(doc.path, Body(doc));
    fs.db.SetDirtySince(ino, None);
    return true;
  }

  // The loop both pulls share.
  method ReconcileAll(fs: UnisonFs, docs: seq<Listed>, since: string, start: string)
    returns (reconciled: nat, newest: string)
    requires fs.Coherent() && TreeOk(fs.db.Tables()) && PathsOk(fs.db.Tables())
    modifies fs`dentryCache, fs.db`inodes, fs.db`nextIno, fs.db`dentries, fs.db`chunks, fs.db`remote, fs.db`dirty
    ensures fs.Coherent() && TreeOk(fs.db.Tables()) && PathsOk(fs.db.Tables())
    ensures CacheOf(fs.db) == After(old(CacheOf(fs.db)), docs, since, fs.db.chunkSize)
    ensures reconciled == |Taken(old(CacheOf(fs.db)), docs, since, fs.db.chunkSize)|
    ensures newest == Newest(start, Taken(old(CacheOf(fs.db)), docs, since, fs.db.chunkSize))
  {
    hide TreeOk, PathsOk, CacheCoherent, Guarded, ApplyDoc;
    reconciled, newest := 0, start;
    ghost var c := CacheOf(fs.db);
    var i := 0;
    while i < |docs|
      invariant 0 <= i <= |docs|
      invariant fs.Coherent() && TreeOk(fs.db.Tables()) && PathsOk(fs.db.Tables())
      invariant CacheOf(fs.db) == After(c, docs[..i], since, fs.db.chunkSize)
      invariant reconciled == |Taken(c, docs[..i], since, fs.db.chunkSize)|
      invariant newest == Newest(start, Taken(c, docs[..i], since, fs.db.chunkSize))
    {
      assert docs[..i + 1][..i] == docs[..i];
      ghost var before, done := CacheOf(fs.db), Taken(c, docs[..i], since, fs.db.chunkSize);
      if !Skipped(docs[i], since) {
        var taken := ReconcileDoc(fs, docs[i]);
        if taken {
          ApplyKeepsOk(before, docs[i], fs.db.chunkSize);
          assert (done + [docs[i]])[..|done|] == done;
          reconciled := reconciled + 1;
          if StrLt(newest, docs[i].updatedAt) {
            newest := docs[i].updatedAt;
          }
        }
      }
      i := i + 1;
    }
    assert docs[..i] == docs;
  }

  // Returns the number of documents reconciled; `docs` is the server's answer.
  method DeltaPull(fs: UnisonFs, docs: seq<Listed>) returns (reconciled: nat)
    requires fs.Coherent() && TreeOk(fs.db.Tables()) && PathsOk(fs.db.Tables())
    modifies fs`dentryCache, fs.db`inodes, fs.db`nextIno, fs.db`dentries, fs.db`chunks, fs.db`remote, fs.db`dirty,
      fs.db`lastSeen
    ensures fs.Coherent() && TreeOk(fs.db.Tables()) && PathsOk(fs.db.Tables())
    ensures CacheOf(fs.db) == DeltaPulled(old(CacheOf(fs.db)), docs, fs.db.chunkSize)
    ensures reconciled == |Taken(old(CacheOf(fs.db)), docs, Watermark(old(CacheOf(fs.db))), fs.db.chunkSize)|
  {
    hide TreeOk, PathsOk, CacheCoherent, After, Taken, Newest;
    var lastSeen := if fs.db.lastSeen.Some? then fs.db.lastSeen.value else "";
    var newest;
    reconciled, newest := ReconcileAll(fs, docs, lastSeen, lastSeen);
    if newest != "" && newest != lastSeen {
      fs.db.lastSeen := Some(newest);
    }
  }

  method FullPull(fs: UnisonFs, docs: seq<Listed>) returns (reconciled: nat)
    requires fs.Coherent() && TreeOk(fs.db.Tables()) && PathsOk(fs.db.Tables())
    modifies fs`dentryCache, fs.db`inodes, fs.db`nextIno, fs.db`dentries, fs.db`chunks, fs.db`remote, fs.db`dirty,
      fs.db`lastSeen
    ensures fs.Coherent() && TreeOk(fs.db.Tables()) && PathsOk(fs.db.Tables())
    ensures CacheOf(fs.db) == FullPulled(old(CacheOf(fs.db)), docs, fs.db.chunkSize)
    ensures reconciled == |Taken(old(CacheOf(fs.db)), docs, "", fs.db.chunkSize)|
  {
    hide TreeOk, PathsOk, CacheCoherent, After, Taken, Newest;
    var newest;
    reconciled, newest := ReconcileAll(fs, docs, "", "");
    if newest != "" {
      fs.db.lastSeen := Some(newest);
    }
  }

  // ---- Newer wins, under the dirty guard ----------------------------------------------------

  ghost predicate CacheOk(c: Cache) { TreeOk(c.store) && PathsOk(c.store) }

  lemma ApplyKeepsOk(c: Cache, doc: Listed, cs: nat)
    requires cs > 0 && CacheOk(c)
    ensures CacheOk(ApplyDoc(c, doc, cs))
  {
    hide TreeOk, PathsOk, UpsertDoc, DocParts, Walk;
    UpsertTree(c.store, doc.path, Body(doc), cs);
    UpsertKeepsPaths(c.store, doc.path, Body(doc), cs);
  }

  // The inode at a path.
  function At(c: Cache, p: Parts): Option<nat> { Walk(c.store.dentries, ROOT, p) }

  // What a document does to the path `p`.
  lemma ApplyAt(c: Cache, doc: Listed, cs: nat, p: Parts)
    requires cs > 0 && CacheOk(c)
    ensures var d := ApplyDoc(c, doc, cs);
      && (At(c, p).Some? ==> At(d, p) == At(c, p))
      && (p == DocParts(doc.path) ==>
        At(d, p).Some? && Content(d.store, At(d, p).value) == Body(doc) && At(d, p).value !in d.dirty)
      && (p != DocParts(doc.path) && At(c, p).Some? ==>
            && FileOf(d.store, At(c, p).value) == FileOf(c.store, At(c, p).value)
            && (At(c, p).value in d.dirty <==> At(c, p).value in c.dirty)
            && (At(c, p).value in d.dirty ==> d.dirty[At(c, p).value] == c.dirty[At(c, p).value]))
  {
    hide TreeOk, PathsOk, UpsertDoc, DocParts, Walk, Replace, Represents, ReadAll, FileOf;
    var d, ino := ApplyDoc(c, doc, cs), UpsertDoc(c.store, doc.path, Body(doc), cs).1;
    UpsertTree(c.store, doc.path, Body(doc), cs);
    ReplaceRefines(Body(doc), cs);
    ReadAllRefines(Replace(Body(doc), cs), Body(doc), cs);
    if p != DocParts(doc.path) && At(c, p).Some? {
      if At(d, p) == Some(ino) {
        OnePath(d.store, p, DocParts(doc.path));
      }
      WalkBounds(c.store, p);
      UpsertKeepsFiles(c.store, doc.path, Body(doc), cs, At(c, p).value);
    }
  }

  // Whether the path changes with `LastFor` the last document applied to it.
  function LastFor(taken: seq<Listed>, p: Parts): Option<Listed> {
    if taken == [] then None
    else
      var n := |taken| - 1;
      if DocParts(taken[n].path) == p then Some(taken[n]) else LastFor(taken[..n], p)
  }

  // At every path: the body of the last document applied to it and no dirty flag; and
  // where none was applied, the bytes and the flag it had.
  ghost predicate PathPulled(c: Cache, d: Cache, taken: seq<Listed>, p: Parts) {
    match LastFor(taken, p)
    case Some(doc) => At(d, p).Some? && Content(d.store, At(d, p).value) == Body(doc) && At(d, p).value !in d.dirty
    case None =>
      At(c, p).Some? ==>
        && FileOf(d.store, At(c, p).value) == FileOf(c.store, At(c, p).value)
        && (At(c, p).value in d.dirty <==> At(c, p).value in c.dirty)
        && (At(c, p).value in d.dirty ==> d.dirty[At(c, p).value] == c.dirty[At(c, p).value])
  }

  lemma {:induction false} PullAtPath(c: Cache, docs: seq<Listed>, since: string, cs: nat, p: Parts)
    requires cs > 0 && CacheOk(c)
    ensures var d := After(c, docs, since, cs);
      && CacheOk(d)
      && (At(c, p).Some? ==> At(d, p) == At(c, p))
      && PathPulled(c, d, Taken(c, docs, since, cs), p)
  {
    hide CacheOk, ApplyDoc, DocParts, Walk, FileOf, ReadAll, Takes;
    if docs != [] {
      var n := |docs| - 1;
      PullAtPath(c, docs[..n], since, cs, p);
      var before, done := After(c, docs[..n], since, cs), Taken(c, docs[..n], since, cs);
      if Takes(before, docs[n], since) {
        ApplyKeepsOk(before, docs[n], cs);
        ApplyAt(before, docs[n], cs, p);
        assert (done + [docs[n]])[..|done|] == done;
      }
    }
  }

  // A delta or full pull leaves the bytes and the flag of an inode alone if its path is
  // the recorded one and every document listed for it is no newer than its local edit.
  lemma {:induction false} NewerLocalEditWins(c: Cache, docs: seq<Listed>, since: string, cs: nat, i: nat)
    requires cs > 0 && CacheOk(c) && i in c.store.remote && i in c.dirty
    requires forall doc :: doc in docs && At(c, DocParts(doc.path)) == Some(i) ==>
      doc.path == c.store.remote[i] && Outdated(c.dirty[i], doc)
    ensures var d := After(c, docs, since, cs);
      FileOf(d.store, i) == FileOf(c.store, i) && i in d.dirty && d.dirty[i] == c.dirty[i]
  {
    hide CacheOk, DocParts, Walk, FileOf, TreeOk, Outdated;
    var p := DocParts(c.store.remote[i]);
    assert At(c, p) == Some(i) by { PathLeads(c, i); }
    GuardHolds(c, docs, since, cs, i);
    PullAtPath(c, docs, since, cs, p);
  }

  lemma PathLeads(c: Cache, i: nat)
    requires CacheOk(c) && i in c.store.remote
    ensures At(c, DocParts(c.store.remote[i])) == Some(i)
  {
  }

  lemma {:induction false} GuardHolds(c: Cache, docs: seq<Listed>, since: string, cs: nat, i: nat)
    requires cs > 0 && CacheOk(c) && i in c.store.remote && i in c.dirty
    requires forall doc :: doc in docs && At(c, DocParts(doc.path)) == Some(i) ==>
      doc.path == c.store.remote[i] && Outdated(c.dirty[i], doc)
    ensures LastFor(Taken(c, docs, since, cs), DocParts(c.store.remote[i])) == None
    ensures CacheOk(After(c, docs, since, cs)) && i in After(c, docs, since, cs).store.remote
      && After(c, docs, since, cs).store.remote[i] == c.store.remote[i]
  {
    hide CacheOk, DocParts, Walk, FileOf, TreeOk, Outdated, ApplyDoc;
    if docs != [] {
      var n := |docs| - 1;
      GuardHolds(c, docs[..n], since, cs, i);
      var p, before, done := DocParts(c.store.remote[i]), After(c, docs[..n], since, cs),
        Taken(c, docs[..n], since, cs);
      PathLeads(c, i);
      PullAtPath(c, docs[..n], since, cs, p);
      assert (done + [docs[n]])[..|done|] == done;
      if DocParts(docs[n].path) == p {
        OwnerOk(before, docs[n].path, i);
      } else if Takes(before, docs[n], since) {
        ApplyKeepsOk(before, docs[n], cs);
        ApplyKeepsRemote(before, docs[n], cs, i);
      }
    }
  }

  lemma OwnerOk(c: Cache, path: string, i: nat)
    requires CacheOk(c) && i in c.store.remote && c.store.remote[i] == path
    ensures Owner(c.store, path) == Some(i)
  {
    OwnerUnique(c.store, path, i);
  }

  lemma ApplyKeepsRemote(c: Cache, doc: Listed, cs: nat, i: nat)
    requires cs > 0 && CacheOk(c) && i in c.store.remote
    ensures var r := ApplyDoc(c, doc, cs).store.remote; i in r && r[i] == c.store.remote[i]
  {
    hide PathsOk, UpsertDoc, DocParts, Walk, Place, Replace;
    UpsertTree(c.store, doc.path, Body(doc), cs);
    if At(c, DocParts(doc.path)).None? { UpsertFreshIno(c.store, doc.path, Body(doc), cs); }
  }

  // One document, not skipped, leaves the inode at its path with its rows and its flag if and
  // only if the path is recorded for it and its flag is up and no older, or it was clean and
  // held just this body. In particular a new file that was written but never flushed is
  // overwritten, and so is one that was truncated and nothing else.
  lemma DirtyGuardIff(c: Cache, doc: Listed, since: string, cs: nat, i: nat)
    requires cs > 0 && CacheOk(c) && At(c, DocParts(doc.path)) == Some(i) && !Skipped(doc, since)
    ensures var d := After(c, [doc], since, cs);
      (&& FileOf(d.store, i) == FileOf(c.store, i)
       && (i in d.dirty <==> i in c.dirty) && (i in c.dirty && i in d.dirty ==> d.dirty[i] == c.dirty[i])) <==>
        || (i in c.store.remote && c.store.remote[i] == doc.path && i in c.dirty && Outdated(c.dirty[i], doc))
        || (i !in c.dirty && FileOf(c.store, i) == Replace(Body(doc), cs))
  {
    hide TreeOk, DocParts, Walk, FileOf, Outdated, UpsertDoc, Replace;
    assert [doc][..0] == [];
    assert After(c, [doc][..0], since, cs) == c;
    if Owner(c.store, doc.path).Some? {
      assert Owner(c.store, doc.path) == Some(i);
    }
    if i in c.store.remote && c.store.remote[i] == doc.path { OwnerOk(c, doc.path, i); }
    UpsertTree(c.store, doc.path, Body(doc), cs);
  }

  // The guard by the clock. A document in the server's form, recorded for an inode that is
  // dirty, changes nothing if it is stamped no later than the flag; a millisecond later, and
  // its path holds its body and has no flag.
  lemma GuardByTheClock(c: Cache, doc: Listed, since: string, cs: nat, i: nat, s: Stamp)
    requires cs > 0 && CacheOk(c) && i in c.store.remote && c.store.remote[i] == doc.path && i in c.dirty
    requires ValidStamp(s) && doc.updatedAt == Render(s) && !Skipped(doc, since)
    ensures var d := After(c, [doc], since, cs);
      var seconds := 86400 * DayNumber(s.date.year, s.date.month, s.date.day) + 3600 * s.hour + 60 * s.min + s.sec;
      && (1000 * seconds <= c.dirty[i] ==> d == c)
      && (c.dirty[i] < 1000 * seconds ==>
            && At(d, DocParts(doc.path)) == Some(i) && i !in d.dirty
            && Content(d.store, i) == (if doc.body.Some? then doc.body.value else []))
  {
    hide TreeOk, DocParts, Walk, FileOf, ParseMs, Render, ApplyDoc, ReadAll, DayNumber, Skipped;
    ParseUnits(s);
    assert [doc][..0] == [];
    assert After(c, [doc][..0], since, cs) == c;
    PathLeads(c, i);
    OwnerOk(c, doc.path, i);
    ApplyAt(c, doc, cs, DocParts(doc.path));
  }

  // A stamp that does not read as a time holds nothing off.
  lemma UnreadStampApplies(c: Cache, doc: Listed, since: string, cs: nat)
    requires cs > 0 && CacheOk(c) && ParseMs(doc.updatedAt).None? && !Skipped(doc, since)
    ensures var d := After(c, [doc], since, cs); var i := At(d, DocParts(doc.path));
      && i.Some? && i.value !in d.dirty
      && Content(d.store, i.value) == (if doc.body.Some? then doc.body.value else [])
  {
    hide TreeOk, DocParts, Walk, FileOf, ParseMs, ApplyDoc, ReadAll, Skipped;
    assert [doc][..0] == [];
    assert After(c, [doc][..0], since, cs) == c;
    ApplyAt(c, doc, cs, DocParts(doc.path));
  }

  lemma {:induction false} TrimmedIn(s: string, c: char, x: char)
    requires x in TrimEnd(s, c)
    ensures x in s
  {
    if s != "" && s[|s| - 1] == c { TrimmedIn(s[..|s| - 1], c, x); }
  }

  // Such is any text without the letter between date and time.
  lemma NoTimeUnread(text: string)
    requires 'T' !in text
    ensures ParseMs(text).None?
  {
    hide TrimEnd;
    if 'T' in TrimEnd(text, 'Z') { TrimmedIn(text, 'Z', 'T'); }
  }

  // ---- Watermark -------------------------------------------------------------------------------

  lemma {:induction false} NewestMeaning(start: string, taken: seq<Listed>)
    ensures StrLe(start, Newest(start, taken))
    ensures forall doc :: doc in taken ==> StrLe(doc.updatedAt, Newest(start, taken))
    ensures Newest(start, taken) == start || exists doc :: doc in taken && doc.updatedAt == Newest(start, taken)
  {
    if taken != [] {
      var n := |taken| - 1;
      NewestMeaning(start, taken[..n]);
      var a, b := Newest(start, taken[..n]), taken[n].updatedAt;
      StrLtTotal(a, b);
      if StrLt(a, b) {
        forall doc | doc in taken ensures StrLe(doc.updatedAt, b) {
          if doc != taken[n] {
            assert doc in taken[..n];
            if doc.updatedAt != a { StrLtTransitive(doc.updatedAt, a, b); }
          }
        }
        if start != a { StrLtTransitive(start, a, b); }
        assert taken[n] in taken;
      } else if a != start {
        var doc :| doc in taken[..n] && doc.updatedAt == a;
        assert doc in taken;
      }
    }
  }

  // Delta pulls never lower the watermark: it rises to the newest stamp they applied.
  lemma DeltaNeverLowers(c: Cache, docs: seq<Listed>, cs: nat)
    requires cs > 0
    ensures var taken, w := Taken(c, docs, Watermark(c), cs), Watermark(DeltaPulled(c, docs, cs));
      && StrLe(Watermark(c), w) && (forall doc :: doc in taken ==> StrLe(doc.updatedAt, w))
      && (w == Watermark(c) || exists doc :: doc in taken && doc.updatedAt == w)
  {
    NewestMeaning(Watermark(c), Taken(c, docs, Watermark(c), cs));
    hide Taken, After, Newest;
  }

  // A full pull sets it to the newest stamp it applied, whatever it was.
  lemma FullMark(c: Cache, docs: seq<Listed>, cs: nat)
    requires cs > 0
    ensures var taken, w := Taken(c, docs, "", cs), Watermark(FullPulled(c, docs, cs));
      if forall doc :: doc in taken ==> doc.updatedAt == "" then w == Watermark(c)
      else
        && (forall doc :: doc in taken ==> StrLe(doc.updatedAt, w))
        && exists doc :: doc in taken && doc.updatedAt == w
  {
    var taken := Taken(c, docs, "", cs);
    NewestMeaning("", taken);
    hide Taken, After, Newest;
  }

  lemma {:induction false} TakenListed(c: Cache, docs: seq<Listed>, since: string, cs: nat)
    requires cs > 0
    ensures forall doc :: doc in Taken(c, docs, since, cs) ==> doc in docs && !Skipped(doc, since)
  {
    hide ApplyDoc, Skipped, Guarded;
    if docs != [] {
      var n := |docs| - 1;
      TakenListed(c, docs[..n], since, cs);
      forall doc | doc in docs[..n] ensures doc in docs {}
      assert docs[n] in docs;
    }
  }

  // ---- Pulling twice ----------------------------------------------------------------------------

  ghost predicate Stamped(doc: Listed) {
    exists s :: ValidStamp(s) && Render(s) == doc.updatedAt
  }

  // Timestamps as the server writes them, and no path listed under two spellings.
  ghost predicate WellListed(docs: seq<Listed>) {
    && (forall doc :: doc in docs ==> Stamped(doc))
    && (forall d, e :: d in docs && e in docs && DocParts(d.path) == DocParts(e.path) ==> d.path == e.path)
  }

  // The string order of the watermark never contradicts the number order of the guard.
  lemma LaterBeatsGuard(older: Listed, newer: Listed, since: int)
    requires Stamped(older) && Stamped(newer) && Outdated(since, older) && !Outdated(since, newer)
    ensures StrLe(older.updatedAt, newer.updatedAt)
  {
    var s :| ValidStamp(s) && Render(s) == older.updatedAt;
    var t :| ValidStamp(t) && Render(t) == newer.updatedAt;
    hide ParseMs, Render, StrLt, ValidStamp;
    StringOrderAgrees(s, t);
    StringOrderAgrees(t, s);
    StrLtTotal(older.updatedAt, newer.updatedAt);
  }

  // After a pull, each listed document was passed over, applied, or is still guarded, or a
  // newer document of its path was applied.
  ghost predicate Handled(d: Cache, taken: seq<Listed>, doc: Listed, since: string) {
    Skipped(doc, since) || Guarded(d, doc) || exists e :: e in taken && StrLe(doc.updatedAt, e.updatedAt)
  }

  // Applying a document leaves the guards of other paths up.
  lemma GuardStays(c: Cache, doc: Listed, e: Listed, cs: nat)
    requires cs > 0 && CacheOk(c) && Guarded(c, e) && DocParts(doc.path) != DocParts(e.path)
    ensures Guarded(ApplyDoc(c, doc, cs), e)
  {
    hide TreeOk, PathsOk, DocParts, Walk, FileOf, ReadAll, ApplyDoc, ParseMs;
    var i := Owner(c.store, e.path).value;
    PathLeads(c, i);
    ApplyAt(c, doc, cs, DocParts(e.path));
    ApplyKeepsRemote(c, doc, cs, i);
    ApplyKeepsOk(c, doc, cs);
    OwnerOk(ApplyDoc(c, doc, cs), e.path, i);
  }

  lemma ApplyHandled(c: Cache, doc: Listed, taken: seq<Listed>, e: Listed, since: string, cs: nat)
    requires cs > 0 && CacheOk(c) && Takes(c, doc, since) && Stamped(doc) && Stamped(e)
    requires DocParts(doc.path) == DocParts(e.path) ==> doc.path == e.path
    requires Handled(c, taken, e, since)
    ensures Handled(ApplyDoc(c, doc, cs), taken + [doc], e, since)
  {
    hide TreeOk, PathsOk, DocParts, Walk, FileOf, ReadAll, ApplyDoc, StrLt, ParseMs, Skipped, Stamped;
    forall x | x in taken ensures x in taken + [doc] {}
    assert (taken + [doc])[|taken|] == doc;
    if Guarded(c, e) {
      if DocParts(doc.path) == DocParts(e.path) {
        LaterBeatsGuard(e, doc, c.dirty[Owner(c.store, e.path).value]);
      } else {
        GuardStays(c, doc, e, cs);
      }
    }
  }

  lemma {:induction false} AllHandled(c: Cache, docs: seq<Listed>, all: seq<Listed>, since: string, cs: nat)
    requires cs > 0 && CacheOk(c) && WellListed(all) && forall doc :: doc in docs ==> doc in all
    ensures var d := After(c, docs, since, cs);
      CacheOk(d) && forall e :: e in docs ==> Handled(d, Taken(c, docs, since, cs), e, since)
  {
    hide CacheOk, DocParts, Guarded, Skipped, ApplyDoc, Stamped;
    if docs != [] {
      var n := |docs| - 1;
      var front := docs[..n];
      forall doc | doc in front ensures doc in docs {}
      assert docs[n] in docs;
      AllHandled(c, front, all, since, cs);
      var before, done := After(c, front, since, cs), Taken(c, front, since, cs);
      var took := Takes(before, docs[n], since);
      if took { ApplyKeepsOk(before, docs[n], cs); }
      forall e | e in docs ensures Handled(After(c, docs, since, cs), Taken(c, docs, since, cs), e, since) {
        if took {
          if e in front { ApplyHandled(before, docs[n], done, e, since, cs); }
          StrLtTotal(e.updatedAt, e.updatedAt);
          assert (done + [docs[n]])[|done|] == docs[n];
        }
      }
    }
  }

  lemma StrLeTransitive(a: string, b: string, c: string)
    requires StrLe(a, b) && StrLe(b, c)
    ensures StrLe(a, c)
  {
    if a != b && b != c { StrLtTransitive(a, b, c); }
  }

  lemma StampedNotEmpty(doc: Listed)
    requires Stamped(doc)
    ensures doc.updatedAt != ""
  {
    hide TimeText, DateText;
  }

  lemma PassedOver(c: Cache, taken: seq<Listed>, e: Listed, since: string, newest: string)
    requires Handled(c, taken, e, since) && e.updatedAt != "" && StrLe(since, newest)
    requires forall x :: x in taken ==> StrLe(x.updatedAt, newest)
    ensures Guarded(c, e) || Skipped(e, newest)
  {
    hide StrLt, Guarded;
    StrLtTotal(e.updatedAt, "");
    if Skipped(e, since) {
      StrLeTransitive(e.updatedAt, since, newest);
    } else if !Guarded(c, e) {
      var x :| x in taken && StrLe(e.updatedAt, x.updatedAt);
      StrLeTransitive(e.updatedAt, x.updatedAt, newest);
    }
    StrLeEmpty(e.updatedAt);
  }

  lemma StrLeEmpty(a: string)
    ensures StrLe(a, "") ==> a == ""
  {
  }

  lemma {:induction false} NothingTaken(c: Cache, docs: seq<Listed>, since: string, cs: nat)
    requires cs > 0 && forall e :: e in docs ==> !Takes(c, e, since)
    ensures Taken(c, docs, since, cs) == [] && After(c, docs, since, cs) == c
  {
    hide Takes, ApplyDoc;
    if docs != [] {
      var n := |docs| - 1;
      assert docs[n] in docs;
      NothingTaken(c, docs[..n], since, cs);
    }
  }

  // A second delta pull of the same listing reconciles nothing and changes nothing.
  lemma DeltaPullIdempotent(c: Cache, docs: seq<Listed>, cs: nat)
    requires cs > 0 && CacheOk(c) && WellListed(docs)
    ensures var d := DeltaPulled(c, docs, cs);
      Taken(d, docs, Watermark(d), cs) == [] && DeltaPulled(d, docs, cs) == d
  {
    hide TreeOk, PathsOk, DocParts, StrLt, ParseMs, ApplyDoc, Skipped, Taken, After, Stamped, Newest;
    var since, taken := Watermark(c), Taken(c, docs, Watermark(c), cs);
    var d := DeltaPulled(c, docs, cs);
    AllHandled(c, docs, docs, since, cs);
    NewestMeaning(since, taken);
    if Newest(since, taken) == "" { StrLeEmpty(since); }
    assert Watermark(d) == Newest(since, taken);
    forall e | e in docs ensures !Takes(d, e, Watermark(d)) {
      StampedNotEmpty(e);
      PassedOver(After(c, docs, since, cs), taken, e, since, Watermark(d));
    }
    NothingTaken(d, docs, Watermark(d), cs);
    assert Newest(Watermark(d), []) == Watermark(d) by { NewestMeaning(Watermark(d), []); }
  }

  // ---- When a full pull lowers the watermark ----------------------------------------------------

  // Different documents listed for one path have the same spelling of it and time stamps as
  // the server writes them. So it is where no path is listed twice.
  ghost predicate Comparable(docs: seq<Listed>) {
    forall d, e :: d in docs && e in docs && d != e && DocParts(d.path) == DocParts(e.path) ==>
      d.path == e.path && Stamped(d) && Stamped(e)
  }

  // No guard goes up in a pull.
  lemma GuardsOnlyLift(c: Cache, doc: Listed, e: Listed, cs: nat)
    requires cs > 0 && CacheOk(c) && Guarded(ApplyDoc(c, doc, cs), e)
    ensures Guarded(c, e)
  {
    hide TreeOk, UpsertDoc, DocParts, Walk, Replace, FileOf, Outdated;
    UpsertTree(c.store, doc.path, Body(doc), cs);
    OwnerUnique(c.store, e.path, Owner(ApplyDoc(c, doc, cs).store, e.path).value);
  }

  // And one comes down only for a document that is no older.
  lemma LiftedBy(c: Cache, doc: Listed, e: Listed, docs: seq<Listed>, cs: nat)
    requires cs > 0 && CacheOk(c) && Comparable(docs) && doc in docs && e in docs
    requires !Guarded(c, doc) && Guarded(c, e) && !Guarded(ApplyDoc(c, doc, cs), e)
    ensures StrLe(e.updatedAt, doc.updatedAt)
  {
    hide CacheOk, DocParts, ApplyDoc, Stamped, StrLt, Outdated;
    if DocParts(doc.path) != DocParts(e.path) {
      GuardStays(c, doc, e, cs);
    }
    LaterBeatsGuard(e, doc, c.dirty[Owner(c.store, e.path).value]);
  }

  // Some document of the listing is taken by the cache as it was and is as new as `e`.
  ghost predicate Outdone(c: Cache, docs: seq<Listed>, e: Listed, since: string) {
    exists x :: x in docs && Takes(c, x, since) && StrLe(e.updatedAt, x.updatedAt)
  }

  // What a pull takes, in terms of the cache before it: all it would take then, and beyond
  // that only documents that are no newer.
  ghost predicate Foreseen(c: Cache, d: Cache, docs: seq<Listed>, all: seq<Listed>, taken: seq<Listed>, since: string) {
    && (forall e :: e in all && Guarded(d, e) ==> Guarded(c, e))
    && (forall e :: e in all && Guarded(c, e) && !Guarded(d, e) ==> Outdone(c, docs, e, since))
    && (forall e :: e in docs && Takes(c, e, since) ==> e in taken)
    && (forall e :: e in taken ==> e in docs && Outdone(c, docs, e, since))
  }

  lemma OutdoneMore(c: Cache, docs: seq<Listed>, doc: Listed, e: Listed, since: string)
    requires Outdone(c, docs, e, since)
    ensures Outdone(c, docs + [doc], e, since)
  {
    hide Takes, StrLt;
    var x :| x in docs && Takes(c, x, since) && StrLe(e.updatedAt, x.updatedAt);
    assert x in docs + [doc];
  }

  lemma OutdoneAfter(c: Cache, docs: seq<Listed>, doc: Listed, e: Listed, since: string)
    requires Outdone(c, docs, doc, since) && StrLe(e.updatedAt, doc.updatedAt)
    ensures Outdone(c, docs, e, since)
  {
    hide Takes, StrLt;
    var x :| x in docs && Takes(c, x, since) && StrLe(doc.updatedAt, x.updatedAt);
    StrLeTransitive(e.updatedAt, doc.updatedAt, x.updatedAt);
  }

  // One more document, taken.
  lemma ForeseeTaken(c: Cache, d: Cache, docs: seq<Listed>, doc: Listed, all: seq<Listed>, taken: seq<Listed>,
    since: string, cs: nat)
    requires cs > 0 && CacheOk(d) && Comparable(all) && doc in all && Takes(d, doc, since)
    requires Foreseen(c, d, docs, all, taken, since)
    ensures Foreseen(c, ApplyDoc(d, doc, cs), docs + [doc], all, taken + [doc], since)
  {
    hide CacheOk, Comparable, ApplyDoc, Guarded, Skipped, StrLt, Outdone;
    assert (docs + [doc])[|docs|] == doc && (taken + [doc])[|taken|] == doc;
    assert Outdone(c, docs + [doc], doc, since) by {
      if Guarded(c, doc) { OutdoneMore(c, docs, doc, doc, since); } else { OutdoneSelf(c, docs + [doc], doc, since); }
    }
    forall e | e in all && Guarded(ApplyDoc(d, doc, cs), e) ensures Guarded(c, e) {
      GuardsOnlyLift(d, doc, e, cs);
    }
    forall e | e in all && Guarded(c, e) && !Guarded(ApplyDoc(d, doc, cs), e)
      ensures Outdone(c, docs + [doc], e, since)
    {
      if Guarded(d, e) {
        LiftedBy(d, doc, e, all, cs);
        OutdoneAfter(c, docs + [doc], doc, e, since);
      } else {
        OutdoneMore(c, docs, doc, e, since);
      }
    }
    forall e | e in taken + [doc] ensures e in docs + [doc] && Outdone(c, docs + [doc], e, since) {
      if e in taken { OutdoneMore(c, docs, doc, e, since); }
    }
    forall e | e in docs + [doc] && Takes(c, e, since) ensures e in taken + [doc] {
      if e in docs { assert e in taken; }
    }
  }

  lemma OutdoneSelf(c: Cache, docs: seq<Listed>, doc: Listed, since: string)
    requires doc in docs && Takes(c, doc, since)
    ensures Outdone(c, docs, doc, since)
  {
  }

  // One more, passed over.
  lemma ForeseePassed(c: Cache, d: Cache, docs: seq<Listed>, doc: Listed, all: seq<Listed>, taken: seq<Listed>,
    since: string)
    requires doc in all && !Takes(d, doc, since) && Foreseen(c, d, docs, all, taken, since)
    ensures Foreseen(c, d, docs + [doc], all, taken, since)
  {
    hide Guarded, Skipped, StrLt, Outdone;
    forall e | Outdone(c, docs, e, since) ensures Outdone(c, docs + [doc], e, since) {
      OutdoneMore(c, docs, doc, e, since);
    }
  }

  lemma {:induction false} ForeseePull(c: Cache, docs: seq<Listed>, all: seq<Listed>, since: string, cs: nat)
    requires cs > 0 && CacheOk(c) && Comparable(all) && forall doc :: doc in docs ==> doc in all
    ensures CacheOk(After(c, docs, since, cs))
    ensures Foreseen(c, After(c, docs, since, cs), docs, all, Taken(c, docs, since, cs), since)
  {
    hide CacheOk, Comparable, ApplyDoc, Takes, Outdone, Foreseen;
    if docs == [] {
      ForeseeNothing(c, all, since);
    } else {
      var n := |docs| - 1;
      assert docs[..n] + [docs[n]] == docs && docs[n] in docs;
      forall doc | doc in docs[..n] ensures doc in docs {}
      ForeseePull(c, docs[..n], all, since, cs);
      var before, done := After(c, docs[..n], since, cs), Taken(c, docs[..n], since, cs);
      if Takes(before, docs[n], since) {
        ApplyKeepsOk(before, docs[n], cs);
        ForeseeTaken(c, before, docs[..n], docs[n], all, done, since, cs);
      } else {
        ForeseePassed(c, before, docs[..n], docs[n], all, done, since);
      }
    }
  }

  lemma ForeseeNothing(c: Cache, all: seq<Listed>, since: string)
    ensures Foreseen(c, c, [], all, [], since)
  {
  }

  // A full pull lowers the watermark if and only if some listed document gets past the
  // dirty flags as they are before the pull, and all that do are older than the watermark.
  lemma FullLowersIff(c: Cache, docs: seq<Listed>, cs: nat)
    requires cs > 0 && CacheOk(c) && Comparable(docs)
    ensures StrLt(Watermark(FullPulled(c, docs, cs)), Watermark(c)) <==>
      && (exists doc :: doc in docs && !Guarded(c, doc) && doc.updatedAt != "")
      && (forall doc :: doc in docs && !Guarded(c, doc) ==> StrLt(doc.updatedAt, Watermark(c)))
  {
    hide CacheOk, Comparable, Guarded, After, Taken, Newest;
    var taken, w := Taken(c, docs, "", cs), Watermark(c);
    ForeseePull(c, docs, docs, "", cs);
    NewestMeaning("", taken);
    var newest := Newest("", taken);
    NewestOfFree(c, After(c, docs, "", cs), docs, taken, newest);
    hide StrLt, Foreseen;
    StrLtTotal(newest, w);
    StrLtTotal(w, w);
    if newest == "" {
      forall doc | doc in docs && !Guarded(c, doc) ensures doc.updatedAt == "" {
        StrLeEmpty(doc.updatedAt);
      }
    } else {
      var x :| x in docs && !Guarded(c, x) && x.updatedAt == newest;
      if StrLt(newest, w) {
        forall doc | doc in docs && !Guarded(c, doc) ensures StrLt(doc.updatedAt, w) {
          if doc.updatedAt != newest { StrLtTransitive(doc.updatedAt, newest, w); }
        }
      }
    }
  }

  // The newest time stamp applied is that of a document not guarded before the pull.
  lemma NewestOfFree(c: Cache, d: Cache, docs: seq<Listed>, taken: seq<Listed>, newest: string)
    requires Foreseen(c, d, docs, docs, taken, "")
    requires forall doc :: doc in taken ==> StrLe(doc.updatedAt, newest)
    requires newest == "" || exists doc :: doc in taken && doc.updatedAt == newest
    ensures forall doc :: doc in docs && !Guarded(c, doc) ==> StrLe(doc.updatedAt, newest)
    ensures newest == "" || exists doc :: doc in docs && !Guarded(c, doc) && doc.updatedAt == newest
  {
    hide Guarded, StrLt;
    if newest != "" {
      var t :| t in taken && t.updatedAt == newest;
      NewestFree(c, d, docs, taken, t);
    }
  }

  lemma NewestFree(c: Cache, d: Cache, docs: seq<Listed>, taken: seq<Listed>, t: Listed)
    requires Foreseen(c, d, docs, docs, taken, "") && t in taken
    requires forall doc :: doc in taken ==> StrLe(doc.updatedAt, t.updatedAt)
    ensures exists x :: x in docs && !Guarded(c, x) && x.updatedAt == t.updatedAt
  {
    hide Guarded, StrLt, Skipped;
    assert Outdone(c, docs, t, "");
    var x :| x in docs && Takes(c, x, "") && StrLe(t.updatedAt, x.updatedAt);
    assert x in taken;
    StrLtTotal(t.updatedAt, x.updatedAt);
  }
}
