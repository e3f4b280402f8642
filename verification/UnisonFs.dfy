// The file system over the cache database (cache/fs.rs), with its LRU cache of directory
// entries. Methods are proved equal to the functions of `Tree`.
module UnisonFs {
  import opened Basics
  import opened ChunkStore
  import opened Database
  import opened Paths
  import opened Tree
  import opened TreeRuns

  type Key = (nat, string)

  datatype Cached = Cached(key: Key, ino: nat)

  datatype VfsError = NameTooLong | NotDirectory | AlreadyExists | NotFound

  datatype VfsResult = Ok(ino: nat) | Err(error: VfsError)

  // ---- The LRU cache, most recent first -------------------------------------------------------

  function CacheGet(cache: seq<Cached>, key: Key): Option<nat> {
    if cache == [] then None else if cache[0].key == key then Some(cache[0].ino) else CacheGet(cache[1..], key)
  }

  function Without(cache: seq<Cached>, key: Key): (rest: seq<Cached>)
    ensures forall e :: e in rest ==> e in cache && e.key != key
    ensures |rest| <= |cache| && (CacheGet(cache, key).Some? ==> |rest| < |cache|)
  {
    if cache == [] then []
    else (if cache[0].key == key then [] else [cache[0]]) + Without(cache[1..], key)
  }

  // The entry in front, the oldest one evicted where there are too many.
  function CachePut(cache: seq<Cached>, key: Key, ino: nat, capacity: Positive): (after: seq<Cached>)
    ensures |after| <= capacity
    ensures forall e :: e in after ==> e == Cached(key, ino) || e in cache
  {
    var all := [Cached(key, ino)] + Without(cache, key);
    if |all| <= capacity then all else all[..capacity]
  }

  // Everything cached is in the table.
  ghost predicate CacheCoherent(cache: seq<Cached>, d: Dentries) {
    forall e :: e in cache ==> e.key in d && d[e.key] == e.ino
  }

  lemma {:induction false} CacheGetIsTable(cache: seq<Cached>, d: Dentries, key: Key)
    requires CacheCoherent(cache, d)
    ensures CacheGet(cache, key).Some? ==> Lookup(d, key.0, key.1) == CacheGet(cache, key)
  {
    if cache != [] {
      assert cache[0] in cache;
      forall e | e in cache[1..] ensures e.key in d && d[e.key] == e.ino {
        assert e in cache;
      }
      CacheGetIsTable(cache[1..], d, key);
    }
  }

  lemma {:induction false} CacheGetMeaning(cache: seq<Cached>, key: Key)
    ensures CacheGet(cache, key).Some? <==> exists e :: e in cache && e.key == key
    ensures CacheGet(cache, key).Some? ==> Cached(key, CacheGet(cache, key).value) in cache
  {
    if cache != [] {
      CacheGetMeaning(cache[1..], key);
      assert cache[0] in cache;
      forall e | e in cache ensures e == cache[0] || e in cache[1..] {}
      forall e | e in cache[1..] ensures e in cache {}
    }
  }

  // Inserting into the table keeps the cache coherent; removing an entry, which leaves the
  // cache alone, keeps it coherent if and only if the entry is not cached.
  lemma RemoveKeepsCoherentIff(cache: seq<Cached>, d: Dentries, key: Key)
    requires CacheCoherent(cache, d)
    ensures CacheCoherent(cache, d - {key}) <==> CacheGet(cache, key).None?
  {
    CacheGetMeaning(cache, key);
  }

  // So an entry that was looked up and then removed stays in the cache, and is found there.
  lemma LookedUpThenRemoved(cache: seq<Cached>, d: Dentries, key: Key, capacity: Positive)
    requires CacheCoherent(cache, d) && key in d
    ensures var after := CachePut(cache, key, d[key], capacity);
      && CacheCoherent(after, d)
      && !CacheCoherent(after, d - {key}) && CacheGet(after, key) == Some(d[key])
        && Lookup(d - {key}, key.0, key.1).None?
  {
    var after := CachePut(cache, key, d[key], capacity);
    assert after[0] == Cached(key, d[key]);
    RemoveKeepsCoherentIff(after, d, key);
  }

  // ---- Which entries are cached -----------------------------------------------------------------

  // The cache after a sequence of uses, each a lookup that found its inode.
  function Used(uses: seq<Cached>, capacity: Positive): seq<Cached> {
    if uses == [] then []
    else
      var last := uses[|uses| - 1];
      CachePut(Used(uses[..|uses| - 1], capacity), last.key, last.ino, capacity)
  }

  // All that was ever used, by last use, newest first.
  ghost function ByRecency(uses: seq<Cached>): seq<Cached> {
    if uses == [] then []
    else
      var last := uses[|uses| - 1];
      [last] + Without(ByRecency(uses[..|uses| - 1]), last.key)
  }

  ghost predicate DistinctKeys(cache: seq<Cached>) {
    forall x, y :: 0 <= x < y < |cache| ==> cache[x].key != cache[y].key
  }

  // The keys used from the `i`-th use on.
  function KeysSince(uses: seq<Cached>, i: nat): set<Key> { set j | i <= j < |uses| :: uses[j].key }

  ghost predicate IsLastUse(uses: seq<Cached>, key: Key, i: nat) {
    i < |uses| && uses[i].key == key && forall j :: i < j < |uses| ==> uses[j].key != key
  }

  lemma {:induction false} WithoutNone(cache: seq<Cached>, key: Key)
    requires forall e :: e in cache ==> e.key != key
    ensures Without(cache, key) == cache
  {
    if cache != [] {
      assert cache[0] in cache;
      forall e | e in cache[1..] ensures e.key != key {
        assert e in cache;
      }
      WithoutNone(cache[1..], key);
    }
  }

  lemma JoinedLater(a: seq<Cached>, b: seq<Cached>, c: seq<Cached>)
    ensures a + (b + c) == a + b + c
  {
  }

  lemma {:induction false} WithoutPieces(a: seq<Cached>, b: seq<Cached>, key: Key)
    ensures Without(a + b, key) == Without(a, key) + Without(b, key)
  {
    if a == [] {
      assert a + b == b;
    } else {
      assert (a + b)[1..] == a[1..] + b;
      WithoutPieces(a[1..], b, key);
      JoinedLater(if a[0].key == key then [] else [a[0]], Without(a[1..], key), Without(b, key));
    }
  }

  lemma DistinctTail(cache: seq<Cached>)
    requires DistinctKeys(cache) && cache != []
    ensures DistinctKeys(cache[1..]) && forall e :: e in cache[1..] ==> e.key != cache[0].key
  {
  }

  lemma TailCuts(cache: seq<Cached>, x: nat)
    requires 0 < x < |cache|
    ensures [cache[0]] + (cache[1..][..x - 1] + cache[1..][x..]) == cache[..x] + cache[x + 1..]
  {
  }

  // Taking out a key takes out its one entry.
  lemma {:induction false} WithoutAt(cache: seq<Cached>, key: Key, x: nat)
    requires DistinctKeys(cache) && x < |cache| && cache[x].key == key
    ensures Without(cache, key) == cache[..x] + cache[x + 1..]
  {
    hide DistinctKeys;
    DistinctTail(cache);
    if x == 0 {
      WithoutNone(cache[1..], key);
    } else {
      TailCuts(cache, x);
      assert cache[1..][x - 1] in cache[1..];
      WithoutAt(cache[1..], key, x - 1);
    }
  }

  lemma WithoutCases(cache: seq<Cached>, key: Key)
    requires DistinctKeys(cache)
    ensures DistinctKeys(Without(cache, key)) && |Without(cache, key)| >= |cache| - 1
  {
    if x: nat :| x < |cache| && cache[x].key == key {
      WithoutAt(cache, key, x);
    } else {
      WithoutNone(cache, key);
    }
  }

  lemma {:induction false} RecencyDistinct(uses: seq<Cached>)
    ensures DistinctKeys(ByRecency(uses)) && forall e :: e in ByRecency(uses) ==> e in uses
  {
    if uses != [] {
      RecencyDistinct(uses[..|uses| - 1]);
      WithoutCases(ByRecency(uses[..|uses| - 1]), uses[|uses| - 1].key);
    }
  }

  // Taking a key out of the newest part leaves the newest part of what is left.
  lemma WithoutFront(older: seq<Cached>, key: Key, capacity: Positive)
    requires DistinctKeys(older) && |older| > capacity
    ensures var some, all := Without(older[..capacity], key), Without(older, key);
      capacity - 1 <= |some| <= |all| && all[..|some|] == some
  {
    assert older == older[..capacity] + older[capacity..];
    WithoutPieces(older[..capacity], older[capacity..], key);
    WithoutCases(older[..capacity], key);
    hide Without;
  }

  lemma TakeWithout(older: seq<Cached>, last: Cached, capacity: Positive)
    requires DistinctKeys(older)
    ensures var all := [last] + Without(older, last.key);
      CachePut(older[..Min(capacity, |older|)], last.key, last.ino, capacity) == all[..Min(capacity, |all|)]
  {
    hide Without, DistinctKeys;
    if |older| <= capacity {
      assert older[..Min(capacity, |older|)] == older;
    } else {
      WithoutFront(older, last.key, capacity);
      var some, all := Without(older[..capacity], last.key), Without(older, last.key);
      assert all[..capacity - 1] == some[..capacity - 1];
      assert ([last] + all)[..capacity] == [last] + all[..capacity - 1];
      assert ([last] + some)[..capacity] == [last] + some[..capacity - 1];
      assert |[last] + some| == capacity ==> [last] + some == ([last] + some)[..capacity];
    }
  }

  // The cache is the newest part.
  lemma {:induction false} UsedIsNewest(uses: seq<Cached>, capacity: Positive)
    ensures Used(uses, capacity) == ByRecency(uses)[..Min(capacity, |ByRecency(uses)|)]
  {
    if uses != [] {
      UsedIsNewest(uses[..|uses| - 1], capacity);
      RecencyDistinct(uses[..|uses| - 1]);
      TakeWithout(ByRecency(uses[..|uses| - 1]), uses[|uses| - 1], capacity);
      hide Without, CachePut;
    }
  }

  lemma OneMoreKey(uses: seq<Cached>, i: nat)
    requires i < |uses| - 1
    ensures KeysSince(uses, i) == KeysSince(uses[..|uses| - 1], i) + {uses[|uses| - 1].key}
  {
    var before := uses[..|uses| - 1];
    forall k | k in KeysSince(uses, i) ensures k in KeysSince(before, i) + {uses[|uses| - 1].key} {
      var j :| i <= j < |uses| && uses[j].key == k;
      assert j < |before| ==> before[j].key == k;
    }
    forall k | k in KeysSince(before, i) ensures k in KeysSince(uses, i) {
      var j :| i <= j < |before| && before[j].key == k;
      assert uses[j].key == k;
    }
  }

  lemma {:induction false} LastUseExists(uses: seq<Cached>, key: Key, from: nat) returns (i: nat)
    requires key in KeysSince(uses, from)
    ensures from <= i && IsLastUse(uses, key, i)
    decreases |uses|
  {
    if uses[|uses| - 1].key == key {
      i := |uses| - 1;
    } else {
      var j :| from <= j < |uses| && uses[j].key == key;
      assert uses[..|uses| - 1][j].key == key;
      i := LastUseExists(uses[..|uses| - 1], key, from);
    }
  }

  lemma FewerSince(uses: seq<Cached>, i: nat, j: nat)
    requires i < j < |uses| && uses[i].key !in KeysSince(uses, j)
    ensures KeysSince(uses, j) < KeysSince(uses, i) && |KeysSince(uses, j)| < |KeysSince(uses, i)|
  {
    assert uses[i].key in KeysSince(uses, i);
    SmallerSubset(KeysSince(uses, j), KeysSince(uses, i));
  }

  lemma SmallerSubset(a: set<Key>, b: set<Key>)
    requires a < b
    ensures |a| < |b|
  {
    assert b == a + (b - a) && |b - a| > 0;
  }

  // The place of a key is the number of keys used since, itself counted, less one.
  lemma {:induction false} PlaceByRecency(uses: seq<Cached>, key: Key, i: nat)
    requires IsLastUse(uses, key, i)
    ensures 1 <= |KeysSince(uses, i)| <= |ByRecency(uses)| && ByRecency(uses)[|KeysSince(uses, i)| - 1] == uses[i]
    decreases |uses|, 0
  {
    var n := |uses| - 1;
    var before := uses[..n];
    if i == n {
      assert KeysSince(uses, i) == {key};
    } else {
      assert IsLastUse(before, key, i);
      PlaceByRecency(before, key, i);
      RecencyDistinct(before);
      OneMoreKey(uses, i);
      PlaceMoves(before, key, i, uses[n].key);
    }
  }

  // Where an entry goes when another key is taken out.
  lemma PlaceWithout(all: seq<Cached>, place: nat, x: nat)
    requires DistinctKeys(all) && place < |all| && x < |all| && x != place
    ensures var rest, y := Without(all, all[x].key), if x < place then place - 1 else place;
      y < |rest| && rest[y] == all[place]
  {
    WithoutAt(all, all[x].key, x);
  }

  // Using another key moves the entry back by one place, unless that key was used since.
  lemma PlaceMoves(before: seq<Cached>, key: Key, i: nat, other: Key)
    requires IsLastUse(before, key, i) && other != key && DistinctKeys(ByRecency(before))
    requires 1 <= |KeysSince(before, i)| <= |ByRecency(before)|
      && ByRecency(before)[|KeysSince(before, i)| - 1] == before[i]
    ensures var rest, m := Without(ByRecency(before), other), |KeysSince(before, i) + {other}|;
      2 <= m <= |rest| + 1 && rest[m - 2] == before[i]
    decreases |before|, 1
  {
    hide ByRecency, Without, DistinctKeys, IsLastUse, KeysSince;
    var since := KeysSince(before, i);
    assert i < |before| && before[i].key == key by { IsIt(before, key, i); }
    if other in since {
      assert since + {other} == since;
      var j := UsedSince(before, key, i, other);
      PlaceByRecency(before, other, j);
      PlaceWithout(ByRecency(before), |since| - 1, |KeysSince(before, j)| - 1);
    } else if other in KeysSince(before, 0) {
      var j := UsedBefore(before, i, other);
      PlaceByRecency(before, other, j);
      PlaceWithout(ByRecency(before), |since| - 1, |KeysSince(before, j)| - 1);
    } else {
      NotAmong(before, other);
    }
  }

  lemma IsIt(uses: seq<Cached>, key: Key, i: nat)
    requires IsLastUse(uses, key, i)
    ensures i < |uses| && uses[i].key == key && key in KeysSince(uses, i)
    ensures forall j :: i < j < |uses| ==> key !in KeysSince(uses, j)
  {
  }

  lemma UsedSince(uses: seq<Cached>, key: Key, i: nat, other: Key) returns (j: nat)
    requires IsLastUse(uses, key, i) && other != key && other in KeysSince(uses, i)
    ensures IsLastUse(uses, other, j) && |KeysSince(uses, j)| < |KeysSince(uses, i)| && uses[j].key == other
  {
    j := LastUseExists(uses, other, i);
    FewerSince(uses, i, j);
  }

  lemma UsedBefore(uses: seq<Cached>, i: nat, other: Key) returns (j: nat)
    requires i < |uses| && other !in KeysSince(uses, i) && other in KeysSince(uses, 0)
    ensures IsLastUse(uses, other, j) && |KeysSince(uses, i)| < |KeysSince(uses, j)| && uses[j].key == other
  {
    j := LastUseExists(uses, other, 0);
    IsIt(uses, other, j);
    FewerSince(uses, j, i);
  }

  lemma NotAmong(before: seq<Cached>, other: Key)
    requires other !in KeysSince(before, 0)
    ensures Without(ByRecency(before), other) == ByRecency(before)
  {
    RecencyDistinct(before);
    forall e | e in ByRecency(before) ensures e.key != other {
      var j :| 0 <= j < |before| && before[j] == e;
      assert before[j].key in KeysSince(before, 0);
    }
    WithoutNone(ByRecency(before), other);
  }

  lemma PlacedIsFound(cache: seq<Cached>, x: nat)
    requires DistinctKeys(cache) && x < |cache|
    ensures CacheGet(cache, cache[x].key) == Some(cache[x].ino)
  {
    CacheGetMeaning(cache, cache[x].key);
  }

  // An entry is cached if and only if no more than `capacity` keys, itself counted, were used
  // since its last use.
  lemma LeastRecentlyUsed(uses: seq<Cached>, capacity: Positive, key: Key, i: nat)
    requires IsLastUse(uses, key, i)
    ensures CacheGet(Used(uses, capacity), key) ==
      if |KeysSince(uses, i)| <= capacity then Some(uses[i].ino) else None
  {
    var cache, place := Used(uses, capacity), |KeysSince(uses, i)| - 1;
    PlaceByRecency(uses, key, i);
    RecencyDistinct(uses);
    UsedIsNewest(uses, capacity);
    if place < capacity {
      PlacedIsFound(cache, place);
    } else {
      CacheGetMeaning(cache, key);
    }
  }

  lemma NeverUsed(uses: seq<Cached>, capacity: Positive, key: Key)
    requires forall i :: 0 <= i < |uses| ==> uses[i].key != key
    ensures CacheGet(Used(uses, capacity), key).None?
  {
    var cache := Used(uses, capacity);
    RecencyDistinct(uses);
    UsedIsNewest(uses, capacity);
    CacheGetMeaning(cache, key);
    hide Used, ByRecency, DistinctKeys, CacheGet;
    forall e | e in cache ensures e.key != key {
      assert e in uses;
    }
  }

  // ---- The file system --------------------------------------------------------------------------

  class UnisonFs {
    const db: Db
    const capacity: Positive
    var dentryCache: seq<Cached>

    constructor (db: Db, capacity: Positive)
      ensures this.db == db && this.capacity == capacity && dentryCache == [] && Coherent()
    {
      this.db, this.capacity, dentryCache := db, capacity, [];
    }

    ghost predicate Coherent()
      reads this, db
    {
      CacheCoherent(dentryCache, db.dentries) && |dentryCache| <= capacity
    }

    // The table's answer, whatever is cached and whatever was evicted.
    method LookupIno(parent: nat, name: string) returns (ino: Option<nat>)
      requires Coherent()
      modifies this`dentryCache
      ensures Coherent()
      ensures ino == Lookup(db.dentries, parent, name)
      ensures dentryCache == if ino.None? then old(dentryCache)
        else CachePut(old(dentryCache), (parent, name), ino.value, capacity)
    {
      var key := (parent, name);
      CacheGetIsTable(dentryCache, db.dentries, key);
      ino := CacheGet(dentryCache, key);
      if ino.None? && key in db.dentries {
        ino := Some(db.dentries[key]);
      }
      if ino.Some? {
        dentryCache := CachePut(dentryCache, key, ino.value, capacity);
      }
    }

    method CreateInode(isDir: bool) returns (ino: nat)
      modifies db`inodes, db`nextIno
      ensures ino == old(db.nextIno) && db.nextIno == ino + 1 && db.inodes == old(db.inodes)[ino := Inode(isDir, 0)]
    {
      ino := db.nextIno;
      db.inodes, db.nextIno := db.inodes[ino := Inode(isDir, 0)], ino + 1;
    }

    // Inserts or replaces; the cache stays coherent where nothing is replaced.
    method InsertDentry(parent: nat, name: string, ino: nat)
      modifies db`dentries
      ensures db.dentries == old(db.dentries)[(parent, name) := ino]
      ensures old(Coherent()) && (parent, name) !in old(db.dentries) ==> Coherent()
    {
      db.dentries := db.dentries[(parent, name) := ino];
    }

    // A new inode under a name that is not taken.
    method AddInode(parent: nat, name: string, isDir: bool) returns (ino: nat)
      requires Coherent() && (parent, name) !in db.dentries
      modifies db`inodes, db`nextIno, db`dentries
      ensures Coherent()
      ensures ino == old(db.nextIno) && db.Tables() == AddEntry(old(db.Tables()), parent, name, isDir)
    {
      ino := CreateInode(isDir);
      InsertDentry(parent, name, ino);
    }

    method EnsureDirsForPath(path: string)
      requires Coherent()
      modifies this`dentryCache, db`inodes, db`nextIno, db`dentries
      ensures Coherent()
      ensures db.Tables() == MakeDirs(old(db.Tables()), ROOT, DirParts(path))
    {
      hide Split, TrimStart, CacheCoherent;
      var components := Split(TrimStart(path, '/'), '/');
      if |components| <= 1 {
        assert Initial(components) == [];
        return;
      }
      var dirs := Initial(components);
      var parentIno: nat, i: nat := ROOT, 0;
      while i < |dirs|
        invariant 0 <= i <= |dirs| && Coherent()
        invariant MakeDirs(old(db.Tables()), ROOT, NonEmpty(dirs))
          == MakeDirs(db.Tables(), parentIno, NonEmpty(dirs[i..]))
      {
        NonEmptyStep(dirs, i);
        if dirs[i] != "" {
          var found := LookupIno(parentIno, dirs[i]);
          match found {
            case Some(ino) =>
              parentIno := ino;
            case None =>
              parentIno := AddInode(parentIno, dirs[i], true);
          }
        }
        i := i + 1;
      }
    }

    // Resolves a path, skipping empty components.
    method ResolvePathToIno(path: string) returns (ino: Option<nat>)
      requires Coherent()
      modifies this`dentryCache
      ensures Coherent()
      ensures ino == Walk(db.dentries, ROOT, ResolveParts(path))
    {
      hide Split, TrimStart, CacheCoherent;
      var components := Split(TrimStart(path, '/'), '/');
      var cur: nat, i: nat := ROOT, 0;
      while i < |components|
        invariant 0 <= i <= |components| && Coherent()
        invariant Walk(db.dentries, ROOT, NonEmpty(components)) == Walk(db.dentries, cur, NonEmpty(components[i..]))
      {
        NonEmptyStep(components, i);
        if components[i] != "" {
          var found := LookupIno(cur, components[i]);
          if found.None? {
            return None;
          }
          cur := found.value;
        }
        i := i + 1;
      }
      ino := Some(cur);
    }

    // Replaces the chunk rows by the pieces of `content`.
    method WriteContentToIno(ino: nat, content: Bytes)
      modifies db`chunks, db`inodes
      ensures db.Tables() == PutFile(old(db.Tables()), ino, Replace(content, db.chunkSize))
    {
      var pieces := CutIntoChunks(content, db.chunkSize);
      db.chunks := db.chunks[ino := pieces];
      if ino in db.inodes {
        db.inodes := db.inodes[ino := db.inodes[ino].(size := |content|)];
      }
    }

    static method CutIntoChunks(content: Bytes, cs: Positive) returns (pieces: Chunks)
      ensures Replace(content, cs) == File(pieces, |content|)
    {
      hide Start, Index, Slice, Replace, ChunkCount;
      pieces := map[];
      NextStart(0, cs);
      var i := 0;
      while Start(i, cs) < |content|
        invariant i > 0 ==> Start(i - 1, cs) < |content|
        invariant pieces == Chop(content, i, cs)
        decreases |content| - Start(i, cs)
      {
        NextStart(i, cs);
        pieces := pieces[i := Slice(content, i, cs)];
        i := i + 1;
      }
      CountCovers(|content|, i, cs);
      if i > 0 { CountCovers(|content|, i - 1, cs); }
      ReplaceUnfolds(content, cs);
    }

    method UpsertBrainDoc(path: string, content: Bytes) returns (ino: nat)
      requires Coherent()
      modifies this`dentryCache, db`inodes, db`nextIno, db`dentries, db`chunks, db`remote
      ensures Coherent()
      ensures (db.Tables(), ino) == UpsertDoc(old(db.Tables()), path, content, db.chunkSize)
    {
      hide MakeDirs, Walk, Replace, DirParts, ResolveParts, FileName, ParentPath, CacheCoherent;
      EnsureDirsForPath(path);
      var filename, parentPath := FileName(path), ParentPath(path);
      var parentIno := ROOT;
      if parentPath != "" {
        var resolved := ResolvePathToIno(parentPath);
        parentIno := if resolved.Some? then resolved.value else ROOT;
      }
      var found := LookupIno(parentIno, filename);
      match found {
        case Some(i) =>
          ino := i;
        case None =>
          ino := AddInode(parentIno, filename, false);
          db.SetRemotePath(ino, path);
      }
      WriteContentToIno(ino, content);
    }

    // Makes a directory, or says why not.
    method Mkdir(parent: nat, name: string) returns (r: VfsResult)
      requires Coherent()
      modifies this`dentryCache, db`inodes, db`nextIno, db`dentries
      ensures Coherent()
      ensures r.Ok? ==> r.ino == old(db.nextIno) && db.Tables() == AddEntry(old(db.Tables()), parent, name, true)
      ensures r.Err? ==> db.Tables() == old(db.Tables())
      ensures r.Err? <==>
        |name| > 255 || !old(IsDir(db.Tables(), parent)) || Lookup(old(db.dentries), parent, name).Some?
      ensures r == Err(NameTooLong) <==> |name| > 255
      ensures r == Err(NotDirectory) <==> |name| <= 255 && !old(IsDir(db.Tables(), parent))
      ensures r == Err(AlreadyExists) <==>
        |name| <= 255 && old(IsDir(db.Tables(), parent)) && Lookup(old(db.dentries), parent, name).Some?
    {
      if |name| > MAX_NAME_LEN {
        return Err(NameTooLong);
      }
      if parent !in db.inodes || !db.inodes[parent].isDir {
        return Err(NotDirectory);
      }
      var found := LookupIno(parent, name);
      if found.Some? {
        return Err(AlreadyExists);
      }
      var ino := AddInode(parent, name, true);
      return Ok(ino);
    }

    // Creates a file, or opens the one that is there.
    method CreateFile(parent: nat, name: string) returns (r: VfsResult)
      requires Coherent()
      modifies this`dentryCache, db`inodes, db`nextIno, db`dentries
      ensures Coherent()
      ensures |name| > 255 ==> r == Err(NameTooLong)
      ensures |name| <= 255 && !old(IsDir(db.Tables(), parent)) ==> r == Err(NotDirectory)
      ensures |name| <= 255 && old(IsDir(db.Tables(), parent)) ==>
        match Lookup(old(db.dentries), parent, name)
        case None => r == Ok(old(db.nextIno)) && db.Tables() == AddEntry(old(db.Tables()), parent, name, false)
        case Some(ino) =>
          && r == (if ino in old(db.inodes) then Ok(ino) else Err(NotFound))
          && db.Tables() == old(db.Tables())
      ensures r.Err? ==> db.Tables() == old(db.Tables())
    {
      if |name| > MAX_NAME_LEN {
        return Err(NameTooLong);
      }
      if parent !in db.inodes || !db.inodes[parent].isDir {
        return Err(NotDirectory);
      }
      var found := LookupIno(parent, name);
      if found.Some? {
        if found.value !in db.inodes {
          return Err(NotFound);
        }
        return Ok(found.value);
      }
      var ino := AddInode(parent, name, false);
      return Ok(ino);
    }
  }

  lemma NonEmptyStep(parts: Parts, i: nat)
    requires i < |parts|
    ensures NonEmpty(parts[i..]) == (if parts[i] == "" then [] else [parts[i]]) + NonEmpty(parts[i + 1..])
    ensures parts[i] != "" ==>
      NonEmpty(parts[i..]) != [] && NonEmpty(parts[i..])[0] == parts[i]
      && NonEmpty(parts[i..])[1..] == NonEmpty(parts[i + 1..])
    ensures parts[i] == "" ==> NonEmpty(parts[i..]) == NonEmpty(parts[i + 1..])
  {
    assert parts[i..][1..] == parts[i + 1..];
  }
}
