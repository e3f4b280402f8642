// Why the hidden markers must not be linked: what `rmdir` of the in-memory file system does
// to a tree in which anything may bear the marker's name.
module MemMarkers {
  import opened Basics
  import opened MemTree
  import opened MemRuns

  // Directories have one entry each, the root none, and numbers are fresh.
  ghost predicate Rooted(s: State) {
    var ns := s.nodes;
    && IsDir(ns, ROOT)
    && (forall i :: i in ns ==> i < s.alloc)
    && (forall d, n :: Child(ns, d, n).Some? ==> Child(ns, d, n).value != ROOT)
    && (forall d, n, e, m ::
          Child(ns, d, n).Some? && Child(ns, d, n) == Child(ns, e, m) && IsDir(ns, Child(ns, d, n).value) ==>
            d == e && n == m)
  }

  // A good tree, with no rule for markers.
  ghost predicate Sound(s: State) { Good(s.nodes) && Rooted(s) }

  lemma ShapedIsSound(s: State)
    requires Shaped(s)
    ensures Sound(s)
  {
    ShapedIsGood(s);
    hide Good, Links, Reached;
  }

  // ---- What cannot be reached ---------------------------------------------------------------------

  // Inodes whose entries are all in one another are not reachable.
  lemma {:induction false} ClosedUnreached(ns: Nodes, inner: set<nat>, names: seq<string>, j: nat)
    requires ROOT !in inner && j in inner
    requires forall e, m :: Child(ns, e, m).Some? && Child(ns, e, m).value in inner ==> e in inner
    ensures Walk(ns, ROOT, names) != Some(j)
    decreases |names|
  {
    if names != [] && Walk(ns, ROOT, names) == Some(j) {
      var front, last := names[..|names| - 1], names[|names| - 1];
      assert names == front + [last];
      WalkSnoc(ns, ROOT, front, last);
      ClosedUnreached(ns, inner, front, Walk(ns, ROOT, front).value);
    }
  }

  lemma NotItsOwnChild(s: State, d: nat, n: string, i: nat)
    requires Sound(s) && Child(s.nodes, d, n) == Some(i) && IsDir(s.nodes, i)
    ensures d != i
  {
    var names :| Walk(s.nodes, ROOT, names) == Some(i);
    hide Good, Walk;
    if d == i { ClosedUnreached(s.nodes, {i}, names, i); }
  }

  lemma NotItsGrandchild(s: State, d: nat, n: string, i: nat, m: string, k: nat)
    requires Sound(s) && Child(s.nodes, d, n) == Some(i) && IsDir(s.nodes, i)
    requires Child(s.nodes, i, m) == Some(k) && IsDir(s.nodes, k)
    ensures d != k
  {
    var names :| Walk(s.nodes, ROOT, names) == Some(i);
    hide Good, Walk;
    if d == k { ClosedUnreached(s.nodes, {i, k}, names, i); }
  }

  // ---- Changes that keep the tree good ----------------------------------------------------------------

  // A childless inode goes with its only entry.
  ghost predicate Without(ns: Nodes, ms: Nodes, d: nat, n: string, i: nat) {
    && (forall e, m :: Child(ms, e, m) == if e == d && m == n then None else Child(ns, e, m))
    && ms.Keys == ns.Keys - {i}
    && (forall j :: j in ms ==> ms[j].Dir? == ns[j].Dir? && (!ns[j].Dir? ==> ms[j] == ns[j]))
  }

  lemma WithoutGood(ns: Nodes, ms: Nodes, d: nat, n: string, i: nat)
    requires Good(ns) && Child(ns, d, n) == Some(i) && Without(ns, ms, d, n, i)
    requires forall m :: Child(ns, i, m).None?
    requires forall e, m :: Child(ns, e, m) == Some(i) ==> e == d && m == n
    ensures Good(ms)
  {
    hide Links, Reached;
    forall j | j in ms ensures Reached(ms, j) {
      StillReached(ns, ms, d, n, j);
    }
    forall j | j in ms && !ms[j].Dir? ensures ms[j].nlink == |Links(ms, j)| {
      LinksSame(ns, ms, j);
    }
  }

  lemma SameGood(ns: Nodes, ms: Nodes)
    requires Good(ns) && ms.Keys == ns.Keys && forall e, m :: Child(ms, e, m) == Child(ns, e, m)
    requires forall j :: j in ns ==> ms[j].Dir? == ns[j].Dir? && (!ns[j].Dir? ==> ms[j] == ns[j])
    ensures Good(ms)
  {
    hide Links, Reached;
    forall j | j in ms ensures Reached(ms, j) {
      ReachedMore(ns, ms, j);
    }
    forall j | j in ms && !ms[j].Dir? ensures ms[j].nlink == |Links(ms, j)| {
      LinksSame(ns, ms, j);
    }
  }

  // A new marker.
  lemma MarkedGood(ns: Nodes, i: nat, a: nat)
    requires Good(ns) && IsDir(ns, i) && Child(ns, i, KEEP).None? && a !in ns
    ensures Good(Attach(ns[a := Regular([], 1)], i, KEEP, a))
  {
    var ms := Attach(ns[a := Regular([], 1)], i, KEEP, a);
    assert forall e, m :: Child(ms, e, m) == if e == i && m == KEEP then Some(a) else Child(ns, e, m);
    assert ms.Keys == ns.Keys + {a};
    LinksOne(ms, a, i, KEEP);
    assert ms[a] == Regular([], 1) && forall j :: j in ns && j != i ==> ms[j] == ns[j];
    hide Links, Reached, Attach;
    forall j | j in ns ensures Reached(ms, j) {
      ReachedMore(ns, ms, j);
    }
    ReachedChild(ms, i, KEEP);
    forall j | j in ns && !ns[j].Dir? ensures Links(ms, j) == Links(ns, j) {
      LinksSame(ns, ms, j);
    }
  }

  // ---- Removing a directory ---------------------------------------------------------------------------

  // What bears the marker's name can go alone: a file with no other name, or a directory
  // that holds nothing.
  predicate GoesAlone(ns: Nodes, k: nat)
    requires k in ns
  {
    if ns[k].Dir? then ns[k].children == map[] else ns[k].nlink == 1
  }

  lemma OnlyName(s: State, i: nat, k: nat)
    requires Sound(s) && Child(s.nodes, i, KEEP) == Some(k) && k in s.nodes && GoesAlone(s.nodes, k)
    ensures forall e, m :: Child(s.nodes, e, m) == Some(k) ==> e == i && m == KEEP
    ensures forall m :: Child(s.nodes, k, m).None?
  {
    hide Reached, Links;
    if !IsDir(s.nodes, k) { SingleLink(s.nodes, k, i, KEEP); }
  }

  // The directory without what bears the marker's name.
  function Bared(ns: Nodes, i: nat): Nodes {
    match Child(ns, i, KEEP) case None => ns case Some(k) => Detach(ns - {k}, i, KEEP)
  }

  lemma BaredGood(s: State, d: nat, n: string, i: nat)
    requires Sound(s) && Child(s.nodes, d, n) == Some(i) && IsDir(s.nodes, i)
    requires Child(s.nodes, i, KEEP).Some? ==> GoesAlone(s.nodes, Child(s.nodes, i, KEEP).value)
    ensures Good(Bared(s.nodes, i)) && Child(Bared(s.nodes, i), d, n) == Some(i)
    ensures IsDir(Bared(s.nodes, i), i) && IsDir(Bared(s.nodes, i), d) && Child(Bared(s.nodes, i), i, KEEP).None?
      && d != i
  {
    NotItsOwnChild(s, d, n, i);
    if Child(s.nodes, i, KEEP).Some? {
      var k := Child(s.nodes, i, KEEP).value;
      OnlyName(s, i, k);
      if IsDir(s.nodes, k) {
        NotItsOwnChild(s, i, KEEP, k);
        NotItsGrandchild(s, d, n, i, KEEP, k);
      }
      hide Good, Rooted;
      BaredWithout(s.nodes, i, k);
      WithoutGood(s.nodes, Bared(s.nodes, i), i, KEEP, k);
    }
  }

  lemma BaredWithout(ns: Nodes, i: nat, k: nat)
    requires Child(ns, i, KEEP) == Some(k) && i != k && forall m :: Child(ns, k, m).None?
    ensures Without(ns, Bared(ns, i), i, KEEP, k)
  {
  }

  lemma RmdirGood(s: State, d: nat, n: string, i: nat)
    requires Sound(s) && Child(s.nodes, d, n) == Some(i) && IsDir(s.nodes, i)
    requires Child(s.nodes, i, KEEP).Some? ==> GoesAlone(s.nodes, Child(s.nodes, i, KEEP).value)
    ensures Good(Rmdir(s, d, n).0.nodes)
  {
    BaredGood(s, d, n, i);
    var bare := Bared(s.nodes, i);
    if bare[i].children != map[] {
      if Child(s.nodes, i, KEEP).Some? {
        assert s.alloc !in bare;
        hide Good;
        MarkedGood(bare, i, s.alloc);
      }
    } else {
      var gone := Detach(bare - {i}, d, n);
      OneEntry(s, d, n, i);
      hide Good, Rooted;
      EmptyWithout(bare, d, n, i);
      WithoutGood(bare, gone, d, n, i);
      LinksOnly(gone, d, Dec(gone[d].nlink));
      SameGood(gone, SetLinks(gone, d, Dec(gone[d].nlink)));
    }
  }

  lemma OneEntry(s: State, d: nat, n: string, i: nat)
    requires Sound(s) && Child(s.nodes, d, n) == Some(i) && IsDir(s.nodes, i)
    ensures forall e, m :: Child(Bared(s.nodes, i), e, m) == Some(i) ==> e == d && m == n
  {
    hide Good;
    var ns, bare := s.nodes, Bared(s.nodes, i);
    forall e, m | Child(bare, e, m) == Some(i) ensures e == d && m == n {
      assert Child(ns, e, m) == Some(i);
    }
  }

  lemma EmptyWithout(ns: Nodes, d: nat, n: string, i: nat)
    requires Child(ns, d, n) == Some(i) && IsDir(ns, i) && ns[i].children == map[] && d != i
    ensures Without(ns, Detach(ns - {i}, d, n), d, n, i) && IsDir(Detach(ns - {i}, d, n), d)
    ensures forall m :: Child(ns, i, m).None?
  {
  }

  lemma LinksOnly(ns: Nodes, d: nat, nlink: nat)
    requires IsDir(ns, d)
    ensures var ms := SetLinks(ns, d, nlink);
      && ms.Keys == ns.Keys && (forall e, m :: Child(ms, e, m) == Child(ns, e, m))
      && forall j :: j in ns ==> ms[j].Dir? == ns[j].Dir? && (!ns[j].Dir? ==> ms[j] == ns[j])
  {
  }

  // ---- When removing it breaks the tree -----------------------------------------------------------------

  lemma BaredEntries(ns: Nodes, i: nat, k: nat)
    requires Child(ns, i, KEEP) == Some(k) && i != k
    ensures var ms := Bared(ns, i);
      && (forall e, m :: Child(ms, e, m) == if e == k || (e == i && m == KEEP) then None else Child(ns, e, m))
      && ms.Keys == ns.Keys - {k} && forall j :: j in ms && j != i ==> ms[j] == ns[j]
  {
  }

  lemma MarkedEntries(ns: Nodes, i: nat, a: nat)
    requires IsDir(ns, i) && a !in ns
    ensures var ms := Attach(ns[a := Regular([], 1)], i, KEEP, a);
      && (forall e, m :: Child(ms, e, m) == if e == i && m == KEEP then Some(a) else Child(ns, e, m))
      && ms.Keys == ns.Keys + {a} && forall j :: j in ns && j != i ==> ms[j] == ns[j]
  {
  }

  lemma GoneEntries(ns: Nodes, d: nat, n: string, i: nat, nlink: nat)
    requires IsDir(ns, d) && d != i && i in ns
    ensures var ms := SetLinks(Detach(ns - {i}, d, n), d, nlink);
      && (forall e, m :: Child(ms, e, m) == if e == i || (e == d && m == n) then None else Child(ns, e, m))
      && ms.Keys == ns.Keys - {i} && ms[d].Dir? && forall j :: j in ms && j != d ==> ms[j] == ns[j]
  {
  }

  // What bears the marker's name is gone, and the other entries are as they were, but for
  // those of a removed directory and the one of a new marker, `a`.
  ghost predicate Left(ns: Nodes, ms: Nodes, d: nat, i: nat, k: nat, a: nat) {
    && k !in ms
    && (forall e, m :: Child(ms, e, m).Some? ==>
          Child(ms, e, m) == Some(a) || (e != k && Child(ms, e, m) == Child(ns, e, m)))
    && (forall e, m :: Child(ns, e, m) == Some(k) && e != k && !(e == i && m == KEEP) ==> Child(ms, e, m) == Some(k))
    && (forall j :: j in ns && j != i && j != k ==>
          j in ms && ms[j].Dir? == ns[j].Dir? && (j != d ==> ms[j].nlink == ns[j].nlink))
  }

  lemma LeftMarked(ns: Nodes, d: nat, i: nat, k: nat, a: nat)
    requires Child(ns, i, KEEP) == Some(k) && i != k && k in ns && a !in ns
    ensures Left(ns, Attach(Bared(ns, i)[a := Regular([], 1)], i, KEEP, a), d, i, k, a)
  {
    assert IsDir(Bared(ns, i), i) && a !in Bared(ns, i);
    hide Bared, Attach, Child, IsDir;
    BaredEntries(ns, i, k);
    MarkedEntries(Bared(ns, i), i, a);
  }

  lemma LeftGone(ns: Nodes, d: nat, n: string, i: nat, k: nat, a: nat, nlink: nat)
    requires Child(ns, i, KEEP) == Some(k) && i != k && k in ns && d != i && d != k && Child(ns, d, n) == Some(i)
    requires forall m :: Child(Bared(ns, i), i, m).None?
    ensures Left(ns, SetLinks(Detach(Bared(ns, i) - {i}, d, n), d, nlink), d, i, k, a)
  {
    assert IsDir(Bared(ns, i), d) && i in Bared(ns, i) && ns[d].Dir?;
    hide Bared, Attach, Detach, SetLinks, Child, IsDir;
    BaredEntries(ns, i, k);
    GoneEntries(Bared(ns, i), d, n, i, nlink);
  }

  // The two ways `rmdir` goes on without the marker.
  lemma RmdirIs(s: State, d: nat, n: string, i: nat)
    requires Child(s.nodes, d, n) == Some(i) && IsDir(s.nodes, i) && IsDir(Bared(s.nodes, i), i) && d != i
    requires Child(s.nodes, i, KEEP).Some? && Child(s.nodes, i, KEEP) != Some(d) && Child(s.nodes, i, KEEP) != Some(i)
    ensures IsDir(Detach(Bared(s.nodes, i) - {i}, d, n), d)
    ensures var bare := Bared(s.nodes, i); var gone := Detach(bare - {i}, d, n);
      Rmdir(s, d, n).0.nodes ==
        if bare[i].children != map[] then Attach(bare[s.alloc := Regular([], 1)], i, KEEP, s.alloc)
        else SetLinks(gone, d, Dec(gone[d].nlink))
  {
  }

  lemma RmdirEntries(s: State, d: nat, n: string, i: nat, k: nat)
    requires Sound(s) && Child(s.nodes, d, n) == Some(i) && IsDir(s.nodes, i) && Child(s.nodes, i, KEEP) == Some(k)
    requires k in s.nodes && k != i && d != k
    ensures Left(s.nodes, Rmdir(s, d, n).0.nodes, d, i, k, s.alloc)
  {
    NotItsOwnChild(s, d, n, i);
    assert s.alloc !in s.nodes;
    var ns, bare := s.nodes, Bared(s.nodes, i);
    assert IsDir(bare, i);
    RmdirIs(s, d, n, i);
    hide Sound, Left, Rmdir, Attach, SetLinks;
    if bare[i].children != map[] {
      LeftMarked(ns, d, i, k, s.alloc);
    } else {
      assert forall m :: Child(bare, i, m).None?;
      LeftGone(ns, d, n, i, k, s.alloc, Dec(Detach(bare - {i}, d, n)[d].nlink));
    }
  }

  lemma Renamed(s: State, i: nat, k: nat) returns (e: nat, m: string)
    requires Sound(s) && Child(s.nodes, i, KEEP) == Some(k) && k in s.nodes && !s.nodes[k].Dir? && s.nodes[k].nlink != 1
    ensures Child(s.nodes, e, m) == Some(k) && !(e == i && m == KEEP)
  {
    var links := Links(s.nodes, k);
    InLinks(s.nodes, k, i, KEEP);
    NonEmptyCount(s.nodes, k, i, KEEP);
    assert |links| == s.nodes[k].nlink >= 2;
    assert links == {(i, KEEP)} + (links - {(i, KEEP)});
    var l :| l in links - {(i, KEEP)};
    e, m := l.0, l.1;
    InLinks(s.nodes, k, e, m);
  }

  // Another name of the marker dangles.
  lemma LinkedMarkerDangles(s: State, d: nat, n: string, i: nat, k: nat)
    requires Sound(s) && Child(s.nodes, d, n) == Some(i) && IsDir(s.nodes, i) && Child(s.nodes, i, KEEP) == Some(k)
    requires k in s.nodes && !s.nodes[k].Dir? && s.nodes[k].nlink != 1
    ensures !Good(Rmdir(s, d, n).0.nodes)
  {
    var e, m := Renamed(s, i, k);
    RmdirEntries(s, d, n, i, k);
    hide Rmdir, Rooted, Links, Reached;
    assert Child(Rmdir(s, d, n).0.nodes, e, m) == Some(k);
  }

  // What a directory of that name held is lost with it.
  lemma KeptDirLost(s: State, d: nat, n: string, i: nat, k: nat, x: string)
    requires Sound(s) && Child(s.nodes, d, n) == Some(i) && IsDir(s.nodes, i) && Child(s.nodes, i, KEEP) == Some(k)
    requires IsDir(s.nodes, k) && Child(s.nodes, k, x).Some?
    ensures !Good(Rmdir(s, d, n).0.nodes)
  {
    var ns, ms, c := s.nodes, Rmdir(s, d, n).0.nodes, Child(s.nodes, k, x).value;
    NotItsOwnChild(s, i, KEEP, k);
    NotItsGrandchild(s, d, n, i, KEEP, k);
    RmdirEntries(s, d, n, i, k);
    LostChild(s, d, n, i, k, x);
    hide Rmdir, Reached, Links;
    if IsDir(ns, c) {
      forall e: nat, m ensures Child(ms, e, m) != Some(c) {
        assert Child(ms, e, m) == Some(c) ==> Child(ns, e, m) == Some(c) && e != k;
      }
      EntrylessUnreached(s, ms, c);
    } else {
      LinkLost(ns, ms, k, x, c, s.alloc);
    }
  }

  lemma LostChild(s: State, d: nat, n: string, i: nat, k: nat, x: string)
    requires Sound(s) && Child(s.nodes, d, n) == Some(i) && IsDir(s.nodes, i) && Child(s.nodes, i, KEEP) == Some(k)
    requires IsDir(s.nodes, k) && Child(s.nodes, k, x).Some? && d != k
    ensures var c := Child(s.nodes, k, x).value;
      c in s.nodes && c < s.alloc && c != ROOT && c != k && c != i
        && (!s.nodes[c].Dir? ==> s.nodes[c].nlink == |Links(s.nodes, c)|)
    ensures var c := Child(s.nodes, k, x).value; s.nodes[c].Dir? || c != d
  {
    if Child(s.nodes, k, x) == Some(k) { NotItsOwnChild(s, k, x, k); }
    hide Reached, Links;
  }

  lemma LinkLost(ns: Nodes, ms: Nodes, k: nat, x: string, c: nat, a: nat)
    requires Child(ns, k, x) == Some(c) && c != a
    requires forall e, m :: Child(ms, e, m).Some? ==>
      Child(ms, e, m) == Some(a) || (e != k && Child(ms, e, m) == Child(ns, e, m))
    ensures |Links(ms, c)| < |Links(ns, c)|
  {
    var was, now := Links(ns, c), Links(ms, c);
    InLinks(ns, c, k, x);
    forall l | l in now ensures l in was - {(k, x)} {
      InLinks(ms, c, l.0, l.1);
      InLinks(ns, c, l.0, l.1);
    }
    assert was - {(k, x)} == now + (was - {(k, x)} - now);
    assert |was - {(k, x)}| < |was|;
  }

  // Removing a directory keeps a sound tree good if and only if what bears the marker's
  // name in it, if anything, is a file with one link or a directory that holds nothing.
  lemma RmdirGoodIff(s: State, d: nat, n: string)
    requires Sound(s)
    ensures Good(Rmdir(s, d, n).0.nodes) <==>
      (Find(s.nodes, d, n).Ok? && IsDir(s.nodes, Find(s.nodes, d, n).ino)
        && Child(s.nodes, Find(s.nodes, d, n).ino, KEEP).Some? ==>
        && Child(s.nodes, Find(s.nodes, d, n).ino, KEEP).value in s.nodes
        && GoesAlone(s.nodes, Child(s.nodes, Find(s.nodes, d, n).ino, KEEP).value))
  {
    if Find(s.nodes, d, n).Ok? && IsDir(s.nodes, Find(s.nodes, d, n).ino) {
      var i := Find(s.nodes, d, n).ino;
      if Child(s.nodes, i, KEEP).None? {
        RmdirGood(s, d, n, i);
      } else {
        var k := Child(s.nodes, i, KEEP).value;
        assert k in s.nodes;
        if GoesAlone(s.nodes, k) {
          RmdirGood(s, d, n, i);
        } else if !s.nodes[k].Dir? {
          LinkedMarkerDangles(s, d, n, i, k);
        } else {
          var x :| x in s.nodes[k].children;
          KeptDirLost(s, d, n, i, k, x);
        }
      }
    }
  }

  // Such a run: a directory is made, its marker linked under another name, and the directory
  // removed. The other name then names nothing.
  lemma LinkedMarkerRun()
    ensures var s := Run([DoMkdir(ROOT, "a"), DoLink(3, ROOT, "b"), DoRmdir(ROOT, "a")]);
      Child(s.nodes, ROOT, "b") == Some(3) && 3 !in s.nodes && !Good(s.nodes)
  {
    var ops := [DoMkdir(ROOT, "a"), DoLink(3, ROOT, "b"), DoRmdir(ROOT, "a")];
    assert ops[..2] == [ops[0], ops[1]] && ops[..2][..1] == [ops[0]] && [ops[0]][..0] == [];
    var made := Step(NEW_STATE, ops[0]);
    assert Run([ops[0]]) == made && Run(ops[..2]) == Step(made, ops[1]);
    assert made.nodes[ROOT].children == map["a" := 2] && made.nodes[2].children == map[KEEP := 3];
    var linked := Step(made, ops[1]);
    assert linked.nodes[ROOT].children == map["a" := 2, "b" := 3] && linked.nodes[2] == made.nodes[2];
  }
}
