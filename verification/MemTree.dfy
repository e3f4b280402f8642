// The in-memory file system (vfs/mem.rs): inodes that hold their own directory entries,
// link counts, and removal. The functions here are the specification of `MemFs`.
module MemTree {
  import opened Basics

  datatype Node =
    | Dir(children: map<string, nat>, nlink: nat)
    | Regular(data: Bytes, nlink: nat)
    | Symlink(target: string, nlink: nat)

  type Nodes = map<nat, Node>

  datatype State = State(nodes: Nodes, alloc: nat)

  datatype Error = NotFound | NotDirectory | IsDirectory | AlreadyExists | NotEmpty | NameTooLong

  datatype Outcome = Ok(ino: nat) | Err(error: Error)

  const ROOT := 1
  const KEEP := ".unisonkeep"
  const MAX_NAME_LEN := 255

  const NEW_STATE := State(map[ROOT := Dir(map[], 2)], 2)

  // ---- Primitive changes ------------------------------------------------------------------

  predicate IsDir(ns: Nodes, d: nat) { d in ns && ns[d].Dir? }

  function Child(ns: Nodes, d: nat, n: string): Option<nat> {
    if IsDir(ns, d) && n in ns[d].children then Some(ns[d].children[n]) else None
  }

  function Attach(ns: Nodes, d: nat, n: string, i: nat): Nodes {
    if IsDir(ns, d) then ns[d := Dir(ns[d].children[n := i], ns[d].nlink)] else ns
  }

  function Detach(ns: Nodes, d: nat, n: string): Nodes {
    if IsDir(ns, d) then ns[d := Dir(ns[d].children - {n}, ns[d].nlink)] else ns
  }

  function WithLinks(node: Node, nlink: nat): Node {
    match node
    case Dir(children, _) => Dir(children, nlink)
    case Regular(data, _) => Regular(data, nlink)
    case Symlink(target, _) => Symlink(target, nlink)
  }

  function SetLinks(ns: Nodes, i: nat, nlink: nat): Nodes {
    if i in ns then ns[i := WithLinks(ns[i], nlink)] else ns
  }

  function Dec(n: nat): nat { if n == 0 then 0 else n - 1 }

  // One link fewer; the last one takes the inode with it.
  function Release(ns: Nodes, i: nat): Nodes {
    if i !in ns then ns
    else if Dec(ns[i].nlink) == 0 then ns - {i}
    else SetLinks(ns, i, Dec(ns[i].nlink))
  }

  // ---- Operations ---------------------------------------------------------------------------

  // A directory that has no entry of this name, or why not.
  function Vacant(ns: Nodes, d: nat, n: string): Option<Error> {
    if d !in ns then Some(NotFound)
    else if !ns[d].Dir? then Some(NotDirectory)
    else if n in ns[d].children then Some(AlreadyExists)
    else None
  }

  // The inode a directory entry names, or why there is none.
  function Find(ns: Nodes, d: nat, n: string): Outcome {
    if d !in ns then Err(NotFound)
    else if !ns[d].Dir? then Err(NotDirectory)
    else if n !in ns[d].children then Err(NotFound)
    else Ok(ns[d].children[n])
  }

  function Mkdir(s: State, d: nat, n: string): (State, Outcome) {
    if |n| > MAX_NAME_LEN then (s, Err(NameTooLong))
    else match Vacant(s.nodes, d, n)
      case Some(e) => (s, Err(e))
      case None =>
        var ino, keep := s.alloc, s.alloc + 1;
        var made := s.nodes[keep := Regular([], 1)][ino := Dir(map[KEEP := keep], 2)];
        var entered := Attach(made, d, n, ino);
        (State(SetLinks(entered, d, s.nodes[d].nlink + 1), s.alloc + 2), Ok(ino))
  }

  function CreateFile(s: State, d: nat, n: string): (State, Outcome) {
    if |n| > MAX_NAME_LEN then (s, Err(NameTooLong))
    else match Vacant(s.nodes, d, n)
      case Some(AlreadyExists) => (s, Ok(s.nodes[d].children[n]))
      case Some(e) => (s, Err(e))
      case None => (State(Attach(s.nodes[s.alloc := Regular([], 1)], d, n, s.alloc), s.alloc + 1), Ok(s.alloc))
  }

  function MakeSymlink(s: State, d: nat, n: string, target: string): (State, Outcome) {
    match Vacant(s.nodes, d, n)
    case Some(e) => (s, Err(e))
    case None => (State(Attach(s.nodes[s.alloc := Symlink(target, 1)], d, n, s.alloc), s.alloc + 1), Ok(s.alloc))
  }

  function Link(s: State, i: nat, d: nat, n: string): (State, Outcome) {
    if i !in s.nodes then (s, Err(NotFound))
    else if s.nodes[i].Dir? then (s, Err(IsDirectory))
    else match Vacant(s.nodes, d, n)
      case Some(e) => (s, Err(e))
      case None => (s.(nodes := Attach(SetLinks(s.nodes, i, s.nodes[i].nlink + 1), d, n, i)), Ok(i))
  }

  function Unlink(s: State, d: nat, n: string): (State, Outcome) {
    match Find(s.nodes, d, n)
    case Err(e) => (s, Err(e))
    case Ok(i) =>
      if i !in s.nodes then (s, Err(NotFound))
      else if s.nodes[i].Dir? then (s, Err(IsDirectory))
      else (s.(nodes := Release(Detach(s.nodes, d, n), i)), Ok(i))
  }

  // The hidden marker does not count as content. A directory that is not empty otherwise
  // gets a new marker for the one that was taken out to look.
  function Rmdir(s: State, d: nat, n: string): (State, Outcome) {
    match Find(s.nodes, d, n)
    case Err(e) => (s, Err(e))
    case Ok(i) =>
      if i !in s.nodes then (s, Err(NotFound))
      else if !s.nodes[i].Dir? then (s, Err(NotDirectory))
      else
        var keep := Child(s.nodes, i, KEEP);
        var bare := match keep case None => s.nodes case Some(k) => Detach(s.nodes - {k}, i, KEEP);
        if IsDir(bare, i) && bare[i].children != map[] then
          if keep.None? then (s, Err(NotEmpty))
          else (State(Attach(bare[s.alloc := Regular([], 1)], i, KEEP, s.alloc), s.alloc + 1), Err(NotEmpty))
        else
          var gone := Detach(bare - {i}, d, n);
          (s.(nodes := if d in gone then SetLinks(gone, d, Dec(gone[d].nlink)) else gone), Ok(i))
  }

  // The entry is taken out first; what an error finds later does not put it back.
  function Rename(s: State, od: nat, on: string, nd: nat, nn: string): (State, Outcome) {
    match Find(s.nodes, od, on)
    case Err(e) => (s, Err(e))
    case Ok(i) =>
      var taken := Detach(s.nodes, od, on);
      var freed := match Child(taken, nd, nn) case None => taken case Some(k) => Release(taken, k);
      if nd !in freed then (s.(nodes := freed), Err(NotFound))
      else if !freed[nd].Dir? then (s.(nodes := freed), Err(NotDirectory))
      else (s.(nodes := Attach(freed, nd, nn, i)), Ok(i))
  }

  // ---- What must hold -------------------------------------------------------------------------

  // The entries that name an inode.
  function Links(ns: Nodes, i: nat): set<(nat, string)> {
    set d, n | d in ns && ns[d].Dir? && n in ns[d].children && ns[d].children[n] == i :: (d, n)
  }

  function Walk(ns: Nodes, from: nat, names: seq<string>): Option<nat>
    decreases |names|
  {
    if names == [] then Some(from)
    else match Child(ns, from, names[0])
      case None => None
      case Some(i) => Walk(ns, i, names[1..])
  }

  ghost predicate Reached(ns: Nodes, i: nat) {
    exists names :: Walk(ns, ROOT, names) == Some(i)
  }

  // Every entry names a live inode, every file's link count is the number of entries that
  // name it, and every live inode is reachable from the root.
  ghost predicate Good(ns: Nodes) {
    && (forall d, n :: Child(ns, d, n).Some? ==> Child(ns, d, n).value in ns)
    && (forall i :: i in ns && !ns[i].Dir? ==> ns[i].nlink == |Links(ns, i)|)
    && (forall i :: i in ns ==> Reached(ns, i))
  }

  // A directory has one entry, and a marker none but the one that makes it a marker.
  ghost predicate SingleEntries(ns: Nodes) {
    && (forall d, n, e, m ::
          Child(ns, d, n).Some? && Child(ns, d, n) == Child(ns, e, m) && IsDir(ns, Child(ns, d, n).value) ==>
            d == e && n == m)
    && (forall d, e, m :: Child(ns, d, KEEP).Some? && Child(ns, d, KEEP) == Child(ns, e, m) ==>
      d == e && m == KEEP && !IsDir(ns, Child(ns, d, KEEP).value))
  }

  ghost predicate Treelike(s: State) {
    var ns := s.nodes;
    && IsDir(ns, ROOT) && ROOT < s.alloc
    && (forall i :: i in ns ==> i < s.alloc)
    && (forall d, n :: Child(ns, d, n).Some? ==> Child(ns, d, n).value in ns && Child(ns, d, n).value != ROOT)
    && (forall i :: IsDir(ns, i) ==> Reached(ns, i))
    && SingleEntries(ns)
  }

  // Files have entries, as many as their link count says.
  ghost predicate Counted(ns: Nodes) {
    forall i :: i in ns && !ns[i].Dir? ==> ns[i].nlink == |Links(ns, i)| && Links(ns, i) != {}
  }

  // The inductive form of `Good`.
  ghost predicate Shaped(s: State) { Treelike(s) && Counted(s.nodes) }

  lemma InLinks(ns: Nodes, i: nat, d: nat, n: string)
    ensures (d, n) in Links(ns, i) <==> Child(ns, d, n) == Some(i)
  {
  }

  lemma {:induction false} WalkSnoc(ns: Nodes, from: nat, names: seq<string>, n: string)
    ensures Walk(ns, from, names + [n]) == match Walk(ns, from, names) case None => None case Some(d) => Child(ns, d, n)
    decreases |names|
  {
    if names == [] {
      assert [] + [n] == [n] && [n][1..] == [];
    } else {
      assert (names + [n])[0] == names[0] && (names + [n])[1..] == names[1..] + [n];
      if Child(ns, from, names[0]).Some? {
        WalkSnoc(ns, Child(ns, from, names[0]).value, names[1..], n);
      }
    }
  }

  lemma ReachedChild(ns: Nodes, d: nat, n: string)
    requires Reached(ns, d) && Child(ns, d, n).Some?
    ensures Reached(ns, Child(ns, d, n).value)
  {
    var names :| Walk(ns, ROOT, names) == Some(d);
    WalkSnoc(ns, ROOT, names, n);
  }

  lemma ShapedIsGood(s: State)
    requires Shaped(s)
    ensures Good(s.nodes)
  {
    var ns := s.nodes;
    hide Walk, Reached;
    forall i | i in ns ensures Reached(ns, i) {
      if !ns[i].Dir? {
        var k :| k in Links(ns, i);
        InLinks(ns, i, k.0, k.1);
        ReachedChild(ns, k.0, k.1);
      }
    }
  }

  lemma NewShaped()
    ensures Shaped(NEW_STATE)
  {
    assert Walk(NEW_STATE.nodes, ROOT, []) == Some(ROOT);
  }

  // ---- Walks when entries come and go ------------------------------------------------------------

  lemma {:induction false} WalkMore(ns: Nodes, ms: Nodes, from: nat, names: seq<string>)
    requires forall d, n :: Child(ns, d, n).Some? ==> Child(ms, d, n) == Child(ns, d, n)
    requires Walk(ns, from, names).Some?
    ensures Walk(ms, from, names) == Walk(ns, from, names)
    decreases |names|
  {
    if names != [] {
      WalkMore(ns, ms, Child(ns, from, names[0]).value, names[1..]);
    }
  }

  lemma ReachedMore(ns: Nodes, ms: Nodes, i: nat)
    requires forall d, n :: Child(ns, d, n).Some? ==> Child(ms, d, n) == Child(ns, d, n)
    requires Reached(ns, i)
    ensures Reached(ms, i)
  {
    var names :| Walk(ns, ROOT, names) == Some(i);
    WalkMore(ns, ms, ROOT, names);
  }

  // With one entry gone, a walk still gets where it did, or it gets there from what the
  // entry named.
  lemma {:induction false} Detour(ns: Nodes, ms: Nodes, from: nat, names: seq<string>, d: nat, n: string)
    returns (k: nat)
    requires Child(ns, d, n).Some? && Walk(ns, from, names).Some?
    requires forall e: nat, m :: Child(ns, e, m).Some? && (e, m) != (d, n) ==> Child(ms, e, m) == Child(ns, e, m)
    ensures k <= |names|
    ensures Walk(ms, from, names) == Walk(ns, from, names)
      || Walk(ms, Child(ns, d, n).value, names[k..]) == Walk(ns, from, names)
    decreases |names|
  {
    k := 0;
    if names != [] {
      var next := Child(ns, from, names[0]).value;
      k := Detour(ns, ms, next, names[1..], d, n);
      if Walk(ms, next, names[1..]) == Walk(ns, next, names[1..]) {
        k := 1;
      } else {
        assert names[1..][k..] == names[1 + k..];
        k := 1 + k;
      }
    }
  }

  // ---- New inodes --------------------------------------------------------------------------------

  lemma LinksSame(ns: Nodes, ms: Nodes, i: nat)
    requires forall d, n :: Child(ms, d, n) == Some(i) <==> Child(ns, d, n) == Some(i)
    ensures Links(ms, i) == Links(ns, i)
  {
    forall k | k in Links(ns, i) ensures k in Links(ms, i) { InLinks(ns, i, k.0, k.1); InLinks(ms, i, k.0, k.1); }
    forall k | k in Links(ms, i) ensures k in Links(ns, i) { InLinks(ns, i, k.0, k.1); InLinks(ms, i, k.0, k.1); }
  }

  lemma LinksOne(ns: Nodes, i: nat, d: nat, n: string)
    requires forall e, m :: Child(ns, e, m) == Some(i) <==> e == d && m == n
    ensures Links(ns, i) == {(d, n)}
  {
    InLinks(ns, i, d, n);
    forall k | k in Links(ns, i) ensures k == (d, n) { InLinks(ns, i, k.0, k.1); }
  }

  // A fresh inode under a vacant name.
  function Added(s: State, d: nat, n: string, node: Node): State {
    State(Attach(s.nodes[s.alloc := node], d, n, s.alloc), s.alloc + 1)
  }

  predicate Childless(node: Node) { node.Dir? ==> node.children == map[] }

  lemma AddedChildren(s: State, d: nat, n: string, node: Node)
    requires Treelike(s) && Vacant(s.nodes, d, n).None? && Childless(node)
    ensures var ms := Added(s, d, n, node).nodes;
      forall e, m :: Child(ms, e, m) == if e == d && m == n then Some(s.alloc) else Child(s.nodes, e, m)
  {
    hide Reached, Links;
  }

  lemma AddedTree(s: State, d: nat, n: string, node: Node)
    requires Treelike(s) && Vacant(s.nodes, d, n).None? && Childless(node) && (n == KEEP ==> !node.Dir?)
    ensures Treelike(Added(s, d, n, node))
  {
    AddedChildren(s, d, n, node);
    var ns, ms := s.nodes, Added(s, d, n, node).nodes;
    assert ms.Keys == ns.Keys + {s.alloc};
    forall i | IsDir(ms, i) ensures Reached(ms, i) {
      ReachedMore(ns, ms, d);
      if i == s.alloc { ReachedChild(ms, d, n); } else { ReachedMore(ns, ms, i); }
    }
    hide Reached;
  }

  lemma AddedShaped(s: State, d: nat, n: string, node: Node)
    requires Shaped(s) && Vacant(s.nodes, d, n).None? && Childless(node) && (!node.Dir? ==> node.nlink == 1)
    requires n == KEEP ==> !node.Dir?
    ensures Shaped(Added(s, d, n, node))
  {
    hide Reached;
    AddedTree(s, d, n, node);
    AddedChildren(s, d, n, node);
    var ns, ms := s.nodes, Added(s, d, n, node).nodes;
    assert ms.Keys == ns.Keys + {s.alloc};
    LinksOne(ms, s.alloc, d, n);
    forall i | i in ns ensures Links(ms, i) == Links(ns, i) {
      LinksSame(ns, ms, i);
    }
    hide Links, Treelike;
  }

  // The link count of a directory is nobody's business here.
  lemma DirLinksShaped(s: State, d: nat, nlink: nat)
    requires Shaped(s) && IsDir(s.nodes, d)
    ensures Shaped(s.(nodes := SetLinks(s.nodes, d, nlink)))
  {
    var ns, ms := s.nodes, SetLinks(s.nodes, d, nlink);
    assert forall e, m :: Child(ms, e, m) == Child(ns, e, m);
    assert Treelike(s.(nodes := ms)) by { SameTree(s, s.(nodes := ms)); }
    hide Reached, Treelike;
    forall i ensures Links(ms, i) == Links(ns, i) {
      LinksSame(ns, ms, i);
    }
    hide Links;
  }

  lemma SameTree(s: State, t: State)
    requires Treelike(s) && t.alloc == s.alloc && t.nodes.Keys == s.nodes.Keys
    requires forall e, m :: Child(t.nodes, e, m) == Child(s.nodes, e, m)
    requires forall i :: IsDir(t.nodes, i) <==> IsDir(s.nodes, i)
    ensures Treelike(t)
  {
    forall i | IsDir(t.nodes, i) ensures Reached(t.nodes, i) {
      ReachedMore(s.nodes, t.nodes, i);
    }
    hide Reached;
  }

  // ---- Entries of files ------------------------------------------------------------------------

  lemma LinksLess(ns: Nodes, ms: Nodes, i: nat, d: nat, n: string)
    requires Child(ns, d, n) == Some(i) && Child(ms, d, n) != Some(i)
    requires forall e, m :: !(e == d && m == n) ==> (Child(ms, e, m) == Some(i) <==> Child(ns, e, m) == Some(i))
    ensures Links(ns, i) == Links(ms, i) + {(d, n)} && (d, n) !in Links(ms, i)
    ensures |Links(ns, i)| == |Links(ms, i)| + 1
  {
    InLinks(ns, i, d, n);
    InLinks(ms, i, d, n);
    forall k | k in Links(ns, i) ensures k in Links(ms, i) + {(d, n)}
      { InLinks(ns, i, k.0, k.1); InLinks(ms, i, k.0, k.1); }
    forall k | k in Links(ms, i) + {(d, n)} ensures k in Links(ns, i)
      { InLinks(ns, i, k.0, k.1); InLinks(ms, i, k.0, k.1); }
  }

  function Unlinked(ns: Nodes, d: nat, n: string, i: nat): Nodes { Release(Detach(ns, d, n), i) }

  // One entry is gone, and what it named with it, or not.
  ghost predicate OneLess(ns: Nodes, ms: Nodes, d: nat, n: string, i: nat) {
    && (forall e, m :: Child(ms, e, m) == if e == d && m == n then None else Child(ns, e, m))
    && (forall j :: j in ms ==> j in ns && ms[j].Dir? == ns[j].Dir?)
    && (forall j :: j in ns && j != i ==> j in ms)
  }

  // What is not below an entry is found without it.
  lemma StillReached(ns: Nodes, ms: Nodes, d: nat, n: string, j: nat)
    requires Child(ns, d, n).Some? && Child(ns, d, n) != Some(j) && Reached(ns, j)
    requires forall e: nat, m :: Child(ns, e, m).Some? && (e, m) != (d, n) ==> Child(ms, e, m) == Child(ns, e, m)
    requires forall m :: Child(ms, Child(ns, d, n).value, m).None?
    ensures Reached(ms, j)
  {
    var names :| Walk(ns, ROOT, names) == Some(j);
    var k := Detour(ns, ms, ROOT, names, d, n);
    BarrenWalk(ms, Child(ns, d, n).value, names[k..]);
  }

  lemma BarrenWalk(ns: Nodes, i: nat, names: seq<string>)
    requires forall m :: Child(ns, i, m).None?
    ensures names != [] ==> Walk(ns, i, names).None?
  {
  }

  lemma OneLessTree(s: State, ms: Nodes, d: nat, n: string, i: nat)
    requires Treelike(s) && Child(s.nodes, d, n) == Some(i) && OneLess(s.nodes, ms, d, n, i)
    requires forall m :: Child(s.nodes, i, m).None?
    requires IsDir(s.nodes, i) ==> i !in ms
    requires i !in ms ==> forall e, m :: Child(s.nodes, e, m) == Some(i) ==> e == d && m == n
    ensures Treelike(s.(nodes := ms))
  {
    var ns := s.nodes;
    forall j | IsDir(ms, j) ensures Reached(ms, j) {
      StillReached(ns, ms, d, n, j);
    }
    hide Reached;
  }

  lemma UnlinkedIsOneLess(s: State, d: nat, n: string, i: nat)
    requires Treelike(s) && Child(s.nodes, d, n) == Some(i) && !IsDir(s.nodes, i)
    ensures OneLess(s.nodes, Unlinked(s.nodes, d, n, i), d, n, i)
  {
    hide Reached;
  }

  lemma UnlinkedCounts(ns: Nodes, d: nat, n: string, i: nat)
    requires i in ns && !ns[i].Dir?
    ensures var ms := Unlinked(ns, d, n, i);
      && (i in ms <==> ns[i].nlink > 1) && (i in ms ==> !ms[i].Dir? && ms[i].nlink == ns[i].nlink - 1)
      && forall j :: j in ns && j != i ==> j in ms && ms[j].nlink == ns[j].nlink
  {
  }

  lemma OneElement<T>(s: set<T>, a: T, b: T)
    requires a in s && b in s && |s| == 1
    ensures a == b
  {
    assert s == {a} + (s - {a});
    assert |s - {a}| == 0;
  }

  lemma SingleLink(ns: Nodes, i: nat, d: nat, n: string)
    requires Child(ns, d, n) == Some(i) && |Links(ns, i)| == 1
    ensures forall e, m :: Child(ns, e, m) == Some(i) ==> e == d && m == n
  {
    InLinks(ns, i, d, n);
    forall e, m | Child(ns, e, m) == Some(i) ensures e == d && m == n {
      InLinks(ns, i, e, m);
      OneElement(Links(ns, i), (d, n), (e, m));
    }
  }

  lemma UnlinkedShaped(s: State, d: nat, n: string, i: nat)
    requires Shaped(s) && Child(s.nodes, d, n) == Some(i) && !IsDir(s.nodes, i)
    ensures Shaped(s.(nodes := Unlinked(s.nodes, d, n, i)))
  {
    hide Unlinked, Treelike;
    var ns, ms := s.nodes, Unlinked(s.nodes, d, n, i);
    UnlinkedIsOneLess(s, d, n, i);
    assert i in ns by { EntryIsLive(s, d, n); }
    UnlinkedCounts(ns, d, n, i);
    if i !in ms {
      NonEmptyCount(ns, i, d, n);
      SingleLink(ns, i, d, n);
    }
    OneLessTree(s, ms, d, n, i);
    LinksLess(ns, ms, i, d, n);
    forall j | j != i ensures Links(ms, j) == Links(ns, j) {
      LinksSame(ns, ms, j);
    }
    assert Links(ms, i) == {} <==> |Links(ms, i)| == 0;
    hide Links, OneLess;
  }

  lemma EntryIsLive(s: State, d: nat, n: string)
    requires Treelike(s) && Child(s.nodes, d, n).Some?
    ensures Child(s.nodes, d, n).value in s.nodes && Child(s.nodes, d, n).value != ROOT
  {
  }

  lemma NonEmptyCount(ns: Nodes, i: nat, d: nat, n: string)
    requires Child(ns, d, n) == Some(i)
    ensures |Links(ns, i)| >= 1
  {
    InLinks(ns, i, d, n);
  }

  // ---- Removing an empty directory ----------------------------------------------------------------

  lemma RemovedShaped(s: State, d: nat, n: string, i: nat)
    requires Shaped(s) && Child(s.nodes, d, n) == Some(i) && IsDir(s.nodes, i) && s.nodes[i].children == map[]
    ensures Shaped(s.(nodes := Detach(s.nodes - {i}, d, n)))
  {
    var ns, ms := s.nodes, Detach(s.nodes - {i}, d, n);
    assert d != i;
    assert OneLess(ns, ms, d, n, i) by { hide Reached; }
    OneLessTree(s, ms, d, n, i);
    hide Reached, Treelike;
    forall j | j != i ensures Links(ms, j) == Links(ns, j) {
      LinksSame(ns, ms, j);
    }
    hide Links;
  }

  // ---- More entries for a file -----------------------------------------------------------------------

  // Another name for a file.
  function Linked(ns: Nodes, i: nat, d: nat, n: string): Nodes
    requires i in ns
  {
    Attach(SetLinks(ns, i, ns[i].nlink + 1), d, n, i)
  }

  predicate IsMarker(ns: Nodes, i: nat) {
    exists k :: k in Links(ns, i) && k.1 == KEEP
  }

  lemma NotMarker(ns: Nodes, i: nat)
    requires !IsMarker(ns, i)
    ensures forall e :: Child(ns, e, KEEP) != Some(i)
  {
    forall e: nat ensures Child(ns, e, KEEP) != Some(i) {
      InLinks(ns, i, e, KEEP);
      assert (e, KEEP).1 == KEEP;
    }
  }

  // What an entry more leaves of the rest.
  ghost predicate OneMore(ns: Nodes, ms: Nodes, d: nat, n: string, i: nat) {
    && (forall e, m :: Child(ms, e, m) == if e == d && m == n then Some(i) else Child(ns, e, m))
    && (forall j :: IsDir(ms, j) <==> IsDir(ns, j))
    && ms.Keys == ns.Keys
  }

  lemma OneMoreTree(s: State, ms: Nodes, d: nat, n: string, i: nat)
    requires Treelike(s) && i in s.nodes && !IsDir(s.nodes, i) && Child(s.nodes, d, n).None? && n != KEEP
      && OneMore(s.nodes, ms, d, n, i)
    requires forall e :: Child(s.nodes, e, KEEP) != Some(i)
    ensures Treelike(s.(nodes := ms))
  {
    forall j | IsDir(ms, j) ensures Reached(ms, j) {
      ReachedMore(s.nodes, ms, j);
    }
    hide Reached;
  }

  lemma LinkedIsOneMore(ns: Nodes, i: nat, d: nat, n: string)
    requires i in ns && !ns[i].Dir? && Vacant(ns, d, n).None?
    ensures OneMore(ns, Linked(ns, i, d, n), d, n, i)
    ensures forall j :: j in ns && !ns[j].Dir? ==>
      !Linked(ns, i, d, n)[j].Dir? && Linked(ns, i, d, n)[j].nlink == ns[j].nlink + (if j == i then 1 else 0)
    ensures forall j :: j in ns && ns[j].Dir? ==> Linked(ns, i, d, n)[j].Dir?
  {
  }

  lemma LinkedShaped(s: State, i: nat, d: nat, n: string)
    requires Shaped(s) && i in s.nodes && !s.nodes[i].Dir? && Vacant(s.nodes, d, n).None? && n != KEEP
      && !IsMarker(s.nodes, i)
    ensures Shaped(s.(nodes := Linked(s.nodes, i, d, n)))
  {
    hide Treelike, Linked, Links;
    var ns, ms := s.nodes, Linked(s.nodes, i, d, n);
    LinkedIsOneMore(ns, i, d, n);
    NotMarker(ns, i);
    OneMoreTree(s, ms, d, n, i);
    LinksLess(ms, ns, i, d, n);
    forall j | j != i ensures Links(ms, j) == Links(ns, j) {
      LinksSame(ns, ms, j);
    }
  }

  // ---- Moving an entry -----------------------------------------------------------------------------

  function Moved(ns: Nodes, od: nat, on: string, nd: nat, nn: string, i: nat): Nodes {
    Attach(Detach(ns, od, on), nd, nn, i)
  }

  // `d` lies outside the subtree of `i`.
  ghost predicate Outside(ns: Nodes, i: nat, d: nat) {
    forall names :: Walk(ns, i, names) != Some(d)
  }

  ghost predicate OneMoved(ns: Nodes, ms: Nodes, od: nat, on: string, nd: nat, nn: string, i: nat) {
    && (forall e, m :: Child(ms, e, m) == if e == nd && m == nn then Some(i) else if e == od
      && m == on then None else Child(ns, e, m))
    && (forall j :: IsDir(ms, j) <==> IsDir(ns, j))
    && ms.Keys == ns.Keys
    && (forall j :: j in ns && !ns[j].Dir? ==> ms[j] == ns[j])
  }

  lemma MovedIsOneMoved(ns: Nodes, od: nat, on: string, nd: nat, nn: string, i: nat)
    requires Child(ns, od, on) == Some(i) && IsDir(ns, nd)
    ensures OneMoved(ns, Moved(ns, od, on, nd, nn, i), od, on, nd, nn, i)
  {
  }

  // The new place is reachable without the moved entry.
  lemma NewPlaceReached(ns: Nodes, ms: Nodes, od: nat, on: string, nd: nat, nn: string, i: nat)
    requires Child(ns, od, on) == Some(i) && Reached(ns, nd) && nd != i && (IsDir(ns, i) ==> Outside(ns, i, nd))
    requires OneMoved(ns, ms, od, on, nd, nn, i) && (Child(ns, nd, nn).None? || (nd == od && nn == on))
    ensures Reached(ms, nd)
  {
    var mid := Detach(ns, od, on);
    var toNew :| Walk(ns, ROOT, toNew) == Some(nd);
    var k := Detour(ns, mid, ROOT, toNew, od, on);
    OutsideAll(ns, i, nd);
    if Walk(mid, ROOT, toNew) != Some(nd) {
      WalkMore(mid, ns, i, toNew[k..]);
    }
    WalkMore(mid, ms, ROOT, toNew);
  }

  // What was below the entry is below it in its new place.
  lemma MovedReached(ns: Nodes, ms: Nodes, od: nat, on: string, nd: nat, nn: string, i: nat, j: nat)
    requires Child(ns, od, on) == Some(i) && OneMoved(ns, ms, od, on, nd, nn, i) && Reached(ms, nd) && Reached(ns, j)
    requires Child(ns, nd, nn).None? || (nd == od && nn == on)
    ensures Reached(ms, j)
  {
    var names :| Walk(ns, ROOT, names) == Some(j);
    var h := Detour(ns, ms, ROOT, names, od, on);
    if Walk(ms, ROOT, names) != Some(j) {
      var toNew :| Walk(ms, ROOT, toNew) == Some(nd);
      WalkSnoc(ms, ROOT, toNew, nn);
      WalkConcat(ms, ROOT, toNew + [nn], names[h..]);
    }
  }

  lemma OutsideAll(ns: Nodes, i: nat, d: nat)
    requires d != i && (IsDir(ns, i) ==> Outside(ns, i, d))
    ensures Outside(ns, i, d)
  {
  }

  lemma {:induction false} WalkConcat(ns: Nodes, from: nat, a: seq<string>, b: seq<string>)
    ensures Walk(ns, from, a + b) == match Walk(ns, from, a) case None => None case Some(i) => Walk(ns, i, b)
    decreases |a|
  {
    if a == [] {
      assert a + b == b;
    } else {
      assert (a + b)[0] == a[0] && (a + b)[1..] == a[1..] + b;
      if Child(ns, from, a[0]).Some? {
        WalkConcat(ns, Child(ns, from, a[0]).value, a[1..], b);
      }
    }
  }

  lemma MovedSingle(ns: Nodes, ms: Nodes, od: nat, on: string, nd: nat, nn: string, i: nat)
    requires SingleEntries(ns) && Child(ns, od, on) == Some(i) && OneMoved(ns, ms, od, on, nd, nn, i) && nn != KEEP
    requires Child(ns, nd, nn).None? || (nd == od && nn == on)
    ensures SingleEntries(ms)
  {
    hide IsDir, Child;
  }

  lemma MovedTree(s: State, ms: Nodes, od: nat, on: string, nd: nat, nn: string, i: nat)
    requires Treelike(s) && Child(s.nodes, od, on) == Some(i) && IsDir(s.nodes, nd) && nn != KEEP
    requires (IsDir(s.nodes, i) ==> Outside(s.nodes, i, nd)) && OneMoved(s.nodes, ms, od, on, nd, nn, i)
    requires Child(s.nodes, nd, nn).None? || (nd == od && nn == on)
    ensures Treelike(s.(nodes := ms))
  {
    var ns := s.nodes;
    assert Walk(ns, i, []) == Some(i);
    MovedSingle(ns, ms, od, on, nd, nn, i);
    hide Reached, SingleEntries, Walk, Child;
    NewPlaceReached(ns, ms, od, on, nd, nn, i);
    forall j | IsDir(ms, j) ensures Reached(ms, j) {
      MovedReached(ns, ms, od, on, nd, nn, i, j);
    }
  }

  lemma MovedShaped(s: State, od: nat, on: string, nd: nat, nn: string, i: nat)
    requires Shaped(s) && Child(s.nodes, od, on) == Some(i) && IsDir(s.nodes, nd) && nn != KEEP
    requires IsDir(s.nodes, i) ==> Outside(s.nodes, i, nd)
    requires Child(s.nodes, nd, nn).None? || (nd == od && nn == on)
    ensures Shaped(s.(nodes := Moved(s.nodes, od, on, nd, nn, i)))
  {
    hide Treelike, Moved, Outside, Links;
    var ns, ms := s.nodes, Moved(s.nodes, od, on, nd, nn, i);
    MovedIsOneMoved(ns, od, on, nd, nn, i);
    MovedTree(s, ms, od, on, nd, nn, i);
    MovedLinks(ns, ms, od, on, nd, nn, i);
    forall j | j in ms && !ms[j].Dir? ensures ms[j].nlink == |Links(ms, j)| && Links(ms, j) != {} {
      assert !IsDir(ms, j) && ms[j] == ns[j];
      if j != i { LinksSame(ns, ms, j); }
    }
  }

  // One name for another: as many as before.
  lemma MovedLinks(ns: Nodes, ms: Nodes, od: nat, on: string, nd: nat, nn: string, i: nat)
    requires Child(ns, od, on) == Some(i) && OneMoved(ns, ms, od, on, nd, nn, i)
    requires Child(ns, nd, nn).None? || (nd == od && nn == on)
    ensures |Links(ms, i)| == |Links(ns, i)| && Links(ms, i) != {}
  {
    var mid := Detach(ns, od, on);
    LinksLess(ns, mid, i, od, on);
    LinksLess(ms, mid, i, nd, nn);
  }
}
