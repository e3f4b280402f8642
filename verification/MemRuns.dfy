// Runs of the in-memory file system: link counts stay exact, and nothing dangles or gets
// lost.
module MemRuns {
  import opened Basics
  import opened ChunkStore
  import opened MemTree

  datatype MemOp =
    | DoMkdir(dir: nat, name: string)
    | DoCreate(dir: nat, name: string)
    | DoSymlink(dir: nat, name: string, target: string)
    | DoLink(ino: nat, dir: nat, name: string)
    | DoUnlink(dir: nat, name: string)
    | DoRmdir(dir: nat, name: string)
    | DoRename(dir: nat, name: string, newDir: nat, newName: string)
    | DoWrite(ino: nat, offset: nat, data: Bytes)
    | DoTruncate(ino: nat, size: nat)

  function SetData(ns: Nodes, i: nat, data: Bytes): Nodes {
    if i in ns && ns[i].Regular? then ns[i := Regular(data, ns[i].nlink)] else ns
  }

  function DataOf(ns: Nodes, i: nat): Bytes {
    if i in ns && ns[i].Regular? then ns[i].data else []
  }

  function Step(s: State, op: MemOp): State {
    match op
    case DoMkdir(d, n) => Mkdir(s, d, n).0
    case DoCreate(d, n) => CreateFile(s, d, n).0
    case DoSymlink(d, n, target) => MakeSymlink(s, d, n, target).0
    case DoLink(i, d, n) => Link(s, i, d, n).0
    case DoUnlink(d, n) => Unlink(s, d, n).0
    case DoRmdir(d, n) => Rmdir(s, d, n).0
    case DoRename(od, on, nd, nn) => Rename(s, od, on, nd, nn).0
    case DoWrite(i, offset, data) => s.(nodes := SetData(s.nodes, i, FlatWrite(DataOf(s.nodes, i), offset, data)))
    case DoTruncate(i, size) => s.(nodes := SetData(s.nodes, i, FlatTruncate(DataOf(s.nodes, i), size)))
  }

  function Run(ops: seq<MemOp>): State {
    if ops == [] then NEW_STATE else Step(Run(ops[..|ops| - 1]), ops[|ops| - 1])
  }

  // A rename puts the entry into a directory that exists, outside the moved subtree, and
  // not over a directory or a marker.
  ghost predicate RenameOk(ns: Nodes, od: nat, on: string, nd: nat, nn: string) {
    Find(ns, od, on).Ok? ==>
      var i := Find(ns, od, on).ino;
      && IsDir(ns, nd) && nn != KEEP
      && (IsDir(ns, i) ==> Outside(ns, i, nd))
      && (Child(ns, nd, nn).Some? && !(nd == od && nn == on) ==> !IsDir(ns, Child(ns, nd, nn).value))
  }

  // Markers are for `mkdir` to make, and are not linked (`MemMarkers` says why).
  ghost predicate OpOk(s: State, op: MemOp) {
    match op
    case DoMkdir(_, n) => n != KEEP
    case DoLink(i, _, n) => n != KEEP && !IsMarker(s.nodes, i)
    case DoRename(od, on, nd, nn) => RenameOk(s.nodes, od, on, nd, nn)
    case _ => true
  }

  // ---- Each operation as a composition of the primitive changes --------------------------------

  lemma MkdirShaped(s: State, d: nat, n: string)
    requires Shaped(s) && n != KEEP
    ensures Shaped(Mkdir(s, d, n).0)
  {
    hide Shaped, Links, Reached;
    if |n| <= MAX_NAME_LEN && Vacant(s.nodes, d, n).None? {
      assert d < s.alloc && s.alloc !in s.nodes && s.alloc + 1 !in s.nodes by { ShapedBounds(s, d); }
      var a := Added(s, d, n, Dir(map[], 2));
      AddedShaped(s, d, n, Dir(map[], 2));
      var b := Added(a, s.alloc, KEEP, Regular([], 1));
      AddedShaped(a, s.alloc, KEEP, Regular([], 1));
      DirLinksShaped(b, d, s.nodes[d].nlink + 1);
      MkdirComposed(s, d, n);
    }
  }

  lemma MkdirComposed(s: State, d: nat, n: string)
    requires IsDir(s.nodes, d) && d < s.alloc && |n| <= MAX_NAME_LEN && Vacant(s.nodes, d, n).None?
    ensures var b := Added(Added(s, d, n, Dir(map[], 2)), s.alloc, KEEP, Regular([], 1));
      Mkdir(s, d, n).0 == b.(nodes := SetLinks(b.nodes, d, s.nodes[d].nlink + 1))
  {
    var b := Added(Added(s, d, n, Dir(map[], 2)), s.alloc, KEEP, Regular([], 1));
    var x, y := Mkdir(s, d, n).0.nodes, SetLinks(b.nodes, d, s.nodes[d].nlink + 1);
    assert x.Keys == y.Keys;
    assert x[s.alloc] == y[s.alloc];
    assert x == y;
  }

  lemma ShapedBounds(s: State, d: nat)
    requires Shaped(s)
    ensures d in s.nodes ==> d < s.alloc
    ensures s.alloc !in s.nodes && s.alloc + 1 !in s.nodes
  {
    hide Reached, Links, SingleEntries;
  }

  lemma LeafShaped(s: State, d: nat, n: string, node: Node)
    requires Shaped(s) && Vacant(s.nodes, d, n).None? && !node.Dir? && node.nlink == 1
    ensures Shaped(State(Attach(s.nodes[s.alloc := node], d, n, s.alloc), s.alloc + 1))
  {
    hide Shaped;
    AddedShaped(s, d, n, node);
  }

  lemma LinkShaped(s: State, i: nat, d: nat, n: string)
    requires Shaped(s) && n != KEEP && !IsMarker(s.nodes, i)
    ensures Shaped(Link(s, i, d, n).0)
  {
    hide Shaped, IsMarker;
    if i in s.nodes && !s.nodes[i].Dir? && Vacant(s.nodes, d, n).None? {
      LinkedShaped(s, i, d, n);
    }
  }

  lemma UnlinkShaped(s: State, d: nat, n: string)
    requires Shaped(s)
    ensures Shaped(Unlink(s, d, n).0)
  {
    hide Shaped;
    if Unlink(s, d, n).1.Ok? {
      UnlinkedShaped(s, d, n, Find(s.nodes, d, n).ino);
    }
  }

  // Taking out the marker.
  lemma KeepTaken(s: State, i: nat, k: nat)
    requires Shaped(s) && Child(s.nodes, i, KEEP) == Some(k)
    ensures Detach(s.nodes - {k}, i, KEEP) == Unlinked(s.nodes, i, KEEP, k)
    ensures Shaped(s.(nodes := Detach(s.nodes - {k}, i, KEEP)))
  {
    MarkerOnce(s, i, k);
    UnlinkedShaped(s, i, KEEP, k);
    hide Shaped;
    assert Detach(s.nodes - {k}, i, KEEP) == Detach(s.nodes, i, KEEP) - {k};
  }

  lemma MarkerOnce(s: State, i: nat, k: nat)
    requires Shaped(s) && Child(s.nodes, i, KEEP) == Some(k)
    ensures k in s.nodes && !s.nodes[k].Dir? && s.nodes[k].nlink == 1 && k != i
  {
    hide Reached;
    LinksOne(s.nodes, k, i, KEEP);
  }

  lemma RmdirShaped(s: State, d: nat, n: string)
    requires Shaped(s)
    ensures Shaped(Rmdir(s, d, n).0)
  {
    hide Shaped, Attach;
    if Find(s.nodes, d, n).Ok? && IsDir(s.nodes, Find(s.nodes, d, n).ino) {
      var i := Find(s.nodes, d, n).ino;
      var keep := Child(s.nodes, i, KEEP);
      var bare := match keep case None => s.nodes case Some(k) => Detach(s.nodes - {k}, i, KEEP);
      if keep.Some? {
        KeepTaken(s, i, keep.value);
        MarkerOnce(s, i, keep.value);
      }
      BareStays(s, d, n, i);
      var t := s.(nodes := bare);
      if bare[i].children != map[] {
        if keep.Some? { LeafShaped(t, i, KEEP, Regular([], 1)); }
      } else {
        RemovedShaped(t, d, n, i);
        RemovedParent(t, d, n, i);
        DirLinksShaped(s.(nodes := Detach(bare - {i}, d, n)), d, Dec(Detach(bare - {i}, d, n)[d].nlink));
      }
    }
  }

  // Without its marker the directory is still where it was.
  lemma BareStays(s: State, d: nat, n: string, i: nat)
    requires Shaped(s) && Child(s.nodes, d, n) == Some(i) && IsDir(s.nodes, i)
    ensures var bare := match Child(s.nodes, i, KEEP)
        case None => s.nodes
        case Some(k) => Detach(s.nodes - {k}, i, KEEP);
      Child(bare, d, n) == Some(i) && IsDir(bare, i) && (Child(s.nodes, i, KEEP).Some? ==> Child(bare, i, KEEP).None?)
  {
    if Child(s.nodes, i, KEEP).Some? {
      MarkerOnce(s, i, Child(s.nodes, i, KEEP).value);
      NotUnderItself(s, d, n, i);
      EntryDir(s, d, n, i);
    }
  }

  lemma NotUnderItself(s: State, d: nat, n: string, i: nat)
    requires Shaped(s) && Child(s.nodes, d, n) == Some(i) && IsDir(s.nodes, i)
    ensures d != i
  {
    hide Links;
    if d == i {
      var names :| Walk(s.nodes, ROOT, names) == Some(i);
      RootOnly(s, names, i, n);
    }
  }

  // A directory that is its own child is not reachable.
  lemma {:induction false} RootOnly(s: State, names: seq<string>, i: nat, n: string)
    requires Shaped(s) && Child(s.nodes, i, n) == Some(i) && IsDir(s.nodes, i)
    ensures Walk(s.nodes, ROOT, names) != Some(i)
    decreases |names|
  {
    hide Links, Reached;
    if names != [] && Walk(s.nodes, ROOT, names) == Some(i) {
      var front, last := names[..|names| - 1], names[|names| - 1];
      assert names == front + [last];
      WalkSnoc(s.nodes, ROOT, front, last);
      RootOnly(s, front, i, n);
    }
  }

  lemma EntryDir(s: State, d: nat, n: string, i: nat)
    requires Shaped(s) && Child(s.nodes, d, n) == Some(i) && IsDir(s.nodes, i)
    ensures n != KEEP
  {
    hide Links, Reached;
  }

  lemma RemovedParent(s: State, d: nat, n: string, i: nat)
    requires Shaped(s) && Child(s.nodes, d, n) == Some(i) && IsDir(s.nodes, i)
    ensures IsDir(Detach(s.nodes - {i}, d, n), d)
  {
    NotUnderItself(s, d, n, i);
  }

  // ---- Rename ------------------------------------------------------------------------------------

  // Over a name that is free once the entry is taken out.
  lemma RenameFree(s: State, od: nat, on: string, nd: nat, nn: string)
    requires Shaped(s) && RenameOk(s.nodes, od, on, nd, nn) && Find(s.nodes, od, on).Ok?
    requires Child(s.nodes, nd, nn).None? || (nd == od && nn == on)
    ensures Shaped(Rename(s, od, on, nd, nn).0)
  {
    hide Shaped, Outside;
    var i := Find(s.nodes, od, on).ino;
    MovedShaped(s, od, on, nd, nn, i);
    assert Child(Detach(s.nodes, od, on), nd, nn).None?;
  }

  // Over another name of the same file: one name fewer.
  lemma RenameOntoSelf(s: State, od: nat, on: string, nd: nat, nn: string, i: nat)
    requires Shaped(s) && IsDir(s.nodes, nd) && Child(s.nodes, od, on) == Some(i) && Child(s.nodes, nd, nn) == Some(i)
    requires !(nd == od && nn == on) && !IsDir(s.nodes, i)
    ensures Rename(s, od, on, nd, nn).0 == s.(nodes := Unlinked(s.nodes, od, on, i))
    ensures Shaped(s.(nodes := Unlinked(s.nodes, od, on, i)))
  {
    UnlinkedShaped(s, od, on, i);
    assert nd != i && od != i;
    hide Shaped;
    var ms := Unlinked(s.nodes, od, on, i);
    assert Child(ms, nd, nn) == Some(i);
    assert ms[nd := Dir(ms[nd].children[nn := i], ms[nd].nlink)] == ms by {
      assert ms[nd].children[nn := i] == ms[nd].children;
    }
  }

  // Over another file: that one is unlinked first.
  lemma RenameOver(s: State, od: nat, on: string, nd: nat, nn: string, i: nat, k: nat)
    requires Shaped(s) && RenameOk(s.nodes, od, on, nd, nn) && Child(s.nodes, od, on) == Some(i)
      && Child(s.nodes, nd, nn) == Some(k)
    requires i != k && !(nd == od && nn == on)
    ensures Shaped(Rename(s, od, on, nd, nn).0)
  {
    var t := s.(nodes := Unlinked(s.nodes, nd, nn, k));
    UnlinkedShaped(s, nd, nn, k);
    RenameOverComposed(s, od, on, nd, nn, i, k);
    AfterUnlink(s, od, on, nd, nn, i, k);
    hide Shaped, Unlinked, Moved;
    if IsDir(t.nodes, i) {
      OutsideStays(s.nodes, t.nodes, i, nd);
    }
    MovedShaped(t, od, on, nd, nn, i);
  }

  lemma AfterUnlink(s: State, od: nat, on: string, nd: nat, nn: string, i: nat, k: nat)
    requires Shaped(s) && Child(s.nodes, od, on) == Some(i) && Child(s.nodes, nd, nn) == Some(k) && !IsDir(s.nodes, k)
    requires i != k && !(nd == od && nn == on)
    ensures var ms := Unlinked(s.nodes, nd, nn, k);
      && Child(ms, od, on) == Some(i) && IsDir(ms, nd) && Child(ms, nd, nn).None?
        && (IsDir(ms, i) ==> IsDir(s.nodes, i))
      && forall e, m :: Child(ms, e, m).Some? ==> Child(s.nodes, e, m) == Child(ms, e, m)
  {
    UnlinkedIsOneLess(s, nd, nn, k);
    hide Shaped, Unlinked;
  }

  lemma OutsideStays(ns: Nodes, ms: Nodes, i: nat, d: nat)
    requires Outside(ns, i, d) && forall e, m :: Child(ms, e, m).Some? ==> Child(ns, e, m) == Child(ms, e, m)
    ensures Outside(ms, i, d)
  {
    forall names ensures Walk(ms, i, names) != Some(d) {
      if Walk(ms, i, names).Some? { WalkMore(ms, ns, i, names); }
    }
  }

  lemma RenameOverComposed(s: State, od: nat, on: string, nd: nat, nn: string, i: nat, k: nat)
    requires Shaped(s) && Child(s.nodes, od, on) == Some(i) && Child(s.nodes, nd, nn) == Some(k) && !IsDir(s.nodes, k)
    requires i != k && !(nd == od && nn == on)
    ensures Rename(s, od, on, nd, nn).0.nodes == Moved(Unlinked(s.nodes, nd, nn, k), od, on, nd, nn, i)
    ensures Rename(s, od, on, nd, nn).0.alloc == s.alloc
  {
    hide Shaped;
    var x, y := Rename(s, od, on, nd, nn).0.nodes, Moved(Unlinked(s.nodes, nd, nn, k), od, on, nd, nn, i);
    assert od != k && nd != k;
    assert x.Keys == y.Keys;
    assert x[nd] == y[nd] && x[od] == y[od];
    assert x == y;
  }

  lemma RenameShaped(s: State, od: nat, on: string, nd: nat, nn: string)
    requires Shaped(s) && RenameOk(s.nodes, od, on, nd, nn)
    ensures Shaped(Rename(s, od, on, nd, nn).0)
  {
    hide Shaped, Outside;
    if Find(s.nodes, od, on).Ok? {
      var i := Find(s.nodes, od, on).ino;
      if Child(s.nodes, nd, nn).None? || (nd == od && nn == on) {
        RenameFree(s, od, on, nd, nn);
      } else if Child(s.nodes, nd, nn) == Some(i) {
        RenameOntoSelf(s, od, on, nd, nn, i);
      } else {
        RenameOver(s, od, on, nd, nn, i, Child(s.nodes, nd, nn).value);
      }
    }
  }

  // ---- Which renames break the tree ----------------------------------------------------------------

  // Where the entry is afterwards, and nowhere else: entries of the result are old ones, or
  // the new one.
  lemma RenamedEntries(s: State, od: nat, on: string, nd: nat, nn: string)
    requires Shaped(s) && Find(s.nodes, od, on).Ok?
    ensures var i, ms := Find(s.nodes, od, on).ino, Rename(s, od, on, nd, nn).0.nodes;
      && (forall e, m :: Child(ms, e, m).Some? ==>
            if e == nd && m == nn then Child(ms, e, m) == Some(i)
            else Child(ms, e, m) == Child(s.nodes, e, m) && !(e == od && m == on))
      && (!IsDir(s.nodes, nd) ==> forall e, m :: Child(ms, e, m).Some? ==> !(e == nd && m == nn))
      && (forall j :: IsDir(ms, j) ==> IsDir(s.nodes, j))
  {
    hide Shaped;
  }

  // A directory whose entry is gone is gone for good.
  lemma EntrylessUnreached(s: State, ms: Nodes, j: nat)
    requires j != ROOT && forall e, m :: Child(ms, e, m) != Some(j)
    ensures !Reached(ms, j)
  {
    forall names ensures Walk(ms, ROOT, names) != Some(j) {
      if names != [] {
        assert names == names[..|names| - 1] + [names[|names| - 1]];
        WalkSnoc(ms, ROOT, names[..|names| - 1], names[|names| - 1]);
      }
    }
  }

  lemma DirEntry(s: State, d: nat, n: string, i: nat)
    requires Shaped(s) && Child(s.nodes, d, n) == Some(i) && IsDir(s.nodes, i)
    ensures i != ROOT && forall e, m :: Child(s.nodes, e, m) == Some(i) ==> e == d && m == n
  {
    hide Reached, Links;
  }

  // Into a directory that is not there: the entry is lost.
  lemma RenameNowhere(s: State, od: nat, on: string, nd: nat, nn: string)
    requires Shaped(s) && Find(s.nodes, od, on).Ok? && !IsDir(s.nodes, nd)
    ensures !Good(Rename(s, od, on, nd, nn).0.nodes)
  {
    var i, ms := Find(s.nodes, od, on).ino, Rename(s, od, on, nd, nn).0.nodes;
    assert ms == Detach(s.nodes, od, on);
    EntryIsLive(s, od, on);
    if IsDir(s.nodes, i) {
      DirEntry(s, od, on, i);
      forall e: nat, m ensures Child(ms, e, m) != Some(i) {
        assert Child(ms, e, m).Some? ==> Child(s.nodes, e, m) == Child(ms, e, m) && !(e == od && m == on);
      }
      hide Shaped;
      EntrylessUnreached(s, ms, i);
    } else {
      hide Reached;
      LinksLess(s.nodes, ms, i, od, on);
      assert i in ms && !ms[i].Dir? && ms[i].nlink == s.nodes[i].nlink;
    }
  }

  lemma OneNameEach(s: State, od: nat, on: string, i: nat, nd: nat, nn: string, k: nat)
    requires Shaped(s) && Child(s.nodes, od, on) == Some(i) && Child(s.nodes, nd, nn) == Some(k) && IsDir(s.nodes, k)
    requires !(nd == od && nn == on)
    ensures i != k
  {
    hide Reached, Links;
  }

  // Onto a directory: it stays, without a name.
  lemma RenameOntoDir(s: State, od: nat, on: string, nd: nat, nn: string, k: nat)
    requires Shaped(s) && Find(s.nodes, od, on).Ok? && Child(s.nodes, nd, nn) == Some(k) && !(nd == od && nn == on)
    requires IsDir(s.nodes, k) && s.nodes[k].nlink >= 2
    ensures !Good(Rename(s, od, on, nd, nn).0.nodes)
  {
    var i, ms := Find(s.nodes, od, on).ino, Rename(s, od, on, nd, nn).0.nodes;
    DirEntry(s, nd, nn, k);
    RenamedEntries(s, od, on, nd, nn);
    assert k in ms by { hide Shaped; }
    hide Rename, Shaped;
    OneNameEach(s, od, on, i, nd, nn, k);
    forall e: nat, m ensures Child(ms, e, m) != Some(k) {
      assert Child(ms, e, m).Some? && !(e == nd && m == nn) ==> Child(ms, e, m) == Child(s.nodes, e, m);
    }
    EntrylessUnreached(s, ms, k);
  }

  // In the subtree of `i`.
  ghost predicate Below(ns: Nodes, i: nat, j: nat) {
    exists names :: Walk(ns, i, names) == Some(j)
  }

  // The parent of a directory below `i` is below `i`, unless it is `i` itself.
  lemma ParentBelow(s: State, i: nat, j: nat, e: nat, m: string)
    requires Shaped(s) && Below(s.nodes, i, j) && j != i && IsDir(s.nodes, j) && Child(s.nodes, e, m) == Some(j)
    ensures Below(s.nodes, i, e)
  {
    var names :| Walk(s.nodes, i, names) == Some(j);
    var front, last := names[..|names| - 1], names[|names| - 1];
    assert names == front + [last];
    WalkSnoc(s.nodes, i, front, last);
    DirEntry(s, e, m, j);
    assert Walk(s.nodes, i, front) == Some(e);
  }

  lemma RootNotBelow(s: State, i: nat)
    requires Shaped(s) && i != ROOT
    ensures !Below(s.nodes, i, ROOT)
  {
    hide Reached, Links;
    forall names ensures Walk(s.nodes, i, names) != Some(ROOT) {
      if names != [] {
        assert names == names[..|names| - 1] + [names[|names| - 1]];
        WalkSnoc(s.nodes, i, names[..|names| - 1], names[|names| - 1]);
      }
    }
  }

  // Under itself: no walk from the root gets into the loop.
  lemma {:induction false} LoopUnreached(s: State, ms: Nodes, od: nat, on: string, nd: nat, nn: string, i: nat,
    names: seq<string>, j: nat)
    requires Shaped(s) && Child(s.nodes, od, on) == Some(i) && IsDir(s.nodes, i) && Below(s.nodes, i, nd)
    requires forall e, m :: Child(ms, e, m).Some? ==>
      if e == nd && m == nn then Child(ms, e, m) == Some(i)
      else Child(ms, e, m) == Child(s.nodes, e, m) && !(e == od && m == on)
    requires forall h :: IsDir(ms, h) ==> IsDir(s.nodes, h)
    requires Below(s.nodes, i, j) && IsDir(ms, j)
    ensures Walk(ms, ROOT, names) != Some(j)
    decreases |names|
  {
    DirEntry(s, od, on, i);
    RootNotBelow(s, i);
    if names != [] && Walk(ms, ROOT, names) == Some(j) {
      var front, last := names[..|names| - 1], names[|names| - 1];
      assert names == front + [last];
      WalkSnoc(ms, ROOT, front, last);
      var e := Walk(ms, ROOT, front).value;
      assert Child(ms, e, last) == Some(j);
      if j != i { ParentBelow(s, i, j, e, last); }
      hide Shaped, Below;
      LoopUnreached(s, ms, od, on, nd, nn, i, front, e);
    }
  }

  lemma DirSurvives(s: State, od: nat, on: string, nd: nat, nn: string, i: nat)
    requires Shaped(s) && Child(s.nodes, od, on) == Some(i) && IsDir(s.nodes, i)
    ensures IsDir(Rename(s, od, on, nd, nn).0.nodes, i)
  {
    if Child(s.nodes, nd, nn).Some? && !(nd == od && nn == on) && IsDir(s.nodes, Child(s.nodes, nd, nn).value) {
      OneNameEach(s, od, on, i, nd, nn, Child(s.nodes, nd, nn).value);
    }
    hide Shaped;
  }

  lemma RenameUnderItself(s: State, od: nat, on: string, nd: nat, nn: string, i: nat)
    requires Shaped(s) && Child(s.nodes, od, on) == Some(i) && IsDir(s.nodes, i) && IsDir(s.nodes, nd)
      && !Outside(s.nodes, i, nd)
    ensures !Good(Rename(s, od, on, nd, nn).0.nodes)
  {
    var ms := Rename(s, od, on, nd, nn).0.nodes;
    RenamedEntries(s, od, on, nd, nn);
    DirSurvives(s, od, on, nd, nn, i);
    assert Walk(s.nodes, i, []) == Some(i);
    hide Rename, Shaped;
    forall names ensures Walk(ms, ROOT, names) != Some(i) {
      LoopUnreached(s, ms, od, on, nd, nn, i, names, i);
    }
  }

  // A child is never above its parent.
  lemma ChildNotAbove(s: State, d: nat, n: string, i: nat)
    requires Shaped(s) && Child(s.nodes, d, n) == Some(i) && IsDir(s.nodes, i)
    ensures Outside(s.nodes, i, d)
  {
    var toChild :| Walk(s.nodes, ROOT, toChild) == Some(i);
    assert Walk(s.nodes, i, []) == Some(i);
    hide Shaped;
    if !Outside(s.nodes, i, d) {
      LoopUnreached(s, s.nodes, d, n, d, n, i, toChild, i);
    }
  }

  // Moving an entry to a free name keeps the tree good, also where it makes a marker of it.
  lemma MovedGood(s: State, od: nat, on: string, nd: nat, nn: string, i: nat)
    requires Shaped(s) && Child(s.nodes, od, on) == Some(i) && IsDir(s.nodes, nd)
    requires IsDir(s.nodes, i) ==> Outside(s.nodes, i, nd)
    requires Child(s.nodes, nd, nn).None? || (nd == od && nn == on)
    ensures Good(Moved(s.nodes, od, on, nd, nn, i))
  {
    hide Shaped, Good, Moved, Outside, Reached, Walk;
    ShapedIsGood(s);
    MovedIsOneMoved(s.nodes, od, on, nd, nn, i);
    MovedAllGood(s.nodes, Moved(s.nodes, od, on, nd, nn, i), od, on, nd, nn, i);
  }

  lemma MovedAllGood(ns: Nodes, ms: Nodes, od: nat, on: string, nd: nat, nn: string, i: nat)
    requires Good(ns) && OneMoved(ns, ms, od, on, nd, nn, i) && Child(ns, od, on) == Some(i) && IsDir(ns, nd)
    requires IsDir(ns, i) ==> Outside(ns, i, nd)
    requires Child(ns, nd, nn).None? || (nd == od && nn == on)
    ensures Good(ms)
  {
    hide Reached, Walk, Outside, OneMoved, Links;
    assert nd != i by { assert Walk(ns, i, []) == Some(i) by { Standstill(ns, i); } OutsideNotSelf(ns, i, nd); }
    NewPlaceReached(ns, ms, od, on, nd, nn, i);
    MovedLive(ns, ms, od, on, nd, nn, i);
    forall j | j in ms ensures Reached(ms, j) {
      MovedReached(ns, ms, od, on, nd, nn, i, j);
    }
    forall j | j in ms && !ms[j].Dir? ensures ms[j].nlink == |Links(ms, j)| {
      MovedCount(ns, ms, od, on, nd, nn, i, j);
    }
  }

  lemma Standstill(ns: Nodes, i: nat)
    ensures Walk(ns, i, []) == Some(i)
  {
  }

  lemma OutsideNotSelf(ns: Nodes, i: nat, d: nat)
    requires IsDir(ns, d) && (IsDir(ns, i) ==> Outside(ns, i, d)) && Walk(ns, i, []) == Some(i)
    ensures d != i
  {
  }

  lemma MovedLive(ns: Nodes, ms: Nodes, od: nat, on: string, nd: nat, nn: string, i: nat)
    requires OneMoved(ns, ms, od, on, nd, nn, i) && Child(ns, od, on) == Some(i)
    requires forall d, n :: Child(ns, d, n).Some? ==> Child(ns, d, n).value in ns
    ensures ms.Keys == ns.Keys && forall d, n :: Child(ms, d, n).Some? ==> Child(ms, d, n).value in ms
  {
    hide Child;
  }

  lemma MovedCount(ns: Nodes, ms: Nodes, od: nat, on: string, nd: nat, nn: string, i: nat, j: nat)
    requires Child(ns, od, on) == Some(i) && OneMoved(ns, ms, od, on, nd, nn, i) && j in ms && !ms[j].Dir?
    requires Child(ns, nd, nn).None? || (nd == od && nn == on)
    ensures j in ns && ns[j] == ms[j] && |Links(ms, j)| == |Links(ns, j)|
  {
    hide Links;
    assert !IsDir(ms, j);
    if j == i { MovedLinks(ns, ms, od, on, nd, nn, i); } else { LinksSame(ns, ms, j); }
  }

  // A directory that a rename over it removes for good: its count is down to its last
  // link, and it holds nothing but the entry that is moved.
  ghost predicate Spent(ns: Nodes, k: nat, od: nat, on: string)
    requires k in ns
  {
    ns[k].nlink <= 1 && forall m :: Child(ns, k, m).Some? ==> k == od && m == on
  }

  // A rename into a directory that exists, outside the moved subtree, and not over a
  // directory unless that is spent.
  ghost predicate Harmless(ns: Nodes, od: nat, on: string, nd: nat, nn: string) {
    Find(ns, od, on).Ok? ==>
      var i := Find(ns, od, on).ino;
      && IsDir(ns, nd)
      && (IsDir(ns, i) ==> Outside(ns, i, nd))
      && (!(nd == od && nn == on) && Child(ns, nd, nn).Some? && IsDir(ns, Child(ns, nd, nn).value) ==>
            Spent(ns, Child(ns, nd, nn).value, od, on))
  }

  // Over nothing, over a file, or onto itself.
  lemma RenameOverFileGood(s: State, od: nat, on: string, nd: nat, nn: string, i: nat)
    requires Shaped(s) && Child(s.nodes, od, on) == Some(i) && IsDir(s.nodes, nd)
    requires IsDir(s.nodes, i) ==> Outside(s.nodes, i, nd)
    requires Child(s.nodes, nd, nn).Some? && !(nd == od && nn == on) ==> !IsDir(s.nodes, Child(s.nodes, nd, nn).value)
    ensures Good(Rename(s, od, on, nd, nn).0.nodes)
  {
    hide Shaped, Good, Outside;
    if Child(s.nodes, nd, nn).None? || (nd == od && nn == on) {
      MovedGood(s, od, on, nd, nn, i);
      assert Child(Detach(s.nodes, od, on), nd, nn).None?;
    } else {
      var k := Child(s.nodes, nd, nn).value;
      hide Rename;
      if k == i {
        RenameOntoSelf(s, od, on, nd, nn, i);
        ShapedIsGood(s.(nodes := Unlinked(s.nodes, od, on, i)));
      } else {
        RenameOverGood(s, od, on, nd, nn, i, k);
      }
    }
  }

  lemma RenameOverGood(s: State, od: nat, on: string, nd: nat, nn: string, i: nat, k: nat)
    requires Shaped(s) && Child(s.nodes, od, on) == Some(i) && Child(s.nodes, nd, nn) == Some(k) && !IsDir(s.nodes, k)
    requires i != k && !(nd == od && nn == on) && (IsDir(s.nodes, i) ==> Outside(s.nodes, i, nd))
    ensures Good(Rename(s, od, on, nd, nn).0.nodes)
  {
    hide Shaped, Good, Outside, Unlinked, Moved, Rename;
    var t := s.(nodes := Unlinked(s.nodes, nd, nn, k));
    UnlinkedShaped(s, nd, nn, k);
    RenameOverComposed(s, od, on, nd, nn, i, k);
    AfterUnlink(s, od, on, nd, nn, i, k);
    if IsDir(t.nodes, i) {
      OutsideStays(s.nodes, t.nodes, i, nd);
    }
    MovedGood(t, od, on, nd, nn, i);
  }

  // A name a directory does not use, other than the marker's.
  lemma {:induction false} FreshName(names: set<string>) returns (z: string)
    ensures |z| > |KEEP| && forall n :: n in names ==> |n| < |z|
    decreases |names|
  {
    if names == {} {
      z := KEEP + "x";
    } else {
      var n :| n in names;
      z := FreshName(names - {n});
      if |z| <= |n| {
        z := seq(|n| + |KEEP| + 1, i => 'x');
      }
    }
  }

  // Over a spent directory: the entry moves to a free name, the directory goes as if by
  // `rmdir`, and the entry moves into its place.
  lemma RenameOverSpent(s: State, od: nat, on: string, nd: nat, nn: string, i: nat, k: nat)
    requires Shaped(s) && Child(s.nodes, od, on) == Some(i) && Child(s.nodes, nd, nn) == Some(k) && IsDir(s.nodes, k)
    requires !(nd == od && nn == on) && (IsDir(s.nodes, i) ==> Outside(s.nodes, i, nd)) && Spent(s.nodes, k, od, on)
    ensures Good(Rename(s, od, on, nd, nn).0.nodes)
  {
    hide Shaped, Good, Outside, Rename;
    var z := FreshName(s.nodes[nd].children.Keys);
    OneNameEach(s, od, on, i, nd, nn, k);
    NotUnderItself(s, nd, nn, k);
    var a := s.(nodes := Moved(s.nodes, od, on, nd, z, i));
    MovedShaped(s, od, on, nd, z, i);
    assert Child(a.nodes, nd, nn) == Some(k) && IsDir(a.nodes, k) && a.nodes[k].children == map[] by {
      EmptiedDir(s.nodes, od, on, nd, z, i, k);
    }
    var b := s.(nodes := Detach(a.nodes - {k}, nd, nn));
    RemovedShaped(a, nd, nn, k);
    assert Child(b.nodes, nd, z) == Some(i) && IsDir(b.nodes, nd) && Child(b.nodes, nd, nn).None?;
    if IsDir(b.nodes, i) { ChildNotAbove(b, nd, z, i); }
    MovedGood(b, nd, z, nd, nn, i);
    RenameSpentComposed(s, od, on, nd, nn, i, k, z);
  }

  lemma EmptiedDir(ns: Nodes, od: nat, on: string, nd: nat, z: string, i: nat, k: nat)
    requires IsDir(ns, k) && k != nd && forall m :: Child(ns, k, m).Some? ==> k == od && m == on
    ensures var ms := Moved(ns, od, on, nd, z, i); IsDir(ms, k) && ms[k].children == map[]
  {
    var ms := Moved(ns, od, on, nd, z, i);
    forall m: string ensures m !in ms[k].children {
      assert Child(ms, k, m).Some? ==> Child(ns, k, m).Some? && !(k == od && m == on);
    }
  }

  lemma RenameSpentComposed(s: State, od: nat, on: string, nd: nat, nn: string, i: nat, k: nat, z: string)
    requires Child(s.nodes, od, on) == Some(i) && Child(s.nodes, nd, nn) == Some(k) && IsDir(s.nodes, k)
      && s.nodes[k].nlink <= 1
    requires !(nd == od && nn == on) && k != nd && z !in s.nodes[nd].children
    ensures Rename(s, od, on, nd, nn).0.nodes
      == Moved(Detach(Moved(s.nodes, od, on, nd, z, i) - {k}, nd, nn), nd, z, nd, nn, i)
  {
    var x, y := Rename(s, od, on, nd, nn).0.nodes,
      Moved(Detach(Moved(s.nodes, od, on, nd, z, i) - {k}, nd, nn), nd, z, nd, nn, i);
    assert x.Keys == y.Keys;
    assert x[nd].children == y[nd].children;
    assert x == y;
  }

  // Over a directory of one link that holds something else: that is lost with it.
  lemma RenameOverFull(s: State, od: nat, on: string, nd: nat, nn: string, k: nat, m: string)
    requires Shaped(s) && Find(s.nodes, od, on).Ok? && Child(s.nodes, nd, nn) == Some(k) && !(nd == od && nn == on)
    requires IsDir(s.nodes, k) && s.nodes[k].nlink <= 1 && Child(s.nodes, k, m).Some? && !(k == od && m == on)
    ensures !Good(Rename(s, od, on, nd, nn).0.nodes)
  {
    var i, ms, c := Find(s.nodes, od, on).ino, Rename(s, od, on, nd, nn).0.nodes, Child(s.nodes, k, m).value;
    RenamedEntries(s, od, on, nd, nn);
    OneNameEach(s, od, on, i, nd, nn, k);
    EntryIsLive(s, k, m);
    NotUnderItself(s, nd, nn, k);
    assert c != k by { if c == k { NotUnderItself(s, k, m, k); } }
    RenameDrops(s, od, on, nd, nn, k, c);
    if IsDir(s.nodes, c) {
      DirEntry(s, k, m, c);
      hide Rename, Shaped;
      forall e: nat, n ensures Child(ms, e, n) != Some(c) {
        assert Child(ms, e, n).Some? && !(e == nd && n == nn) ==> Child(ms, e, n) == Child(s.nodes, e, n);
      }
      EntrylessUnreached(s, ms, c);
    } else {
      assert s.nodes[c].nlink == |Links(s.nodes, c)|;
      hide Rename, Shaped;
      FewerLinks(s.nodes, ms, od, on, nd, nn, i, k, m, c);
    }
  }

  lemma RenameDrops(s: State, od: nat, on: string, nd: nat, nn: string, k: nat, c: nat)
    requires Find(s.nodes, od, on).Ok? && Child(s.nodes, nd, nn) == Some(k) && !(nd == od && nn == on)
    requires IsDir(s.nodes, k) && s.nodes[k].nlink <= 1 && k != nd && c in s.nodes && c != k
    ensures var ms := Rename(s, od, on, nd, nn).0.nodes;
      k !in ms && c in ms && ms[c].Dir? == s.nodes[c].Dir? && ms[c].nlink == s.nodes[c].nlink
  {
  }

  // A file with an entry in a directory that is gone has fewer names than before.
  lemma FewerLinks(ns: Nodes, ms: Nodes, od: nat, on: string, nd: nat, nn: string, i: nat, k: nat, m: string, c: nat)
    requires Child(ns, k, m) == Some(c) && !(k == od && m == on) && Child(ns, od, on) == Some(i) && k !in ms
    requires forall e, n :: Child(ms, e, n).Some? ==>
      if e == nd && n == nn then Child(ms, e, n) == Some(i)
      else Child(ms, e, n) == Child(ns, e, n) && !(e == od && n == on)
    ensures |Links(ms, c)| < |Links(ns, c)|
  {
    var was := Links(ns, c);
    InLinks(ns, c, k, m);
    InLinks(ns, c, od, on);
    var rest := if c == i then was - {(k, m)} - {(od, on)} + {(nd, nn)} else was - {(k, m)};
    forall l | l in Links(ms, c) ensures l in rest {
      InLinks(ms, c, l.0, l.1);
      InLinks(ns, c, l.0, l.1);
    }
    assert rest == Links(ms, c) + (rest - Links(ms, c));
    assert |rest| < |was|;
  }

  // The condition is exact, for any rename at all: the tree stays good if and only if the
  // rename goes to an existing directory outside the moved subtree, and not over a directory
  // unless that one has run out of links and holds nothing that stays.
  lemma RenameGoodIff(s: State, od: nat, on: string, nd: nat, nn: string)
    requires Shaped(s)
    ensures Good(Rename(s, od, on, nd, nn).0.nodes) <==> Harmless(s.nodes, od, on, nd, nn)
  {
    if Find(s.nodes, od, on).Err? {
      ShapedIsGood(s);
    } else {
      hide Shaped, Good, Rename, Outside;
      var i := Find(s.nodes, od, on).ino;
      if !IsDir(s.nodes, nd) {
        RenameNowhere(s, od, on, nd, nn);
      } else if IsDir(s.nodes, i) && !Outside(s.nodes, i, nd) {
        RenameUnderItself(s, od, on, nd, nn, i);
      } else if !(nd == od && nn == on) && Child(s.nodes, nd, nn).Some?
        && IsDir(s.nodes, Child(s.nodes, nd, nn).value) {
        RenameOverDirIff(s, od, on, nd, nn, i, Child(s.nodes, nd, nn).value);
      } else {
        RenameOverFileGood(s, od, on, nd, nn, i);
      }
    }
  }

  lemma RenameOverDirIff(s: State, od: nat, on: string, nd: nat, nn: string, i: nat, k: nat)
    requires Shaped(s) && Child(s.nodes, od, on) == Some(i) && Child(s.nodes, nd, nn) == Some(k) && IsDir(s.nodes, k)
    requires !(nd == od && nn == on) && (IsDir(s.nodes, i) ==> Outside(s.nodes, i, nd))
    ensures Good(Rename(s, od, on, nd, nn).0.nodes) <==> Spent(s.nodes, k, od, on)
  {
    hide Shaped, Good, Rename, Outside;
    if Spent(s.nodes, k, od, on) {
      RenameOverSpent(s, od, on, nd, nn, i, k);
    } else if s.nodes[k].nlink >= 2 {
      RenameOntoDir(s, od, on, nd, nn, k);
    } else {
      var m :| Child(s.nodes, k, m).Some? && !(k == od && m == on);
      RenameOverFull(s, od, on, nd, nn, k, m);
    }
  }

  // ---- Whole runs -----------------------------------------------------------------------------------

  lemma DataShaped(s: State, i: nat, data: Bytes)
    requires Shaped(s)
    ensures Shaped(s.(nodes := SetData(s.nodes, i, data)))
  {
    var ns, ms := s.nodes, SetData(s.nodes, i, data);
    assert forall e, m :: Child(ms, e, m) == Child(ns, e, m);
    SameTree(s, s.(nodes := ms));
    hide Treelike;
    forall j ensures Links(ms, j) == Links(ns, j) {
      LinksSame(ns, ms, j);
    }
    hide Links;
  }

  lemma StepShaped(s: State, op: MemOp)
    requires Shaped(s) && OpOk(s, op)
    ensures Shaped(Step(s, op))
  {
    hide Shaped, Mkdir, Link, Unlink, Rmdir, Rename, RenameOk, IsMarker;
    match op {
      case DoMkdir(d, n) => MkdirShaped(s, d, n);
      case DoCreate(d, n) =>
        if |n| <= MAX_NAME_LEN && Vacant(s.nodes, d, n).None? { LeafShaped(s, d, n, Regular([], 1)); }
      case DoSymlink(d, n, target) =>
        if Vacant(s.nodes, d, n).None? { LeafShaped(s, d, n, Symlink(target, 1)); }
      case DoLink(i, d, n) => LinkShaped(s, i, d, n);
      case DoUnlink(d, n) => UnlinkShaped(s, d, n);
      case DoRmdir(d, n) => RmdirShaped(s, d, n);
      case DoRename(od, on, nd, nn) => RenameShaped(s, od, on, nd, nn);
      case DoWrite(i, offset, data) => DataShaped(s, i, FlatWrite(DataOf(s.nodes, i), offset, data));
      case DoTruncate(i, size) => DataShaped(s, i, FlatTruncate(DataOf(s.nodes, i), size));
    }
  }

  ghost predicate RunOk(ops: seq<MemOp>) {
    forall i :: 0 <= i < |ops| ==> OpOk(Run(ops[..i]), ops[i])
  }

  // After any run, errors and all: every entry names a live inode, each file's link count
  // is exactly the number of entries naming it, and every live inode is reachable.
  lemma {:induction false} LinkCountsStayExact(ops: seq<MemOp>)
    requires RunOk(ops)
    ensures Shaped(Run(ops)) && Good(Run(ops).nodes)
  {
    hide Shaped, Good, Step, OpOk;
    if ops == [] {
      NewShaped();
    } else {
      var front := ops[..|ops| - 1];
      forall i | 0 <= i < |front| ensures OpOk(Run(front[..i]), front[i]) {
        assert front[..i] == ops[..i];
      }
      LinkCountsStayExact(front);
      StepShaped(Run(front), ops[|ops| - 1]);
    }
    ShapedIsGood(Run(ops));
  }
}
