// What each operation of the in-memory file system does, said over its entries and the
// contents of its files alone: which entry it adds or takes away, which inodes come and go,
// what they hold, and every answer.
module MemEffects {
  import opened Basics
  import opened ChunkStore
  import opened MemTree
  import opened MemRuns
  import opened MemMarkers

  // Inodes `gone` are gone and `made` ones new; all others but `changed` are what they were.
  ghost predicate Kept(ns: Nodes, ms: Nodes, gone: set<nat>, made: set<nat>, changed: set<nat>) {
    && ms.Keys == ns.Keys - gone + made
    && forall j :: j in ns && j !in gone && j !in changed ==>
         j in ms && ms[j].Dir? == ns[j].Dir? && ms[j].nlink == ns[j].nlink && (!ns[j].Dir? ==> ms[j] == ns[j])
  }

  // Why no entry of this name can be made in `d`.
  ghost predicate NoPlace(ns: Nodes, d: nat, n: string, e: Error) {
    || (d !in ns && e == NotFound)
    || (d in ns && !ns[d].Dir? && e == NotDirectory)
    || (IsDir(ns, d) && n in ns[d].children && e == AlreadyExists)
  }

  ghost predicate Place(ns: Nodes, d: nat, n: string) { IsDir(ns, d) && n !in ns[d].children }

  // Why there is no entry of this name in `d`.
  ghost predicate NoEntry(ns: Nodes, d: nat, n: string, e: Error) {
    || (d !in ns && e == NotFound)
    || (d in ns && !ns[d].Dir? && e == NotDirectory)
    || (IsDir(ns, d) && n !in ns[d].children && e == NotFound)
  }

  // The entries are the same but for one, which names `i` now.
  ghost predicate Entered(ns: Nodes, ms: Nodes, d: nat, n: string, i: nat) {
    forall e, m :: Child(ms, e, m) == if e == d && m == n then Some(i) else Child(ns, e, m)
  }

  ghost predicate Removed(ns: Nodes, ms: Nodes, d: nat, n: string) {
    forall e, m :: Child(ms, e, m) == if e == d && m == n then None else Child(ns, e, m)
  }

  lemma FreshNumbers(s: State)
    requires Shaped(s)
    ensures s.alloc !in s.nodes && s.alloc + 1 !in s.nodes
  {
    hide Links, Reached, SingleEntries;
  }

  // ---- Making -----------------------------------------------------------------------------------

  // A directory comes with its marker, an empty file, and counts as a link of its parent.
  lemma MkdirEffect(s: State, d: nat, n: string)
    requires Shaped(s)
    ensures var t, r := Mkdir(s, d, n).0, Mkdir(s, d, n).1;
      && (|n| > 255 ==> r == Err(NameTooLong))
      && (|n| <= 255 && !Place(s.nodes, d, n) ==> r.Err? && NoPlace(s.nodes, d, n, r.error))
      && (r.Err? ==> t == s)
      && (|n| <= 255 && Place(s.nodes, d, n) ==>
            && r.Ok? && r.ino !in s.nodes && Child(t.nodes, r.ino, ".unisonkeep").Some?
            && var k := Child(t.nodes, r.ino, ".unisonkeep").value;
               && k !in s.nodes && k != r.ino && Kept(s.nodes, t.nodes, {}, {r.ino, k}, {d})
               && t.nodes[k] == Regular([], 1) && t.nodes[r.ino] == Dir(map[".unisonkeep" := k], 2)
               && t.nodes[d] == Dir(s.nodes[d].children[n := r.ino], s.nodes[d].nlink + 1))
  {
    FreshNumbers(s);
    hide Shaped;
  }

  // A file that is there is opened; a new one is empty.
  lemma CreateEffect(s: State, d: nat, n: string)
    requires Shaped(s)
    ensures var t, r := CreateFile(s, d, n).0, CreateFile(s, d, n).1;
      && (|n| > 255 ==> r == Err(NameTooLong))
      && (|n| <= 255 && Child(s.nodes, d, n).Some? ==> r == Ok(Child(s.nodes, d, n).value) && t == s)
      && (|n| <= 255 && !IsDir(s.nodes, d) ==> r == Err(if d in s.nodes then NotDirectory else NotFound))
      && (r.Err? ==> t == s)
      && (|n| <= 255 && Place(s.nodes, d, n) ==>
            && r.Ok? && r.ino !in s.nodes && Entered(s.nodes, t.nodes, d, n, r.ino)
            && Kept(s.nodes, t.nodes, {}, {r.ino}, {}) && t.nodes[r.ino] == Regular([], 1))
  {
    FreshNumbers(s);
    hide Shaped;
  }

  lemma SymlinkEffect(s: State, d: nat, n: string, target: string)
    requires Shaped(s)
    ensures var t, r := MakeSymlink(s, d, n, target).0, MakeSymlink(s, d, n, target).1;
      && (!Place(s.nodes, d, n) ==> r.Err? && NoPlace(s.nodes, d, n, r.error) && t == s)
      && (Place(s.nodes, d, n) ==>
            && r.Ok? && r.ino !in s.nodes && Entered(s.nodes, t.nodes, d, n, r.ino)
            && Kept(s.nodes, t.nodes, {}, {r.ino}, {}) && t.nodes[r.ino] == Symlink(target, 1))
  {
    FreshNumbers(s);
    hide Shaped;
  }

  // The same content, and so many links more.
  predicate MoreLinks(a: Node, b: Node, more: int) {
    b.nlink == a.nlink + more
    && match a
       case Regular(data, _) => b.Regular? && b.data == data
       case Symlink(target, _) => b.Symlink? && b.target == target
       case Dir(children, _) => b.Dir? && b.children == children
  }

  // One name more for a file, and one link.
  lemma LinkEffect(s: State, i: nat, d: nat, n: string)
    ensures var t, r := Link(s, i, d, n).0, Link(s, i, d, n).1;
      && (i !in s.nodes ==> r == Err(NotFound))
      && (IsDir(s.nodes, i) ==> r == Err(IsDirectory))
      && (i in s.nodes && !s.nodes[i].Dir? && !Place(s.nodes, d, n) ==> r.Err? && NoPlace(s.nodes, d, n, r.error))
      && (r.Err? ==> t == s)
      && (i in s.nodes && !s.nodes[i].Dir? && Place(s.nodes, d, n) ==>
            && r == Ok(i) && t.alloc == s.alloc && Entered(s.nodes, t.nodes, d, n, i)
            && Kept(s.nodes, t.nodes, {}, {}, {i}) && MoreLinks(s.nodes[i], t.nodes[i], 1))
  {
  }

  // ---- Taking away ------------------------------------------------------------------------------

  ghost predicate OnlyEntry(ns: Nodes, d: nat, n: string, i: nat) {
    forall e, m :: Child(ns, e, m) == Some(i) ==> e == d && m == n
  }

  // The last name of a file takes it along.
  lemma LastLink(s: State, d: nat, n: string, i: nat)
    requires Shaped(s) && Child(s.nodes, d, n) == Some(i) && !IsDir(s.nodes, i)
    ensures i in s.nodes && (s.nodes[i].nlink <= 1 <==> OnlyEntry(s.nodes, d, n, i)) && s.nodes[i].nlink >= 1
  {
    hide Reached;
    NonEmptyCount(s.nodes, i, d, n);
    if s.nodes[i].nlink <= 1 {
      SingleLink(s.nodes, i, d, n);
    } else if OnlyEntry(s.nodes, d, n, i) {
      LinksOne(s.nodes, i, d, n);
    }
  }

  lemma UnlinkedEffect(ns: Nodes, d: nat, n: string, i: nat)
    requires Child(ns, d, n) == Some(i) && i in ns && !ns[i].Dir?
    ensures var ms := Unlinked(ns, d, n, i);
      && Removed(ns, ms, d, n)
      && (ns[i].nlink <= 1 ==> Kept(ns, ms, {i}, {}, {}))
      && (ns[i].nlink > 1 ==> Kept(ns, ms, {}, {}, {i}) && MoreLinks(ns[i], ms[i], -1))
  {
  }

  lemma UnlinkEffect(s: State, d: nat, n: string)
    requires Shaped(s)
    ensures var t, r, c := Unlink(s, d, n).0, Unlink(s, d, n).1, Child(s.nodes, d, n);
      && (c.None? ==> r.Err? && NoEntry(s.nodes, d, n, r.error))
      && (c.Some? && IsDir(s.nodes, c.value) ==> r == Err(IsDirectory))
      && (r.Err? ==> t == s)
      && (c.Some? && !IsDir(s.nodes, c.value) ==>
            && r == Ok(c.value) && t.alloc == s.alloc && Removed(s.nodes, t.nodes, d, n)
            && var i := c.value;
               if OnlyEntry(s.nodes, d, n, i) then Kept(s.nodes, t.nodes, {i}, {}, {})
               else
                 && i in s.nodes && i in t.nodes && Kept(s.nodes, t.nodes, {}, {}, {i})
                 && MoreLinks(s.nodes[i], t.nodes[i], -1))
  {
    if Child(s.nodes, d, n).Some? {
      var i := Child(s.nodes, d, n).value;
      EntryIsLive(s, d, n);
      if !IsDir(s.nodes, i) {
        LastLink(s, d, n, i);
        UnlinkedEffect(s.nodes, d, n, i);
        assert Unlink(s, d, n) == (s.(nodes := Unlinked(s.nodes, d, n, i)), Ok(i));
        hide Shaped, OnlyEntry, Unlink, Unlinked, Removed, Kept, MoreLinks;
        assert s.nodes[i].nlink > 1 ==> i in Unlinked(s.nodes, d, n, i)
          by { StaysIn(s.nodes, Unlinked(s.nodes, d, n, i), i); }
      }
    }
    hide Shaped, OnlyEntry, Removed, Kept, MoreLinks;
  }

  lemma StaysIn(ns: Nodes, ms: Nodes, i: nat)
    requires i in ns
    ensures Kept(ns, ms, {}, {}, {i}) ==> i in ms
  {
  }

  // A directory that holds nothing, or only its marker, goes with its marker.
  ghost predicate Bare(ns: Nodes, i: nat) {
    forall m :: Child(ns, i, m).Some? ==> m == ".unisonkeep"
  }

  function MarkerOf(ns: Nodes, i: nat): set<nat> {
    match Child(ns, i, ".unisonkeep") case None => {} case Some(k) => {k}
  }

  lemma RmdirOutcome(s: State, d: nat, n: string, i: nat)
    requires Shaped(s) && Child(s.nodes, d, n) == Some(i) && IsDir(s.nodes, i)
    ensures IsDir(Bared(s.nodes, i), i) && i in s.nodes && d in s.nodes && s.nodes[d].Dir? && d != i
    ensures Child(s.nodes, i, KEEP).Some? ==>
      var k := Child(s.nodes, i, KEEP).value; k in s.nodes && !s.nodes[k].Dir? && k != i && k != d
    ensures Bared(s.nodes, i)[i].children == map[] <==> Bare(s.nodes, i)
    ensures Rmdir(s, d, n).1 == if Bare(s.nodes, i) then Ok(i) else Err(NotEmpty)
    ensures Bare(s.nodes, i) ==> Rmdir(s, d, n).0.alloc == s.alloc
  {
    EntryIsLive(s, d, n);
    NotUnderItself(s, d, n, i);
    if Child(s.nodes, i, KEEP).Some? { MarkerOnce(s, i, Child(s.nodes, i, KEEP).value); }
    hide Shaped, Bare;
    BareIff(s.nodes, i);
  }

  lemma BareIff(ns: Nodes, i: nat)
    requires IsDir(ns, i) && Child(ns, i, KEEP) != Some(i)
    ensures IsDir(Bared(ns, i), i) && (Bared(ns, i)[i].children == map[] <==> Bare(ns, i))
  {
    var left := Bared(ns, i)[i].children;
    assert forall m: string :: m in left <==> m in ns[i].children && m != KEEP;
    if left == map[] {
      forall m | Child(ns, i, m).Some? ensures m == KEEP {
        assert m !in left;
      }
    } else {
      var m :| m in left;
      assert Child(ns, i, m).Some?;
    }
  }

  // One that holds more stays, with a new marker in the place of its old one.
  lemma RmdirRefused(s: State, d: nat, n: string, i: nat)
    requires Shaped(s) && Child(s.nodes, d, n) == Some(i) && IsDir(s.nodes, i) && !Bare(s.nodes, i)
    ensures var t, r := Rmdir(s, d, n).0, Rmdir(s, d, n).1;
      && r == Err(NotEmpty)
      && (Child(s.nodes, i, ".unisonkeep").None? ==> t == s)
      && (Child(s.nodes, i, ".unisonkeep").Some? ==>
            && Child(t.nodes, i, ".unisonkeep").Some?
            && var k := Child(t.nodes, i, ".unisonkeep").value;
               && k !in s.nodes && k in t.nodes && t.nodes[k] == Regular([], 1)
               && Entered(s.nodes, t.nodes, i, ".unisonkeep", k)
               && Kept(s.nodes, t.nodes, MarkerOf(s.nodes, i), {k}, {}))
  {
    FreshNumbers(s);
    RmdirOutcome(s, d, n, i);
    if Child(s.nodes, i, KEEP).Some? {
      RmdirIs(s, d, n, i);
      hide Shaped, Bare, Rmdir;
      Remarked(s.nodes, i, Child(s.nodes, i, KEEP).value, s.alloc);
    } else {
      hide Shaped, Bare;
    }
  }

  lemma Remarked(ns: Nodes, i: nat, k: nat, a: nat)
    requires Child(ns, i, KEEP) == Some(k) && k in ns && !ns[k].Dir? && a !in ns && IsDir(ns, i) && i != k
    ensures var ms := Attach(Bared(ns, i)[a := Regular([], 1)], i, KEEP, a);
      && Child(ms, i, KEEP) == Some(a) && a in ms && ms[a] == Regular([], 1)
      && Entered(ns, ms, i, KEEP, a) && Kept(ns, ms, {k}, {a}, {})
  {
    assert IsDir(Bared(ns, i), i) && Bared(ns, i)[i].nlink == ns[i].nlink && a !in Bared(ns, i);
    BaredEntries(ns, i, k);
    MarkedEntries(Bared(ns, i), i, a);
    assert Attach(Bared(ns, i)[a := Regular([], 1)], i, KEEP, a)[a] == Regular([], 1);
    assert Attach(Bared(ns, i)[a := Regular([], 1)], i, KEEP, a)[i].nlink == ns[i].nlink;
    assert forall m :: Child(ns, k, m).None?;
    hide Bared, Attach, Child;
  }

  lemma RmdirRemoves(s: State, d: nat, n: string, i: nat)
    requires Shaped(s) && Child(s.nodes, d, n) == Some(i) && IsDir(s.nodes, i) && Bare(s.nodes, i)
    ensures var t, r := Rmdir(s, d, n).0, Rmdir(s, d, n).1;
      && r == Ok(i) && t.alloc == s.alloc && d in t.nodes && d in s.nodes
      && (forall e, m :: Child(t.nodes, e, m) == if e == i || (e == d && m == n) then None else Child(s.nodes, e, m))
      && Kept(s.nodes, t.nodes, {i} + MarkerOf(s.nodes, i), {}, {d})
      && t.nodes[d].Dir? && t.nodes[d].nlink == Max(0, s.nodes[d].nlink - 1)
  {
    RmdirOutcome(s, d, n, i);
    var ns: Nodes, bare: Nodes := s.nodes, Bared(s.nodes, i);
    var gone: Nodes := Detach(bare - {i}, d, n);
    assert IsDir(bare, d) && bare[d].nlink == ns[d].nlink && gone[d].nlink == ns[d].nlink;
    assert Rmdir(s, d, n).0.nodes == SetLinks(gone, d, Dec(gone[d].nlink)) by { hide Shaped, Bare; }
    hide Shaped, Rmdir;
    GoneEntries(bare, d, n, i, Dec(gone[d].nlink));
    assert SetLinks(gone, d, Dec(gone[d].nlink))[d].nlink == Max(0, ns[d].nlink - 1);
    BareGone(ns, SetLinks(gone, d, Dec(gone[d].nlink)), d, n, i);
  }

  lemma BareGone(ns: Nodes, ms: Nodes, d: nat, n: string, i: nat)
    requires IsDir(ns, i) && Bare(ns, i) && d != i && d in ns && ms.Keys == Bared(ns, i).Keys - {i}
    requires Child(ns, i, KEEP).Some? ==>
      var k := Child(ns, i, KEEP).value; k in ns && !ns[k].Dir? && k != i && k != d
    requires forall e, m :: Child(ms, e, m) == if e == i || (e == d && m == n) then None else Child(Bared(ns, i), e, m)
    requires forall j :: j in ms && j != d ==> ms[j] == Bared(ns, i)[j]
    ensures forall e, m :: Child(ms, e, m) == if e == i || (e == d && m == n) then None else Child(ns, e, m)
    ensures Kept(ns, ms, {i} + MarkerOf(ns, i), {}, {d})
  {
    if Child(ns, i, KEEP).Some? {
      var k := Child(ns, i, KEEP).value;
      BaredEntries(ns, i, k);
      assert forall m :: Child(ns, k, m).None?;
      hide Bared, Child;
    }
  }

  lemma RmdirAnswers(s: State, d: nat, n: string)
    requires Shaped(s)
    ensures var t, r, c := Rmdir(s, d, n).0, Rmdir(s, d, n).1, Child(s.nodes, d, n);
      && (c.None? ==> r.Err? && NoEntry(s.nodes, d, n, r.error) && t == s)
      && (c.Some? && !IsDir(s.nodes, c.value) ==> r == Err(NotDirectory) && t == s)
  {
    if Child(s.nodes, d, n).Some? { EntryIsLive(s, d, n); }
    hide Shaped;
  }

  // ---- Moving -------------------------------------------------------------------------------------

  ghost predicate Renamed(ns: Nodes, ms: Nodes, od: nat, on: string, nd: nat, nn: string, i: nat) {
    forall e, m :: Child(ms, e, m) ==
      if e == nd && m == nn then Some(i) else if e == od && m == on then None else Child(ns, e, m)
  }

  // To a free name, or onto itself.
  lemma MovedEffect(s: State, od: nat, on: string, nd: nat, nn: string, i: nat)
    requires Child(s.nodes, od, on) == Some(i) && IsDir(s.nodes, nd)
    requires Child(s.nodes, nd, nn).None? || (nd == od && nn == on)
    ensures var t, r := Rename(s, od, on, nd, nn).0, Rename(s, od, on, nd, nn).1;
      && r == Ok(i) && t.alloc == s.alloc && Renamed(s.nodes, t.nodes, od, on, nd, nn, i)
      && Kept(s.nodes, t.nodes, {}, {}, {})
  {
    assert Rename(s, od, on, nd, nn) == (s.(nodes := Moved(s.nodes, od, on, nd, nn, i)), Ok(i));
    hide Rename;
  }

  // Over a file: that one is unlinked, also where it is the same file.
  lemma MovedOver(s: State, od: nat, on: string, nd: nat, nn: string, i: nat, k: nat)
    requires Shaped(s) && Child(s.nodes, od, on) == Some(i) && Child(s.nodes, nd, nn) == Some(k) && !IsDir(s.nodes, k)
    requires !(nd == od && nn == on)
    ensures var t, r := Rename(s, od, on, nd, nn).0, Rename(s, od, on, nd, nn).1;
      && r == Ok(i) && t.alloc == s.alloc && Renamed(s.nodes, t.nodes, od, on, nd, nn, i)
      && if OnlyEntry(s.nodes, nd, nn, k) then Kept(s.nodes, t.nodes, {k}, {}, {})
         else
           && k in s.nodes && k in t.nodes && Kept(s.nodes, t.nodes, {}, {}, {k})
           && MoreLinks(s.nodes[k], t.nodes[k], -1)
  {
    EntryIsLive(s, nd, nn);
    LastLink(s, nd, nn, k);
    MovedAnswer(s, od, on, nd, nn, i, k);
    if k == i {
      RenameOntoSelf(s, od, on, nd, nn, i);
      UnlinkedEffect(s.nodes, od, on, i);
      hide Shaped, Rename, Unlinked, MoreLinks;
      StaysIn(s.nodes, Unlinked(s.nodes, od, on, i), i);
      assert !OnlyEntry(s.nodes, nd, nn, k) by { assert Child(s.nodes, od, on) == Some(k); }
    } else {
      RenameOverComposed(s, od, on, nd, nn, i, k);
      UnlinkedEffect(s.nodes, nd, nn, k);
      hide Shaped, Rename, Unlinked, OnlyEntry;
      MovedAfter(s.nodes, Unlinked(s.nodes, nd, nn, k), od, on, nd, nn, i, k);
    }
  }

  lemma MovedAnswer(s: State, od: nat, on: string, nd: nat, nn: string, i: nat, k: nat)
    requires Shaped(s) && Child(s.nodes, od, on) == Some(i) && Child(s.nodes, nd, nn) == Some(k) && !IsDir(s.nodes, k)
    ensures Rename(s, od, on, nd, nn).1 == Ok(i) && Rename(s, od, on, nd, nn).0.alloc == s.alloc
  {
    hide Shaped;
  }

  lemma MovedAfter(ns: Nodes, ms: Nodes, od: nat, on: string, nd: nat, nn: string, i: nat, k: nat)
    requires Child(ns, od, on) == Some(i) && Child(ns, nd, nn) == Some(k) && k in ns && !ns[k].Dir? && IsDir(ns, nd)
    requires !(nd == od && nn == on) && i != k && Removed(ns, ms, nd, nn)
    requires Kept(ns, ms, {k}, {}, {}) || (Kept(ns, ms, {}, {}, {k}) && MoreLinks(ns[k], ms[k], -1))
    ensures var os := Moved(ms, od, on, nd, nn, i);
      && Renamed(ns, os, od, on, nd, nn, i)
      && (Kept(ns, ms, {k}, {}, {}) ==> Kept(ns, os, {k}, {}, {}))
      && (Kept(ns, ms, {}, {}, {k}) && MoreLinks(ns[k], ms[k], -1) ==>
            Kept(ns, os, {}, {}, {k}) && MoreLinks(ns[k], os[k], -1))
  {
    assert Child(ms, od, on) == Some(i) && IsDir(ms, nd);
    MovedIsOneMoved(ms, od, on, nd, nn, i);
    MovedLinksKept(ms, od, on, nd, nn, i);
    hide Moved, Child;
  }

  lemma MovedLinksKept(ns: Nodes, od: nat, on: string, nd: nat, nn: string, i: nat)
    ensures forall j :: j in ns ==>
      j in Moved(ns, od, on, nd, nn, i) && Moved(ns, od, on, nd, nn, i)[j].nlink == ns[j].nlink
  {
  }

  // The entry is under its new name and no more under the old one. A file whose name it took
  // is unlinked; nothing else changes.
  lemma RenameEffect(s: State, od: nat, on: string, nd: nat, nn: string)
    requires Shaped(s) && RenameOk(s.nodes, od, on, nd, nn)
    ensures var t, r, c := Rename(s, od, on, nd, nn).0, Rename(s, od, on, nd, nn).1, Child(s.nodes, od, on);
      && (c.None? ==> r.Err? && NoEntry(s.nodes, od, on, r.error) && t == s)
      && (c.Some? ==>
            && r == Ok(c.value) && t.alloc == s.alloc && Renamed(s.nodes, t.nodes, od, on, nd, nn, c.value)
            && var over := Child(s.nodes, nd, nn);
               if over.None? || (nd == od && nn == on) then Kept(s.nodes, t.nodes, {}, {}, {})
               else if OnlyEntry(s.nodes, nd, nn, over.value) then Kept(s.nodes, t.nodes, {over.value}, {}, {})
               else
                 && over.value in s.nodes && over.value in t.nodes && Kept(s.nodes, t.nodes, {}, {}, {over.value})
                 && MoreLinks(s.nodes[over.value], t.nodes[over.value], -1))
  {
    if Child(s.nodes, od, on).Some? {
      var i := Child(s.nodes, od, on).value;
      if Child(s.nodes, nd, nn).None? || (nd == od && nn == on) {
        MovedEffect(s, od, on, nd, nn, i);
      } else {
        MovedOver(s, od, on, nd, nn, i, Child(s.nodes, nd, nn).value);
      }
      hide Shaped, Rename, Kept, Renamed, OnlyEntry, MoreLinks;
    }
    hide Shaped, Kept, Renamed, OnlyEntry, MoreLinks;
  }

  // To a parent that is no directory: the entry is gone, and the inode it named is not.
  lemma RenameToNowhere(s: State, od: nat, on: string, nd: nat, nn: string)
    requires Child(s.nodes, od, on).Some? && !IsDir(s.nodes, nd)
    ensures var t, r := Rename(s, od, on, nd, nn).0, Rename(s, od, on, nd, nn).1;
      && r == Err(if nd in s.nodes then NotDirectory else NotFound)
      && t.alloc == s.alloc && Removed(s.nodes, t.nodes, od, on) && Kept(s.nodes, t.nodes, {}, {}, {})
  {
    assert Child(Detach(s.nodes, od, on), nd, nn).None?;
    assert nd in s.nodes ==> !Detach(s.nodes, od, on)[nd].Dir?;
  }

  // ---- Contents ---------------------------------------------------------------------------------------

  // Writing and truncating change the bytes of one regular file, and leave everything else.
  lemma WriteEffect(s: State, i: nat, offset: nat, data: Bytes)
    ensures var t := MemRuns.Step(s, DoWrite(i, offset, data));
      && (!(i in s.nodes && s.nodes[i].Regular?) ==> t == s)
      && (i in s.nodes && s.nodes[i].Regular? ==>
            && t.alloc == s.alloc && Kept(s.nodes, t.nodes, {}, {}, {i})
            && (forall e, m :: Child(t.nodes, e, m) == Child(s.nodes, e, m))
            && t.nodes[i] == Regular(FlatWrite(s.nodes[i].data, offset, data), s.nodes[i].nlink))
  {
    hide FlatWrite;
  }

  lemma TruncateEffect(s: State, i: nat, size: nat)
    ensures var t := MemRuns.Step(s, DoTruncate(i, size));
      && (!(i in s.nodes && s.nodes[i].Regular?) ==> t == s)
      && (i in s.nodes && s.nodes[i].Regular? ==>
            && t.alloc == s.alloc && Kept(s.nodes, t.nodes, {}, {}, {i})
            && (forall e, m :: Child(t.nodes, e, m) == Child(s.nodes, e, m))
            && t.nodes[i] == Regular(FlatTruncate(s.nodes[i].data, size), s.nodes[i].nlink))
  {
    hide FlatTruncate;
  }
}
