// Paging through a directory (the `readdir` of mount/nfs.rs; section 3.3.16 of RFC 1813):
// the client asks for the entries after the last inode number it was given.
module NfsReaddir {
  import opened Basics

  datatype Entry = Entry(fileid: nat, name: string)

  // The entries after the first one numbered `startAfter`; all of them for 0.
  function From(entries: seq<Entry>, startAfter: nat): seq<Entry> {
    if startAfter == 0 then entries
    else if entries == [] then []
    else if entries[0].fileid == startAfter then entries[1..]
    else From(entries[1..], startAfter)
  }

  lemma FromStep(entries: seq<Entry>, i: nat, startAfter: nat)
    requires i < |entries|
    ensures entries[i..][1..] == entries[i + 1..]
    ensures startAfter != 0 ==>
      From(entries[i..], startAfter) == if entries[i].fileid
        == startAfter then entries[i + 1..] else From(entries[i + 1..], startAfter)
  {
  }

  lemma FromEnds(entries: seq<Entry>, startAfter: nat)
    ensures From(entries, 0) == entries && From(entries[|entries|..], startAfter) == []
  {
  }

  lemma PageStep(rest: seq<Entry>, n: nat, tail: seq<Entry>)
    requires n <= |rest| && rest[n..] == tail && tail != []
    ensures n < |rest| && rest[..n] + [tail[0]] == rest[..n + 1] && tail[1..] == rest[n + 1..]
  {
    assert rest[n] == tail[0];
  }

  // One call: at most `maxEntries` of them, and whether that was the end.
  method Readdir(entries: seq<Entry>, startAfter: nat, maxEntries: nat) returns (page: seq<Entry>, end: bool)
    ensures page == From(entries, startAfter)[..Min(maxEntries, |From(entries, startAfter)|)]
    ensures end <==> |From(entries, startAfter)| < maxEntries
  {
    hide From;
    page := [];
    var skipping := startAfter != 0;
    var i := 0;
    assert entries[0..] == entries;
    ghost var rest := From(entries, startAfter);
    FromEnds(entries, startAfter);
    while i < |entries|
      invariant 0 <= i <= |entries|
      invariant skipping ==> startAfter != 0 && page == [] && From(entries[i..], startAfter) == rest
      invariant !skipping ==>
        |page| <= Min(maxEntries, |rest|) && page == rest[..|page|] && entries[i..] == rest[|page|..]
    {
      FromStep(entries, i, startAfter);
      if skipping {
        if entries[i].fileid == startAfter {
          skipping := false;
        }
        i := i + 1;
        continue;
      }
      if |page| >= maxEntries {
        break;
      }
      PageStep(rest, |page|, entries[i..]);
      page := page + [entries[i]];
      i := i + 1;
    }
    end := |page| < maxEntries;
  }

  ghost predicate Distinct(entries: seq<Entry>) {
    && (forall i :: 0 <= i < |entries| ==> entries[i].fileid != 0)
    && (forall i, j :: 0 <= i < j < |entries| ==> entries[i].fileid != entries[j].fileid)
  }

  // Where the number of entry `k` is first met.
  lemma {:induction false} FromFirst(entries: seq<Entry>, k: nat)
    requires k < |entries| && entries[k].fileid != 0
    requires forall j :: 0 <= j < k ==> entries[j].fileid != entries[k].fileid
    ensures From(entries, entries[k].fileid) == entries[k + 1..]
    decreases k
  {
    if k > 0 {
      FromFirst(entries[1..], k - 1);
      assert entries[1..][k..] == entries[k + 1..];
    }
  }

  // The number of entry `k` is not 0, and no earlier entry has it.
  predicate Resumes(entries: seq<Entry>, k: nat)
    requires k < |entries|
  {
    entries[k].fileid != 0 && forall j :: 0 <= j < k ==> entries[j].fileid != entries[k].fileid
  }

  // Continuing after entry `k` resumes with the next one if and only if that is so.
  lemma ResumesIff(entries: seq<Entry>, k: nat)
    requires k < |entries|
    ensures From(entries, entries[k].fileid) == entries[k + 1..] <==> Resumes(entries, k)
  {
    if entries[k].fileid != 0 {
      var f := FirstOf(entries, entries[k].fileid, k);
      FromFirst(entries, f);
      assert |entries[f + 1..]| == |entries| - f - 1;
    }
  }

  // After a number that is not listed, say of an entry removed meanwhile, nothing is left.
  lemma {:induction false} FromMissing(entries: seq<Entry>, startAfter: nat)
    requires startAfter != 0 && forall j :: 0 <= j < |entries| ==> entries[j].fileid != startAfter
    ensures From(entries, startAfter) == []
  {
    if entries != [] {
      FromMissing(entries[1..], startAfter);
    }
  }

  lemma {:induction false} FirstOf(entries: seq<Entry>, id: nat, k: nat) returns (f: nat)
    requires k < |entries| && entries[k].fileid == id
    ensures f <= k && entries[f].fileid == id && forall j :: 0 <= j < f ==> entries[j].fileid != id
    decreases k
  {
    f := k;
    if j :| 0 <= j < k && entries[j].fileid == id {
      f := FirstOf(entries, id, j);
    }
  }

  // ---- Paging to the end -----------------------------------------------------------------------

  // What a client has been given so far, and whether it was told that this was the end.
  datatype Client = Client(all: seq<Entry>, done: bool)

  // Where it goes on: after the last entry it was given.
  function Next(all: seq<Entry>): nat { if all == [] then 0 else all[|all| - 1].fileid }

  // The client after so many calls for pages of `m` entries.
  function Paging(entries: seq<Entry>, m: nat, calls: nat): Client {
    if calls == 0 then Client([], false)
    else
      var c := Paging(entries, m, calls - 1);
      if c.done then c
      else
        var rest := From(entries, Next(c.all));
        Client(c.all + rest[..Min(m, |rest|)], |rest| < m)
  }

  // The last entry of every full page resumes.
  predicate PageEndsResume(entries: seq<Entry>, m: nat)
    requires m >= 1
  {
    forall k :: 0 <= k < |entries| && (k + 1) % m == 0 ==> Resumes(entries, k)
  }

  lemma NextPage(a: nat, m: nat)
    requires m >= 1 && a % m == 0
    ensures (a + m) % m == 0
    ensures forall b :: a < b < a + m ==> b % m != 0
  {
    var q := a / m;
    assert a == m * q;
    assert a + m == m * (q + 1) + 0;
    ModIs(a + m, m, q + 1, 0);
    forall b | a < b < a + m ensures b % m != 0 {
      ModIs(b, m, q, b - a);
    }
  }

  lemma ModIs(b: nat, m: nat, q: nat, r: nat)
    requires m >= 1 && b == m * q + r && r < m
    ensures b % m == r
  {
    var d := b / m - q;
    assert m * d == r - b % m;
    MulSign(m, d);
  }

  lemma MulSign(m: int, d: int)
    requires m >= 1
    ensures d >= 1 ==> m * d >= m
    ensures d <= -1 ==> m * d <= -m
  {
  }

  lemma NextAfter(all: seq<Entry>, page: seq<Entry>)
    ensures Next(all + page) == if page == [] then Next(all) else page[|page| - 1].fileid
    ensures Next([]) == 0
  {
    assert page == [] ==> all + page == all;
  }

  lemma FromAfter(entries: seq<Entry>, n: nat, m: nat)
    requires m >= 1 && PageEndsResume(entries, m) && n <= |entries| && n % m == 0
    ensures From(entries, Next(entries[..n])) == entries[n..]
  {
    if n > 0 {
      assert (n - 1 + 1) % m == 0;
      assert Resumes(entries, n - 1);
      hide From, Resumes;
      ResumesIff(entries, n - 1);
    } else {
      assert entries[..0] == [] && entries[0..] == entries;
    }
  }

  lemma PageJoins(entries: seq<Entry>, n: nat, m: nat)
    requires n <= |entries|
    ensures var page := entries[n..][..Min(m, |entries| - n)];
      && entries[..n] + page == entries[..n + |page|]
      && (|entries| - n < m ==> entries[..n] + page == entries)
  {
  }

  // The call after `n` entries, a multiple of the page size, gets the ones that come next.
  lemma NextCall(entries: seq<Entry>, n: nat, m: nat)
    requires m >= 1 && PageEndsResume(entries, m) && n <= |entries| && n % m == 0
    ensures var rest := From(entries, Next(entries[..n])); var page := rest[..Min(m, |rest|)];
      && rest == entries[n..] && entries[..n] + page == entries[..n + |page|]
      && (|rest| >= m ==> (n + |page|) % m == 0)
      && (|rest| < m ==> entries[..n] + page == entries)
  {
    hide From, Next, PageEndsResume;
    FromAfter(entries, n, m);
    NextPage(n, m);
    PageJoins(entries, n, m);
  }

  // A client that goes on from the last entry it was given until it is told to stop ends
  // up with exactly the listing.
  method ListAll(entries: seq<Entry>, maxEntries: nat) returns (all: seq<Entry>)
    requires maxEntries >= 1 && PageEndsResume(entries, maxEntries)
    ensures all == entries
  {
    hide From, PageEndsResume, Next;
    all := [];
    var end := false;
    var startAfter := 0;
    NextAfter([], []);
    assert entries[..0] == [];
    while !end
      invariant |all| <= |entries| && all == entries[..|all|]
      invariant !end ==> |all| % maxEntries == 0
      invariant startAfter == Next(all)
      invariant end ==> all == entries
      decreases !end, |entries| - |all|
    {
      NextCall(entries, |all|, maxEntries);
      var page;
      page, end := Readdir(entries, startAfter, maxEntries);
      NextAfter(all, page);
      all := all + page;
      if page != [] {
        startAfter := page[|page| - 1].fileid;
      }
    }
  }

  // For distinct numbers other than 0 that holds for pages of any size, and for no other
  // listing does it: pages of one entry need them all.
  lemma DistinctIff(entries: seq<Entry>)
    ensures Distinct(entries) <==> forall m :: m >= 1 ==> PageEndsResume(entries, m)
    ensures Distinct(entries) <==> PageEndsResume(entries, 1)
  {
    if PageEndsResume(entries, 1) {
      forall k | 0 <= k < |entries| ensures Resumes(entries, k) {
        assert (k + 1) % 1 == 0;
      }
      forall i, j | 0 <= i < j < |entries| ensures entries[i].fileid != entries[j].fileid {
        assert Resumes(entries, j);
      }
      forall i | 0 <= i < |entries| ensures entries[i].fileid != 0 {
        assert Resumes(entries, i);
      }
    }
  }

  // The last entry it was given is the one before.
  predicate At(entries: seq<Entry>, all: seq<Entry>, pos: nat)
    requires pos <= |entries|
  {
    (pos == 0 <==> all == []) && (pos > 0 ==> Next(all) == entries[pos - 1].fileid)
  }

  // A client that is not done stands at a place of the listing: it has been given at least
  // as many entries as lie before that place, and if not more, then just those.
  ghost predicate Stands(entries: seq<Entry>, m: nat, all: seq<Entry>, pos: nat)
    requires m >= 1
  {
    && pos <= |entries| && pos <= |all| && |all| % m == 0
    && At(entries, all, pos)
    && (pos == |all| ==>
          all == entries[..pos] && forall k :: 0 <= k < pos - 1 && (k + 1) % m == 0 ==> Resumes(entries, k))
  }

  // It goes on no further on than that, and just there only if the entry before resumes.
  lemma GoesOn(entries: seq<Entry>, all: seq<Entry>, p: nat) returns (f: nat)
    requires p <= |entries| && At(entries, all, p)
    ensures f <= p && From(entries, Next(all)) == entries[f..]
    ensures f == p <==> p == 0 || Resumes(entries, p - 1)
  {
    f := 0;
    if p > 0 {
      ResumesIff(entries, p - 1);
      if entries[p - 1].fileid != 0 {
        var g := FirstOf(entries, entries[p - 1].fileid, p - 1);
        FromFirst(entries, g);
        f := g + 1;
      }
    }
  }

  lemma StandsNext(entries: seq<Entry>, m: nat, all: seq<Entry>, p: nat, f: nat)
    requires m >= 1 && Stands(entries, m, all, p) && f <= p && f + m <= |entries|
    requires f == p <==> p == 0 || Resumes(entries, p - 1)
    ensures Stands(entries, m, all + entries[f..f + m], f + m)
  {
    hide Resumes;
    var next := all + entries[f..f + m];
    NextPage(|all|, m);
    assert next[|next| - 1] == entries[f + m - 1];
    if f == |all| {
      assert entries[..p] + entries[p..p + m] == entries[..p + m];
    }
  }

  lemma {:induction false} Standing(entries: seq<Entry>, m: nat, calls: nat) returns (pos: nat)
    requires m >= 1 && !Paging(entries, m, calls).done
    ensures Stands(entries, m, Paging(entries, m, calls).all, pos)
    decreases calls
  {
    hide Resumes, From;
    pos := 0;
    if calls > 0 {
      var p := Standing(entries, m, calls - 1);
      var all := Paging(entries, m, calls - 1).all;
      var f := GoesOn(entries, all, p);
      pos := f + m;
      assert entries[f..][..m] == entries[f..f + m];
      StandsNext(entries, m, all, p, f);
    }
  }

  // A client that was told to stop has the whole listing at least, and nothing more if and
  // only if every full page ended on an entry that resumes.
  lemma {:induction false} PagingEnds(entries: seq<Entry>, m: nat, calls: nat)
    requires m >= 1 && Paging(entries, m, calls).done
    ensures |Paging(entries, m, calls).all| >= |entries|
    ensures |Paging(entries, m, calls).all| == |entries| ==>
      Paging(entries, m, calls).all == entries && PageEndsResume(entries, m)
    decreases calls
  {
    if Paging(entries, m, calls - 1).done {
      PagingEnds(entries, m, calls - 1);
    } else {
      var p := Standing(entries, m, calls - 1);
      var all := Paging(entries, m, calls - 1).all;
      var f := GoesOn(entries, all, p);
      hide From, Resumes, Next;
      if |all| + (|entries| - f) == |entries| {
        assert entries[..p] + entries[p..] == entries;
        NextPage(p, m);
        forall k | 0 <= k < |entries| && (k + 1) % m == 0 ensures Resumes(entries, k) {
          assert k + 1 <= p;
        }
      }
    }
  }

  lemma OneCall(entries: seq<Entry>, m: nat, calls: nat)
    requires !Paging(entries, m, calls).done
    ensures var all := Paging(entries, m, calls).all; var rest := From(entries, Next(all));
      Paging(entries, m, calls + 1) == Client(all + rest[..Min(m, |rest|)], |rest| < m)
  {
    hide From, Next;
  }

  lemma {:induction false} PagingGetsThere(entries: seq<Entry>, m: nat, calls: nat) returns (n: nat)
    requires m >= 1 && PageEndsResume(entries, m)
    requires var c := Paging(entries, m, calls);
      !c.done && |c.all| <= |entries| && c.all == entries[..|c.all|] && |c.all| % m == 0
    ensures Paging(entries, m, n) == Client(entries, true)
    decreases |entries| - |Paging(entries, m, calls).all|
  {
    hide From, Next, PageEndsResume, Paging;
    var all := Paging(entries, m, calls).all;
    OneCall(entries, m, calls);
    NextCall(entries, |all|, m);
    if |From(entries, Next(all))| < m {
      n := calls + 1;
    } else {
      n := PagingGetsThere(entries, m, calls + 1);
    }
  }

  // For any listing and any page size: paging ends with exactly the listing if and only if
  // every full page ends on an entry whose number is not 0 and not that of an earlier one.
  // Otherwise it ends with more than the listing, or never.
  lemma PagingIff(entries: seq<Entry>, m: nat)
    requires m >= 1
    ensures (exists n :: Paging(entries, m, n) == Client(entries, true)) <==> PageEndsResume(entries, m)
    ensures forall n :: Paging(entries, m, n).done && !PageEndsResume(entries, m) ==>
      |Paging(entries, m, n).all| > |entries|
  {
    hide PageEndsResume;
    forall n | Paging(entries, m, n).done
      ensures Paging(entries, m, n).all == entries ==> PageEndsResume(entries, m)
      ensures !PageEndsResume(entries, m) ==> |Paging(entries, m, n).all| > |entries|
    {
      PagingEnds(entries, m, n);
    }
    if PageEndsResume(entries, m) {
      var n := PagingGetsThere(entries, m, 0);
    }
  }

  // ---- Pages of one entry ----------------------------------------------------------------------

  // A client that asks for one entry at a time never gets past one that does not resume.
  lemma {:induction false} Circles(entries: seq<Entry>, k: nat, calls: nat) returns (pos: nat)
    requires k < |entries| && !Resumes(entries, k)
    ensures var c := Paging(entries, 1, calls);
      !c.done && pos <= k + 1 && At(entries, c.all, pos)
    decreases calls
  {
    hide Resumes, From;
    pos := 0;
    if calls > 0 {
      var p := Circles(entries, k, calls - 1);
      var all := Paging(entries, 1, calls - 1).all;
      var f := GoesOn(entries, all, p);
      assert From(entries, Next(all))[..1] == [entries[f]];
      pos := f + 1;
    }
  }

  // So with pages of one entry, paging ends at all if and only if the numbers are distinct
  // and none is 0: two hard links of one file in a directory keep such a client going.
  lemma OneByOneEndsIff(entries: seq<Entry>)
    ensures (exists n :: Paging(entries, 1, n).done) <==> Distinct(entries)
  {
    DistinctIff(entries);
    PagingIff(entries, 1);
    if n :| Paging(entries, 1, n).done && !Distinct(entries) {
      var k :| 0 <= k < |entries| && (k + 1) % 1 == 0 && !Resumes(entries, k);
      var _ := Circles(entries, k, n);
    }
  }

  // A listing with two links of one inode, at three page sizes: with pages of one entry the
  // client circles, with pages of two it gets the listing, with pages of three it is given
  // the entries after the first link once more.
  lemma HardLinks(a: Entry, b: Entry, again: Entry)
    requires a.fileid == again.fileid && a.fileid != 0 && b.fileid != 0 && a.fileid != b.fileid
    ensures var entries := [a, b, again];
      && (forall n :: !Paging(entries, 1, n).done)
      && Paging(entries, 2, 2) == Client(entries, true)
      && Paging(entries, 3, 2) == Client(entries + [b, again], true)
  {
    var entries := [a, b, again];
    assert !Distinct(entries) by { assert entries[0].fileid == entries[2].fileid; }
    OneByOneEndsIff(entries);
    FromFirst(entries, 0);
    FromFirst(entries, 1);
    assert Paging(entries, 2, 1) == Client([a, b], false);
    assert Paging(entries, 3, 1) == Client(entries, false);
    assert entries[1..] == [b, again];
  }
}
