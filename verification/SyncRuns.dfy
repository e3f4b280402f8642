// What the protocol of `Sync` guarantees over whole runs, and what it does not.
module SyncRuns {
  import opened Basics
  import opened Calendar
  import opened ChunkStore
  import opened PushQueue
  import opened Pull
  import opened Sync

  // ---- No silent divergence ---------------------------------------------------------------------

  // At no pull step of the run does the harmful coincidence hold.
  ghost predicate Careful(s: Sys, steps: seq<Step>) {
    forall i :: 0 <= i < |steps| && steps[i].PullDoc? ==> !LosesNews(Run(s, steps[..i]))
  }

  ghost predicate ServerOk(server: map<Path, Remote>, top: string) {
    forall p :: p in server ==> StrLe(server[p].at, top) && server[p].at != ""
  }

  lemma CarefulFront(s: Sys, steps: seq<Step>)
    requires steps != [] && Careful(s, steps)
    ensures Careful(s, steps[..|steps| - 1])
  {
    var front := steps[..|steps| - 1];
    forall i | 0 <= i < |front| && front[i].PullDoc? ensures !LosesNews(Run(s, front[..i])) {
      assert front[..i] == steps[..i];
    }
  }

  lemma {:induction false} RunSafe(s: Sys, steps: seq<Step>)
    requires Inv(s) && Careful(s, steps)
    ensures Inv(Run(s, steps))
  {
    hide Inv, Apply, LosesNews;
    if steps != [] {
      var n := |steps| - 1;
      CarefulFront(s, steps);
      RunSafe(s, steps[..n]);
      StepSafe(Run(s, steps[..n]), steps[n]);
    }
  }

  lemma SettledPathsAgree(s: Sys)
    requires NoSilentDivergence(s)
    ensures forall p :: p !in s.rows && p !in s.unflushed && (p in s.server ==> StrLe(s.server[p].at, s.mark)) ==>
      (p in s.local <==> p in s.server) && (p in s.local && p in s.server ==> s.local[p] == s.server[p].body)
  {
    forall p | p !in s.rows && p !in s.unflushed && (p in s.server ==> StrLe(s.server[p].at, s.mark))
      ensures !Diverges(s, p)
    {
      if p in s.server { StrLtTotal(s.server[p].at, s.mark); }
    }
  }

  // From an empty cache, whatever the server holds: in every careful run, a path whose
  // local and server bytes differ is in the queue, has unflushed edits, or is above the
  // watermark on the server.
  lemma NothingDivergesSilently(server: map<Path, Remote>, top: string, steps: seq<Step>)
    requires ServerOk(server, top) && Careful(Init(server, top), steps)
    ensures NoSilentDivergence(Run(Init(server, top), steps))
    ensures var s := Run(Init(server, top), steps);
      forall p :: p !in s.rows && p !in s.unflushed && (p in s.server ==> StrLe(s.server[p].at, s.mark)) ==>
        (p in s.local <==> p in s.server) && (p in s.local && p in s.server ==> s.local[p] == s.server[p].body)
  {
    hide Inv, Apply, Run, NoSilentDivergence, Careful, StrLt;
    InvInit(server, top);
    RunSafe(Init(server, top), steps);
    InvMeansNoSilentDivergence(Run(Init(server, top), steps));
    SettledPathsAgree(Run(Init(server, top), steps));
  }

  // Runs whose pull steps never fall between sending and settling a push are careful: so
  // are all runs in which a push iteration is one step.
  lemma AtomicPushesAreCareful(s: Sys, steps: seq<Step>)
    requires forall i :: 0 <= i < |steps| && steps[i].PullDoc? ==> forall p :: !Outstanding(Run(s, steps[..i]), p)
    ensures Careful(s, steps)
  {
    hide Run;
    forall i | 0 <= i < |steps| && steps[i].PullDoc? ensures !LosesNews(Run(s, steps[..i])) {
      var t := Run(s, steps[..i]);
      assert Pulls(t) ==> !Outstanding(t, t.pull.value.todo[0].path);
    }
  }

  // The condition is exact, step by step.
  lemma PullKeepsSafeIff(s: Sys)
    requires Inv(s) && Enabled(s, PullDoc)
    ensures Inv(Apply(s, PullDoc)) <==> !LosesNews(s)
  {
    if !LosesNews(s) {
      StepSafe(s, PullDoc);
    } else {
      LostNewsUnsafe(s);
    }
  }

  lemma LostNewsUnsafe(s: Sys)
    requires Inv(s) && LosesNews(s)
    ensures !PathSafe(Reconcile(s), s.pull.value.todo[0].path)
  {
    hide StrLt, Skipped, Protected, Beyond;
    var todo := s.pull.value.todo;
    RestDistinct(todo);
    assert !ToCome(Reconcile(s).pull.value, todo[0].path, todo[0].updatedAt);
  }

  predicate Applies(s: Sys, d: Listed)
    requires s.pull.Some?
  {
    !Skipped(d, s.pull.value.since) && !Protected(s, d)
  }

  // What becomes of it, if nobody else interferes: the rest of the listing is worked
  // through, the push settles, and the pull finishes. The watermark is then past the
  // document if one as new was applied before, or is one the rest of the listing applies.
  ghost predicate PassedBy(s: Sys, at: string)
    requires s.pull.Some?
  {
    StrLe(at, s.pull.value.newest) || exists d :: d in s.pull.value.todo && Applies(s, d) && StrLe(at, d.updatedAt)
  }

  function RestOfPull(n: nat): seq<Step> { seq(n, i => PullDoc) }

  // All that matters of the path `p` and the queue is as it was.
  predicate Untouched(s: Sys, t: Sys, p: Path) {
    && t.rows == s.rows && t.held == s.held && t.unflushed == s.unflushed && t.server == s.server && t.mark == s.mark
    && (p in t.local <==> p in s.local) && (p in s.local && p in t.local ==> t.local[p] == s.local[p])
  }

  // One document of another path.
  lemma OneDocOn(s: Sys, p: Path)
    requires Pulls(s) && s.pull.value.todo[0].path != p
    ensures Untouched(s, Reconcile(s), p) && Reconcile(s).pull.Some?
      && Reconcile(s).pull.value.todo == s.pull.value.todo[1..]
  {
    hide StrLt, Skipped, Outdated;
  }

  // Documents still to come are not affected.
  lemma StillApplies(s: Sys, d: Listed)
    requires Pulls(s) && d.path != s.pull.value.todo[0].path
    ensures Applies(Reconcile(s), d) <==> Applies(s, d)
  {
    hide StrLt, Skipped, Outdated;
  }

  lemma StillPassedBy(s: Sys, at: string)
    requires Pulls(s) && DistinctPaths(s.pull.value.todo)
    ensures PassedBy(Reconcile(s), at) <==> PassedBy(s, at)
  {
    var t, todo, newest := Reconcile(s), s.pull.value.todo, s.pull.value.newest;
    NewestGrows(newest, todo[0].updatedAt, at);
    RestDistinct(todo);
    assert t.pull.value.newest ==
      if Applies(s, todo[0]) && StrLt(newest, todo[0].updatedAt) then todo[0].updatedAt else newest;
    assert t.pull.value.todo == todo[1..] && todo[0] in todo;
    hide StrLt, Skipped, Protected, DistinctPaths, Reconcile;
    forall d | d in todo[1..] ensures Applies(t, d) <==> Applies(s, d) {
      StillApplies(s, d);
    }
    hide Applies;
    if PassedBy(s, at) && !StrLe(at, newest) {
      var d :| d in todo && Applies(s, d) && StrLe(at, d.updatedAt);
      assert d != todo[0] ==> d in t.pull.value.todo && Applies(t, d);
    }
    if PassedBy(t, at) && !StrLe(at, t.pull.value.newest) {
      var d :| d in todo[1..] && Applies(t, d) && StrLe(at, d.updatedAt);
      assert d in todo && Applies(s, d);
    }
  }

  lemma NewestGrows(newest: string, next: string, at: string)
    ensures var n := if StrLt(newest, next) then next else newest;
      (StrLe(at, n) ==> StrLe(at, newest) || n == next) && (StrLe(at, newest) || StrLe(at, next) ==> StrLe(at, n))
  {
    StrOrder();
    hide StrLt;
  }

  lemma {:induction false} RestOfPullDone(s: Sys, p: Path, at: string)
    requires s.pull.Some? && DistinctPaths(s.pull.value.todo)
    requires forall d :: d in s.pull.value.todo ==> d.path != p
    ensures var t := Run(s, RestOfPull(|s.pull.value.todo|));
      Untouched(s, t, p) && t.pull.Some? && t.pull.value.todo == []
        && (StrLe(at, t.pull.value.newest) <==> PassedBy(s, at))
    decreases |s.pull.value.todo|
  {
    hide StrLt, Reconcile, Run, PassedBy;
    var todo := s.pull.value.todo;
    if todo == [] {
      NothingToCome(s, at);
      assert RestOfPull(0) == [];
      assert Run(s, []) == s by { RunNothing(s); }
    } else {
      assert todo[0] in todo;
      OneDocOn(s, p);
      StillPassedBy(s, at);
      RestDistinct(todo);
      RestOfPullDone(Reconcile(s), p, at);
      assert RestOfPull(|todo|) == [PullDoc] + RestOfPull(|todo| - 1);
      RunConcat(s, [PullDoc], RestOfPull(|todo| - 1));
      PullDocIs(s);
    }
  }

  lemma RunNothing(s: Sys)
    ensures Run(s, []) == s
  {
  }

  lemma NothingToCome(s: Sys, at: string)
    requires s.pull.Some? && s.pull.value.todo == []
    ensures PassedBy(s, at) <==> StrLe(at, s.pull.value.newest)
  {
  }

  // The path differs, and nothing is going to find out.
  predicate SilentAt(s: Sys, p: Path) {
    Diverges(s, p) && p !in s.rows && p !in s.unflushed && !(p in s.server && StrLt(s.mark, s.server[p].at))
  }

  // After the coincidence the undisturbed run ends with that document diverging silently if
  // and only if a document at least as new was applied by then.
  lemma LostNewsDivergesIff(s: Sys)
    requires Inv(s) && LosesNews(s)
    ensures var p, at := s.pull.value.todo[0].path, s.pull.value.todo[0].updatedAt;
      var t := Run(s, RestOfPull(|s.pull.value.todo|) + [Settle(p), FinishPull]);
      && (SilentAt(t, p) <==> PassedBy(s, at))
      && (PassedBy(s, at) ==> !NoSilentDivergence(t))
  {
    hide StrLt, Reconcile, Run, Inv, LosesNews, PassedBy, NoSilentDivergence, Apply, Diverges, Newer, Outstanding,
      SilentAt;
    assert Pulls(s) by { HasPull(s); }
    var n, p, at := |s.pull.value.todo|, s.pull.value.todo[0].path, s.pull.value.todo[0].updatedAt;
    var u := Run(s, RestOfPull(n));
    WorkedThrough(s);
    RunConcat(s, RestOfPull(n), [Settle(p), FinishPull]);
    Two(u, Settle(p), FinishPull);
    SettleThenFinish(u, p, at);
    assert SilentAt(Apply(Apply(u, Settle(p)), FinishPull), p) <==> PassedBy(s, at)
      by { SilentMeans(Apply(Apply(u, Settle(p)), FinishPull), p); }
    if PassedBy(s, at) { DivergesSilently(Apply(Apply(u, Settle(p)), FinishPull), p); }
  }

  lemma SilentMeans(s: Sys, p: Path)
    requires Diverges(s, p) && p !in s.rows && p !in s.unflushed && p in s.server
    ensures SilentAt(s, p) <==> !StrLt(s.mark, s.server[p].at)
  {
  }

  lemma HasPull(s: Sys)
    requires LosesNews(s)
    ensures Pulls(s)
  {
  }

  // The document passed over does not count among those applied.
  lemma WorkedThrough(s: Sys)
    requires Inv(s) && LosesNews(s)
    ensures var p, at, u := s.pull.value.todo[0].path, s.pull.value.todo[0].updatedAt,
      Run(s, RestOfPull(|s.pull.value.todo|));
      && Outstanding(u, p) && p in u.rows && !Newer(u, p) && Diverges(u, p) && p in u.server && u.server[p].at == at
        && at != ""
      && u.pull.Some? && u.pull.value.todo == [] && StrLt(u.mark, at)
      && (StrLe(at, u.pull.value.newest) <==> PassedBy(s, at))
  {
    hide StrLt, Reconcile, Run, Inv, LosesNews, PassedBy;
    assert Pulls(s) by { HasPull(s); }
    var n, p, at := |s.pull.value.todo|, s.pull.value.todo[0].path, s.pull.value.todo[0].updatedAt;
    LostNewsFacts(s);
    RestDistinct(s.pull.value.todo);
    StillPassedBy(s, at);
    RestOfPullDone(Reconcile(s), p, at);
    assert RestOfPull(n) == [PullDoc] + RestOfPull(n - 1);
    RunConcat(s, [PullDoc], RestOfPull(n - 1));
    PullDocIs(s);
  }

  lemma PullDocIs(s: Sys)
    requires Pulls(s)
    ensures Run(s, [PullDoc]) == Reconcile(s)
  {
    hide Reconcile;
    One(s, PullDoc);
  }

  // What the coincidence says of the document passed over.
  lemma LostNewsFacts(s: Sys)
    requires Inv(s) && LosesNews(s)
    ensures var p, at, t := s.pull.value.todo[0].path, s.pull.value.todo[0].updatedAt, Reconcile(s);
      && DistinctPaths(s.pull.value.todo) && at != "" && StrLt(s.mark, at)
      && p in s.server && s.server[p].at == at && Diverges(s, p) && !Newer(s, p) && Outstanding(s, p) && p in s.rows
      && t.pull.Some? && t.pull.value.todo == s.pull.value.todo[1..] && Untouched(s, t, p)
  {
    hide StrLt, Skipped, Protected, Beyond;
    assert PathSafe(s, s.pull.value.todo[0].path);
  }

  // The push settles and its row is gone, and the pull finishes.
  lemma SettleThenFinish(s: Sys, p: Path, at: string)
    requires Outstanding(s, p) && p in s.rows && !Newer(s, p) && Diverges(s, p)
    requires p in s.server && s.server[p].at == at && StrLt(s.mark, at)
    requires s.pull.Some? && s.pull.value.todo == []
    ensures var t := Apply(Apply(s, Settle(p)), FinishPull);
      && Diverges(t, p) && p !in t.rows && p !in t.unflushed && p in t.server && t.server[p].at == at
      && (StrLe(at, s.pull.value.newest) <==> !StrLt(t.mark, at))
  {
    StrOrder();
    hide StrLt;
  }

  // ---- Convergence ----------------------------------------------------------------------------

  // Nothing queued, nothing unflushed, no pull under way.
  predicate Quiet(s: Sys) { s.rows == map[] && s.unflushed == {} && s.pull.None? }

  // A fresh delta or full pull, uninterrupted.
  function PullSteps(listing: seq<Listed>, full: bool): seq<Step> {
    [BeginPull(listing, full)] + seq(|listing|, i => PullDoc) + [FinishPull]
  }

  // Reconciling `n` documents of a fresh listing while nothing else happens.
  ghost function Pulled(s: Sys, listing: seq<Listed>, full: bool, n: nat): Sys {
    if n == 0 then Apply(s, BeginPull(listing, full)) else Apply(Pulled(s, listing, full, n - 1), PullDoc)
  }

  lemma {:induction false} PulledState(s: Sys, listing: seq<Listed>, full: bool, n: nat)
    requires Inv(s) && Quiet(s) && Complete(s.server, listing) && n <= |listing|
    ensures var t := Pulled(s, listing, full, n);
      && Inv(t) && t.rows == map[] && t.unflushed == {} && t.server == s.server
      && t.pull.Some? && t.pull.value.todo == listing[n..]
      && forall i :: 0 <= i < n ==> !Diverges(t, listing[i].path)
  {
    hide Inv, LosesNews, Reconcile, Diverges;
    if n == 0 {
      StepSafe(s, BeginPull(listing, full));
    } else {
      PulledState(s, listing, full, n - 1);
      var t := Pulled(s, listing, full, n - 1);
      NobodyHolds(t);
      StepSafe(t, PullDoc);
      QuietPull(t, listing[n - 1]);
    }
  }

  // In a quiet system the pull settles its next document, and only that.
  lemma QuietPull(s: Sys, doc: Listed)
    requires Inv(s) && s.rows == map[] && s.unflushed == {} && Pulls(s) && doc == s.pull.value.todo[0]
    requires doc.path in s.server && s.server[doc.path] == Remote(Body(doc), doc.updatedAt)
    ensures var t := Reconcile(s);
      && !Diverges(t, doc.path)
      && (forall p :: p != doc.path && !Diverges(s, p) ==> !Diverges(t, p))
      && t.rows == s.rows && t.unflushed == s.unflushed && t.server == s.server
      && t.pull.Some? && t.pull.value.todo == s.pull.value.todo[1..]
  {
    hide StrLt, PullSafe, HeldSafe;
    assert PathSafe(s, doc.path);
    assert Skipped(doc, s.pull.value.since) ==> !StrLt(s.mark, doc.updatedAt) by { SkippedIsOld(s, doc); }
  }

  lemma SkippedIsOld(s: Sys, doc: Listed)
    requires Inv(s) && s.pull.Some?
    ensures Skipped(doc, s.pull.value.since) ==> !StrLt(s.mark, doc.updatedAt)
  {
    hide StrLt, PathSafe;
    StrLtTotal(s.mark, doc.updatedAt);
  }

  // Without rows there are no jobs, and nothing to lose.
  lemma NobodyHolds(s: Sys)
    requires Inv(s) && s.rows == map[]
    ensures !LosesNews(s) && forall p :: p !in s.held
  {
    hide StrLt, News;
    forall p ensures p !in s.held {
      assert PathSafe(s, p);
    }
  }

  lemma {:induction false} PulledIsRun(s: Sys, listing: seq<Listed>, full: bool, n: nat)
    ensures Run(s, [BeginPull(listing, full)] + seq(n, i => PullDoc)) == Pulled(s, listing, full, n)
  {
    hide Apply;
    var steps := [BeginPull(listing, full)] + seq(n, i => PullDoc);
    if n == 0 {
      assert steps == [BeginPull(listing, full)] && steps[..0] == [];
      assert Run(s, []) == s;
    } else {
      PulledIsRun(s, listing, full, n - 1);
      assert steps[..n] == [BeginPull(listing, full)] + seq(n - 1, i => PullDoc);
    }
  }

  // With an empty queue and nothing unflushed, one fresh pull makes the cache and the
  // server agree on every document.
  lemma FreshPullConverges(s: Sys, listing: seq<Listed>, full: bool)
    requires Inv(s) && Quiet(s) && Complete(s.server, listing)
    ensures var t := Run(s, PullSteps(listing, full));
      t.server == s.server && t.local.Keys == s.server.Keys && forall p :: p in s.server ==>
        t.local[p] == s.server[p].body
  {
    hide Inv, Complete, LosesNews, Pulled;
    var n := |listing|;
    var last := Pulled(s, listing, full, n);
    PulledIsRun(s, listing, full, n);
    PulledState(s, listing, full, n);
    var steps := PullSteps(listing, full);
    assert steps[..|steps| - 1] == [BeginPull(listing, full)] + seq(n, i => PullDoc);
    var t := Run(s, steps);
    assert t == Apply(last, FinishPull);
    forall p ensures !Diverges(t, p) {
      AllListed(last, listing, p);
    }
    SameDocuments(t);
  }

  lemma AllListed(s: Sys, listing: seq<Listed>, p: Path)
    requires Inv(s) && s.rows == map[] && s.unflushed == {} && Complete(s.server, listing)
    requires forall i :: 0 <= i < |listing| ==> !Diverges(s, listing[i].path)
    ensures !Diverges(s, p)
  {
    hide StrLt, PullSafe, HeldSafe;
    assert PathSafe(s, p);
    if p in s.server {
      var d :| d in listing && d.path == p;
    }
  }

  lemma SameDocuments(s: Sys)
    requires forall p :: !Diverges(s, p)
    ensures s.local.Keys == s.server.Keys && forall p :: p in s.server ==> s.local[p] == s.server[p].body
  {
    forall p ensures p in s.local <==> p in s.server {
      assert !Diverges(s, p);
    }
    forall p | p in s.server ensures s.local[p] == s.server[p].body {
      assert !Diverges(s, p);
    }
  }

  lemma {:induction false} RunConcat(s: Sys, a: seq<Step>, b: seq<Step>)
    ensures Run(s, a + b) == Run(Run(s, a), b)
    decreases b
  {
    hide Apply;
    if b == [] {
      assert a + b == a;
    } else {
      RunConcat(s, a, b[..|b| - 1]);
      assert (a + b)[..|a + b| - 1] == a + b[..|b| - 1];
    }
  }

  // So in every careful run, once the queue is empty and all is flushed, one more pull
  // leaves cache and server with the same documents.
  lemma QuietRunsConverge(server: map<Path, Remote>, top: string, steps: seq<Step>, listing: seq<Listed>, full: bool)
    requires ServerOk(server, top) && Careful(Init(server, top), steps)
    requires var s := Run(Init(server, top), steps); Quiet(s) && Complete(s.server, listing)
    ensures var t := Run(Init(server, top), steps + PullSteps(listing, full));
      t.local.Keys == t.server.Keys && forall p :: p in t.server ==> t.local[p] == t.server[p].body
  {
    InvInit(server, top);
    hide Inv, Apply, Complete;
    RunSafe(Init(server, top), steps);
    FreshPullConverges(Run(Init(server, top), steps), listing, full);
    RunConcat(Init(server, top), steps, PullSteps(listing, full));
  }

  // ---- Where pushes are not atomic ----------------------------------------------------------------

  // An edit not yet on the server has its inode's dirty flag up.
  ghost predicate Flagged(s: Sys) {
    forall p :: p in s.unflushed || p in s.rows ==> p in s.dirty
  }

  // Settling a successful push clears the flag, whatever was edited meanwhile: edits stay
  // flagged if and only if there is none.
  lemma SettleKeepsFlagsIff(s: Sys, p: Path)
    requires Flagged(s) && Enabled(s, Settle(p)) && s.held[p].result == Some(Done)
    ensures Flagged(Apply(s, Settle(p))) <==> !Newer(s, p)
  {
    var t := Apply(s, Settle(p));
    if Newer(s, p) {
      assert p in t.unflushed || p in t.rows;
    }
  }

  // One path written, flushed and pushed up to the server's answer at stamp `at`.
  function SentSteps(p: Path, body: Bytes, now: int, at: string): seq<Step> {
    [Edit(p, body, true, now), Flush(p, now)] + [Claim(p, now), Read(p)] + [Put(p, Done, true, at)]
  }

  function SentRow(now: int): Row { Row(Op(OpKind.Write, None, None, 0), None, Some(now), 0, now, false) }

  function SentState(p: Path, body: Bytes, now: int, at: string): Sys {
    Sys(map[p := body], {p}, map[p := now], {}, map[p := SentRow(now)],
      map[p := Held(Job(p, Op(OpKind.Write, None, None, 0), 0), now, Some(body), Some(Done), at)],
      "", None, map[p := Remote(body, at)], at, 1)
  }

  lemma Two(s: Sys, a: Step, b: Step)
    ensures Run(s, [a, b]) == Apply(Apply(s, a), b)
  {
    hide Apply;
    assert [a, b][..1] == [a] && [a][..0] == [];
    assert Run(s, [a]) == Apply(s, a) && Run(s, []) == s;
  }

  lemma One(s: Sys, a: Step)
    ensures Run(s, [a]) == Apply(s, a)
  {
    assert [a][..0] == [];
  }

  lemma SentRun(p: Path, body: Bytes, now: int, at: string)
    requires !IsNoisePath(p) && at != ""
    ensures Run(Init(map[], ""), SentSteps(p, body, now, at)) == SentState(p, body, now, at)
  {
    hide IsNoisePath, Run;
    var a, b, c := [Edit(p, body, true, now), Flush(p, now)], [Claim(p, now), Read(p)], [Put(p, Done, true, at)];
    var s0 := Init(map[], "");
    RunConcat(s0, a + b, c);
    RunConcat(s0, a, b);
    Two(s0, a[0], a[1]);
    var s1 := Run(s0, a);
    assert s1 == Sys(map[p := body], {p}, map[p := now], {},
      map[p := Row(Op(OpKind.Write, None, None, 0), None, None, 0, now, false)], map[], "", None, map[], "", 1);
    Two(s1, b[0], b[1]);
    One(Run(s1, b), c[0]);
  }

  // ---- The steps of a pull, spelled out ---------------------------------------------------------

  lemma BeginIs(s: Sys, listing: seq<Listed>)
    requires s.pull.None? && Complete(s.server, listing)
    ensures Apply(s, BeginPull(listing, false)) == s.(pull := Some(Pulling(listing, s.mark, s.mark, s.top)))
  {
  }

  lemma PassIs(s: Sys, doc: Listed)
    requires Pulls(s) && s.pull.value.todo[0] == doc && !Skipped(doc, s.pull.value.since) && Protected(s, doc)
    ensures Apply(s, PullDoc) == s.(pull := Some(s.pull.value.(todo := s.pull.value.todo[1..])))
  {
    hide Skipped, Protected;
  }

  lemma TakeIs(s: Sys, doc: Listed)
    requires Pulls(s) && s.pull.value.todo[0] == doc && !Skipped(doc, s.pull.value.since) && !Protected(s, doc)
    requires StrLt(s.pull.value.newest, doc.updatedAt)
    ensures Apply(s, PullDoc) == s.(local := s.local[doc.path := Body(doc)],
      known := if doc.path in s.local then s.known else s.known + {doc.path}, dirty := s.dirty - {doc.path},
      pull := Some(s.pull.value.(todo := s.pull.value.todo[1..], newest := doc.updatedAt)))
  {
    hide Skipped, Protected, StrLt;
  }

  lemma FinishIs(s: Sys)
    requires s.pull.Some? && s.pull.value.todo == [] && s.pull.value.newest != ""
    ensures Apply(s, FinishPull) == s.(mark := s.pull.value.newest, pull := None)
  {
  }

  // A pull of one document, applied.
  lemma PullOne(s: Sys, doc: Listed)
    requires s.pull.None? && s.mark == "" && Complete(s.server, [doc]) && doc.updatedAt != "" && doc.path !in s.dirty
    ensures Run(s, PullSteps([doc], false)) == s.(local := s.local[doc.path := Body(doc)],
      known := if doc.path in s.local then s.known else s.known + {doc.path}, dirty := s.dirty - {doc.path},
        mark := doc.updatedAt)
  {
    assert PullSteps([doc], false) == [BeginPull([doc], false), PullDoc] + [FinishPull];
    assert StrLt("", doc.updatedAt);
    hide Apply, Run, Complete, StrLt;
    RunConcat(s, [BeginPull([doc], false), PullDoc], [FinishPull]);
    Two(s, BeginPull([doc], false), PullDoc);
    BeginIs(s, [doc]);
    TakeIs(Apply(s, BeginPull([doc], false)), doc);
    assert [doc][1..] == [];
    FinishIs(Apply(Apply(s, BeginPull([doc], false)), PullDoc));
    One(Apply(Apply(s, BeginPull([doc], false)), PullDoc), FinishPull);
  }

  // The last document of a pull, applied.
  lemma TakeLast(s: Sys, doc: Listed, top: string)
    requires s.pull == Some(Pulling([doc], "", "", top)) && doc.updatedAt != "" && doc.path !in s.dirty
    ensures Run(s, [PullDoc, FinishPull]) == s.(local := s.local[doc.path := Body(doc)],
      known := if doc.path in s.local then s.known else s.known + {doc.path}, dirty := s.dirty - {doc.path},
      mark := doc.updatedAt, pull := None)
  {
    assert StrLt("", doc.updatedAt);
    assert [doc][1..] == [];
    hide Apply, Run, StrLt;
    Two(s, PullDoc, FinishPull);
    TakeIs(s, doc);
    FinishIs(Apply(s, PullDoc));
  }

  lemma StepsTwo(a: Listed, b: Listed)
    ensures PullSteps([a, b], false) == [BeginPull([a, b], false), PullDoc] + [PullDoc, FinishPull]
    ensures [a, b][1..] == [b]
  {
  }

  // A pull of two documents: the first passed over for its dirty flag, the second applied.
  lemma PullTwo(s: Sys, a: Listed, b: Listed)
    requires s.pull.None? && s.mark == "" && Complete(s.server, [a, b]) && b.updatedAt != ""
    requires Protected(s, a) && b.path !in s.dirty && b.path !in s.local
    ensures Run(s, PullSteps([a, b], false)) ==
      s.(local := s.local[b.path := Body(b)], known := s.known + {b.path}, dirty := s.dirty - {b.path},
        mark := b.updatedAt)
  {
    hide Apply, Run, Complete, StrLt, Outdated, PullSteps;
    StepsTwo(a, b);
    RunConcat(s, [BeginPull([a, b], false), PullDoc], [PullDoc, FinishPull]);
    Two(s, BeginPull([a, b], false), PullDoc);
    BeginIs(s, [a, b]);
    PassIs(Apply(s, BeginPull([a, b], false)), a);
    TakeLast(s.(pull := Some(Pulling([b], "", "", s.top))), b, s.top);
  }

  lemma CompleteTwo(server: map<Path, Remote>, a: Listed, b: Listed)
    requires a.path != b.path
    requires server == map[a.path := Remote(Body(a), a.updatedAt), b.path := Remote(Body(b), b.updatedAt)]
    ensures Complete(server, [a, b])
  {
    forall p | p in server ensures exists d :: d in [a, b] && d.path == p {
      assert a in [a, b] && b in [a, b];
    }
  }

  lemma CompleteOne(server: map<Path, Remote>, a: Listed)
    requires server == map[a.path := Remote(Body(a), a.updatedAt)]
    ensures Complete(server, [a])
  {
    assert a in [a];
  }

  // ---- Two runs that go wrong ---------------------------------------------------------------------

  function DivergingSteps(mine: Bytes, now: int, at: string, a: Listed, b: Listed): seq<Step> {
    SentSteps(a.path, mine, now, at) + [RemoteEdit(a.path, Body(a), a.updatedAt),
      RemoteEdit(b.path, Body(b), b.updatedAt)]
    + PullSteps([a, b], false) + [Settle(a.path)]
  }

  // The state of that run before its last step.
  function PassedOverState(mine: Bytes, now: int, at: string, a: Listed, b: Listed): Sys {
    SentState(a.path, mine, now, at).(
      local := map[a.path := mine, b.path := Body(b)], known := {a.path, b.path}, mark := b.updatedAt,
      server := map[a.path := Remote(Body(a), a.updatedAt), b.path := Remote(Body(b), b.updatedAt)], top := b.updatedAt)
  }

  lemma PassedOverRun(mine: Bytes, now: int, at: string, a: Listed, b: Listed)
    requires !IsNoisePath(a.path) && a.path != b.path && b.updatedAt != ""
    requires at != "" && StrLt(at, a.updatedAt) && StrLt(a.updatedAt, b.updatedAt) && ParseMs(a.updatedAt) == Some(now)
    ensures Run(Init(map[], ""), SentSteps(a.path, mine, now, at)
        + [RemoteEdit(a.path, Body(a), a.updatedAt), RemoteEdit(b.path, Body(b), b.updatedAt)]
          + PullSteps([a, b], false))
      == PassedOverState(mine, now, at, a, b)
  {
    hide IsNoisePath, ParseMs, StrLt, Run, Complete, Apply, PullSteps, SentSteps;
    var x, y, z := SentSteps(a.path, mine, now, at),
      [RemoteEdit(a.path, Body(a), a.updatedAt), RemoteEdit(b.path, Body(b), b.updatedAt)], PullSteps([a, b], false);
    var s0 := Init(map[], "");
    RunConcat(s0, x + y, z);
    RunConcat(s0, x, y);
    SentRun(a.path, mine, now, at);
    var s1 := SentState(a.path, mine, now, at);
    var s2 := s1.(server := map[a.path := Remote(Body(a), a.updatedAt), b.path := Remote(Body(b), b.updatedAt)],
      top := b.updatedAt);
    RemoteTwice(s1, a, b);
    assert s1.server[a.path := Remote(Body(a), a.updatedAt)][b.path := Remote(Body(b), b.updatedAt)] == s2.server;
    CompleteTwo(s2.server, a, b);
    PullTwo(s2, a, b);
  }

  // A document no delta pull will bring again. `mine` is pushed; before the push settles, another client
  // changes the document to `a` and then another one to `b`, and a pull passes over the
  // first for its dirty flag and applies the second. Then the push settles. Nothing is
  // queued, unflushed, dirty or above the watermark, yet the bytes differ.
  lemma SilentDivergenceRun(mine: Bytes, now: int, at: string, a: Listed, b: Listed)
    requires !IsNoisePath(a.path) && a.path != b.path && mine != Body(a)
    requires at != "" && StrLt(at, a.updatedAt) && StrLt(a.updatedAt, b.updatedAt) && ParseMs(a.updatedAt) == Some(now)
    ensures var t, p := Run(Init(map[], ""), DivergingSteps(mine, now, at, a, b)), a.path;
      && t.rows == map[] && t.unflushed == {} && t.held == map[] && t.dirty == map[]
      && Diverges(t, p) && p in t.server && !StrLt(t.mark, t.server[p].at) && !NoSilentDivergence(t)
  {
    StrLtTotal(a.updatedAt, b.updatedAt);
    assert b.updatedAt != "";
    hide IsNoisePath, ParseMs, StrLt, Run, NoSilentDivergence, Apply, PullSteps, SentSteps;
    PassedOverRun(mine, now, at, a, b);
    var s, t := PassedOverState(mine, now, at, a, b), Run(Init(map[], ""), DivergingSteps(mine, now, at, a, b));
    RunConcat(Init(map[], ""), SentSteps(a.path, mine, now, at)
        + [RemoteEdit(a.path, Body(a), a.updatedAt), RemoteEdit(b.path, Body(b), b.updatedAt)]
          + PullSteps([a, b], false), [Settle(a.path)]);
    One(s, Settle(a.path));
    LastSettle(s, a.path, now, mine, at);
    assert s.dirty - {a.path} == map[];
    DivergesSilently(t, a.path);
  }

  lemma RemoteTwice(s: Sys, a: Listed, b: Listed)
    requires StrLt(s.top, a.updatedAt) && StrLt(a.updatedAt, b.updatedAt)
    ensures Run(s, [RemoteEdit(a.path, Body(a), a.updatedAt), RemoteEdit(b.path, Body(b), b.updatedAt)])
      == s.(server := s.server[a.path := Remote(Body(a), a.updatedAt)][b.path := Remote(Body(b), b.updatedAt)],
        top := b.updatedAt)
  {
    hide StrLt, Run;
    Two(s, RemoteEdit(a.path, Body(a), a.updatedAt), RemoteEdit(b.path, Body(b), b.updatedAt));
  }

  lemma LastSettle(s: Sys, p: Path, now: int, body: Bytes, at: string)
    requires s.rows == map[p := SentRow(now)] && s.held == SentState(p, body, now, at).held
    ensures Apply(s, Settle(p)) == s.(rows := map[], held := map[], dirty := s.dirty - {p})
  {
  }

  lemma DivergesSilently(s: Sys, p: Path)
    requires Diverges(s, p) && p !in s.rows && p !in s.unflushed && p in s.server && !StrLt(s.mark, s.server[p].at)
    ensures !NoSilentDivergence(s)
  {
  }

  function LosingSteps(first: Bytes, second: Bytes, now: int, doc: Listed): seq<Step> {
    SentSteps(doc.path, first, now, doc.updatedAt) + [Edit(doc.path, second, true, now), Flush(doc.path, now)]
    + [Settle(doc.path)] + PullSteps([doc], false)
  }

  // An edit lost though nobody else touched the document: it is edited and flushed again
  // while its first push is under way, that push settles, and a pull brings the first body
  // back over the second, which no push will ever send.
  lemma LostEditRun(first: Bytes, second: Bytes, now: int, doc: Listed)
    requires !IsNoisePath(doc.path) && first == Body(doc) && first != second && doc.updatedAt != ""
    ensures var t := Run(Init(map[], ""), LosingSteps(first, second, now, doc));
      t.local == map[doc.path := first] && t.server == map[doc.path := Remote(first, doc.updatedAt)]
        && t.unflushed == {}
  {
    hide IsNoisePath, ParseMs, StrLt, Run, Complete;
    var p := doc.path;
    var x, y, z, w := SentSteps(p, first, now, doc.updatedAt), [Edit(p, second, true, now), Flush(p, now)],
      [Settle(p)], PullSteps([doc], false);
    var s0 := Init(map[], "");
    RunConcat(s0, x + y + z, w);
    RunConcat(s0, x + y, z);
    RunConcat(s0, x, y);
    SentRun(p, first, now, doc.updatedAt);
    var s1 := SentState(p, first, now, doc.updatedAt);
    EditAgain(s1, p, second, now);
    var s2 := Run(s1, y);
    One(s2, Settle(p));
    SettlePromotes(s2, p, now, first, doc.updatedAt);
    var s3 := Apply(s2, Settle(p));
    hide Apply;
    CompleteOne(s3.server, doc);
    PullOne(s3, doc);
  }

  const NEXT_OP := Op(OpKind.Write, None, None, 1)

  lemma EditAgain(s: Sys, p: Path, second: Bytes, now: int)
    requires s.rows == map[p := SentRow(now)] && !IsNoisePath(p) && s.next == 1
    ensures Run(s, [Edit(p, second, true, now), Flush(p, now)]) ==
      s.(local := s.local[p := second], known := s.known + {p}, dirty := s.dirty[p := now],
        unflushed := s.unflushed - {p},
         rows := map[p := SentRow(now).(pending := Some(NEXT_OP))], next := 2)
  {
    hide IsNoisePath, Run;
    Two(s, Edit(p, second, true, now), Flush(p, now));
    assert s.unflushed + {p} - {p} == s.unflushed - {p};
  }

  lemma SettlePromotes(s: Sys, p: Path, now: int, body: Bytes, at: string)
    requires s.rows == map[p := SentRow(now).(pending := Some(NEXT_OP))] && s.held == SentState(p, body, now, at).held
    ensures Apply(s, Settle(p)) == s.(rows := map[p := Row(NEXT_OP, None, None, 0, now, false)], held := map[],
      dirty := s.dirty - {p})
  {
  }
}
