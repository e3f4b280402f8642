// The whole protocol as one transition system: local edits and flushes (cache/file.rs),
// push workers (sync/push.rs), edits by other clients, and a pull loop (sync/pull.rs) that
// works through a listing taken some time ago. Claiming, reading the bytes, the server's
// change and settling are separate steps, so anything may happen between them.
//
// The cache is seen here through its documents: `TreeRuns.TreeRefinesMap` and
// `TreeRuns.RemotePathsConsistent` say when the tables are such a map, and
// `SyncRefinement` ties the pull step to `Pull`.
module Sync {
  import opened Basics
  import opened ChunkStore
  import opened PushQueue
  import opened Pull

  datatype Remote = Remote(body: Bytes, at: string)

  // A claimed job: the bytes once they were read, the answer and the time stamp the server
  // gave the document once it was sent.
  datatype Held = Held(job: Job, since: int, body: Option<Bytes>, result: Option<Answer>, stamp: string)

  // A pull under way: what is left of its listing, the watermark it compares with, the
  // newest time stamp it applied, and (history) the server's newest when it was listed.
  datatype Pulling = Pulling(todo: seq<Listed>, since: string, newest: string, horizon: string)

  datatype Sys = Sys(
    local: map<Path, Bytes>,       // documents in the cache
    known: set<Path>,              // those with an fs_remote row
    dirty: map<Path, int>,         // dirty_since of their inodes
    unflushed: set<Path>,          // history: edited since their last flush
    rows: Rows,                    // push_queue
    held: map<Path, Held>,         // jobs of the workers, at most one per path (`PushRuns.MutualExclusion`)
    mark: string,                  // last_seen_updated_at, empty if not set
    pull: Option<Pulling>,
    server: map<Path, Remote>,
    top: string,                   // history: the newest time stamp given out
    next: nat)                     // history: next ticket

  datatype Step =
    | Edit(path: Path, body: Bytes, marks: bool, now: int)   // a write marks the inode dirty, a truncation does not
    | Flush(path: Path, now: int)
    | Claim(path: Path, now: int)
    | Read(path: Path)
    | Put(path: Path, answer: Answer, applied: bool, stamp: string)
    | Settle(path: Path)
    | Drop(path: Path)
    | RemoteEdit(path: Path, body: Bytes, stamp: string)
    | BeginPull(listing: seq<Listed>, full: bool)
    | PullDoc
    | FinishPull
    | AbortPull

  function Init(server: map<Path, Remote>, top: string): Sys {
    Sys(map[], {}, map[], {}, map[], map[], "", None, server, top, 0)
  }

  ghost predicate DistinctPaths(listing: seq<Listed>) {
    forall i, j :: 0 <= i < j < |listing| ==> listing[i].path != listing[j].path
  }

  // The listing is the server's content, once per document.
  ghost predicate Complete(server: map<Path, Remote>, listing: seq<Listed>) {
    && (forall d :: d in listing ==> d.path in server && server[d.path] == Remote(Body(d), d.updatedAt))
    && (forall p :: p in server ==> exists d :: d in listing && d.path == p)
    && DistinctPaths(listing)
  }

  ghost predicate Enabled(s: Sys, step: Step) {
    match step
    case Edit(_, _, _, _) => true
    case Flush(p, _) => p in s.local && !IsNoisePath(p)
    case Claim(p, now) => Claimable(s.rows, p, now)
    case Read(p) => p in s.held && s.held[p].body.None? && s.held[p].job.attempt < MAX_ATTEMPTS
    case Put(p, answer, applied, stamp) =>
      && p in s.held && s.held[p].body.Some? && s.held[p].result.None?
      && StrLt(s.top, stamp) && (answer.Done? ==> applied)
    case Settle(p) => p in s.held && (s.held[p].result.Some? || s.held[p].job.attempt >= MAX_ATTEMPTS)
    case Drop(p) => p in s.held
    case RemoteEdit(_, _, stamp) => StrLt(s.top, stamp)
    case BeginPull(listing, _) => s.pull.None? && Complete(s.server, listing)
    case PullDoc => s.pull.Some? && s.pull.value.todo != []
    case FinishPull => s.pull.Some? && s.pull.value.todo == []
    case AbortPull => s.pull.Some?
  }

  // The dirty guard.
  predicate Protected(s: Sys, doc: Listed) {
    doc.path in s.known && doc.path in s.dirty && Outdated(s.dirty[doc.path], doc)
  }

  function Reconcile(s: Sys): Sys
    requires s.pull.Some? && s.pull.value.todo != []
  {
    var pulling := s.pull.value;
    var doc, rest := pulling.todo[0], pulling.todo[1..];
    if Skipped(doc, pulling.since) || Protected(s, doc) then s.(pull := Some(pulling.(todo := rest)))
    else
      var newest := if StrLt(pulling.newest, doc.updatedAt) then doc.updatedAt else pulling.newest;
      s.(local := s.local[doc.path := Body(doc)],
         known := if doc.path in s.local then s.known else s.known + {doc.path},
         dirty := s.dirty - {doc.path},
         pull := Some(pulling.(todo := rest, newest := newest)))
  }

  function SettleRows(s: Sys, p: Path): Rows
    requires p in s.held
  {
    var h := s.held[p];
    match h.result
    case None => Poison(s.rows, p, h.since)
    case Some(answer) => Finalize(s.rows, h.job.(path := p), answer, h.since)
  }

  // A step that is not enabled changes nothing.
  ghost function Apply(s: Sys, step: Step): Sys {
    if !Enabled(s, step) then s
    else match step
      case Edit(p, body, marks, now) =>
        s.(local := s.local[p := body], dirty := if marks then s.dirty[p := now] else s.dirty,
          unflushed := s.unflushed + {p})
      case Flush(p, now) =>
        s.(known := s.known + {p}, dirty := s.dirty[p := now], unflushed := s.unflushed - {p},
           rows := Upsert(s.rows, p, Op(OpKind.Write, None, None, s.next), now), next := s.next + 1)
      case Claim(p, now) =>
        s.(rows := MarkInflight(s.rows, p, now), held := s.held[p := Held(JobOf(s.rows, p), now, None, None, "")])
      case Read(p) =>
        s.(held := s.held[p := s.held[p].(body := Some(if p in s.local then s.local[p] else []))])
      case Put(p, answer, applied, stamp) =>
        s.(held := s.held[p := s.held[p].(result := Some(answer), stamp := stamp)],
           server := if applied then s.server[p := Remote(s.held[p].body.value, stamp)] else s.server,
           top := if applied then stamp else s.top)
      case Settle(p) =>
        s.(rows := SettleRows(s, p), held := s.held - {p}, dirty := if s.held[p].result
          == Some(Done) then s.dirty - {p} else s.dirty)
      case Drop(p) => s.(held := s.held - {p})
      case RemoteEdit(p, body, stamp) => s.(server := s.server[p := Remote(body, stamp)], top := stamp)
      case BeginPull(listing, full) =>
        var since := if full then "" else s.mark;
        s.(pull := Some(Pulling(listing, since, since, s.top)))
      case PullDoc => Reconcile(s)
      case FinishPull => s.(mark := if s.pull.value.newest != "" then s.pull.value.newest else s.mark, pull := None)
      case AbortPull => s.(pull := None)
  }

  ghost function Run(s: Sys, steps: seq<Step>): Sys {
    if steps == [] then s else Apply(Run(s, steps[..|steps| - 1]), steps[|steps| - 1])
  }

  // ---- The invariant -------------------------------------------------------------------------

  predicate Diverges(s: Sys, p: Path) {
    || (p in s.local) != (p in s.server)
    || (p in s.local && p in s.server && s.local[p] != s.server[p].body)
  }

  // No document the pull has applied, or is yet to come to, is as new as `at`, so neither
  // will the watermark be.
  ghost predicate Beyond(pulling: Pulling, at: string) {
    StrLt(pulling.newest, at) && forall d :: d in pulling.todo ==> StrLt(d.updatedAt, at)
  }

  // The pull is yet to come to the document as the server has it.
  ghost predicate ToCome(pulling: Pulling, p: Path, at: string) {
    exists d :: d in pulling.todo && d.path == p && d.updatedAt == at
  }

  // A pull, this one or the next, will bring the server's document.
  ghost predicate News(s: Sys, p: Path) {
    && p in s.server && StrLt(s.mark, s.server[p].at)
    && (s.pull.Some? ==> Beyond(s.pull.value, s.server[p].at) || ToCome(s.pull.value, p, s.server[p].at))
  }

  // There is an edit that the job under way does not carry.
  predicate Newer(s: Sys, p: Path) {
    p in s.unflushed || (p in s.rows && s.rows[p].pending.Some?)
  }

  // Sent with success, and not settled yet.
  predicate Outstanding(s: Sys, p: Path) { p in s.held && s.held[p].result == Some(Done) }

  ghost predicate HeldSafe(s: Sys, p: Path)
    requires p in s.held
  {
    var h := s.held[p];
    && p in s.rows && s.rows[p].inflight.Some?
    && (h.result.Some? ==> h.body.Some?)
    && (h.body.Some? && p in s.dirty && p in s.local && s.local[p] != h.body.value ==> Newer(s, p))
    && (Outstanding(s, p) ==>
          && p in s.server && StrLe(h.stamp, s.server[p].at)
          && (s.server[p].at == h.stamp ==> s.server[p].body == h.body.value)
          && (Diverges(s, p) ==> Newer(s, p) || News(s, p)))
  }

  ghost predicate PathSafe(s: Sys, p: Path) {
    && (p in s.rows || p in s.dirty ==> p in s.local)
    && (p in s.dirty ==> p in s.rows || p in s.unflushed)
    && (Diverges(s, p) ==> p in s.rows || p in s.unflushed || News(s, p))
    && (p in s.held ==> HeldSafe(s, p))
  }

  // A listed document is as listed, or was changed after the listing.
  ghost predicate EntrySafe(s: Sys, doc: Listed)
    requires s.pull.Some?
  {
    && doc.path in s.server
    && StrLe(doc.updatedAt, s.pull.value.horizon)
    && (s.server[doc.path] == Remote(Body(doc), doc.updatedAt) || StrLt(s.pull.value.horizon, s.server[doc.path].at))
  }

  ghost predicate PullSafe(s: Sys)
    requires s.pull.Some?
  {
    var pulling := s.pull.value;
    && StrLe(s.mark, pulling.horizon) && StrLe(pulling.newest, pulling.horizon) && StrLe(pulling.horizon, s.top)
    && (pulling.since == s.mark || pulling.since == "")
    && DistinctPaths(pulling.todo)
    && (forall d :: d in pulling.todo ==> EntrySafe(s, d))
  }

  ghost predicate Inv(s: Sys) {
    && StrLe(s.mark, s.top)
    && (forall p :: p in s.server ==> StrLe(s.server[p].at, s.top) && s.server[p].at != "")
    && (s.pull.Some? ==> PullSafe(s))
    && (forall p :: PathSafe(s, p))
  }

  // Nothing diverges unnoticed: it is queued, or not flushed yet, or above the watermark.
  ghost predicate NoSilentDivergence(s: Sys) {
    forall p :: Diverges(s, p) ==>
      p in s.rows || p in s.unflushed || (p in s.server && StrLt(s.mark, s.server[p].at))
  }

  predicate Pulls(s: Sys) { s.pull.Some? && s.pull.value.todo != [] }

  // The one harmful coincidence: the pull passes over a document for its dirty flag while a
  // push of the same path is sent but not settled, though another client's newer body is
  // what was listed, no newer local edit will be pushed, and some document at least as new
  // was applied or is still to come. Settling then clears the flag, and the watermark may
  // already be past the document.
  ghost predicate LosesNews(s: Sys) {
    && Pulls(s)
    && var doc, rest := s.pull.value.todo[0], s.pull.value.todo[1..];
       var p := doc.path;
       && !Skipped(doc, s.pull.value.since) && Protected(s, doc)
       && Outstanding(s, p) && StrLt(s.held[p].stamp, doc.updatedAt)
       && p in s.server && s.server[p].at == doc.updatedAt && StrLt(s.mark, doc.updatedAt)
       && Diverges(s, p) && !Newer(s, p)
       && !Beyond(s.pull.value.(todo := rest), doc.updatedAt)
  }

  // ---- Order facts ------------------------------------------------------------------------------

  lemma StrOrder()
    ensures forall a, b, c :: StrLt(a, b) && StrLt(b, c) ==> StrLt(a, c)
    ensures forall a, b :: StrLt(a, b) ==> !StrLt(b, a) && a != b
    ensures forall a, b :: !StrLt(a, b) ==> StrLe(b, a)
    ensures forall a :: a != "" ==> StrLt("", a)
    ensures forall a :: !StrLt(a, "")
  {
    forall a, b, c | StrLt(a, b) && StrLt(b, c) ensures StrLt(a, c) {
      StrLtTransitive(a, b, c);
    }
    forall a, b ensures (StrLt(a, b) ==> !StrLt(b, a) && a != b) && (!StrLt(a, b) ==> StrLe(b, a)) {
      StrLtTotal(a, b);
    }
  }

  // ---- Each step keeps the invariant -----------------------------------------------------------

  lemma InvMeansNoSilentDivergence(s: Sys)
    requires Inv(s)
    ensures NoSilentDivergence(s)
  {
    StrOrder();
    hide StrLt;
    forall p | Diverges(s, p) ensures p in s.rows || p in s.unflushed
      || (p in s.server && StrLt(s.mark, s.server[p].at)) {
      assert PathSafe(s, p);
    }
  }

  lemma InvInit(server: map<Path, Remote>, top: string)
    requires forall p :: p in server ==> StrLe(server[p].at, top) && server[p].at != ""
    ensures Inv(Init(server, top))
  {
    StrOrder();
    hide StrLt;
  }

  lemma LocalStep(s: Sys, step: Step)
    requires Inv(s) && Enabled(s, step) && (step.Edit? || step.Flush?)
    ensures Inv(Apply(s, step))
  {
    hide StrLt, IsNoisePath;
    var t := Apply(s, step);
    assert t.pull.Some? ==> PullSafe(t) by {
      assert t.pull.Some? ==> forall d :: d in t.pull.value.todo ==> EntrySafe(s, d);
    }
    forall p ensures PathSafe(t, p) {
      assert PathSafe(s, p);
      assert News(s, p) ==> News(t, p);
    }
  }

  lemma ClaimStep(s: Sys, step: Step)
    requires Inv(s) && Enabled(s, step) && (step.Claim? || step.Read? || step.Drop?)
    ensures Inv(Apply(s, step))
  {
    hide StrLt, IsNoisePath;
    var t := Apply(s, step);
    assert t.pull.Some? ==> PullSafe(t) by {
      assert t.pull.Some? ==> forall d :: d in t.pull.value.todo ==> EntrySafe(s, d);
    }
    forall p ensures PathSafe(t, p) {
      assert PathSafe(s, p);
      assert News(s, p) ==> News(t, p);
    }
  }

  lemma SettleStep(s: Sys, step: Step)
    requires Inv(s) && Enabled(s, step) && step.Settle?
    ensures Inv(Apply(s, step))
  {
    hide StrLt, IsNoisePath;
    var t := Apply(s, step);
    assert t.pull.Some? ==> PullSafe(t) by {
      assert t.pull.Some? ==> forall d :: d in t.pull.value.todo ==> EntrySafe(s, d);
    }
    forall p ensures PathSafe(t, p) {
      assert PathSafe(s, p);
      assert News(s, p) ==> News(t, p);
    }
  }

  // The server's documents move up in time only, past everything a pull has listed.
  lemma ServerMoves(s: Sys, t: Sys, p: Path)
    requires s.pull.Some? ==> PullSafe(s)
    requires StrLe(s.mark, s.top) && StrLt(s.top, t.top)
    requires p in t.server && t == s.(server := s.server[p := t.server[p]], top := t.top, held := t.held)
      && t.server[p].at == t.top
    ensures t.pull.Some? ==> PullSafe(t)
    ensures News(t, p)
    ensures forall q :: q != p && News(s, q) ==> News(t, q)
  {
    StrOrder();
    hide StrLt;
    if t.pull.Some? {
      forall d | d in t.pull.value.todo ensures EntrySafe(t, d) && StrLt(d.updatedAt, t.top) {
        assert EntrySafe(s, d);
      }
    }
  }

  lemma PutStep(s: Sys, step: Step)
    requires Inv(s) && Enabled(s, step) && step.Put?
    ensures Inv(Apply(s, step))
  {
    hide StrLt, IsNoisePath, News, PullSafe;
    StrOrder();
    var t := Apply(s, step);
    if step.applied {
      ServerMoves(s, t, step.path);
    } else if s.pull.Some? {
      SamePull(s, t);
    }
    forall p ensures PathSafe(t, p) {
      assert PathSafe(s, p);
      SameNews(s, t, p);
    }
  }

  lemma RemoteEditStep(s: Sys, step: Step)
    requires Inv(s) && Enabled(s, step) && step.RemoteEdit?
    ensures Inv(Apply(s, step))
  {
    hide StrLt, IsNoisePath, News, PullSafe;
    StrOrder();
    var t := Apply(s, step);
    ServerMoves(s, t, step.path);
    forall p ensures PathSafe(t, p) {
      assert PathSafe(s, p);
    }
  }

  lemma BeginStep(s: Sys, step: Step)
    requires Inv(s) && Enabled(s, step) && step.BeginPull?
    ensures Inv(Apply(s, step))
  {
    StrOrder();
    hide StrLt, IsNoisePath;
    var t := Apply(s, step);
    forall p ensures PathSafe(t, p) {
      assert PathSafe(s, p);
      assert News(s, p) ==> News(t, p);
    }
  }

  lemma EndStep(s: Sys, step: Step)
    requires Inv(s) && Enabled(s, step) && (step.FinishPull? || step.AbortPull?)
    ensures Inv(Apply(s, step))
  {
    StrOrder();
    hide StrLt, IsNoisePath;
    var t := Apply(s, step);
    forall p ensures PathSafe(t, p) {
      assert PathSafe(s, p);
      assert News(s, p) ==> News(t, p);
    }
  }

  // A document is listed once.
  lemma RestDistinct(todo: seq<Listed>)
    requires todo != [] && DistinctPaths(todo)
    ensures DistinctPaths(todo[1..])
    ensures forall d :: d in todo ==> d == todo[0] || d in todo[1..]
    ensures forall d :: d in todo[1..] ==> d in todo && d.path != todo[0].path
  {
  }

  lemma RestSafeOf(s: Sys, t: Sys, newest: string)
    requires Pulls(s) && PullSafe(s)
    requires t.server == s.server && t.mark == s.mark && t.top == s.top
    requires var pulling := s.pull.value;
      && StrLe(newest, pulling.horizon)
      && t.pull == Some(Pulling(pulling.todo[1..], pulling.since, newest, pulling.horizon))
    ensures PullSafe(t)
  {
    hide StrLt, DistinctPaths;
    RestDistinct(s.pull.value.todo);
    forall d | d in t.pull.value.todo ensures EntrySafe(t, d) {
      assert EntrySafe(s, d);
    }
  }

  // The rest of the listing is as safe as it was.
  lemma RestSafe(s: Sys)
    requires Pulls(s) && PullSafe(s)
    ensures PullSafe(Reconcile(s)) && EntrySafe(s, s.pull.value.todo[0])
    ensures var todo := s.pull.value.todo; forall d :: d in todo ==>
      d == todo[0] || (d in todo[1..] && d.path != todo[0].path)
  {
    hide StrLt, Protected, Skipped, DistinctPaths;
    var pulling := s.pull.value;
    RestDistinct(pulling.todo);
    assert EntrySafe(s, pulling.todo[0]);
    hide EntrySafe, PullSafe;
    assert StrLe(pulling.todo[0].updatedAt, pulling.horizon) && StrLe(pulling.newest, pulling.horizon)
      by { HeadBounds(s); }
    RestSafeOf(s, Reconcile(s), Reconcile(s).pull.value.newest);
  }

  lemma HeadBounds(s: Sys)
    requires Pulls(s) && PullSafe(s)
    ensures StrLe(s.pull.value.todo[0].updatedAt, s.pull.value.horizon)
      && StrLe(s.pull.value.newest, s.pull.value.horizon)
  {
    hide StrLt;
    assert EntrySafe(s, s.pull.value.todo[0]);
  }

  // What a step of the pull leaves to come.
  lemma PullMoves(s: Sys, p: Path)
    requires Pulls(s) && PullSafe(s) && News(s, p)
    ensures var doc := s.pull.value.todo[0];
      News(Reconcile(s), p) || (p == doc.path && s.server[p].at == doc.updatedAt && !Skipped(doc, s.pull.value.since))
  {
    hide StrLt, Protected, EntrySafe, DistinctPaths;
    RestSafe(s);
    var t, todo, at := Reconcile(s), s.pull.value.todo, s.server[p].at;
    assert todo[0] in todo;
    StrLtTotal(s.mark, at);
    StrLtTotal(s.mark, s.mark);
    if Beyond(s.pull.value, at) {
      assert Beyond(t.pull.value, at);
    } else {
      var d :| d in todo && d.path == p && d.updatedAt == at;
    }
  }

  // A document changed since the listing is news.
  lemma ChangedIsNews(s: Sys, p: Path)
    requires s.pull.Some? && PullSafe(s) && p in s.server && StrLt(s.pull.value.horizon, s.server[p].at)
    ensures News(s, p)
  {
    StrOrder();
    hide StrLt;
    forall d | d in s.pull.value.todo ensures StrLt(d.updatedAt, s.server[p].at) {
      assert EntrySafe(s, d);
    }
  }

  // The document passed over.
  lemma PassedSafe(s: Sys)
    requires Inv(s) && Pulls(s) && !LosesNews(s)
    requires var doc := s.pull.value.todo[0]; Skipped(doc, s.pull.value.since) || Protected(s, doc)
    ensures PathSafe(Reconcile(s), s.pull.value.todo[0].path)
  {
    hide StrLt, PullSafe, Skipped, EntrySafe, Outdated, Beyond, ToCome;
    var t, doc := Reconcile(s), s.pull.value.todo[0];
    var p := doc.path;
    assert PathSafe(s, p);
    if News(s, p) {
      PullMoves(s, p);
      assert !News(t, p) ==> !Beyond(s.pull.value.(todo := s.pull.value.todo[1..]), doc.updatedAt);
    }
  }

  lemma OthersSafe(s: Sys, p: Path)
    requires Inv(s) && Pulls(s) && p != s.pull.value.todo[0].path
    ensures PathSafe(Reconcile(s), p)
  {
    hide StrLt, News, PullSafe, Skipped, EntrySafe, Outdated;
    assert PathSafe(s, p);
    if News(s, p) { PullMoves(s, p); }
  }

  // The document applied.
  lemma TakenSafe(s: Sys)
    requires Inv(s) && Pulls(s)
    requires var doc := s.pull.value.todo[0]; !(Skipped(doc, s.pull.value.since) || Protected(s, doc))
    ensures PathSafe(Reconcile(s), s.pull.value.todo[0].path)
  {
    hide StrLt, PullSafe, Skipped, Protected, News;
    RestSafe(s);
    var t, doc := Reconcile(s), s.pull.value.todo[0];
    assert PathSafe(s, doc.path);
    if StrLt(s.pull.value.horizon, s.server[doc.path].at) {
      ChangedIsNews(t, doc.path);
    }
  }

  lemma PullStep(s: Sys)
    requires Inv(s) && Pulls(s) && !LosesNews(s)
    ensures Inv(Reconcile(s))
  {
    hide StrLt, PathSafe, PullSafe, Skipped, EntrySafe, Protected, LosesNews;
    var t, doc := Reconcile(s), s.pull.value.todo[0];
    RestSafe(s);
    forall p ensures PathSafe(t, p) {
      if p != doc.path { OthersSafe(s, p); }
      else if Skipped(doc, s.pull.value.since) || Protected(s, doc) { PassedSafe(s); }
      else { TakenSafe(s); }
    }
  }

  lemma SamePull(s: Sys, t: Sys)
    requires s.pull.Some? && t.pull == s.pull && t.server == s.server && t.mark == s.mark && t.top == s.top
      && PullSafe(s)
    ensures PullSafe(t)
  {
    forall d | d in t.pull.value.todo ensures EntrySafe(t, d) {
      assert EntrySafe(s, d);
    }
  }

  lemma SameNews(s: Sys, t: Sys, p: Path)
    requires t.pull == s.pull && t.mark == s.mark
    ensures t.server == s.server ==> News(t, p) == News(s, p)
  {
  }

  lemma StepSafe(s: Sys, step: Step)
    requires Inv(s) && (step.PullDoc? ==> !LosesNews(s))
    ensures Inv(Apply(s, step))
  {
    hide Inv, LosesNews, Reconcile;
    if Enabled(s, step) {
      match step {
        case Edit(_, _, _, _) => LocalStep(s, step);
        case Flush(_, _) => LocalStep(s, step);
        case Claim(_, _) => ClaimStep(s, step);
        case Read(_) => ClaimStep(s, step);
        case Drop(_) => ClaimStep(s, step);
        case Settle(_) => SettleStep(s, step);
        case Put(_, _, _, _) => PutStep(s, step);
        case RemoteEdit(_, _, _) => RemoteEditStep(s, step);
        case BeginPull(_, _) => BeginStep(s, step);
        case FinishPull => EndStep(s, step);
        case AbortPull => EndStep(s, step);
        case PullDoc => PullStep(s);
      }
    }
  }
}
