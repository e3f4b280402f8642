// What failures do to a row over whole runs: which answers poison it and which are tried
// again, after how many of them it is given up, and how long each wait is.
module PushRetries {
  import opened Basics
  import opened PushQueue
  import opened PushRuns

  // Milliseconds to wait after the failure of a job with so many failures behind it.
  const DELAYS: seq<int> := [500, 1000, 2000, 4000, 8000, 16000, 30000, 30000, 30000, 30000]

  lemma DelayIs(attempt: nat)
    requires attempt < 10
    ensures Backoff(attempt) == DELAYS[attempt]
  {
    Pow2Values();
  }

  // ---- One settled job --------------------------------------------------------------------------

  // A refusal the server will repeat poisons the row at once; any other failure counts one
  // attempt more and stamps the row ahead.
  lemma FailureSettles(s: Sys, w: nat)
    requires Exclusive(s) && Enabled(s, Settle(w)) && s.workers[w].answer.Some? && s.workers[w].answer.value.Failed?
    ensures var h, t := s.workers[w], Apply(s, Settle(w));
      var p, e := h.job.path, h.answer.value.error;
      && p in s.rows && s.rows[p].attempt < 10 && !s.rows[p].poisoned && w !in t.workers
      && (e.Auth? || e.Forbidden? || e.FsContract? || e.Rejected? ==>
            t.rows == s.rows[p := s.rows[p].(poisoned := true, inflight := None, updatedAt := h.since)])
      && (e.NotFound? || e.Conflict? || e.RateLimited? || e.Server? || e.Network? ==>
            t.rows == s.rows[p := s.rows[p].(inflight := None, attempt := s.rows[p].attempt + 1,
              updatedAt := h.since + DELAYS[s.rows[p].attempt])])
  {
    assert Owns(s, w);
    DelayIs(s.rows[s.workers[w].job.path].attempt);
    hide Backoff;
  }

  // A success frees the row, or hands it to the op that was waiting, at once and with all
  // attempts.
  lemma SuccessSettles(s: Sys, w: nat)
    requires Exclusive(s) && Enabled(s, Settle(w)) && s.workers[w].answer == Some(Done)
    ensures var h, t := s.workers[w], Apply(s, Settle(w));
      var p := h.job.path;
      && p in s.rows && w !in t.workers
      && t.rows == match s.rows[p].pending
           case None => s.rows - {p}
           case Some(op) => s.rows[p := Row(op, None, None, 0, h.since, false)]
  {
    assert Owns(s, w);
  }

  // A job that used up its attempts is not sent, and poisons the row.
  lemma UsedUpSettles(s: Sys, w: nat)
    requires Exclusive(s) && Enabled(s, Settle(w)) && s.workers[w].answer.None?
    ensures var h, t := s.workers[w], Apply(s, Settle(w));
      var p := h.job.path;
      && p in s.rows && s.rows[p].attempt == 10 && t.sent == s.sent
      && t.rows == s.rows[p := s.rows[p].(poisoned := true, inflight := None, updatedAt := h.since)]
  {
    assert Owns(s, w);
  }

  // ---- How a row comes to be poisoned ------------------------------------------------------------------

  // `step` settles the job of `p` with an answer.
  ghost predicate Answers(s: Sys, step: Step, p: Path) {
    step.Settle? && Enabled(s, step) && s.workers[step.worker].job.path == p && s.workers[step.worker].answer.Some?
  }

  // The retryable failures of the op now in the row of `p`: those since its last success, and
  // since the last enqueue that replaced it.
  ghost function FailCount(steps: seq<Step>, p: Path): nat {
    if steps == [] then 0
    else
      var front, step := steps[..|steps| - 1], steps[|steps| - 1];
      var s, n := Run(INIT, front), FailCount(front, p);
      if Answers(s, step, p) then
        match s.workers[step.worker].answer.value
        case Done => 0
        case Failed(e) => if e.NotFound? || e.Conflict? || e.RateLimited? || e.Server? || e.Network? then n + 1 else n
      else if step.Enqueue? && step.path == p && Enabled(s, step) && !(p in s.rows && s.rows[p].inflight.Some?) then 0
      else n
  }

  // A refusal, or the eleventh claim.
  ghost predicate Poisons(s: Sys, step: Step, p: Path, failures: nat) {
    && step.Settle? && Enabled(s, step) && s.workers[step.worker].job.path == p
    && match s.workers[step.worker].answer
       case None => failures == 10
       case Some(answer) =>
         answer.Failed?
         && (answer.error.Auth? || answer.error.Forbidden? || answer.error.FsContract? || answer.error.Rejected?)
  }

  // The count is kept, and noise has no row.
  ghost predicate Counted(s: Sys, p: Path, failures: nat) {
    p in s.rows ==> s.rows[p].attempt == failures && !IsNoisePath(p)
  }

  lemma CountStep(s: Sys, steps: seq<Step>, step: Step, p: Path)
    requires Exclusive(s) && s == Run(INIT, steps) && Counted(s, p, FailCount(steps, p))
    ensures Counted(Apply(s, step), p, FailCount(steps + [step], p))
  {
    assert (steps + [step])[..|steps|] == steps;
    if step.Settle? && Enabled(s, step) {
      CountSettle(s, step.worker, p);
    }
    hide IsNoisePath, IsNext;
  }

  lemma CountSettle(s: Sys, w: nat, p: Path)
    requires Exclusive(s) && Enabled(s, Settle(w))
    ensures var h, t := s.workers[w], Apply(s, Settle(w));
      && (p != h.job.path ==> (p in t.rows <==> p in s.rows) && (p in t.rows ==> t.rows[p] == s.rows[p]))
      && (p == h.job.path && p in t.rows ==>
            p in s.rows && match h.answer
              case None => t.rows[p].attempt == s.rows[p].attempt
              case Some(Done) => t.rows[p].attempt == 0
              case Some(Failed(e)) =>
                t.rows[p].attempt == s.rows[p].attempt
                  + if e.NotFound? || e.Conflict? || e.RateLimited? || e.Server? || e.Network? then 1 else 0)
  {
    assert Owns(s, w);
    SettleEffect(s, w);
    match s.workers[w].answer {
      case None => UsedUpSettles(s, w);
      case Some(Done) => SuccessSettles(s, w);
      case Some(Failed(_)) => FailureSettles(s, w);
    }
    hide Apply, Enabled;
  }

  // In every interleaving the attempt count of a row is the number of retryable failures of
  // its op.
  lemma {:induction false} AttemptsAreFailures(steps: seq<Step>, p: Path)
    ensures Counted(Run(INIT, steps), p, FailCount(steps, p))
  {
    if steps != [] {
      var front := steps[..|steps| - 1];
      AttemptsAreFailures(front, p);
      MutualExclusion(front);
      hide Apply, FailCount, Counted;
      assert steps == front + [steps[|steps| - 1]];
      CountStep(Run(INIT, front), front, steps[|steps| - 1], p);
    }
  }

  // A row is poisoned only by one of the four refusals, or after ten retryable failures.
  lemma {:induction false} PoisonedOnlySo(steps: seq<Step>, p: Path)
    requires p in Run(INIT, steps).rows && Run(INIT, steps).rows[p].poisoned
    ensures exists i :: 0 <= i < |steps| && Poisons(Run(INIT, steps[..i]), steps[i], p, FailCount(steps[..i], p))
  {
    var n := |steps| - 1;
    var s, step := Run(INIT, steps[..n]), steps[n];
    MutualExclusion(steps[..n]);
    if p in s.rows && s.rows[p].poisoned {
      PoisonedOnlySo(steps[..n], p);
      var i :| 0 <= i < n && Poisons(Run(INIT, steps[..n][..i]), steps[..n][i], p, FailCount(steps[..n][..i], p));
      assert steps[..n][..i] == steps[..i];
    } else {
      AttemptsAreFailures(steps[..n], p);
      PoisoningStep(s, step, p);
    }
  }

  lemma PoisoningStep(s: Sys, step: Step, p: Path)
    requires Exclusive(s) && !(p in s.rows && s.rows[p].poisoned)
    requires p in Apply(s, step).rows && Apply(s, step).rows[p].poisoned
    ensures p in s.rows && Poisons(s, step, p, s.rows[p].attempt)
  {
    if step.Settle? && Enabled(s, step) {
      assert Owns(s, step.worker);
      SettleEffect(s, step.worker);
      match s.workers[step.worker].answer {
        case None => UsedUpSettles(s, step.worker);
        case Some(Done) =>
        case Some(Failed(_)) => FailureSettles(s, step.worker);
      }
    } else {
      hide IsNoisePath, IsNext;
    }
  }

  // No worker is stuck: a job with attempts left can be sent, with any answer, and then, or
  // without attempts left at once, settled.
  lemma WorkerFinishes(s: Sys, w: nat, answer: Answer)
    requires Exclusive(s) && w in s.workers
    ensures var h, t := s.workers[w], Apply(s, Execute(w, answer));
      if h.answer.Some? || h.job.attempt >= 10 then t == s && Apply(s, Settle(w)).workers == s.workers - {w}
      else
        && w in t.workers && t.workers[w] == h.(answer := Some(answer)) && t.rows == s.rows
        && t.sent == s.sent + [Send(h.job.path, h.job.op.ticket, answer == Done)]
        && Apply(t, Settle(w)).workers == s.workers - {w}
  {
    hide Finalize, Poison;
  }

  // ---- How long the next attempt waits -------------------------------------------------------------------

  // The job of `p` settles after a failure that is tried again.
  ghost predicate FailsOnce(s: Sys, w: nat) {
    && Exclusive(s) && Enabled(s, Settle(w)) && s.workers[w].answer.Some? && s.workers[w].answer.value.Failed?
    && var e := s.workers[w].answer.value.error;
       e.NotFound? || e.Conflict? || e.RateLimited? || e.Server? || e.Network?
  }

  // The reading the row is ready at after that.
  function ReadyAt(s: Sys, w: nat): int
    requires w in s.workers && s.workers[w].job.attempt < 10
  {
    s.workers[w].since + DELAYS[s.workers[w].job.attempt]
  }

  lemma FailedWaits(s: Sys, w: nat)
    requires FailsOnce(s, w)
    ensures s.workers[w].job.attempt < 10
    ensures Exclusive(Apply(s, Settle(w))) && Waiting(Apply(s, Settle(w)), s.workers[w].job.path, ReadyAt(s, w))
  {
    assert Owns(s, w);
    FailureSettles(s, w);
    ExclusiveStep(s, Settle(w));
  }

  lemma {:induction false} WaitsOut(s: Sys, steps: seq<Step>, p: Path, ready: int)
    requires Exclusive(s) && Waiting(s, p, ready)
    requires forall i :: 0 <= i < |steps| ==> !(steps[i].Enqueue? && steps[i].path == p)
    ensures var t := Run(s, steps); Exclusive(t) && (Waiting(t, p, ready) || ready <= t.clock)
  {
    if steps != [] {
      var front, last := steps[..|steps| - 1], steps[|steps| - 1];
      WaitsOut(s, front, p, ready);
      var mid := Run(s, front);
      ExclusiveStep(mid, last);
      if Waiting(mid, p, ready) && !Touches(last, p) { WaitingStays(mid, last, p, ready); }
      hide Exclusive, IsNext, IsNoisePath;
    }
  }

  // Until the wait is over the path is not claimed, unless it is enqueued again.
  lemma RetryWaits(s: Sys, w: nat, steps: seq<Step>, i: nat)
    requires FailsOnce(s, w) && i < |steps|
    requires forall j :: 0 <= j < |steps| ==> !(steps[j].Enqueue? && steps[j].path == s.workers[w].job.path)
    requires steps[i].Claim? && steps[i].path == s.workers[w].job.path
    requires Enabled(Run(Apply(s, Settle(w)), steps[..i]), steps[i])
    ensures s.workers[w].job.attempt < 10 && ReadyAt(s, w) <= steps[i].now
  {
    FailedWaits(s, w);
    WaitsOut(Apply(s, Settle(w)), steps[..i], s.workers[w].job.path, ReadyAt(s, w));
    hide Exclusive, FailsOnce, Run;
  }

  lemma {:induction false} StillWaiting(s: Sys, steps: seq<Step>, p: Path, ready: int)
    requires Exclusive(s) && Waiting(s, p, ready)
    requires forall i :: 0 <= i < |steps| ==> !Touches(steps[i], p)
    ensures Exclusive(Run(s, steps)) && Waiting(Run(s, steps), p, ready)
  {
    if steps != [] {
      var front, last := steps[..|steps| - 1], steps[|steps| - 1];
      StillWaiting(s, front, p, ready);
      ExclusiveStep(Run(s, front), last);
      WaitingStays(Run(s, front), last, p, ready);
    }
  }

  // And from then on it can be: by any free worker, once no row comes before it.
  lemma RetryReadyIff(s: Sys, w: nat, steps: seq<Step>, v: nat, now: int)
    requires FailsOnce(s, w)
    requires forall i :: 0 <= i < |steps| ==> !Touches(steps[i], s.workers[w].job.path)
    requires var t := Run(Apply(s, Settle(w)), steps); t.clock <= now && v !in t.workers
    ensures s.workers[w].job.attempt < 10
    ensures var t, p := Run(Apply(s, Settle(w)), steps), s.workers[w].job.path;
      Enabled(t, Claim(v, p, now)) <==>
        && ReadyAt(s, w) <= now
        && forall q :: q in t.rows && t.rows[q].inflight.None? && !t.rows[q].poisoned && t.rows[q].updatedAt <= now ==>
             ReadyAt(s, w) <= t.rows[q].updatedAt
  {
    FailedWaits(s, w);
    StillWaiting(Apply(s, Settle(w)), steps, s.workers[w].job.path, ReadyAt(s, w));
    hide Exclusive, FailsOnce, Run, ReadyAt;
  }

  // ---- What an enqueue leaves ------------------------------------------------------------------------------

  // A new op of an ordinary path goes into the pending slot while the row is in flight.
  // Otherwise it is the row's op at once, ready at its own reading with all attempts, but for
  // the poison of the row.
  lemma EnqueueLeaves(s: Sys, step: Step)
    requires step.Enqueue? && Enabled(s, step) && !IsNoisePath(step.path)
    ensures var p, t := step.path, Apply(s, step);
      var op := Op(step.kind, step.contentIno, step.renameTo, s.next);
      && (forall q :: q != p ==>
            (q in t.rows <==> q in s.rows) && (q in s.rows && q in t.rows ==> t.rows[q] == s.rows[q]))
      && p in t.rows && t.rows[p].updatedAt == step.now && t.workers == s.workers && t.sent == s.sent
      && t.latest == s.latest[p := s.next] && t.next == s.next + 1
      && (p in s.rows && s.rows[p].inflight.Some? ==>
            && t.rows[p].pending == Some(op)
            && t.rows[p].(pending := None, updatedAt := 0) == s.rows[p].(pending := None, updatedAt := 0))
      && (p !in s.rows || s.rows[p].inflight.None? ==>
            && t.rows[p].op == op && t.rows[p].attempt == 0 && t.rows[p].inflight.None?
            && (t.rows[p].poisoned <==> p in s.rows && s.rows[p].poisoned)
            && t.rows[p].pending == if p in s.rows then s.rows[p].pending else None)
  {
    hide IsNoisePath;
  }

  // ---- A drain, iteration by iteration ----------------------------------------------------------------------

  // What one iteration leaves of the row it claimed.
  lemma PassLeaves(rows: Rows, pass: Pass)
    requires AttemptsOk(rows) && IsPass(rows, pass)
    ensures var p := pass.job.path;
      && p in rows && rows[p].inflight.None? && !rows[p].poisoned
      && var given := rows[p := rows[p].(poisoned := true, updatedAt := pass.now)];
         AfterPass(rows, pass) ==
           match pass.answer
           case None => given
           case Some(Done) =>
             (match rows[p].pending
              case None => rows - {p}
              case Some(op) => rows[p := Row(op, None, None, 0, pass.now, false)])
           case Some(Failed(e)) =>
             if e.Auth? || e.Forbidden? || e.FsContract? || e.Rejected? then given
             else rows[p := rows[p].(attempt := rows[p].attempt + 1, updatedAt := pass.now + DELAYS[rows[p].attempt])]
  {
    var p := pass.job.path;
    if pass.answer.Some? { DelayIs(rows[p].attempt); }
    hide Backoff;
  }

  // The k-th iteration claims, by the k-th reading, a ready row of least stamp, and asks the
  // server unless ten attempts are used up.
  lemma {:induction false} DrainedInOrder(rows: Rows, remote: map<nat, string>, log: seq<Pass>,
    server: nat -> Answer, clock: nat -> int, k: nat)
    requires DrainLog(rows, remote, log, server, clock) && k < |log|
    ensures var before, p := Replay(rows, log[..k]), log[k].job.path;
      && p in before && before[p].inflight.None? && !before[p].poisoned && before[p].updatedAt <= clock(k)
      && (forall q ::
            q in before && before[q].inflight.None? && !before[q].poisoned && before[q].updatedAt <= clock(k) ==>
              before[p].updatedAt <= before[q].updatedAt)
      && log[k].job == Job(p, before[p].op, before[p].attempt) && log[k].now == clock(k)
      && log[k].answer == if before[p].attempt >= 10 then None else Some(server(k))
  {
    var n := |log| - 1;
    if k < n {
      DrainedInOrder(rows, remote, log[..n], server, clock, k);
      assert log[..n][..k] == log[..k];
    }
  }

  // The iteration sent a write of this inode, or deleted a document and cleaned up after it,
  // and the server said yes.
  predicate Wrote(pass: Pass, i: nat) {
    pass.answer == Some(Done) && pass.job.op.kind == Write && pass.job.op.contentIno == Some(i)
  }

  predicate Deleted(pass: Pass, i: nat) {
    pass.answer == Some(Done) && pass.job.op.kind == Delete && pass.cleaned == Some(i)
  }

  // The flags that are gone after a drain are those of its successful writes, and of the inodes
  // whose remote rows are gone; these are recorded for documents it deleted.
  lemma {:induction false} UnflaggedIff(rows: Rows, remote: map<nat, string>, log: seq<Pass>,
    server: nat -> Answer, clock: nat -> int, i: nat)
    requires DrainLog(rows, remote, log, server, clock)
    ensures i in Cleaned(log) <==> exists k :: 0 <= k < |log| && Deleted(log[k], i)
    ensures i in Unflagged(log) <==> exists k :: 0 <= k < |log| && (Deleted(log[k], i) || Wrote(log[k], i))
    ensures forall k :: 0 <= k < |log| && Deleted(log[k], i) ==> i in remote && remote[i] == log[k].job.path
  {
    hide IsPass, Driven, Replay;
    if log != [] {
      var n := |log| - 1;
      UnflaggedIff(rows, remote, log[..n], server, clock, i);
      assert Cleaned(log) == Cleaned(log[..n]) + CleanedBy(log[n]);
      assert Unflagged(log) == Unflagged(log[..n]) + UnflaggedBy(log[n]);
      assert i in CleanedBy(log[n]) <==> Deleted(log[n], i);
      assert i in UnflaggedBy(log[n]) <==> Deleted(log[n], i) || Wrote(log[n], i);
      assert forall k :: 0 <= k < n ==> log[..n][k] == log[k];
    }
  }

  // A document that was deleted and recorded for one inode is recorded no more.
  lemma {:induction false} DeletedIsCleaned(rows: Rows, remote: map<nat, string>, log: seq<Pass>,
    server: nat -> Answer, clock: nat -> int, k: nat, i: nat)
    requires DrainLog(rows, remote, log, server, clock) && k < |log|
    requires log[k].answer == Some(Done) && log[k].job.op.kind == Delete
    requires i in remote && remote[i] == log[k].job.path && forall j :: j in remote && remote[j] == remote[i] ==> j == i
    ensures i in Cleaned(log)
  {
    hide IsPass, Driven, Replay;
    var n := |log| - 1;
    if k < n {
      DeletedIsCleaned(rows, remote, log[..n], server, clock, k, i);
    } else if i !in Cleaned(log[..n]) {
      var left := remote - Cleaned(log[..n]);
      assert i in left && left[i] == log[n].job.path;
      assert log[n].job.path in left.Values;
    }
  }
}
