// The push worker (sync/push.rs): draining the queue while it runs, and at shutdown.
module PushWorker {
  import opened Basics
  import opened PushQueue
  import opened Database

  // Records the server's answer to `job`; `cleaned` is the inode whose remote row went with
  // a deleted document.
  method Settle(db: Db, job: Job, answer: Answer, now: int) returns (cleaned: Option<nat>)
    modifies db`rows, db`dirty, db`remote
    ensures db.rows == Finalize(old(db.rows), job, answer, now)
    ensures var pass := Pass(job, now, Some(answer), cleaned);
      && Cleans(old(db.remote), pass)
      && db.dirty == old(db.dirty) - UnflaggedBy(pass)
      && db.remote == old(db.remote) - CleanedBy(pass)
  {
    cleaned := None;
    match answer
    case Done =>
      db.PushQueueFinalizeSuccess(job.path, now);
      if job.op.kind == Write {
        if job.op.contentIno.Some? {
          db.SetDirtySince(job.op.contentIno.value, None);
        }
      } else if job.op.kind == Delete {
        cleaned := db.InoByRemotePath(job.path);
        if cleaned.Some? {
          db.SetDirtySince(cleaned.value, None);
          db.DeleteRemotePath(cleaned.value);
        }
      }
    case Failed(e) =>
      if IsFatal(e) {
        db.PushQueuePoison(job.path, now);
      } else {
        var backoff := Backoff(job.attempt);
        db.PushQueueFinalizeFailure(job.path, now, backoff);
      }
  }

  // One iteration of the worker loop: claim, and either poison a job that is out of
  // attempts or send it; `answer` is what the server says if asked.
  method DrainOnce(db: Db, answer: Answer, now: int) returns (pass: Option<Pass>)
    modifies db`rows, db`dirty, db`remote
    ensures pass.None? <==> forall p :: p in old(db.rows) ==> !Claimable(old(db.rows), p, now)
    ensures pass.None? ==> db.rows == old(db.rows) && db.dirty == old(db.dirty) && db.remote == old(db.remote)
    ensures pass.Some? ==>
      && IsPass(old(db.rows), pass.value)
      && Driven(pass.value, answer, now)
      && Cleans(old(db.remote), pass.value)
      && db.rows == AfterPass(old(db.rows), pass.value)
      && db.dirty == old(db.dirty) - UnflaggedBy(pass.value)
      && db.remote == old(db.remote) - CleanedBy(pass.value)
  {
    var claimed := db.PushQueueClaimNext(now);
    if claimed.None? {
      return None;
    }
    var job := claimed.value;
    if job.attempt >= MAX_ATTEMPTS {
      db.PushQueuePoison(job.path, now);
      return Some(Pass(job, now, None, None));
    }
    var cleaned := Settle(db, job, answer, now);
    pass := Some(Pass(job, now, Some(answer), cleaned));
  }

  // One pass of the push worker: iterate until nothing is claimable. `server` and
  // `clock` drive the i-th iteration, with no assumption on either. The returned log
  // replays the pass.
  method DrainAvailable(db: Db, server: nat -> Answer, clock: nat -> int) returns (log: seq<Pass>)
    requires AttemptsOk(db.rows)
    modifies db`rows, db`dirty, db`remote
    ensures DrainLog(old(db.rows), old(db.remote), log, server, clock) && db.rows == Replay(old(db.rows), log)
    ensures AttemptsOk(db.rows)
    ensures |log| <= Budget(old(db.rows))
    ensures forall p :: p in db.rows ==> !Claimable(db.rows, p, clock(|log|))
    ensures db.dirty == old(db.dirty) - Unflagged(log)
    ensures db.remote == old(db.remote) - Cleaned(log)
  {
    hide AfterPass, IsPass, Cleans, Budget, AttemptsOk, UnflaggedBy, CleanedBy;
    log := [];
    BudgetNonNegative(db.rows);
    while true
      invariant AttemptsOk(db.rows)
      invariant DrainLog(old(db.rows), old(db.remote), log, server, clock) && db.rows == Replay(old(db.rows), log)
      invariant 0 <= Budget(db.rows) <= Budget(old(db.rows)) - |log|
      invariant db.dirty == old(db.dirty) - Unflagged(log)
      invariant db.remote == old(db.remote) - Cleaned(log)
      decreases Budget(db.rows)
    {
      ghost var before := db.rows;
      var pass := DrainOnce(db, server(|log|), clock(|log|));
      if pass.None? {
        break;
      }
      PassSpendsBudget(before, pass.value);
      LogExtends(old(db.rows), old(db.remote), log, pass.value, server, clock);
      MinusTwice(old(db.dirty), Unflagged(log), UnflaggedBy(pass.value));
      MinusTwice(old(db.remote), Cleaned(log), CleanedBy(pass.value));
      log := log + [pass.value];
    }
  }

  // One turn of the shutdown drain: it claims a job, lets go of it, and drains the rest.
  // The job it let go of stays in flight.
  method DrainTurn(db: Db, server: nat -> Answer, first: int, clock: nat -> int) returns (leaked: Option<Path>)
    requires AttemptsOk(db.rows)
    modifies db`rows, db`dirty, db`remote
    ensures AttemptsOk(db.rows)
    ensures forall p :: p in old(db.rows) && old(db.rows)[p].inflight.Some? ==>
      p in db.rows && db.rows[p] == old(db.rows)[p]
    ensures leaked.None? ==> db.rows == old(db.rows) && forall p :: p in old(db.rows) ==>
      !Claimable(old(db.rows), p, first)
    ensures leaked.Some? ==> leaked.value in old(db.rows) && Stranded(old(db.rows), db.rows, leaked.value, first)
  {
    var job := db.PushQueueClaimNext(first);
    if job.None? {
      return None;
    }
    ghost var before, remote := db.rows, db.remote;
    var log := DrainAvailable(db, server, clock);
    InflightUntouched(before, remote, log, server, clock);
    leaked := Some(job.value.path);
  }

  // The shutdown drain, for at most `turns` turns before its timeout. A job that was
  // claimable when it began is left in flight, pushed by nobody, so the queue does not
  // empty.
  method DrainRemaining(db: Db, turns: nat, server: (nat, nat) -> Answer, clock: (nat, nat) -> int)
    requires AttemptsOk(db.rows)
    modifies db`rows, db`dirty, db`remote
    ensures AttemptsOk(db.rows)
    ensures forall p :: p in old(db.rows) && old(db.rows)[p].inflight.Some? ==>
      p in db.rows && db.rows[p] == old(db.rows)[p]
    ensures turns > 0 && (exists p :: p in old(db.rows) && Claimable(old(db.rows), p, clock(0, 0))) ==>
      exists p :: p in old(db.rows) && Stranded(old(db.rows), db.rows, p, clock(0, 0))
  {
    if turns == 0 || db.rows == map[] {
      return;
    }
    var leaked := DrainTurn(db, (k: nat) => server(0, k), clock(0, 0), (k: nat) => clock(0, k + 1));
    ghost var mid := db.rows;
    var i := 1;
    while i < turns && db.rows != map[]
      invariant AttemptsOk(db.rows)
      invariant forall p :: p in mid && mid[p].inflight.Some? ==> p in db.rows && db.rows[p] == mid[p]
    {
      var _ := DrainTurn(db, (k: nat) => server(i, k), clock(i, 0), (k: nat) => clock(i, k + 1));
      i := i + 1;
    }
    assert leaked.Some? ==> Stranded(old(db.rows), db.rows, leaked.value, clock(0, 0));
  }

  lemma MinusTwice<V>(m: map<nat, V>, a: set<nat>, b: set<nat>)
    ensures m - a - b == m - (a + b)
  {
  }
}
