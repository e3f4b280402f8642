// The persistent push queue (cache/db.rs) and what draining it does to it
// (sync/push.rs): one row per path, latest-wins, with an in-flight mark, a
// pending slot, retries with backoff, and poisoning. The functions here are the
// specification of the queue methods of `Db` and of `PushWorker`.
module PushQueue {
  import opened Basics

  type Path = string

  datatype OpKind = Write | Delete | Rename

  // `ticket` numbers enqueues. It is history only: nothing branches on it, but it
  // lets statements about runs say which enqueue an op came from.
  datatype Op = Op(kind: OpKind, contentIno: Option<nat>, renameTo: Option<string>, ticket: nat)

  datatype Row = Row(op: Op, pending: Option<Op>, inflight: Option<int>, attempt: nat, updatedAt: int, poisoned: bool)

  type Rows = map<Path, Row>

  datatype Job = Job(path: Path, op: Op, attempt: nat)

  // The server's answers to one push, as the API client classifies them.
  datatype ApiError =
    | Auth | Forbidden | NotFound | Conflict | FsContract | RateLimited
    | Server(status: nat) | Rejected(status: nat) | Network

  datatype Answer = Done | Failed(error: ApiError)

  const MAX_ATTEMPTS := 10
  const BASE_BACKOFF_MS := 500

  // ---- Noise paths ---------------------------------------------------------

  function FirstComponent(s: string): string {
    if s == "" || s[0] == '/' then "" else [s[0]] + FirstComponent(s[1..])
  }

  function BaseName(s: string): string {
    if s == "" || s[|s| - 1] == '/' then "" else BaseName(s[..|s| - 1]) + [s[|s| - 1]]
  }

  // Files the operating system drops everywhere; they are never pushed.
  predicate IsNoisePath(path: Path) {
    var trimmed := TrimStart(path, '/');
    var first, base := FirstComponent(trimmed), BaseName(trimmed);
    && trimmed != ""
    && (|| ".Spotlight-V100" <= first || ".Trashes" <= first || ".fseventsd" <= first || ".TemporaryItems" <= first
        || "._" <= base
        || base in {".DS_Store", ".localized", ".apdisk", ".VolumeIcon.icns", ".metadata_never_index",
                    ".metadata_never_index_unless_rootfs", ".com.apple.timemachine.donotpresent", "Icon\r"})
  }

  // ---- What each statement does to the table --------------------------------

  function Upsert(rows: Rows, path: Path, op: Op, now: int): Rows {
    if IsNoisePath(path) then rows
    else if path !in rows then rows[path := Row(op, None, None, 0, now, false)]
    else if rows[path].inflight.Some? then rows[path := rows[path].(pending := Some(op), updatedAt := now)]
    else rows[path := rows[path].(op := op, attempt := 0, updatedAt := now)]
  }

  predicate Claimable(rows: Rows, path: Path, now: int) {
    && path in rows
    && rows[path].inflight.None?
    && !rows[path].poisoned
    && rows[path].updatedAt <= now
  }

  // `path` may be the row the claim query returns: claimable and of least stamp.
  // Equal stamps may come in any order.
  predicate IsNext(rows: Rows, path: Path, now: int) {
    && Claimable(rows, path, now)
    && forall q :: q in rows && Claimable(rows, q, now) ==> rows[path].updatedAt <= rows[q].updatedAt
  }

  function JobOf(rows: Rows, path: Path): Job
    requires path in rows
  {
    Job(path, rows[path].op, rows[path].attempt)
  }

  function MarkInflight(rows: Rows, path: Path, now: int): Rows {
    if path in rows then rows[path := rows[path].(inflight := Some(now))] else rows
  }

  function Success(rows: Rows, path: Path, now: int): Rows {
    if path !in rows then rows
    else match rows[path].pending
      case Some(op) =>
        rows[path := rows[path].(op := op, pending := None, inflight := None, attempt := 0, updatedAt := now)]
      case None => rows - {path}
  }

  function Failure(rows: Rows, path: Path, now: int, backoff: int): Rows {
    if path !in rows then rows
    else rows[path := rows[path].(inflight := None, attempt := rows[path].attempt + 1, updatedAt := now + backoff)]
  }

  function Poison(rows: Rows, path: Path, now: int): Rows {
    if path !in rows then rows
    else rows[path := rows[path].(poisoned := true, inflight := None, updatedAt := now)]
  }

  predicate IsFatal(e: ApiError) {
    e.Auth? || e.Forbidden? || e.FsContract? || e.Rejected?
  }

  function Pow2(n: nat): int { if n == 0 then 1 else 2 * Pow2(n - 1) }

  function Backoff(attempt: nat): int { BASE_BACKOFF_MS * Min(Pow2(attempt), 60) }

  // What the drain loop does with a server answer; `now` is the reading taken
  // before the claim.
  function Finalize(rows: Rows, job: Job, answer: Answer, now: int): Rows {
    match answer
    case Done => Success(rows, job.path, now)
    case Failed(e) =>
      if IsFatal(e) then Poison(rows, job.path, now)
      else Failure(rows, job.path, now, Backoff(job.attempt))
  }

  // ---- Meaning of a drain -----------------------------------------------------

  // One loop iteration: the job, the clock reading, the answer (none when the job was
  // poisoned unsent for having used up its attempts), and the inode whose remote row went
  // with a deleted document.
  datatype Pass = Pass(job: Job, now: int, answer: Option<Answer>, cleaned: Option<nat>)

  ghost predicate IsPass(rows: Rows, pass: Pass) {
    && IsNext(rows, pass.job.path, pass.now)
    && pass.job == JobOf(rows, pass.job.path)
    && (pass.answer.None? <==> pass.job.attempt >= MAX_ATTEMPTS)
  }

  function AfterPass(rows: Rows, pass: Pass): Rows {
    var claimed := MarkInflight(rows, pass.job.path, pass.now);
    match pass.answer
    case None => Poison(claimed, pass.job.path, pass.now)
    case Some(answer) => Finalize(claimed, pass.job, answer, pass.now)
  }

  // The table after the iterations of `log`.
  function Replay(rows: Rows, log: seq<Pass>): Rows {
    if log == [] then rows
    else AfterPass(Replay(rows, log[..|log| - 1]), log[|log| - 1])
  }

  // The iteration saw this answer and this clock reading.
  ghost predicate Driven(pass: Pass, answer: Answer, now: int) {
    pass.now == now && (pass.answer.Some? ==> pass.answer.value == answer)
  }

  // A successful delete takes away a remote row of the path, if there is one; nothing else does.
  ghost predicate Cleans(remote: map<nat, string>, pass: Pass) {
    if pass.answer == Some(Done) && pass.job.op.kind == Delete then
      && (pass.cleaned.None? <==> pass.job.path !in remote.Values)
      && (pass.cleaned.Some? ==> pass.cleaned.value in remote && remote[pass.cleaned.value] == pass.job.path)
    else pass.cleaned.None?
  }

  function CleanedBy(pass: Pass): set<nat> {
    if pass.cleaned.Some? then {pass.cleaned.value} else {}
  }

  // Inodes whose remote rows went in `log`.
  function Cleaned(log: seq<Pass>): set<nat> {
    if log == [] then {}
    else Cleaned(log[..|log| - 1]) + CleanedBy(log[|log| - 1])
  }

  // Each iteration of `log` is the one the loop makes there, driven by `server` and `clock`.
  ghost predicate DrainLog(rows: Rows, remote: map<nat, string>, log: seq<Pass>, server: nat -> Answer,
    clock: nat -> int) {
    log != [] ==>
      var n := |log| - 1;
      && DrainLog(rows, remote, log[..n], server, clock)
      && IsPass(Replay(rows, log[..n]), log[n])
      && Driven(log[n], server(n), clock(n))
      && Cleans(remote - Cleaned(log[..n]), log[n])
  }

  function PushedBy(pass: Pass): set<nat> {
    if pass.answer == Some(Done) && pass.job.op.kind == Write && pass.job.op.contentIno.Some?
    then {pass.job.op.contentIno.value} else {}
  }

  function UnflaggedBy(pass: Pass): set<nat> { PushedBy(pass) + CleanedBy(pass) }

  // Inodes whose dirty flag `log` clears: their write reached the server, or their document
  // was deleted there.
  function Unflagged(log: seq<Pass>): set<nat> {
    if log == [] then {}
    else Unflagged(log[..|log| - 1]) + UnflaggedBy(log[|log| - 1])
  }

  lemma LogExtends(rows: Rows, remote: map<nat, string>, log: seq<Pass>, pass: Pass, server: nat -> Answer,
    clock: nat -> int)
    requires DrainLog(rows, remote, log, server, clock) && IsPass(Replay(rows, log), pass)
    requires Driven(pass, server(|log|), clock(|log|)) && Cleans(remote - Cleaned(log), pass)
    ensures DrainLog(rows, remote, log + [pass], server, clock)
    ensures Replay(rows, log + [pass]) == AfterPass(Replay(rows, log), pass)
    ensures Unflagged(log + [pass]) == Unflagged(log) + UnflaggedBy(pass)
    ensures Cleaned(log + [pass]) == Cleaned(log) + CleanedBy(pass)
  {
    assert (log + [pass])[..|log|] == log;
  }

  // The row of `p` was ready and is now marked in flight, otherwise as it was.
  ghost predicate Stranded(before: Rows, after: Rows, p: Path, now: int)
    requires p in before
  {
    before[p].inflight.None? && p in after && after[p] == before[p].(inflight := Some(now))
  }

  // A drain leaves alone every row that was in flight when it began.
  lemma {:induction false} InflightUntouched(rows: Rows, remote: map<nat, string>, log: seq<Pass>,
    server: nat -> Answer, clock: nat -> int)
    requires DrainLog(rows, remote, log, server, clock)
    ensures forall p :: p in rows && rows[p].inflight.Some? ==>
      p in Replay(rows, log) && Replay(rows, log)[p] == rows[p]
  {
    if log != [] {
      InflightUntouched(rows, remote, log[..|log| - 1], server, clock);
    }
  }

  ghost predicate AttemptsOk(rows: Rows) {
    forall p :: p in rows ==> rows[p].attempt <= MAX_ATTEMPTS
  }

  // ---- Termination budget -------------------------------------------------------

  // What a row can still cost: its remaining attempts, one iteration to poison it,
  // and as much again for an op waiting in the pending slot.
  function RowBudget(row: Row): int {
    if row.poisoned then 0
    else (MAX_ATTEMPTS + 1 - row.attempt) + (if row.pending.Some? then MAX_ATTEMPTS + 1 else 0)
  }

  ghost function Budget(rows: Rows): int {
    if rows == map[] then 0
    else
      var p :| p in rows;
      RowBudget(rows[p]) + Budget(rows - {p})
  }

  lemma {:induction false} BudgetSplit(rows: Rows, p: Path)
    requires p in rows
    ensures Budget(rows) == RowBudget(rows[p]) + Budget(rows - {p})
    decreases |rows|
  {
    var q :| q in rows && Budget(rows) == RowBudget(rows[q]) + Budget(rows - {q});
    if q != p {
      BudgetSplit(rows - {q}, p);
      BudgetSplit(rows - {p}, q);
      assert rows - {q} - {p} == rows - {p} - {q};
    }
  }

  lemma {:induction false} BudgetNonNegative(rows: Rows)
    requires AttemptsOk(rows)
    ensures Budget(rows) >= 0
    decreases |rows|
  {
    if rows != map[] {
      var p :| p in rows;
      BudgetSplit(rows, p);
      BudgetNonNegative(rows - {p});
    }
  }

  // Every iteration spends budget, whatever the server says.
  lemma PassSpendsBudget(rows: Rows, pass: Pass)
    requires AttemptsOk(rows) && IsPass(rows, pass)
    ensures AttemptsOk(AfterPass(rows, pass))
    ensures 0 <= Budget(AfterPass(rows, pass)) < Budget(rows)
  {
    var p, after := pass.job.path, AfterPass(rows, pass);
    assert after - {p} == rows - {p};
    BudgetSplit(rows, p);
    if p in after {
      BudgetSplit(after, p);
    } else {
      assert after == rows - {p};
    }
    BudgetNonNegative(after);
  }

  // Each doubling, spelled out up to the cap on attempts.
  lemma Pow2Values()
    ensures Pow2(0) == 1 && Pow2(1) == 2 && Pow2(2) == 4 && Pow2(3) == 8 && Pow2(4) == 16 && Pow2(5) == 32
    ensures Pow2(6) == 64 && Pow2(7) == 128 && Pow2(8) == 256 && Pow2(9) == 512 && Pow2(10) == 1024
  {
  }

  // While a job may still be sent, its backoff lies within 500..30000 ms and never
  // shrinks from one failure to the next; the power stays far from i64 overflow.
  lemma BackoffBounds(attempt: nat)
    requires attempt < MAX_ATTEMPTS
    ensures 500 <= Backoff(attempt) <= 30000
    ensures Backoff(attempt) <= Backoff(attempt + 1)
    ensures Pow2(attempt) <= 512
  {
    Pow2Values();
  }
}
