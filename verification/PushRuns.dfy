// Every interleaving of enqueuers and push workers over one queue. A worker's
// iteration is three separate steps (claim, send, settle), so anything may happen
// between them; a worker may also let go of its job, as the shutdown drain does with
// each job it claims (sync/push.rs) and as a killed process does.
module PushRuns {
  import opened Basics
  import opened PushQueue

  // A claimed job, the reading it was claimed at, and the answer once it was sent.
  datatype Held = Held(job: Job, since: int, answer: Option<Answer>)

  datatype Send = Send(path: Path, ticket: nat, ok: bool)

  datatype Sys = Sys(
    rows: Rows,
    workers: map<nat, Held>,    // busy workers only
    leaked: set<Path>,          // claimed, then let go of
    sent: seq<Send>,            // history: what reached the server
    latest: map<Path, nat>,     // history: ticket of the newest enqueue per path
    next: nat,                  // history: next ticket
    clock: int)

  datatype Step =
    | Enqueue(path: Path, kind: OpKind, contentIno: Option<nat>, renameTo: Option<string>, now: int)
    | Claim(worker: nat, path: Path, now: int)
    | Execute(worker: nat, answer: Answer)
    | Settle(worker: nat)
    | Drop(worker: nat)

  const INIT := Sys(map[], map[], {}, [], map[], 0, 0)

  ghost predicate Enabled(s: Sys, step: Step) {
    match step
    case Enqueue(_, _, _, _, now) => s.clock <= now
    case Claim(w, p, now) => s.clock <= now && w !in s.workers && Claimable(s.rows, p, now) && IsNext(s.rows, p, now)
    case Execute(w, _) => w in s.workers && s.workers[w].answer.None? && s.workers[w].job.attempt < MAX_ATTEMPTS
    case Settle(w) => w in s.workers && (s.workers[w].answer.Some? || s.workers[w].job.attempt >= MAX_ATTEMPTS)
    case Drop(w) => w in s.workers
  }

  function NewOp(s: Sys, step: Step): Op
    requires step.Enqueue?
  {
    Op(step.kind, step.contentIno, step.renameTo, s.next)
  }

  // A step that is not enabled changes nothing, so every list of steps is a run.
  ghost function Apply(s: Sys, step: Step): Sys {
    if !Enabled(s, step) then s
    else match step
      case Enqueue(p, _, _, _, now) =>
        if IsNoisePath(p) then s.(clock := now)
        else s.(rows := Upsert(s.rows, p, NewOp(s, step), now), latest := s.latest[p := s.next], next := s.next + 1,
          clock := now)
      case Claim(w, p, now) =>
        s.(rows := MarkInflight(s.rows, p, now), workers := s.workers[w := Held(JobOf(s.rows, p), now, None)],
          clock := now)
      case Execute(w, answer) =>
        var h := s.workers[w];
        s.(workers := s.workers[w := h.(answer := Some(answer))],
           sent := s.sent + [Send(h.job.path, h.job.op.ticket, answer.Done?)])
      case Settle(w) =>
        var h := s.workers[w];
        s.(workers := s.workers - {w},
           rows := match h.answer
             case None => Poison(s.rows, h.job.path, h.since)
             case Some(answer) => Finalize(s.rows, h.job, answer, h.since))
      case Drop(w) =>
        s.(workers := s.workers - {w}, leaked := s.leaked + {s.workers[w].job.path})
  }

  ghost function Run(s: Sys, steps: seq<Step>): Sys {
    if steps == [] then s else Apply(Run(s, steps[..|steps| - 1]), steps[|steps| - 1])
  }

  // ---- Mutual exclusion -----------------------------------------------------------

  // Worker `w` holds exactly the op and attempt count its row shows.
  ghost predicate Owns(s: Sys, w: nat) {
    && w in s.workers
    && var h := s.workers[w];
       && h.job.path in s.rows
       && h.job.path !in s.leaked
       && s.rows[h.job.path].inflight == Some(h.since)
       && s.rows[h.job.path].op == h.job.op
       && s.rows[h.job.path].attempt == h.job.attempt
       && (h.answer.Some? ==> h.job.attempt < MAX_ATTEMPTS)
  }

  // Two workers never hold one path, a job matches its row, and nobody holds a leaked
  // or poisoned row.
  ghost predicate Exclusive(s: Sys) {
    && AttemptsOk(s.rows)
    && (forall w :: w in s.workers ==> Owns(s, w))
    && (forall v, w :: v in s.workers && w in s.workers && v != w ==> s.workers[v].job.path != s.workers[w].job.path)
    && (forall p :: p in s.leaked ==> p in s.rows && s.rows[p].inflight.Some?)
    && (forall p :: p in s.rows && s.rows[p].inflight.Some? ==> !s.rows[p].poisoned)
  }

  ghost predicate HeldBySomeone(s: Sys, p: Path) {
    exists w :: w in s.workers && s.workers[w].job.path == p
  }

  // Every in-flight mark has its holder, or is a leak.
  ghost predicate Accounted(s: Sys) {
    forall p :: p in s.rows && s.rows[p].inflight.Some? ==> p in s.leaked || HeldBySomeone(s, p)
  }

  // How settling leaves the row it settles: gone, promoted, counted up, or poisoned.
  ghost predicate Settled(before: Row, answer: Option<Answer>, rows: Rows, p: Path) {
    if p !in rows then answer == Some(Done) && before.pending.None?
    else
      var after := rows[p];
      && after.inflight.None?
      && if answer == Some(Done) then
           before.pending.Some? && after.op == before.pending.value && after.pending.None? && after.attempt == 0
             && !after.poisoned
         else
           && after.op == before.op && after.pending == before.pending
           && if after.poisoned then after.attempt == before.attempt
              else answer.Some? && after.attempt == before.attempt + 1
  }

  lemma SettleEffect(s: Sys, w: nat)
    requires Exclusive(s) && Enabled(s, Settle(w))
    ensures var t, h := Apply(s, Settle(w)), s.workers[w];
      && Owns(s, w)
      && t == s.(workers := s.workers - {w}, rows := t.rows)
      && Settled(s.rows[h.job.path], h.answer, t.rows, h.job.path)
      && t.rows.Keys - {h.job.path} == s.rows.Keys - {h.job.path}
      && forall p :: p in s.rows && p != h.job.path ==> t.rows[p] == s.rows[p]
  {
  }

  lemma ExclusiveSettle(s: Sys, w: nat)
    requires Exclusive(s) && Enabled(s, Settle(w))
    ensures Exclusive(Apply(s, Settle(w)))
  {
    SettleEffect(s, w);
    hide Apply, Enabled;
    var t := Apply(s, Settle(w));
    forall v | v in t.workers ensures Owns(t, v) {
      assert Owns(s, v);
    }
  }

  lemma ExclusiveEnqueue(s: Sys, step: Step)
    requires Exclusive(s) && step.Enqueue? && Enabled(s, step)
    ensures Exclusive(Apply(s, step))
  {
    hide IsNoisePath;
  }

  lemma ExclusiveStep(s: Sys, step: Step)
    requires Exclusive(s)
    ensures Exclusive(Apply(s, step))
  {
    hide IsNoisePath, IsNext;
    if step.Settle? && Enabled(s, step) {
      ExclusiveSettle(s, step.worker);
    } else if step.Enqueue? && Enabled(s, step) {
      ExclusiveEnqueue(s, step);
    }
  }

  lemma AccountedSettle(s: Sys, w: nat)
    requires Exclusive(s) && Accounted(s) && Enabled(s, Settle(w))
    ensures Accounted(Apply(s, Settle(w)))
  {
    SettleEffect(s, w);
    hide Apply, Enabled;
    var t := Apply(s, Settle(w));
    forall p | p in t.rows && t.rows[p].inflight.Some? ensures p in t.leaked || HeldBySomeone(t, p) {
      if p !in s.leaked {
        var v :| v in s.workers && s.workers[v].job.path == p;
        assert t.workers[v].job.path == p;
      }
    }
  }

  lemma AccountedStep(s: Sys, step: Step)
    requires Exclusive(s) && Accounted(s)
    ensures Accounted(Apply(s, step))
  {
    hide IsNoisePath, IsNext;
    if step.Settle? && Enabled(s, step) {
      AccountedSettle(s, step.worker);
    } else if Enabled(s, step) {
      var t := Apply(s, step);
      forall p | p in t.rows && t.rows[p].inflight.Some? ensures p in t.leaked || HeldBySomeone(t, p) {
        if step.Claim? && step.path == p {
          assert t.workers[step.worker].job.path == p;
        } else if p !in s.leaked {
          var w :| w in s.workers && s.workers[w].job.path == p;
          assert w in t.workers ==> t.workers[w].job.path == p;
        }
      }
    }
  }

  // In every interleaving: a row is in flight exactly when one worker holds its job
  // or it was let go of; two workers never hold one path; a job matches its row.
  lemma {:induction false} MutualExclusion(steps: seq<Step>)
    ensures Exclusive(Run(INIT, steps)) && Accounted(Run(INIT, steps))
  {
    if steps != [] {
      var s := Run(INIT, steps[..|steps| - 1]);
      MutualExclusion(steps[..|steps| - 1]);
      ExclusiveStep(s, steps[|steps| - 1]);
      AccountedStep(s, steps[|steps| - 1]);
    }
  }

  // Under a holder the row's op never changes, and a poisoned or leaked row is never
  // claimed again.
  lemma HeldRowsAreStable(s: Sys, step: Step, p: Path)
    requires Exclusive(s) && p in s.rows
    ensures var t := Apply(s, step);
      && (s.rows[p].poisoned ==> p in t.rows && t.rows[p].poisoned && t.rows[p].inflight.None?)
      && (p in s.leaked ==> p in t.leaked && p in t.rows && t.rows[p].op == s.rows[p].op)
      && (forall w :: w in s.workers && w in t.workers && s.workers[w].job.path == p ==>
            p in t.rows && t.rows[p].op == s.rows[p].op && t.workers[w].job == s.workers[w].job)
  {
    hide IsNoisePath, IsNext;
  }

  // ---- No lost update ----------------------------------------------------------------

  ghost predicate SentOk(sent: seq<Send>, p: Path, ticket: nat) {
    Send(p, ticket, true) in sent
  }

  ghost predicate InSlot(rows: Rows, p: Path, ticket: nat) {
    p in rows && (rows[p].op.ticket == ticket || (rows[p].pending.Some? && rows[p].pending.value.ticket == ticket))
  }

  // The newest enqueue of each path is in one of its row's two slots or was sent.
  // The second conjunct carries a sent job to the moment it is settled.
  ghost predicate NothingLost(s: Sys) {
    && (forall p :: p in s.latest ==> InSlot(s.rows, p, s.latest[p]) || SentOk(s.sent, p, s.latest[p]))
    && (forall w :: w in s.workers && s.workers[w].answer == Some(Done) ==>
          SentOk(s.sent, s.workers[w].job.path, s.workers[w].job.op.ticket))
  }

  lemma NothingLostSettle(s: Sys, w: nat)
    requires Exclusive(s) && NothingLost(s) && Enabled(s, Settle(w))
    ensures NothingLost(Apply(s, Settle(w)))
  {
    SettleEffect(s, w);
    hide Apply, Enabled;
  }

  lemma NothingLostStep(s: Sys, step: Step)
    requires Exclusive(s) && NothingLost(s)
    ensures NothingLost(Apply(s, step))
  {
    hide IsNoisePath, IsNext;
    if step.Settle? && Enabled(s, step) {
      NothingLostSettle(s, step.worker);
    } else if step.Execute? && Enabled(s, step) {
      var t, h := Apply(s, step), s.workers[step.worker];
      assert forall x :: x in s.sent ==> x in t.sent;
      assert t.sent[|s.sent|] == Send(h.job.path, h.job.op.ticket, step.answer.Done?);
    }
  }

  // Claim, success, failure, poison, dropping a job or the process: none of them
  // loses the newest op of a path.
  lemma {:induction false} NoLostUpdate(steps: seq<Step>)
    ensures NothingLost(Run(INIT, steps))
    ensures var s := Run(INIT, steps);
      forall p :: p in s.latest ==> InSlot(s.rows, p, s.latest[p]) || Send(p, s.latest[p], true) in s.sent
  {
    if steps != [] {
      NoLostUpdate(steps[..|steps| - 1]);
      MutualExclusion(steps[..|steps| - 1]);
      NothingLostStep(Run(INIT, steps[..|steps| - 1]), steps[|steps| - 1]);
    }
  }

  // ---- How often one op is sent -------------------------------------------------------

  function Sends(sent: seq<Send>, p: Path, ticket: nat): nat {
    if sent == [] then 0
    else
      var last := sent[|sent| - 1];
      Sends(sent[..|sent| - 1], p, ticket) + (if last.path == p && last.ticket == ticket then 1 else 0)
  }

  lemma SendsExtends(sent: seq<Send>, x: Send, p: Path, ticket: nat)
    ensures Sends(sent + [x], p, ticket) == Sends(sent, p, ticket)
      + (if x.path == p && x.ticket == ticket then 1 else 0)
  {
    assert (sent + [x])[..|sent|] == sent;
  }

  // The ops in the row were not sent more often than its attempt count says.
  ghost predicate RowSendsBounded(s: Sys, row: Row, p: Path) {
    && row.op.ticket < s.next
    && (row.pending.Some? ==>
          && row.pending.value.ticket < s.next
          && row.pending.value.ticket != row.op.ticket
          && Sends(s.sent, p, row.pending.value.ticket) == 0)
    && Sends(s.sent, p, row.op.ticket) <= row.attempt + (if row.inflight.Some? || row.poisoned then 1 else 0)
  }

  ghost predicate SendsBounded(s: Sys) {
    && (forall p, k :: Sends(s.sent, p, k) <= MAX_ATTEMPTS)
    && (forall p, k: nat :: s.next <= k ==> Sends(s.sent, p, k) == 0)
    && (forall p :: p in s.rows ==> RowSendsBounded(s, s.rows[p], p))
    && (forall w :: w in s.workers && s.workers[w].answer.None? ==>
          Sends(s.sent, s.workers[w].job.path, s.workers[w].job.op.ticket) <= s.workers[w].job.attempt)
  }

  lemma SendsBoundedExecute(s: Sys, step: Step)
    requires Exclusive(s) && SendsBounded(s) && step.Execute?
    ensures SendsBounded(Apply(s, step))
  {
    if Enabled(s, step) {
      var t, h := Apply(s, step), s.workers[step.worker];
      assert Owns(s, step.worker);
      forall p, k ensures Sends(t.sent, p, k) == Sends(s.sent, p, k)
        + (if h.job.path == p && h.job.op.ticket == k then 1 else 0) {
        SendsExtends(s.sent, Send(h.job.path, h.job.op.ticket, step.answer.Done?), p, k);
      }
    }
  }

  lemma SendsBoundedSettle(s: Sys, w: nat)
    requires Exclusive(s) && SendsBounded(s) && Enabled(s, Settle(w))
    ensures SendsBounded(Apply(s, Settle(w)))
  {
    SettleEffect(s, w);
    hide Apply, Sends, Enabled;
    var t, own := Apply(s, Settle(w)), s.workers[w].job.path;
    forall p | p in t.rows ensures RowSendsBounded(t, t.rows[p], p) {
      assert p in s.rows && RowSendsBounded(s, s.rows[p], p);
    }
  }

  lemma SendsBoundedEnqueue(s: Sys, step: Step)
    requires Exclusive(s) && SendsBounded(s) && step.Enqueue? && Enabled(s, step)
    ensures SendsBounded(Apply(s, step))
  {
    hide IsNoisePath, IsNext, Sends;
  }

  lemma SendsBoundedQuiet(s: Sys, step: Step)
    requires Exclusive(s) && SendsBounded(s) && (step.Claim? || step.Drop?) && Enabled(s, step)
    ensures SendsBounded(Apply(s, step))
  {
    hide IsNoisePath, IsNext, Sends;
  }

  lemma SendsBoundedStep(s: Sys, step: Step)
    requires Exclusive(s) && SendsBounded(s)
    ensures SendsBounded(Apply(s, step))
  {
    if Enabled(s, step) {
      match step {
        case Execute(_, _) => SendsBoundedExecute(s, step);
        case Settle(w) => SendsBoundedSettle(s, w);
        case Enqueue(_, _, _, _, _) => SendsBoundedEnqueue(s, step);
        case _ => SendsBoundedQuiet(s, step);
      }
    }
  }

  // In every interleaving an enqueued op is sent at most ten times.
  lemma {:induction false} SentAtMostTenTimes(steps: seq<Step>)
    ensures SendsBounded(Run(INIT, steps))
    ensures forall p, ticket :: Sends(Run(INIT, steps).sent, p, ticket) <= 10
  {
    if steps != [] {
      SentAtMostTenTimes(steps[..|steps| - 1]);
      MutualExclusion(steps[..|steps| - 1]);
      SendsBoundedStep(Run(INIT, steps[..|steps| - 1]), steps[|steps| - 1]);
    }
  }

  // ---- Order per path -------------------------------------------------------------------

  // The enqueue that reorders the slots: onto a row that is out of flight after a failure
  // but still carries a pending op. It overwrites the op and leaves the older pending op.
  // `PushReorder` says when that shows in what is sent.
  predicate Reorders(rows: Rows, p: Path) {
    !IsNoisePath(p) && p in rows && rows[p].inflight.None? && rows[p].pending.Some?
  }

  function LastOk(sent: seq<Send>, p: Path): Option<nat> {
    if sent == [] then None
    else
      var last := sent[|sent| - 1];
      if last.path == p && last.ok then Some(last.ticket) else LastOk(sent[..|sent| - 1], p)
  }

  lemma {:induction false} LastOkIs(sent: seq<Send>, p: Path, i: nat)
    requires i < |sent| && sent[i].path == p && sent[i].ok
    requires forall j :: i < j < |sent| && sent[j].path == p ==> !sent[j].ok
    ensures LastOk(sent, p) == Some(sent[i].ticket)
  {
    if i < |sent| - 1 {
      LastOkIs(sent[..|sent| - 1], p, i);
    }
  }

  ghost predicate SlotsOrdered(rows: Rows) {
    forall p :: p in rows && rows[p].pending.Some? ==> rows[p].op.ticket < rows[p].pending.value.ticket
  }

  // Sends of one path never go back to an older enqueue.
  ghost predicate SendsOrdered(sent: seq<Send>) {
    forall i, j :: 0 <= i < j < |sent| && sent[i].path == sent[j].path ==> sent[i].ticket <= sent[j].ticket
  }

  ghost predicate InOrder(s: Sys) {
    && SlotsOrdered(s.rows)
    && SendsOrdered(s.sent)
    && (forall p :: p in s.rows ==>
          && p in s.latest && s.latest[p] < s.next
          && s.latest[p] == (if s.rows[p].pending.Some? then s.rows[p].pending.value.ticket else s.rows[p].op.ticket))
    && (forall i :: 0 <= i < |s.sent| ==>
          && s.sent[i].ticket < s.next
          && (s.sent[i].path in s.rows ==> s.sent[i].ticket <= s.rows[s.sent[i].path].op.ticket))
    && (forall w :: w in s.workers && s.workers[w].answer == Some(Done) ==>
          LastOk(s.sent, s.workers[w].job.path) == Some(s.workers[w].job.op.ticket))
    && (forall p :: p in s.latest && p !in s.rows ==> LastOk(s.sent, p) == Some(s.latest[p]))
  }

  lemma InOrderExecute(s: Sys, step: Step)
    requires Exclusive(s) && InOrder(s) && step.Execute?
    ensures InOrder(Apply(s, step))
  {
    if Enabled(s, step) {
      var h := s.workers[step.worker];
      assert Owns(s, step.worker);
      var x := Send(h.job.path, h.job.op.ticket, step.answer.Done?);
      assert (s.sent + [x])[..|s.sent|] == s.sent;
    }
  }

  lemma InOrderSettle(s: Sys, w: nat)
    requires Exclusive(s) && InOrder(s) && Enabled(s, Settle(w))
    ensures InOrder(Apply(s, Settle(w)))
  {
    SettleEffect(s, w);
    hide Apply, LastOk, Enabled;
  }

  lemma InOrderEnqueue(s: Sys, step: Step)
    requires Exclusive(s) && InOrder(s) && step.Enqueue? && Enabled(s, step)
    requires !Reorders(s.rows, step.path)
    ensures InOrder(Apply(s, step))
  {
    hide IsNoisePath, IsNext, LastOk;
  }

  lemma InOrderQuiet(s: Sys, step: Step)
    requires Exclusive(s) && InOrder(s) && (step.Claim? || step.Drop?) && Enabled(s, step)
    ensures InOrder(Apply(s, step))
  {
    hide IsNoisePath, IsNext, LastOk;
  }

  lemma InOrderStep(s: Sys, step: Step)
    requires Exclusive(s) && InOrder(s)
    requires step.Enqueue? ==> !Reorders(s.rows, step.path)
    ensures InOrder(Apply(s, step))
  {
    if Enabled(s, step) {
      match step {
        case Execute(_, _) => InOrderExecute(s, step);
        case Settle(w) => InOrderSettle(s, w);
        case Enqueue(_, _, _, _, _) => InOrderEnqueue(s, step);
        case _ => InOrderQuiet(s, step);
      }
    }
  }

  // The guard is exact: an enqueue keeps the slots in order if and only if it does not
  // land on such a row.
  lemma EnqueueKeepsOrderIff(s: Sys, step: Step)
    requires Exclusive(s) && InOrder(s) && step.Enqueue? && Enabled(s, step)
    ensures InOrder(Apply(s, step)) <==> !Reorders(s.rows, step.path)
  {
    if !Reorders(s.rows, step.path) {
      InOrderStep(s, step);
    } else {
      var t := Apply(s, step);
      assert t.rows[step.path].pending == s.rows[step.path].pending && t.rows[step.path].op.ticket == s.next;
      assert s.latest[step.path] == s.rows[step.path].pending.value.ticket;
    }
  }

  // No enqueue of the run lands on a row it would reorder.
  ghost predicate Orderly(steps: seq<Step>) {
    forall i :: 0 <= i < |steps| && steps[i].Enqueue? ==> !Reorders(Run(INIT, steps[..i]).rows, steps[i].path)
  }

  // In orderly runs the sends of a path follow enqueue order, and once a path has no
  // row its last successful send is its last enqueue.
  lemma {:induction false} PerPathOrder(steps: seq<Step>)
    requires Orderly(steps)
    ensures InOrder(Run(INIT, steps))
    ensures var sent := Run(INIT, steps).sent;
      forall i, j :: 0 <= i < j < |sent| && sent[i].path == sent[j].path ==> sent[i].ticket <= sent[j].ticket
    ensures var s := Run(INIT, steps);
      forall p :: p in s.latest && p !in s.rows ==> LastOk(s.sent, p) == Some(s.latest[p])
  {
    if steps != [] {
      var front := steps[..|steps| - 1];
      forall i | 0 <= i < |front| && front[i].Enqueue? ensures !Reorders(Run(INIT, front[..i]).rows, front[i].path) {
        assert front[..i] == steps[..i];
      }
      PerPathOrder(front);
      MutualExclusion(front);
      InOrderStep(Run(INIT, front), steps[|steps| - 1]);
    }
  }

  lemma RunSnoc(s: Sys, steps: seq<Step>, step: Step)
    ensures Run(s, steps + [step]) == Apply(Run(s, steps), step)
  {
    assert (steps + [step])[..|steps|] == steps;
  }

  lemma ApplyAll(s: Sys, a: Step, b: Step, c: Step)
    ensures Run(s, [a, b, c]) == Apply(Apply(Apply(s, a), b), c)
  {
    RunSnoc(s, [a, b], c);
    RunSnoc(s, [a], b);
    RunSnoc(s, [], a);
    assert [a, b] + [c] == [a, b, c] && [a] + [b] == [a, b] && [] + [a] == [a];
  }

  lemma {:induction false} RunConcat(s: Sys, a: seq<Step>, b: seq<Step>)
    ensures Run(s, a + b) == Run(Run(s, a), b)
    decreases b
  {
    if b == [] {
      assert a + b == a;
    } else {
      RunConcat(s, a, b[..|b| - 1]);
      assert (a + b)[..|a + b| - 1] == a + b[..|b| - 1];
    }
  }

  // Three enqueues A, B, C of one path. B lands while A is in flight; A fails and keeps
  // B pending; C then replaces A. C is sent, settling it promotes B, and B is sent last.
  function ReorderingSteps(p: Path): seq<Step> {
    var push := [Claim(0, p, 0), Execute(0, Done), Settle(0)];
    [Enqueue(p, Write, None, None, 0), Claim(0, p, 0), Enqueue(p, Delete, None, None, 0)]
    + [Execute(0, Failed(Network)), Settle(0), Enqueue(p, Write, None, None, 0)]
    + push + push
  }

  // One row of path `p`, with ops told apart by their tickets.
  function OneRow(p: Path, ticket: nat, pending: Option<Op>): Rows {
    map[p := Row(Op(Write, None, None, ticket), pending, None, 0, 0, false)]
  }

  lemma ReorderingStart(p: Path)
    requires !IsNoisePath(p)
    ensures
      var B := Op(Delete, None, None, 1);
      var s := Run(INIT, [Enqueue(p, Write, None, None, 0), Claim(0, p, 0), Enqueue(p, Delete, None, None, 0)]);
      Run(s, [Execute(0, Failed(Network)), Settle(0), Enqueue(p, Write, None, None, 0)])
      == Sys(OneRow(p, 2, Some(B)), map[], {}, [Send(p, 0, false)], map[p := 2], 3, 0)
  {
    hide IsNoisePath;
    var A, B := Op(Write, None, None, 0), Op(Delete, None, None, 1);
    ApplyAll(INIT, Enqueue(p, Write, None, None, 0), Claim(0, p, 0), Enqueue(p, Delete, None, None, 0));
    var s := Run(INIT, [Enqueue(p, Write, None, None, 0), Claim(0, p, 0), Enqueue(p, Delete, None, None, 0)]);
    assert s.rows == map[p := Row(A, Some(B), Some(0), 0, 0, false)]
      && s.workers == map[0 := Held(Job(p, A, 0), 0, None)];
    ApplyAll(s, Execute(0, Failed(Network)), Settle(0), Enqueue(p, Write, None, None, 0));
  }

  // A lone unclaimed row is pushed with success.
  lemma PushLoneRow(s: Sys, p: Path, ticket: nat, pending: Option<Op>)
    requires s.rows.Keys == {p} && s.rows[p].op.ticket == ticket && s.rows[p].pending == pending
    requires Claimable(s.rows, p, 0) && s.rows[p].attempt == 0 && s.workers == map[] && s.clock == 0
    ensures var t := Run(s, [Claim(0, p, 0), Execute(0, Done), Settle(0)]);
      && t == s.(rows := t.rows, sent := s.sent + [Send(p, ticket, true)])
      && (pending.None? ==> t.rows == map[])
      && (pending.Some? ==> t.rows == map[p := Row(pending.value, None, None, 0, 0, false)])
  {
    ApplyAll(s, Claim(0, p, 0), Execute(0, Done), Settle(0));
  }

  // Without the guard the order does break, on a single path with a single worker: a
  // stale delete reaches the server after the newer write, and the queue is then empty.
  lemma ReorderingRun(p: Path)
    requires !IsNoisePath(p)
    ensures var t := Run(INIT, ReorderingSteps(p));
      && t.rows == map[]
      && t.sent == [Send(p, 0, false), Send(p, 2, true), Send(p, 1, true)]
      && t.latest == map[p := 2]
  {
    hide IsNoisePath;
    var a := [Enqueue(p, Write, None, None, 0), Claim(0, p, 0), Enqueue(p, Delete, None, None, 0)];
    var b := [Execute(0, Failed(Network)), Settle(0), Enqueue(p, Write, None, None, 0)];
    var push := [Claim(0, p, 0), Execute(0, Done), Settle(0)];
    RunConcat(INIT, a + b + push, push);
    RunConcat(INIT, a + b, push);
    RunConcat(INIT, a, b);
    ReorderingStart(p);
    var s := Run(INIT, a + b);
    PushLoneRow(s, p, 2, Some(Op(Delete, None, None, 1)));
    PushLoneRow(Run(s, push), p, 1, None);
  }

  // ---- Leaks ---------------------------------------------------------------------------

  // A job the shutdown drain claimed and dropped is never sent again, whatever happens.
  lemma {:induction false} LeakedNeverSent(s: Sys, steps: seq<Step>, p: Path)
    requires Exclusive(s) && p in s.leaked
    ensures var t := Run(s, steps);
      && Exclusive(t) && p in t.leaked && p in t.rows && t.rows[p].op == s.rows[p].op
      && s.sent <= t.sent && (forall i :: |s.sent| <= i < |t.sent| ==> t.sent[i].path != p)
  {
    if steps != [] {
      var front, last := steps[..|steps| - 1], steps[|steps| - 1];
      LeakedNeverSent(s, front, p);
      var mid := Run(s, front);
      ExclusiveStep(mid, last);
      HeldRowsAreStable(mid, last, p);
      assert last.Execute? && Enabled(mid, last) ==> Owns(mid, last.worker);
    }
  }

  // Nor is anything sent for a path whose row is poisoned: an enqueue replaces the op of the
  // row, but does not lift the poison.
  lemma {:induction false} PoisonedNeverSent(s: Sys, steps: seq<Step>, p: Path)
    requires Exclusive(s) && p in s.rows && s.rows[p].poisoned
    ensures var t := Run(s, steps);
      && Exclusive(t) && p in t.rows && t.rows[p].poisoned
      && s.sent <= t.sent && (forall i :: |s.sent| <= i < |t.sent| ==> t.sent[i].path != p)
  {
    if steps != [] {
      var front, last := steps[..|steps| - 1], steps[|steps| - 1];
      PoisonedNeverSent(s, front, p);
      var mid := Run(s, front);
      ExclusiveStep(mid, last);
      HeldRowsAreStable(mid, last, p);
      assert last.Execute? && Enabled(mid, last) ==> Owns(mid, last.worker);
    }
  }

  // ---- Bounded overtaking ----------------------------------------------------------------

  // `p` sits in the queue, ready, stamped `t`.
  ghost predicate Waiting(s: Sys, p: Path, t: int) {
    p in s.rows && s.rows[p].inflight.None? && !s.rows[p].poisoned && s.rows[p].updatedAt == t
  }

  ghost predicate Touches(step: Step, p: Path) {
    (step.Enqueue? || step.Claim?) && step.path == p
  }

  // `q` cannot come before a row stamped `t` any more.
  ghost predicate Behind(s: Sys, q: Path, t: int) {
    && t < s.clock
    && (q in s.rows && s.rows[q].inflight.None? ==> t < s.rows[q].updatedAt)
    && (forall w :: w in s.workers && s.workers[w].job.path == q ==> t < s.workers[w].since)
  }

  ghost predicate ClaimsAfter(s: Sys, step: Step, t: int) {
    step.Claim? && Enabled(s, step) && t < step.now
  }

  // The paths claimed at readings above `t`, in order.
  ghost function Claims(s: Sys, steps: seq<Step>, t: int): seq<Path> {
    if steps == [] then []
    else
      var front, last := steps[..|steps| - 1], steps[|steps| - 1];
      Claims(s, front, t) + (if ClaimsAfter(Run(s, front), last, t) then [last.path] else [])
  }

  ghost predicate NoRepeats(ps: seq<Path>) {
    forall i, j :: 0 <= i < j < |ps| ==> ps[i] != ps[j]
  }

  lemma BehindStays(s: Sys, step: Step, p: Path, q: Path, t: int)
    requires Exclusive(s) && Waiting(s, p, t) && Behind(s, q, t) && p != q && !Touches(step, p)
    ensures Behind(Apply(s, step), q, t)
    ensures step.Claim? && step.path == q ==> !Enabled(s, step)
  {
    hide IsNoisePath;
    if step.Settle? && Enabled(s, step) {
      SettleStamp(s, step.worker);
    }
  }

  // Settling stamps a surviving row no earlier than its claim.
  lemma SettleStamp(s: Sys, w: nat)
    requires Exclusive(s) && Enabled(s, Settle(w))
    ensures var t, h := Apply(s, Settle(w)), s.workers[w];
      && h.job.path in s.rows
      && (h.job.path in t.rows ==> h.since <= t.rows[h.job.path].updatedAt)
      && forall q :: q in t.rows && q != h.job.path ==> q in s.rows && t.rows[q] == s.rows[q]
  {
    assert Owns(s, w);
    if s.workers[w].job.attempt < MAX_ATTEMPTS {
      BackoffBounds(s.workers[w].job.attempt);
    }
  }

  lemma WaitingStays(s: Sys, step: Step, p: Path, t: int)
    requires Exclusive(s) && Waiting(s, p, t) && !Touches(step, p)
    ensures Waiting(Apply(s, step), p, t)
  {
    hide IsNoisePath;
    if step.Settle? && Enabled(s, step) {
      SettleEffect(s, step.worker);
    }
  }

  // A claimed path goes behind; with the clock past `t`, so are all paths not queued yet.
  lemma ClaimGoesBehind(s: Sys, step: Step, t: int)
    requires Exclusive(s) && ClaimsAfter(s, step, t)
    ensures Behind(Apply(s, step), step.path, t)
  {
    forall w | w in s.workers ensures s.workers[w].job.path != step.path {
      assert Owns(s, w);
    }
  }

  // While `p` waits, stamped `t`, no other path is claimed twice at readings above `t`,
  // whatever success, promotion, failure, poison and leaks happen to the others. If the
  // clock is past `t` at the start, only paths queued at the start come first.
  lemma {:induction false} OvertakenAtMostOnce(s: Sys, steps: seq<Step>, p: Path, t: int)
    requires Exclusive(s) && Waiting(s, p, t)
    requires forall i :: 0 <= i < |steps| ==> !Touches(steps[i], p)
    ensures Exclusive(Run(s, steps)) && Waiting(Run(s, steps), p, t)
    ensures NoRepeats(Claims(s, steps, t)) && p !in Claims(s, steps, t)
    ensures forall q :: q in Claims(s, steps, t) ==> Behind(Run(s, steps), q, t)
    ensures t < s.clock ==> forall q :: q != p && q !in s.rows ==> Behind(Run(s, steps), q, t)
    ensures t < s.clock ==> forall q :: q in Claims(s, steps, t) ==> q in s.rows
  {
    if steps == [] {
      forall q, w | w in s.workers && s.workers[w].job.path == q ensures q in s.rows {
        assert Owns(s, w);
      }
    } else {
      var front, last := steps[..|steps| - 1], steps[|steps| - 1];
      OvertakenAtMostOnce(s, front, p, t);
      var mid := Run(s, front);
      ExclusiveStep(mid, last);
      WaitingStays(mid, last, p, t);
      forall q | q != p && Behind(mid, q, t)
        ensures Behind(Apply(mid, last), q, t) && (last.Claim? && last.path == q ==> !Enabled(mid, last))
      {
        BehindStays(mid, last, p, q, t);
      }
      if ClaimsAfter(mid, last, t) {
        ClaimGoesBehind(mid, last, t);
      }
    }
  }

  lemma {:induction false} ClaimIsListed(s: Sys, steps: seq<Step>, t: int, i: nat)
    requires i < |steps| && steps[i].Claim? && Enabled(Run(s, steps[..i]), steps[i]) && t < steps[i].now
    ensures steps[i].path in Claims(s, steps, t)
  {
    hide Enabled, Run;
    var n := |steps| - 1;
    if i < n {
      assert steps[..n][..i] == steps[..i];
      ClaimIsListed(s, steps[..n], t, i);
    }
  }

  // Two claims of one path, in so many words.
  lemma NotOvertakenTwice(s: Sys, steps: seq<Step>, p: Path, t: int, i: nat, j: nat)
    requires Exclusive(s) && p in s.rows && s.rows[p].inflight.None? && !s.rows[p].poisoned && s.rows[p].updatedAt == t
    requires forall k :: 0 <= k < |steps| ==> !((steps[k].Enqueue? || steps[k].Claim?) && steps[k].path == p)
    requires i < j < |steps| && steps[i].Claim? && Enabled(Run(s, steps[..i]), steps[i]) && t < steps[i].now
    requires steps[j].Claim? && Enabled(Run(s, steps[..j]), steps[j]) && t < steps[j].now
    ensures steps[i].path != steps[j].path
  {
    var front, last := steps[..j], steps[j];
    assert Waiting(s, p, t);
    assert forall k :: 0 <= k < j ==> front[k] == steps[k];
    assert front[..i] == steps[..i];
    OvertakenAtMostOnce(s, front, p, t);
    ClaimIsListed(s, front, t, i);
    assert Behind(Run(s, front), steps[i].path, t);
    hide Exclusive, Run, Claims, IsNoisePath;
    if last.path == steps[i].path {
      BehindStays(Run(s, front), last, p, last.path, t);
    }
  }

  lemma {:induction false} NoRepeatsFit(ps: seq<Path>, within: set<Path>)
    requires NoRepeats(ps) && forall q :: q in ps ==> q in within
    ensures |ps| <= |within|
  {
    if ps != [] {
      var n := |ps| - 1;
      NoRepeatsFit(ps[..n], within - {ps[n]});
    }
  }

  // A ready row is overtaken at most once per other row queued when its turn came.
  lemma OvertakingBound(s: Sys, steps: seq<Step>, p: Path, t: int)
    requires Exclusive(s) && Waiting(s, p, t) && t < s.clock
    requires forall i :: 0 <= i < |steps| ==> !Touches(steps[i], p)
    ensures |Claims(s, steps, t)| <= |s.rows.Keys| - 1
  {
    OvertakenAtMostOnce(s, steps, p, t);
    NoRepeatsFit(Claims(s, steps, t), s.rows.Keys - {p});
  }
}
