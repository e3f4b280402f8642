// What an enqueue on a row that failed and still has a pending op does to the order of the
// sends of its path.
module PushReorder {
  import opened Basics
  import opened PushQueue
  import opened PushRuns

  // Sends of `p` never go back to an older enqueue.
  ghost predicate PathOrdered(sent: seq<Send>, p: Path) {
    forall i, j :: 0 <= i < j < |sent| && sent[i].path == p && sent[j].path == p ==> sent[i].ticket <= sent[j].ticket
  }

  // Nothing is enqueued on the way.
  predicate NoEnqueue(steps: seq<Step>) {
    forall i :: 0 <= i < |steps| ==> !steps[i].Enqueue?
  }

  // ---- Getting the worker to the row ------------------------------------------------------------

  lemma {:induction false} FreeWorker(workers: set<nat>) returns (w: nat)
    ensures forall v :: v in workers ==> v < w
    decreases |workers|
  {
    w := 0;
    if workers != {} {
      var v :| v in workers;
      w := FreeWorker(workers - {v});
      if w <= v { w := v + 1; }
      assert workers == (workers - {v}) + {v};
    }
  }

  // The other rows that could be claimed now.
  ghost function Rivals(s: Sys, p: Path): set<Path> {
    set q | q in s.rows && q != p && Claimable(s.rows, q, s.clock)
  }

  // Of the claimable rows one is claimed first.
  lemma {:induction false} LeastOf(rows: Rows, ps: set<Path>, now: int) returns (q: Path)
    requires ps != {} && forall x :: x in ps ==> x in rows && Claimable(rows, x, now)
    ensures q in ps && forall x :: x in ps ==> rows[q].updatedAt <= rows[x].updatedAt
    decreases |ps|
  {
    q :| q in ps;
    var others := ps - {q};
    assert ps == others + {q};
    if others != {} {
      var r := LeastOf(rows, others, now);
      if rows[r].updatedAt < rows[q].updatedAt { q := r; }
    }
  }

  // What getting there leaves alone.
  ghost predicate SameFor(s: Sys, t: Sys, p: Path) {
    && p in s.rows && p in t.rows && t.rows[p] == s.rows[p]
    && t.sent == s.sent && t.clock == s.clock && t.next == s.next && t.latest == s.latest
  }

  // Other workers claim what comes first, until `p` is next.
  lemma {:induction false} ClearTheWay(s: Sys, p: Path) returns (steps: seq<Step>)
    requires p in s.rows && Claimable(s.rows, p, s.clock)
    ensures NoEnqueue(steps) && SameFor(s, Run(s, steps), p) && IsNext(Run(s, steps).rows, p, s.clock)
    decreases |Rivals(s, p)|
  {
    var all := Rivals(s, p) + {p};
    var q := LeastOf(s.rows, all, s.clock);
    assert IsNext(s.rows, q, s.clock) by { NextOf(s, p, q); }
    if q == p {
      steps := [];
    } else {
      var w := FreeWorker(s.workers.Keys);
      var t := Apply(s, Claim(w, q, s.clock));
      ClaimRival(s, p, q, w);
      var rest := ClearTheWay(t, p);
      steps := [Claim(w, q, s.clock)] + rest;
      RunConcat(s, [Claim(w, q, s.clock)], rest);
      RunSnoc(s, [], Claim(w, q, s.clock));
      assert [] + [Claim(w, q, s.clock)] == [Claim(w, q, s.clock)];
    }
  }

  lemma NextOf(s: Sys, p: Path, q: Path)
    requires p in s.rows && Claimable(s.rows, p, s.clock) && q in Rivals(s, p) + {p}
    requires forall x :: x in Rivals(s, p) + {p} ==> x in s.rows && s.rows[q].updatedAt <= s.rows[x].updatedAt
    ensures IsNext(s.rows, q, s.clock)
  {
    forall x | x in s.rows && Claimable(s.rows, x, s.clock) ensures x in Rivals(s, p) + {p} {}
  }

  lemma ClaimRival(s: Sys, p: Path, q: Path, w: nat)
    requires p in s.rows && Claimable(s.rows, p, s.clock) && q in Rivals(s, p) && w !in s.workers
    requires IsNext(s.rows, q, s.clock)
    ensures var t := Apply(s, Claim(w, q, s.clock));
      && SameFor(s, t, p) && Claimable(t.rows, p, t.clock) && |Rivals(t, p)| < |Rivals(s, p)|
  {
    var t := Apply(s, Claim(w, q, s.clock));
    assert Rivals(t, p) == Rivals(s, p) - {q};
  }

  // ---- One push of the row -------------------------------------------------------------------------

  // The op of a claimable row with attempts left is sent with success and settled.
  lemma PushNow(s: Sys, p: Path) returns (steps: seq<Step>)
    requires p in s.rows && Claimable(s.rows, p, s.clock) && s.rows[p].attempt < MAX_ATTEMPTS
    ensures NoEnqueue(steps)
    ensures var t := Run(s, steps);
      && t.sent == s.sent + [Send(p, s.rows[p].op.ticket, true)] && t.clock == s.clock
      && (s.rows[p].pending.Some? ==>
            && p in t.rows && Claimable(t.rows, p, t.clock)
            && t.rows[p].op == s.rows[p].pending.value && t.rows[p].attempt == 0)
  {
    var way := ClearTheWay(s, p);
    var t := Run(s, way);
    var w := FreeWorker(t.workers.Keys);
    var push := [Claim(w, p, s.clock), Execute(w, Done), Settle(w)];
    steps := way + push;
    RunConcat(s, way, push);
    ApplyAll(t, Claim(w, p, s.clock), Execute(w, Done), Settle(w));
    PushSteps(t, p, w);
  }

  lemma PushSteps(s: Sys, p: Path, w: nat)
    requires p in s.rows && Claimable(s.rows, p, s.clock) && s.rows[p].attempt < MAX_ATTEMPTS
    requires IsNext(s.rows, p, s.clock) && w !in s.workers
    ensures var t := Apply(Apply(Apply(s, Claim(w, p, s.clock)), Execute(w, Done)), Settle(w));
      && t.sent == s.sent + [Send(p, s.rows[p].op.ticket, true)] && t.clock == s.clock
      && (s.rows[p].pending.Some? ==>
            && p in t.rows && Claimable(t.rows, p, t.clock)
            && t.rows[p].op == s.rows[p].pending.value && t.rows[p].attempt == 0)
  {
    hide IsNext;
  }

  // ---- The enqueue ------------------------------------------------------------------------------------

  // An enqueue that would put the slots of its row out of order can lead to sends out of
  // order, with no further enqueue, if and only if the row is not poisoned. On a poisoned
  // row nothing is sent, whatever follows.
  lemma ReorderedSendsIff(s: Sys, step: Step)
    requires Exclusive(s) && InOrder(s) && step.Enqueue? && Enabled(s, step)
    requires Reorders(s.rows, step.path) && !IsNoisePath(step.path)
    ensures (exists steps :: NoEnqueue(steps) && !PathOrdered(Run(Apply(s, step), steps).sent, step.path)) <==>
      !s.rows[step.path].poisoned
    ensures s.rows[step.path].poisoned ==>
      forall steps :: PathOrdered(Run(Apply(s, step), steps).sent, step.path)
  {
    var p, t := step.path, Apply(s, step);
    if s.rows[p].poisoned {
      forall steps ensures PathOrdered(Run(t, steps).sent, p) {
        StaysOrdered(s, step, steps);
      }
    } else {
      var steps := OutOfOrder(s, step);
    }
  }

  lemma StaysOrdered(s: Sys, step: Step, steps: seq<Step>)
    requires Exclusive(s) && InOrder(s) && step.Enqueue? && Enabled(s, step)
    requires step.path in s.rows && s.rows[step.path].poisoned && !IsNoisePath(step.path)
    ensures PathOrdered(Run(Apply(s, step), steps).sent, step.path)
  {
    var p, t := step.path, Apply(s, step);
    ExclusiveEnqueue(s, step);
    HeldRowsAreStable(s, step, p);
    assert t.sent == s.sent;
    PoisonedNeverSent(t, steps, p);
    var sent := Run(t, steps).sent;
    forall i, j | 0 <= i < j < |sent| && sent[i].path == p && sent[j].path == p
      ensures sent[i].ticket <= sent[j].ticket
    {
      assert j < |t.sent| && sent[i] == t.sent[i] && sent[j] == t.sent[j];
    }
  }

  // The new op is sent first, then the older one that was pending.
  lemma OutOfOrder(s: Sys, step: Step) returns (steps: seq<Step>)
    requires Exclusive(s) && InOrder(s) && step.Enqueue? && Enabled(s, step)
    requires Reorders(s.rows, step.path) && !s.rows[step.path].poisoned && !IsNoisePath(step.path)
    ensures NoEnqueue(steps) && !PathOrdered(Run(Apply(s, step), steps).sent, step.path)
  {
    var p, t := step.path, Apply(s, step);
    EnqueuedRow(s, step);
    hide Apply, InOrder, Exclusive, Claimable, Run, Enabled;
    var first := PushNow(t, p);
    var u := Run(t, first);
    var second := PushNow(u, p);
    steps := first + second;
    RunConcat(t, first, second);
    var sent, n := Run(t, steps).sent, |t.sent|;
    assert sent == t.sent + [Send(p, s.next, true)] + [Send(p, s.rows[p].pending.value.ticket, true)];
    assert sent[n].ticket > sent[n + 1].ticket;
  }

  lemma EnqueuedRow(s: Sys, step: Step)
    requires InOrder(s) && step.Enqueue? && Enabled(s, step) && Reorders(s.rows, step.path)
      && !s.rows[step.path].poisoned
    ensures var p, t := step.path, Apply(s, step);
      && p in t.rows && Claimable(t.rows, p, t.clock) && t.rows[p].attempt == 0 && t.sent == s.sent
      && t.rows[p].op.ticket == s.next && t.rows[p].pending == s.rows[p].pending
      && s.rows[p].pending.value.ticket < s.next
  {
    hide IsNoisePath;
  }
}
