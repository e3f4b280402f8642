// The queue inside the protocol: rows and jobs of `Sync` against those of `PushRuns`, so
// that what is proved there of every interleaving of workers holds of the workers here.
module SyncQueue {
  import opened Basics
  import opened PushQueue
  import opened Sync
  import PushRuns
  import SyncRuns

  // A job under way here is the job of a worker there: the same job, reading and answer. It is
  // read only with attempts left, and answered only once it is read.
  ghost predicate SameJob(h: Held, r: PushRuns.Held) {
    && h.job == r.job && h.since == r.since && h.result == r.answer
    && (h.body.Some? ==> h.job.attempt < 10) && (h.result.Some? ==> h.body.Some?)
  }

  ghost predicate HasJob(s: Sys, r: PushRuns.Held) { r.job.path in s.held && SameJob(s.held[r.job.path], r) }

  // Rows and jobs are the same; workers have numbers there, and paths here.
  ghost predicate QueuePictures(s: Sys, q: PushRuns.Sys) {
    && PushRuns.Exclusive(q) && s.rows == q.rows && s.next == q.next
    && (forall w :: w in q.workers ==> HasJob(s, q.workers[w]))
    && (forall p :: p in s.held ==> PushRuns.HeldBySomeone(q, p))
  }

  lemma OneWorker(q: PushRuns.Sys, w: nat, v: nat)
    requires PushRuns.Exclusive(q) && w in q.workers && v in q.workers && v != w
    ensures q.workers[v].job.path != q.workers[w].job.path
  {
  }

  // One path, and the worker on it, change.
  lemma OtherJobsStay(s: Sys, q: PushRuns.Sys, t: Sys, r: PushRuns.Sys, w: nat, p: Path)
    requires QueuePictures(s, q) && PushRuns.Exclusive(r) && t.rows == r.rows && t.next == r.next
    requires t.held - {p} == s.held - {p} && r.workers - {w} == q.workers - {w}
    requires forall v :: v in q.workers && v != w ==> q.workers[v].job.path != p
    requires w in q.workers ==> q.workers[w].job.path == p
    requires w in r.workers ==> r.workers[w].job.path == p && HasJob(t, r.workers[w])
    requires p in t.held <==> w in r.workers
    ensures QueuePictures(t, r)
  {
    hide PushRuns.Exclusive;
    forall v | v in r.workers ensures HasJob(t, r.workers[v]) {
      if v != w {
        assert v in r.workers - {w} && v in q.workers - {w};
        assert r.workers[v] == (r.workers - {w})[v] == q.workers[v];
        var k := q.workers[v].job.path;
        assert k in s.held - {p};
        assert t.held[k] == (t.held - {p})[k] == s.held[k];
      }
    }
    forall k | k in t.held ensures PushRuns.HeldBySomeone(r, k) {
      if k == p {
        assert r.workers[w].job.path == p;
      } else {
        assert k in t.held - {p} && k in s.held - {p};
        assert PushRuns.HeldBySomeone(q, k);
        var v :| v in q.workers && q.workers[v].job.path == k;
        assert v in q.workers - {w} && v in r.workers - {w};
        assert r.workers[v] == (r.workers - {w})[v] == q.workers[v];
      }
    }
  }

  lemma NobodyOn(q: PushRuns.Sys, p: Path)
    requires PushRuns.Exclusive(q) && p in q.rows && q.rows[p].inflight.None?
    ensures forall v :: v in q.workers ==> q.workers[v].job.path != p
  {
    forall v | v in q.workers ensures q.workers[v].job.path != p {
      assert PushRuns.Owns(q, v);
    }
  }

  lemma SameRows(s: Sys, q: PushRuns.Sys)
    requires QueuePictures(s, q)
    ensures s.rows == q.rows && s.next == q.next && PushRuns.Exclusive(q)
  {
  }

  // A worker's job is here, and no other worker's is of its path.
  lemma JobHere(s: Sys, q: PushRuns.Sys, w: nat)
    requires QueuePictures(s, q) && w in q.workers
    ensures HasJob(s, q.workers[w])
    ensures forall v :: v in q.workers && v != w ==> q.workers[v].job.path != q.workers[w].job.path
  {
    forall v | v in q.workers && v != w ensures q.workers[v].job.path != q.workers[w].job.path {
      OneWorker(q, w, v);
    }
  }

  lemma StillExclusive(s: Sys, q: PushRuns.Sys, step: PushRuns.Step)
    requires QueuePictures(s, q)
    ensures PushRuns.Exclusive(PushRuns.Apply(q, step))
  {
    PushRuns.ExclusiveStep(q, step);
  }

  lemma SameQueue(s: Sys, t: Sys, q: PushRuns.Sys)
    requires QueuePictures(s, q) && t.rows == s.rows && t.held == s.held && t.next == s.next
    ensures QueuePictures(t, q)
  {
    hide PushRuns.Exclusive;
    forall w | w in q.workers ensures HasJob(t, q.workers[w]) {
      assert HasJob(s, q.workers[w]);
    }
  }

  // ---- Steps of one job -----------------------------------------------------------------------------

  lemma ClaimSteps(s: Sys, q: PushRuns.Sys, w: nat, p: Path, now: int)
    requires s.rows == q.rows && PushRuns.Enabled(q, PushRuns.Claim(w, p, now))
    ensures p in q.rows && q.rows[p].inflight.None? && w !in q.workers && Enabled(s, Claim(p, now))
    ensures var t, r := Apply(s, Claim(p, now)), PushRuns.Apply(q, PushRuns.Claim(w, p, now));
      && t.rows == r.rows && t.next == s.next && r.next == q.next
      && p in t.held && t.held == s.held[p := t.held[p]] && w in r.workers && r.workers == q.workers[w := r.workers[w]]
      && r.workers[w].job.path == p && SameJob(t.held[p], r.workers[w])
  {
    hide IsNext;
  }

  // A claim there is a claim here; here it need not be of the oldest ready row.
  lemma ClaimPictures(s: Sys, q: PushRuns.Sys, w: nat, p: Path, now: int)
    requires QueuePictures(s, q) && PushRuns.Enabled(q, PushRuns.Claim(w, p, now))
    ensures Enabled(s, Claim(p, now))
    ensures QueuePictures(Apply(s, Claim(p, now)), PushRuns.Apply(q, PushRuns.Claim(w, p, now)))
  {
    hide PushRuns.Exclusive, QueuePictures, PushRuns.Enabled, PushRuns.Apply, Enabled, Apply, SameJob;
    SameRows(s, q);
    StillExclusive(s, q, PushRuns.Claim(w, p, now));
    ClaimSteps(s, q, w, p, now);
    NobodyOn(q, p);
    var t, r := Apply(s, Claim(p, now)), PushRuns.Apply(q, PushRuns.Claim(w, p, now));
    assert t.held - {p} == s.held - {p} && r.workers - {w} == q.workers - {w};
    OtherJobsStay(s, q, t, r, w, p);
  }

  lemma SendSteps(s: Sys, q: PushRuns.Sys, w: nat, answer: Answer, applied: bool, stamp: string)
    requires w in q.workers && HasJob(s, q.workers[w]) && StrLt(s.top, stamp) && (answer.Done? ==> applied)
    ensures var p := q.workers[w].job.path;
      var read, put, execute := Read(p), Put(p, answer, applied, stamp), PushRuns.Execute(w, answer);
      var t, u, r := Apply(s, read), Apply(s, put), PushRuns.Apply(q, execute);
      && (PushRuns.Enabled(q, execute) <==> Enabled(s, read) || Enabled(s, put))
      && (Enabled(s, read) ==>
            && t.rows == s.rows && t.next == s.next && p in t.held && t.held == s.held[p := t.held[p]]
            && SameJob(t.held[p], q.workers[w]) && Enabled(t, put))
      && (Enabled(s, put) ==>
            && u.rows == s.rows && u.next == s.next && p in u.held && u.held == s.held[p := u.held[p]]
            && r.rows == q.rows && r.next == q.next && w in r.workers && r.workers == q.workers[w := r.workers[w]]
            && r.workers[w].job.path == p && SameJob(u.held[p], r.workers[w]))
  {
    hide StrLt;
  }

  // Sending is two steps here, and possible for the same jobs.
  lemma SendPicturesIff(s: Sys, q: PushRuns.Sys, w: nat, answer: Answer, applied: bool, stamp: string)
    requires QueuePictures(s, q) && w in q.workers && StrLt(s.top, stamp) && (answer.Done? ==> applied)
    ensures var p := q.workers[w].job.path;
      var put := Put(p, answer, applied, stamp);
      && (PushRuns.Enabled(q, PushRuns.Execute(w, answer)) <==> Enabled(s, Read(p)) || Enabled(s, put))
      && (Enabled(s, Read(p)) ==> QueuePictures(Apply(s, Read(p)), q) && Enabled(Apply(s, Read(p)), put))
      && (Enabled(s, put) ==> QueuePictures(Apply(s, put), PushRuns.Apply(q, PushRuns.Execute(w, answer))))
  {
    hide PushRuns.Exclusive, QueuePictures, PushRuns.Enabled, PushRuns.Apply, Enabled, Apply, SameJob, StrLt;
    var p := q.workers[w].job.path;
    var put, execute := Put(p, answer, applied, stamp), PushRuns.Execute(w, answer);
    SameRows(s, q);
    JobHere(s, q, w);
    SendSteps(s, q, w, answer, applied, stamp);
    StillExclusive(s, q, execute);
    if Enabled(s, Read(p)) {
      var t := Apply(s, Read(p));
      assert t.held - {p} == s.held - {p};
      OtherJobsStay(s, q, t, q, w, p);
    }
    if Enabled(s, put) {
      var t, r := Apply(s, put), PushRuns.Apply(q, execute);
      assert t.held - {p} == s.held - {p} && r.workers - {w} == q.workers - {w};
      OtherJobsStay(s, q, t, r, w, p);
    }
  }

  lemma SettleSteps(s: Sys, q: PushRuns.Sys, w: nat)
    requires s.rows == q.rows && w in q.workers && HasJob(s, q.workers[w])
    ensures var p := q.workers[w].job.path;
      var t, r := Apply(s, Settle(p)), PushRuns.Apply(q, PushRuns.Settle(w));
      && (PushRuns.Enabled(q, PushRuns.Settle(w)) <==> Enabled(s, Settle(p)))
      && (Enabled(s, Settle(p)) ==>
            && t.rows == r.rows && t.next == s.next && r.next == q.next
            && t.held == s.held - {p} && r.workers == q.workers - {w})
  {
    var p := q.workers[w].job.path;
    assert s.held[p].job.(path := p) == s.held[p].job;
    hide Finalize, Poison;
  }

  // Settling is possible for the same jobs, and does the same.
  lemma SettlePicturesIff(s: Sys, q: PushRuns.Sys, w: nat)
    requires QueuePictures(s, q) && w in q.workers
    ensures var p := q.workers[w].job.path;
      && (PushRuns.Enabled(q, PushRuns.Settle(w)) <==> Enabled(s, Settle(p)))
      && (Enabled(s, Settle(p)) ==> QueuePictures(Apply(s, Settle(p)), PushRuns.Apply(q, PushRuns.Settle(w))))
  {
    hide PushRuns.Exclusive, QueuePictures, PushRuns.Enabled, PushRuns.Apply, Enabled, Apply, SameJob;
    var p := q.workers[w].job.path;
    SameRows(s, q);
    JobHere(s, q, w);
    SettleSteps(s, q, w);
    StillExclusive(s, q, PushRuns.Settle(w));
    if Enabled(s, Settle(p)) {
      OtherJobsStay(s, q, Apply(s, Settle(p)), PushRuns.Apply(q, PushRuns.Settle(w)), w, p);
    }
  }

  lemma DropSteps(s: Sys, q: PushRuns.Sys, w: nat)
    requires s.rows == q.rows && w in q.workers && q.workers[w].job.path in s.held
    ensures var p := q.workers[w].job.path;
      var t, r := Apply(s, Drop(p)), PushRuns.Apply(q, PushRuns.Drop(w));
      && t.rows == r.rows && t.next == s.next && r.next == q.next
      && t.held == s.held - {p} && r.workers == q.workers - {w}
  {
  }

  lemma DropPictures(s: Sys, q: PushRuns.Sys, w: nat)
    requires QueuePictures(s, q) && w in q.workers
    ensures QueuePictures(Apply(s, Drop(q.workers[w].job.path)), PushRuns.Apply(q, PushRuns.Drop(w)))
  {
    hide PushRuns.Exclusive, QueuePictures, PushRuns.Apply, Apply, SameJob;
    var p := q.workers[w].job.path;
    SameRows(s, q);
    JobHere(s, q, w);
    DropSteps(s, q, w);
    StillExclusive(s, q, PushRuns.Drop(w));
    OtherJobsStay(s, q, Apply(s, Drop(p)), PushRuns.Apply(q, PushRuns.Drop(w)), w, p);
  }

  // ---- The other steps --------------------------------------------------------------------------------

  lemma FlushSteps(s: Sys, q: PushRuns.Sys, p: Path, now: int)
    requires s.rows == q.rows && s.next == q.next && p in s.local && q.clock <= now
    ensures var t, r := Apply(s, Flush(p, now)), PushRuns.Apply(q, PushRuns.Enqueue(p, OpKind.Write, None, None, now));
      t.rows == r.rows && t.next == r.next && t.held == s.held && r.workers == q.workers
  {
    hide IsNoisePath, Upsert;
  }

  // A flush of a cached document enqueues a write of it.
  lemma FlushEnqueues(s: Sys, q: PushRuns.Sys, p: Path, now: int)
    requires QueuePictures(s, q) && p in s.local && q.clock <= now
    ensures var step := PushRuns.Enqueue(p, OpKind.Write, None, None, now);
      QueuePictures(Apply(s, Flush(p, now)), PushRuns.Apply(q, step))
  {
    hide PushRuns.Exclusive, PushRuns.Apply, Apply, SameJob;
    var step := PushRuns.Enqueue(p, OpKind.Write, None, None, now);
    FlushSteps(s, q, p, now);
    StillExclusive(s, q, step);
    var t, r := Apply(s, Flush(p, now)), PushRuns.Apply(q, step);
    forall w | w in r.workers ensures HasJob(t, r.workers[w]) {
      assert HasJob(s, q.workers[w]);
    }
    forall k | k in t.held ensures PushRuns.HeldBySomeone(r, k) {
      assert PushRuns.HeldBySomeone(q, k);
    }
  }

  lemma QuietSteps(s: Sys, step: Step)
    requires step.Edit? || step.RemoteEdit? || step.BeginPull? || step.PullDoc? || step.FinishPull? || step.AbortPull?
    ensures var t := Apply(s, step); t.rows == s.rows && t.held == s.held && t.next == s.next
  {
    hide StrLt, Complete, Protected;
  }

  // Edits, other clients and pulls leave the queue alone.
  lemma OthersLeaveQueue(s: Sys, q: PushRuns.Sys, step: Step)
    requires QueuePictures(s, q)
    requires step.Edit? || step.RemoteEdit? || step.BeginPull? || step.PullDoc? || step.FinishPull? || step.AbortPull?
    ensures QueuePictures(Apply(s, step), q)
  {
    hide PushRuns.Exclusive, Apply, HasJob;
    QuietSteps(s, step);
    SameQueue(s, Apply(s, step), q);
  }

  // ---- Whole runs --------------------------------------------------------------------------------------

  lemma RunOne(s: Sys, a: Step)
    ensures Run(s, [a]) == Apply(s, a)
  {
    hide Apply;
    assert [a][..0] == [];
  }

  lemma PushesKeepLocal(s: Sys, step: Step)
    requires step.Flush? || step.Claim? || step.Read? || step.Put? || step.Settle? || step.Drop?
    ensures Apply(s, step).local == s.local
  {
    hide IsNoisePath, StrLt, SettleRows, Upsert;
  }

  lemma StepHere(s: Sys, q: PushRuns.Sys, a: Step, r: PushRuns.Sys)
    requires QueuePictures(Apply(s, a), r)
    requires a.Flush? || a.Claim? || a.Read? || a.Put? || a.Settle? || a.Drop?
    ensures QueuePictures(Run(s, [a]), r) && Run(s, [a]).local == s.local
  {
    hide Apply, QueuePictures;
    RunOne(s, a);
    PushesKeepLocal(s, a);
  }

  // The enqueues that flushes of cached documents make.
  predicate Flushes(s: Sys, step: PushRuns.Step) {
    step.Enqueue? ==> step.path in s.local && step.kind == OpKind.Write && step.contentIno.None? && step.renameTo.None?
  }

  lemma LaterStamp(top: string)
    ensures StrLt(top, top + "0")
  {
    StrLtHeads(top, "", top, "0");
    assert top + "" == top;
  }

  lemma NothingHere(s: Sys, q: PushRuns.Sys, step: PushRuns.Step)
    requires QueuePictures(s, q) && !PushRuns.Enabled(q, step)
    ensures QueuePictures(Run(s, []), PushRuns.Apply(q, step)) && Run(s, []).local == s.local
  {
    hide QueuePictures;
  }

  lemma SendHappens(s: Sys, q: PushRuns.Sys, w: nat, answer: Answer) returns (here: seq<Step>)
    requires QueuePictures(s, q) && PushRuns.Enabled(q, PushRuns.Execute(w, answer)) && w in q.workers
    ensures QueuePictures(Run(s, here), PushRuns.Apply(q, PushRuns.Execute(w, answer))) && Run(s, here).local == s.local
  {
    hide QueuePictures, PushRuns.Enabled, PushRuns.Apply, Enabled, Apply, Run, StrLt;
    var p, stamp := q.workers[w].job.path, s.top + "0";
    LaterStamp(s.top);
    SendPicturesIff(s, q, w, answer, true, stamp);
    var put, r := Put(p, answer, true, stamp), PushRuns.Apply(q, PushRuns.Execute(w, answer));
    if Enabled(s, put) {
      here := [put];
      StepHere(s, q, put, r);
    } else {
      var t := Run(s, [Read(p)]);
      StepHere(s, q, Read(p), q);
      RunOne(s, Read(p));
      SameTop(s, p);
      SendPicturesIff(t, q, w, answer, true, stamp);
      StepHere(t, q, put, r);
      here := [Read(p)] + [put];
      SyncRuns.RunConcat(s, [Read(p)], [put]);
    }
  }

  lemma SameTop(s: Sys, p: Path)
    ensures Apply(s, Read(p)).top == s.top
  {
  }

  lemma InOrderThere(q: PushRuns.Sys, step: PushRuns.Step)
    requires PushRuns.Enabled(q, step)
    ensures step.Enqueue? ==> q.clock <= step.now
    ensures step.Execute? || step.Settle? || step.Drop? ==> step.worker in q.workers
  {
  }

  lemma StepHappens(s: Sys, q: PushRuns.Sys, step: PushRuns.Step) returns (here: seq<Step>)
    requires QueuePictures(s, q) && Flushes(s, step)
    ensures QueuePictures(Run(s, here), PushRuns.Apply(q, step)) && Run(s, here).local == s.local
  {
    hide QueuePictures, PushRuns.Enabled, PushRuns.Apply, Enabled, Apply, Run;
    if !PushRuns.Enabled(q, step) {
      NothingHere(s, q, step);
      return [];
    }
    InOrderThere(q, step);
    match step {
      case Enqueue(p, _, _, _, now) =>
        FlushEnqueues(s, q, p, now);
        here := [Flush(p, now)];
      case Claim(w, p, now) =>
        ClaimPictures(s, q, w, p, now);
        here := [Claim(p, now)];
      case Execute(w, answer) =>
        here := SendHappens(s, q, w, answer);
        return;
      case Settle(w) =>
        SettlePicturesIff(s, q, w);
        here := [Settle(q.workers[w].job.path)];
      case Drop(w) =>
        DropPictures(s, q, w);
        here := [Drop(q.workers[w].job.path)];
    }
    StepHere(s, q, here[0], PushRuns.Apply(q, step));
    assert here == [here[0]];
  }

  // Every run of workers and flushes there is, in the rows and jobs it leaves, a run here.
  lemma {:induction false} QueueRunsHappen(s: Sys, steps: seq<PushRuns.Step>) returns (here: seq<Step>)
    requires s.rows == map[] && s.held == map[] && s.next == 0
    requires forall i :: 0 <= i < |steps| ==> Flushes(s, steps[i])
    ensures QueuePictures(Run(s, here), PushRuns.Run(PushRuns.INIT, steps)) && Run(s, here).local == s.local
  {
    if steps == [] {
      here := [];
    } else {
      var front, last := steps[..|steps| - 1], steps[|steps| - 1];
      here := QueueRunsHappen(s, front);
      hide QueuePictures, PushRuns.Enabled, PushRuns.Apply, Enabled, Apply;
      var t := Run(s, here);
      assert Flushes(t, last);
      var more := StepHappens(t, PushRuns.Run(PushRuns.INIT, front), last);
      SyncRuns.RunConcat(s, here, more);
      here := here + more;
    }
  }
}
