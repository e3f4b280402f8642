// The background read-side queue (cache/hydration.rs): a FIFO without duplicates, a memory
// of recent completions, and a bounded number of workers.
module Hydration {
  import opened Basics

  datatype Key = Exact(path: string) | Prefix(path: string)

  const CONCURRENCY := 4
  const NEGATIVE_TTL := 2000  // milliseconds

  datatype Inner = Inner(queue: seq<Key>, pending: set<Key>, inflight: set<Key>, recent: map<Key, int>)

  const NEW_INNER := Inner([], {}, {}, map[])

  // Completions younger than the TTL.
  function Retained(recent: map<Key, int>, now: int, ttl: int): map<Key, int> {
    map k | k in recent && now - recent[k] < ttl :: recent[k]
  }

  predicate Accepts(s: Inner, key: Key, now: int, ttl: int) {
    key !in Retained(s.recent, now, ttl) && key !in s.pending && key !in s.inflight
  }

  function Enqueued(s: Inner, key: Key, now: int, ttl: int): Inner {
    var t := s.(recent := Retained(s.recent, now, ttl));
    if Accepts(s, key, now, ttl) then t.(pending := s.pending + {key}, queue := s.queue + [key]) else t
  }

  function Claimed(s: Inner): Inner {
    if s.queue == [] then s
    else s.(queue := s.queue[1..], pending := s.pending - {s.queue[0]}, inflight := s.inflight + {s.queue[0]})
  }

  function Completed(s: Inner, key: Key, now: int): Inner {
    s.(inflight := s.inflight - {key}, recent := s.recent[key := now])
  }

  class HydrationScheduler {
    const negativeTtl: int
    var queue: seq<Key>
    var pending: set<Key>
    var inflight: set<Key>
    var recent: map<Key, int>

    constructor ()
      ensures State() == NEW_INNER && negativeTtl == NEGATIVE_TTL
    {
      negativeTtl := NEGATIVE_TTL;
      queue, pending, inflight, recent := [], {}, {}, map[];
    }

    ghost function State(): Inner
      reads this
    {
      Inner(queue, pending, inflight, recent)
    }

    // `accepted` is whether a worker is notified.
    method Enqueue(key: Key, now: int) returns (accepted: bool)
      modifies this
      ensures State() == Enqueued(old(State()), key, now, negativeTtl)
      ensures accepted == Accepts(old(State()), key, now, negativeTtl)
    {
      recent := map k | k in recent && now - recent[k] < negativeTtl :: recent[k];
      assert recent == Retained(old(recent), now, negativeTtl);
      if key in recent {
        return false;
      }
      if key in pending || key in inflight {
        return false;
      }
      pending := pending + {key};
      queue := queue + [key];
      return true;
    }

    method ClaimNext() returns (key: Option<Key>)
      modifies this
      ensures State() == Claimed(old(State()))
      ensures key == if old(queue) == [] then None else Some(old(queue)[0])
    {
      if queue == [] {
        return None;
      }
      var k := queue[0];
      queue := queue[1..];
      pending := pending - {k};
      inflight := inflight + {k};
      return Some(k);
    }

    method Complete(key: Key, now: int)
      modifies this
      ensures State() == Completed(old(State()), key, now)
    {
      inflight := inflight - {key};
      recent := recent[key := now];
    }

    // The worker loop's inner loop: a task per permit while there are keys. The keys it
    // starts are the oldest of the queue, as many as there are permits for.
    method StartTasks(free: nat) returns (started: seq<Key>)
      modifies this
      ensures started == old(queue)[..Min(free, |old(queue)|)]
      ensures queue == old(queue)[Min(free, |old(queue)|)..]
      ensures pending == old(pending) - (set k | k in started)
      ensures inflight == old(inflight) + (set k | k in started)
      ensures recent == old(recent)
    {
      started := [];
      while |started| < free
        invariant |started| <= Min(free, |old(queue)|)
        invariant started == old(queue)[..|started|] && queue == old(queue)[|started|..]
        invariant pending == old(pending) - (set k | k in started)
        invariant inflight == old(inflight) + (set k | k in started)
        invariant recent == old(recent)
      {
        var key := ClaimNext();
        if key.None? {
          break;
        }
        started := started + [key.value];
      }
    }
  }

  // ---- Whole runs ----------------------------------------------------------------------------

  // A task holds a permit from its claim until after it completed.
  datatype Sys = Sys(
    inner: Inner,
    tasks: map<nat, Option<Key>>,   // one per permit in use; none once its key is completed
    accepted: seq<Key>,             // history
    claimed: seq<Key>,              // history
    done: map<Key, int>,            // history: last completion
    clock: int)

  datatype Step =
    | Ask(key: Key, now: int)
    | Start(task: nat)
    | Finish(task: nat, now: int)
    | Release(task: nat)

  const INIT := Sys(NEW_INNER, map[], [], [], map[], 0)

  predicate Enabled(s: Sys, step: Step) {
    match step
    case Ask(_, now) => s.clock <= now
    case Start(t) => t !in s.tasks && |s.tasks| < CONCURRENCY && s.inner.queue != []
    case Finish(t, now) => s.clock <= now && t in s.tasks && s.tasks[t].Some?
    case Release(t) => t in s.tasks && s.tasks[t].None?
  }

  function Apply(s: Sys, step: Step): Sys {
    if !Enabled(s, step) then s
    else match step
      case Ask(key, now) =>
        s.(inner := Enqueued(s.inner, key, now, NEGATIVE_TTL),
           accepted := if Accepts(s.inner, key, now, NEGATIVE_TTL) then s.accepted + [key] else s.accepted,
             clock := now)
      case Start(t) =>
        s.(inner := Claimed(s.inner), tasks := s.tasks[t := Some(s.inner.queue[0])],
          claimed := s.claimed + [s.inner.queue[0]])
      case Finish(t, now) =>
        var key := s.tasks[t].value;
        s.(inner := Completed(s.inner, key, now), tasks := s.tasks[t := None], done := s.done[key := now], clock := now)
      case Release(t) => s.(tasks := s.tasks - {t})
  }

  function Run(steps: seq<Step>): Sys {
    if steps == [] then INIT else Apply(Run(steps[..|steps| - 1]), steps[|steps| - 1])
  }

  predicate NoRepeats(keys: seq<Key>) {
    forall i, j :: 0 <= i < j < |keys| ==> keys[i] != keys[j]
  }

  ghost predicate QueueOk(s: Inner) {
    && (forall k :: k in s.pending <==> k in s.queue)
    && NoRepeats(s.queue)
    && (forall k :: k in s.pending ==> k !in s.inflight && k !in s.recent)
    && (forall k :: k in s.inflight ==> k !in s.recent)
  }

  ghost predicate HasTask(tasks: map<nat, Option<Key>>, k: Key) {
    exists t :: t in tasks && tasks[t] == Some(k)
  }

  // In flight are the keys of running tasks, one each.
  ghost predicate Running(tasks: map<nat, Option<Key>>, inflight: set<Key>) {
    && (forall k :: k in inflight ==> HasTask(tasks, k))
    && (forall t :: t in tasks && tasks[t].Some? ==> tasks[t].value in inflight)
    && (forall t, u :: t in tasks && u in tasks && tasks[t] == tasks[u] && tasks[t].Some? ==> t == u)
  }

  ghost predicate TasksOk(s: Sys) { |s.tasks| <= CONCURRENCY && Running(s.tasks, s.inner.inflight) }

  // A completion is remembered until it is old enough.
  ghost predicate MemoryOk(s: Sys) {
    && (forall k :: k in s.inner.recent ==> k in s.done && s.inner.recent[k] == s.done[k])
    && (forall k :: k in s.done && s.clock - s.done[k] < NEGATIVE_TTL ==> k in s.inner.recent)
  }

  // Claims come in the order of accepted requests.
  predicate Fifo(s: Sys) { s.accepted == s.claimed + s.inner.queue }

  ghost predicate Ok(s: Sys) { QueueOk(s.inner) && TasksOk(s) && MemoryOk(s) && Fifo(s) }

  lemma AskOk(s: Sys, key: Key, now: int)
    requires Ok(s) && s.clock <= now
    ensures Ok(Apply(s, Ask(key, now)))
    ensures Accepts(s.inner, key, now, NEGATIVE_TTL) && key in s.done ==> now - s.done[key] >= NEGATIVE_TTL
  {
    var t := Apply(s, Ask(key, now));
    assert t.inner.recent == Retained(s.inner.recent, now, NEGATIVE_TTL);
    if Accepts(s.inner, key, now, NEGATIVE_TTL) {
      assert t.accepted == t.claimed + t.inner.queue;
    }
  }

  lemma StartQueueOk(s: Inner)
    requires QueueOk(s) && s.queue != []
    ensures QueueOk(Claimed(s)) && s.queue[0] !in s.inflight && s.queue == [s.queue[0]] + Claimed(s).queue
  {
    var key, t := s.queue[0], Claimed(s);
    assert s.queue == [key] + t.queue;
    assert key in s.pending;
    forall k ensures k in t.pending <==> k in t.queue {
      if k == key {
        assert forall i :: 0 <= i < |t.queue| ==> t.queue[i] == s.queue[i + 1];
      }
    }
  }

  lemma MapSizes(tasks: map<nat, Option<Key>>, t: nat, v: Option<Key>)
    ensures |tasks[t := v]| == |tasks| + (if t in tasks then 0 else 1)
    ensures |tasks - {t}| == |tasks| - (if t in tasks then 1 else 0)
  {
    assert tasks[t := v].Keys == tasks.Keys + {t};
    assert (tasks - {t}).Keys == tasks.Keys - {t};
    assert |tasks[t := v].Keys| == |tasks[t := v]| && |tasks.Keys| == |tasks| && |(tasks - {t}).Keys| == |tasks - {t}|;
  }

  lemma StartRunning(tasks: map<nat, Option<Key>>, inflight: set<Key>, t: nat, key: Key)
    requires Running(tasks, inflight) && t !in tasks && key !in inflight
    ensures Running(tasks[t := Some(key)], inflight + {key})
  {
    var after := tasks[t := Some(key)];
    assert after[t] == Some(key);
    forall k | k in inflight ensures HasTask(after, k) {
      var x :| x in tasks && tasks[x] == Some(k);
      assert after[x] == Some(k);
    }
  }

  lemma StartOk(s: Sys, t: nat)
    requires Ok(s) && Enabled(s, Start(t))
    ensures Ok(Apply(s, Start(t)))
  {
    hide QueueOk, Running, MemoryOk;
    StartQueueOk(s.inner);
    StartRunning(s.tasks, s.inner.inflight, t, s.inner.queue[0]);
    assert |s.tasks[t := Some(s.inner.queue[0])]| <= CONCURRENCY by { MapSizes(s.tasks, t, Some(s.inner.queue[0])); }
    var u := Apply(s, Start(t));
    assert u.claimed + u.inner.queue == s.claimed + s.inner.queue;
    assert MemoryOk(u) by { SameMemory(s, u); }
  }

  lemma SameMemory(s: Sys, u: Sys)
    requires MemoryOk(s) && u.inner.recent == s.inner.recent && u.done == s.done && u.clock == s.clock
    ensures MemoryOk(u)
  {
  }

  lemma FinishRunning(tasks: map<nat, Option<Key>>, inflight: set<Key>, t: nat)
    requires Running(tasks, inflight) && t in tasks && tasks[t].Some?
    ensures Running(tasks[t := None], inflight - {tasks[t].value}) && tasks[t].value in inflight
  {
    var after := tasks[t := None];
    forall k | k in inflight && k != tasks[t].value ensures HasTask(after, k) {
      var x :| x in tasks && tasks[x] == Some(k);
      assert after[x] == Some(k);
    }
  }

  lemma FinishOk(s: Sys, t: nat, now: int)
    requires Ok(s) && Enabled(s, Finish(t, now))
    ensures Ok(Apply(s, Finish(t, now)))
  {
    hide Running, QueueOk, MemoryOk;
    FinishRunning(s.tasks, s.inner.inflight, t);
    assert |s.tasks[t := None]| <= CONCURRENCY by { MapSizes(s.tasks, t, None); }
    FinishInnerOk(s, t, now);
  }

  lemma FinishInnerOk(s: Sys, t: nat, now: int)
    requires QueueOk(s.inner) && MemoryOk(s) && Enabled(s, Finish(t, now)) && s.tasks[t].value in s.inner.inflight
    ensures var u := Apply(s, Finish(t, now)); QueueOk(u.inner) && MemoryOk(u)
  {
  }

  lemma ReleaseRunning(tasks: map<nat, Option<Key>>, inflight: set<Key>, t: nat)
    requires Running(tasks, inflight) && t in tasks && tasks[t].None?
    ensures Running(tasks - {t}, inflight)
  {
    var after := tasks - {t};
    forall k | k in inflight ensures HasTask(after, k) {
      var x :| x in tasks && tasks[x] == Some(k);
      assert after[x] == Some(k);
    }
  }

  lemma ReleaseOk(s: Sys, t: nat)
    requires Ok(s) && Enabled(s, Release(t))
    ensures Ok(Apply(s, Release(t)))
  {
    hide Running, QueueOk;
    ReleaseRunning(s.tasks, s.inner.inflight, t);
    assert |s.tasks - {t}| <= CONCURRENCY by { MapSizes(s.tasks, t, None); }
  }

  lemma InflightBounded(s: Sys)
    requires TasksOk(s)
    ensures |s.inner.inflight| <= CONCURRENCY
  {
    TaskKeys(s.tasks, s.inner.inflight);
  }

  lemma {:induction false} TaskKeys(tasks: map<nat, Option<Key>>, keys: set<Key>)
    requires forall k :: k in keys ==> HasTask(tasks, k)
    ensures |keys| <= |tasks|
    decreases |keys|
  {
    if keys != {} {
      var k :| k in keys;
      assert HasTask(tasks, k);
      var t :| t in tasks && tasks[t] == Some(k);
      var rest := tasks - {t};
      assert tasks.Keys == rest.Keys + {t};
      assert |rest.Keys| == |rest| && |tasks.Keys| == |tasks|;
      forall j | j in keys - {k} ensures HasTask(rest, j) {
        assert HasTask(tasks, j);
        var u :| u in tasks && tasks[u] == Some(j);
        assert rest[u] == Some(j);
      }
      TaskKeys(rest, keys - {k});
    }
  }

  // In every run: pending is the queue without duplicates; pending, in flight and recent
  // do not overlap; claims come in the order of accepted requests; at most four keys are
  // in flight.
  lemma {:induction false} RunsOk(steps: seq<Step>)
    ensures Ok(Run(steps)) && |Run(steps).inner.inflight| <= 4
  {
    hide QueueOk, TasksOk, MemoryOk, Fifo;
    if steps == [] {
      assert Ok(INIT) by { InitOk(); }
    } else {
      var s, step := Run(steps[..|steps| - 1]), steps[|steps| - 1];
      RunsOk(steps[..|steps| - 1]);
      if Enabled(s, step) {
        match step {
          case Ask(key, now) => AskOk(s, key, now);
          case Start(t) => StartOk(s, t);
          case Finish(t, now) => FinishOk(s, t, now);
          case Release(t) => ReleaseOk(s, t);
        }
      }
    }
    InflightBounded(Run(steps));
  }

  lemma InitOk()
    ensures Ok(INIT)
  {
  }

  // In every run a key is accepted unless it is queued, in flight, or was completed less than
  // 2000 ms before; a key never asked for always is. Accepting puts it last in the queue.
  lemma AcceptedAgainIff(steps: seq<Step>, key: Key, now: int)
    requires Enabled(Run(steps), Ask(key, now))
    ensures var s, t := Run(steps), Run(steps + [Ask(key, now)]);
      var wanted := key !in s.inner.queue && key !in s.inner.inflight && (key in s.done ==> now - s.done[key] >= 2000);
      && t.accepted == (if wanted then s.accepted + [key] else s.accepted)
      && t.inner.queue == (if wanted then s.inner.queue + [key] else s.inner.queue)
      && t.inner.inflight == s.inner.inflight && t.tasks == s.tasks && t.done == s.done
  {
    RunsOk(steps);
    AskOk(Run(steps), key, now);
    var all := steps + [Ask(key, now)];
    assert all[..|all| - 1] == steps;
  }

  // Whatever was never accepted is in none of the places, and so is accepted.
  lemma {:induction false} OnlyAcceptedKnown(steps: seq<Step>, key: Key)
    ensures var s := Run(steps);
      key !in s.accepted ==> key !in s.inner.queue && key !in s.inner.inflight && key !in s.done
  {
    if steps != [] {
      var s, step := Run(steps[..|steps| - 1]), steps[|steps| - 1];
      OnlyAcceptedKnown(steps[..|steps| - 1], key);
      RunsOk(steps[..|steps| - 1]);
      if Enabled(s, step) && step.Start? {
        assert key in s.inner.queue ==> key in s.accepted;
        assert s.inner.queue[0] in s.inner.queue;
      }
    }
  }

  lemma NewKeyQueued(steps: seq<Step>, key: Key, now: int)
    requires Enabled(Run(steps), Ask(key, now)) && key !in Run(steps).accepted
    ensures var s, t := Run(steps), Run(steps + [Ask(key, now)]);
      t.accepted == s.accepted + [key] && t.inner.queue == s.inner.queue + [key]
  {
    OnlyAcceptedKnown(steps, key);
    AcceptedAgainIff(steps, key, now);
  }

  // A task starts on the oldest key, exactly when fewer than four are running.
  lemma StartsIff(steps: seq<Step>, t: nat)
    requires t !in Run(steps).tasks
    ensures var s, u := Run(steps), Run(steps + [Start(t)]);
      if |s.tasks| < 4 && s.inner.queue != [] then
        && s.inner.queue == [s.inner.queue[0]] + u.inner.queue
        && u.tasks == s.tasks[t := Some(s.inner.queue[0])] && u.claimed == s.claimed + [s.inner.queue[0]]
        && u.inner.inflight == s.inner.inflight + {s.inner.queue[0]} && u.done == s.done
      else u == s
  {
    var s, all := Run(steps), steps + [Start(t)];
    assert all[..|all| - 1] == steps;
    if s.inner.queue != [] {
      assert s.inner.queue == [s.inner.queue[0]] + s.inner.queue[1..];
    }
  }

  // A task that finishes leaves its key in no set but the memory of completions.
  lemma FinishForgets(steps: seq<Step>, t: nat, now: int)
    requires Enabled(Run(steps), Finish(t, now))
    ensures var s, u := Run(steps), Run(steps + [Finish(t, now)]); var key := s.tasks[t].value;
      && u.tasks == s.tasks[t := None] && u.done == s.done[key := now]
      && u.inner.inflight == s.inner.inflight - {key} && key in s.inner.inflight
      && u.inner.queue == s.inner.queue && key !in u.inner.queue
  {
    var s, all := Run(steps), steps + [Finish(t, now)];
    assert all[..|all| - 1] == steps;
    RunsOk(steps);
  }
}
