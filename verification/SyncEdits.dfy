// What becomes of local edits over whole runs of the protocol: when a pull puts another body
// in the place of an edit that was not sent yet.
module SyncEdits {
  import opened Basics
  import opened ChunkStore
  import opened PushQueue
  import opened Pull
  import opened Sync
  import opened SyncRuns

  // The pull's next document is applied.
  predicate Applying(s: Sys) { Pulls(s) && Applies(s, s.pull.value.todo[0]) }

  // A successful push settles.
  ghost predicate Settling(s: Sys, step: Step) {
    step.Settle? && Enabled(s, step) && s.held[step.path].result == Some(Done)
  }

  // Documents with edits that were neither sent nor replaced by a pull, and the time of the
  // newest write or flush among those; none if they are truncations only.
  type Edits = map<Path, Option<int>>

  // What a step makes of the edits not sent yet. A push that settles sends all of them if
  // there is nothing newer.
  ghost function UnsentStep(s: Sys, step: Step, u: Edits): Edits {
    if !Enabled(s, step) then u
    else match step
      case Edit(p, _, marks, now) => u[p := if marks then Some(now) else if p in u then u[p] else None]
      case Flush(p, now) => u[p := Some(now)]
      case Settle(p) => if Settling(s, step) && !Newer(s, p) then u - {p} else u
      case PullDoc => if Applying(s) then u - {s.pull.value.todo[0].path} else u
      case _ => u
  }

  ghost function Unsent(s: Sys, steps: seq<Step>): Edits {
    if steps == [] then map[]
    else
      var t, step, u := Run(s, steps[..|steps| - 1]), steps[|steps| - 1], Unsent(s, steps[..|steps| - 1]);
      UnsentStep(t, step, u)
  }

  // No push settles with success while there is an edit of its document that it does not
  // carry, one not flushed yet or one waiting in the pending slot.
  ghost predicate Patient(s: Sys, steps: seq<Step>) {
    forall i :: 0 <= i < |steps| && Settling(Run(s, steps[..i]), steps[i]) ==>
      !Newer(Run(s, steps[..i]), steps[i].path)
  }

  // The dirty flags are those of the unsent edits, at their own times, and no others.
  ghost predicate FlagsMatch(s: Sys, u: Edits) {
    && (forall p :: p in s.dirty <==> p in u && u[p].Some?)
    && (forall p :: p in u && p in s.dirty ==> u[p] == Some(s.dirty[p]))
    && (forall p :: p in u ==> p in s.local)
  }

  lemma FlagsMatchSettle(s: Sys, step: Step, u: Edits)
    requires FlagsMatch(s, u) && step.Settle? && (Settling(s, step) ==> !Newer(s, step.path))
    ensures FlagsMatch(Apply(s, step), UnsentStep(s, step, u))
  {
    hide Newer, SettleRows;
  }

  // The flags and documents after a pull's step.
  lemma Reconciled(s: Sys)
    requires Pulls(s)
    ensures var p, t := s.pull.value.todo[0].path, Reconcile(s);
      && t.dirty == (if Applying(s) then s.dirty - {p} else s.dirty)
      && t.local.Keys >= s.local.Keys
  {
    hide StrLt, Skipped, Protected;
  }

  lemma FlagsMatchPull(s: Sys, u: Edits)
    requires FlagsMatch(s, u)
    ensures FlagsMatch(Apply(s, PullDoc), UnsentStep(s, PullDoc, u))
  {
    if Pulls(s) {
      Reconciled(s);
      hide Reconcile, Applying;
      FlagsMatchWithout(s, u, s.pull.value.todo[0].path);
    }
  }

  lemma FlagsMatchWithout(s: Sys, u: Edits, p: Path)
    requires FlagsMatch(s, u)
    ensures forall t: Sys :: t.dirty == s.dirty - {p} && t.local.Keys >= s.local.Keys ==> FlagsMatch(t, u - {p})
    ensures forall t: Sys :: t.dirty == s.dirty && t.local.Keys >= s.local.Keys ==> FlagsMatch(t, u)
  {
  }

  lemma FlagsMatchLocal(s: Sys, step: Step, u: Edits)
    requires FlagsMatch(s, u) && (step.Edit? || step.Flush?)
    ensures FlagsMatch(Apply(s, step), UnsentStep(s, step, u))
  {
    hide IsNoisePath, Upsert;
  }

  // The other steps touch neither flags nor documents.
  lemma SameFlags(s: Sys, step: Step, u: Edits)
    requires !step.Settle? && !step.PullDoc? && !step.Edit? && !step.Flush?
    ensures Apply(s, step).dirty == s.dirty && Apply(s, step).local == s.local && UnsentStep(s, step, u) == u
  {
    hide StrLt, MarkInflight, Complete;
  }

  lemma FlagsMatchStep(s: Sys, step: Step, u: Edits)
    requires FlagsMatch(s, u) && (Settling(s, step) ==> !Newer(s, step.path))
    ensures FlagsMatch(Apply(s, step), UnsentStep(s, step, u))
  {
    hide Apply, UnsentStep, Newer;
    match step {
      case Settle(_) => FlagsMatchSettle(s, step, u);
      case PullDoc => FlagsMatchPull(s, u);
      case Edit(_, _, _, _) => FlagsMatchLocal(s, step, u);
      case Flush(_, _) => FlagsMatchLocal(s, step, u);
      case _ => SameFlags(s, step, u);
    }
  }

  // In every patient run from an empty cache a dirty flag is up exactly where a write or
  // flush is not sent yet, and shows the time of the newest.
  lemma {:induction false} UnsentIsFlagged(server: map<Path, Remote>, top: string, steps: seq<Step>)
    requires Patient(Init(server, top), steps)
    ensures FlagsMatch(Run(Init(server, top), steps), Unsent(Init(server, top), steps))
  {
    hide Apply, UnsentStep, FlagsMatch, Newer;
    var s := Init(server, top);
    if steps == [] {
      assert FlagsMatch(s, map[]) by { NoFlags(server, top); }
    } else {
      var n := |steps| - 1;
      PatientFront(s, steps);
      UnsentIsFlagged(server, top, steps[..n]);
      FlagsMatchStep(Run(s, steps[..n]), steps[n], Unsent(s, steps[..n]));
    }
  }

  lemma PatientFront(s: Sys, steps: seq<Step>)
    requires steps != [] && Patient(s, steps)
    ensures Patient(s, steps[..|steps| - 1])
  {
    hide Run, Settling, Newer;
    var front := steps[..|steps| - 1];
    forall i | 0 <= i < |front| ensures front[..i] == steps[..i] && front[i] == steps[i] {}
  }

  lemma NoFlags(server: map<Path, Remote>, top: string)
    ensures FlagsMatch(Init(server, top), map[])
  {
  }

  function LocalOf(s: Sys, p: Path): Option<Bytes> { if p in s.local then Some(s.local[p]) else None }

  // What holds off a document: its path is recorded, and there is an unsent write or flush
  // that is no older.
  predicate HeldOff(s: Sys, edit: Option<int>, doc: Listed) {
    doc.path in s.known && edit.Some? && Outdated(edit.value, doc)
  }

  // In a patient run, a pull that comes to a document with unsent edits leaves its bytes if
  // and only if it is held off, or brings the same bytes.
  lemma EditsSurvivePullIff(server: map<Path, Remote>, top: string, steps: seq<Step>)
    requires Patient(Init(server, top), steps)
    requires var t := Run(Init(server, top), steps);
      Pulls(t) && t.pull.value.todo[0].path in Unsent(Init(server, top), steps)
        && !Skipped(t.pull.value.todo[0], t.pull.value.since)
    ensures var t := Run(Init(server, top), steps);
      var doc := t.pull.value.todo[0];
      LocalOf(Apply(t, PullDoc), doc.path) == LocalOf(t, doc.path) <==>
        HeldOff(t, Unsent(Init(server, top), steps)[doc.path], doc) || LocalOf(t, doc.path) == Some(Body(doc))
  {
    hide Unsent, Patient, Run, Skipped, Outdated, FlagsMatch, HeldOff, Apply;
    UnsentIsFlagged(server, top, steps);
    SurvivesPullIff(Run(Init(server, top), steps), Unsent(Init(server, top), steps));
  }

  lemma SurvivesPullIff(s: Sys, u: Edits)
    requires FlagsMatch(s, u) && Pulls(s) && s.pull.value.todo[0].path in u
    requires !Skipped(s.pull.value.todo[0], s.pull.value.since)
    ensures var doc := s.pull.value.todo[0];
      LocalOf(Apply(s, PullDoc), doc.path) == LocalOf(s, doc.path) <==>
        HeldOff(s, u[doc.path], doc) || LocalOf(s, doc.path) == Some(Body(doc))
  {
    hide StrLt, Skipped, Outdated;
  }

  // And no other step but a local edit changes them.
  lemma UnsentYieldsOnly(server: map<Path, Remote>, top: string, steps: seq<Step>, step: Step, p: Path)
    requires Patient(Init(server, top), steps) && p in Unsent(Init(server, top), steps)
    requires LocalOf(Run(Init(server, top), steps + [step]), p) != LocalOf(Run(Init(server, top), steps), p)
    ensures var t := Run(Init(server, top), steps);
      || (step.Edit? && step.path == p)
      || (step.PullDoc? && Applying(t) && t.pull.value.todo[0].path == p
          && !HeldOff(t, Unsent(Init(server, top), steps)[p], t.pull.value.todo[0]))
  {
    UnsentIsFlagged(server, top, steps);
    assert (steps + [step])[..|steps|] == steps;
    hide Unsent, Patient, Run, Outdated, Skipped;
    LocalChanges(Run(Init(server, top), steps), step, p);
  }

  lemma LocalChanges(s: Sys, step: Step, p: Path)
    requires LocalOf(Apply(s, step), p) != LocalOf(s, p)
    ensures step.Edit? || step.PullDoc?
    ensures step.Edit? ==> step.path == p
    ensures step.PullDoc? ==> Applying(s) && s.pull.value.todo[0].path == p
  {
    hide StrLt, IsNoisePath, Skipped, Outdated;
  }

  // The guard is exact: a successful push of a document with unsent edits settles with the
  // flags still matching if and only if there is nothing newer, or only truncations.
  lemma SettleKeepsUnsentIff(s: Sys, p: Path, u: Edits)
    requires FlagsMatch(s, u) && Settling(s, Settle(p)) && p in u
    ensures FlagsMatch(Apply(s, Settle(p)), UnsentStep(s, Settle(p), u)) <==> !Newer(s, p) || u[p].None?
  {
    hide StrLt, IsNoisePath, Newer;
    if !Newer(s, p) { FlagsMatchStep(s, Settle(p), u); }
  }

  // And a push that settles with nothing newer did send the edit: the server holds these
  // bytes, or another client has changed the document since.
  lemma SettledIsSent(s: Sys, p: Path)
    requires Inv(s) && Settling(s, Settle(p)) && !Newer(s, p) && p in s.dirty
    ensures var t := Apply(s, Settle(p));
      p !in t.rows && (!Diverges(t, p) || (p in t.server && StrLt(s.held[p].stamp, t.server[p].at) && News(t, p)))
  {
    assert PathSafe(s, p);
    hide StrLt, IsNoisePath;
  }

  // ---- A truncation that a pull undoes --------------------------------------------------------------

  // The other client's change, and the truncation after it.
  function Cut(s: Sys, doc: Listed, cut: Bytes): Sys {
    s.(server := s.server[doc.path := Remote(Body(doc), doc.updatedAt)], top := doc.updatedAt,
       local := s.local[doc.path := cut], unflushed := s.unflushed + {doc.path})
  }

  function TruncatingSteps(mine: Bytes, now: int, at: string, doc: Listed, cut: Bytes, later: int): seq<Step> {
    SentSteps(doc.path, mine, now, at) + [Settle(doc.path)]
    + [RemoteEdit(doc.path, Body(doc), doc.updatedAt), Edit(doc.path, cut, false, later)] + PullSteps([doc], false)
  }

  // A document is pushed and settled. Another client changes it, and later it is truncated
  // here, which raises no flag. The next pull takes the truncation back, although the
  // document it brings is stamped no later than the truncation.
  lemma TruncationLostRun(mine: Bytes, now: int, at: string, doc: Listed, cut: Bytes, later: int)
    requires !IsNoisePath(doc.path) && at != "" && StrLt(at, doc.updatedAt) && cut != Body(doc)
    requires Outdated(later, doc)
    ensures var s := Init(map[], ""); var steps := TruncatingSteps(mine, now, at, doc, cut, later);
      Run(s, steps).local == map[doc.path := Body(doc)]
  {
    hide IsNoisePath, StrLt, Run, Complete, Outdated, PullSteps, SentSteps, Apply;
    var p, s0 := doc.path, Init(map[], "");
    var a, b, c := SentSteps(p, mine, now, at), [Settle(p)],
      [RemoteEdit(p, Body(doc), doc.updatedAt), Edit(p, cut, false, later)];
    RunConcat(s0, a + b + c, PullSteps([doc], false));
    RunConcat(s0, a + b, c);
    RunConcat(s0, a, b);
    SentRun(p, mine, now, at);
    var s1 := SentState(p, mine, now, at);
    One(s1, Settle(p));
    LastSettle(s1, p, now, mine, at);
    var s2 := Apply(s1, Settle(p));
    Two(s2, c[0], c[1]);
    var s3 := Apply(Apply(s2, c[0]), c[1]);
    assert s3 == Cut(s2, doc, cut) by { CutIs(s2, doc, cut, later); }
    assert doc.updatedAt != "" by { StrLtTotal(at, doc.updatedAt); StrLeEmpty(at); LaterNotEmpty(at, doc.updatedAt); }
    CompleteOne(s3.server, doc);
    PullOne(s3, doc);
  }

  lemma LaterNotEmpty(a: string, b: string)
    requires StrLt(a, b)
    ensures b != ""
  {
  }

  lemma CutIs(s: Sys, doc: Listed, cut: Bytes, later: int)
    requires StrLt(s.top, doc.updatedAt)
    ensures Apply(Apply(s, RemoteEdit(doc.path, Body(doc), doc.updatedAt)), Edit(doc.path, cut, false, later))
      == Cut(s, doc, cut)
  {
    hide StrLt;
  }

  // ---- An edit between the guard and the upsert -------------------------------------------------------

  // The second half of a pull's step, once the guard has let the document pass.
  function Overwrite(s: Sys): Sys
    requires Pulls(s)
  {
    var pulling := s.pull.value;
    var doc := pulling.todo[0];
    var newest := if StrLt(pulling.newest, doc.updatedAt) then doc.updatedAt else pulling.newest;
    s.(local := s.local[doc.path := Body(doc)],
       known := if doc.path in s.local then s.known else s.known + {doc.path},
       dirty := s.dirty - {doc.path},
       pull := Some(pulling.(todo := pulling.todo[1..], newest := newest)))
  }

  // The guard and the upsert take the lock one after the other. An edit that gets between
  // them is lost where the same edit before the guard would not be if and only if it is a
  // write of other bytes to a recorded document that is stamped no later. Its flag goes too.
  lemma RaceLosesIff(s: Sys, body: Bytes, marks: bool, now: int)
    requires Applying(s)
    ensures var doc := s.pull.value.todo[0]; var t := Apply(s, Edit(doc.path, body, marks, now));
      && Reconcile(s) == Overwrite(s)
      && doc.path !in Overwrite(t).dirty
      && ((LocalOf(Reconcile(t), doc.path) == Some(body) && LocalOf(Overwrite(t), doc.path) != Some(body)) <==>
            body != Body(doc) && marks && doc.path in s.known && Outdated(now, doc))
  {
    hide StrLt, Skipped, Outdated;
  }
}
