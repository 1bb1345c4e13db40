/** What a raise leaves possible: which siblings of a cue that raised can still be submitted. */
module TimelineFaults {
  import opened Common
  import opened TimelineContract
  import opened TimelineExecution
  import opened TimelineRuns
  import opened TimelineLiveness

  ghost predicate Raised(s: State, i: nat) {
    i < |s.pcs| && (s.pcs[i].Aborted? || s.pcs[i].Crashed?)
  }

  ghost predicate CanBeSubmitted(plan: Plan, s: State, j: nat) {
    exists steps :: Legal(plan, s, steps) && Submitted(After(plan, s, steps), j)
  }

  lemma {:induction false} RaisedForGood(plan: Plan, s: State, steps: seq<Step>, i: nat)
    requires DistinctIds(plan.cues) && Inv(plan, s) && Legal(plan, s, steps) && Raised(s, i)
    ensures Inv(plan, After(plan, s, steps)) && Raised(After(plan, s, steps), i)
    decreases |steps|
  {
    if steps != [] {
      InvKept(plan, s, steps[0]);
      RaisedForGood(plan, Apply(plan, s, steps[0]), steps[1..], i);
    }
  }

  /** A cue that raised has not SUCCEEDED. */
  lemma RaisedIsNoSuccess(plan: Plan, s: State, i: nat)
    requires Inv(plan, s) && i < |plan.cues| && Raised(s, i)
    ensures !SucceededIn(s.exec, plan.cues[i].cueId)
  {
    assert PcOk(plan, s, i);
  }

  /** A cue that depends on one that raised, directly or through other cues, was not submitted and never will be. */
  lemma DependentsAreNeverSubmitted(plan: Plan, s: State, i: nat, j: nat, w: seq<string>)
    requires DistinctIds(plan.cues) && Reachable(plan, s) && i < |plan.cues| && j < |plan.cues| && Raised(s, i)
    requires IsWalk(GraphOf(plan.cues), w) && |w| > 1
    requires w[0] == plan.cues[j].cueId && w[|w| - 1] == plan.cues[i].cueId
    ensures !CanBeSubmitted(plan, s, j)
  {
    ReachableInv(plan, s);
    forall steps | Legal(plan, s, steps)
      ensures !Submitted(After(plan, s, steps), j)
    {
      var t := After(plan, s, steps);
      RaisedForGood(plan, s, steps, i);
      if k :| 0 <= k < |t.submissions| && t.submissions[k].cue == j {
        assert SubmissionOk(plan, t, t.submissions[k]);
        assert EdgeAt(GraphOf(plan.cues), w, 1);
        GraphEntry(plan.cues, j);
        SubWalk(GraphOf(plan.cues), w, 1, |w|);
        assert w[1..|w|] == w[1..];
        SuccessSpreads(plan, t, w[1..]);
        RaisedIsNoSuccess(plan, t, i);
        assert false;
      }
    }
  }

  /** When the cue's task can look at the clock next. */
  function NextWake(s: State, j: nat): real
    requires j < |s.pcs|
  {
    if s.pcs[j].Sleeping? && s.pcs[j].wakeAt > s.now then s.pcs[j].wakeAt else s.now
  }

  /** The next wake-up is not past the lateness window, and there is one. */
  predicate InTime(plan: Plan, s: State, j: nat)
    requires j < |s.pcs| && j < |plan.cues|
  {
    var lateness := plan.cues[j].latePolicy.maxLatenessMs;
    0 <= lateness && NextWake(s, j) <= s.start + plan.cues[j].atMs as real + lateness as real
  }

  ghost predicate Ready(plan: Plan, s: State, j: nat) {
    j < |plan.cues| && j < |s.pcs| && NotYetSubmitted(s.pcs[j]) && AllDepsSucceeded(plan, s, j)
  }

  /** The cue has missed its window, and its task has noticed or will. */
  ghost predicate Missed(plan: Plan, s: State, j: nat) {
    && j < |plan.cues| && j < |s.pcs| && !Submitted(s, j)
    && (s.pcs[j].Finished? || s.pcs[j].Aborted? || (Ready(plan, s, j) && !InTime(plan, s, j)))
  }

  lemma OwnStepStillMisses(plan: Plan, s: State, step: Step, j: nat)
    requires Inv(plan, s) && Enabled(plan, s, step) && Missed(plan, s, j) && Mover(step) == Some(j)
    ensures Missed(plan, Apply(plan, s, step), j)
  {
    assert PcOk(plan, s, j);
  }

  lemma StepStillMisses(plan: Plan, s: State, step: Step, j: nat)
    requires DistinctIds(plan.cues) && Inv(plan, s) && Enabled(plan, s, step) && Missed(plan, s, j)
    ensures Missed(plan, Apply(plan, s, step), j)
  {
    if Mover(step) == Some(j) {
      OwnStepStillMisses(plan, s, step, j);
    } else {
      StepGrows(plan, s, step);
      KnowledgeGrows(plan, s, Apply(plan, s, step), j);
      OnlyMoverChanges(plan, s, step, j);
    }
  }

  lemma {:induction false} MissedForGood(plan: Plan, s: State, steps: seq<Step>, j: nat)
    requires DistinctIds(plan.cues) && Inv(plan, s) && Legal(plan, s, steps) && Missed(plan, s, j)
    ensures !Submitted(After(plan, s, steps), j)
    decreases |steps|
  {
    if steps != [] {
      InvKept(plan, s, steps[0]);
      StepStillMisses(plan, s, steps[0], j);
      MissedForGood(plan, Apply(plan, s, steps[0]), steps[1..], j);
    }
  }

  /** The cue's own steps, unheld, and the clock's. */
  predicate Alone(step: Step, j: nat) {
    step == DependencyReady(j) || step == TimerDue(j, false) || step.Tick?
  }

  /** The next thing cue `j` does on its way to the submit request. */
  function NextStep(plan: Plan, s: State, j: nat): Step
    requires j < |s.pcs| && j < |plan.cues|
  {
    if s.pcs[j].AwaitDependency? && s.pcs[j].index < |plan.cues[j].dependsOn| then DependencyReady(j)
    else if s.pcs[j].Sleeping? && s.pcs[j].wakeAt > s.now then Tick(s.pcs[j].wakeAt)
    else TimerDue(j, false)
  }

  /** What is left before the submit request: dependencies to look at, polls, and a nap. */
  ghost function Ahead(plan: Plan, s: State, j: nat): (nat, nat, nat)
    requires j < |s.pcs| && j < |plan.cues|
  {
    (if s.pcs[j].AwaitDependency? && s.pcs[j].index <= |plan.cues[j].dependsOn|
       then |plan.cues[j].dependsOn| - s.pcs[j].index + 1 else 0,
     Polls(Deadline(s.start, plan.cues[j]) - NextWake(s, j)),
     if NextWake(s, j) > s.now then 1 else 0)
  }

  ghost predicate Before(a: (nat, nat, nat), b: (nat, nat, nat)) {
    a.0 < b.0 || (a.0 == b.0 && (a.1 < b.1 || (a.1 == b.1 && a.2 < b.2)))
  }

  lemma NextStepHelps(plan: Plan, s: State, j: nat)
    requires DistinctIds(plan.cues) && Inv(plan, s) && Ready(plan, s, j) && InTime(plan, s, j)
    ensures Enabled(plan, s, NextStep(plan, s, j))
    ensures var t := Apply(plan, s, NextStep(plan, s, j));
      Submitted(t, j) ||
      (Ready(plan, t, j) && InTime(plan, t, j) && Before(Ahead(plan, t, j), Ahead(plan, s, j)))
  {
    assert PcOk(plan, s, j);
    var step, deadline := NextStep(plan, s, j), Deadline(s.start, plan.cues[j]);
    if step.DependencyReady? {
      assert SucceededIn(s.exec, plan.cues[j].dependsOn[s.pcs[j].index]);
    } else if step.TimerDue? {
      var t := Apply(plan, s, step);
      if s.now < deadline {
        PollsShrink(deadline - s.now, deadline - s.now);
      } else {
        assert t.submissions[|s.submissions|].cue == j;
      }
    }
  }

  lemma {:induction false} SubmitInTime(plan: Plan, s: State, j: nat) returns (steps: seq<Step>)
    requires DistinctIds(plan.cues) && Inv(plan, s) && Ready(plan, s, j) && InTime(plan, s, j)
    ensures Legal(plan, s, steps) && Submitted(After(plan, s, steps), j)
    ensures forall k :: 0 <= k < |steps| ==> Alone(steps[k], j)
    decreases Ahead(plan, s, j).0, Ahead(plan, s, j).1, Ahead(plan, s, j).2
  {
    var step := NextStep(plan, s, j);
    NextStepHelps(plan, s, j);
    InvKept(plan, s, step);
    var t := Apply(plan, s, step);
    var rest: seq<Step> := [];
    if Submitted(t, j) {
      assert Legal(plan, t, []) && After(plan, t, []) == t;
    } else {
      rest := SubmitInTime(plan, t, j);
    }
    Prepend(plan, s, step, rest);
    steps := [step] + rest;
  }

  /** A cue whose dependencies all SUCCEEDED and that is not submitted yet can still be submitted exactly when its
      next wake-up falls inside its lateness window. */
  lemma SubmittedIffInTime(plan: Plan, s: State, j: nat)
    requires DistinctIds(plan.cues) && Reachable(plan, s) && Ready(plan, s, j)
    ensures CanBeSubmitted(plan, s, j) <==> InTime(plan, s, j)
  {
    ReachableInv(plan, s);
    if InTime(plan, s, j) {
      var steps := SubmitInTime(plan, s, j);
    } else {
      forall k | 0 <= k < |s.submissions| ensures s.submissions[k].cue != j {
        assert SubmissionOk(plan, s, s.submissions[k]);
      }
      forall steps | Legal(plan, s, steps) ensures !Submitted(After(plan, s, steps), j) {
        MissedForGood(plan, s, steps, j);
      }
    }
  }

  /** Cue `j` depends on cue `i`, directly or through other cues. */
  ghost predicate DependsOn(plan: Plan, j: nat, i: nat)
    requires i < |plan.cues| && j < |plan.cues|
  {
    exists w :: IsWalk(GraphOf(plan.cues), w) && |w| > 1 && w[0] == plan.cues[j].cueId
        && w[|w| - 1] == plan.cues[i].cueId
  }

  /** What a raise stops, for every Timeline and every state it can leave behind: whatever depends on the cue that
      raised is never submitted; a sibling that is ready is submitted or not by its own window alone. */
  lemma AfterAFault(plan: Plan, s: State, i: nat, j: nat)
    requires DistinctIds(plan.cues) && Reachable(plan, s) && i < |plan.cues| && j < |plan.cues| && Raised(s, i)
    ensures DependsOn(plan, j, i) ==> !CanBeSubmitted(plan, s, j)
    ensures Ready(plan, s, j) ==> (CanBeSubmitted(plan, s, j) <==> InTime(plan, s, j))
  {
    if w :| IsWalk(GraphOf(plan.cues), w) && |w| > 1 && w[0] == plan.cues[j].cueId && w[|w| - 1] == plan.cues[i].cueId {
      DependentsAreNeverSubmitted(plan, s, i, j, w);
    }
    if Ready(plan, s, j) {
      SubmittedIffInTime(plan, s, j);
    }
  }
}
