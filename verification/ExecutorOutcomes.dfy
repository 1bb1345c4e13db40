/** What each recorded outcome says of what happened to its cue. */
module TimelineOutcomes {
  import opened Common
  import opened TimelineContract
  import opened TimelineExecution
  import opened TimelineRuns

  /** The Runtime accepted nothing for the cue, or turned its command down. */
  ghost predicate TurnedDown(s: State, i: nat) {
    NoCommand(s, i) || exists c :: Owns(s, i, c) && EndedWith(s, c, Rejected)
  }

  /** How far cue `i` has come agrees with its submission, its command and its outcome. */
  ghost predicate CauseOk(plan: Plan, s: State, i: nat)
    requires i < |plan.cues| && i < |s.pcs|
  {
    match s.pcs[i]
    case AwaitDependency(_) => !Submitted(s, i)
    case Sleeping(_) => !Submitted(s, i)
    case Requested => Submitted(s, i)
    case Replied(Refused) => Submitted(s, i) && TurnedDown(s, i)
    case Finished => HasOutcome(plan, s, i) && OutcomeFits(s, i, s.exec.outcomes[plan.cues[i].cueId].outcome)
    case Aborted => !Submitted(s, i) && NoCommand(s, i)
    case _ => Submitted(s, i)
  }

  ghost predicate OutcomeFits(s: State, i: nat, o: Outcome) {
    && (Submitted(s, i) <==> o != Skipped)
    && (Submitted(s, i) ==> (o == Failed && TurnedDown(s, i)) || FromServer(s, i, o))
    && (!Submitted(s, i) ==> NoCommand(s, i))
  }

  ghost predicate CausesOk(plan: Plan, s: State) {
    |s.pcs| == |plan.cues| && forall i :: 0 <= i < |plan.cues| ==> CauseOk(plan, s, i)
  }

  lemma SubmissionsGrow(plan: Plan, s: State, step: Step, j: nat)
    requires Inv(plan, s) && Enabled(plan, s, step)
    ensures Submitted(s, j) ==> Submitted(Apply(plan, s, step), j)
    ensures Mover(step) != Some(j) && Submitted(Apply(plan, s, step), j) ==> Submitted(s, j)
  {
    var t := Apply(plan, s, step);
    if k :| 0 <= k < |s.submissions| && s.submissions[k].cue == j {
      assert t.submissions[k].cue == j;
    }
  }

  lemma TurnedDownStays(plan: Plan, s: State, t: State, j: nat)
    requires Grows(s, t) && j < |plan.cues| && TurnedDown(s, j) && (NoCommand(s, j) ==> NoCommand(t, j))
    ensures TurnedDown(t, j)
  {
    KnowledgeGrows(plan, s, t, j);
    if !NoCommand(s, j) {
      var c :| Owns(s, j, c) && EndedWith(s, c, Rejected);
      assert Owns(t, j, c) && EndedWith(t, c, Rejected);
    }
  }

  lemma OtherCauseKept(plan: Plan, s: State, step: Step, j: nat)
    requires DistinctIds(plan.cues) && Inv(plan, s) && CausesOk(plan, s) && Enabled(plan, s, step)
    requires j < |plan.cues| && Mover(step) != Some(j)
    ensures Inv(plan, Apply(plan, s, step)) && CauseOk(plan, Apply(plan, s, step), j)
  {
    hide Apply, Enabled, PcOk, NoCommand, Owns, EndedWith, Submitted;
    var t := Apply(plan, s, step);
    InvKept(plan, s, step);
    assert CauseOk(plan, s, j);
    SubmissionsGrow(plan, s, step, j);
    OnlyMoverChanges(plan, s, step, j);
    StepGrows(plan, s, step);
    KnowledgeGrows(plan, s, t, j);
    if TurnedDown(s, j) {
      TurnedDownStays(plan, s, t, j);
    }
  }

  lemma NewSubmission(plan: Plan, s: State, i: nat, held: bool)
    requires Inv(plan, s) && Enabled(plan, s, TimerDue(i, held)) && !Submitted(s, i)
    ensures var t := Apply(plan, s, TimerDue(i, held)); Submitted(t, i) <==> t.pcs[i] == Requested
  {
    var t := Apply(plan, s, TimerDue(i, held));
    if t.pcs[i] == Requested {
      assert t.submissions[|s.submissions|].cue == i;
    }
  }

  lemma TimerCauseKept(plan: Plan, s: State, i: nat, held: bool)
    requires Inv(plan, s) && CausesOk(plan, s) && Enabled(plan, s, TimerDue(i, held))
    ensures CauseOk(plan, Apply(plan, s, TimerDue(i, held)), i)
  {
    assert PcOk(plan, s, i) && CauseOk(plan, s, i);
    NewSubmission(plan, s, i, held);
  }

  lemma EndedCauseKept(plan: Plan, s: State, step: Step, i: nat)
    requires DistinctIds(plan.cues) && Inv(plan, s) && CausesOk(plan, s) && Enabled(plan, s, step)
    requires Mover(step) == Some(i) && (step.ReplyArrives? || step.FutureReady?)
    ensures CauseOk(plan, Apply(plan, s, step), i)
  {
    var t := Apply(plan, s, step);
    assert PcOk(plan, s, i) && CauseOk(plan, s, i);
    SubmissionsGrow(plan, s, step, i);
    StepGrows(plan, s, step);
    if TurnedDown(s, i) {
      TurnedDownStays(plan, s, t, i);
    }
    NewOutcomeOk(plan, s, step, i);
  }

  lemma OwnCauseKept(plan: Plan, s: State, step: Step, i: nat)
    requires DistinctIds(plan.cues) && Inv(plan, s) && CausesOk(plan, s) && Enabled(plan, s, step)
    requires Mover(step) == Some(i)
    ensures Inv(plan, Apply(plan, s, step)) && CauseOk(plan, Apply(plan, s, step), i)
  {
    InvKept(plan, s, step);
    if step.TimerDue? {
      TimerCauseKept(plan, s, i, step.held);
    } else if step.ReplyArrives? || step.FutureReady? {
      EndedCauseKept(plan, s, step, i);
    } else {
      assert PcOk(plan, s, i) && CauseOk(plan, s, i);
      SubmissionsGrow(plan, s, step, i);
      if step.ServerRejects? {
        assert Owns(Apply(plan, s, step), i, s.pcs[i].command);
        assert EndedWith(Apply(plan, s, step), s.pcs[i].command, Rejected);
      }
    }
  }

  lemma CausesKept(plan: Plan, s: State, step: Step)
    requires DistinctIds(plan.cues) && Inv(plan, s) && CausesOk(plan, s) && Enabled(plan, s, step)
    ensures Inv(plan, Apply(plan, s, step)) && CausesOk(plan, Apply(plan, s, step))
  {
    InvKept(plan, s, step);
    forall j | 0 <= j < |plan.cues|
      ensures CauseOk(plan, Apply(plan, s, step), j)
    {
      if Mover(step) == Some(j) {
        OwnCauseKept(plan, s, step, j);
      } else {
        OtherCauseKept(plan, s, step, j);
      }
    }
  }

  lemma {:induction false} RunCauses(plan: Plan, s: State, steps: seq<Step>)
    requires DistinctIds(plan.cues) && Inv(plan, s) && CausesOk(plan, s) && Legal(plan, s, steps)
    ensures Inv(plan, After(plan, s, steps)) && CausesOk(plan, After(plan, s, steps))
    decreases |steps|
  {
    if steps != [] {
      CausesKept(plan, s, steps[0]);
      RunCauses(plan, Apply(plan, s, steps[0]), steps[1..]);
    }
  }

  lemma ReachableCauses(plan: Plan, s: State)
    requires DistinctIds(plan.cues) && Reachable(plan, s)
    ensures Inv(plan, s) && CausesOk(plan, s)
  {
    var first, steps :| Initial(plan, first) && Legal(plan, first, steps) && After(plan, first, steps) == s;
    InitialInv(plan, first);
    RunCauses(plan, first, steps);
  }

  /** A cue with an outcome was submitted exactly when the outcome is not SKIPPED and its task did not abort late. */
  lemma OutcomeTellsSubmission(plan: Plan, s: State, i: nat)
    requires DistinctIds(plan.cues) && Reachable(plan, s) && i < |plan.cues| && HasOutcome(plan, s, i)
    ensures i < |s.pcs|
    ensures Submitted(s, i) <==> s.exec.outcomes[plan.cues[i].cueId].outcome != Skipped && !s.pcs[i].Aborted?
    ensures s.pcs[i].Aborted? ==> s.exec.outcomes[plan.cues[i].cueId].outcome == Failed
  {
    ReachableCauses(plan, s);
    assert PcOk(plan, s, i) && CauseOk(plan, s, i);
  }

  /** A submitted cue that the Runtime accepted nothing for ends FAILED; one with a command ends as the command
      did, but for a resync, which makes it UNKNOWN, and for a command turned down, which makes it FAILED. */
  lemma OutcomeOfTheSubmitted(plan: Plan, s: State, i: nat)
    requires DistinctIds(plan.cues) && Reachable(plan, s) && i < |plan.cues| && HasOutcome(plan, s, i)
    requires Submitted(s, i)
    ensures var o := s.exec.outcomes[plan.cues[i].cueId].outcome;
      && (NoCommand(s, i) ==> o == Failed)
      && (forall c :: Owns(s, i, c) ==>
            EndedWith(s, c, o) || (o == Unknown && s.resynced) || (o == Failed && EndedWith(s, c, Rejected)))
  {
    ReachableCauses(plan, s);
    assert PcOk(plan, s, i) && CauseOk(plan, s, i);
  }

  /** What the submit reply records: FAILED if the Runtime raised, else the outcome of a command that has ended,
      and nothing yet for one that has not. */
  lemma ReplyRecords(plan: Plan, s: State, i: nat)
    requires DistinctIds(plan.cues) && Reachable(plan, s) && Shape(plan, s) && Enabled(plan, s, ReplyArrives(i))
    ensures var t := Apply(plan, s, ReplyArrives(i));
      && i < |plan.cues|
      && (HasOutcome(plan, t, i) <==> s.pcs[i].reply == Refused || s.pcs[i].reply.terminal.Some?)
      && (HasOutcome(plan, t, i) ==>
            var o := t.exec.outcomes[plan.cues[i].cueId];
            o.outcome == (if s.pcs[i].reply == Refused then Failed else s.pcs[i].reply.terminal.value)
            && (o.detail == CommandError <==> s.pcs[i].reply == Refused))
  {
    ReachableInv(plan, s);
    assert PcOk(plan, s, i);
  }

  /** A cue is skipped, or aborts, for one of the three reasons there are: a dependency that did not succeed, a
      lateness beyond its window, or a hold; and its record says which. */
  lemma SkippedForAReason(plan: Plan, s: State, step: Step, i: nat)
    requires DistinctIds(plan.cues) && Reachable(plan, s) && Shape(plan, s) && Enabled(plan, s, step)
    requires i < |plan.cues| && !HasOutcome(plan, s, i) && HasOutcome(plan, Apply(plan, s, step), i)
    requires !Submitted(s, i)
    ensures
      var o := Apply(plan, s, step).exec.outcomes[plan.cues[i].cueId];
      var lateness := s.now - (s.start + plan.cues[i].atMs as real);
      var allowed := plan.cues[i].latePolicy.maxLatenessMs as real;
      match o.detail
      case DependencyFailed(d) =>
        && d in plan.cues[i].dependsOn && d in s.exec.outcomes && s.exec.outcomes[d].outcome != Succeeded
        && o.outcome == Skipped
      case LateBy(ms) =>
        ms == lateness > allowed && plan.cues[i].latePolicy.mode == Skip && o.outcome == Skipped
      case LateAbort(ms) =>
        ms == lateness > allowed && plan.cues[i].latePolicy.mode == Abort && o.outcome == Failed
      case Held => 0.0 <= lateness <= allowed && step == TimerDue(i, true) && o.outcome == Skipped
      case _ => false
  {
    ReachableCauses(plan, s);
    assert PcOk(plan, s, i) && CauseOk(plan, s, i);
    if Mover(step) != Some(i) {
      OnlyMoverChanges(plan, s, step, i);
    }
  }

  /** On the way to its time a cue looks at the clock at least every 20 ms, and never sleeps past its time. */
  lemma NapsAreShort(plan: Plan, s: State, i: nat, held: bool, w: real)
    requires DistinctIds(plan.cues) && Reachable(plan, s) && Shape(plan, s) && Enabled(plan, s, TimerDue(i, held))
    requires Apply(plan, s, TimerDue(i, held)).pcs[i] == Sleeping(w)
    ensures var due := s.start + plan.cues[i].atMs as real;
      s.now < due && w == if due - s.now < 20.0 then due else s.now + 20.0
  {
  }
}
