/** What the end of a listener leaves possible: which waiting cues can still get an outcome. */
module TimelineWaits {
  import opened Common
  import opened TimelineContract
  import opened TimelineExecution
  import opened TimelineRuns

  /** Cue `i` waits on the unresolved future of command `c`. */
  ghost predicate Waits(s: State, i: nat, c: CommandId) {
    i < |s.pcs| && s.pcs[i] == AwaitFuture(c) && c in s.exec.pending && s.exec.pending[c].Unresolved?
  }

  ghost predicate NoResync(steps: seq<Step>) {
    forall k :: 0 <= k < |steps| ==> !steps[k].ResyncArrives?
  }

  /** Some continuation records an outcome for cue `i`; `resync` says whether a resync may take part. */
  ghost predicate CanEnd(plan: Plan, s: State, i: nat, resync: bool)
    requires i < |plan.cues|
  {
    exists steps :: Legal(plan, s, steps) && (resync || NoResync(steps)) && HasOutcome(plan, After(plan, s, steps), i)
  }

  lemma StillUnresolved(plan: Plan, s: State, step: Step, i: nat, c: CommandId)
    requires DistinctIds(plan.cues) && Inv(plan, s) && Enabled(plan, s, step) && !step.ResyncArrives?
    requires Waits(s, i, c) && !Listening(s, c)
    ensures Waits(Apply(plan, s, step), i, c) && !Listening(Apply(plan, s, step), c)
  {
    assert PcOk(plan, s, i);
    StepWorldGrows(plan, s, step);
    if Mover(step).Some? {
      assert PcOk(plan, s, Mover(step).value);
    } else if step.EventArrives? {
      assert EventOk(s, step.runtime, s.channels[step.runtime].read);
    }
  }

  /** Once its own Runtime's listener has ended, a waiting cue waits through every continuation without a resync,
      whatever the other listeners do. */
  lemma {:induction false} WaitsForever(plan: Plan, s: State, steps: seq<Step>, i: nat, c: CommandId)
    requires DistinctIds(plan.cues) && Inv(plan, s) && Legal(plan, s, steps) && NoResync(steps)
    requires Waits(s, i, c) && !Listening(s, c)
    ensures Inv(plan, After(plan, s, steps)) && Waits(After(plan, s, steps), i, c)
    ensures !HasOutcome(plan, After(plan, s, steps), i)
    decreases |steps|
  {
    assert PcOk(plan, s, i);
    if steps != [] {
      InvKept(plan, s, steps[0]);
      assert !steps[0].ResyncArrives?;
      StillUnresolved(plan, s, steps[0], i, c);
      WaitsForever(plan, Apply(plan, s, steps[0]), steps[1..], i, c);
    }
  }

  ghost predicate Deaf(s: State) {
    forall r :: 0 <= r < |s.channels| ==> !s.channels[r].live
  }

  lemma {:induction false} DeafMeansNoResync(plan: Plan, s: State, steps: seq<Step>)
    requires DistinctIds(plan.cues) && Inv(plan, s) && Legal(plan, s, steps) && Deaf(s)
    ensures NoResync(steps)
    decreases |steps|
  {
    if steps != [] {
      InvKept(plan, s, steps[0]);
      StepWorldGrows(plan, s, steps[0]);
      DeafMeansNoResync(plan, Apply(plan, s, steps[0]), steps[1..]);
      assert steps == [steps[0]] + steps[1..];
    }
  }

  /** A resolved future lets its cue record the outcome. */
  lemma ResolvedEnds(plan: Plan, s: State, i: nat, c: CommandId) returns (steps: seq<Step>)
    requires DistinctIds(plan.cues) && Inv(plan, s) && i < |s.pcs| && s.pcs[i] == AwaitFuture(c)
    requires c in s.exec.pending && s.exec.pending[c].Resolved?
    ensures Legal(plan, s, steps) && NoResync(steps) && HasOutcome(plan, After(plan, s, steps), i)
  {
    InvKept(plan, s, FutureReady(i));
    var t := Apply(plan, s, FutureReady(i));
    assert Legal(plan, t, []) && After(plan, t, []) == t;
    Prepend(plan, s, FutureReady(i), []);
    steps := [FutureReady(i)] + [];
  }

  /** A live listener works off its channel until it meets the completion. */
  lemma {:induction false} DeliveredEnds(plan: Plan, s: State, i: nat, c: CommandId) returns (steps: seq<Step>)
    requires DistinctIds(plan.cues) && Inv(plan, s) && i < |s.pcs| && s.pcs[i] == AwaitFuture(c)
    requires Listening(s, c) && s.commands[c].ending.Some?
    ensures Legal(plan, s, steps) && NoResync(steps) && HasOutcome(plan, After(plan, s, steps), i)
    decreases |s.channels[s.commands[c].runtime].published| - s.channels[s.commands[c].runtime].read
  {
    assert PcOk(plan, s, i);
    if s.exec.pending[c].Resolved? {
      steps := ResolvedEnds(plan, s, i, c);
    } else {
      var r := s.commands[c].runtime;
      assert Announced(s, c);
      var t := Apply(plan, s, EventArrives(r));
      InvKept(plan, s, EventArrives(r));
      var rest := DeliveredEnds(plan, t, i, c);
      Prepend(plan, s, EventArrives(r), rest);
      steps := [EventArrives(r)] + rest;
    }
  }

  lemma ListenedToEnds(plan: Plan, s: State, i: nat, c: CommandId) returns (steps: seq<Step>)
    requires DistinctIds(plan.cues) && Inv(plan, s) && i < |s.pcs| && s.pcs[i] == AwaitFuture(c) && Listening(s, c)
    ensures Legal(plan, s, steps) && NoResync(steps) && HasOutcome(plan, After(plan, s, steps), i)
  {
    if s.commands[c].ending.Some? {
      steps := DeliveredEnds(plan, s, i, c);
    } else {
      var t := Apply(plan, s, CommandEnds(c, Succeeded));
      InvKept(plan, s, CommandEnds(c, Succeeded));
      var rest := DeliveredEnds(plan, t, i, c);
      Prepend(plan, s, CommandEnds(c, Succeeded), rest);
      steps := [CommandEnds(c, Succeeded)] + rest;
    }
  }

  /** A waiting cue can still get an outcome without a resync exactly when its own Runtime's listener is live. */
  lemma EndsIffListenedTo(plan: Plan, s: State, i: nat, c: CommandId)
    requires DistinctIds(plan.cues) && Reachable(plan, s) && i < |plan.cues| && Waits(s, i, c)
    ensures CanEnd(plan, s, i, false) <==> Listening(s, c)
  {
    ReachableInv(plan, s);
    if Listening(s, c) {
      var steps := ListenedToEnds(plan, s, i, c);
    } else {
      forall steps | Legal(plan, s, steps) && NoResync(steps)
        ensures !HasOutcome(plan, After(plan, s, steps), i)
      {
        WaitsForever(plan, s, steps, i, c);
      }
    }
  }

  lemma ResyncEnds(plan: Plan, s: State, i: nat, c: CommandId, r: nat) returns (steps: seq<Step>)
    requires DistinctIds(plan.cues) && Inv(plan, s) && i < |plan.cues| && Waits(s, i, c)
    requires r < |s.channels| && s.channels[r].live
    ensures Legal(plan, s, steps) && HasOutcome(plan, After(plan, s, steps), i)
  {
    var t := Apply(plan, s, ResyncArrives(r));
    InvKept(plan, s, ResyncArrives(r));
    var rest := ResolvedEnds(plan, t, i, c);
    Prepend(plan, s, ResyncArrives(r), rest);
    steps := [ResyncArrives(r)] + rest;
  }

  /** It can still get an outcome at all exactly when some listener is live, were it that of another Runtime. */
  lemma EndsIffSomeListener(plan: Plan, s: State, i: nat, c: CommandId)
    requires DistinctIds(plan.cues) && Reachable(plan, s) && i < |plan.cues| && Waits(s, i, c)
    ensures CanEnd(plan, s, i, true) <==> !Deaf(s)
  {
    ReachableInv(plan, s);
    if Deaf(s) {
      assert PcOk(plan, s, i);
      forall steps | Legal(plan, s, steps)
        ensures !HasOutcome(plan, After(plan, s, steps), i)
      {
        DeafMeansNoResync(plan, s, steps);
        WaitsForever(plan, s, steps, i, c);
      }
    } else {
      var r :| 0 <= r < |s.channels| && s.channels[r].live;
      var steps := ResyncEnds(plan, s, i, c, r);
    }
  }

  /** After a raise, `run` cancels every listener. From then on an outcome is a command's own only by the submit
      reply, or by the re-read: no other step resolves a future. */
  lemma OrphansLearnByReRead(plan: Plan, s: State, step: Step, c: CommandId)
    requires DistinctIds(plan.cues) && Inv(plan, s) && Enabled(plan, s, step) && Deaf(s)
    requires c in s.exec.pending && s.exec.pending[c].Unresolved?
    requires c in Apply(plan, s, step).exec.pending && Apply(plan, s, step).exec.pending[c].Resolved?
    ensures step.RecordArrives? && s.pcs[step.cue].ReadReplied? && s.pcs[step.cue].command == c
    ensures s.pcs[step.cue].terminal.Some? && EndedWith(s, c, s.pcs[step.cue].terminal.value)
    ensures Apply(plan, s, step).exec.pending[c] == Resolved(s.pcs[step.cue].terminal.value)
  {
    if Mover(step).Some? {
      assert PcOk(plan, s, Mover(step).value);
    }
  }

  /** A cue's outcome is recorded in such a state only without a command, from the reply, or from such a future. */
  lemma OrphansEndByReply(plan: Plan, s: State, step: Step, i: nat)
    requires DistinctIds(plan.cues) && Inv(plan, s) && Enabled(plan, s, step) && Deaf(s) && i < |plan.cues|
    requires !HasOutcome(plan, s, i) && HasOutcome(plan, Apply(plan, s, step), i)
    requires Apply(plan, s, step).exec.outcomes[plan.cues[i].cueId].detail == NoDetail
    ensures
      || (step == ReplyArrives(i) && s.pcs[i].reply.Accepted? && s.pcs[i].reply.terminal.Some?)
      || (step == FutureReady(i) && s.exec.pending[s.pcs[i].command].Resolved?)
  {
    if Mover(step) != Some(i) {
      OnlyMoverChanges(plan, s, step, i);
    }
  }
}
