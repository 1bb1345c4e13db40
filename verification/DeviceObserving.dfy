/** How commands come to their outcomes: what the adapter's answer, the clock and the disturbances of a
    target decide. */
module DeviceObserving {
  import opened Common
  import opened CommandContract
  import opened TargetRunning
  import opened ControlSessions
  import opened CommandLedgers
  import opened DeviceRuntimes
  import opened DeviceRuns
  import opened DeviceGuarantees

  function OutcomeAfter(s: Runtime, step: Step, c: nat): Option<Outcome>
    requires Formed(s) && Enabled(s, step)
  {
    var t := Apply(s, step);
    if c < |t.ledger.records| then t.ledger.records[c].outcome else None
  }

  predicate FailsWith(s: Runtime, c: nat, message: string) {
    && c < |s.ledger.records|
    && s.ledger.records[c].outcome == Some(Failed)
    && s.ledger.records[c].error == Some(message)
  }

  /** The command is about to be observed for the first time. */
  predicate FirstRound(s: Runtime, c: nat) {
    Unfinished(s, c) && s.tasks[c].Polling? && s.tasks[c].deadline.None?
  }

  /** What `execute` decides: nothing but its own end and the completion that was asked for. */
  lemma ExecuteDecides(s: Runtime, c: nat, how: Ending)
    requires Reachable(s) && Formed(s) && Enabled(s, ExecuteEnds(c, how))
    ensures var r := s.ledger.records[c];
      OutcomeAfter(s, ExecuteEnds(c, how), c) ==
        match how
        case Raised(_) => Some(Failed)
        case WasCancelled => Some(Cancelled)
        case Returned => if r.what.requirement == UntilObserved then None else Some(Succeeded)
    ensures how == Returned && s.ledger.records[c].what.requirement == UntilObserved ==>
      FirstRound(Apply(s, ExecuteEnds(c, how)), c)
    ensures how.Raised? ==> FailsWith(Apply(s, ExecuteEnds(c, how)), c, how.message)
  {
    ReachableInv(s);
    assert CommandOk(c, s.ledger.records[c], s.tasks[c], Chain(s.events, c));
  }

  /** The first round of an undisturbed command is decided by the adapter alone; that of a disturbed one cancels it. */
  lemma FirstRoundDecides(s: Runtime, c: nat, probe: Probe)
    requires Reachable(s) && Formed(s) && FirstRound(s, c)
    ensures OutcomeAfter(s, Polled(c, probe), c) ==
      if !Current(s, c) then Some(Cancelled)
      else
        match probe
        case Complete => Some(Succeeded)
        case NotYet => None
        case ProbeRaised(_) => Some(Failed)
    ensures Current(s, c) && probe.ProbeRaised? ==> FailsWith(Apply(s, Polled(c, probe)), c, probe.message)
  {
    ReachableInv(s);
    assert CommandOk(c, s.ledger.records[c], s.tasks[c], Chain(s.events, c));
  }

  lemma AfterFirstRound(s: Runtime, c: nat)
    requires Reachable(s) && Formed(s) && FirstRound(s, c) && Current(s, c)
    ensures var u := Apply(s, Polled(c, NotYet));
      && Inv(u) && Unfinished(u, c) && TargetOf(u, c) == TargetOf(s, c) && Current(u, c)
      && u.tasks[c] == Polling(u.ledger.records[c].generation, Some(s.now + 10.0))
  {
    ReachableInv(s);
    assert CommandOk(c, s.ledger.records[c], s.tasks[c], Chain(s.events, c));
    StepKeeps(s, Polled(c, NotYet));
  }

  /** The state of a command still observed after a first round at which it was not complete. */
  lemma StillObserved(s: Runtime, steps: seq<Step>, c: nat)
    requires Reachable(s) && Formed(s) && FirstRound(s, c) && Current(s, c)
    requires Legal(Apply(s, Polled(c, NotYet)), steps)
    requires Unfinished(After(Apply(s, Polled(c, NotYet)), steps), c)
    ensures var u, v := Apply(s, Polled(c, NotYet)), After(Apply(s, Polled(c, NotYet)), steps);
      && Inv(v) && c < |v.ledger.records| && TargetOf(v, c) == TargetOf(s, c)
      && v.tasks[c] == Polling(v.ledger.records[c].generation, Some(s.now + 10.0))
      && v.ledger.records[c].outcome == None
      && (Current(v, c) <==> Undisturbed(u, steps, TargetOf(s, c)))
  {
    hide Apply;
    var u := Apply(s, Polled(c, NotYet));
    AfterFirstRound(s, c);
    RunKeeps(u, steps);
    DeadlineStays(u, steps, c);
    TerminalIsFinal(u, steps, c);
    GenerationTells(u, steps, TargetOf(s, c));
    var v := After(u, steps);
    assert CommandOk(c, v.ledger.records[c], v.tasks[c], Chain(v.events, c));
  }

  /** What any later round decides, whatever happened since the first: from 10 s after it on the command expires;
      before that it is cancelled if its target was disturbed, and otherwise the adapter decides. */
  lemma RoundDecides(s: Runtime, steps: seq<Step>, c: nat, probe: Probe)
    requires Reachable(s) && Formed(s) && FirstRound(s, c) && Current(s, c)
    requires Legal(Apply(s, Polled(c, NotYet)), steps)
    requires Unfinished(After(Apply(s, Polled(c, NotYet)), steps), c)
    ensures var u, v := Apply(s, Polled(c, NotYet)), After(Apply(s, Polled(c, NotYet)), steps);
      && Formed(v) && Enabled(v, Polled(c, probe))
      && (OutcomeAfter(v, Polled(c, probe), c) == Some(Failed) ==>
            probe.ProbeRaised? && FailsWith(Apply(v, Polled(c, probe)), c, probe.message))
      && OutcomeAfter(v, Polled(c, probe), c) ==
           if v.now >= s.now + 10.0 then Some(Expired)
           else if !Undisturbed(u, steps, TargetOf(s, c)) then Some(Cancelled)
           else
             match probe
             case Complete => Some(Succeeded)
             case NotYet => None
             case ProbeRaised(_) => Some(Failed)
  {
    StillObserved(s, steps, c);
  }

  /** The converse of `ObservedMeansUndisturbed`, and more: a command that is complete succeeds in a round exactly
      when its target was not disturbed and fewer than 10 s have passed since the first. */
  lemma CompleteSucceedsExactlyWhen(s: Runtime, steps: seq<Step>, c: nat)
    requires Reachable(s) && Formed(s) && FirstRound(s, c) && Current(s, c)
    requires Legal(Apply(s, Polled(c, NotYet)), steps)
    requires Unfinished(After(Apply(s, Polled(c, NotYet)), steps), c)
    ensures var u, v := Apply(s, Polled(c, NotYet)), After(Apply(s, Polled(c, NotYet)), steps);
      Formed(v) && Enabled(v, Polled(c, Complete)) &&
      (SucceedsAt(v, Polled(c, Complete), c) <==> v.now < s.now + 10.0 && Undisturbed(u, steps, TargetOf(s, c)))
  {
    RoundDecides(s, steps, c, Complete);
    StillObserved(s, steps, c);
  }

  /** Nothing but its own adapter call and its own observing task ends a command. */
  lemma OwnStepsDecide(s: Runtime, step: Step, c: nat)
    requires Inv(s) && Enabled(s, step) && Unfinished(s, c)
    ensures OutcomeAfter(s, step, c) != None ==>
      (step.ExecuteEnds? || step.Polled? || step.ObserverCancelled?) && step.command == c
  {
    assert CommandOk(c, s.ledger.records[c], s.tasks[c], Chain(s.events, c));
    if step.Submitted? {
      SubmittedLeavesOthers(s, step.req, step.priority, c);
    }
  }

  /** Only a round of its own makes a command expire. */
  lemma OnlyRoundsExpire(s: Runtime, step: Step, c: nat)
    requires Inv(s) && Enabled(s, step) && Unfinished(s, c) && OutcomeAfter(s, step, c) == Some(Expired)
    ensures step.Polled? && step.command == c
  {
    OwnStepsDecide(s, step, c);
    assert CommandOk(c, s.ledger.records[c], s.tasks[c], Chain(s.events, c));
  }

  /** EXPIRED is recorded 10 s after the first round at the earliest. */
  lemma ExpiredMeansTenSeconds(s: Runtime, steps: seq<Step>, last: Step, c: nat)
    requires Reachable(s) && Formed(s) && FirstRound(s, c) && Current(s, c)
    requires Legal(Apply(s, Polled(c, NotYet)), steps)
    requires var v := After(Apply(s, Polled(c, NotYet)), steps);
      Unfinished(v, c) && Formed(v) && Enabled(v, last) && OutcomeAfter(v, last, c) == Some(Expired)
    ensures After(Apply(s, Polled(c, NotYet)), steps).now >= s.now + 10.0
  {
    StillObserved(s, steps, c);
    var v := After(Apply(s, Polled(c, NotYet)), steps);
    OnlyRoundsExpire(v, last, c);
    RoundDecides(s, steps, c, last.probe);
  }

  /** A command is cancelled because its target was disturbed, or because one of its own two awaits was. */
  lemma CancelledForAReason(s: Runtime, step: Step, c: nat)
    requires Reachable(s) && Formed(s) && Enabled(s, step) && Unfinished(s, c)
    requires OutcomeAfter(s, step, c) == Some(Cancelled)
    ensures
      || step == ExecuteEnds(c, WasCancelled)
      || step == ObserverCancelled(c)
      || (step.Polled? && step.command == c && !Current(s, c))
  {
    ReachableInv(s);
    OwnStepsDecide(s, step, c);
    assert CommandOk(c, s.ledger.records[c], s.tasks[c], Chain(s.events, c));
  }

  // ---- refusals ----

  /** The answer to a submission: the first of these conditions that fails is the error it gets. */
  lemma SubmissionAnswers(s: Runtime, req: Request, priority: Option<Priority>)
    requires Reachable(s) && Formed(s)
    ensures SubmitCommandSpec(s, req, priority).1 ==
      if req.what.target !in s.runners then Err(UnknownTarget)
      else if req.session == None then Err(ControlSessionRequired)
      else if s.sessions.active.None? || req.session != Some(s.sessions.active.value.id) then Err(ControlSessionInvalid)
      else if s.now >= s.sessions.active.value.expiresAt then Err(ControlSessionExpired)
      else if req.id in s.ledger.requests && s.ledger.requests[req.id].fingerprint != req.what then
        Err(RequestIdConflict)
      else if req.id in s.ledger.requests then Ok(s.ledger.requests[req.id].command)
      else if priority == None then Err(UnknownAction)
      else if priority == Some(Normal) && BusyTarget(s, req.what.target) then Err(Busy)
      else Ok(|s.tasks|)
  {
    hide LaunchSpec;
    ReachableInv(s);
    if req.what.target in s.runners && req.id !in s.ledger.requests {
      LaunchAnswers(s, req, priority);
    }
  }

  lemma LaunchAnswers(s: Runtime, req: Request, priority: Option<Priority>)
    requires Inv(s) && req.what.target in s.runners && req.id !in s.ledger.requests
    ensures
      var busy := BusyTarget(s, req.what.target);
      LaunchSpec(Filed(s, req), |s.tasks|, busy, priority).1 ==
        if priority == None then Err(UnknownAction)
        else if priority == Some(Normal) && busy then Err(Busy)
        else Ok(|s.tasks|)
  {
    assert priority.Some? ==> priority.value.Normal? || priority.value.Control?;
  }

  /** An action the target does not know, or a busy target, is a record of its own: REJECTED, with the error. */
  lemma LaunchRefuses(s: Runtime, req: Request, priority: Option<Priority>)
    requires Inv(s) && req.what.target in s.runners && req.id !in s.ledger.requests
    ensures
      var busy := BusyTarget(s, req.what.target);
      var (t, r) := LaunchSpec(Filed(s, req), |s.tasks|, busy, priority);
      && (priority == None ==> r == Err(UnknownAction))
      && (priority == Some(Normal) && busy ==> r == Err(Busy))
      && (r.Err? ==>
            && t.ledger.records == s.ledger.records + [t.ledger.records[|s.tasks|]]
            && t.runners == s.runners && t.executed == s.executed
            && t.ledger.records[|s.tasks|].outcome == Some(Rejected)
            && t.ledger.records[|s.tasks|].error == Some(if priority == None then "UNKNOWN_ACTION" else "BUSY")
            && t.events == s.events + [Completed(|s.tasks|, Some(Rejected), None)])
  {
    FiledOthers(s, req);
  }
}
