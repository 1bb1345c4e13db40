/** What a device runtime guarantees over all interleavings, and what it does not. */
module DeviceGuarantees {
  import opened Common
  import opened CommandContract
  import opened TargetRunning
  import opened ControlSessions
  import opened CommandLedgers
  import opened DeviceRuntimes
  import opened DeviceRuns
  import Cfg = ConfigStaging

  predicate Unfinished(s: Runtime, c: nat) {
    c < |s.tasks| && s.tasks[c] != NoTask
  }

  /** The command carries its target's current generation. */
  predicate Current(s: Runtime, c: nat)
    requires Formed(s) && c < |s.tasks|
  {
    s.ledger.records[c].generation == RunnerOf(s, c).generation
  }

  // ---- one command at a time ----

  /** At most one unfinished command per target carries the current generation, and it makes the target busy. */
  lemma OneCurrentCommand(s: Runtime, c: nat, d: nat)
    requires Reachable(s) && Formed(s)
    requires Unfinished(s, c) && Unfinished(s, d) && TargetOf(s, c) == TargetOf(s, d) && Current(s, c) && Current(s, d)
    ensures c == d && RunnerOf(s, c).active == Some(c) && BusyTarget(s, TargetOf(s, c))
  {
    ReachableInv(s);
    assert CurrentIsActive(c, s.ledger.records[c], s.tasks[c], RunnerOf(s, c));
    assert CurrentIsActive(d, s.ledger.records[d], s.tasks[d], RunnerOf(s, d));
    IdleHasNoActive(s, TargetOf(s, c));
  }

  /** A submission starts a command exactly when its target, session, request id and action are in order
      and the target is idle or the action may preempt; the new command is then the current one. */
  lemma AcceptedExactlyWhen(s: Runtime, req: Request, priority: Option<Priority>)
    requires Reachable(s) && Formed(s)
    ensures var (t, r) := SubmitCommandSpec(s, req, priority);
      Formed(t) && (r == Ok(|s.tasks|) <==>
        && req.what.target in s.runners && ValidateSpec(s.sessions, req.session, s.now).1.None?
        && req.id !in s.ledger.requests
        && priority.Some? && (BusyTarget(s, req.what.target) ==> priority == Some(Control)))
    ensures var (t, r) := SubmitCommandSpec(s, req, priority);
      r == Ok(|s.tasks|) ==>
        && Unfinished(t, |s.tasks|) && Current(t, |s.tasks|) && t.executed == s.executed + [|s.tasks|]
        && t.ledger.records[|s.tasks|].what == req.what
  {
    ReachableInv(s);
    SubmitKeeps(s, req, priority);
    if req.id in s.ledger.requests {
      assert EntryFits(s, req.id);
    } else if req.what.target in s.runners {
      LaunchedExactlyWhen(s, req, priority);
    }
  }

  lemma LaunchedExactlyWhen(s: Runtime, req: Request, priority: Option<Priority>)
    requires Inv(s) && req.what.target in s.runners && req.id !in s.ledger.requests
    ensures
      var busy := BusyTarget(s, req.what.target);
      var (t, r) := LaunchSpec(Filed(s, req), |s.tasks|, busy, priority);
      && (r == Ok(|s.tasks|) <==> priority.Some? && (busy ==> priority == Some(Control)))
      && (r.Ok? ==>
            && Formed(t) && Unfinished(t, |s.tasks|) && Current(t, |s.tasks|)
            && t.executed == s.executed + [|s.tasks|] && t.ledger.records[|s.tasks|].what == req.what)
  {
    LaunchKeeps(s, req, priority);
  }

  // ---- what a step may do to a command ----

  /** Nothing but its own lifecycle changes in a command, and nothing at all once it has ended. */
  ghost predicate Lasts(s: Runtime, t: Runtime, c: nat)
    requires Formed(s) && Formed(t) && c < |s.tasks|
  {
    && |s.tasks| <= |t.tasks|
    && t.ledger.records[c].requestId == s.ledger.records[c].requestId
    && t.ledger.records[c].what == s.ledger.records[c].what
    && t.ledger.records[c].generation == s.ledger.records[c].generation
    && (s.tasks[c] == NoTask ==>
          t.tasks[c] == NoTask && t.ledger.records[c] == s.ledger.records[c]
              && Chain(t.events, c) == Chain(s.events, c))
  }

  lemma OthersLast(s: Runtime, d: nat, x: Slice, task: Task, c: nat)
    requires Formed(s) && d < |s.tasks| && c < |s.tasks| && SliceMoves(SliceOf(s, d), x, d, task)
    requires c == d ==> s.tasks[d] != NoTask && x.record.generation == s.ledger.records[d].generation
    requires Formed(Put(s, d, x, task))
    ensures Lasts(s, Put(s, d, x, task), c)
  {
  }

  lemma NewcomerLasts(s: Runtime, req: Request, x: Slice, task: Task, executed: seq<nat>, c: nat)
    requires Inv(s) && req.what.target in s.runners && req.id !in s.ledger.requests && c < |s.tasks|
    requires Others(Filed(s, req), |s.tasks|) && SliceMoves(SliceOf(Filed(s, req), |s.tasks|), x, |s.tasks|, task)
    ensures var t := Put(Filed(s, req), |s.tasks|, x, task).(executed := executed); Formed(t) && Lasts(s, t, c)
  {
    PutFormed(Filed(s, req), |s.tasks|, x, task);
    var t := Put(Filed(s, req), |s.tasks|, x, task);
    assert forall d :: 0 <= d < |t.tasks| ==> TargetOf(t.(executed := executed), d) == TargetOf(t, d);
  }

  lemma LaunchLasts(s: Runtime, req: Request, priority: Option<Priority>, c: nat)
    requires Inv(s) && req.what.target in s.runners && req.id !in s.ledger.requests && c < |s.tasks|
    requires Formed(LaunchSpec(Filed(s, req), |s.tasks|, BusyTarget(s, req.what.target), priority).0)
    ensures Lasts(s, LaunchSpec(Filed(s, req), |s.tasks|, BusyTarget(s, req.what.target), priority).0, c)
  {
    var n, t, busy := |s.tasks|, Filed(s, req), BusyTarget(s, req.what.target);
    FiledOthers(s, req);
    IdleHasNoActive(s, req.what.target);
    var x := SliceOf(t, n);
    SubmitMoves(x, n, busy, priority);
    var (y, r) := SubmitSpec(x, n, busy, priority);
    match r
    case Ok(task) => NewcomerLasts(s, req, y, task, t.executed + [n], c);
    case Err(e) =>
      RejectedMoves(x, n, e);
      var rejected := x.record.(status := Terminal, outcome := Some(Rejected), error := Some(ErrorText(e)));
      NewcomerLasts(s, req, Touched(x.(record := rejected), n), NoTask, t.executed, c);
  }

  lemma {:induction false} SubmittedLasts(s: Runtime, req: Request, priority: Option<Priority>, c: nat)
    requires Inv(s) && c < |s.tasks|
    ensures Inv(SubmitCommandSpec(s, req, priority).0) && Lasts(s, SubmitCommandSpec(s, req, priority).0, c)
  {
    SubmitKeeps(s, req, priority);
    if req.what.target in s.runners && req.id !in s.ledger.requests
        && ValidateSpec(s.sessions, req.session, s.now).1.None? {
      LaunchKeeps(s, req, priority);
      LaunchLasts(s, req, priority, c);
    } else {
      assert SubmitCommandSpec(s, req, priority).0 == s.(sessions := SubmitCommandSpec(s, req, priority).0.sessions);
    }
  }

  lemma ExecuteEndLasts(s: Runtime, d: nat, how: Ending, c: nat)
    requires Inv(s) && Enabled(s, ExecuteEnds(d, how)) && c < |s.tasks| && Formed(Apply(s, ExecuteEnds(d, how)))
    ensures Lasts(s, Apply(s, ExecuteEnds(d, how)), c)
  {
    var x := SliceOf(s, d);
    assert CommandOk(d, x.record, s.tasks[d], Chain(x.events, d));
    assert CurrentIsActive(d, x.record, s.tasks[d], x.runner);
    ExecuteEndMoves(x, d, s.tasks[d].generation, how);
    var (y, task) := ExecuteEndSpec(x, d, s.tasks[d].generation, how);
    OthersLast(s, d, y, task, c);
  }

  lemma PollLasts(s: Runtime, d: nat, probe: Probe, c: nat)
    requires Inv(s) && Enabled(s, Polled(d, probe)) && c < |s.tasks| && Formed(Apply(s, Polled(d, probe)))
    ensures Lasts(s, Apply(s, Polled(d, probe)), c)
  {
    var x := SliceOf(s, d);
    assert CommandOk(d, x.record, s.tasks[d], Chain(x.events, d));
    assert CurrentIsActive(d, x.record, s.tasks[d], x.runner);
    PollMoves(x, d, s.tasks[d], s.now, probe);
    var (y, task) := PollSpec(x, d, s.tasks[d], s.now, probe);
    OthersLast(s, d, y, task, c);
  }

  lemma ObserverCancelledLasts(s: Runtime, d: nat, c: nat)
    requires Inv(s) && Enabled(s, ObserverCancelled(d)) && c < |s.tasks| && Formed(Apply(s, ObserverCancelled(d)))
    ensures Lasts(s, Apply(s, ObserverCancelled(d)), c)
  {
    var x := SliceOf(s, d);
    assert CommandOk(d, x.record, s.tasks[d], Chain(x.events, d));
    assert CurrentIsActive(d, x.record, s.tasks[d], x.runner);
    FinishedMoves(x, x, d, NoTask, Cancelled, None);
    OthersLast(s, d, Finished(x, d, Cancelled, None), NoTask, c);
  }

  lemma StepLasts(s: Runtime, step: Step, c: nat)
    requires Inv(s) && Enabled(s, step) && c < |s.tasks|
    ensures Inv(Apply(s, step)) && Lasts(s, Apply(s, step), c)
  {
    StepKeeps(s, step);
    match step
    case Submitted(req, priority) => SubmittedLasts(s, req, priority, c);
    case ExecuteEnds(d, how) => ExecuteEndLasts(s, d, how, c);
    case Polled(d, probe) => PollLasts(s, d, probe, c);
    case ObserverCancelled(d) => ObserverCancelledLasts(s, d, c);
    case _ =>
  }

  /** A command keeps its request, content and generation for ever; a terminal one keeps its record, and
      nothing more is published about it. */
  lemma {:induction false} TerminalIsFinal(s: Runtime, steps: seq<Step>, c: nat)
    requires Inv(s) && Legal(s, steps) && c < |s.tasks|
    ensures Inv(After(s, steps)) && Lasts(s, After(s, steps), c)
    decreases |steps|
  {
    if steps != [] {
      StepLasts(s, steps[0], c);
      TerminalIsFinal(Apply(s, steps[0]), steps[1..], c);
    }
  }

  // ---- generations ----

  /** The step makes every unfinished command of target `t` outdated: a session is acquired or released,
      a configuration is applied, or a control command preempts. */
  predicate Disturbs(s: Runtime, step: Step, t: string)
    requires Formed(s) && t in s.runners
  {
    || step.SessionAcquired? || step.SessionReleased? || Applies(step)
    || (step.Submitted? && step.req.what.target == t && BusyTarget(s, t)
        && SubmitCommandSpec(s, step.req, step.priority).1 == Ok(|s.tasks|))
  }

  ghost predicate Undisturbed(s: Runtime, steps: seq<Step>, t: string)
    requires Legal(s, steps)
    decreases |steps|
  {
    steps != [] ==> t in s.runners && !Disturbs(s, steps[0], t) && Undisturbed(Apply(s, steps[0]), steps[1..], t)
  }

  lemma LaunchGeneration(s: Runtime, req: Request, priority: Option<Priority>, t: string)
    requires Inv(s) && req.what.target in s.runners && req.id !in s.ledger.requests && t in s.runners
    ensures
      var busy := BusyTarget(s, req.what.target);
      var (u, r) := LaunchSpec(Filed(s, req), |s.tasks|, busy, priority);
      && t in u.runners
      && u.runners[t].generation == s.runners[t].generation + (if t == req.what.target && busy && r.Ok? then 1 else 0)
      && (r.Ok? ==> r.value == |s.tasks|)
  {
  }

  lemma SubmitGeneration(s: Runtime, step: Step, t: string)
    requires Inv(s) && step.Submitted? && t in s.runners
    ensures t in Apply(s, step).runners
    ensures Apply(s, step).runners[t].generation == s.runners[t].generation + if Disturbs(s, step, t) then 1 else 0
  {
    var req := step.req;
    if req.id in s.ledger.requests {
      assert EntryFits(s, req.id);
    } else if req.what.target in s.runners {
      LaunchGeneration(s, req, step.priority, t);
    }
  }

  lemma CommandStepGeneration(s: Runtime, step: Step, t: string)
    requires Formed(s) && Enabled(s, step) && t in s.runners
    requires step.ExecuteEnds? || step.Polled? || step.ObserverCancelled?
    ensures t in Apply(s, step).runners && Apply(s, step).runners[t].generation == s.runners[t].generation
  {
  }

  lemma {:induction false} StepGeneration(s: Runtime, step: Step, t: string)
    requires Inv(s) && Enabled(s, step) && t in s.runners
    ensures t in Apply(s, step).runners
    ensures Apply(s, step).runners[t].generation == s.runners[t].generation + if Disturbs(s, step, t) then 1 else 0
  {
    if step.Submitted? {
      SubmitGeneration(s, step, t);
    } else if step.ExecuteEnds? || step.Polled? || step.ObserverCancelled? {
      CommandStepGeneration(s, step, t);
    }
  }

  /** A target's generation is the same after a run exactly when nothing in the run disturbed the target. */
  lemma {:induction false} GenerationTells(s: Runtime, steps: seq<Step>, t: string)
    requires Inv(s) && Legal(s, steps) && t in s.runners
    ensures var u := After(s, steps);
      t in u.runners && s.runners[t].generation <= u.runners[t].generation
      && (s.runners[t].generation == u.runners[t].generation <==> Undisturbed(s, steps, t))
    decreases |steps|
  {
    if steps != [] {
      StepKeeps(s, steps[0]);
      StepGeneration(s, steps[0], t);
      GenerationTells(Apply(s, steps[0]), steps[1..], t);
    }
  }

  predicate SucceedsAt(s: Runtime, step: Step, c: nat)
    requires Formed(s) && Enabled(s, step)
  {
    && Unfinished(s, c) && var t := Apply(s, step);
    c < |t.ledger.records| && t.ledger.records[c].outcome == Some(Succeeded)
  }

  lemma SubmittedLeavesOthers(s: Runtime, req: Request, priority: Option<Priority>, c: nat)
    requires Formed(s) && c < |s.tasks|
    ensures var t := SubmitCommandSpec(s, req, priority).0;
      && c < |t.ledger.records| && t.ledger.records[c] == s.ledger.records[c]
      && c < |t.tasks| && t.tasks[c] == s.tasks[c]
  {
  }

  lemma ExecuteEndIsNoSuccess(s: Runtime, d: nat, how: Ending, c: nat)
    requires Inv(s) && Enabled(s, ExecuteEnds(d, how)) && Unfinished(s, c)
    requires s.ledger.records[c].what.requirement == UntilObserved
    ensures c < |Apply(s, ExecuteEnds(d, how)).ledger.records|
    ensures Apply(s, ExecuteEnds(d, how)).ledger.records[c].outcome != Some(Succeeded)
  {
    assert CommandOk(c, s.ledger.records[c], s.tasks[c], Chain(s.events, c));
  }

  /** The only step that makes an observed command succeed. */
  lemma ObservedSuccess(s: Runtime, step: Step, c: nat)
    requires Inv(s) && Enabled(s, step) && SucceedsAt(s, step, c)
    requires s.ledger.records[c].what.requirement == UntilObserved
    ensures step == Polled(c, Complete) && Current(s, c)
  {
    assert CommandOk(c, s.ledger.records[c], s.tasks[c], Chain(s.events, c));
    if step.Submitted? {
      SubmittedLeavesOthers(s, step.req, step.priority, c);
    } else if step.ExecuteEnds? {
      ExecuteEndIsNoSuccess(s, step.command, step.how, c);
    }
  }

  /** A command that succeeds at OBSERVED saw no preemption, session change or configuration apply between
      its acceptance, when it is current, and its completion. */
  lemma ObservedMeansUndisturbed(s: Runtime, steps: seq<Step>, last: Step, c: nat)
    requires Reachable(s) && Formed(s) && Unfinished(s, c) && Current(s, c)
    requires s.ledger.records[c].what.requirement == UntilObserved
    requires Legal(s, steps) && Formed(After(s, steps)) && Enabled(After(s, steps), last)
        && SucceedsAt(After(s, steps), last, c)
    ensures Undisturbed(s, steps, TargetOf(s, c)) && last == Polled(c, Complete)
  {
    ReachableInv(s);
    TerminalIsFinal(s, steps, c);
    ObservedSuccess(After(s, steps), last, c);
    GenerationTells(s, steps, TargetOf(s, c));
  }

  /** Once disturbed, a command that is to be observed can still end in any way but SUCCEEDED. */
  lemma {:induction false} OutdatedNeverSucceeds(s: Runtime, steps: seq<Step>, c: nat)
    requires Inv(s) && Legal(s, steps) && Unfinished(s, c) && !Current(s, c)
    requires s.ledger.records[c].what.requirement == UntilObserved
    ensures c < |After(s, steps).ledger.records| && After(s, steps).ledger.records[c].outcome != Some(Succeeded)
    decreases |steps|
  {
    assert CommandOk(c, s.ledger.records[c], s.tasks[c], Chain(s.events, c));
    assert CurrentIsActive(c, s.ledger.records[c], s.tasks[c], RunnerOf(s, c));
    if steps != [] {
      var t := Apply(s, steps[0]);
      StepLasts(s, steps[0], c);
      StepGeneration(s, steps[0], TargetOf(s, c));
      if t.ledger.records[c].outcome == Some(Succeeded) {
        ObservedSuccess(s, steps[0], c);
      } else if Unfinished(t, c) {
        OutdatedNeverSucceeds(t, steps[1..], c);
      } else {
        TerminalIsFinal(t, steps[1..], c);
      }
    }
  }

  /** After a session handover or release, no command that was still to be observed succeeds. */
  lemma HandoverInvalidates(s: Runtime, step: Step, steps: seq<Step>, c: nat)
    requires Reachable(s) && Formed(s) && Unfinished(s, c) && s.ledger.records[c].what.requirement == UntilObserved
    requires step.SessionAcquired? || step.SessionReleased?
    requires Legal(s, [step] + steps)
    ensures c < |After(s, [step] + steps).ledger.records|
    ensures After(s, [step] + steps).ledger.records[c].outcome != Some(Succeeded)
  {
    ReachableInv(s);
    assert ([step] + steps)[1..] == steps;
    StepKeeps(s, step);
    assert CurrentIsActive(c, s.ledger.records[c], s.tasks[c], RunnerOf(s, c));
    OutdatedNeverSucceeds(Apply(s, step), steps, c);
  }

  /** Commands that need not be observed do not look at the generation: they succeed exactly when `execute` returns. */
  lemma DispatchIgnoresDisturbance(s: Runtime, c: nat, how: Ending)
    requires Reachable(s) && Formed(s) && Enabled(s, ExecuteEnds(c, how))
        && s.ledger.records[c].what.requirement != UntilObserved
    ensures SucceedsAt(s, ExecuteEnds(c, how), c) <==> how == Returned
  {
    ReachableInv(s);
  }

  // ---- configuration ----

  /** Under the default guard no target is busy when a configuration takes over, so no command that could
      still be observed to succeed is running. */
  lemma AppliedWhileIdle(s: Runtime, step: Step, c: nat)
    requires Reachable(s) && Formed(s) && Enabled(s, step) && Applies(step) && GuardedByDefault(s, step)
    ensures forall t :: t in s.runners ==> s.runners[t].active == None
    ensures Unfinished(s, c) ==> !Current(s, c)
  {
    ReachableInv(s);
    forall t | t in s.runners ensures s.runners[t].active == None {
      IdleHasNoActive(s, t);
      assert !BusyTarget(s, t);
    }
    if Unfinished(s, c) {
      assert CurrentIsActive(c, s.ledger.records[c], s.tasks[c], RunnerOf(s, c));
    }
  }

  lemma {:induction false} RecordedIsLatest(log: seq<Cfg.Entry>)
    requires AllRecorded(log)
    ensures Cfg.LatestIsRecorded(log)
  {
    if log != [] {
      RecordedIsLatest(log[..|log| - 1]);
    }
  }

  /** A device runtime's active revision is always that of its last SUCCEEDED record. */
  lemma ActiveIsLastSuccess(s: Runtime)
    requires Reachable(s)
    ensures s.config.config.active == Cfg.LastSuccess(Cfg.RecordsOf(s.config.log))
    ensures
      var records, limit := Cfg.RecordsOf(s.config.log), s.config.config.limit;
      s.config.config.journal ==
        records[|records| - (if limit < 0 then 0 else if limit < |records| then limit else |records|)..]
  {
    ReachableInv(s);
    RecordedIsLatest(s.config.log);
    Cfg.ActiveIsLastSuccess(s.config.log);
  }

  // ---- requests ----

  /** Each request id has one command with one fingerprint; every command but a rejected one was handed to
      its adapter, and only once. */
  lemma OneCommandPerRequest(s: Runtime, c: nat, d: nat)
    requires Reachable(s) && c < |s.ledger.records| && d < |s.ledger.records|
    ensures s.ledger.records[c].requestId == s.ledger.records[d].requestId ==> c == d
    ensures multiset(s.executed)[c] == if s.ledger.records[c].outcome == Some(Rejected) then 0 else 1
  {
    ReachableInv(s);
    assert RecordFits(s, c) && RecordFits(s, d);
    CountOfDistinct(s.executed, c);
  }

  lemma {:induction false} CountOfDistinct(q: seq<nat>, c: nat)
    requires forall i, j :: 0 <= i < j < |q| ==> q[i] != q[j]
    ensures multiset(q)[c] == if c in q then 1 else 0
  {
    if q != [] {
      CountOfDistinct(q[1..], c);
      assert q == [q[0]] + q[1..];
    }
  }

  lemma SubmittedKeepsRequest(s: Runtime, req: Request, priority: Option<Priority>, id: string)
    requires Formed(s) && id in s.ledger.requests
    ensures var t := SubmitCommandSpec(s, req, priority).0;
      id in t.ledger.requests && t.ledger.requests[id] == s.ledger.requests[id]
  {
  }

  lemma StepKeepsRequest(s: Runtime, step: Step, id: string)
    requires Inv(s) && Enabled(s, step) && id in s.ledger.requests
    ensures id in Apply(s, step).ledger.requests && Apply(s, step).ledger.requests[id] == s.ledger.requests[id]
  {
    if step.Submitted? {
      SubmittedKeepsRequest(s, step.req, step.priority, id);
    }
  }

  lemma {:induction false} RequestIsForever(s: Runtime, steps: seq<Step>, id: string)
    requires Inv(s) && Legal(s, steps) && id in s.ledger.requests
    ensures id in After(s, steps).ledger.requests && After(s, steps).ledger.requests[id] == s.ledger.requests[id]
    decreases |steps|
  {
    if steps != [] {
      StepKeeps(s, steps[0]);
      StepKeepsRequest(s, steps[0], id);
      RequestIsForever(Apply(s, steps[0]), steps[1..], id);
    }
  }

  /** A request id used once means the same for ever: whatever happened since, a valid session repeating it
      with the same content gets the same command, with other content a conflict, and nothing changes. */
  lemma ResubmissionIsIdempotent(s: Runtime, steps: seq<Step>, req: Request, priority: Option<Priority>)
    requires Reachable(s) && Legal(s, steps) && req.id in s.ledger.requests
    requires Formed(After(s, steps)) && req.what.target in After(s, steps).runners
    requires ValidateSpec(After(s, steps).sessions, req.session, After(s, steps).now).1.None?
    ensures var e := s.ledger.requests[req.id];
      SubmitCommandSpec(After(s, steps), req, priority)
        == (After(s, steps), if req.what == e.fingerprint then Ok(e.command) else Err(RequestIdConflict))
  {
    ReachableInv(s);
    RequestIsForever(s, steps, req.id);
  }

  // ---- the life of a command, as published ----

  function Rank(e: Event): nat {
    match e
    case StatusChanged(_, status) => (match status
      case Queued => 0
      case Dispatching => 1
      case Dispatched => 2
      case Acknowledged => 3
      case Observing => 4
      case Terminal => 5)
    case Completed(_, _, _) => 5
  }

  /** A command's events are a strictly rising chain, closed by exactly one `command.completed`, which comes
      exactly when the record is TERMINAL and carries its outcome; SUCCEEDED means what was asked for. */
  lemma EventsTellTheLife(s: Runtime, c: nat)
    requires Reachable(s) && c < |s.ledger.records|
    ensures var chain, r := Chain(s.events, c), s.ledger.records[c];
      && chain != []
      && (forall i, j :: 0 <= i < j < |chain| ==> Rank(chain[i]) < Rank(chain[j]))
      && (forall i :: 0 <= i < |chain| && chain[i].Completed? ==> i == |chain| - 1)
      && chain[|chain| - 1] == Announcement(c, r)
      && (r.status == Terminal <==> r.outcome.Some?)
      && (r.outcome == Some(Succeeded) ==> r.achieved == Some(r.what.requirement))
      && (r.outcome != Some(Succeeded) ==> r.achieved == None)
  {
    ReachableInv(s);
    assert CommandOk(c, s.ledger.records[c], s.tasks[c], Chain(s.events, c));
  }

  /** How far each ended command had come can be read off its events. */
  lemma OutcomeTellsTheChain(s: Runtime, c: nat)
    requires Reachable(s) && c < |s.ledger.records| && s.ledger.records[c].status == Terminal
    ensures Closed(Chain(s.events, c), c, s.ledger.records[c])
  {
    ReachableInv(s);
    assert CommandOk(c, s.ledger.records[c], s.tasks[c], Chain(s.events, c));
  }

  // ---- observing is bounded ----

  /** Once fixed, the deadline of a command stays, until the command ends. */
  lemma StepKeepsDeadline(s: Runtime, step: Step, c: nat)
    requires Inv(s) && Enabled(s, step) && Unfinished(s, c) && s.tasks[c].Polling? && s.tasks[c].deadline.Some?
    ensures c < |Apply(s, step).tasks| && (Apply(s, step).tasks[c] == NoTask || Apply(s, step).tasks[c] == s.tasks[c])
  {
    if step.Submitted? {
      SubmittedLeavesOthers(s, step.req, step.priority, c);
    }
  }

  lemma {:induction false} DeadlineStays(s: Runtime, steps: seq<Step>, c: nat)
    requires Inv(s) && Legal(s, steps) && Unfinished(s, c) && s.tasks[c].Polling? && s.tasks[c].deadline.Some?
    ensures var t := After(s, steps); c < |t.tasks| && (t.tasks[c] == NoTask || t.tasks[c] == s.tasks[c])
    decreases |steps|
  {
    if steps != [] {
      StepKeepsDeadline(s, steps[0], c);
      StepKeeps(s, steps[0]);
      if Unfinished(Apply(s, steps[0]), c) {
        DeadlineStays(Apply(s, steps[0]), steps[1..], c);
      } else {
        TerminalIsFinal(Apply(s, steps[0]), steps[1..], c);
      }
    }
  }

  /** No command hangs: whatever happens after a round of observing, a round at or after the deadline (10 s
      after the first round) finds the command ended, or ends it as EXPIRED, complete or not. */
  lemma ObservingEnds(s: Runtime, first: Probe, steps: seq<Step>, last: Probe, c: nat)
    requires Reachable(s) && Formed(s) && Unfinished(s, c) && s.tasks[c].Polling?
    requires Legal(Apply(s, Polled(c, first)), steps)
    requires After(Apply(s, Polled(c, first)), steps).now >= Deadline(s.tasks[c], s.now)
    ensures var t := After(Apply(s, Polled(c, first)), steps);
      && Formed(t) && c < |t.tasks|
      && (Unfinished(t, c) ==>
            && Enabled(t, Polled(c, last))
            && c < |Apply(t, Polled(c, last)).ledger.records|
            && Apply(t, Polled(c, last)).ledger.records[c].outcome == Some(Expired))
  {
    ReachableInv(s);
    var u := Apply(s, Polled(c, first));
    StepKeeps(s, Polled(c, first));
    RunKeeps(u, steps);
    if Unfinished(u, c) {
      DeadlineStays(u, steps, c);
    } else {
      TerminalIsFinal(u, steps, c);
    }
  }

  // ---- what preemption does not stop ----

  lemma {:induction false} Continue(s: Runtime, steps: seq<Step>, next: Step)
    requires Inv(s) && Legal(s, steps) && Formed(After(s, steps)) && Enabled(After(s, steps), next)
    ensures Legal(s, steps + [next]) && After(s, steps + [next]) == Apply(After(s, steps), next)
    decreases |steps|
  {
    if steps == [] {
      assert steps + [next] == [next] && [next][1..] == [];
      assert Legal(Apply(s, next), []);
    } else {
      StepKeeps(s, steps[0]);
      Continue(Apply(s, steps[0]), steps[1..], next);
      assert (steps + [next])[1..] == steps[1..] + [next];
    }
  }

  lemma ReachesOn(s: Runtime, next: Step)
    requires Reachable(s) && Formed(s) && Enabled(s, next)
    ensures Reachable(Apply(s, next)) && Inv(Apply(s, next))
  {
    var targets, limit, steps :| Legal(Initial(targets, limit), steps) && After(Initial(targets, limit), steps) == s;
    Continue(Initial(targets, limit), steps, next);
    ReachableInv(Apply(s, next));
  }

  /** A new session on a fresh runtime. */
  lemma FirstSession(targets: set<string>, limit: int) returns (s: Runtime)
    ensures Reachable(s) && Inv(s) && s.tasks == [] && s.ledger == Ledger(map[], []) && s.runners.Keys == targets
    ensures s.now == 0.0 && s.sessions == Sessions(Some(Session(0, 30.0)), 1)
    ensures forall t :: t in targets ==> s.runners[t].active == None
  {
    var first := Initial(targets, limit);
    assert Legal(first, []) && After(first, []) == first;
    ReachesOn(first, SessionAcquired(None));
    s := Apply(first, SessionAcquired(None));
  }

  /** The request is accepted and its command waits in `adapter.execute`. */
  lemma FirstCommand(targets: set<string>, limit: int, go: Request) returns (s: Runtime)
    requires go.what.target in targets && go.session == Some(0)
    ensures Reachable(s) && Inv(s) && go.what.target in s.runners
    ensures s.tasks == [Executing(s.runners[go.what.target].generation)]
    ensures s.ledger.requests.Keys == {go.id} && s.ledger.records[0].what == go.what
    ensures s.now == 0.0 && s.sessions == Sessions(Some(Session(0, 30.0)), 1)
    ensures s.runners[go.what.target].active == Some(0)
  {
    var first := FirstSession(targets, limit);
    AcceptedExactlyWhen(first, go, Some(Normal));
    ReachesOn(first, Submitted(go, Some(Normal)));
    s := Apply(first, Submitted(go, Some(Normal)));
  }

  /** A control command preempts it while it waits. */
  lemma PreemptedCommand(targets: set<string>, limit: int, go: Request, stop: Request) returns (s: Runtime)
    requires go.what.target in targets && go.session == Some(0)
    requires stop.what.target == go.what.target && stop.session == Some(0) && stop.id != go.id
    ensures Reachable(s) && Formed(s) && Enabled(s, ExecuteEnds(0, Returned))
    ensures s.ledger.records[0].what == go.what && !Current(s, 0)
  {
    var first := FirstCommand(targets, limit, go);
    AcceptedExactlyWhen(first, stop, Some(Control));
    ReachesOn(first, Submitted(stop, Some(Control)));
    StepGeneration(first, Submitted(stop, Some(Control)), go.what.target);
    StepLasts(first, Submitted(stop, Some(Control)), 0);
    SubmittedLeavesOthers(first, stop, Some(Control), 0);
    s := Apply(first, Submitted(stop, Some(Control)));
  }

  /** A command that need not be observed succeeds although a control command has preempted it. */
  lemma PreemptedStillSucceeds(targets: set<string>, limit: int, go: Request, stop: Request)
    returns (s: Runtime, last: Step)
    requires go.what.target in targets && go.session == Some(0) && go.what.requirement != UntilObserved
    requires stop.what.target == go.what.target && stop.session == Some(0) && stop.id != go.id
    ensures Reachable(s) && Formed(s) && Enabled(s, last) && SucceedsAt(s, last, 0) && !Current(s, 0)
  {
    s := PreemptedCommand(targets, limit, go, stop);
    last := ExecuteEnds(0, Returned);
    DispatchIgnoresDisturbance(s, 0, Returned);
  }
}
