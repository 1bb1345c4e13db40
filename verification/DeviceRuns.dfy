/** Every interleaving of a device runtime's commands, sessions and applies. */
module DeviceRuns {
  import opened Common
  import opened CommandContract
  import opened TargetRunning
  import opened ControlSessions
  import opened CommandLedgers
  import opened DeviceRuntimes
  import Cfg = ConfigStaging

  // ---- what every step keeps ----

  predicate Concerns(e: Event, c: nat) {
    e.command == c
  }

  /** The events of one command, in order. */
  function Chain(events: seq<Event>, c: nat): seq<Event> {
    if events == [] then []
    else
      var n := |events| - 1;
      Chain(events[..n], c) + if Concerns(events[n], c) then [events[n]] else []
  }

  lemma ChainGrows(events: seq<Event>, e: Event, c: nat)
    ensures Chain(events + [e], c) == Chain(events, c) + if Concerns(e, c) then [e] else []
  {
    assert (events + [e])[..|events|] == events;
  }

  /** The first `k` status changes of a command. */
  function Progress(c: nat, k: nat): seq<Event>
    requires k <= 4
  {
    [StatusChanged(c, Dispatching), StatusChanged(c, Dispatched),
     StatusChanged(c, Acknowledged), StatusChanged(c, Observing)][..k]
  }

  /** How far a command with this outcome had come. */
  predicate Reached(k: nat, outcome: Outcome, requirement: Requirement) {
    match outcome
    case Rejected => k == 0
    case Succeeded =>
      k == (match requirement case UntilDispatched => 2 case UntilAcknowledged => 3 case UntilObserved => 4)
    case Expired => k == 4 && requirement == UntilObserved
    case _ => k == 1 || (k == 4 && requirement == UntilObserved)
  }

  /** The chain closes with the one `command.completed`, which carries the record's outcome. */
  predicate Closed(chain: seq<Event>, c: nat, r: Record) {
    && r.outcome.Some?
    && 1 <= |chain| <= 5
    && Reached(|chain| - 1, r.outcome.value, r.what.requirement)
    && chain == Progress(c, |chain| - 1) + [Completed(c, r.outcome, r.achieved)]
  }

  /** Task, record and published events of a command fit together. */
  predicate CommandOk(c: nat, r: Record, task: Task, chain: seq<Event>) {
    match task
    case Executing(g) =>
      g == r.generation && r.status == Dispatching && r.outcome == None && r.achieved == None && chain == Progress(c, 1)
    case Polling(g, _) =>
      && g == r.generation && r.status == Observing && r.outcome == None && r.achieved == None
      && r.what.requirement == UntilObserved && chain == Progress(c, 4)
    case NoTask =>
      && r.status == Terminal && Closed(chain, c, r)
      && r.achieved == if r.outcome == Some(Succeeded) then Some(r.what.requirement) else None
  }

  /** No record is ahead of its runner, and the unfinished one that is not behind is the active one. */
  predicate CurrentIsActive(c: nat, r: Record, task: Task, run: Runner) {
    r.generation <= run.generation && (task != NoTask && r.generation == run.generation ==> run.active == Some(c))
  }

  // Each part of the invariant leaves out command `but`, for use in the middle of a step.

  ghost predicate CommandsFit(s: Runtime, but: int)
    requires Formed(s)
  {
    && (forall c :: 0 <= c < |s.tasks| && c != but ==>
        CommandOk(c, s.ledger.records[c], s.tasks[c], Chain(s.events, c)))
    && (forall c: nat :: |s.tasks| <= c ==> Chain(s.events, c) == [])
  }

  ghost predicate RunnersFit(s: Runtime, but: int)
    requires Formed(s)
  {
    && (forall c :: 0 <= c < |s.tasks| && c != but ==>
        CurrentIsActive(c, s.ledger.records[c], s.tasks[c], RunnerOf(s, c)))
    && (forall t :: t in s.runners && s.runners[t].active.Some? ==> ActiveFits(s, t, but))
  }

  predicate ActiveFits(s: Runtime, t: string, but: int)
    requires Formed(s) && t in s.runners && s.runners[t].active.Some?
  {
    var c := s.runners[t].active.value;
    TargetOf(s, c) == t && (c != but ==> s.tasks[c] != NoTask)
  }

  ghost predicate RequestsFit(s: Runtime) {
    && (forall id :: id in s.ledger.requests ==> EntryFits(s, id))
    && (forall c :: 0 <= c < |s.ledger.records| ==> RecordFits(s, c))
  }

  predicate EntryFits(s: Runtime, id: string)
    requires id in s.ledger.requests
  {
    var e := s.ledger.requests[id];
    && e.command < |s.ledger.records|
    && s.ledger.records[e.command].requestId == id && s.ledger.records[e.command].what == e.fingerprint
  }

  predicate RecordFits(s: Runtime, c: nat)
    requires c < |s.ledger.records|
  {
    var r := s.ledger.records[c];
    r.requestId in s.ledger.requests && s.ledger.requests[r.requestId] == Entry(r.what, c)
  }

  /** Every command but a rejected one is handed to its adapter, and only once. */
  ghost predicate ExecutionsFit(s: Runtime, but: int)
    requires Formed(s)
  {
    && (forall i :: 0 <= i < |s.executed| ==> s.executed[i] < |s.tasks| && s.executed[i] != but)
    && (forall i, j :: 0 <= i < j < |s.executed| ==> s.executed[i] != s.executed[j])
    && (forall c :: 0 <= c < |s.tasks| && c != but ==>
        (c in s.executed <==> s.ledger.records[c].outcome != Some(Rejected)))
  }

  ghost predicate AllRecorded(log: seq<Cfg.Entry>) {
    forall k :: 0 <= k < |log| ==> log[k].Recorded?
  }

  ghost predicate SettingsFit(s: Runtime) {
    Cfg.Inv(s.config) && AllRecorded(s.config.log) && IdsAreIssued(s.sessions)
  }

  ghost predicate Inv(s: Runtime) {
    Formed(s) && CommandsFit(s, -1) && RunnersFit(s, -1) && RequestsFit(s) && ExecutionsFit(s, -1) && SettingsFit(s)
  }

  // ---- steps of one command ----

  /** What a step of command `c` may do to its slice. */
  ghost predicate SliceMoves(x: Slice, y: Slice, c: nat, task: Task) {
    && y.record.what == x.record.what && y.record.requestId == x.record.requestId
    && CommandOk(c, y.record, task, Chain(y.events, c))
    && CurrentIsActive(c, y.record, task, y.runner)
    && (forall d: nat :: d != c ==> Chain(y.events, d) == Chain(x.events, d))
    && x.runner.generation <= y.runner.generation
    && (y.runner.active == (if task == NoTask then None else Some(c))
        || (y.runner.active == x.runner.active && x.runner.active != Some(c)))
    && (x.runner.generation == y.runner.generation && x.runner.active.Some? && x.runner.active != Some(c) ==>
          y.runner.active == x.runner.active)
  }

  lemma TouchedChains(x: Slice, c: nat)
    ensures Chain(Touched(x, c).events, c) == Chain(x.events, c) + [Announcement(c, x.record)]
    ensures forall d: nat :: d != c ==> Chain(Touched(x, c).events, d) == Chain(x.events, d)
  {
    forall d: nat {
      ChainGrows(x.events, Announcement(c, x.record), d);
    }
  }

  lemma FinishedMoves(x: Slice, y: Slice, c: nat, task: Task, outcome: Outcome, achieved: Option<Requirement>)
    requires x.record.what == y.record.what && x.record.requestId == y.record.requestId && x.runner == y.runner
    requires x.record.generation == y.record.generation <= x.runner.generation
    requires forall d: nat :: d != c ==> Chain(y.events, d) == Chain(x.events, d)
    requires exists k ::
      (0 <= k <= 4 && Chain(y.events, c) == Progress(c, k) && Reached(k, outcome, y.record.what.requirement))
    requires achieved == if outcome == Succeeded then Some(y.record.what.requirement) else None
    ensures SliceMoves(x, Finished(y, c, outcome, achieved), c, NoTask)
  {
    TouchedChains(y.(record := y.record.(status := Terminal, outcome := Some(outcome), achieved := achieved)), c);
  }

  lemma MovedChain(x: Slice, y: Slice, c: nat, status: Status, k: nat)
    requires x.record.what == y.record.what && x.record.requestId == y.record.requestId && x.runner == y.runner
    requires x.record.generation == y.record.generation
    requires forall d: nat :: d != c ==> Chain(y.events, d) == Chain(x.events, d)
    requires k <= 3 && Chain(y.events, c) == Progress(c, k) && StatusChanged(c, status) == Progress(c, 4)[k]
    ensures var z := Moved(y, c, status);
      && x.record.what == z.record.what && x.record.requestId == z.record.requestId && x.runner == z.runner
      && x.record.generation == z.record.generation
      && (forall d: nat :: d != c ==> Chain(z.events, d) == Chain(x.events, d))
      && Chain(z.events, c) == Progress(c, k + 1)
  {
    TouchedChains(y.(record := y.record.(status := status)), c);
  }

  lemma {:induction false} ExecuteEndMoves(x: Slice, c: nat, g: nat, how: Ending)
    requires CommandOk(c, x.record, Executing(g), Chain(x.events, c))
        && CurrentIsActive(c, x.record, Executing(g), x.runner)
    ensures var (y, task) := ExecuteEndSpec(x, c, g, how); SliceMoves(x, y, c, task)
  {
    match how
    case WasCancelled => FinishedMoves(x, x, c, NoTask, Cancelled, None);
    case Raised(message) => FinishedMoves(x, x.(record := x.record.(error := Some(message))), c, NoTask, Failed, None);
    case Returned =>
      MovedChain(x, x, c, Dispatched, 1);
      var dispatched := Moved(x, c, Dispatched);
      if x.record.what.requirement == UntilDispatched {
        FinishedMoves(x, dispatched, c, NoTask, Succeeded, Some(UntilDispatched));
      } else {
        MovedChain(x, dispatched, c, Acknowledged, 2);
        var acknowledged := Moved(dispatched, c, Acknowledged);
        if x.record.what.requirement == UntilAcknowledged {
          FinishedMoves(x, acknowledged, c, NoTask, Succeeded, Some(UntilAcknowledged));
        } else {
          MovedChain(x, acknowledged, c, Observing, 3);
        }
      }
  }

  lemma PollMoves(x: Slice, c: nat, task: Task, now: real, probe: Probe)
    requires task.Polling? && CommandOk(c, x.record, task, Chain(x.events, c))
        && CurrentIsActive(c, x.record, task, x.runner)
    ensures var (y, next) := PollSpec(x, c, task, now, probe); SliceMoves(x, y, c, next)
  {
    FinishedMoves(x, x, c, NoTask, Expired, None);
    FinishedMoves(x, x, c, NoTask, Cancelled, None);
    FinishedMoves(x, x, c, NoTask, Succeeded, Some(UntilObserved));
    if probe.ProbeRaised? {
      FinishedMoves(x, x.(record := x.record.(error := Some(probe.message))), c, NoTask, Failed, None);
    }
  }

  // ---- steps of the whole runtime ----

  /** Everything fits but command `c`. */
  ghost predicate Others(s: Runtime, c: nat) {
    Formed(s) && c < |s.tasks| && CommandsFit(s, c) && RunnersFit(s, c) && RequestsFit(s) && SettingsFit(s)
  }

  /** A step that leaves the commands alone, but may bump every generation. */
  lemma CommandsUntouched(s: Runtime, t: Runtime)
    requires Formed(s) && CommandsFit(s, -1) && RunnersFit(s, -1) && RequestsFit(s)
    requires t.ledger == s.ledger && t.tasks == s.tasks && t.events == s.events
    requires t.runners == s.runners || t.runners == BumpAll(s.runners)
    ensures Formed(t) && CommandsFit(t, -1) && RunnersFit(t, -1) && RequestsFit(t)
  {
    assert forall c :: 0 <= c < |t.tasks| ==> TargetOf(t, c) == TargetOf(s, c);
    forall c | 0 <= c < |t.tasks|
      ensures CurrentIsActive(c, t.ledger.records[c], t.tasks[c], RunnerOf(t, c))
    {
      assert CurrentIsActive(c, s.ledger.records[c], s.tasks[c], RunnerOf(s, c));
    }
    forall target | target in t.runners && t.runners[target].active.Some? ensures ActiveFits(t, target, -1) {
      assert ActiveFits(s, target, -1);
    }
    forall id | id in t.ledger.requests ensures EntryFits(t, id) {
      assert EntryFits(s, id);
    }
    forall c | 0 <= c < |t.ledger.records| ensures RecordFits(t, c) {
      assert RecordFits(s, c);
    }
  }

  lemma PutFormed(s: Runtime, c: nat, x: Slice, task: Task)
    requires Others(s, c) && SliceMoves(SliceOf(s, c), x, c, task)
    ensures var t := Put(s, c, x, task);
      && Formed(t)
      && (forall d :: 0 <= d < |t.tasks| ==> TargetOf(t, d) == TargetOf(s, d))
  {
    var t := Put(s, c, x, task);
    assert forall d :: 0 <= d < |t.tasks| ==> TargetOf(t, d) == TargetOf(s, d);
  }

  lemma PutCommands(s: Runtime, c: nat, x: Slice, task: Task)
    requires Others(s, c) && SliceMoves(SliceOf(s, c), x, c, task)
    ensures Formed(Put(s, c, x, task)) && CommandsFit(Put(s, c, x, task), -1)
  {
    PutFormed(s, c, x, task);
  }

  lemma PutRunners(s: Runtime, c: nat, x: Slice, task: Task)
    requires Others(s, c) && SliceMoves(SliceOf(s, c), x, c, task)
    ensures Formed(Put(s, c, x, task)) && RunnersFit(Put(s, c, x, task), -1)
  {
    PutFormed(s, c, x, task);
    var t := Put(s, c, x, task);
    forall d | 0 <= d < |t.tasks|
      ensures CurrentIsActive(d, t.ledger.records[d], t.tasks[d], RunnerOf(t, d))
    {
      if d != c {
        assert CurrentIsActive(d, s.ledger.records[d], s.tasks[d], RunnerOf(s, d));
      }
    }
    forall target | target in t.runners && t.runners[target].active.Some?
      ensures ActiveFits(t, target, -1)
    {
      if target != TargetOf(s, c) || x.runner.active == s.runners[target].active {
        assert ActiveFits(s, target, c);
      }
    }
  }

  lemma PutRequests(s: Runtime, c: nat, x: Slice, task: Task)
    requires Others(s, c) && SliceMoves(SliceOf(s, c), x, c, task)
    ensures RequestsFit(Put(s, c, x, task))
  {
    var t := Put(s, c, x, task);
    forall id | id in t.ledger.requests ensures EntryFits(t, id) {
      assert EntryFits(s, id);
    }
    forall d | 0 <= d < |t.ledger.records| ensures RecordFits(t, d) {
      assert RecordFits(s, d);
    }
  }

  lemma PutExecutions(s: Runtime, c: nat, x: Slice, task: Task)
    requires Others(s, c) && SliceMoves(SliceOf(s, c), x, c, task) && ExecutionsFit(s, -1)
    requires x.record.outcome == Some(Rejected) <==> s.ledger.records[c].outcome == Some(Rejected)
    ensures Formed(Put(s, c, x, task)) && ExecutionsFit(Put(s, c, x, task), -1)
  {
    PutFormed(s, c, x, task);
  }

  lemma PutKeeps(s: Runtime, c: nat, x: Slice, task: Task)
    requires Inv(s) && c < |s.tasks| && SliceMoves(SliceOf(s, c), x, c, task)
    requires x.record.outcome != Some(Rejected) && s.tasks[c] != NoTask
    ensures Inv(Put(s, c, x, task))
  {
    assert Others(s, c);
    assert CommandOk(c, s.ledger.records[c], s.tasks[c], Chain(s.events, c));
    PutCommands(s, c, x, task);
    PutRunners(s, c, x, task);
    PutRequests(s, c, x, task);
    PutExecutions(s, c, x, task);
  }

  lemma {:induction false} ExecuteEndKeeps(s: Runtime, c: nat, how: Ending)
    requires Inv(s) && Enabled(s, ExecuteEnds(c, how))
    ensures Inv(Apply(s, ExecuteEnds(c, how)))
  {
    var x, g := SliceOf(s, c), s.tasks[c].generation;
    assert CommandOk(c, x.record, s.tasks[c], Chain(x.events, c));
    assert CurrentIsActive(c, x.record, s.tasks[c], x.runner);
    ExecuteEndMoves(x, c, g, how);
    var (y, task) := ExecuteEndSpec(x, c, g, how);
    PutKeeps(s, c, y, task);
  }

  lemma {:induction false} PollKeeps(s: Runtime, c: nat, probe: Probe)
    requires Inv(s) && Enabled(s, Polled(c, probe))
    ensures Inv(Apply(s, Polled(c, probe)))
  {
    var x := SliceOf(s, c);
    assert CommandOk(c, x.record, s.tasks[c], Chain(x.events, c));
    assert CurrentIsActive(c, x.record, s.tasks[c], x.runner);
    PollMoves(x, c, s.tasks[c], s.now, probe);
    var (y, task) := PollSpec(x, c, s.tasks[c], s.now, probe);
    PutKeeps(s, c, y, task);
  }

  lemma {:induction false} ObserverCancelledKeeps(s: Runtime, c: nat)
    requires Inv(s) && Enabled(s, ObserverCancelled(c))
    ensures Inv(Apply(s, ObserverCancelled(c)))
  {
    var x := SliceOf(s, c);
    assert CommandOk(c, x.record, s.tasks[c], Chain(x.events, c));
    assert CurrentIsActive(c, x.record, s.tasks[c], x.runner);
    FinishedMoves(x, x, c, NoTask, Cancelled, None);
    PutKeeps(s, c, Finished(x, c, Cancelled, None), NoTask);
  }

  // ---- steps of submission ----

  lemma IdleHasNoActive(s: Runtime, t: string)
    requires Inv(s) && t in s.runners
    ensures BusyTarget(s, t) <==> s.runners[t].active.Some?
  {
    if s.runners[t].active.Some? {
      assert ActiveFits(s, t, -1);
      var c := s.runners[t].active.value;
      assert CommandOk(c, s.ledger.records[c], s.tasks[c], Chain(s.events, c));
    }
  }

  lemma FiledRequests(s: Runtime, req: Request)
    requires Inv(s) && req.what.target in s.runners && req.id !in s.ledger.requests
    ensures RequestsFit(Filed(s, req))
  {
    var t := Filed(s, req);
    forall id | id in t.ledger.requests ensures EntryFits(t, id) {
      if id != req.id {
        assert EntryFits(s, id);
      }
    }
    forall c | 0 <= c < |t.ledger.records| ensures RecordFits(t, c) {
      if c < |s.ledger.records| {
        assert RecordFits(s, c);
      }
    }
  }

  lemma FiledOthers(s: Runtime, req: Request)
    requires Inv(s) && req.what.target in s.runners && req.id !in s.ledger.requests
    ensures var t := Filed(s, req); Others(t, |s.tasks|) && ExecutionsFit(t, |s.tasks|)
    ensures SliceOf(Filed(s, req), |s.tasks|) == Slice(s.runners[req.what.target],
      Record(req.id, req.what, s.runners[req.what.target].generation, Queued, None, None, None), s.events)
    ensures Chain(s.events, |s.tasks|) == [] && s.runners[req.what.target].active != Some(|s.tasks|)
  {
    var t, n := Filed(s, req), |s.tasks|;
    FiledRequests(s, req);
    forall c | 0 <= c < |s.tasks|
      ensures CurrentIsActive(c, t.ledger.records[c], t.tasks[c], RunnerOf(t, c))
    {
      assert CurrentIsActive(c, s.ledger.records[c], s.tasks[c], RunnerOf(s, c));
    }
    forall target | target in t.runners && t.runners[target].active.Some?
      ensures ActiveFits(t, target, n)
    {
      assert ActiveFits(s, target, -1);
    }
  }

  lemma {:induction false} SubmitMoves(x: Slice, c: nat, busy: bool, priority: Option<Priority>)
    requires Chain(x.events, c) == [] && x.runner.active != Some(c) && (busy <==> x.runner.active.Some?)
    requires x.record.outcome == None && x.record.achieved == None && x.record.generation == x.runner.generation
    ensures var (y, r) := SubmitSpec(x, c, busy, priority);
      match r
      case Ok(task) => SliceMoves(x, y, c, task) && task.Executing? && y.record.outcome == None
      case Err(e) => y == x
  {
    if priority.Some? && !(busy && priority != Some(Control)) {
      var run := if busy then Bumped(x.runner) else x.runner;
      var y := x.(runner := run.(active := Some(c)), record := x.record.(generation := run.generation));
      assert Progress(c, 0) == [];
      MovedChain(y, y, c, Dispatching, 0);
    }
  }

  lemma RejectedMoves(x: Slice, c: nat, e: Error)
    requires Chain(x.events, c) == [] && x.runner.active != Some(c)
    requires x.record.outcome == None && x.record.achieved == None && x.record.generation == x.runner.generation
    ensures var rejected := x.record.(status := Terminal, outcome := Some(Rejected), error := Some(ErrorText(e)));
      SliceMoves(x, Touched(x.(record := rejected), c), c, NoTask)
  {
    var rejected := x.record.(status := Terminal, outcome := Some(Rejected), error := Some(ErrorText(e)));
    TouchedChains(x.(record := rejected), c);
  }

  lemma PutNew(s: Runtime, c: nat, x: Slice, task: Task, executed: seq<nat>)
    requires Others(s, c) && SliceMoves(SliceOf(s, c), x, c, task) && ExecutionsFit(s, c)
    requires executed == if x.record.outcome == Some(Rejected) then s.executed else s.executed + [c]
    ensures Inv(Put(s, c, x, task).(executed := executed))
  {
    PutFormed(s, c, x, task);
    PutCommands(s, c, x, task);
    PutRunners(s, c, x, task);
    PutRequests(s, c, x, task);
    PutNewExecutions(s, c, x, task, executed);
    CommandsUntouched(Put(s, c, x, task), Put(s, c, x, task).(executed := executed));
  }

  lemma PutNewExecutions(s: Runtime, c: nat, x: Slice, task: Task, executed: seq<nat>)
    requires Others(s, c) && SliceMoves(SliceOf(s, c), x, c, task) && ExecutionsFit(s, c)
    requires executed == if x.record.outcome == Some(Rejected) then s.executed else s.executed + [c]
    ensures var t := Put(s, c, x, task).(executed := executed); Formed(t) && ExecutionsFit(t, -1)
  {
    PutFormed(s, c, x, task);
    var t := Put(s, c, x, task).(executed := executed);
    assert forall d :: 0 <= d < |t.tasks| ==> TargetOf(t, d) == TargetOf(s, d);
  }

  lemma {:induction false} LaunchKeeps(s: Runtime, req: Request, priority: Option<Priority>)
    requires Inv(s) && req.what.target in s.runners && req.id !in s.ledger.requests
    ensures Inv(LaunchSpec(Filed(s, req), |s.tasks|, BusyTarget(s, req.what.target), priority).0)
  {
    var c, t, busy := |s.tasks|, Filed(s, req), BusyTarget(s, req.what.target);
    FiledOthers(s, req);
    IdleHasNoActive(s, req.what.target);
    var x := SliceOf(t, c);
    SubmitMoves(x, c, busy, priority);
    var (y, r) := SubmitSpec(x, c, busy, priority);
    match r
    case Ok(task) => PutNew(t, c, y, task, t.executed + [c]);
    case Err(e) =>
      RejectedMoves(x, c, e);
      var rejected := x.record.(status := Terminal, outcome := Some(Rejected), error := Some(ErrorText(e)));
      PutNew(t, c, Touched(x.(record := rejected), c), NoTask, t.executed);
  }

  lemma {:induction false} SubmitKeeps(s: Runtime, req: Request, priority: Option<Priority>)
    requires Inv(s)
    ensures Inv(SubmitCommandSpec(s, req, priority).0)
  {
    if req.what.target in s.runners && ValidateSpec(s.sessions, req.session, s.now).1.None? {
      if req.id !in s.ledger.requests {
        LaunchKeeps(s, req, priority);
      }
    } else {
      var t := SubmitCommandSpec(s, req, priority).0;
      CommandsUntouched(s, t);
    }
  }

  lemma {:induction false} ConfigKeeps(config: Cfg.System, move: Cfg.Step)
    requires Cfg.Inv(config) && AllRecorded(config.log) && Cfg.Enabled(config, move)
    requires move.GuardEnds? ==> !move.hookRaises
    ensures Cfg.Inv(Cfg.Apply(config, move)) && AllRecorded(Cfg.Apply(config, move).log)
  {
    Cfg.HistoryKept(config, move);
    Cfg.LockKept(config, move);
  }

  lemma SettingsKeep(s: Runtime, step: Step)
    requires Inv(s) && Enabled(s, step)
    requires
      || step.ClockAdvances? || step.SessionAcquired? || step.SessionRenewed? || step.SessionReleased?
      || step.ConfigMoves?
    ensures Inv(Apply(s, step))
  {
    CommandsUntouched(s, Apply(s, step));
    if step.ConfigMoves? {
      ConfigKeeps(s.config, step.step);
    }
  }

  lemma StepKeeps(s: Runtime, step: Step)
    requires Inv(s) && Enabled(s, step)
    ensures Inv(Apply(s, step))
  {
    match step
    case Submitted(req, priority) => SubmitKeeps(s, req, priority);
    case ExecuteEnds(c, how) => ExecuteEndKeeps(s, c, how);
    case Polled(c, probe) => PollKeeps(s, c, probe);
    case ObserverCancelled(c) => ObserverCancelledKeeps(s, c);
    case _ => SettingsKeep(s, step);
  }

  // ---- runs ----

  ghost predicate Legal(s: Runtime, steps: seq<Step>)
    decreases |steps|
  {
    steps != [] ==> Formed(s) && Enabled(s, steps[0]) && Legal(Apply(s, steps[0]), steps[1..])
  }

  ghost function After(s: Runtime, steps: seq<Step>): Runtime
    requires Legal(s, steps)
    decreases |steps|
  {
    if steps == [] then s else After(Apply(s, steps[0]), steps[1..])
  }

  ghost predicate Reachable(s: Runtime) {
    exists targets, limit, steps :: Legal(Initial(targets, limit), steps) && After(Initial(targets, limit), steps) == s
  }

  lemma {:induction false} RunKeeps(s: Runtime, steps: seq<Step>)
    requires Inv(s) && Legal(s, steps)
    ensures Inv(After(s, steps))
    decreases |steps|
  {
    if steps != [] {
      StepKeeps(s, steps[0]);
      RunKeeps(Apply(s, steps[0]), steps[1..]);
    }
  }

  lemma ReachableInv(s: Runtime)
    requires Reachable(s)
    ensures Inv(s)
  {
    var targets, limit, steps :| Legal(Initial(targets, limit), steps) && After(Initial(targets, limit), steps) == s;
    RunKeeps(Initial(targets, limit), steps);
  }
}
