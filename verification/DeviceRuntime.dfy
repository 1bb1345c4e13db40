/** The device runtime: command submission, control sessions and configuration applies over one set of runners. */
module DeviceRuntimes {
  import opened Common
  import opened CommandContract
  import opened TargetRunning
  import opened ControlSessions
  import opened CommandLedgers
  import Cfg = ConfigStaging

  /** `tasks[c]` is the task driving command `c`; `executed` lists the commands handed to an adapter, in order. */
  datatype Runtime = Runtime(
    now: real,
    sessions: Sessions,
    ledger: Ledger,
    tasks: seq<Task>,
    runners: map<string, Runner>,
    events: seq<Event>,
    executed: seq<nat>,
    config: Cfg.System)

  /** Every command has a task and belongs to a known target. */
  predicate Formed(s: Runtime) {
    && |s.tasks| == |s.ledger.records|
    && (forall c :: 0 <= c < |s.tasks| ==> TargetOf(s, c) in s.runners)
    && (forall t :: t in s.runners && s.runners[t].active.Some? ==> s.runners[t].active.value < |s.tasks|)
  }

  function TargetOf(s: Runtime, c: nat): string
    requires c < |s.ledger.records|
  {
    s.ledger.records[c].what.target
  }

  function RunnerOf(s: Runtime, c: nat): Runner
    requires Formed(s) && c < |s.tasks|
  {
    s.runners[TargetOf(s, c)]
  }

  predicate BusyTarget(s: Runtime, t: string)
    requires Formed(s) && t in s.runners
  {
    s.runners[t].active.Some? && s.ledger.records[s.runners[t].active.value].status != Terminal
  }

  predicate AnyBusy(s: Runtime)
    requires Formed(s)
  {
    exists t :: t in s.runners && BusyTarget(s, t)
  }

  function SliceOf(s: Runtime, c: nat): Slice
    requires Formed(s) && c < |s.tasks|
  {
    Slice(RunnerOf(s, c), s.ledger.records[c], s.events)
  }

  /** The step of command `c` that made `x` of its slice and left it with `task`. */
  function Put(s: Runtime, c: nat, x: Slice, task: Task): Runtime
    requires Formed(s) && c < |s.tasks|
  {
    s.(ledger := s.ledger.(records := s.ledger.records[c := x.record]),
       tasks := s.tasks[c := task],
       runners := s.runners[TargetOf(s, c) := x.runner],
       events := x.events)
  }

  function BumpAll(runners: map<string, Runner>): map<string, Runner> {
    map t | t in runners :: Bumped(runners[t])
  }

  /** The outcome of the accepted-or-rejected new command `c`, whose record has just been filed. */
  function LaunchSpec(s: Runtime, c: nat, busy: bool, priority: Option<Priority>): (Runtime, Result<nat, Error>)
    requires Formed(s) && c < |s.tasks|
  {
    var (x, r) := SubmitSpec(SliceOf(s, c), c, busy, priority);
    match r
    case Ok(task) => (Put(s, c, x, task).(executed := s.executed + [c]), Ok(c))
    case Err(e) =>
      var rejected := x.record.(status := Terminal, outcome := Some(Rejected), error := Some(ErrorText(e)));
      (Put(s, c, Touched(x.(record := rejected), c), NoTask), Err(e))
  }

  function ErrorText(e: Error): string {
    match e
    case UnknownTarget => "UNKNOWN_TARGET"
    case ControlSessionRequired => "CONTROL_SESSION_REQUIRED"
    case ControlSessionInvalid => "CONTROL_SESSION_INVALID"
    case ControlSessionExpired => "CONTROL_SESSION_EXPIRED"
    case RequestIdConflict => "REQUEST_ID_CONFLICT"
    case UnknownAction => "UNKNOWN_ACTION"
    case Busy => "BUSY"
  }

  /** The runtime with a record for `req` filed, and nothing done with it yet. */
  function Filed(s: Runtime, req: Request): (t: Runtime)
    requires Formed(s) && req.what.target in s.runners && req.id !in s.ledger.requests
    ensures Formed(t) && |t.tasks| == |s.tasks| + 1
  {
    var ledger := BeginSpec(s.ledger, req, s.runners[req.what.target].generation).0;
    var t := s.(ledger := ledger, tasks := s.tasks + [NoTask]);
    assert forall c :: 0 <= c < |t.tasks| ==>
        TargetOf(t, c) == if c < |s.tasks| then TargetOf(s, c) else req.what.target;
    t
  }

  /** `submit_command` up to the await of `adapter.execute`, or to its end. */
  function SubmitCommandSpec(s: Runtime, req: Request, priority: Option<Priority>): (Runtime, Result<nat, Error>)
    requires Formed(s)
  {
    if req.what.target !in s.runners then (s, Err(UnknownTarget))
    else
      var (sessions, refused) := ValidateSpec(s.sessions, req.session, s.now);
      if refused.Some? then (s.(sessions := sessions), Err(refused.value))
      else
        match BeginSpec(s.ledger, req, s.runners[req.what.target].generation).1
        case Conflict => (s, Err(RequestIdConflict))
        case Known(c) => (s, Ok(c))
        case New(c) =>
          LaunchSpec(Filed(s, req), c, BusyTarget(s, req.what.target), priority)
  }

  datatype Step =
    | ClockAdvances(elapsed: real)
    | Submitted(req: Request, priority: Option<Priority>)
    | ExecuteEnds(command: nat, how: Ending)
    | Polled(command: nat, probe: Probe)
    | ObserverCancelled(command: nat)
    | SessionAcquired(ttl: Option<real>)
    | SessionRenewed(session: nat, ttl: Option<real>)
    | SessionReleased(session: nat)
    | ConfigMoves(step: Cfg.Step)

  /** The apply guard let a configuration through. */
  predicate Applies(step: Step) {
    step.ConfigMoves? && step.step.GuardEnds? && step.step.verdict.Allowed?
  }

  predicate Enabled(s: Runtime, step: Step) {
    match step
    case ClockAdvances(elapsed) => elapsed >= 0.0
    case ExecuteEnds(c, _) => c < |s.tasks| && s.tasks[c].Executing?
    case Polled(c, _) => c < |s.tasks| && s.tasks[c].Polling?
    case ObserverCancelled(c) => c < |s.tasks| && s.tasks[c].Polling? && s.tasks[c].deadline.Some?
    case ConfigMoves(step) => Cfg.Enabled(s.config, step) && (step.GuardEnds? ==> !step.hookRaises)
    case _ => true
  }

  function Apply(s: Runtime, step: Step): Runtime
    requires Formed(s) && Enabled(s, step)
  {
    match step
    case ClockAdvances(elapsed) => s.(now := s.now + elapsed)
    case Submitted(req, priority) => SubmitCommandSpec(s, req, priority).0
    case ExecuteEnds(c, how) =>
      var (x, task) := ExecuteEndSpec(SliceOf(s, c), c, s.tasks[c].generation, how);
      Put(s, c, x, task)
    case Polled(c, probe) =>
      var (x, task) := PollSpec(SliceOf(s, c), c, s.tasks[c], s.now, probe);
      Put(s, c, x, task)
    case ObserverCancelled(c) => Put(s, c, Finished(SliceOf(s, c), c, Cancelled, None), NoTask)
    case SessionAcquired(ttl) =>
      s.(runners := BumpAll(s.runners), sessions := AcquireSpec(s.sessions, s.now, ttl))
    case SessionRenewed(id, ttl) => s.(sessions := RenewSpec(s.sessions, id, s.now, ttl).0)
    case SessionReleased(id) =>
      s.(sessions := ReleaseSpec(s.sessions, id), runners := BumpAll(s.runners))
    case ConfigMoves(move) =>
      var t := s.(config := Cfg.Apply(s.config, move));
      if Applies(step) then t.(runners := BumpAll(s.runners)) else t
  }

  /** The default apply guard: it refuses exactly while a target is busy. */
  predicate GuardedByDefault(s: Runtime, step: Step)
    requires Formed(s)
  {
    step.ConfigMoves? && step.step.GuardEnds? ==>
        if AnyBusy(s) then step.step.verdict.Refused? else step.step.verdict.Allowed?
  }

  function Initial(targets: set<string>, limit: int): Runtime {
    var runners := map t | t in targets :: Runner(1, None);
    Runtime(0.0, Sessions(None, 0), Ledger(map[], []), [], runners, [], [], Cfg.Initial(limit))
  }
}
