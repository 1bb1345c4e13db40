/** The Show state machine, its one run task, and the calls that race with it. */
module ShowControl {
  import opened Common

  datatype ShowState = Idle | Preparing | Armed | Running | Holding | Stopping | Faulted

  /** What an abort does next: nothing, wait for the run task it cancelled, or call `stop_all`. */
  datatype AbortPc = Refused | AwaitingTask(task: nat) | StoppingAll | Done

  datatype Task = Live(cancelRequested: bool) | Ended(how: Ending)

  datatype Arm = Pending | NotArmed | Prepared(how: Ending)

  /** The controller's fields; a run task is known by its number. */
  datatype Controller = Controller(
    state: ShowState,
    runId: Option<string>,
    lastError: Option<string>,
    holdRequested: bool,
    runTask: Option<nat>)

  // ---- the code between two awaits, as functions ----

  function ArmBeginSpec(c: Controller): (Controller, bool) {
    if c.state != Idle then (c, false) else (c.(state := Preparing), true)
  }

  function ArmEndSpec(c: Controller, prepared: Ending): Controller {
    match prepared
    case Returned => c.(lastError := None, state := Armed)
    case Raised(message) => c.(lastError := Some(message), state := Idle)
    case WasCancelled => c
  }

  function StartSpec(c: Controller, runId: string, newTask: nat): (Controller, bool) {
    if c.state != Armed then (c, false)
    else
      (c.(runId := Some(runId), lastError := None, holdRequested := false, state := Running, runTask := Some(newTask)),
       true)
  }

  function DriveEndSpec(c: Controller, run: Ending): Controller {
    match run
    case Returned => if c.state == Running || c.state == Holding then c.(state := Idle) else c
    case WasCancelled => c
    case Raised(message) => c.(lastError := Some(message), state := Faulted)
  }

  function HoldSpec(c: Controller): (Controller, bool) {
    if c.state != Running then (c, false) else (c.(holdRequested := true, state := Holding), true)
  }

  /** `taskLive` says whether the run task exists and is not done. */
  function AbortBeginSpec(c: Controller, taskLive: bool): (Controller, AbortPc)
    requires taskLive ==> c.runTask.Some?
  {
    if c.state != Running && c.state != Holding && c.state != Faulted then (c, Refused)
    else (c.(state := Stopping), if taskLive then AwaitingTask(c.runTask.value) else StoppingAll)
  }

  function AbortEndSpec(c: Controller, stopped: Ending): Controller {
    if stopped.Returned? then c.(state := Idle) else c
  }

  // ---- the same code, on the controller's fields ----

  class RunTask {
    const number: nat
    var done: bool
    var cancelRequested: bool

    constructor (number: nat)
      ensures this.number == number && !done && !cancelRequested
    {
      this.number := number;
      done, cancelRequested := false, false;
    }

    method Cancel()
      modifies this`cancelRequested
      ensures cancelRequested
    {
      cancelRequested := true;
    }
  }

  class ShowController {
    var state: ShowState
    var runId: Option<string>
    var lastError: Option<string>
    var holdRequested: bool
    var runTask: RunTask?

    function View(): Controller
      reads this
    {
      Controller(state, runId, lastError, holdRequested, if runTask == null then None else Some(runTask.number))
    }

    predicate TaskLive()
      reads this, runTask
    {
      runTask != null && !runTask.done
    }

    constructor ()
      ensures View() == Controller(Idle, None, None, false, None)
    {
      state, runId, lastError, holdRequested, runTask := Idle, None, None, false, null;
    }

    method ArmBegin() returns (accepted: bool)
      modifies this
      ensures (View(), accepted) == ArmBeginSpec(old(View()))
    {
      if state != Idle {
        return false;
      }
      state := Preparing;
      accepted := true;
    }

    method ArmEnd(prepared: Ending)
      modifies this
      ensures View() == ArmEndSpec(old(View()), prepared)
    {
      match prepared
      case Raised(message) =>
        lastError := Some(message);
        state := Idle;
      case Returned =>
        lastError := None;
        state := Armed;
      case WasCancelled =>
    }

    method Start(id: string, number: nat) returns (accepted: bool)
      modifies this
      ensures (View(), accepted) == StartSpec(old(View()), id, number)
      ensures accepted ==> fresh(runTask) && !runTask.done && !runTask.cancelRequested
    {
      if state != Armed {
        return false;
      }
      runId := Some(id);
      lastError := None;
      holdRequested := false;
      state := Running;
      runTask := new RunTask(number);
      accepted := true;
    }

    /** The end of `_drive` for the given task. */
    method DriveEnd(task: RunTask, run: Ending)
      modifies this`state, this`lastError, task`done
      ensures View() == DriveEndSpec(old(View()), run)
      ensures task.done
    {
      match run {
        case Returned =>
          if state == Running || state == Holding {
            state := Idle;
          }
        case WasCancelled =>
        case Raised(message) =>
          lastError := Some(message);
          state := Faulted;
      }
      task.done := true;
    }

    method Hold() returns (accepted: bool)
      modifies this
      ensures (View(), accepted) == HoldSpec(old(View()))
    {
      if state != Running {
        return false;
      }
      holdRequested := true;
      state := Holding;
      accepted := true;
    }

    method AbortBegin() returns (pc: AbortPc)
      modifies this`state, runTask
      ensures (View(), pc) == AbortBeginSpec(old(View()), old(TaskLive()))
      ensures pc.AwaitingTask? ==> runTask != null && runTask.cancelRequested
    {
      if state != Running && state != Holding && state != Faulted {
        return Refused;
      }
      state := Stopping;
      if runTask != null && !runTask.done {
        runTask.Cancel();
        return AwaitingTask(runTask.number);
      }
      pc := StoppingAll;
    }

    method AbortEnd(stopped: Ending)
      modifies this`state
      ensures View() == AbortEndSpec(old(View()), stopped)
    {
      if stopped.Returned? {
        state := Idle;
      }
    }
  }

  // ---- every interleaving ----

  /** What the callers and the awaited coroutines saw, in order. */
  datatype Mark =
    | ArmCall(accepted: bool)
    | PrepareEnd(how: Ending)
    | StartCall(runId: string, accepted: bool)
    | RunEnd(how: Ending)
    | HoldCall(accepted: bool)
    | AbortCall(accepted: bool)
    | StopAllEnd(how: Ending)

  /** The controller, all run tasks ever started, every arm and every abort call, and what was seen. */
  datatype System = System(
    ctrl: Controller,
    tasks: seq<Task>,
    arming: seq<Arm>,
    aborts: seq<AbortPc>,
    marks: seq<Mark>)

  datatype Step =
    | ArmCalled
    | PrepareEnds(arm: nat, how: Ending)
    | StartCalled(runId: string)
    | RunEnds(task: nat, how: Ending)
    | HoldCalled
    | AbortCalled
    | TaskSeenEnded(abort: nat)
    | StopAllEnds(abort: nat, how: Ending)

  predicate TaskIsLive(s: System, t: nat) {
    t < |s.tasks| && s.tasks[t].Live?
  }

  predicate RunTaskLive(s: System) {
    s.ctrl.runTask.Some? && TaskIsLive(s, s.ctrl.runTask.value)
  }

  predicate Enabled(s: System, step: Step) {
    match step
    case PrepareEnds(a, _) => a < |s.arming| && s.arming[a] == Pending
    case RunEnds(t, how) => TaskIsLive(s, t) && (how.WasCancelled? ==> s.tasks[t].cancelRequested)
    case TaskSeenEnded(b) => b < |s.aborts| && s.aborts[b].AwaitingTask? && !TaskIsLive(s, s.aborts[b].task)
    case StopAllEnds(b, _) => b < |s.aborts| && s.aborts[b] == StoppingAll
    case _ => true
  }

  function Apply(s: System, step: Step): System
    requires Enabled(s, step)
  {
    match step
    case ArmCalled =>
      var (c, ok) := ArmBeginSpec(s.ctrl);
      Saw(s.(ctrl := c, arming := s.arming + [if ok then Pending else NotArmed]), ArmCall(ok))
    case PrepareEnds(a, how) =>
      Saw(s.(ctrl := ArmEndSpec(s.ctrl, how), arming := s.arming[a := Prepared(how)]), PrepareEnd(how))
    case StartCalled(runId) =>
      var (c, ok) := StartSpec(s.ctrl, runId, |s.tasks|);
      Saw(s.(ctrl := c, tasks := if ok then s.tasks + [Live(false)] else s.tasks), StartCall(runId, ok))
    case RunEnds(t, how) =>
      Saw(s.(ctrl := DriveEndSpec(s.ctrl, how), tasks := s.tasks[t := Ended(how)]), RunEnd(how))
    case HoldCalled =>
      var (c, ok) := HoldSpec(s.ctrl);
      Saw(s.(ctrl := c), HoldCall(ok))
    case AbortCalled =>
      var (c, pc) := AbortBeginSpec(s.ctrl, RunTaskLive(s));
      Saw(s.(ctrl := c, aborts := s.aborts + [pc],
             tasks := if pc.AwaitingTask? then s.tasks[pc.task := Live(true)] else s.tasks),
          AbortCall(!pc.Refused?))
    case TaskSeenEnded(b) => s.(aborts := s.aborts[b := StoppingAll])
    case StopAllEnds(b, how) =>
      Saw(s.(ctrl := AbortEndSpec(s.ctrl, how), aborts := s.aborts[b := Done]), StopAllEnd(how))
  }

  function Saw(s: System, mark: Mark): System {
    s.(marks := s.marks + [mark])
  }

  function Initial(): System {
    System(Controller(Idle, None, None, false, None), [], [], [], [])
  }

  /** An abort was accepted and has not come back yet. */
  predicate Aborting(s: System) {
    exists b :: 0 <= b < |s.aborts| && Active(s.aborts[b])
  }

  /** What a caller of `abort` can see to: no abort is accepted while another one is under way. */
  predicate Exclusive(s: System, step: Step) {
    step.AbortCalled? && Aborting(s) ==> AbortBeginSpec(s.ctrl, RunTaskLive(s)).1.Refused?
  }

  /** What a run callable can see to: once cancelled it does not end with an error of its own. */
  predicate Obedient(s: System, step: Step) {
    step.RunEnds? && step.how.Raised? && step.task < |s.tasks| && s.tasks[step.task].Live? ==>
      !s.tasks[step.task].cancelRequested
  }

  /** The step that makes an abort call `stop_all`. */
  predicate BeginsStopAll(s: System, step: Step)
    requires Enabled(s, step)
  {
    step.TaskSeenEnded? || (step.AbortCalled? && AbortBeginSpec(s.ctrl, RunTaskLive(s)).1 == StoppingAll)
  }

  predicate Active(pc: AbortPc) {
    pc.AwaitingTask? || pc.StoppingAll?
  }

  ghost predicate OneLiveTask(s: System) {
    forall t: nat :: TaskIsLive(s, t) ==> s.ctrl.runTask == Some(t)
  }

  /** A run raised, and no abort was accepted or came back since. */
  predicate RaisedLast(marks: seq<Mark>) {
    if marks == [] then false
    else
      match marks[|marks| - 1]
      case RunEnd(Raised(_)) => true
      case AbortCall(true) => false
      case StopAllEnd(Returned) => false
      case _ => RaisedLast(marks[..|marks| - 1])
  }

  ghost predicate LiveTaskFitsState(s: System) {
    && (RunTaskLive(s) ==> s.ctrl.state == Running || s.ctrl.state == Holding || s.ctrl.state == Stopping)
    && (RunTaskLive(s) ==> s.tasks[s.ctrl.runTask.value].cancelRequested == (s.ctrl.state == Stopping))
    && (s.ctrl.state == Running || s.ctrl.state == Holding ==> RunTaskLive(s))
  }

  predicate FaultFitsState(s: System) {
    s.ctrl.state == Faulted <==> RaisedLast(s.marks)
  }

  ghost predicate AbortsFitState(s: System) {
    && (forall b :: 0 <= b < |s.aborts| && Active(s.aborts[b]) ==>
          s.ctrl.state == Stopping || (s.ctrl.state == Faulted && !RunTaskLive(s)))
    && (forall a, b :: 0 <= a < b < |s.aborts| ==> !(Active(s.aborts[a]) && Active(s.aborts[b])))
    && (forall b :: 0 <= b < |s.aborts| && s.aborts[b].StoppingAll? ==> !RunTaskLive(s))
    && (forall b :: 0 <= b < |s.aborts| && s.aborts[b].AwaitingTask? ==> s.ctrl.runTask == Some(s.aborts[b].task))
  }

  predicate ArmsOpen(arming: seq<Arm>) {
    exists a :: 0 <= a < |arming| && (arming[a] == Pending || arming[a] == Prepared(WasCancelled))
  }

  lemma ArmAppended(arming: seq<Arm>, arm: Arm)
    ensures ArmsOpen(arming + [arm]) <==> ArmsOpen(arming) || arm == Pending || arm == Prepared(WasCancelled)
  {
    if a :| 0 <= a < |arming| && (arming[a] == Pending || arming[a] == Prepared(WasCancelled)) {
      assert (arming + [arm])[a] == arming[a];
    }
    assert (arming + [arm])[|arming|] == arm;
  }

  /** PREPARING is the state exactly while an arm is pending, or once one was cancelled. */
  ghost predicate ArmingFitsState(s: System) {
    && (s.ctrl.state == Preparing <==> ArmsOpen(s.arming))
    && (forall a, b :: 0 <= a < b < |s.arming| ==> !(s.arming[a] == Pending && s.arming[b] == Pending))
    && (forall a, b :: 0 <= a < |s.arming| && 0 <= b < |s.arming| ==>
          !(s.arming[a] == Pending && s.arming[b] == Prepared(WasCancelled)))
  }

  ghost predicate Inv(s: System) {
    OneLiveTask(s) && LiveTaskFitsState(s) && AbortsFitState(s) && ArmingFitsState(s) && FaultFitsState(s)
  }

  lemma TasksKept(s: System, step: Step)
    requires Inv(s) && Enabled(s, step) && Exclusive(s, step)
    ensures OneLiveTask(Apply(s, step)) && LiveTaskFitsState(Apply(s, step))
  {
  }

  lemma AbortsKept(s: System, step: Step)
    requires Inv(s) && Enabled(s, step) && Exclusive(s, step)
    ensures AbortsFitState(Apply(s, step))
  {
    TasksKept(s, step);
  }

  lemma ArmingKept(s: System, step: Step)
    requires Inv(s) && Enabled(s, step)
    ensures ArmingFitsState(Apply(s, step))
  {
    match step
    case ArmCalled => ArmAppended(s.arming, if s.ctrl.state == Idle then Pending else NotArmed);
    case PrepareEnds(a, how) =>
      var t := Apply(s, step);
      assert how.WasCancelled? ==> t.arming[a] == Prepared(WasCancelled);
    case _ =>
  }

  lemma FaultKept(s: System, step: Step)
    requires Inv(s) && Enabled(s, step)
    ensures FaultFitsState(Apply(s, step))
  {
    hide RaisedLast;
    var t := Apply(s, step);
    if !step.TaskSeenEnded? {
      var mark := t.marks[|s.marks|];
      assert t.marks == s.marks + [mark];
      RaisedNext(s.marks, mark);
    }
    if step.PrepareEnds? {
      assert s.arming[step.arm] == Pending;
    }
  }

  lemma RaisedNext(marks: seq<Mark>, mark: Mark)
    ensures RaisedLast(marks + [mark]) ==
      match mark
      case RunEnd(Raised(_)) => true
      case AbortCall(true) => false
      case StopAllEnd(Returned) => false
      case _ => RaisedLast(marks)
  {
    assert (marks + [mark])[..|marks|] == marks;
  }

  lemma StepKeeps(s: System, step: Step)
    requires Inv(s) && Enabled(s, step) && Exclusive(s, step)
    ensures Inv(Apply(s, step))
  {
    TasksKept(s, step);
    AbortsKept(s, step);
    ArmingKept(s, step);
    FaultKept(s, step);
  }

  ghost predicate Legal(s: System, steps: seq<Step>)
    decreases |steps|
  {
    steps != [] ==> Enabled(s, steps[0]) && Legal(Apply(s, steps[0]), steps[1..])
  }

  ghost predicate AllExclusive(s: System, steps: seq<Step>)
    requires Legal(s, steps)
    decreases |steps|
  {
    steps != [] ==> Exclusive(s, steps[0]) && AllExclusive(Apply(s, steps[0]), steps[1..])
  }

  ghost predicate AllObedient(s: System, steps: seq<Step>)
    requires Legal(s, steps)
    decreases |steps|
  {
    steps != [] ==> Obedient(s, steps[0]) && AllObedient(Apply(s, steps[0]), steps[1..])
  }

  ghost function Run(s: System, steps: seq<Step>): System
    requires Legal(s, steps)
    decreases |steps|
  {
    if steps == [] then s else Run(Apply(s, steps[0]), steps[1..])
  }

  lemma {:induction false} RunKeeps(s: System, steps: seq<Step>)
    requires Inv(s) && Legal(s, steps) && AllExclusive(s, steps)
    ensures Inv(Run(s, steps))
    decreases |steps|
  {
    if steps != [] {
      StepKeeps(s, steps[0]);
      RunKeeps(Apply(s, steps[0]), steps[1..]);
    }
  }

  /** A run task is live only while the Show is running, holding or stopping. */
  predicate LiveOnlyInShow(s: System) {
    RunTaskLive(s) ==> s.ctrl.state == Running || s.ctrl.state == Holding || s.ctrl.state == Stopping
  }

  /** While aborts do not overlap, at most one run task is live, it is the controller's, and the Show is
      then running, holding or stopping. */
  lemma AtMostOneRun(steps: seq<Step>, t: nat, u: nat)
    requires Legal(Initial(), steps) && AllExclusive(Initial(), steps)
    ensures LiveOnlyInShow(Run(Initial(), steps))
    ensures TaskIsLive(Run(Initial(), steps), t) && TaskIsLive(Run(Initial(), steps), u) ==>
      t == u && Run(Initial(), steps).ctrl.runTask == Some(t)
  {
    RunKeeps(Initial(), steps);
  }

  /** What the state says, while aborts do not overlap: RUNNING or HOLDING exactly while the run task is live and
      not cancelled, PREPARING exactly while an arm is pending or since one was cancelled, FAULTED exactly after a
      run that raised, until an abort. */
  lemma StateTellsWhatRuns(steps: seq<Step>)
    requires Legal(Initial(), steps) && AllExclusive(Initial(), steps)
    ensures var s := Run(Initial(), steps);
      && (s.ctrl.state == Running || s.ctrl.state == Holding <==>
            RunTaskLive(s) && !s.tasks[s.ctrl.runTask.value].cancelRequested)
      && (s.ctrl.state == Preparing <==>
            exists a :: 0 <= a < |s.arming| && (s.arming[a] == Pending || s.arming[a] == Prepared(WasCancelled)))
      && (s.ctrl.state == Faulted <==> RaisedLast(s.marks))
  {
    RunKeeps(Initial(), steps);
  }

  /** An arm that is cancelled leaves the Show in PREPARING for good: no call and no task gets it out. */
  lemma {:induction false} CancelledArmIsForGood(s: System, steps: seq<Step>, a: nat)
    requires Inv(s) && Legal(s, steps) && AllExclusive(s, steps)
    requires a < |s.arming| && s.arming[a] == Prepared(WasCancelled)
    ensures Run(s, steps).ctrl.state == Preparing
    decreases |steps|
  {
    if steps != [] {
      StepKeeps(s, steps[0]);
      CancelledArmIsForGood(Apply(s, steps[0]), steps[1..], a);
    }
  }

  /** Whenever an abort starts `stop_all`, no run task is live and no other abort is under way. */
  lemma StopAllWaitsForTheRun(steps: seq<Step>, next: Step, t: nat)
    requires Legal(Initial(), steps) && AllExclusive(Initial(), steps)
    requires Enabled(Run(Initial(), steps), next) && Exclusive(Run(Initial(), steps), next)
    requires BeginsStopAll(Run(Initial(), steps), next)
    ensures !TaskIsLive(Run(Initial(), steps), t)
    ensures forall b :: 0 <= b < |Run(Initial(), steps).aborts| && next != TaskSeenEnded(b) ==>
      !Active(Run(Initial(), steps).aborts[b])
  {
    RunKeeps(Initial(), steps);
  }

  /** An abort accepted while another one is under way can leave the Show IDLE with a run task live, from any
      state that non-overlapping calls lead to and without any further abort. */
  lemma OverlapBreaksTheShow(s: System, runId: string) returns (steps: seq<Step>)
    requires Inv(s) && !Exclusive(s, AbortCalled)
    ensures Legal(Apply(s, AbortCalled), steps) && AbortCalled !in steps
    ensures var t := Run(Apply(s, AbortCalled), steps); RunTaskLive(t) && t.ctrl.state == Idle
  {
    var a :| 0 <= a < |s.aborts| && Active(s.aborts[a]);
    var b, t := |s.aborts|, Apply(s, AbortCalled);
    assert t.ctrl.state == Stopping && t.aborts == s.aborts + [StoppingAll] && t.arming == s.arming;
    var seen, u := FirstAbortEnds(t, a);
    var armed := [ArmCalled, PrepareEnds(|u.arming|, Returned), StartCalled(runId), StopAllEnds(b, Returned)];
    NewRunLosesItsShow(u, b, runId);
    Joined(t, seen, armed);
    steps := seen + armed;
  }

  ghost predicate CanLoseARun(s: System) {
    exists steps :: Legal(s, steps) && AllExclusive(s, steps) && !LiveOnlyInShow(Run(s, steps))
  }

  /** So the condition is exact: an abort opens the way to a run task that is live in an IDLE Show exactly when
      it is accepted while another one is under way. */
  lemma OverlapIsWhatBreaks(s: System)
    requires Inv(s)
    ensures CanLoseARun(Apply(s, AbortCalled)) <==> !Exclusive(s, AbortCalled)
  {
    var t := Apply(s, AbortCalled);
    if Exclusive(s, AbortCalled) {
      StepKeeps(s, AbortCalled);
      forall steps | Legal(t, steps) && AllExclusive(t, steps)
        ensures LiveOnlyInShow(Run(t, steps))
      {
        RunKeeps(t, steps);
      }
    } else {
      var steps := OverlapBreaksTheShow(s, "");
      NoAbortIsExclusive(t, steps);
      assert !LiveOnlyInShow(Run(t, steps));
    }
  }

  lemma {:induction false} NoAbortIsExclusive(s: System, steps: seq<Step>)
    requires Legal(s, steps) && AbortCalled !in steps
    ensures AllExclusive(s, steps)
    decreases |steps|
  {
    if steps != [] {
      assert steps[0] != AbortCalled;
      NoAbortIsExclusive(Apply(s, steps[0]), steps[1..]);
    }
  }

  /** One of two aborts under way comes back. */
  lemma FirstAbortEnds(s: System, a: nat) returns (steps: seq<Step>, t: System)
    requires a < |s.aborts| && Active(s.aborts[a])
    requires s.aborts[a].AwaitingTask? ==> !TaskIsLive(s, s.aborts[a].task)
    ensures Legal(s, steps) && t == Run(s, steps) && AbortCalled !in steps
    ensures t.ctrl.state == Idle && t.arming == s.arming && t.aborts == s.aborts[a := Done]
  {
    var u := s;
    steps := [];
    if s.aborts[a].AwaitingTask? {
      u := Apply(s, TaskSeenEnded(a));
      steps := [TaskSeenEnded(a)];
    }
    t := Apply(u, StopAllEnds(a, Returned));
    assert Legal(t, []) && [StopAllEnds(a, Returned)][1..] == [];
    assert Legal(u, [StopAllEnds(a, Returned)]) && Run(u, [StopAllEnds(a, Returned)]) == t;
    steps := steps + [StopAllEnds(a, Returned)];
    assert s.aborts[a].AwaitingTask? ==> steps[1..] == [StopAllEnds(a, Returned)];
    assert t.aborts == s.aborts[a := Done];
  }

  /** A Show armed and started again before a left-over `stop_all` comes back. */
  lemma NewRunLosesItsShow(s: System, b: nat, runId: string)
    requires s.ctrl.state == Idle && b < |s.aborts| && s.aborts[b] == StoppingAll
    ensures
      var steps := [ArmCalled, PrepareEnds(|s.arming|, Returned), StartCalled(runId), StopAllEnds(b, Returned)];
      Legal(s, steps) && RunTaskLive(Run(s, steps)) && Run(s, steps).ctrl.state == Idle
  {
    var n := |s.arming|;
    var s1 := Apply(s, ArmCalled);
    var s2 := Apply(s1, PrepareEnds(n, Returned));
    var s3 := Apply(s2, StartCalled(runId));
    var s4 := Apply(s3, StopAllEnds(b, Returned));
    assert Legal(s4, []);
    Joined(s3, [StopAllEnds(b, Returned)], []);
    Prepended(s2, StartCalled(runId), [StopAllEnds(b, Returned)]);
    Prepended(s1, PrepareEnds(n, Returned), [StartCalled(runId), StopAllEnds(b, Returned)]);
    Prepended(s, ArmCalled, [PrepareEnds(n, Returned), StartCalled(runId), StopAllEnds(b, Returned)]);
  }

  lemma Prepended(s: System, first: Step, rest: seq<Step>)
    requires Enabled(s, first) && Legal(Apply(s, first), rest)
    ensures Legal(s, [first] + rest) && Run(s, [first] + rest) == Run(Apply(s, first), rest)
  {
    assert ([first] + rest)[1..] == rest;
  }

  lemma {:induction false} Joined(s: System, steps: seq<Step>, more: seq<Step>)
    requires Legal(s, steps) && Legal(Run(s, steps), more)
    ensures Legal(s, steps + more) && Run(s, steps + more) == Run(Run(s, steps), more)
    decreases |steps|
  {
    if steps == [] {
      assert steps + more == more;
    } else {
      Joined(Apply(s, steps[0]), steps[1..], more);
      assert (steps + more)[1..] == steps[1..] + more;
    }
  }

  /** Runs that end cancelled when they are cancelled keep every abort in STOPPING, where no other is accepted. */
  ghost predicate AbortsStop(s: System) {
    forall b :: 0 <= b < |s.aborts| && Active(s.aborts[b]) ==> s.ctrl.state == Stopping
  }

  lemma {:induction false} ObedienceIsExclusive(s: System, steps: seq<Step>)
    requires Inv(s) && AbortsStop(s) && Legal(s, steps) && AllObedient(s, steps)
    ensures AllExclusive(s, steps) && AbortsStop(Run(s, steps))
    decreases |steps|
  {
    if steps != [] {
      StepKeeps(s, steps[0]);
      ObedienceIsExclusive(Apply(s, steps[0]), steps[1..]);
    }
  }

  // ---- the history, as a diagram ----

  /** The state according to all that was seen. */
  function PhaseOf(marks: seq<Mark>): ShowState {
    if marks == [] then Idle
    else
      var before := PhaseOf(marks[..|marks| - 1]);
      match marks[|marks| - 1]
      case ArmCall(true) => Preparing
      case PrepareEnd(Returned) => Armed
      case PrepareEnd(Raised(_)) => Idle
      case StartCall(_, true) => Running
      case RunEnd(Returned) => if before == Running || before == Holding then Idle else before
      case RunEnd(Raised(_)) => Faulted
      case HoldCall(true) => Holding
      case AbortCall(true) => Stopping
      case StopAllEnd(Returned) => Idle
      case _ => before
  }

  /** The error the last failure left, unless an arm or a start has cleared it. */
  function ErrorOf(marks: seq<Mark>): Option<string> {
    if marks == [] then None
    else
      match marks[|marks| - 1]
      case PrepareEnd(Raised(message)) => Some(message)
      case PrepareEnd(Returned) => None
      case StartCall(_, true) => None
      case RunEnd(Raised(message)) => Some(message)
      case _ => ErrorOf(marks[..|marks| - 1])
  }

  /** The run id of the last successful start. */
  function RunIdOf(marks: seq<Mark>): Option<string> {
    if marks == [] then None
    else if marks[|marks| - 1].StartCall? && marks[|marks| - 1].accepted then Some(marks[|marks| - 1].runId)
    else RunIdOf(marks[..|marks| - 1])
  }

  /** A call is accepted exactly in the states it is for. */
  predicate Welcome(marks: seq<Mark>, k: nat)
    requires k < |marks|
  {
    var phase := PhaseOf(marks[..k]);
    match marks[k]
    case ArmCall(accepted) => accepted == (phase == Idle)
    case StartCall(_, accepted) => accepted == (phase == Armed)
    case HoldCall(accepted) => accepted == (phase == Running)
    case AbortCall(accepted) => accepted == (phase == Running || phase == Holding || phase == Faulted)
    case _ => true
  }

  ghost predicate FollowsDiagram(s: System) {
    && s.ctrl.state == PhaseOf(s.marks)
    && s.ctrl.lastError == ErrorOf(s.marks)
    && s.ctrl.runId == RunIdOf(s.marks)
    && forall k :: 0 <= k < |s.marks| ==> Welcome(s.marks, k)
  }

  lemma HistoryNext(marks: seq<Mark>, mark: Mark)
    ensures
      var before := PhaseOf(marks);
      PhaseOf(marks + [mark]) ==
        match mark
        case ArmCall(true) => Preparing
        case PrepareEnd(Returned) => Armed
        case PrepareEnd(Raised(_)) => Idle
        case StartCall(_, true) => Running
        case RunEnd(Returned) => if before == Running || before == Holding then Idle else before
        case RunEnd(Raised(_)) => Faulted
        case HoldCall(true) => Holding
        case AbortCall(true) => Stopping
        case StopAllEnd(Returned) => Idle
        case _ => before
    ensures ErrorOf(marks + [mark]) ==
      match mark
      case PrepareEnd(Raised(message)) => Some(message)
      case PrepareEnd(Returned) => None
      case StartCall(_, true) => None
      case RunEnd(Raised(message)) => Some(message)
      case _ => ErrorOf(marks)
    ensures RunIdOf(marks + [mark]) ==
      if mark.StartCall? && mark.accepted then Some(mark.runId) else RunIdOf(marks)
  {
    assert (marks + [mark])[..|marks|] == marks;
  }

  lemma WelcomeNext(marks: seq<Mark>, mark: Mark)
    requires forall k :: 0 <= k < |marks| ==> Welcome(marks, k)
    requires
      match mark
      case ArmCall(accepted) => accepted == (PhaseOf(marks) == Idle)
      case StartCall(_, accepted) => accepted == (PhaseOf(marks) == Armed)
      case HoldCall(accepted) => accepted == (PhaseOf(marks) == Running)
      case AbortCall(accepted) => accepted == (PhaseOf(marks) in {Running, Holding, Faulted})
      case _ => true
    ensures forall k :: 0 <= k <= |marks| ==> Welcome(marks + [mark], k)
  {
    hide PhaseOf;
    var longer := marks + [mark];
    assert longer[..|marks|] == marks;
    forall k | 0 <= k < |marks| ensures Welcome(longer, k) {
      assert Welcome(marks, k);
      assert longer[..k] == marks[..k];
    }
  }

  lemma StepFollows(s: System, step: Step)
    requires FollowsDiagram(s) && Enabled(s, step)
    ensures FollowsDiagram(Apply(s, step))
  {
    hide PhaseOf, ErrorOf, RunIdOf, Welcome;
    var t := Apply(s, step);
    if !step.TaskSeenEnded? {
      var mark := t.marks[|s.marks|];
      assert t.marks == s.marks + [mark];
      HistoryNext(s.marks, mark);
      WelcomeNext(s.marks, mark);
    }
  }

  /** In every run whatsoever, state, error and run id are those of the history, and every call was accepted or
      refused as the diagram says. */
  lemma {:induction false} HistoryTellsTheState(s: System, steps: seq<Step>)
    requires FollowsDiagram(s) && Legal(s, steps)
    ensures FollowsDiagram(Run(s, steps))
    decreases |steps|
  {
    if steps != [] {
      StepFollows(s, steps[0]);
      HistoryTellsTheState(Apply(s, steps[0]), steps[1..]);
    }
  }

  /** In every run whatsoever there is a successful arm between two successful starts. */
  lemma StartsNeedArms(steps: seq<Step>, i: nat, j: nat)
    requires Legal(Initial(), steps)
    requires var marks := Run(Initial(), steps).marks;
      && i < j < |marks| && marks[i].StartCall? && marks[i].accepted && marks[j].StartCall? && marks[j].accepted
    ensures var marks := Run(Initial(), steps).marks; exists k :: i < k < j && marks[k] == PrepareEnd(Returned)
  {
    HistoryTellsTheState(Initial(), steps);
    var marks := Run(Initial(), steps).marks;
    assert Welcome(marks, j);
    assert marks[..i + 1][..i] == marks[..i];
    ArmedSince(marks, i, j);
  }

  /** ARMED means that nothing but refused calls and idle ends happened since a successful arm. */
  lemma {:induction false} ArmedSince(marks: seq<Mark>, i: nat, j: nat)
    requires i < j <= |marks| && PhaseOf(marks[..i + 1]) != Armed && PhaseOf(marks[..j]) == Armed
    ensures exists k :: i < k < j && marks[k] == PrepareEnd(Returned)
    decreases j
  {
    assert marks[..j][..j - 1] == marks[..j - 1];
    if marks[j - 1] != PrepareEnd(Returned) {
      ArmedSince(marks, i, j - 1);
    }
  }

  /** What the run's hold check sees agrees with the state. */
  predicate HoldFits(c: Controller) {
    (c.state == Running ==> !c.holdRequested) && (c.state == Holding ==> c.holdRequested)
  }

  /** In every run, RUNNING means that no hold is requested and HOLDING that one is: a start forgets earlier holds. */
  lemma {:induction false} HoldIsSeen(s: System, steps: seq<Step>)
    requires HoldFits(s.ctrl) && Legal(s, steps)
    ensures HoldFits(Run(s, steps).ctrl)
    decreases |steps|
  {
    if steps != [] {
      HoldIsSeen(Apply(s, steps[0]), steps[1..]);
    }
  }

  // ---- the way out ----

  /** A running, holding or faulted Show gets back to IDLE, with no run task left, as soon as its cancelled
      run and `stop_all` let it, by the abort already under way or by a new one: holding is never a dead end. */
  lemma AbortLeadsToIdle(s: System) returns (steps: seq<Step>)
    requires Inv(s) && (s.ctrl.state == Running || s.ctrl.state == Holding || s.ctrl.state == Faulted)
    ensures Legal(s, steps) && AllExclusive(s, steps) && AllObedient(s, steps) && |steps| <= 4
    ensures Run(s, steps).ctrl.state == Idle && !RunTaskLive(Run(s, steps)) && Inv(Run(s, steps))
  {
    if a :| 0 <= a < |s.aborts| && Active(s.aborts[a]) {
      steps := AbortComesBack(s, a);
    } else {
      var b, s1 := |s.aborts|, Apply(s, AbortCalled);
      StepKeeps(s, AbortCalled);
      if RunTaskLive(s) {
        var t := s.ctrl.runTask.value;
        var s2 := Apply(s1, RunEnds(t, WasCancelled));
        StepKeeps(s1, RunEnds(t, WasCancelled));
        var rest := AbortComesBack(s2, b);
        Prepend(s1, RunEnds(t, WasCancelled), rest);
        steps := [RunEnds(t, WasCancelled)] + rest;
      } else {
        steps := AbortComesBack(s1, b);
      }
      Prepend(s, AbortCalled, steps);
      steps := [AbortCalled] + steps;
    }
  }

  lemma Prepend(s: System, first: Step, rest: seq<Step>)
    requires Enabled(s, first) && Exclusive(s, first) && Obedient(s, first)
    requires Legal(Apply(s, first), rest) && AllExclusive(Apply(s, first), rest) && AllObedient(Apply(s, first), rest)
    ensures Legal(s, [first] + rest) && AllExclusive(s, [first] + rest) && AllObedient(s, [first] + rest)
    ensures Run(s, [first] + rest) == Run(Apply(s, first), rest)
  {
    assert ([first] + rest)[1..] == rest;
  }

  lemma {:induction false} AbortComesBack(s: System, b: nat) returns (steps: seq<Step>)
    requires Inv(s) && b < |s.aborts| && Active(s.aborts[b]) && !RunTaskLive(s)
    ensures Legal(s, steps) && AllExclusive(s, steps) && AllObedient(s, steps) && |steps| <= 2
    ensures Run(s, steps).ctrl.state == Idle && !RunTaskLive(Run(s, steps)) && Inv(Run(s, steps))
  {
    var u := s;
    if s.aborts[b].AwaitingTask? {
      u := Apply(s, TaskSeenEnded(b));
      StepKeeps(s, TaskSeenEnded(b));
    }
    var t := Apply(u, StopAllEnds(b, Returned));
    StepKeeps(u, StopAllEnds(b, Returned));
    assert Legal(t, []) && Run(t, []) == t;
    Prepend(u, StopAllEnds(b, Returned), []);
    steps := [StopAllEnds(b, Returned)] + [];
    if s.aborts[b].AwaitingTask? {
      Prepend(s, TaskSeenEnded(b), steps);
      steps := [TaskSeenEnded(b)] + steps;
    }
  }

  // ---- such overlaps do occur ----

  lemma Extend(steps: seq<Step>, s: System, next: Step) returns (longer: seq<Step>, t: System)
    requires Legal(Initial(), steps) && Run(Initial(), steps) == s && Enabled(s, next)
    requires AllExclusive(Initial(), steps) && Exclusive(s, next)
    ensures longer == steps + [next] && t == Apply(s, next)
    ensures Legal(Initial(), longer) && Run(Initial(), longer) == t && AllExclusive(Initial(), longer)
  {
    ExtendFrom(Initial(), steps, next);
    longer, t := steps + [next], Apply(s, next);
  }

  lemma {:induction false} ExtendFrom(s: System, steps: seq<Step>, next: Step)
    requires Legal(s, steps) && AllExclusive(s, steps) && Enabled(Run(s, steps), next) && Exclusive(Run(s, steps), next)
    ensures Legal(s, steps + [next]) && AllExclusive(s, steps + [next])
    ensures Run(s, steps + [next]) == Apply(Run(s, steps), next)
    decreases |steps|
  {
    if steps == [] {
      assert steps + [next] == [next] && [next][1..] == [];
      assert Legal(Apply(s, next), []);
    } else {
      ExtendFrom(Apply(s, steps[0]), steps[1..], next);
      assert (steps + [next])[1..] == steps[1..] + [next];
    }
  }

  /** A Show armed and started: its task 0 is live. */
  lemma StartedOnce() returns (steps: seq<Step>, s: System)
    ensures Legal(Initial(), steps) && AllExclusive(Initial(), steps) && Run(Initial(), steps) == s
    ensures s == System(Controller(Running, Some("1"), None, false, Some(0)),
                        [Live(false)], [Prepared(Returned)], [],
                        [ArmCall(true), PrepareEnd(Returned), StartCall("1", true)])
  {
    var s1, s2;
    steps, s1 := Extend([], Initial(), ArmCalled);
    steps, s2 := Extend(steps, s1, PrepareEnds(0, Returned));
    steps, s := Extend(steps, s2, StartCalled("1"));
  }

  /** A cancelled run that raises turns STOPPING into FAULTED, where the next abort is accepted although the
      first one is still under way. */
  lemma DisobedienceAdmitsOverlap() returns (steps: seq<Step>)
    ensures Legal(Initial(), steps) && AllExclusive(Initial(), steps)
    ensures Inv(Run(Initial(), steps)) && !Exclusive(Run(Initial(), steps), AbortCalled)
  {
    var s3, s4, s5;
    steps, s3 := StartedOnce();
    steps, s4 := Extend(steps, s3, AbortCalled);
    steps, s5 := Extend(steps, s4, RunEnds(0, Raised("clean-up failed")));
    assert Active(s5.aborts[0]);
    RunKeeps(Initial(), steps);
  }
}
