/** One target's runner: it serialises commands and invalidates them by generation number. */
module TargetRunning {
  import opened Common
  import opened CommandContract

  const OBSERVE_TIMEOUT_S := 10.0

  datatype Priority = Normal | Control

  datatype Runner = Runner(generation: nat, active: Option<nat>)

  /** The task that drives a command: suspended in `adapter.execute`, or polling for completion. Its
      deadline is fixed when it first runs. */
  datatype Task = Executing(generation: nat) | Polling(generation: nat, deadline: Option<real>) | NoTask

  /** What the adapter says when it is asked whether the action is complete. */
  datatype Probe = Complete | NotYet | ProbeRaised(message: string)

  /** What one step of a command touches: its target's runner, its record, the events published. */
  datatype Slice = Slice(runner: Runner, record: Record, events: seq<Event>)

  function Touched(x: Slice, c: nat): Slice {
    x.(events := x.events + [Announcement(c, x.record)])
  }

  function Moved(x: Slice, c: nat, status: Status): Slice {
    Touched(x.(record := x.record.(status := status)), c)
  }

  function Finished(x: Slice, c: nat, outcome: Outcome, achieved: Option<Requirement>): Slice {
    var y := Touched(x.(record := x.record.(status := Terminal, outcome := Some(outcome), achieved := achieved)), c);
    if y.runner.active == Some(c) then y.(runner := y.runner.(active := None)) else y
  }

  function Bumped(run: Runner): Runner {
    run.(generation := run.generation + 1)
  }

  /** From `submit` to the await of `adapter.execute`; `priority` is what the manifest says of the action. */
  function SubmitSpec(x: Slice, c: nat, busy: bool, priority: Option<Priority>): (Slice, Result<Task, Error>) {
    if priority == None then (x, Err(UnknownAction))
    else if busy && priority != Some(Control) then (x, Err(Busy))
    else
      var run := if busy then Bumped(x.runner) else x.runner;
      var y := x.(runner := run.(active := Some(c)), record := x.record.(generation := run.generation));
      (Moved(y, c, Dispatching), Ok(Executing(run.generation)))
  }

  /** From the end of `adapter.execute` to the end of `submit`. */
  function ExecuteEndSpec(x: Slice, c: nat, generation: nat, how: Ending): (Slice, Task) {
    match how
    case WasCancelled => (Finished(x, c, Cancelled, None), NoTask)
    case Raised(message) => (Finished(x.(record := x.record.(error := Some(message))), c, Failed, None), NoTask)
    case Returned =>
      var dispatched := Moved(x, c, Dispatched);
      if x.record.what.requirement == UntilDispatched then
        (Finished(dispatched, c, Succeeded, Some(UntilDispatched)), NoTask)
      else
        var acknowledged := Moved(dispatched, c, Acknowledged);
        if x.record.what.requirement == UntilAcknowledged then
          (Finished(acknowledged, c, Succeeded, Some(UntilAcknowledged)), NoTask)
        else (Moved(acknowledged, c, Observing), Polling(generation, None))
  }

  function Deadline(task: Task, now: real): real
    requires task.Polling?
  {
    if task.deadline.Some? then task.deadline.value else now + OBSERVE_TIMEOUT_S
  }

  /** One round of the observing loop, up to its sleep or its end. */
  function PollSpec(x: Slice, c: nat, task: Task, now: real, probe: Probe): (Slice, Task)
    requires task.Polling?
  {
    if Deadline(task, now) <= now then (Finished(x, c, Expired, None), NoTask)
    else if task.generation != x.runner.generation then (Finished(x, c, Cancelled, None), NoTask)
    else match probe
      case Complete => (Finished(x, c, Succeeded, Some(UntilObserved)), NoTask)
      case NotYet => (x, task.(deadline := Some(Deadline(task, now))))
      case ProbeRaised(message) => (Finished(x.(record := x.record.(error := Some(message))), c, Failed, None), NoTask)
  }

  class TargetRunner {
    const changes: EventLog
    var active: CommandRecord?
    var generation: nat

    function View(): Runner
      reads this
    {
      Runner(generation, if active == null then None else Some(active.number))
    }

    function SliceOf(record: CommandRecord): Slice
      reads this, record, changes
    {
      Slice(View(), record.View(), changes.events)
    }

    /** Command numbers tell records apart. */
    predicate Knows(record: CommandRecord)
      reads this
    {
      active != null && active.number == record.number ==> active == record
    }

    predicate IsBusy()
      reads this, active
    {
      active != null && active.status != Terminal
    }

    constructor (changes: EventLog)
      ensures this.changes == changes && View() == Runner(1, None)
    {
      this.changes := changes;
      active, generation := null, 1;
    }

    method BumpGeneration()
      modifies this`generation
      ensures View() == Bumped(old(View()))
    {
      generation := generation + 1;
    }

    method Touch(record: CommandRecord)
      modifies changes
      ensures SliceOf(record) == Touched(old(SliceOf(record)), record.number)
    {
      changes.Publish(Announcement(record.number, record.View()));
    }

    method Finish(record: CommandRecord, outcome: Outcome, achieved: Option<Requirement>)
      requires Knows(record)
      modifies this`active, record, changes
      ensures SliceOf(record) == Finished(old(SliceOf(record)), record.number, outcome, achieved)
      ensures active == null || active == old(active)
    {
      record.status := Terminal;
      record.outcome := Some(outcome);
      record.achieved := achieved;
      Touch(record);
      if active == record {
        active := null;
      }
    }

    method Submit(record: CommandRecord, priority: Option<Priority>) returns (r: Result<Task, Error>)
      requires Knows(record)
      modifies this, record, changes
      ensures (SliceOf(record), r) == SubmitSpec(old(SliceOf(record)), record.number, old(IsBusy()), priority)
      ensures active == if r.Ok? then record else old(active)
    {
      if priority == None {
        return Err(UnknownAction);
      }
      if IsBusy() && priority != Some(Control) {
        return Err(Busy);
      }
      if IsBusy() && priority == Some(Control) {
        BumpGeneration();
      }
      record.generation := generation;
      active := record;
      record.status := Dispatching;
      Touch(record);
      r := Ok(Executing(record.generation));
    }

    method ExecuteEnd(record: CommandRecord, atSubmit: nat, how: Ending) returns (task: Task)
      requires Knows(record)
      modifies this`active, record, changes
      ensures (SliceOf(record), task) == ExecuteEndSpec(old(SliceOf(record)), record.number, atSubmit, how)
      ensures active == null || active == old(active)
    {
      task := NoTask;
      match how {
        case WasCancelled =>
          Finish(record, Cancelled, None);
        case Raised(message) =>
          record.error := Some(message);
          Finish(record, Failed, None);
        case Returned =>
          record.status := Dispatched;
          Touch(record);
          if record.what.requirement == UntilDispatched {
            Finish(record, Succeeded, Some(UntilDispatched));
            return;
          }
          record.status := Acknowledged;
          Touch(record);
          if record.what.requirement == UntilAcknowledged {
            Finish(record, Succeeded, Some(UntilAcknowledged));
            return;
          }
          record.status := Observing;
          Touch(record);
          task := Polling(atSubmit, None);
      }
    }

    method Poll(record: CommandRecord, task: Task, now: real, probe: Probe) returns (next: Task)
      requires Knows(record) && task.Polling?
      modifies this`active, record, changes
      ensures (SliceOf(record), next) == PollSpec(old(SliceOf(record)), record.number, task, now, probe)
      ensures active == null || active == old(active)
    {
      next := NoTask;
      var deadline := if task.deadline.Some? then task.deadline.value else now + OBSERVE_TIMEOUT_S;
      if !(now < deadline) {
        Finish(record, Expired, None);
        return;
      }
      if task.generation != generation {
        Finish(record, Cancelled, None);
        return;
      }
      match probe {
        case Complete =>
          Finish(record, Succeeded, Some(UntilObserved));
        case NotYet =>
          next := Polling(task.generation, Some(deadline));
        case ProbeRaised(message) =>
          record.error := Some(message);
          Finish(record, Failed, None);
      }
    }
  }
}
