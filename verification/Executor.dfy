/** The Timeline executor's own code: what each cue task and each listener task does between two
    `await`s, as functions of the executor's three dictionaries, and the class that performs them. */
module TimelineExecution {
  import opened Common
  import opened TimelineContract

  const POLL_MS: real := 20.0

  /** Commands are numbered in the order the Runtimes accept them: every id is fresh. */
  type CommandId = nat

  datatype Outcome = Succeeded | Failed | Cancelled | Expired | Rejected | Unknown | Skipped

  datatype Detail =
    | NoDetail
    | DependencyFailed(dependency: string)
    | LateBy(ms: real)
    | LateAbort(ms: real)
    | Held
    | CommandError

  datatype CueOutcome = CueOutcome(cueId: string, outcome: Outcome, detail: Detail)

  datatype Future = Unresolved | Resolved(outcome: Outcome)

  datatype Event = Completed(command: CommandId, outcome: Outcome) | StatusChanged

  /** What `submit_command` gives the cue: an error, or a command and its outcome if already TERMINAL. */
  datatype Reply = Refused | Accepted(command: CommandId, terminal: Option<Outcome>)

  /** Where a cue task is suspended, with the local values that survive the suspension. */
  datatype Pc =
    | AwaitDependency(index: nat)
    | Sleeping(wakeAt: real)
    | Requested
    | Executing(command: CommandId)
    | Replied(reply: Reply)
    | ReadSent(command: CommandId)
    | ReadReplied(command: CommandId, terminal: Option<Outcome>)
    | AwaitFuture(command: CommandId)
    | Finished
    | Aborted
    | Crashed

  /** The executor's dictionaries: `outcomes`, the ids whose done-event is set, and `_pending`. */
  datatype Exec = Exec(outcomes: map<string, CueOutcome>, done: set<string>, pending: map<CommandId, Future>)

  // ---- the code between two awaits, as functions ----

  function FinishSpec(x: Exec, id: string, outcome: Outcome, detail: Detail): Exec {
    x.(outcomes := x.outcomes[id := CueOutcome(id, outcome, detail)], done := x.done + {id})
  }

  predicate SucceededIn(x: Exec, id: string) {
    id in x.outcomes && x.outcomes[id].outcome == Succeeded
  }

  function DependencySpec(x: Exec, cue: Cue, k: nat): (Exec, Pc)
    requires k < |cue.dependsOn|
  {
    var dep := cue.dependsOn[k];
    if SucceededIn(x, dep) then (x, AwaitDependency(k + 1))
    else (FinishSpec(x, cue.cueId, Skipped, DependencyFailed(dep)), Finished)
  }

  function Deadline(start: real, cue: Cue): real {
    start + cue.atMs as real
  }

  function Min(a: real, b: real): real {
    if a < b then a else b
  }

  function FireSpec(x: Exec, cue: Cue, start: real, now: real, held: bool): (Exec, Pc) {
    var deadline := Deadline(start, cue);
    if now < deadline then
      (x, Sleeping(now + Min(POLL_MS, deadline - now)))
    else if now - deadline > cue.latePolicy.maxLatenessMs as real then
      if cue.latePolicy.mode == Skip
      then (FinishSpec(x, cue.cueId, Skipped, LateBy(now - deadline)), Finished)
      else (FinishSpec(x, cue.cueId, Failed, LateAbort(now - deadline)), Aborted)
    else if held then
      (FinishSpec(x, cue.cueId, Skipped, Held), Finished)
    else
      (x, Requested)
  }

  function ReplySpec(x: Exec, cue: Cue, reply: Reply): (Exec, Pc) {
    match reply
    case Refused => (FinishSpec(x, cue.cueId, Failed, CommandError), Finished)
    case Accepted(_, Some(outcome)) => (FinishSpec(x, cue.cueId, outcome, NoDetail), Finished)
    case Accepted(command, None) => (x.(pending := x.pending[command := Unresolved]), ReadSent(command))
  }

  /** `future.set_result` guarded by `not future.done()`. */
  function Resolve(pending: map<CommandId, Future>, command: CommandId, outcome: Outcome): map<CommandId, Future> {
    if command in pending && pending[command].Unresolved? then pending[command := Resolved(outcome)] else pending
  }

  function RecordSpec(x: Exec, command: CommandId, terminal: Option<Outcome>): (Exec, Pc) {
    if terminal.Some?
    then (x.(pending := Resolve(x.pending, command, terminal.value)), AwaitFuture(command))
    else (x, AwaitFuture(command))
  }

  function FutureSpec(x: Exec, cue: Cue, outcome: Outcome): (Exec, Pc) {
    (FinishSpec(x, cue.cueId, outcome, NoDetail), Finished)
  }

  function EventSpec(x: Exec, event: Event): Exec {
    match event
    case Completed(command, outcome) => x.(pending := Resolve(x.pending, command, outcome))
    case StatusChanged => x
  }

  function ResyncSpec(x: Exec): Exec {
    x.(pending := map c | c in x.pending :: if x.pending[c].Unresolved? then Resolved(Unknown) else x.pending[c])
  }

  // ---- the same code, on the executor's fields ----

  class TimelineExecutor {
    var outcomes: map<string, CueOutcome>
    var doneEvents: set<string>
    var pending: map<CommandId, Future>

    function View(): Exec
      reads this
    {
      Exec(outcomes, doneEvents, pending)
    }

    constructor ()
      ensures View() == Exec(map[], {}, map[])
    {
      outcomes, doneEvents, pending := map[], {}, map[];
    }

    method Finish(cue: Cue, outcome: Outcome, detail: Detail)
      modifies this`outcomes, this`doneEvents
      ensures View() == FinishSpec(old(View()), cue.cueId, outcome, detail)
    {
      outcomes := outcomes[cue.cueId := CueOutcome(cue.cueId, outcome, detail)];
      doneEvents := doneEvents + {cue.cueId};
    }

    /** After the done-event of dependency `k` was set. */
    method CheckDependency(cue: Cue, k: nat) returns (pc: Pc)
      requires k < |cue.dependsOn|
      modifies this
      ensures (View(), pc) == DependencySpec(old(View()), cue, k)
    {
      var dep := cue.dependsOn[k];
      if dep !in outcomes || outcomes[dep].outcome != Succeeded {
        Finish(cue, Skipped, DependencyFailed(dep));
        return Finished;
      }
      pc := AwaitDependency(k + 1);
    }

    /** From the last dependency, or a wake-up, to the next sleep, the end, or the submit request. */
    method FireOrWait(cue: Cue, start: real, now: real, held: bool) returns (pc: Pc)
      modifies this
      ensures (View(), pc) == FireSpec(old(View()), cue, start, now, held)
    {
      var deadline := start + cue.atMs as real;
      if now < deadline {
        return Sleeping(now + Min(POLL_MS, deadline - now));
      }
      var lateness := now - deadline;
      if lateness > cue.latePolicy.maxLatenessMs as real {
        if cue.latePolicy.mode == Skip {
          Finish(cue, Skipped, LateBy(lateness));
          return Finished;
        }
        Finish(cue, Failed, LateAbort(lateness));
        return Aborted;
      }
      if held {
        Finish(cue, Skipped, Held);
        return Finished;
      }
      pc := Requested;
    }

    method OnReply(cue: Cue, reply: Reply) returns (pc: Pc)
      modifies this
      ensures (View(), pc) == ReplySpec(old(View()), cue, reply)
    {
      if reply.Refused? {
        Finish(cue, Failed, CommandError);
        return Finished;
      }
      if reply.terminal.Some? {
        Finish(cue, reply.terminal.value, NoDetail);
        return Finished;
      }
      pending := pending[reply.command := Unresolved];
      pc := ReadSent(reply.command);
    }

    method OnRecord(command: CommandId, terminal: Option<Outcome>) returns (pc: Pc)
      modifies this
      ensures (View(), pc) == RecordSpec(old(View()), command, terminal)
    {
      if command in pending && pending[command].Unresolved? && terminal.Some? {
        pending := pending[command := Resolved(terminal.value)];
      }
      pc := AwaitFuture(command);
    }

    method OnFuture(cue: Cue, outcome: Outcome) returns (pc: Pc)
      modifies this
      ensures (View(), pc) == FutureSpec(old(View()), cue, outcome)
    {
      Finish(cue, outcome, NoDetail);
      pc := Finished;
    }

    method OnEvent(event: Event)
      modifies this`pending
      ensures View() == EventSpec(old(View()), event)
    {
      if event.StatusChanged? {
        return;
      }
      if event.command in pending && pending[event.command].Unresolved? {
        pending := pending[event.command := Resolved(event.outcome)];
      }
    }

    /** The listener's `except ResyncRequired`: every unresolved future, whichever Runtime it waits on. */
    method OnResync()
      modifies this`pending
      ensures View() == ResyncSpec(old(View()))
    {
      var todo := pending.Keys;
      ghost var before := pending;
      while todo != {}
        invariant todo <= before.Keys == pending.Keys
        invariant forall c :: c in todo ==> pending[c] == before[c]
        invariant forall c :: c in before && c !in todo ==>
          pending[c] == (if before[c].Unresolved? then Resolved(Unknown) else before[c])
      {
        var c :| c in todo;
        if pending[c].Unresolved? {
          pending := pending[c := Resolved(Unknown)];
        }
        todo := todo - {c};
      }
    }
  }
}
