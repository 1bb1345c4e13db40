/** The command contract: requests, records, their lifecycle and the events that announce it. */
module CommandContract {
  import opened Common

  datatype Requirement = UntilDispatched | UntilAcknowledged | UntilObserved

  datatype Status = Queued | Dispatching | Dispatched | Acknowledged | Observing | Terminal

  datatype Outcome = Succeeded | Failed | Cancelled | Expired | Rejected

  datatype Error =
    | UnknownTarget
    | ControlSessionRequired
    | ControlSessionInvalid
    | ControlSessionExpired
    | RequestIdConflict
    | UnknownAction
    | Busy

  /** What a request id stands for. */
  datatype Fingerprint = Fingerprint(
    target: string,
    action: string,
    params: map<string, string>,
    requirement: Requirement)

  /** `session` is the number of the control session the client claims to hold. */
  datatype Request = Request(id: string, session: Option<nat>, what: Fingerprint)

  datatype Record = Record(
    requestId: string,
    what: Fingerprint,
    generation: nat,
    status: Status,
    outcome: Option<Outcome>,
    achieved: Option<Requirement>,
    error: Option<string>)

  /** Commands are numbered in order of acceptance. */
  datatype Event =
    | StatusChanged(command: nat, status: Status)
    | Completed(command: nat, outcome: Option<Outcome>, achieved: Option<Requirement>)

  function Announcement(c: nat, r: Record): Event {
    if r.status == Terminal then Completed(c, r.outcome, r.achieved) else StatusChanged(c, r.status)
  }

  /** A command's record, shared by the ledger, the runner and the task that executes it. */
  class CommandRecord {
    const number: nat
    const requestId: string
    const what: Fingerprint
    var generation: nat
    var status: Status
    var outcome: Option<Outcome>
    var achieved: Option<Requirement>
    var error: Option<string>

    function View(): Record
      reads this
    {
      Record(requestId, what, generation, status, outcome, achieved, error)
    }

    constructor (number: nat, requestId: string, what: Fingerprint, generation: nat)
      ensures this.number == number
      ensures View() == Record(requestId, what, generation, Queued, None, None, None)
    {
      this.number, this.requestId, this.what, this.generation := number, requestId, what, generation;
      status, outcome, achieved, error := Queued, None, None, None;
    }
  }

  /** Everything published so far; an event's sequence number is its position, from 1. */
  class EventLog {
    var events: seq<Event>

    constructor ()
      ensures events == []
    {
      events := [];
    }

    method Publish(e: Event)
      modifies this
      ensures events == old(events) + [e]
    {
      events := events + [e];
    }
  }
}
