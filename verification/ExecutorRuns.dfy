/** Every interleaving of cue tasks, listener tasks, Runtimes and the clock, and the safety
    properties that hold in all of them. */
module TimelineRuns {
  import opened Common
  import opened TimelineContract
  import opened TimelineExecution

  /** A Timeline and the names of the Runtimes it has clients for. */
  datatype Plan = Plan(cues: seq<Cue>, runtimes: seq<string>)

  /** How a command ended, and where its completion stands in its Runtime's event history. */
  datatype Ending = Ending(outcome: Outcome, index: nat)

  datatype Command = Command(cue: nat, runtime: nat, ending: Option<Ending>)

  /** A Runtime's events since the snapshot, how many of them its listener has handled,
      and whether that listener still runs. */
  datatype Channel = Channel(published: seq<Event>, read: nat, live: bool)

  datatype Submission = Submission(cue: nat, at: real)

  datatype State = State(
    now: real,
    start: real,
    pcs: seq<Pc>,
    exec: Exec,
    commands: seq<Command>,
    channels: seq<Channel>,
    submissions: seq<Submission>,
    resynced: bool)

  datatype Step =
    | DependencyReady(cue: nat)
    | TimerDue(cue: nat, held: bool)
    | ServerAccepts(cue: nat)
    | ServerRefuses(cue: nat)
    | ServerRejects(cue: nat)
    | ServerReplies(cue: nat)
    | CommandEnds(command: CommandId, outcome: Outcome)
    | ReplyArrives(cue: nat)
    | ServerReads(cue: nat)
    | RecordArrives(cue: nat)
    | FutureReady(cue: nat)
    | EventArrives(runtime: nat)
    | ResyncArrives(runtime: nat)
    | ListenerEnds(runtime: nat)
    | TransportFails(cue: nat)
    | StatusPublished(runtime: nat)
    | Tick(to: real)

  // ---- the transition system ----

  function RuntimeIndex(names: seq<string>, name: string): (i: nat)
    ensures i <= |names| && (i < |names| <==> name in names)
    ensures i < |names| ==> names[i] == name
  {
    if names == [] then 0
    else if names[0] == name then 0
    else 1 + RuntimeIndex(names[1..], name)
  }

  function RuntimeOf(plan: Plan, cue: Cue): nat {
    RuntimeIndex(plan.runtimes, cue.runtime)
  }

  predicate Shape(plan: Plan, s: State) {
    && |s.pcs| == |plan.cues|
    && |s.channels| == |plan.runtimes|
    && s.start <= s.now
    && (forall r :: 0 <= r < |s.channels| ==> s.channels[r].read <= |s.channels[r].published|)
    && (forall c :: 0 <= c < |s.commands| ==> CommandShape(plan, s.commands[c]))
  }

  predicate CommandShape(plan: Plan, c: Command) {
    && c.cue < |plan.cues|
    && c.runtime < |plan.runtimes|
    && c.runtime == RuntimeOf(plan, plan.cues[c.cue])
  }

  predicate AtTimer(plan: Plan, s: State, i: nat)
    requires Shape(plan, s) && i < |s.pcs|
  {
    || s.pcs[i] == AwaitDependency(|plan.cues[i].dependsOn|)
    || (s.pcs[i].Sleeping? && s.pcs[i].wakeAt <= s.now)
  }

  predicate Enabled(plan: Plan, s: State, step: Step)
    requires Shape(plan, s)
  {
    match step
    case DependencyReady(i) =>
      i < |s.pcs| && s.pcs[i].AwaitDependency? && s.pcs[i].index < |plan.cues[i].dependsOn| &&
      plan.cues[i].dependsOn[s.pcs[i].index] in s.exec.done
    case TimerDue(i, _) => i < |s.pcs| && AtTimer(plan, s, i)
    case ServerAccepts(i) => i < |s.pcs| && s.pcs[i].Requested? && plan.cues[i].runtime in plan.runtimes
    case ServerRefuses(i) => i < |s.pcs| && s.pcs[i].Requested? && plan.cues[i].runtime in plan.runtimes
    case ServerRejects(i) => i < |s.pcs| && s.pcs[i].Executing? && Running(s, s.pcs[i].command)
    case ServerReplies(i) => i < |s.pcs| && s.pcs[i].Executing? && s.pcs[i].command < |s.commands|
    case CommandEnds(c, outcome) => Running(s, c) && outcome != Skipped
    case ReplyArrives(i) => i < |s.pcs| && s.pcs[i].Replied?
    case ServerReads(i) => i < |s.pcs| && s.pcs[i].ReadSent? && s.pcs[i].command < |s.commands|
    case RecordArrives(i) => i < |s.pcs| && s.pcs[i].ReadReplied?
    case FutureReady(i) =>
      i < |s.pcs| && s.pcs[i].AwaitFuture? &&
      s.pcs[i].command in s.exec.pending && s.exec.pending[s.pcs[i].command].Resolved?
    case EventArrives(r) => r < |s.channels| && s.channels[r].live && s.channels[r].read < |s.channels[r].published|
    case ResyncArrives(r) => r < |s.channels| && s.channels[r].live
    case ListenerEnds(r) => r < |s.channels| && s.channels[r].live
    case TransportFails(i) =>
      i < |s.pcs| && (s.pcs[i].Requested? || s.pcs[i].Executing? || s.pcs[i].Replied?
                      || s.pcs[i].ReadSent? || s.pcs[i].ReadReplied?)
    case StatusPublished(r) => r < |s.channels|
    case Tick(to) => s.now <= to
  }

  predicate Running(s: State, c: CommandId) {
    c < |s.commands| && s.commands[c].ending.None?
  }

  function OutcomeNow(c: Command): Option<Outcome> {
    if c.ending.Some? then Some(c.ending.value.outcome) else None
  }

  function Move(s: State, i: nat, next: (Exec, Pc)): State
    requires i < |s.pcs|
  {
    s.(exec := next.0, pcs := s.pcs[i := next.1])
  }

  function Publish(ch: Channel, e: Event): Channel {
    ch.(published := ch.published + [e])
  }

  /** The Runtime ends a command and publishes `command.completed` in the same step. */
  function EndCommand(s: State, c: CommandId, outcome: Outcome): State
    requires c < |s.commands| && s.commands[c].runtime < |s.channels|
  {
    var r := s.commands[c].runtime;
    s.(commands := s.commands[c := s.commands[c].(ending := Some(Ending(outcome, |s.channels[r].published|)))],
       channels := s.channels[r := Publish(s.channels[r], Completed(c, outcome))])
  }

  function Apply(plan: Plan, s: State, step: Step): (t: State)
    requires Shape(plan, s) && Enabled(plan, s, step)
  {
    match step
    case DependencyReady(i) =>
      Move(s, i, DependencySpec(s.exec, plan.cues[i], s.pcs[i].index))
    case TimerDue(i, held) =>
      var t := Move(s, i, FireSpec(s.exec, plan.cues[i], s.start, s.now, held));
      if t.pcs[i].Requested? then t.(submissions := s.submissions + [Submission(i, s.now)]) else t
    case ServerAccepts(i) =>
      s.(commands := s.commands + [Command(i, RuntimeOf(plan, plan.cues[i]), None)],
         pcs := s.pcs[i := Executing(|s.commands|)])
    case ServerRefuses(i) => s.(pcs := s.pcs[i := Replied(Refused)])
    case ServerRejects(i) =>
      EndCommand(s, s.pcs[i].command, Rejected).(pcs := s.pcs[i := Replied(Refused)])
    case ServerReplies(i) =>
      var c := s.pcs[i].command;
      s.(pcs := s.pcs[i := Replied(Accepted(c, OutcomeNow(s.commands[c])))])
    case CommandEnds(c, outcome) => EndCommand(s, c, outcome)
    case ReplyArrives(i) => Move(s, i, ReplySpec(s.exec, plan.cues[i], s.pcs[i].reply))
    case ServerReads(i) =>
      var c := s.pcs[i].command;
      s.(pcs := s.pcs[i := ReadReplied(c, OutcomeNow(s.commands[c]))])
    case RecordArrives(i) => Move(s, i, RecordSpec(s.exec, s.pcs[i].command, s.pcs[i].terminal))
    case FutureReady(i) =>
      Move(s, i, FutureSpec(s.exec, plan.cues[i], s.exec.pending[s.pcs[i].command].outcome))
    case EventArrives(r) =>
      var ch := s.channels[r];
      s.(exec := EventSpec(s.exec, ch.published[ch.read]), channels := s.channels[r := ch.(read := ch.read + 1)])
    case ResyncArrives(r) =>
      s.(exec := ResyncSpec(s.exec), channels := s.channels[r := s.channels[r].(live := false)], resynced := true)
    case ListenerEnds(r) => s.(channels := s.channels[r := s.channels[r].(live := false)])
    case TransportFails(i) => s.(pcs := s.pcs[i := Crashed])
    case StatusPublished(r) => s.(channels := s.channels[r := Publish(s.channels[r], StatusChanged)])
    case Tick(to) => s.(now := to)
  }

  predicate Initial(plan: Plan, s: State) {
    && Shape(plan, s)
    && (forall i :: 0 <= i < |s.pcs| ==> s.pcs[i] == AwaitDependency(0))
    && s.exec == Exec(map[], {}, map[])
    && s.commands == []
    && (forall r :: 0 <= r < |s.channels| ==> s.channels[r] == Channel([], 0, true))
    && s.submissions == []
    && !s.resynced
  }

  // ---- what every reachable state satisfies ----

  /** The first `k` dependencies of cue `i` ended SUCCEEDED. */
  ghost predicate DepsSucceeded(plan: Plan, s: State, i: nat, k: nat)
    requires i < |plan.cues| && k <= |plan.cues[i].dependsOn|
  {
    forall j :: 0 <= j < k ==> SucceededIn(s.exec, plan.cues[i].dependsOn[j])
  }

  ghost predicate AllDepsSucceeded(plan: Plan, s: State, i: nat)
    requires i < |plan.cues|
  {
    DepsSucceeded(plan, s, i, |plan.cues[i].dependsOn|)
  }

  ghost predicate HasOutcome(plan: Plan, s: State, i: nat)
    requires i < |plan.cues|
  {
    plan.cues[i].cueId in s.exec.outcomes
  }

  ghost predicate NoCommand(s: State, i: nat) {
    forall c :: 0 <= c < |s.commands| ==> s.commands[c].cue != i
  }

  ghost predicate Owns(s: State, i: nat, c: CommandId) {
    c < |s.commands| && s.commands[c].cue == i
  }

  ghost predicate EndedWith(s: State, c: CommandId, o: Outcome) {
    c < |s.commands| && s.commands[c].ending.Some? && s.commands[c].ending.value.outcome == o
  }

  /** The completion of `c` has not passed the listener yet. */
  ghost predicate StillComing(s: State, c: CommandId) {
    && c < |s.commands|
    && s.commands[c].runtime < |s.channels|
    && (s.commands[c].ending.Some? ==> s.channels[s.commands[c].runtime].read <= s.commands[c].ending.value.index)
  }

  ghost predicate Listening(s: State, c: CommandId) {
    c < |s.commands| && s.commands[c].runtime < |s.channels| && s.channels[s.commands[c].runtime].live
  }

  /** The heart of the completion protocol: an unresolved future is never abandoned. */
  ghost predicate NotLost(s: State, c: CommandId) {
    && c in s.exec.pending
    && (s.exec.pending[c].Unresolved? && Listening(s, c) ==> StillComing(s, c))
  }

  ghost predicate PcOk(plan: Plan, s: State, i: nat)
    requires i < |plan.cues| && i < |s.pcs|
  {
    match s.pcs[i]
    case AwaitDependency(k) =>
      k <= |plan.cues[i].dependsOn| && DepsSucceeded(plan, s, i, k) && NoCommand(s, i) && !HasOutcome(plan, s, i)
    case Sleeping(_) => AllDepsSucceeded(plan, s, i) && NoCommand(s, i) && !HasOutcome(plan, s, i)
    case Requested => AllDepsSucceeded(plan, s, i) && NoCommand(s, i) && !HasOutcome(plan, s, i)
    case Executing(c) =>
      AllDepsSucceeded(plan, s, i) && Owns(s, i, c) && c !in s.exec.pending && !HasOutcome(plan, s, i)
    case Replied(Refused) => AllDepsSucceeded(plan, s, i) && !HasOutcome(plan, s, i)
    case Replied(Accepted(c, terminal)) =>
      AllDepsSucceeded(plan, s, i) && Owns(s, i, c) && c !in s.exec.pending && !HasOutcome(plan, s, i) &&
      (terminal.Some? ==> EndedWith(s, c, terminal.value))
    case ReadSent(c) =>
      AllDepsSucceeded(plan, s, i) && Owns(s, i, c) && c in s.exec.pending && !HasOutcome(plan, s, i)
    case ReadReplied(c, terminal) =>
      AllDepsSucceeded(plan, s, i) && Owns(s, i, c) && c in s.exec.pending && !HasOutcome(plan, s, i) &&
      (if terminal.Some? then EndedWith(s, c, terminal.value) else NotLost(s, c))
    case AwaitFuture(c) =>
      AllDepsSucceeded(plan, s, i) && Owns(s, i, c) && NotLost(s, c) && !HasOutcome(plan, s, i)
    case Finished => HasOutcome(plan, s, i)
    case Aborted => HasOutcome(plan, s, i) && s.exec.outcomes[plan.cues[i].cueId].outcome == Failed
    case Crashed => !HasOutcome(plan, s, i)
  }

  /** Cue `i` owns a command that ended `o`, or lost track of it in a resync. */
  ghost predicate FromServer(s: State, i: nat, o: Outcome) {
    exists c :: Owns(s, i, c) && (EndedWith(s, c, o) || (o == Unknown && s.resynced))
  }

  ghost predicate OutcomeOk(plan: Plan, s: State, i: nat)
    requires i < |plan.cues|
  {
    HasOutcome(plan, s, i) ==>
      var o := s.exec.outcomes[plan.cues[i].cueId];
      o.cueId == plan.cues[i].cueId &&
      match o.detail
      case NoDetail => AllDepsSucceeded(plan, s, i) && FromServer(s, i, o.outcome) && o.outcome != Skipped
      case DependencyFailed(dep) =>
        o.outcome == Skipped && dep in plan.cues[i].dependsOn && dep in s.exec.outcomes && !SucceededIn(s.exec, dep)
      case LateBy(ms) => o.outcome == Skipped && AllDepsSucceeded(plan, s, i)
          && ms > plan.cues[i].latePolicy.maxLatenessMs as real
      case LateAbort(ms) => o.outcome == Failed && AllDepsSucceeded(plan, s, i)
          && ms > plan.cues[i].latePolicy.maxLatenessMs as real
      case Held => o.outcome == Skipped && AllDepsSucceeded(plan, s, i)
      case CommandError => o.outcome == Failed && AllDepsSucceeded(plan, s, i)
  }

  ghost predicate PendingOk(s: State) {
    forall c :: c in s.exec.pending ==>
      && c < |s.commands|
      && (s.exec.pending[c].Resolved? ==>
        EndedWith(s, c, s.exec.pending[c].outcome) || (s.exec.pending[c].outcome == Unknown && s.resynced))
  }

  ghost predicate EventOk(s: State, r: nat, k: nat)
    requires r < |s.channels| && k < |s.channels[r].published|
  {
    var e := s.channels[r].published[k];
    e.Completed? ==>
      && e.command < |s.commands|
      && e.outcome != Skipped
      && s.commands[e.command].runtime == r
      && s.commands[e.command].ending == Some(Ending(e.outcome, k))
  }

  ghost predicate EventsOk(s: State) {
    forall r, k :: 0 <= r < |s.channels| && 0 <= k < |s.channels[r].published| ==> EventOk(s, r, k)
  }

  /** Every end of a command is announced at its index. */
  ghost predicate EndingsOk(s: State) {
    forall c :: 0 <= c < |s.commands| && s.commands[c].ending.Some? ==> Announced(s, c)
  }

  ghost predicate Announced(s: State, c: CommandId)
    requires c < |s.commands| && s.commands[c].ending.Some?
  {
    var e := s.commands[c].ending.value;
    && s.commands[c].runtime < |s.channels|
    && e.index < |s.channels[s.commands[c].runtime].published|
    && s.channels[s.commands[c].runtime].published[e.index] == Completed(c, e.outcome)
    && e.outcome != Skipped
  }

  ghost predicate OneCommandEach(s: State) {
    forall c, d :: 0 <= c < d < |s.commands| ==> s.commands[c].cue != s.commands[d].cue
  }

  ghost predicate OutcomesBelong(plan: Plan, s: State) {
    && s.exec.done == s.exec.outcomes.Keys
    && forall id :: id in s.exec.outcomes ==> HasCue(plan.cues, id)
  }

  // submissions

  ghost predicate NotYetSubmitted(pc: Pc) {
    pc.AwaitDependency? || pc.Sleeping?
  }

  ghost predicate Submitted(s: State, j: nat) {
    exists k :: 0 <= k < |s.submissions| && s.submissions[k].cue == j
  }

  ghost predicate InWindow(plan: Plan, s: State, b: Submission)
    requires b.cue < |plan.cues|
  {
    var due := s.start + plan.cues[b.cue].atMs as real;
    due <= b.at <= due + plan.cues[b.cue].latePolicy.maxLatenessMs as real
  }

  ghost predicate SubmissionOk(plan: Plan, s: State, b: Submission) {
    && b.cue < |plan.cues| && b.cue < |s.pcs|
    && InWindow(plan, s, b)
    && b.at <= s.now
    && AllDepsSucceeded(plan, s, b.cue)
    && !NotYetSubmitted(s.pcs[b.cue])
  }

  ghost predicate SubmissionsOk(plan: Plan, s: State) {
    && (forall k :: 0 <= k < |s.submissions| ==> SubmissionOk(plan, s, s.submissions[k]))
    && (forall k, l :: 0 <= k < l < |s.submissions| ==> s.submissions[k].cue != s.submissions[l].cue)
  }

  ghost predicate PcsOk(plan: Plan, s: State)
    requires Shape(plan, s)
  {
    forall i :: 0 <= i < |plan.cues| ==> PcOk(plan, s, i)
  }

  ghost predicate OutcomesOk(plan: Plan, s: State)
  {
    forall i :: 0 <= i < |plan.cues| ==> OutcomeOk(plan, s, i)
  }

  ghost predicate Inv(plan: Plan, s: State) {
    && Shape(plan, s)
    && PcsOk(plan, s)
    && OutcomesOk(plan, s)
    && PendingOk(s)
    && EventsOk(s)
    && EndingsOk(s)
    && OneCommandEach(s)
    && OutcomesBelong(plan, s)
    && SubmissionsOk(plan, s)
  }

  // ---- what steps only ever add ----

  ghost predicate CommandGrows(a: Command, b: Command) {
    a.cue == b.cue && a.runtime == b.runtime && (a.ending.Some? ==> b.ending == a.ending)
  }

  ghost predicate ChannelGrows(a: Channel, b: Channel) {
    a.published <= b.published && a.read <= b.read && (b.live ==> a.live)
  }

  /** An outcome is written once and a resolved future never changes. */
  ghost predicate ExecGrows(x: Exec, y: Exec) {
    && (forall id :: id in x.outcomes ==> id in y.outcomes && y.outcomes[id] == x.outcomes[id])
    && (forall c :: c in x.pending ==> c in y.pending)
    && (forall c :: c in x.pending && x.pending[c].Resolved? ==> y.pending[c] == x.pending[c])
  }

  /** Commands keep their owner and their end, and histories only extend. */
  ghost predicate WorldGrows(s: State, t: State) {
    && |s.commands| <= |t.commands|
    && (forall c :: 0 <= c < |s.commands| ==> CommandGrows(s.commands[c], t.commands[c]))
    && |s.channels| == |t.channels|
    && (forall r :: 0 <= r < |s.channels| ==> ChannelGrows(s.channels[r], t.channels[r]))
  }

  ghost predicate Grows(s: State, t: State) {
    && ExecGrows(s.exec, t.exec)
    && WorldGrows(s, t)
    && s.submissions <= t.submissions
    && (s.resynced ==> t.resynced)
    && s.start == t.start && s.now <= t.now
  }

  /** The cue whose task or request the step advances. */
  function Mover(step: Step): Option<nat> {
    match step
    case DependencyReady(i) => Some(i)
    case TimerDue(i, _) => Some(i)
    case ServerAccepts(i) => Some(i)
    case ServerRefuses(i) => Some(i)
    case ServerRejects(i) => Some(i)
    case ServerReplies(i) => Some(i)
    case ReplyArrives(i) => Some(i)
    case ServerReads(i) => Some(i)
    case RecordArrives(i) => Some(i)
    case FutureReady(i) => Some(i)
    case TransportFails(i) => Some(i)
    case _ => None
  }

  lemma FinishGrows(x: Exec, id: string, o: Outcome, d: Detail)
    requires id !in x.outcomes
    ensures ExecGrows(x, FinishSpec(x, id, o, d))
  {
  }

  lemma ResolveGrows(x: Exec, c: CommandId, o: Outcome)
    ensures ExecGrows(x, x.(pending := Resolve(x.pending, c, o)))
  {
  }

  lemma SegmentGrows(plan: Plan, s: State, step: Step)
    requires Shape(plan, s) && Enabled(plan, s, step) && Mover(step).Some?
    requires PcOk(plan, s, Mover(step).value)
    ensures ExecGrows(s.exec, Apply(plan, s, step).exec)
  {
    var x, id := s.exec, plan.cues[Mover(step).value].cueId;
    if id !in x.outcomes {
      forall o, d
        ensures ExecGrows(x, FinishSpec(x, id, o, d))
      {
        FinishGrows(x, id, o, d);
      }
    }
  }

  lemma StepExecGrows(plan: Plan, s: State, step: Step)
    requires Inv(plan, s) && Enabled(plan, s, step)
    ensures ExecGrows(s.exec, Apply(plan, s, step).exec)
  {
    if Mover(step).Some? {
      SegmentGrows(plan, s, step);
    } else if step.EventArrives? {
      var e := s.channels[step.runtime].published[s.channels[step.runtime].read];
      if e.Completed? {
        ResolveGrows(s.exec, e.command, e.outcome);
      }
    }
  }

  lemma EndCommandGrows(plan: Plan, s: State, c: CommandId, o: Outcome)
    requires Inv(plan, s) && Running(s, c)
    ensures WorldGrows(s, EndCommand(s, c, o))
  {
  }

  lemma StepWorldGrows(plan: Plan, s: State, step: Step)
    requires Inv(plan, s) && Enabled(plan, s, step)
    ensures WorldGrows(s, Apply(plan, s, step))
  {
    if step.CommandEnds? {
      EndCommandGrows(plan, s, step.command, step.outcome);
    } else if step.ServerRejects? {
      EndCommandGrows(plan, s, s.pcs[step.cue].command, Rejected);
    }
  }

  lemma StepGrows(plan: Plan, s: State, step: Step)
    requires Inv(plan, s) && Enabled(plan, s, step)
    ensures Grows(s, Apply(plan, s, step))
  {
    StepExecGrows(plan, s, step);
    StepWorldGrows(plan, s, step);
  }

  lemma StepShape(plan: Plan, s: State, step: Step)
    requires Inv(plan, s) && Enabled(plan, s, step)
    ensures Shape(plan, Apply(plan, s, step))
  {
  }

  lemma PendingKeptByEvent(plan: Plan, s: State, step: Step)
    requires Inv(plan, s) && Enabled(plan, s, step) && step.EventArrives?
    ensures PendingOk(Apply(plan, s, step))
  {
    assert EventOk(s, step.runtime, s.channels[step.runtime].read);
  }

  lemma PendingKept(plan: Plan, s: State, step: Step)
    requires Inv(plan, s) && Enabled(plan, s, step)
    ensures PendingOk(Apply(plan, s, step))
  {
    var t := Apply(plan, s, step);
    if step.EventArrives? {
      PendingKeptByEvent(plan, s, step);
    } else if Mover(step).Some? {
      assert PcOk(plan, s, Mover(step).value);
    }
  }

  /** Events and endings agree, for any change that touches neither. */
  lemma EventsFrame(s: State, t: State)
    requires EventsOk(s) && EndingsOk(s)
    requires s.commands <= t.commands
    requires forall c :: |s.commands| <= c < |t.commands| ==> t.commands[c].ending.None?
    requires |s.channels| == |t.channels|
    requires forall r :: 0 <= r < |s.channels| ==> s.channels[r].published == t.channels[r].published
    ensures EventsOk(t) && EndingsOk(t)
  {
    forall r, k | 0 <= r < |t.channels| && 0 <= k < |t.channels[r].published|
      ensures EventOk(t, r, k)
    {
      assert EventOk(s, r, k);
    }
    forall c | 0 <= c < |t.commands| && t.commands[c].ending.Some?
      ensures Announced(t, c)
    {
      assert Announced(s, c);
    }
  }

  lemma EndCommandEvents(plan: Plan, s: State, c: CommandId, o: Outcome)
    requires Inv(plan, s) && Running(s, c) && o != Skipped
    ensures var t := EndCommand(s, c, o); EventsOk(t) && EndingsOk(t)
  {
    var t := EndCommand(s, c, o);
    forall r, k | 0 <= r < |t.channels| && 0 <= k < |t.channels[r].published|
      ensures EventOk(t, r, k)
    {
      if k < |s.channels[r].published| {
        assert EventOk(s, r, k);
      }
    }
    forall d | 0 <= d < |t.commands| && t.commands[d].ending.Some?
      ensures Announced(t, d)
    {
      if d != c {
        assert Announced(s, d);
      }
    }
  }

  lemma StatusEvents(plan: Plan, s: State, r: nat)
    requires Inv(plan, s) && r < |s.channels|
    ensures var t := s.(channels := s.channels[r := Publish(s.channels[r], StatusChanged)]); EventsOk(t) && EndingsOk(t)
  {
    var t := s.(channels := s.channels[r := Publish(s.channels[r], StatusChanged)]);
    forall q, k | 0 <= q < |t.channels| && 0 <= k < |t.channels[q].published|
      ensures EventOk(t, q, k)
    {
      if k < |s.channels[q].published| {
        assert EventOk(s, q, k);
      }
    }
    forall d | 0 <= d < |t.commands| && t.commands[d].ending.Some?
      ensures Announced(t, d)
    {
      assert Announced(s, d);
    }
  }

  lemma EventsKept(plan: Plan, s: State, step: Step)
    requires Inv(plan, s) && Enabled(plan, s, step)
    ensures EventsOk(Apply(plan, s, step)) && EndingsOk(Apply(plan, s, step))
  {
    var t := Apply(plan, s, step);
    match step
    case ServerRejects(i) =>
      EndCommandEvents(plan, s, s.pcs[i].command, Rejected);
      EventsFrame(EndCommand(s, s.pcs[i].command, Rejected), t);
    case CommandEnds(c, o) => EndCommandEvents(plan, s, c, o);
    case StatusPublished(r) => StatusEvents(plan, s, r);
    case _ => EventsFrame(s, t);
  }

  // ---- what one cue knows survives every other step ----

  lemma KnowledgeGrows(plan: Plan, s: State, t: State, i: nat)
    requires Grows(s, t) && i < |plan.cues|
    ensures forall k :: 0 <= k <= |plan.cues[i].dependsOn| && DepsSucceeded(plan, s, i, k) ==>
        DepsSucceeded(plan, t, i, k)
    ensures forall c :: Owns(s, i, c) ==> Owns(t, i, c)
    ensures forall c, o :: EndedWith(s, c, o) ==> EndedWith(t, c, o)
    ensures forall o :: FromServer(s, i, o) ==> FromServer(t, i, o)
    ensures HasOutcome(plan, s, i) ==> HasOutcome(plan, t, i)
  {
    forall o | FromServer(s, i, o)
      ensures FromServer(t, i, o)
    {
      var c :| Owns(s, i, c) && (EndedWith(s, c, o) || (o == Unknown && s.resynced));
      assert Owns(t, i, c) && (EndedWith(t, c, o) || (o == Unknown && t.resynced));
    }
  }

  /** No step makes a listener pass a completion without resolving its registered future. */
  lemma NotLostKept(plan: Plan, s: State, step: Step, c: CommandId)
    requires Inv(plan, s) && Enabled(plan, s, step)
    requires NotLost(s, c)
    ensures NotLost(Apply(plan, s, step), c)
  {
    StepExecGrows(plan, s, step);
    if c < |s.commands| && s.commands[c].runtime < |s.channels| {
      if step.EventArrives? {
        var r := step.runtime;
        assert EventOk(s, r, s.channels[r].read);
        if s.commands[c].ending.Some? {
          assert Announced(s, c);
        }
      } else if step.CommandEnds? || step.ServerRejects? {
        var d := if step.CommandEnds? then step.command else s.pcs[step.cue].command;
        assert s.channels[s.commands[d].runtime].read <= |s.channels[s.commands[d].runtime].published|;
      }
    }
  }

  lemma OnlyMoverRegisters(plan: Plan, s: State, step: Step, j: nat)
    requires Inv(plan, s) && Enabled(plan, s, step) && j < |plan.cues| && Mover(step) != Some(j)
    ensures forall c :: Owns(s, j, c) && c !in s.exec.pending ==> c !in Apply(plan, s, step).exec.pending
    ensures NoCommand(s, j) ==> NoCommand(Apply(plan, s, step), j)
  {
    if Mover(step).Some? {
      assert PcOk(plan, s, Mover(step).value);
    }
  }

  /** A step of cue `i` neither ends cue `j` nor registers a future for `j`'s command. */
  lemma OnlyMoverChanges(plan: Plan, s: State, step: Step, j: nat)
    requires DistinctIds(plan.cues) && Inv(plan, s) && Enabled(plan, s, step)
    requires j < |plan.cues| && Mover(step) != Some(j)
    ensures var t := Apply(plan, s, step);
      && t.pcs[j] == s.pcs[j]
      && (HasOutcome(plan, t, j) <==> HasOutcome(plan, s, j))
      && (NoCommand(s, j) ==> NoCommand(t, j))
      && (forall c :: Owns(s, j, c) && c !in s.exec.pending ==> c !in t.exec.pending)
  {
    hide NoCommand, Owns;
    OnlyMoverRegisters(plan, s, step, j);
    if Mover(step).Some? {
      assert plan.cues[Mover(step).value].cueId != plan.cues[j].cueId;
    }
  }

  lemma OtherCueKept(plan: Plan, s: State, step: Step, j: nat)
    requires DistinctIds(plan.cues) && Inv(plan, s) && Enabled(plan, s, step)
    requires j < |plan.cues| && Mover(step) != Some(j)
    ensures PcOk(plan, Apply(plan, s, step), j)
  {
    hide Apply, Enabled;
    var t := Apply(plan, s, step);
    assert PcOk(plan, s, j);
    StepShape(plan, s, step);
    OnlyMoverChanges(plan, s, step, j);
    StepGrows(plan, s, step);
    KnowledgeGrows(plan, s, t, j);
    match s.pcs[j]
    case ReadReplied(c, terminal) =>
      if terminal.None? {
        NotLostKept(plan, s, step, c);
      }
    case AwaitFuture(c) => NotLostKept(plan, s, step, c);
    case _ =>
  }

  /** The re-read: a record that is not TERMINAL yet means the completion is still to come. */
  lemma TimerKept(plan: Plan, s: State, step: Step, i: nat)
    requires DistinctIds(plan.cues) && Inv(plan, s) && Enabled(plan, s, step)
    requires Mover(step) == Some(i) && step.TimerDue?
    ensures PcOk(plan, Apply(plan, s, step), i)
  {
    assert PcOk(plan, s, i);
    StepGrows(plan, s, step);
    KnowledgeGrows(plan, s, Apply(plan, s, step), i);
  }

  lemma RecordKept(plan: Plan, s: State, step: Step, i: nat)
    requires DistinctIds(plan.cues) && Inv(plan, s) && Enabled(plan, s, step)
    requires Mover(step) == Some(i) && step.RecordArrives?
    ensures PcOk(plan, Apply(plan, s, step), i)
  {
    assert PcOk(plan, s, i);
    StepGrows(plan, s, step);
    KnowledgeGrows(plan, s, Apply(plan, s, step), i);
    if s.pcs[i].terminal.None? {
      NotLostKept(plan, s, step, s.pcs[i].command);
    }
  }

  lemma MoverKept(plan: Plan, s: State, step: Step, i: nat)
    requires DistinctIds(plan.cues) && Inv(plan, s) && Enabled(plan, s, step)
    requires Mover(step) == Some(i)
    ensures PcOk(plan, Apply(plan, s, step), i)
  {
    if step.TimerDue? {
      TimerKept(plan, s, step, i);
    } else if step.RecordArrives? {
      RecordKept(plan, s, step, i);
    } else {
      assert PcOk(plan, s, i);
      StepGrows(plan, s, step);
      KnowledgeGrows(plan, s, Apply(plan, s, step), i);
    }
  }

  lemma PcsKept(plan: Plan, s: State, step: Step)
    requires DistinctIds(plan.cues) && Inv(plan, s) && Enabled(plan, s, step)
    ensures Shape(plan, Apply(plan, s, step)) && PcsOk(plan, Apply(plan, s, step))
  {
    StepShape(plan, s, step);
    forall j | 0 <= j < |plan.cues|
      ensures PcOk(plan, Apply(plan, s, step), j)
    {
      if Mover(step) == Some(j) {
        MoverKept(plan, s, step, j);
      } else {
        OtherCueKept(plan, s, step, j);
      }
    }
  }

  lemma OutcomeGrows(plan: Plan, s: State, t: State, j: nat)
    requires Grows(s, t) && j < |plan.cues|
    requires OutcomeOk(plan, s, j) && HasOutcome(plan, s, j)
    ensures OutcomeOk(plan, t, j)
  {
    KnowledgeGrows(plan, s, t, j);
  }

  /** The only outcome a step can add is the mover's, and it is a true one. */
  lemma NewOutcomeOk(plan: Plan, s: State, step: Step, i: nat)
    requires DistinctIds(plan.cues) && Inv(plan, s) && Enabled(plan, s, step)
    requires Mover(step) == Some(i) && !HasOutcome(plan, s, i)
    ensures OutcomeOk(plan, Apply(plan, s, step), i)
  {
    var t := Apply(plan, s, step);
    assert PcOk(plan, s, i);
    StepGrows(plan, s, step);
    KnowledgeGrows(plan, s, t, i);
    match step
    case ReplyArrives(_) =>
      if s.pcs[i].reply.Accepted? && s.pcs[i].reply.terminal.Some? {
        var c := s.pcs[i].reply.command;
        assert Announced(s, c);
        assert Owns(t, i, c) && EndedWith(t, c, s.pcs[i].reply.terminal.value);
      }
    case FutureReady(_) =>
      var c := s.pcs[i].command;
      if s.commands[c].ending.Some? {
        assert Announced(s, c);
      }
      assert Owns(t, i, c);
    case _ =>
  }

  lemma OutcomesKept(plan: Plan, s: State, step: Step)
    requires DistinctIds(plan.cues) && Inv(plan, s) && Enabled(plan, s, step)
    ensures OutcomesOk(plan, Apply(plan, s, step))
  {
    var t := Apply(plan, s, step);
    StepGrows(plan, s, step);
    forall j | 0 <= j < |plan.cues|
      ensures OutcomeOk(plan, t, j)
    {
      if HasOutcome(plan, s, j) {
        OutcomeGrows(plan, s, t, j);
      } else if Mover(step) == Some(j) {
        NewOutcomeOk(plan, s, step, j);
      } else {
        OnlyMoverChanges(plan, s, step, j);
      }
    }
  }

  lemma CommandsBelong(plan: Plan, s: State, step: Step)
    requires Inv(plan, s) && Enabled(plan, s, step)
    ensures OneCommandEach(Apply(plan, s, step))
  {
    if Mover(step).Some? {
      assert PcOk(plan, s, Mover(step).value);
    }
  }

  lemma OwnershipKept(plan: Plan, s: State, step: Step)
    requires Inv(plan, s) && Enabled(plan, s, step)
    ensures OneCommandEach(Apply(plan, s, step)) && OutcomesBelong(plan, Apply(plan, s, step))
  {
    CommandsBelong(plan, s, step);
    if Mover(step).Some? {
      assert PcOk(plan, s, Mover(step).value);
      assert HasCue(plan.cues, plan.cues[Mover(step).value].cueId);
    }
  }

  lemma SubmissionsKept(plan: Plan, s: State, step: Step)
    requires Inv(plan, s) && Enabled(plan, s, step)
    ensures SubmissionsOk(plan, Apply(plan, s, step))
  {
    var t := Apply(plan, s, step);
    StepGrows(plan, s, step);
    forall k | 0 <= k < |t.submissions|
      ensures SubmissionOk(plan, t, t.submissions[k])
    {
      var b := t.submissions[k];
      if k < |s.submissions| {
        assert SubmissionOk(plan, s, b);
        KnowledgeGrows(plan, s, t, b.cue);
      } else {
        assert PcOk(plan, s, b.cue);
        KnowledgeGrows(plan, s, t, b.cue);
      }
    }
  }

  lemma InvKept(plan: Plan, s: State, step: Step)
    requires DistinctIds(plan.cues) && Inv(plan, s) && Enabled(plan, s, step)
    ensures Inv(plan, Apply(plan, s, step))
  {
    PcsKept(plan, s, step);
    OutcomesKept(plan, s, step);
    PendingKept(plan, s, step);
    EventsKept(plan, s, step);
    OwnershipKept(plan, s, step);
    SubmissionsKept(plan, s, step);
  }

  // ---- whole runs ----

  ghost predicate Legal(plan: Plan, s: State, steps: seq<Step>)
    decreases |steps|
  {
    && Shape(plan, s)
    && (steps != [] ==> Enabled(plan, s, steps[0]) && Legal(plan, Apply(plan, s, steps[0]), steps[1..]))
  }

  ghost function After(plan: Plan, s: State, steps: seq<Step>): State
    requires Legal(plan, s, steps)
    decreases |steps|
  {
    if steps == [] then s else After(plan, Apply(plan, s, steps[0]), steps[1..])
  }

  ghost predicate Reachable(plan: Plan, s: State) {
    exists first, steps :: Initial(plan, first) && Legal(plan, first, steps) && After(plan, first, steps) == s
  }

  lemma Prepend(plan: Plan, s: State, first: Step, rest: seq<Step>)
    requires Shape(plan, s) && Enabled(plan, s, first) && Legal(plan, Apply(plan, s, first), rest)
    ensures Legal(plan, s, [first] + rest)
    ensures After(plan, s, [first] + rest) == After(plan, Apply(plan, s, first), rest)
  {
    assert ([first] + rest)[1..] == rest;
  }

  lemma InitialInv(plan: Plan, s: State)
    requires Initial(plan, s)
    ensures Inv(plan, s)
  {
  }

  lemma {:induction false} RunInv(plan: Plan, s: State, steps: seq<Step>)
    requires DistinctIds(plan.cues) && Inv(plan, s) && Legal(plan, s, steps)
    ensures Inv(plan, After(plan, s, steps))
    decreases |steps|
  {
    if steps != [] {
      InvKept(plan, s, steps[0]);
      RunInv(plan, Apply(plan, s, steps[0]), steps[1..]);
    }
  }

  lemma ReachableInv(plan: Plan, s: State)
    requires DistinctIds(plan.cues) && Reachable(plan, s)
    ensures Inv(plan, s)
  {
    var first, steps :| Initial(plan, first) && Legal(plan, first, steps) && After(plan, first, steps) == s;
    InitialInv(plan, first);
    RunInv(plan, first, steps);
  }

  /** In every interleaving: a cue waiting on an unresolved future, whose listener is live, has a
      command that has not ended, or whose completion event is still in the channel. */
  lemma NoLostCompletion(plan: Plan, s: State, i: nat, c: CommandId)
    requires DistinctIds(plan.cues) && Reachable(plan, s)
    requires i < |s.pcs| && s.pcs[i] == AwaitFuture(c)
    requires c in s.exec.pending && s.exec.pending[c].Unresolved?
    requires Listening(s, c)
    ensures Running(s, c) || InChannel(s, c)
  {
    ReachableInv(plan, s);
    assert PcOk(plan, s, i);
    if !Running(s, c) {
      assert Announced(s, c);
      var ch, e := s.channels[s.commands[c].runtime], s.commands[c].ending.value;
      assert ch.published[ch.read..][e.index - ch.read] == Completed(c, e.outcome);
    }
  }

  ghost predicate InChannel(s: State, c: CommandId) {
    && c < |s.commands| && s.commands[c].ending.Some?
    && s.commands[c].runtime < |s.channels|
    && var ch := s.channels[s.commands[c].runtime];
       ch.read <= |ch.published| && Completed(c, s.commands[c].ending.value.outcome) in ch.published[ch.read..]
  }

  /** A cue that ended with a command's result recorded that command's own outcome, whichever of the
      submit reply, the event and the re-read delivered it; only a resync can replace it, by UNKNOWN. */
  lemma RecordedOutcomeIsTheServers(plan: Plan, s: State, i: nat)
    requires DistinctIds(plan.cues) && Reachable(plan, s)
    requires i < |plan.cues| && HasOutcome(plan, s, i)
    requires s.exec.outcomes[plan.cues[i].cueId].detail == NoDetail
    ensures var o := s.exec.outcomes[plan.cues[i].cueId].outcome;
      exists c :: Owns(s, i, c) && (EndedWith(s, c, o) || (o == Unknown && s.resynced))
    ensures forall c, d :: Owns(s, i, c) && Owns(s, i, d) ==> c == d
  {
    ReachableInv(plan, s);
    assert OutcomeOk(plan, s, i);
  }

  /** SUCCEEDED is never recorded for a cue without a command of its own that SUCCEEDED. */
  lemma SuccessIsTheServers(plan: Plan, s: State, i: nat)
    requires DistinctIds(plan.cues) && Reachable(plan, s)
    requires i < |plan.cues| && SucceededIn(s.exec, plan.cues[i].cueId)
    ensures AllDepsSucceeded(plan, s, i)
    ensures exists c :: Owns(s, i, c) && EndedWith(s, c, Succeeded)
  {
    ReachableInv(plan, s);
    assert OutcomeOk(plan, s, i);
  }

  lemma {:induction false} SuccessSpreads(plan: Plan, s: State, w: seq<string>)
    requires DistinctIds(plan.cues) && Inv(plan, s) && IsWalk(GraphOf(plan.cues), w) && SucceededIn(s.exec, w[0])
    ensures SucceededIn(s.exec, w[|w| - 1])
    decreases |w|
  {
    if |w| > 1 {
      assert EdgeAt(GraphOf(plan.cues), w, 1);
      GraphKeys(plan.cues);
      var i :| 0 <= i < |plan.cues| && plan.cues[i].cueId == w[0];
      GraphEntry(plan.cues, i);
      assert OutcomeOk(plan, s, i);
      SubWalk(GraphOf(plan.cues), w, 1, |w|);
      assert w[1..|w|] == w[1..];
      SuccessSpreads(plan, s, w[1..]);
    }
  }

  /** Everything a SUCCEEDED cue depends on, directly or through other cues, SUCCEEDED too. */
  lemma SuccessClosure(plan: Plan, s: State, w: seq<string>)
    requires DistinctIds(plan.cues) && Reachable(plan, s)
    requires IsWalk(GraphOf(plan.cues), w) && SucceededIn(s.exec, w[0])
    ensures forall k :: 0 <= k < |w| ==> SucceededIn(s.exec, w[k])
  {
    ReachableInv(plan, s);
    forall k | 0 <= k < |w| ensures SucceededIn(s.exec, w[k]) {
      SubWalk(GraphOf(plan.cues), w, 0, k + 1);
      SuccessSpreads(plan, s, w[0..k + 1]);
    }
  }

  /** Each cue is submitted at most once, inside its lateness window, after all its dependencies
      SUCCEEDED; and a Runtime accepts at most one command for it. */
  lemma SubmissionDiscipline(plan: Plan, s: State)
    requires DistinctIds(plan.cues) && Reachable(plan, s)
    ensures forall k :: 0 <= k < |s.submissions| ==>
      var b := s.submissions[k];
      b.cue < |plan.cues| && InWindow(plan, s, b) && b.at <= s.now && AllDepsSucceeded(plan, s, b.cue)
    ensures forall k, l :: 0 <= k < l < |s.submissions| ==> s.submissions[k].cue != s.submissions[l].cue
    ensures forall c, d :: 0 <= c < d < |s.commands| ==> s.commands[c].cue != s.commands[d].cue
  {
    ReachableInv(plan, s);
    forall k | 0 <= k < |s.submissions|
      ensures var b := s.submissions[k];
        b.cue < |plan.cues| && InWindow(plan, s, b) && b.at <= s.now && AllDepsSucceeded(plan, s, b.cue)
    {
      assert SubmissionOk(plan, s, s.submissions[k]);
    }
  }

  /** At the very step that submits, the dependencies had already SUCCEEDED and the cue was unsubmitted. */
  lemma SubmitStepIsDue(plan: Plan, s: State, i: nat, held: bool)
    requires DistinctIds(plan.cues) && Reachable(plan, s)
    requires Shape(plan, s) && Enabled(plan, s, TimerDue(i, held))
    requires Apply(plan, s, TimerDue(i, held)).pcs[i] == Requested
    ensures AllDepsSucceeded(plan, s, i) && !held && NoCommand(s, i)
    ensures forall k :: 0 <= k < |s.submissions| ==> s.submissions[k].cue != i
    ensures s.start + plan.cues[i].atMs as real <= s.now <=
      s.start + plan.cues[i].atMs as real + plan.cues[i].latePolicy.maxLatenessMs as real
  {
    ReachableInv(plan, s);
    assert PcOk(plan, s, i);
    forall k | 0 <= k < |s.submissions|
      ensures s.submissions[k].cue != i
    {
      assert SubmissionOk(plan, s, s.submissions[k]);
    }
  }

  /** An outcome, once recorded, is final: later steps of any task leave it alone. */
  lemma {:induction false} OutcomesAreFinal(plan: Plan, s: State, steps: seq<Step>, id: string)
    requires DistinctIds(plan.cues) && Inv(plan, s) && Legal(plan, s, steps)
    requires id in s.exec.outcomes
    ensures id in After(plan, s, steps).exec.outcomes
    ensures After(plan, s, steps).exec.outcomes[id] == s.exec.outcomes[id]
    decreases |steps|
  {
    if steps != [] {
      StepGrows(plan, s, steps[0]);
      InvKept(plan, s, steps[0]);
      OutcomesAreFinal(plan, Apply(plan, s, steps[0]), steps[1..], id);
    }
  }
}
