/** Deadlock freedom of the Timeline executor, and the runs that show which assumptions it needs. */
module TimelineLiveness {
  import opened Common
  import opened TimelineContract
  import opened TimelineExecution
  import opened TimelineRuns

  /** What `ValidateTimeline` accepts, with a client for every Runtime the cues name. */
  ghost predicate Validated(plan: Plan) {
    WellFormed(plan.cues) && forall i :: 0 <= i < |plan.cues| ==> plan.cues[i].runtime in plan.runtimes
  }

  predicate Ended(pc: Pc) {
    pc.Finished? || pc.Aborted? || pc.Crashed?
  }

  /** Every listener is live and no cue task has raised. */
  ghost predicate Calm(s: State) {
    && (forall r :: 0 <= r < |s.channels| ==> s.channels[r].live)
    && (forall i :: 0 <= i < |s.pcs| ==> !s.pcs[i].Aborted? && !s.pcs[i].Crashed?)
  }

  /** Time passing and unrelated status events are the environment's business; the rest is work. */
  predicate IsWork(step: Step) {
    !step.Tick? && !step.StatusPublished? && !IsFault(step)
  }

  predicate IsFault(step: Step) {
    step.ResyncArrives? || step.ListenerEnds? || step.TransportFails?
  }

  /** A work step that can be taken at once, or after waiting until `to`. */
  predicate PossibleAt(plan: Plan, s: State, to: real, step: Step)
    requires Shape(plan, s)
  {
    && IsWork(step)
    && s.now <= to
    && Enabled(plan, s.(now := to), step)
  }

  // ---- some step is always possible ----

  /** An unfinished cue all of whose dependencies have finished. */
  lemma UnblockedCue(plan: Plan, s: State) returns (i: nat)
    requires Validated(plan) && Inv(plan, s) && Calm(s)
    requires exists k :: 0 <= k < |s.pcs| && !Ended(s.pcs[k])
    ensures i < |s.pcs| && !Ended(s.pcs[i])
    ensures forall d :: d in plan.cues[i].dependsOn ==> d in s.exec.done
  {
    var cues := plan.cues;
    var u := set k | 0 <= k < |cues| && !Ended(s.pcs[k]) :: cues[k].cueId;
    var k0 :| 0 <= k0 < |s.pcs| && !Ended(s.pcs[k0]);
    assert cues[k0].cueId in u;
    var m := AcyclicHasMinimal(GraphOf(cues), u);
    i :| 0 <= i < |cues| && !Ended(s.pcs[i]) && cues[i].cueId == m;
    GraphEntry(cues, i);
    forall d | d in cues[i].dependsOn
      ensures d in s.exec.done
    {
      var k :| 0 <= k < |cues[i].dependsOn| && cues[i].dependsOn[k] == d;
      assert HasCue(cues, cues[i].dependsOn[k]);
      var j :| 0 <= j < |cues| && cues[j].cueId == d;
      assert Edge(GraphOf(cues), m, d);
      assert d !in u;
      assert PcOk(plan, s, j);
    }
  }

  /** What keeps a waiting cue going: its resolved future, the Runtime, or the listener. */
  lemma WaitingHasWork(plan: Plan, s: State, i: nat) returns (step: Step)
    requires Inv(plan, s) && Calm(s) && i < |s.pcs| && s.pcs[i].AwaitFuture?
    ensures PossibleAt(plan, s, s.now, step)
  {
    var c := s.pcs[i].command;
    assert PcOk(plan, s, i);
    if s.exec.pending[c].Resolved? {
      step := FutureReady(i);
    } else if s.commands[c].ending.None? {
      step := CommandEnds(c, Succeeded);
    } else {
      assert Announced(s, c);
      step := EventArrives(s.commands[c].runtime);
    }
  }

  /** Deadlock freedom: while a cue is unfinished, waiting long enough makes some work step possible. */
  lemma SomeWorkIsPossible(plan: Plan, s: State) returns (to: real, step: Step)
    requires Validated(plan) && Inv(plan, s) && Calm(s)
    requires exists k :: 0 <= k < |s.pcs| && !Ended(s.pcs[k])
    ensures PossibleAt(plan, s, to, step)
  {
    var i := UnblockedCue(plan, s);
    assert PcOk(plan, s, i);
    to := s.now;
    match s.pcs[i]
    case AwaitDependency(k) =>
      if k < |plan.cues[i].dependsOn| {
        step := DependencyReady(i);
      } else {
        step := TimerDue(i, false);
      }
    case Sleeping(w) =>
      to := if w <= s.now then s.now else w;
      step := TimerDue(i, false);
    case Requested => step := ServerAccepts(i);
    case Executing(c) => step := ServerReplies(i);
    case Replied(_) => step := ReplyArrives(i);
    case ReadSent(c) => step := ServerReads(i);
    case ReadReplied(_, _) => step := RecordArrives(i);
    case AwaitFuture(c) => step := WaitingHasWork(plan, s, i);
    case _ => assert false;
  }

  // ---- and the work runs out ----

  /** How many 20 ms polls can be left before a deadline `ms` away. */
  function Polls(ms: real): nat {
    if ms <= 0.0 then 0 else (ms / POLL_MS).Floor + 1
  }

  lemma PollsShrink(a: real, b: real)
    requires 0.0 < b <= a
    ensures Polls(b - Min(POLL_MS, b)) < Polls(a)
  {
    assert (b / POLL_MS).Floor <= (a / POLL_MS).Floor;
    if b > POLL_MS {
      assert (b - POLL_MS) / POLL_MS == b / POLL_MS - 1.0;
    }
  }

  function CueWork(cue: Cue, start: real, pc: Pc): nat {
    match pc
    case AwaitDependency(k) =>
      (if k <= |cue.dependsOn| then |cue.dependsOn| - k else 0) + 12 + Polls(Deadline(start, cue) - start)
    case Sleeping(w) => 11 + Polls(Deadline(start, cue) - w)
    case Requested => 10
    case Executing(_) => 6
    case Replied(_) => 5
    case ReadSent(_) => 4
    case ReadReplied(_, _) => 3
    case AwaitFuture(_) => 2
    case _ => 0
  }

  function CueWorks(plan: Plan, s: State): (w: seq<nat>)
    requires Shape(plan, s)
    ensures |w| == |s.pcs|
  {
    seq(|s.pcs|, i requires 0 <= i < |s.pcs| => CueWork(plan.cues[i], s.start, s.pcs[i]))
  }

  function CommandWorks(s: State): (w: seq<nat>)
    ensures |w| == |s.commands|
  {
    seq(|s.commands|, c requires 0 <= c < |s.commands| => if s.commands[c].ending.None? then 2 else 0)
  }

  function Backlogs(plan: Plan, s: State): (w: seq<nat>)
    requires Shape(plan, s)
    ensures |w| == |s.channels|
  {
    seq(|s.channels|, r requires 0 <= r < |s.channels| => |s.channels[r].published| - s.channels[r].read)
  }

  /** Work left: what each cue still has to do, commands still to end, events still to be handled. */
  function Measure(plan: Plan, s: State): nat
    requires Shape(plan, s)
  {
    Sum(CueWorks(plan, s)) + Sum(CommandWorks(s)) + Sum(Backlogs(plan, s))
  }

  lemma CueMoves(plan: Plan, s: State, t: State, i: nat)
    requires Shape(plan, s) && Shape(plan, t) && i < |s.pcs| && t.start == s.start
    requires t.pcs == s.pcs[i := t.pcs[i]]
    ensures Sum(CueWorks(plan, t)) + CueWork(plan.cues[i], s.start, s.pcs[i])
         == Sum(CueWorks(plan, s)) + CueWork(plan.cues[i], s.start, t.pcs[i])
  {
    var v := CueWork(plan.cues[i], s.start, t.pcs[i]);
    SumUpdate(CueWorks(plan, s), i, v);
    assert CueWorks(plan, t) == CueWorks(plan, s)[i := v];
  }

  lemma EndCommandMeasure(plan: Plan, s: State, c: CommandId, o: Outcome)
    requires Shape(plan, s) && Running(s, c)
    requires Shape(plan, EndCommand(s, c, o))
    ensures var t := EndCommand(s, c, o);
      Sum(CommandWorks(t)) + 2 == Sum(CommandWorks(s)) && Sum(Backlogs(plan, t)) == Sum(Backlogs(plan, s)) + 1
  {
    var t := EndCommand(s, c, o);
    SumUpdate(CommandWorks(s), c, 0);
    assert CommandWorks(t) == CommandWorks(s)[c := 0];
    BacklogMoves(plan, s, t, s.commands[c].runtime);
  }

  lemma BacklogMoves(plan: Plan, s: State, t: State, r: nat)
    requires Shape(plan, s) && Shape(plan, t) && r < |s.channels|
    requires t.channels == s.channels[r := t.channels[r]]
    ensures Sum(Backlogs(plan, t)) + (|s.channels[r].published| - s.channels[r].read)
         == Sum(Backlogs(plan, s)) + (|t.channels[r].published| - t.channels[r].read)
  {
    var v := |t.channels[r].published| - t.channels[r].read;
    SumUpdate(Backlogs(plan, s), r, v);
    assert Backlogs(plan, t) == Backlogs(plan, s)[r := v];
  }

  /** A timer segment either ends, submits, or sleeps with fewer polls to go. */
  lemma TimerLowersWork(plan: Plan, s: State, i: nat, held: bool)
    requires Inv(plan, s) && Enabled(plan, s, TimerDue(i, held))
    ensures var pc := FireSpec(s.exec, plan.cues[i], s.start, s.now, held).1;
      CueWork(plan.cues[i], s.start, pc) < CueWork(plan.cues[i], s.start, s.pcs[i])
  {
    var cue := plan.cues[i];
    var d := Deadline(s.start, cue);
    if s.now < d {
      if s.pcs[i].Sleeping? {
        PollsShrink(d - s.pcs[i].wakeAt, d - s.now);
      } else {
        PollsShrink(d - s.start, d - s.now);
      }
    }
  }

  /** The other steps of a cue move it to a later stage of its life. */
  lemma CueStepLowersWork(plan: Plan, s: State, step: Step)
    requires Inv(plan, s) && Enabled(plan, s, step)
    requires IsWork(step) && Mover(step).Some? && !step.ServerRejects? && !step.ServerAccepts?
    ensures var t, i := Apply(plan, s, step), Mover(step).value;
      && i < |s.pcs| == |t.pcs| && t.pcs == s.pcs[i := t.pcs[i]] && t.start == s.start
      && t.commands == s.commands && t.channels == s.channels
      && CueWork(plan.cues[i], s.start, t.pcs[i]) < CueWork(plan.cues[i], s.start, s.pcs[i])
  {
    if step.TimerDue? {
      TimerLowersWork(plan, s, step.cue, step.held);
    }
  }

  lemma CueStepLowersMeasure(plan: Plan, s: State, step: Step)
    requires Inv(plan, s) && Enabled(plan, s, step) && Shape(plan, Apply(plan, s, step))
    requires IsWork(step) && Mover(step).Some? && !step.ServerRejects? && !step.ServerAccepts?
    ensures Measure(plan, Apply(plan, s, step)) < Measure(plan, s)
  {
    var t := Apply(plan, s, step);
    CueStepLowersWork(plan, s, step);
    CueMoves(plan, s, t, Mover(step).value);
    assert CommandWorks(t) == CommandWorks(s);
    assert Backlogs(plan, t) == Backlogs(plan, s);
  }

  lemma AcceptLowersMeasure(plan: Plan, s: State, i: nat)
    requires Inv(plan, s) && Enabled(plan, s, ServerAccepts(i)) && Shape(plan, Apply(plan, s, ServerAccepts(i)))
    ensures Measure(plan, Apply(plan, s, ServerAccepts(i))) < Measure(plan, s)
  {
    var t := Apply(plan, s, ServerAccepts(i));
    CueMoves(plan, s, t, i);
    SumAppend(CommandWorks(s), 2);
    assert CommandWorks(t) == CommandWorks(s) + [2];
    assert Backlogs(plan, t) == Backlogs(plan, s);
  }

  lemma EndLowersMeasure(plan: Plan, s: State, c: CommandId, o: Outcome)
    requires Shape(plan, s) && Running(s, c)
    ensures Shape(plan, EndCommand(s, c, o))
    ensures Measure(plan, EndCommand(s, c, o)) < Measure(plan, s)
  {
    EndCommandMeasure(plan, s, c, o);
    assert CueWorks(plan, EndCommand(s, c, o)) == CueWorks(plan, s);
  }

  lemma RejectLowersMeasure(plan: Plan, s: State, i: nat)
    requires Shape(plan, s) && Enabled(plan, s, ServerRejects(i)) && Shape(plan, Apply(plan, s, ServerRejects(i)))
    ensures Measure(plan, Apply(plan, s, ServerRejects(i))) < Measure(plan, s)
  {
    var u, t := EndCommand(s, s.pcs[i].command, Rejected), Apply(plan, s, ServerRejects(i));
    EndLowersMeasure(plan, s, s.pcs[i].command, Rejected);
    CueMoves(plan, u, t, i);
    assert CommandWorks(t) == CommandWorks(u);
    assert Backlogs(plan, t) == Backlogs(plan, u);
  }

  lemma ArrivalLowersMeasure(plan: Plan, s: State, r: nat)
    requires Shape(plan, s) && Enabled(plan, s, EventArrives(r)) && Shape(plan, Apply(plan, s, EventArrives(r)))
    ensures Measure(plan, Apply(plan, s, EventArrives(r))) < Measure(plan, s)
  {
    var t := Apply(plan, s, EventArrives(r));
    BacklogMoves(plan, s, t, r);
    assert CueWorks(plan, t) == CueWorks(plan, s);
    assert CommandWorks(t) == CommandWorks(s);
  }

  /** Every work step lowers the measure. */
  lemma WorkLowersMeasure(plan: Plan, s: State, step: Step)
    requires Inv(plan, s) && Enabled(plan, s, step) && IsWork(step)
    ensures Shape(plan, Apply(plan, s, step))
    ensures Measure(plan, Apply(plan, s, step)) < Measure(plan, s)
  {
    StepShape(plan, s, step);
    match step
    case ServerAccepts(i) => AcceptLowersMeasure(plan, s, i);
    case ServerRejects(i) => RejectLowersMeasure(plan, s, i);
    case CommandEnds(c, o) => EndLowersMeasure(plan, s, c, o);
    case EventArrives(r) => ArrivalLowersMeasure(plan, s, r);
    case _ => CueStepLowersMeasure(plan, s, step);
  }

  /** The environment's steps add nothing but the one event they publish. */
  lemma EnvironmentMeasure(plan: Plan, s: State, step: Step)
    requires DistinctIds(plan.cues) && Inv(plan, s) && Enabled(plan, s, step)
    requires step.Tick? || step.StatusPublished?
    ensures Shape(plan, Apply(plan, s, step))
    ensures Measure(plan, Apply(plan, s, step)) == Measure(plan, s) + (if step.StatusPublished? then 1 else 0)
  {
    var t := Apply(plan, s, step);
    StepShape(plan, s, step);
    assert CueWorks(plan, t) == CueWorks(plan, s) && CommandWorks(t) == CommandWorks(s);
    if step.StatusPublished? {
      BacklogMoves(plan, s, t, step.runtime);
    } else {
      assert Backlogs(plan, t) == Backlogs(plan, s);
    }
  }

  function CountWork(steps: seq<Step>): nat {
    if steps == [] then 0 else (if IsWork(steps[0]) then 1 else 0) + CountWork(steps[1..])
  }

  function CountStatus(steps: seq<Step>): nat {
    if steps == [] then 0 else (if steps[0].StatusPublished? then 1 else 0) + CountStatus(steps[1..])
  }

  /** No fault-free run can work longer than its first state's measure plus the status events it meets. */
  lemma {:induction false} WorkIsBounded(plan: Plan, s: State, steps: seq<Step>)
    requires DistinctIds(plan.cues) && Inv(plan, s) && Legal(plan, s, steps)
    requires forall k :: 0 <= k < |steps| ==> !IsFault(steps[k])
    ensures CountWork(steps) <= Measure(plan, s) + CountStatus(steps)
    decreases |steps|
  {
    if steps != [] {
      InvKept(plan, s, steps[0]);
      assert !IsFault(steps[0]);
      if IsWork(steps[0]) {
        WorkLowersMeasure(plan, s, steps[0]);
      } else {
        EnvironmentMeasure(plan, s, steps[0]);
      }
      WorkIsBounded(plan, Apply(plan, s, steps[0]), steps[1..]);
    }
  }

  // ---- so the Timeline completes ----

  /** A cue raised because it was too late under an "abort" policy. */
  ghost predicate AbortedLate(plan: Plan, s: State) {
    exists i :: 0 <= i < |s.pcs| && i < |plan.cues| && s.pcs[i].Aborted? && plan.cues[i].latePolicy.mode == Abort
  }

  /** Nothing but an "abort" policy makes work raise. */
  lemma CalmKept(plan: Plan, s: State, step: Step)
    requires Inv(plan, s) && Enabled(plan, s, step) && Calm(s) && !IsFault(step)
    ensures Calm(Apply(plan, s, step)) || AbortedLate(plan, Apply(plan, s, step))
  {
    if step.TimerDue? {
      var t := Apply(plan, s, step);
      assert t.pcs[step.cue].Aborted? ==> plan.cues[step.cue].latePolicy.mode == Abort;
    }
  }

  /** A fault-free run that cannot be continued has recorded exactly one outcome for every cue. */
  lemma StoppedMeansComplete(plan: Plan, s: State)
    requires Validated(plan) && Reachable(plan, s) && Calm(s)
    requires Shape(plan, s)
    requires forall to, step :: !PossibleAt(plan, s, to, step)
    ensures forall i :: 0 <= i < |s.pcs| ==> s.pcs[i].Finished?
    ensures forall id :: id in s.exec.outcomes <==> HasCue(plan.cues, id)
  {
    ReachableInv(plan, s);
    if k :| 0 <= k < |s.pcs| && !Ended(s.pcs[k]) {
      var to, step := SomeWorkIsPossible(plan, s);
      assert false;
    }
    forall i | 0 <= i < |s.pcs|
      ensures s.pcs[i].Finished? && HasOutcome(plan, s, i)
    {
      assert PcOk(plan, s, i);
    }
    forall id | HasCue(plan.cues, id)
      ensures id in s.exec.outcomes
    {
      var j :| 0 <= j < |plan.cues| && plan.cues[j].cueId == id;
      assert HasOutcome(plan, s, j);
    }
  }

  /** One wait and one work step from a calm, unfinished state. */
  lemma OneRound(plan: Plan, s: State) returns (to: real, step: Step)
    requires Validated(plan) && Inv(plan, s) && Calm(s)
    requires exists k :: 0 <= k < |s.pcs| && !Ended(s.pcs[k])
    ensures PossibleAt(plan, s, to, step)
    ensures var u := s.(now := to);
      && Shape(plan, u) && Enabled(plan, u, step)
      && Inv(plan, Apply(plan, u, step)) && Measure(plan, Apply(plan, u, step)) < Measure(plan, s)
      && (Calm(Apply(plan, u, step)) || AbortedLate(plan, Apply(plan, u, step)))
  {
    to, step := SomeWorkIsPossible(plan, s);
    assert Apply(plan, s, Tick(to)) == s.(now := to);
    InvKept(plan, s, Tick(to));
    EnvironmentMeasure(plan, s, Tick(to));
    var u := s.(now := to);
    InvKept(plan, u, step);
    CalmKept(plan, u, step);
    WorkLowersMeasure(plan, u, step);
  }

  lemma PrependRound(plan: Plan, s: State, to: real, step: Step, rest: seq<Step>)
    requires Shape(plan, s) && PossibleAt(plan, s, to, step)
    requires Legal(plan, Apply(plan, s.(now := to), step), rest)
    ensures var steps := [Tick(to), step] + rest;
      && Legal(plan, s, steps)
      && After(plan, s, steps) == After(plan, Apply(plan, s.(now := to), step), rest)
      && CountWork(steps) == 1 + CountWork(rest)
  {
    var steps := [Tick(to), step] + rest;
    var u := s.(now := to);
    assert Apply(plan, s, Tick(to)) == u;
    assert steps[1..] == [step] + rest && steps[1..][1..] == rest;
    assert Legal(plan, u, steps[1..]) && After(plan, u, steps[1..]) == After(plan, Apply(plan, u, step), rest);
  }

  /** The run is free of faults and comes to an end: every cue has finished, or one raised by its "abort" policy. */
  ghost predicate Completes(plan: Plan, s: State, steps: seq<Step>) {
    && Legal(plan, s, steps)
    && (forall k :: 0 <= k < |steps| ==> !IsFault(steps[k]))
    && var t := After(plan, s, steps);
       (forall i :: 0 <= i < |t.pcs| ==> t.pcs[i].Finished?) || AbortedLate(plan, t)
  }

  lemma PrependCompletes(plan: Plan, s: State, to: real, step: Step, rest: seq<Step>)
    requires Shape(plan, s) && PossibleAt(plan, s, to, step)
    requires Completes(plan, Apply(plan, s.(now := to), step), rest)
    ensures Completes(plan, s, [Tick(to), step] + rest)
    ensures CountWork([Tick(to), step] + rest) == 1 + CountWork(rest)
  {
    PrependRound(plan, s, to, step, rest);
  }

  /** From every calm state of a validated Timeline, some fault-free run within the measure brings it to an end; if
      every policy is "skip", every cue has finished then. */
  lemma {:induction false} CanComplete(plan: Plan, s: State) returns (steps: seq<Step>)
    requires Validated(plan) && Inv(plan, s) && Calm(s)
    ensures Completes(plan, s, steps) && CountWork(steps) <= Measure(plan, s)
    ensures (forall i :: 0 <= i < |plan.cues| ==> plan.cues[i].latePolicy.mode == Skip) ==>
      forall i :: 0 <= i < |After(plan, s, steps).pcs| ==> After(plan, s, steps).pcs[i].Finished?
    decreases Measure(plan, s)
  {
    if k :| 0 <= k < |s.pcs| && !Ended(s.pcs[k]) {
      var to, step := OneRound(plan, s);
      var t := Apply(plan, s.(now := to), step);
      var rest: seq<Step> := [];
      if Calm(t) {
        rest := CanComplete(plan, t);
      } else {
        assert After(plan, t, []) == t;
      }
      PrependCompletes(plan, s, to, step, rest);
      steps := [Tick(to), step] + rest;
    } else {
      steps := [];
      assert After(plan, s, steps) == s;
    }
  }
}
