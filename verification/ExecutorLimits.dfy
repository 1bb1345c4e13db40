/** Two runs that mark the limits of what the Timeline executor promises. */
module TimelineLimits {
  import opened Common
  import opened TimelineContract
  import opened TimelineExecution
  import opened TimelineRuns
  import opened TimelineWaits

  function Start(plan: Plan): State {
    State(0.0, 0.0, seq(|plan.cues|, _ => AwaitDependency(0)), Exec(map[], {}, map[]), [],
          seq(|plan.runtimes|, _ => Channel([], 0, true)), [], false)
  }

  lemma {:induction false} Continue(plan: Plan, first: State, steps: seq<Step>, next: Step)
    requires Legal(plan, first, steps) && Shape(plan, After(plan, first, steps))
    requires Enabled(plan, After(plan, first, steps), next)
    requires Shape(plan, Apply(plan, After(plan, first, steps), next))
    ensures Legal(plan, first, steps + [next])
    ensures After(plan, first, steps + [next]) == Apply(plan, After(plan, first, steps), next)
    decreases |steps|
  {
    if steps == [] {
      assert steps + [next] == [next];
      var t := Apply(plan, first, next);
      assert [next][1..] == [];
      assert Legal(plan, t, []) && After(plan, t, []) == t;
      assert Legal(plan, first, [next]) && After(plan, first, [next]) == After(plan, t, [next][1..]);
    } else {
      Continue(plan, Apply(plan, first, steps[0]), steps[1..], next);
      assert (steps + [next])[1..] == steps[1..] + [next];
    }
  }

  lemma Extend(plan: Plan, first: State, steps: seq<Step>, s: State, next: Step) returns (longer: seq<Step>, t: State)
    requires DistinctIds(plan.cues) && Inv(plan, s)
    requires Legal(plan, first, steps) && After(plan, first, steps) == s && Enabled(plan, s, next)
    ensures longer == steps + [next] && t == Apply(plan, s, next)
    ensures Legal(plan, first, longer) && After(plan, first, longer) == t && Inv(plan, t)
  {
    InvKept(plan, s, next);
    Continue(plan, first, steps, next);
    longer, t := steps + [next], Apply(plan, s, next);
  }

  const ABORTING: Plan := Plan(
    [Cue("a", 0, "motor", [], LatePolicy(5, Abort)), Cue("b", 100, "motor", [], LatePolicy(500, Skip))],
    ["motor"])

  /** Cue `a` is 10 ms late, 5 ms too many; cue `b` is not due yet. */
  lemma AbortedByA() returns (steps: seq<Step>, s: State)
    ensures Initial(ABORTING, Start(ABORTING)) && Legal(ABORTING, Start(ABORTING), steps)
    ensures After(ABORTING, Start(ABORTING), steps) == s && Inv(ABORTING, s)
    ensures |s.pcs| == 2 && s.pcs[0].Aborted? && s.pcs[1] == AwaitDependency(0)
    ensures s.submissions == [] && s.now == 10.0 && s.start == 0.0 && s.channels == [Channel([], 0, true)]
  {
    var s0 := Start(ABORTING);
    var s1;
    InitialInv(ABORTING, s0);
    steps, s1 := Extend(ABORTING, s0, [], s0, Tick(10.0));
    steps, s := Extend(ABORTING, s0, steps, s1, TimerDue(0, false));
  }

  /** A cue that aborts the Show does not stop its siblings: `a` raises, the listener is cancelled, and 90 ms later
      `b` is submitted. */
  lemma SubmitAfterFault() returns (steps: seq<Step>, fault: nat)
    ensures Initial(ABORTING, Start(ABORTING)) && Legal(ABORTING, Start(ABORTING), steps) && fault <= |steps|
    ensures Legal(ABORTING, Start(ABORTING), steps[..fault])
    ensures var s := After(ABORTING, Start(ABORTING), steps[..fault]);
      |s.pcs| == 2 && s.pcs[0].Aborted? && s.submissions == [] && s.now == 10.0
    ensures After(ABORTING, Start(ABORTING), steps).submissions == [Submission(1, 100.0)]
  {
    var s0 := Start(ABORTING);
    var s1, s2, s3, s4, s5;
    steps, s1 := AbortedByA();
    fault := |steps|;
    ghost var upToFault := steps;
    steps, s2 := Extend(ABORTING, s0, steps, s1, ListenerEnds(0));
    steps, s3 := Extend(ABORTING, s0, steps, s2, TimerDue(1, false));
    assert s3.pcs[1].Sleeping? && s3.pcs[1].wakeAt == 30.0;
    steps, s4 := Extend(ABORTING, s0, steps, s3, Tick(100.0));
    steps, s5 := Extend(ABORTING, s0, steps, s4, TimerDue(1, false));
    assert steps[..fault] == upToFault;
  }

  const ONE_CUE: Plan := Plan([Cue("a", 0, "motor", [], LatePolicy(500, Skip))], ["motor"])

  /** The listener is gone, and the cue has been submitted. */
  lemma SubmittedWithoutListener() returns (steps: seq<Step>, s: State)
    ensures Initial(ONE_CUE, Start(ONE_CUE)) && Legal(ONE_CUE, Start(ONE_CUE), steps)
    ensures After(ONE_CUE, Start(ONE_CUE), steps) == s && Inv(ONE_CUE, s)
    ensures s == State(0.0, 0.0, [Requested], Exec(map[], {}, map[]), [], [Channel([], 0, false)],
                       [Submission(0, 0.0)], true)
  {
    var s0 := Start(ONE_CUE);
    InitialInv(ONE_CUE, s0);
    var s1;
    steps, s1 := Extend(ONE_CUE, s0, [], s0, ResyncArrives(0));
    assert s1.exec.pending == map[];
    steps, s := Extend(ONE_CUE, s0, steps, s1, TimerDue(0, false));
  }

  /** The submit reply says the command is still running, and the listener is gone. */
  lemma RunningWithoutListener() returns (steps: seq<Step>, s: State)
    ensures Initial(ONE_CUE, Start(ONE_CUE)) && Legal(ONE_CUE, Start(ONE_CUE), steps)
    ensures After(ONE_CUE, Start(ONE_CUE), steps) == s && Inv(ONE_CUE, s)
    ensures s == State(0.0, 0.0, [Replied(Accepted(0, None))], Exec(map[], {}, map[]), [Command(0, 0, None)],
                       [Channel([], 0, false)], [Submission(0, 0.0)], true)
  {
    var s2, s3;
    steps, s2 := SubmittedWithoutListener();
    steps, s3 := Extend(ONE_CUE, Start(ONE_CUE), steps, s2, ServerAccepts(0));
    steps, s := Extend(ONE_CUE, Start(ONE_CUE), steps, s3, ServerReplies(0));
  }

  /** After a resync ended the listener, a cue whose command is still running registers its future
      and then waits through every continuation, whatever becomes of the command. */
  lemma StrandedAfterResync() returns (steps: seq<Step>)
    ensures Initial(ONE_CUE, Start(ONE_CUE)) && Legal(ONE_CUE, Start(ONE_CUE), steps)
    ensures forall more :: Legal(ONE_CUE, After(ONE_CUE, Start(ONE_CUE), steps), more) ==>
      "a" !in After(ONE_CUE, After(ONE_CUE, Start(ONE_CUE), steps), more).exec.outcomes
  {
    var p := ONE_CUE;
    var s0 := Start(p);
    var s4, s5, s6, s7;
    steps, s4 := RunningWithoutListener();
    steps, s5 := Extend(p, s0, steps, s4, ReplyArrives(0));
    steps, s6 := Extend(p, s0, steps, s5, ServerReads(0));
    steps, s7 := Extend(p, s0, steps, s6, RecordArrives(0));
    forall more | Legal(p, s7, more)
      ensures "a" !in After(p, s7, more).exec.outcomes
    {
      DeafMeansNoResync(p, s7, more);
      WaitsForever(p, s7, more, 0, 0);
    }
  }
}
