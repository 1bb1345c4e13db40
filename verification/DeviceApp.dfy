/** The device runtime's calls and tasks, on its objects. */
module DeviceApp {
  import opened Common
  import opened CommandContract
  import opened TargetRunning
  import opened ControlSessions
  import opened CommandLedgers
  import opened DeviceRuntimes
  import Cfg = ConfigStaging

  class DeviceRuntimeApp {
    const ledger: CommandLedger
    const sessions: ControlSessionManager
    const runners: map<string, TargetRunner>
    const changes: EventLog
    var now: real
    var tasks: seq<Task>
    var executed: seq<nat>
    var config: Cfg.System

    ghost predicate Valid()
      reads this, ledger, ledger.byCommandId, runners.Values
    {
      && ledger.Valid()
      && |tasks| == |ledger.byCommandId|
      && (forall c :: 0 <= c < |tasks| ==> ledger.byCommandId[c].what.target in runners)
      && (forall t :: t in runners ==> runners[t].changes == changes)
      && (forall t, u :: t in runners && u in runners && t != u ==> runners[t] != runners[u])
      && (forall t :: t in runners && runners[t].active != null ==> Filed(runners[t].active))
    }

    ghost predicate Filed(record: CommandRecord)
      reads ledger
    {
      record.number < |ledger.byCommandId| && ledger.byCommandId[record.number] == record
    }

    ghost function Runners(): map<string, Runner>
      reads runners.Values
    {
      map t | t in runners :: runners[t].View()
    }

    ghost function View(): Runtime
      reads this, ledger, ledger.byCommandId, sessions, sessions.active, runners.Values, changes
    {
      Runtime(now, sessions.View(), ledger.View(), tasks, Runners(), changes.events, executed, config)
    }

    constructor (targets: set<string>, limit: int)
      ensures Valid() && View() == Initial(targets, limit)
      ensures fresh(ledger) && fresh(sessions) && fresh(changes) && fresh(runners.Values)
    {
      var log := new EventLog();
      var created: map<string, TargetRunner> := map[];
      var todo := targets;
      while todo != {}
        invariant created.Keys == targets - todo && log.events == []
        invariant forall t :: t in created ==>
          fresh(created[t]) && created[t].changes == log && created[t].View() == Runner(1, None)
        invariant forall t, u :: t in created && u in created && t != u ==> created[t] != created[u]
      {
        var t :| t in todo;
        var runner := new TargetRunner(log);
        created := created[t := runner];
        todo := todo - {t};
      }
      var book := new CommandLedger();
      var manager := new ControlSessionManager();
      ledger, sessions, changes, runners := book, manager, log, created;
      now, tasks, executed, config := 0.0, [], [], Cfg.Initial(limit);
      new;
      assert Runners() == map t | t in targets :: Runner(1, None);
      assert ledger.View() == Ledger(map[], []);
      assert sessions.View() == Sessions(None, 0);
      assert changes.events == [];
    }

    lemma ViewIsFormed()
      requires Valid()
      ensures Formed(View())
    {
      assert forall c :: 0 <= c < |tasks| ==> TargetOf(View(), c) == ledger.byCommandId[c].what.target;
    }

    method BumpGenerations()
      requires Valid()
      modifies runners.Values
      ensures Valid() && View() == old(View()).(runners := BumpAll(old(View()).runners))
    {
      var todo := runners.Keys;
      while todo != {}
        invariant todo <= runners.Keys
        invariant Valid()
        invariant forall t :: t in runners ==>
          runners[t].View() == if t in todo then old(runners[t].View()) else Bumped(old(runners[t].View()))
        invariant View() == old(View()).(runners := Runners())
      {
        var t :| t in todo;
        runners[t].BumpGeneration();
        todo := todo - {t};
      }
      assert Runners() == BumpAll(old(Runners()));
    }

    method AcquireControlSession(ttl: Option<real>)
      requires Valid()
      modifies sessions, runners.Values
      ensures Valid() && Formed(old(View())) && View() == Apply(old(View()), SessionAcquired(ttl))
    {
      ViewIsFormed();
      BumpGenerations();
      var session := sessions.Acquire(now, ttl);
    }

    method RenewControlSession(session: nat, ttl: Option<real>) returns (e: Option<Error>)
      requires Valid()
      modifies sessions, sessions.active
      ensures Valid() && Formed(old(View())) && View() == Apply(old(View()), SessionRenewed(session, ttl))
      ensures e == RenewSpec(old(View()).sessions, session, now, ttl).1
    {
      ViewIsFormed();
      e := sessions.Renew(session, now, ttl);
    }

    method ReleaseControlSession(session: nat)
      requires Valid()
      modifies sessions, runners.Values
      ensures Valid() && Formed(old(View())) && View() == Apply(old(View()), SessionReleased(session))
    {
      ViewIsFormed();
      sessions.Release(session);
      BumpGenerations();
    }

    /** Only command `c`'s record, its runner, its task and the events have changed. */
    twostate predicate OnlyStepped(c: nat)
      reads this, ledger, ledger.byCommandId, sessions, sessions.active, runners.Values
    {
      && old(Valid()) && c < |old(tasks)| == |tasks| && tasks == old(tasks)[c := tasks[c]]
      && ledger.byCommandId == old(ledger.byCommandId) && ledger.byRequestId == old(ledger.byRequestId)
      && sessions.View() == old(sessions.View())
      && now == old(now) && config == old(config)
      && (forall d :: 0 <= d < |tasks| && d != c ==> ledger.byCommandId[d].View() == old(ledger.byCommandId[d].View()))
      && var record := ledger.byCommandId[c];
      && record.what.target in runners
      && (forall t :: t in runners && t != record.what.target ==>
        runners[t].active == old(runners[t].active) && runners[t].generation == old(runners[t].generation))
      && var runner := runners[record.what.target];
      && (runner.active == null || runner.active == old(runner.active) || runner.active == record)
    }

    /** Such a step is a `Put`. */
    twostate lemma StepIsStored(c: nat)
      requires OnlyStepped(c)
      ensures Valid() && Formed(old(View())) && c < |old(View()).tasks|
      ensures
        var record := ledger.byCommandId[c];
        var runner := runners[record.what.target];
        && SliceOf(old(View()), c) == old(runner.SliceOf(record))
        && View() == Put(old(View()), c, runner.SliceOf(record), tasks[c]).(executed := executed)
    {
      ViewIsFormed();
      var record := ledger.byCommandId[c];
      var runner := runners[record.what.target];
      assert ledger.View().records == old(ledger.View().records)[c := record.View()];
      assert Runners() == old(Runners())[record.what.target := runner.View()];
    }

    static lemma ExecuteEndIsPut(s: Runtime, c: nat, how: Ending)
      requires Formed(s) && Enabled(s, ExecuteEnds(c, how))
      ensures var (x, task) := ExecuteEndSpec(SliceOf(s, c), c, s.tasks[c].generation, how);
        Apply(s, ExecuteEnds(c, how)) == Put(s, c, x, task)
    {
    }

    method ExecuteEnd(c: nat, how: Ending)
      requires Valid() && c < |tasks| && tasks[c].Executing?
      modifies this`tasks, runners.Values, ledger.byCommandId[c], changes
      ensures Valid() && Formed(old(View())) && View() == Apply(old(View()), ExecuteEnds(c, how))
    {
      hide ExecuteEndSpec, Apply;
      ViewIsFormed();
      ExecuteEndIsPut(View(), c, how);
      var record := ledger.byCommandId[c];
      var runner := runners[record.what.target];
      var task := runner.ExecuteEnd(record, tasks[c].generation, how);
      tasks := tasks[c := task];
      StepIsStored(c);
    }

    static lemma PolledIsPut(s: Runtime, c: nat, probe: Probe)
      requires Formed(s) && Enabled(s, Polled(c, probe))
      ensures var (x, task) := PollSpec(SliceOf(s, c), c, s.tasks[c], s.now, probe);
        Apply(s, Polled(c, probe)) == Put(s, c, x, task)
    {
    }

    method Poll(c: nat, probe: Probe)
      requires Valid() && c < |tasks| && tasks[c].Polling?
      modifies this`tasks, runners.Values, ledger.byCommandId[c], changes
      ensures Valid() && Formed(old(View())) && View() == Apply(old(View()), Polled(c, probe))
    {
      hide PollSpec, Apply;
      ViewIsFormed();
      PolledIsPut(View(), c, probe);
      var record := ledger.byCommandId[c];
      var runner := runners[record.what.target];
      var task := runner.Poll(record, tasks[c], now, probe);
      tasks := tasks[c := task];
      StepIsStored(c);
    }

    /** The observing task is cancelled in its sleep. */
    method CancelObserver(c: nat)
      requires Valid() && c < |tasks| && tasks[c].Polling? && tasks[c].deadline.Some?
      modifies this`tasks, runners.Values, ledger.byCommandId[c], changes
      ensures Valid() && Formed(old(View())) && View() == Apply(old(View()), ObserverCancelled(c))
    {
      hide Finished;
      ViewIsFormed();
      var record := ledger.byCommandId[c];
      var runner := runners[record.what.target];
      runner.Finish(record, Cancelled, None);
      tasks := tasks[c := NoTask];
      StepIsStored(c);
    }

    /** From the end of the apply guard, with `on_applied` bumping every runner. */
    method ApplyGuardEnds(move: Cfg.Step)
      requires Valid() && Cfg.Enabled(config, move) && move.GuardEnds? && !move.hookRaises
      modifies this`config, runners.Values
      ensures Valid() && Formed(old(View())) && View() == Apply(old(View()), ConfigMoves(move))
    {
      hide Cfg.Apply;
      ViewIsFormed();
      config := Cfg.Apply(config, move);
      if move.verdict.Allowed? {
        BumpGenerations();
      }
    }

    /** The default guard's refusal. */
    method BusyTargets() returns (busy: set<string>)
      requires Valid()
      ensures Formed(View())
      ensures forall t :: t in busy <==> t in runners && BusyTarget(View(), t)
    {
      ViewIsFormed();
      busy := set t | t in runners && runners[t].IsBusy();
    }

    /** `submit_command` up to the await of `adapter.execute`, or to its end. */
    method SubmitCommand(req: Request, priority: Option<Priority>) returns (r: Result<nat, Error>)
      requires Valid()
      modifies this`tasks, this`executed, sessions, ledger, runners.Values, changes
      ensures Valid() && Formed(old(View())) && (View(), r) == SubmitCommandSpec(old(View()), req, priority)
    {
      hide LaunchSpec, BeginSpec;
      ViewIsFormed();
      if req.what.target !in runners {
        return Err(UnknownTarget);
      }
      var refused := sessions.Validate(req.session, now);
      if refused.Some? {
        return Err(refused.value);
      }
      var runner := runners[req.what.target];
      var begun, record := Begin(req, runner);
      match begun {
        case Conflict =>
          return Err(RequestIdConflict);
        case Known(c) =>
          return Ok(c);
        case New(c) =>
          r := Launch(c, record, runner, priority);
      }
    }

    /** `ledger.begin`; a new command starts without a task. */
    method Begin(req: Request, runner: TargetRunner) returns (begun: Begun, record: CommandRecord?)
      requires Valid() && req.what.target in runners && runner == runners[req.what.target]
      modifies this`tasks, ledger
      ensures Valid() && begun == BeginSpec(old(ledger.View()), req, runner.generation).1
      ensures Formed(old(View()))
      ensures View() == if begun.New? then DeviceRuntimes.Filed(old(View()), req) else old(View())
      ensures begun.New? ==>
        && fresh(record) && record.what == req.what && begun.command == |old(tasks)| < |tasks|
        && ledger.byCommandId[begun.command] == record
    {
      hide Formed;
      ViewIsFormed();
      begun, record := ledger.Begin(req, runner.generation);
      if begun.New? {
        tasks := tasks + [NoTask];
      }
    }

    /** What `submit_command` does when the runner refuses. */
    method Reject(record: CommandRecord, e: Error)
      modifies record, changes
      ensures record.View() ==
        old(record.View()).(status := Terminal, outcome := Some(Rejected), error := Some(ErrorText(e)))
      ensures changes.events == old(changes.events) + [Announcement(record.number, record.View())]
    {
      record.status := Terminal;
      record.outcome := Some(Rejected);
      record.error := Some(ErrorText(e));
      changes.Publish(Announcement(record.number, record.View()));
    }

    method Launch(c: nat, record: CommandRecord, runner: TargetRunner, priority: Option<Priority>)
        returns (r: Result<nat, Error>)
      requires Valid() && c < |tasks| && ledger.byCommandId[c] == record && runner == runners[record.what.target]
      modifies this`tasks, this`executed, runner, record, changes
      ensures Valid() && Formed(old(View()))
      ensures (View(), r) == LaunchSpec(old(View()), c, old(runner.IsBusy()), priority)
    {
      hide SubmitSpec, ErrorText;
      ViewIsFormed();
      var launched := runner.Submit(record, priority);
      match launched {
        case Ok(task) =>
          executed := executed + [c];
          tasks := tasks[c := task];
          StepIsStored(c);
          r := Ok(c);
        case Err(e) =>
          Reject(record, e);
          tasks := tasks[c := NoTask];
          StepIsStored(c);
          r := Err(e);
      }
    }
  }
}
