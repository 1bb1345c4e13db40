/** Staging and applying configuration revisions: compare-and-set under a lock, with a bounded journal. */
module ConfigStaging {
  import opened Common

  datatype ApplyOutcome = Succeeded | Rejected | Failed

  datatype Revision = Revision(id: string, kind: string, content: string, stagedAt: real)

  datatype Record = Record(revision: string, outcome: ApplyOutcome, detail: Option<string>, at: real)

  /** How the apply guard came back: it returned, raised `FusionError`, raised something else, or was cancelled. */
  datatype Verdict = Allowed | Refused(message: string) | Crashed(message: string) | Interrupted

  /** What an apply does next, or how it ended. */
  datatype Pc = Waiting | Guarding | Ended

  datatype Config = Config(staged: map<string, Revision>, active: Option<string>, journal: seq<Record>, limit: int)

  function StageSpec(c: Config, r: Revision): Config {
    c.(staged := c.staged[r.id := r])
  }

  function RecordSpec(c: Config, r: Record): Config {
    c.(journal := Last(c.journal + [r], c.limit))
  }

  function Mismatch(c: Config, expected: Option<string>): bool {
    expected.Some? && expected != c.active
  }

  /** From taking the lock to awaiting the guard, or to the end. */
  function EnterSpec(c: Config, revision: string, expected: Option<string>, detail: string, at: real)
    : (Config, Pc, Option<Record>)
  {
    if Mismatch(c, expected) then
      var r := Record(revision, Rejected, Some(detail), at);
      (RecordSpec(c, r), Ended, Some(r))
    else (c, Guarding, None)
  }

  /** From the guard's end to the release of the lock; `hookRaises` says whether `on_applied` raises. */
  function GuardEndSpec(c: Config, revision: string, verdict: Verdict, hookRaises: bool, at: real)
    : (Config, Option<Record>)
  {
    match verdict
    case Interrupted => (c, None)
    case Refused(message) =>
      var r := Record(revision, Rejected, Some(message), at);
      (RecordSpec(c, r), Some(r))
    case Crashed(message) =>
      var r := Record(revision, Failed, Some(message), at);
      (RecordSpec(c, r), Some(r))
    case Allowed =>
      var applied := c.(active := Some(revision));
      var r := Record(revision, Succeeded, None, at);
      if hookRaises then (applied, None) else (RecordSpec(applied, r), Some(r))
  }

  class ConfigService {
    const limit: int
    var staged: map<string, Revision>
    var active: Option<string>
    var journal: seq<Record>

    function View(): Config
      reads this
    {
      Config(staged, active, journal, limit)
    }

    constructor (limit: int)
      ensures View() == Config(map[], None, [], limit)
    {
      this.limit := limit;
      staged, active, journal := map[], None, [];
    }

    method Stage(id: string, kind: string, content: string, now: real) returns (r: Revision)
      modifies this`staged
      ensures r == Revision(id, kind, content, now)
      ensures View() == StageSpec(old(View()), r)
    {
      r := Revision(id, kind, content, now);
      staged := staged[id := r];
    }

    method Note(revision: string, outcome: ApplyOutcome, detail: Option<string>, now: real) returns (r: Record)
      modifies this`journal
      ensures r == Record(revision, outcome, detail, now)
      ensures View() == RecordSpec(old(View()), r)
    {
      r := Record(revision, outcome, detail, now);
      journal := journal + [r];
      if |journal| > limit {
        var surplus := |journal| - limit;
        journal := if surplus < |journal| then journal[surplus..] else [];
      }
    }

    method Enter(revision: string, expected: Option<string>, detail: string, now: real)
        returns (pc: Pc, r: Option<Record>)
      modifies this`journal
      ensures (View(), pc, r) == EnterSpec(old(View()), revision, expected, detail, now)
    {
      if expected.Some? && expected != active {
        var rejected := Note(revision, Rejected, Some(detail), now);
        return Ended, Some(rejected);
      }
      pc, r := Guarding, None;
    }

    method GuardEnd(revision: string, verdict: Verdict, hookRaises: bool, now: real) returns (r: Option<Record>)
      modifies this`active, this`journal
      ensures (View(), r) == GuardEndSpec(old(View()), revision, verdict, hookRaises, now)
    {
      r := None;
      match verdict {
        case Interrupted =>
        case Refused(message) =>
          var rejected := Note(revision, Rejected, Some(message), now);
          r := Some(rejected);
        case Crashed(message) =>
          var failed := Note(revision, Failed, Some(message), now);
          r := Some(failed);
        case Allowed =>
          active := Some(revision);
          if !hookRaises {
            var succeeded := Note(revision, Succeeded, None, now);
            r := Some(succeeded);
          }
      }
    }
  }

  // ---- interleaved applies ----

  datatype Call = Call(revision: string, expected: Option<string>, pc: Pc)

  /** What an apply left behind, in order: its record, or only its effect when `on_applied` raised. */
  datatype Entry =
    | Recorded(record: Record, expected: Option<string>)
    | Unrecorded(revision: string, expected: Option<string>)

  datatype System = System(config: Config, calls: seq<Call>, lock: Option<nat>, log: seq<Entry>)

  datatype Step =
    | StageCalled(staged: Revision)
    | ApplyCalled(revision: string, expected: Option<string>)
    | LockTaken(call: nat, detail: string, at: real)
    | WaitCancelled(call: nat)
    | GuardEnds(call: nat, verdict: Verdict, hookRaises: bool, at: real)

  predicate Enabled(s: System, step: Step) {
    match step
    case StageCalled(r) => r.id !in s.config.staged
    case ApplyCalled(_, _) => true
    case LockTaken(i, _, _) => i < |s.calls| && s.calls[i].pc == Waiting && s.lock == None
    case WaitCancelled(i) => i < |s.calls| && s.calls[i].pc == Waiting
    case GuardEnds(i, _, _, _) => i < |s.calls| && s.calls[i].pc == Guarding
  }

  function Logged(s: System, r: Option<Record>, expected: Option<string>): seq<Entry> {
    if r.Some? then s.log + [Recorded(r.value, expected)] else s.log
  }

  function Apply(s: System, step: Step): System
    requires Enabled(s, step)
  {
    match step
    case StageCalled(r) => s.(config := StageSpec(s.config, r))
    case ApplyCalled(revision, expected) =>
      if revision in s.config.staged then s.(calls := s.calls + [Call(revision, expected, Waiting)]) else s
    case LockTaken(i, detail, at) =>
      var c := s.calls[i];
      var (config, pc, r) := EnterSpec(s.config, c.revision, c.expected, detail, at);
      s.(config := config, calls := s.calls[i := c.(pc := pc)], lock := if pc == Guarding then Some(i) else None,
         log := Logged(s, r, c.expected))
    case WaitCancelled(i) => s.(calls := s.calls[i := s.calls[i].(pc := Ended)])
    case GuardEnds(i, verdict, hookRaises, at) =>
      var c := s.calls[i];
      var (config, r) := GuardEndSpec(s.config, c.revision, verdict, hookRaises, at);
      s.(config := config, calls := s.calls[i := c.(pc := Ended)], lock := None,
         log := if verdict.Allowed? && hookRaises then s.log + [Unrecorded(c.revision, c.expected)]
                else Logged(s, r, c.expected))
  }

  predicate Advances(e: Entry) {
    e.Unrecorded? || e.record.outcome == Succeeded
  }

  function NewActive(e: Entry): string {
    if e.Unrecorded? then e.revision else e.record.revision
  }

  /** The active revision according to the whole history. */
  function ActiveOf(log: seq<Entry>): Option<string> {
    if log == [] then None
    else if Advances(log[|log| - 1]) then Some(NewActive(log[|log| - 1]))
    else ActiveOf(log[..|log| - 1])
  }

  /** The unbounded history of records. */
  function RecordsOf(log: seq<Entry>): seq<Record> {
    if log == [] then []
    else RecordsOf(log[..|log| - 1]) + if log[|log| - 1].Recorded? then [log[|log| - 1].record] else []
  }

  function LastSuccess(records: seq<Record>): Option<string> {
    if records == [] then None
    else if records[|records| - 1].outcome == Succeeded then Some(records[|records| - 1].revision)
    else LastSuccess(records[..|records| - 1])
  }

  lemma LogGrows(log: seq<Entry>, e: Entry)
    ensures ActiveOf(log + [e]) == if Advances(e) then Some(NewActive(e)) else ActiveOf(log)
    ensures RecordsOf(log + [e]) == RecordsOf(log) + if e.Recorded? then [e.record] else []
  {
    assert (log + [e])[..|log|] == log;
  }

  /** Every advance with an expected revision replaced exactly that one. */
  ghost predicate Replaces(log: seq<Entry>) {
    forall k :: 0 <= k < |log| && Advances(log[k]) && log[k].expected.Some? ==> ActiveOf(log[..k]) == log[k].expected
  }

  ghost predicate LockFits(s: System) {
    && (forall i :: 0 <= i < |s.calls| && s.calls[i].pc == Guarding ==> s.lock == Some(i))
    && (forall i :: 0 <= i < |s.calls| && s.calls[i].pc == Guarding ==> !Mismatch(s.config, s.calls[i].expected))
    && (forall i :: 0 <= i < |s.calls| ==> s.calls[i].revision in s.config.staged)
    && (s.config.active.Some? ==> s.config.active.value in s.config.staged)
  }

  ghost predicate HistoryFits(s: System) {
    && s.config.active == ActiveOf(s.log)
    && s.config.journal == Last(RecordsOf(s.log), s.config.limit)
    && Replaces(s.log)
  }

  ghost predicate Inv(s: System) {
    LockFits(s) && HistoryFits(s)
  }

  lemma {:induction false} ReplacesGrows(log: seq<Entry>, e: Entry)
    requires Replaces(log)
    requires Advances(e) && e.expected.Some? ==> ActiveOf(log) == e.expected
    ensures Replaces(log + [e])
  {
    forall k | 0 <= k <= |log| ensures (log + [e])[..k] == log[..k] {}
    assert log[..|log|] == log;
  }

  lemma HistoryGrows(s: System, t: System, e: Entry)
    requires HistoryFits(s) && t.log == s.log + [e] && t.config.limit == s.config.limit
    requires t.config.active == if Advances(e) then Some(NewActive(e)) else s.config.active
    requires t.config.journal ==
      if e.Recorded? then Last(s.config.journal + [e.record], s.config.limit) else s.config.journal
    requires Advances(e) && e.expected.Some? ==> s.config.active == e.expected
    ensures HistoryFits(t)
  {
    LogGrows(s.log, e);
    ReplacesGrows(s.log, e);
    if e.Recorded? {
      LastOfLast(RecordsOf(s.log), e.record, s.config.limit);
    } else {
      assert RecordsOf(s.log) + [] == RecordsOf(s.log);
    }
  }

  lemma {:induction false} HistoryKept(s: System, step: Step)
    requires Inv(s) && Enabled(s, step)
    ensures HistoryFits(Apply(s, step))
  {
    var t := Apply(s, step);
    if |t.log| > |s.log| {
      HistoryGrows(s, t, t.log[|s.log|]);
    }
  }

  lemma LockKept(s: System, step: Step)
    requires Inv(s) && Enabled(s, step)
    ensures LockFits(Apply(s, step))
  {
  }

  ghost predicate Legal(s: System, steps: seq<Step>)
    decreases |steps|
  {
    steps != [] ==> Enabled(s, steps[0]) && Legal(Apply(s, steps[0]), steps[1..])
  }

  ghost function Run(s: System, steps: seq<Step>): System
    requires Legal(s, steps)
    decreases |steps|
  {
    if steps == [] then s else Run(Apply(s, steps[0]), steps[1..])
  }

  function Initial(limit: int): System {
    System(Config(map[], None, [], limit), [], None, [])
  }

  lemma {:induction false} RunKeeps(s: System, steps: seq<Step>)
    requires Inv(s) && Legal(s, steps)
    ensures Inv(Run(s, steps)) && Run(s, steps).config.limit == s.config.limit
    decreases |steps|
  {
    if steps != [] {
      HistoryKept(s, steps[0]);
      LockKept(s, steps[0]);
      RunKeeps(Apply(s, steps[0]), steps[1..]);
    }
  }

  /** However applies interleave, the journal is exactly the tail of the unbounded history: as many of the latest
      records as the limit allows. */
  lemma JournalIsTheTail(limit: int, steps: seq<Step>)
    requires Legal(Initial(limit), steps)
    ensures
      var s := Run(Initial(limit), steps);
      var records := RecordsOf(s.log);
      var kept := if limit < 0 then 0 else if limit < |records| then limit else |records|;
      s.config.journal == records[|records| - kept..]
  {
    RunKeeps(Initial(limit), steps);
  }

  /** The latest advance carries its record, or it activated the very revision that the last SUCCEEDED record
      names: its `on_applied` did not raise, or what it raised over changed nothing. */
  predicate LatestIsRecorded(log: seq<Entry>) {
    if log == [] then true
    else if !Advances(log[|log| - 1]) then LatestIsRecorded(log[..|log| - 1])
    else log[|log| - 1].Recorded? || LastSuccess(RecordsOf(log)) == Some(log[|log| - 1].revision)
  }

  lemma {:induction false} ActiveIsLastSuccess(log: seq<Entry>)
    ensures ActiveOf(log) == LastSuccess(RecordsOf(log)) <==> LatestIsRecorded(log)
  {
    if log != [] {
      var n := |log| - 1;
      var before := RecordsOf(log[..n]);
      if log[n].Recorded? {
        assert RecordsOf(log) == before + [log[n].record];
        assert RecordsOf(log)[..|before|] == before;
      }
      if !Advances(log[n]) {
        ActiveIsLastSuccess(log[..n]);
      }
    }
  }

  /** The active revision is that of the last SUCCEEDED record exactly when the latest advance is recorded or
      re-activated that revision. */
  lemma ActiveRevision(limit: int, steps: seq<Step>)
    requires Legal(Initial(limit), steps)
    ensures var s := Run(Initial(limit), steps);
      && s.config.active == ActiveOf(s.log)
      && (s.config.active == LastSuccess(RecordsOf(s.log)) <==> LatestIsRecorded(s.log))
      && (s.config.active.Some? ==> s.config.active.value in s.config.staged)
  {
    RunKeeps(Initial(limit), steps);
    ActiveIsLastSuccess(Run(Initial(limit), steps).log);
  }

  predicate ActiveIsRecorded(s: System) {
    s.config.active == LastSuccess(RecordsOf(s.log))
  }

  lemma RecordKeepsSuccess(log: seq<Entry>, e: Entry)
    ensures
      LastSuccess(RecordsOf(log + [e])) ==
      if e.Recorded? && e.record.outcome == Succeeded then Some(e.record.revision) else LastSuccess(RecordsOf(log))
  {
    LogGrows(log, e);
    var records := RecordsOf(log);
    if e.Recorded? {
      assert (records + [e.record])[..|records|] == records;
    } else {
      assert records + [] == records;
    }
  }

  /** Which step decides: an allowed apply leaves the active revision recorded exactly when its `on_applied` does
      not raise or its revision is that of the last SUCCEEDED record already; every other step leaves it as it was. */
  lemma HookDecides(s: System, step: Step)
    requires Inv(s) && Enabled(s, step)
    ensures
      if step.GuardEnds? && step.verdict.Allowed? then
        ActiveIsRecorded(Apply(s, step)) <==>
          !step.hookRaises || LastSuccess(RecordsOf(s.log)) == Some(s.calls[step.call].revision)
      else ActiveIsRecorded(Apply(s, step)) <==> ActiveIsRecorded(s)
  {
    hide RecordsOf, LastSuccess, ActiveOf, Last, Replaces;
    var t := Apply(s, step);
    if |t.log| > |s.log| {
      RecordKeepsSuccess(s.log, t.log[|s.log|]);
    }
  }

  /** What an apply leaves in the history, by how its attempt went. */
  datatype Attempt =
    | Compared(found: Option<string>, detail: string)
    | Guarded(verdict: Verdict, hookRaises: bool)

  function LeftBehind(revision: string, expected: Option<string>, attempt: Attempt, at: real): seq<Entry> {
    match attempt
    case Compared(found, detail) =>
      if expected == None || expected == found then []
      else [Recorded(Record(revision, Rejected, Some(detail), at), expected)]
    case Guarded(Allowed, false) => [Recorded(Record(revision, Succeeded, None, at), expected)]
    case Guarded(Allowed, true) => [Unrecorded(revision, expected)]
    case Guarded(Refused(message), _) => [Recorded(Record(revision, Rejected, Some(message), at), expected)]
    case Guarded(Crashed(message), _) => [Recorded(Record(revision, Failed, Some(message), at), expected)]
    case Guarded(Interrupted, _) => []
  }

  /** The guard is reached exactly when nothing was expected or the expected revision is the latest advance; a
      mismatch and a refusal are REJECTED, a crash is FAILED, and no other step adds to the history. */
  lemma AppliesLeaveTheirRecord(limit: int, steps: seq<Step>, step: Step)
    requires Legal(Initial(limit), steps) && Enabled(Run(Initial(limit), steps), step)
    ensures
      var s := Run(Initial(limit), steps);
      var t := Apply(s, step);
      match step
      case LockTaken(i, detail, at) =>
        var c := s.calls[i];
        && t.log == s.log + LeftBehind(c.revision, c.expected, Compared(ActiveOf(s.log), detail), at)
        && t.calls[i].pc == (if c.expected == None || c.expected == ActiveOf(s.log) then Guarding else Ended)
        && t.lock == (if c.expected == None || c.expected == ActiveOf(s.log) then Some(i) else None)
      case GuardEnds(i, verdict, hookRaises, at) =>
        var c := s.calls[i];
        && t.log == s.log + LeftBehind(c.revision, c.expected, Guarded(verdict, hookRaises), at)
        && t.calls[i].pc == Ended && t.lock == None
      case _ => t.log == s.log
  {
    RunKeeps(Initial(limit), steps);
    hide ActiveOf, RecordsOf;
    var s := Run(Initial(limit), steps);
    assert s.log + [] == s.log;
  }

  /** A success that named an expected revision replaced exactly that one. */
  lemma SuccessReplacedTheExpected(limit: int, steps: seq<Step>, k: nat)
    requires Legal(Initial(limit), steps)
    requires var log := Run(Initial(limit), steps).log; k < |log| && Advances(log[k]) && log[k].expected.Some?
    ensures var log := Run(Initial(limit), steps).log; ActiveOf(log[..k]) == log[k].expected
  {
    RunKeeps(Initial(limit), steps);
  }

  lemma {:induction false} ActiveHasAnAdvance(log: seq<Entry>, a: nat, b: nat)
    requires a < b <= |log| && Advances(log[a])
    ensures exists c :: a <= c < b && Advances(log[c]) && ActiveOf(log[..b]) == Some(NewActive(log[c]))
    decreases b
  {
    assert log[..b][..b - 1] == log[..b - 1];
    if !Advances(log[b - 1]) {
      ActiveHasAnAdvance(log, a, b - 1);
    }
  }

  /** Two applies that expect the same revision cannot both win, unless that revision was applied again in between. */
  lemma RacersDoNotBothWin(limit: int, steps: seq<Step>, a: nat, b: nat)
    requires Legal(Initial(limit), steps)
    requires var log := Run(Initial(limit), steps).log;
      && a < b < |log| && Advances(log[a]) && Advances(log[b])
      && log[b].expected.Some? && log[b].expected == log[a].expected && NewActive(log[a]) != log[a].expected.value
    ensures var log := Run(Initial(limit), steps).log;
      exists c :: a < c < b && Advances(log[c]) && NewActive(log[c]) == log[a].expected.value
  {
    RunKeeps(Initial(limit), steps);
    ActiveHasAnAdvance(Run(Initial(limit), steps).log, a, b);
  }

  /** At most one guard runs at a time, and nothing moves the active revision meanwhile. */
  lemma GuardsExclude(limit: int, steps: seq<Step>, i: nat, j: nat)
    requires Legal(Initial(limit), steps)
    requires var calls := Run(Initial(limit), steps).calls;
      i < |calls| && j < |calls| && calls[i].pc == Guarding && calls[j].pc == Guarding
    ensures i == j
    ensures var s := Run(Initial(limit), steps); !Mismatch(s.config, s.calls[i].expected)
  {
    RunKeeps(Initial(limit), steps);
  }

  lemma {:induction false} Continue(s: System, steps: seq<Step>, next: Step)
    requires Legal(s, steps) && Enabled(Run(s, steps), next)
    ensures Legal(s, steps + [next]) && Run(s, steps + [next]) == Apply(Run(s, steps), next)
    decreases |steps|
  {
    if steps == [] {
      assert steps + [next] == [next] && [next][1..] == [];
      assert Legal(Apply(s, next), []);
    } else {
      Continue(Apply(s, steps[0]), steps[1..], next);
      assert (steps + [next])[1..] == steps[1..] + [next];
    }
  }

  lemma Extend(limit: int, steps: seq<Step>, s: System, next: Step) returns (longer: seq<Step>, t: System)
    requires Legal(Initial(limit), steps) && Run(Initial(limit), steps) == s && Enabled(s, next)
    ensures longer == steps + [next] && t == Apply(s, next)
    ensures Legal(Initial(limit), longer) && Run(Initial(limit), longer) == t
  {
    Continue(Initial(limit), steps, next);
    longer, t := steps + [next], Apply(s, next);
  }

  /** One apply of `revision`, its guard still running. */
  function OneGuarding(limit: int, r: Revision): System {
    System(Config(map[r.id := r], None, [], limit), [Call(r.id, None, Guarding)], Some(0), [])
  }

  lemma GuardingOnce(limit: int, r: Revision) returns (steps: seq<Step>)
    ensures Legal(Initial(limit), steps) && Run(Initial(limit), steps) == OneGuarding(limit, r)
  {
    var s1, s2, s3;
    steps, s1 := Extend(limit, [], Initial(limit), StageCalled(r));
    steps, s2 := Extend(limit, steps, s1, ApplyCalled(r.id, None));
    assert s2.calls == [Call(r.id, None, Waiting)];
    steps, s3 := Extend(limit, steps, s2, LockTaken(0, "", 0.0));
    assert s3.calls == [Call(r.id, None, Guarding)];
  }

  /** An `on_applied` that raises leaves a new active revision behind and no record of it. */
  lemma RaisingHookLosesTheRecord(limit: int, r: Revision) returns (steps: seq<Step>)
    ensures Legal(Initial(limit), steps)
    ensures var s := Run(Initial(limit), steps);
      s.config.active == Some(r.id) && LastSuccess(RecordsOf(s.log)) == None && s.config.journal == []
  {
    var s4;
    steps := GuardingOnce(limit, r);
    steps, s4 := Extend(limit, steps, OneGuarding(limit, r), GuardEnds(0, Allowed, true, 0.0));
    LogGrows([], Unrecorded(r.id, None));
    assert s4.log == [] + [Unrecorded(r.id, None)];
  }
}
