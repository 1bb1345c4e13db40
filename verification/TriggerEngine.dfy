/** The trigger engine: which input events reach the show, and how often. Times are seconds, limits milliseconds. */
module TriggerHandling {
  import opened Common
  import opened ShowControl

  datatype TriggerAction = StartShow | HoldShow | AbortShow

  datatype Trigger = Trigger(
    id: string,
    action: TriggerAction,
    showStates: Option<set<ShowState>>,
    debounceMs: real,
    cooldownMs: real)

  /** What `handle` meets at one trigger: did its condition match, the show's state there, did the action return. */
  datatype Encounter = Encounter(matches: bool, state: ShowState, actionReturns: bool)

  datatype Verdict = NoMatch | Debounced | WrongState | CoolingDown | ActionRaised | Fired

  /** The two instants the engine remembers of one trigger. */
  datatype Entry = Entry(matchedAt: Option<real>, firedAt: Option<real>)

  predicate Within(since: Option<real>, now: real, ms: real) {
    since.Some? && (now - since.value) * 1000.0 < ms
  }

  predicate StateAllowed(t: Trigger, state: ShowState) {
    t.showStates.Some? ==> state in t.showStates.value
  }

  function Decide(t: Trigger, e: Entry, met: Encounter, now: real): Verdict {
    if !met.matches then NoMatch
    else if Within(e.matchedAt, now, t.debounceMs) then Debounced
    else if !StateAllowed(t, met.state) then WrongState
    else if Within(e.firedAt, now, t.cooldownMs) then CoolingDown
    else if !met.actionReturns then ActionRaised
    else Fired
  }

  function Remember(e: Entry, v: Verdict, now: real): Entry {
    Entry(if v == NoMatch then e.matchedAt else Some(now), if v == Fired then Some(now) else e.firedAt)
  }

  datatype Memory = Memory(matchedAt: map<string, real>, firedAt: map<string, real>) {
    function Of(id: string): Entry {
      Entry(if id in matchedAt then Some(matchedAt[id]) else None, if id in firedAt then Some(firedAt[id]) else None)
    }

    function Learn(id: string, v: Verdict, now: real): Memory {
      Memory(if v == NoMatch then matchedAt else matchedAt[id := now],
          if v == Fired then firedAt[id := now] else firedAt)
    }
  }

  /** The first `n` triggers in order of registration, each seeing what the earlier ones left. */
  function HandleSpec(m: Memory, triggers: seq<Trigger>, met: seq<Encounter>, now: real, n: nat)
    : (r: (Memory, seq<Verdict>))
    requires n <= |triggers| == |met|
    ensures |r.1| == n
  {
    if n == 0 then (m, [])
    else
      var (before, verdicts) := HandleSpec(m, triggers, met, now, n - 1);
      var t := triggers[n - 1];
      var v := Decide(t, before.Of(t.id), met[n - 1], now);
      (before.Learn(t.id, v, now), verdicts + [v])
  }

  class TriggerEngine {
    var triggers: seq<Trigger>
    var lastMatchedAt: map<string, real>
    var lastFiredAt: map<string, real>

    function View(): Memory
      reads this
    {
      Memory(lastMatchedAt, lastFiredAt)
    }

    constructor ()
      ensures triggers == [] && View() == Memory(map[], map[])
    {
      triggers, lastMatchedAt, lastFiredAt := [], map[], map[];
    }

    method Register(t: Trigger)
      modifies this`triggers
      ensures triggers == old(triggers) + [t]
    {
      triggers := triggers + [t];
    }

    /** One event at time `now`; `verdicts` lists what became of each trigger. */
    method Handle(now: real, met: seq<Encounter>) returns (verdicts: seq<Verdict>)
      requires |met| == |triggers|
      modifies this`lastMatchedAt, this`lastFiredAt
      ensures (View(), verdicts) == HandleSpec(old(View()), triggers, met, now, |triggers|)
    {
      verdicts := [];
      for i := 0 to |triggers|
        invariant (View(), verdicts) == HandleSpec(old(View()), triggers, met, now, i)
      {
        var t := triggers[i];
        if !met[i].matches {
          verdicts := verdicts + [NoMatch];
          continue;
        }
        var lastMatched := if t.id in lastMatchedAt then Some(lastMatchedAt[t.id]) else None;
        lastMatchedAt := lastMatchedAt[t.id := now];
        if lastMatched.Some? && (now - lastMatched.value) * 1000.0 < t.debounceMs {
          verdicts := verdicts + [Debounced];
          continue;
        }
        if t.showStates.Some? && met[i].state !in t.showStates.value {
          verdicts := verdicts + [WrongState];
          continue;
        }
        var lastFired := if t.id in lastFiredAt then Some(lastFiredAt[t.id]) else None;
        if lastFired.Some? && (now - lastFired.value) * 1000.0 < t.cooldownMs {
          verdicts := verdicts + [CoolingDown];
          continue;
        }
        if !met[i].actionReturns {
          verdicts := verdicts + [ActionRaised];
          continue;
        }
        lastFiredAt := lastFiredAt[t.id := now];
        verdicts := verdicts + [Fired];
      }
    }
  }

  // ---- whole runs of one handle after another ----

  datatype Call = Call(now: real, met: seq<Encounter>)

  predicate DistinctIds(triggers: seq<Trigger>) {
    forall i, j :: 0 <= i < j < |triggers| ==> triggers[i].id != triggers[j].id
  }

  /** A trigger registered during the run counts as one that matched nothing before. */
  predicate IsRun(triggers: seq<Trigger>, calls: seq<Call>) {
    && (forall k :: 0 <= k < |calls| ==> |calls[k].met| == |triggers|)
    && (forall i, k :: 0 <= i <= k < |calls| ==> calls[i].now <= calls[k].now)
  }

  function MemoryAt(triggers: seq<Trigger>, calls: seq<Call>, k: nat): Memory
    requires IsRun(triggers, calls) && k <= |calls|
  {
    if k == 0 then Memory(map[], map[])
    else HandleSpec(MemoryAt(triggers, calls, k - 1), triggers, calls[k - 1].met, calls[k - 1].now, |triggers|).0
  }

  /** What became of trigger `j` in call `k`. */
  function VerdictAt(triggers: seq<Trigger>, calls: seq<Call>, k: nat, j: nat): Verdict
    requires IsRun(triggers, calls) && k < |calls| && j < |triggers|
  {
    HandleSpec(MemoryAt(triggers, calls, k), triggers, calls[k].met, calls[k].now, |triggers|).1[j]
  }

  /** Triggers with other ids do not disturb trigger `j`. */
  lemma {:induction false} OthersDoNotDisturb(m: Memory, triggers: seq<Trigger>, met: seq<Encounter>, now: real,
      n: nat, j: nat)
    requires DistinctIds(triggers) && n <= |triggers| == |met| && j < |triggers|
    ensures
      var (after, verdicts) := HandleSpec(m, triggers, met, now, n);
      var e := m.Of(triggers[j].id);
      if j < n then
        verdicts[j] == Decide(triggers[j], e, met[j], now) && after.Of(triggers[j].id) == Remember(e, verdicts[j], now)
      else after.Of(triggers[j].id) == e
  {
    if n > 0 {
      OthersDoNotDisturb(m, triggers, met, now, n - 1, j);
    }
  }

  lemma OneCall(triggers: seq<Trigger>, calls: seq<Call>, k: nat, j: nat)
    requires IsRun(triggers, calls) && DistinctIds(triggers) && k < |calls| && j < |triggers|
    ensures
      var e := MemoryAt(triggers, calls, k).Of(triggers[j].id);
      var v := VerdictAt(triggers, calls, k, j);
      && v == Decide(triggers[j], e, calls[k].met[j], calls[k].now)
      && MemoryAt(triggers, calls, k + 1).Of(triggers[j].id) == Remember(e, v, calls[k].now)
  {
    OthersDoNotDisturb(MemoryAt(triggers, calls, k), triggers, calls[k].met, calls[k].now, |triggers|, j);
  }

  predicate MatchedAt(triggers: seq<Trigger>, calls: seq<Call>, k: nat, j: nat)
    requires IsRun(triggers, calls) && j < |triggers|
  {
    k < |calls| && calls[k].met[j].matches
  }

  predicate FiredAt(triggers: seq<Trigger>, calls: seq<Call>, k: nat, j: nat)
    requires IsRun(triggers, calls) && j < |triggers|
  {
    k < |calls| && VerdictAt(triggers, calls, k, j) == Fired
  }

  /** Trigger `j` on its own: what is remembered of it before each call, and what each call did to it. */
  function EntryOf(triggers: seq<Trigger>, calls: seq<Call>, j: nat): nat -> Entry
    requires IsRun(triggers, calls) && j < |triggers|
  {
    (k: nat) => if k <= |calls| then MemoryAt(triggers, calls, k).Of(triggers[j].id) else Entry(None, None)
  }

  function VerdictOf(triggers: seq<Trigger>, calls: seq<Call>, j: nat): nat -> Verdict
    requires IsRun(triggers, calls) && j < |triggers|
  {
    (k: nat) => if k < |calls| then VerdictAt(triggers, calls, k, j) else NoMatch
  }

  ghost predicate IsMemoryOf(entry: nat -> Entry, verdict: nat -> Verdict, calls: seq<Call>) {
    && entry(0) == Entry(None, None)
    && forall i: nat :: i < |calls| ==> entry(i + 1) == Remember(entry(i), verdict(i), calls[i].now)
  }

  /** `since` is the instant of the last marked call among the first `k`. */
  ghost predicate IsLast(since: Option<real>, marked: nat -> bool, calls: seq<Call>, k: nat)
    requires k <= |calls|
  {
    && (since.Some? ==> exists i: nat :: i < k && marked(i) && calls[i].now == since.value)
    && (forall i: nat :: i < k && marked(i) ==> since.Some? && calls[i].now <= since.value)
  }

  lemma LastMovesOn(since: Option<real>, marked: nat -> bool, calls: seq<Call>, k: nat)
    requires k < |calls| && IsLast(since, marked, calls, k)
    requires forall i :: 0 <= i <= k ==> calls[i].now <= calls[k].now
    ensures IsLast(if marked(k) then Some(calls[k].now) else since, marked, calls, k + 1)
  {
    if !marked(k) && since.Some? {
      var i: nat :| i < k && marked(i) && calls[i].now == since.value;
      assert i < k + 1;
    }
  }

  function MatchesIn(verdict: nat -> Verdict): nat -> bool {
    (i: nat) => verdict(i) != NoMatch
  }

  function FiresIn(verdict: nat -> Verdict): nat -> bool {
    (i: nat) => verdict(i) == Fired
  }

  /** The remembered instants are those of the last match and of the last firing in the history. */
  lemma {:induction false} MemoryIsHistory(entry: nat -> Entry, verdict: nat -> Verdict, calls: seq<Call>, k: nat)
    requires IsMemoryOf(entry, verdict, calls) && k <= |calls|
    requires forall i, l :: 0 <= i <= l < |calls| ==> calls[i].now <= calls[l].now
    ensures IsLast(entry(k).matchedAt, MatchesIn(verdict), calls, k)
    ensures IsLast(entry(k).firedAt, FiresIn(verdict), calls, k)
  {
    if k > 0 {
      MemoryIsHistory(entry, verdict, calls, k - 1);
      LastMovesOn(entry(k - 1).matchedAt, MatchesIn(verdict), calls, k - 1);
      LastMovesOn(entry(k - 1).firedAt, FiresIn(verdict), calls, k - 1);
      assert entry(k) == Remember(entry(k - 1), verdict(k - 1), calls[k - 1].now);
    }
  }

  lemma EntryMovesOn(triggers: seq<Trigger>, calls: seq<Call>, i: nat, j: nat)
    requires IsRun(triggers, calls) && DistinctIds(triggers) && i < |calls| && j < |triggers|
    ensures EntryOf(triggers, calls, j)(i + 1)
         == Remember(EntryOf(triggers, calls, j)(i), VerdictOf(triggers, calls, j)(i), calls[i].now)
  {
    OneCall(triggers, calls, i, j);
  }

  lemma {:induction false} EngineIsMemory(triggers: seq<Trigger>, calls: seq<Call>, j: nat)
    requires IsRun(triggers, calls) && DistinctIds(triggers) && j < |triggers|
    ensures IsMemoryOf(EntryOf(triggers, calls, j), VerdictOf(triggers, calls, j), calls)
  {
    forall i: nat | i < |calls|
      ensures EntryOf(triggers, calls, j)(i + 1)
           == Remember(EntryOf(triggers, calls, j)(i), VerdictOf(triggers, calls, j)(i), calls[i].now)
    {
      EntryMovesOn(triggers, calls, i, j);
    }
  }

  /** The last marked call stands for all of them. */
  lemma WithinIsClose(since: Option<real>, marked: nat -> bool, calls: seq<Call>, k: nat, ms: real)
    requires k < |calls| && IsLast(since, marked, calls, k)
    ensures !Within(since, calls[k].now, ms) <==>
      forall i: nat :: i < k && marked(i) ==> (calls[k].now - calls[i].now) * 1000.0 >= ms
  {
  }

  /** No call before `k` in which the trigger matched is closer than `ms`. */
  ghost predicate QuietFor(triggers: seq<Trigger>, calls: seq<Call>, k: nat, j: nat, ms: real)
    requires IsRun(triggers, calls) && k < |calls| && j < |triggers|
  {
    forall i: nat :: i < k && MatchedAt(triggers, calls, i, j) ==> (calls[k].now - calls[i].now) * 1000.0 >= ms
  }

  ghost predicate NotFiredFor(triggers: seq<Trigger>, calls: seq<Call>, k: nat, j: nat, ms: real)
    requires IsRun(triggers, calls) && k < |calls| && j < |triggers|
  {
    forall i: nat :: i < k && FiredAt(triggers, calls, i, j) ==> (calls[k].now - calls[i].now) * 1000.0 >= ms
  }

  /** `Decide` on the remembered instants says what the whole history says. */
  lemma DecidedByHistory(entry: nat -> Entry, verdict: nat -> Verdict, calls: seq<Call>, k: nat, t: Trigger,
      met: Encounter)
    requires IsMemoryOf(entry, verdict, calls) && k < |calls|
    requires forall i, l :: 0 <= i <= l < |calls| ==> calls[i].now <= calls[l].now
    ensures var v := Decide(t, entry(k), met, calls[k].now);
      && (v == Fired || v == ActionRaised <==>
        && met.matches
        && (forall i: nat :: i < k && verdict(i) != NoMatch ==> (calls[k].now - calls[i].now) * 1000.0 >= t.debounceMs)
        && (t.showStates == None || met.state in t.showStates.value)
        && (forall i: nat :: i < k && verdict(i) == Fired ==> (calls[k].now - calls[i].now) * 1000.0 >= t.cooldownMs))
      && (v == Fired ==> met.actionReturns) && (v == ActionRaised ==> !met.actionReturns)
  {
    MemoryIsHistory(entry, verdict, calls, k);
    WithinIsClose(entry(k).matchedAt, MatchesIn(verdict), calls, k, t.debounceMs);
    WithinIsClose(entry(k).firedAt, FiresIn(verdict), calls, k, t.cooldownMs);
  }

  lemma MatchesAreVerdicts(triggers: seq<Trigger>, calls: seq<Call>, k: nat, j: nat)
    requires IsRun(triggers, calls) && DistinctIds(triggers) && k < |calls| && j < |triggers|
    ensures MatchedAt(triggers, calls, k, j) <==> VerdictOf(triggers, calls, j)(k) != NoMatch
  {
    OneCall(triggers, calls, k, j);
  }

  /** The action of trigger `j` is called in call `k`: it returns or raises. */
  predicate ActsAt(triggers: seq<Trigger>, calls: seq<Call>, k: nat, j: nat)
    requires IsRun(triggers, calls) && k < |calls| && j < |triggers|
  {
    FiredAt(triggers, calls, k, j) || VerdictAt(triggers, calls, k, j) == ActionRaised
  }

  /** The two remembered instants decide exactly what the whole history would: whether the action is called. */
  lemma FiresExactlyWhen(triggers: seq<Trigger>, calls: seq<Call>, k: nat, j: nat)
    requires IsRun(triggers, calls) && DistinctIds(triggers) && k < |calls| && j < |triggers|
    ensures ActsAt(triggers, calls, k, j) <==>
      && MatchedAt(triggers, calls, k, j)
      && QuietFor(triggers, calls, k, j, triggers[j].debounceMs)
      && (triggers[j].showStates == None || calls[k].met[j].state in triggers[j].showStates.value)
      && NotFiredFor(triggers, calls, k, j, triggers[j].cooldownMs)
    ensures FiredAt(triggers, calls, k, j) <==> ActsAt(triggers, calls, k, j) && calls[k].met[j].actionReturns
  {
    EngineIsMemory(triggers, calls, j);
    OneCall(triggers, calls, k, j);
    DecidedByHistory(EntryOf(triggers, calls, j), VerdictOf(triggers, calls, j), calls, k, triggers[j],
        calls[k].met[j]);
    forall i: nat | i < |calls|
      ensures MatchedAt(triggers, calls, i, j) <==> VerdictOf(triggers, calls, j)(i) != NoMatch
    {
      MatchesAreVerdicts(triggers, calls, i, j);
    }
  }

  /** The instants at which trigger `j` fired in the first `k` calls. */
  function Firings(triggers: seq<Trigger>, calls: seq<Call>, k: nat, j: nat): seq<real>
    requires IsRun(triggers, calls) && k <= |calls| && j < |triggers|
  {
    if k == 0 then []
    else Firings(triggers, calls, k - 1, j) + if FiredAt(triggers, calls, k - 1, j) then [calls[k - 1].now] else []
  }

  function Gap(t: Trigger): real {
    if t.debounceMs < t.cooldownMs then t.cooldownMs else t.debounceMs
  }

  lemma {:induction false} FiringsAreCalls(triggers: seq<Trigger>, calls: seq<Call>, k: nat, j: nat, a: nat)
    requires IsRun(triggers, calls) && k <= |calls| && j < |triggers| && a < |Firings(triggers, calls, k, j)|
    ensures exists i: nat ::
      (i < k && FiredAt(triggers, calls, i, j) && calls[i].now == Firings(triggers, calls, k, j)[a])
  {
    if a < |Firings(triggers, calls, k - 1, j)| {
      FiringsAreCalls(triggers, calls, k - 1, j, a);
    }
  }

  lemma TwoFirings(triggers: seq<Trigger>, calls: seq<Call>, i: nat, k: nat, j: nat)
    requires IsRun(triggers, calls) && DistinctIds(triggers) && i < k < |calls| && j < |triggers|
    requires FiredAt(triggers, calls, i, j) && FiredAt(triggers, calls, k, j)
    ensures (calls[k].now - calls[i].now) * 1000.0 >= Gap(triggers[j])
  {
    FiresExactlyWhen(triggers, calls, i, j);
    FiresExactlyWhen(triggers, calls, k, j);
  }

  /** Two firings in succession are at least the gap apart. */
  lemma {:induction false} FiringsAreSpaced(triggers: seq<Trigger>, calls: seq<Call>, k: nat, j: nat, a: nat)
    requires IsRun(triggers, calls) && DistinctIds(triggers) && k <= |calls| && j < |triggers|
    requires a + 1 < |Firings(triggers, calls, k, j)|
    ensures (Firings(triggers, calls, k, j)[a + 1] - Firings(triggers, calls, k, j)[a]) * 1000.0 >= Gap(triggers[j])
  {
    var before := Firings(triggers, calls, k - 1, j);
    if a + 1 < |before| {
      FiringsAreSpaced(triggers, calls, k - 1, j, a);
    } else {
      FiringsAreCalls(triggers, calls, k - 1, j, a);
      var i: nat :| i < k - 1 && FiredAt(triggers, calls, i, j) && calls[i].now == before[a];
      TwoFirings(triggers, calls, i, k - 1, j);
    }
  }

  lemma OneMore(n: int, gap: real)
    ensures (n + 1) as real * gap == n as real * gap + gap
  {
  }

  /** The rate bound: `n` firings in a row span at least `n - 1` gaps. */
  lemma {:induction false} RateBound(triggers: seq<Trigger>, calls: seq<Call>, j: nat, a: nat, b: nat)
    requires IsRun(triggers, calls) && DistinctIds(triggers) && j < |triggers|
    requires a <= b < |Firings(triggers, calls, |calls|, j)|
    ensures
      var f := Firings(triggers, calls, |calls|, j);
      (b - a) as real * Gap(triggers[j]) <= (f[b] - f[a]) * 1000.0
    decreases b
  {
    if a < b {
      RateBound(triggers, calls, j, a, b - 1);
      FiringsAreSpaced(triggers, calls, |calls|, j, b - 1);
      OneMore(b - 1 - a, Gap(triggers[j]));
    }
  }
}
