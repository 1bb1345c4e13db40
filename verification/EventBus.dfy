/** The event bus: a bounded replay buffer and bounded subscriber queues, measured against the
    unbounded history of everything ever published. */
module EventDelivery {
  import opened Common

  datatype Content = Content(
    eventType: string,
    targetId: Option<string>,
    commandId: Option<string>,
    runId: Option<string>,
    cueId: Option<string>,
    payload: map<string, string>)

  datatype Event = Event(sequence: nat, content: Content)

  /** What a subscriber's queue holds: events, and at the end perhaps the sentinel that closes it. */
  type Item = Option<Event>

  // ---- one bounded queue ----

  /** `asyncio.Queue(maxsize)`: a maxsize that is not positive means unbounded. */
  predicate Full(items: seq<Item>, maxSize: int) {
    0 < maxSize <= |items|
  }

  /** What publishing does to the queue of one subscriber. */
  function Offer(items: seq<Item>, maxSize: int, event: Event): seq<Item> {
    if Full(items, maxSize) then items[1..] + [None] else items + [Some(event)]
  }

  /** The two halves of that: a queue with room takes the event, a full one is left for the second pass, */
  function PutIfRoom(items: seq<Item>, maxSize: int, event: Event): seq<Item> {
    if Full(items, maxSize) then items else items + [Some(event)]
  }

  /** which drops its oldest event for the sentinel. */
  function Displace(items: seq<Item>): seq<Item> {
    (if items == [] then [] else items[1..]) + [None]
  }

  // ---- the replay buffer ----

  /** `[e for e in buffer if e.sequence > n]`. */
  function Newer(buffer: seq<Event>, n: int): seq<Event> {
    if buffer == [] then []
    else
      var rest := Newer(buffer[1..], n);
      if buffer[0].sequence > n then [buffer[0]] + rest else rest
  }

  function ReplaySpec(buffer: seq<Event>, sequence: nat, n: int): Option<seq<Event>> {
    if n == sequence then Some([])
    else if buffer == [] then (if n == 0 then Some([]) else None)
    else if n < buffer[0].sequence - 1 then None
    else Some(Newer(buffer, n))
  }

  /** The events of the unbounded history after number `n`. */
  function After(history: seq<Event>, n: int): seq<Event> {
    if n < 0 then history else if n > |history| then [] else history[n..]
  }

  ghost predicate Numbered(history: seq<Event>) {
    forall i :: 0 <= i < |history| ==> history[i].sequence == i + 1
  }

  lemma {:induction false} NewerOfRun(events: seq<Event>, first: nat, n: int)
    requires forall i :: 0 <= i < |events| ==> events[i].sequence == first + i
    requires first - 1 <= n
    ensures Newer(events, n) == if n - first + 1 <= |events| then events[n - first + 1..] else []
    decreases |events|
  {
    if events != [] {
      if n < first {
        NewerOfRun(events[1..], first + 1, first);
        AllNewer(events, n);
      } else {
        NewerOfRun(events[1..], first + 1, n);
      }
    }
  }

  lemma {:induction false} AllNewer(events: seq<Event>, n: int)
    requires forall i :: 0 <= i < |events| ==> events[i].sequence > n
    ensures Newer(events, n) == events
  {
    if events != [] {
      AllNewer(events[1..], n);
    }
  }

  /** Replaying from the bounded buffer is replaying from the unbounded history, for every number asked
      for, and it is refused exactly when the buffer no longer reaches back that far. */
  lemma ReplayRefinesHistory(history: seq<Event>, size: nat, n: int)
    requires Numbered(history) && size >= 1
    ensures var r := ReplaySpec(Last(history, size), |history|, n);
      && (r.None? <==> if history == [] then n != 0 else n + size < |history| || n < 0)
      && (r.Some? ==> r.value == After(history, n))
  {
    var buffer := Last(history, size);
    if buffer != [] && n != |history| {
      var first := |history| - |buffer| + 1;
      assert forall i :: 0 <= i < |buffer| ==> buffer[i].sequence == first + i;
      if first - 1 <= n {
        NewerOfRun(buffer, first, n);
      }
    }
  }

  /** A buffer of size zero answers "nothing" to a replay from the very beginning although everything was
      missed: its answers are those of the history exactly when it is not asked that. */
  lemma ReplayWithoutBuffer(history: seq<Event>, n: int)
    requires 0 <= n <= |history|
    ensures var r := ReplaySpec(Last(history, 0), |history|, n);
      (r.Some? ==> r.value == After(history, n)) <==> (n != 0 || history == [])
  {
    assert Last(history, 0) == [];
  }

  // ---- subscriptions over whole runs ----

  datatype Fate =
    | Open
    | Unsubscribed(at: nat)
    | Overflowed(at: nat, lost: nat)

  /** A subscriber: its queue, what it has taken out, how many events were published before it
      subscribed, and how its subscription ended. */
  datatype Subscription = Subscription(items: seq<Item>, taken: seq<Item>, since: nat, fate: Fate)

  datatype Bus = Bus(history: seq<Event>, buffer: seq<Event>, bufferSize: nat, queueSize: int, subs: seq<Subscription>)

  datatype Step = Publish(content: Content) | Subscribe | Unsubscribe(id: nat) | Take(id: nat)

  function OfferSubscription(s: Subscription, queueSize: int, event: Event, published: nat): Subscription {
    if !s.fate.Open? then s
    else if Full(s.items, queueSize)
    then s.(items := Offer(s.items, queueSize, event), fate := Overflowed(published, s.since + |s.taken|))
    else s.(items := Offer(s.items, queueSize, event))
  }

  predicate Enabled(b: Bus, step: Step) {
    match step
    case Take(id) => id < |b.subs| && b.subs[id].items != []
    case _ => true
  }

  function Apply(b: Bus, step: Step): Bus
    requires Enabled(b, step)
  {
    match step
    case Publish(content) =>
      var event := Event(|b.history| + 1, content);
      b.(history := b.history + [event],
         buffer := Last(b.buffer + [event], b.bufferSize),
         subs := seq(|b.subs|, i requires 0 <= i < |b.subs| =>
           OfferSubscription(b.subs[i], b.queueSize, event, |b.history|)))
    case Subscribe => b.(subs := b.subs + [Subscription([], [], |b.history|, Open)])
    case Unsubscribe(id) =>
      if id < |b.subs| && b.subs[id].fate.Open? then
        b.(subs := b.subs[id := b.subs[id].(fate := Unsubscribed(|b.history|))])
      else b
    case Take(id) =>
      var s := b.subs[id];
      b.(subs := b.subs[id := s.(items := s.items[1..], taken := s.taken + [s.items[0]])])
  }

  function Wrap(events: seq<Event>): (items: seq<Item>)
    ensures |items| == |events|
  {
    seq(|events|, i requires 0 <= i < |events| => Some(events[i]))
  }

  /** Everything the subscriber has got or will get, in order. */
  function Stream(s: Subscription): seq<Item> {
    s.taken + s.items
  }

  /** What the stream is, as a piece of the history. */
  ghost predicate StreamOk(history: seq<Event>, s: Subscription) {
    match s.fate
    case Open => s.since <= |history| && Stream(s) == Wrap(history[s.since..])
    case Unsubscribed(at) => s.since <= at <= |history| && Stream(s) == Wrap(history[s.since..at])
    case Overflowed(at, lost) =>
      s.since <= lost < at < |history| &&
      Stream(s) == Wrap(history[s.since..lost] + history[lost + 1..at]) + [None]
  }

  ghost predicate SubOk(b: Bus, i: nat)
    requires i < |b.subs|
  {
    && StreamOk(b.history, b.subs[i])
    && (b.queueSize > 0 ==> |b.subs[i].items| <= b.queueSize)
    && (b.subs[i].fate.Overflowed? ==> 0 < b.queueSize == b.subs[i].fate.at - b.subs[i].fate.lost)
  }

  ghost predicate Inv(b: Bus) {
    && Numbered(b.history)
    && b.buffer == Last(b.history, b.bufferSize)
    && forall i :: 0 <= i < |b.subs| ==> SubOk(b, i)
  }

  lemma HistoryGrows(history: seq<Event>, s: Subscription, e: Event)
    requires StreamOk(history, s) && !s.fate.Open?
    ensures StreamOk(history + [e], s)
  {
    var longer := history + [e];
    match s.fate
    case Unsubscribed(at) => assert longer[s.since..at] == history[s.since..at];
    case Overflowed(at, lost) =>
      assert longer[s.since..lost] == history[s.since..lost] && longer[lost + 1..at] == history[lost + 1..at];
  }

  lemma OfferKeepsOpen(history: seq<Event>, s: Subscription, queueSize: int, e: Event)
    requires StreamOk(history, s) && s.fate.Open? && !Full(s.items, queueSize)
    ensures StreamOk(history + [e], OfferSubscription(s, queueSize, e, |history|))
  {
    var longer := history + [e];
    assert longer[s.since..] == history[s.since..] + [e];
    assert Wrap(longer[s.since..]) == Wrap(history[s.since..]) + [Some(e)];
    assert s.taken + (s.items + [Some(e)]) == (s.taken + s.items) + [Some(e)];
  }

  /** An overflow drops the oldest queued event, adds the sentinel, and ends the subscription. */
  lemma OfferOverflows(history: seq<Event>, s: Subscription, queueSize: int, e: Event)
    requires StreamOk(history, s) && s.fate.Open? && Full(s.items, queueSize)
    ensures StreamOk(history + [e], OfferSubscription(s, queueSize, e, |history|))
  {
    var longer, lost := history + [e], s.since + |s.taken|;
    var all := Wrap(history[s.since..]);
    assert s.taken == all[..|s.taken|] && s.items == all[|s.taken|..] by {
      assert (s.taken + s.items)[..|s.taken|] == s.taken && (s.taken + s.items)[|s.taken|..] == s.items;
    }
    assert |all| == |history| - s.since;
    assert longer[s.since..lost] == history[s.since..lost] && longer[lost + 1..|history|] == history[lost + 1..];
    assert s.taken == Wrap(history[s.since..lost]);
    assert s.items[1..] == Wrap(history[lost + 1..]);
    assert Wrap(history[s.since..lost] + history[lost + 1..])
        == Wrap(history[s.since..lost]) + Wrap(history[lost + 1..]);
    assert s.taken + (s.items[1..] + [None]) == (s.taken + s.items[1..]) + [None];
  }

  lemma OverflowWaited(history: seq<Event>, s: Subscription, queueSize: int, e: Event)
    requires StreamOk(history, s) && s.fate.Open? && Full(s.items, queueSize)
    ensures OfferSubscription(s, queueSize, e, |history|).fate == Overflowed(|history|, |history| - |s.items|)
  {
    assert |s.taken + s.items| == |history[s.since..]|;
  }

  lemma PublishKeeps(b: Bus, content: Content)
    requires Inv(b)
    ensures Inv(Apply(b, Publish(content)))
  {
    var e := Event(|b.history| + 1, content);
    var t := Apply(b, Publish(content));
    LastOfLast(b.history, e, b.bufferSize);
    forall i | 0 <= i < |t.subs|
      ensures SubOk(t, i)
    {
      assert SubOk(b, i);
      var s := b.subs[i];
      if !s.fate.Open? {
        HistoryGrows(b.history, s, e);
      } else if Full(s.items, b.queueSize) {
        OfferOverflows(b.history, s, b.queueSize, e);
        OverflowWaited(b.history, s, b.queueSize, e);
      } else {
        OfferKeepsOpen(b.history, s, b.queueSize, e);
      }
    }
  }

  lemma TakeKeeps(b: Bus, id: nat)
    requires Inv(b) && Enabled(b, Take(id))
    ensures Inv(Apply(b, Take(id)))
  {
    var t := Apply(b, Take(id));
    forall i | 0 <= i < |t.subs|
      ensures SubOk(t, i)
    {
      assert SubOk(b, i);
      if i == id {
        var s := b.subs[id];
        assert (s.taken + [s.items[0]]) + s.items[1..] == s.taken + s.items;
      }
    }
  }

  lemma StepKeeps(b: Bus, step: Step)
    requires Inv(b) && Enabled(b, step)
    ensures Inv(Apply(b, step))
  {
    match step
    case Publish(content) => PublishKeeps(b, content);
    case Take(id) => TakeKeeps(b, id);
    case Subscribe =>
      var t := Apply(b, step);
      forall i | 0 <= i < |t.subs|
        ensures SubOk(t, i)
      {
        if i < |b.subs| {
          assert SubOk(b, i);
        } else {
          assert b.history[|b.history|..] == [];
        }
      }
    case Unsubscribe(id) =>
      var t := Apply(b, step);
      forall i | 0 <= i < |t.subs|
        ensures SubOk(t, i)
      {
        assert SubOk(b, i);
        assert b.history[b.subs[i].since..] == b.history[b.subs[i].since..|b.history|] || !b.subs[i].fate.Open?;
      }
  }

  ghost predicate Legal(b: Bus, steps: seq<Step>)
    decreases |steps|
  {
    steps != [] ==> Enabled(b, steps[0]) && Legal(Apply(b, steps[0]), steps[1..])
  }

  ghost function Run(b: Bus, steps: seq<Step>): Bus
    requires Legal(b, steps)
    decreases |steps|
  {
    if steps == [] then b else Run(Apply(b, steps[0]), steps[1..])
  }

  lemma {:induction false} RunKeeps(b: Bus, steps: seq<Step>)
    requires Inv(b) && Legal(b, steps)
    ensures Inv(Run(b, steps))
    ensures b.history <= Run(b, steps).history && |b.subs| <= |Run(b, steps).subs|
    ensures Run(b, steps).bufferSize == b.bufferSize && Run(b, steps).queueSize == b.queueSize
    ensures forall i :: 0 <= i < |b.subs| ==> Run(b, steps).subs[i].since == b.subs[i].since
    decreases |steps|
  {
    if steps != [] {
      StepKeeps(b, steps[0]);
      RunKeeps(Apply(b, steps[0]), steps[1..]);
    }
  }

  function NewBus(bufferSize: nat, queueSize: int): Bus {
    Bus([], [], bufferSize, queueSize, [])
  }

  /** Over every run: the queues stay within their size; an open subscriber's taken and queued events are
      exactly those published since it subscribed; an overflowed one let a whole queue of events wait, misses
      the first of these and everything from the overflow on, and its stream ends with the sentinel. */
  lemma EverySubscriber(bufferSize: nat, queueSize: int, steps: seq<Step>, i: nat)
    requires Legal(NewBus(bufferSize, queueSize), steps)
    requires i < |Run(NewBus(bufferSize, queueSize), steps).subs|
    ensures var b := Run(NewBus(bufferSize, queueSize), steps);
      var s := b.subs[i];
      && (queueSize > 0 ==> |s.items| <= queueSize)
      && s.since <= |b.history|
      && (s.fate.Open? ==> Stream(s) == Wrap(b.history[s.since..]))
      && (s.fate.Overflowed? ==>
        && s.since <= s.fate.lost < s.fate.at < |b.history|
        && 0 < queueSize == s.fate.at - s.fate.lost
        && Stream(s) == Wrap(b.history[s.since..s.fate.lost] + b.history[s.fate.lost + 1..s.fate.at]) + [None])
  {
    var b0 := NewBus(bufferSize, queueSize);
    RunKeeps(b0, steps);
    assert SubOk(Run(b0, steps), i);
  }

  lemma {:induction false} UnsubscribedStays(b: Bus, steps: seq<Step>, id: nat)
    requires Legal(b, steps) && id < |b.subs| && b.subs[id].fate.Unsubscribed?
    ensures id < |Run(b, steps).subs| && Run(b, steps).subs[id].fate == b.subs[id].fate
    decreases |steps|
  {
    if steps != [] {
      UnsubscribedStays(Apply(b, steps[0]), steps[1..], id);
    }
  }

  /** After an unsubscription nothing more is delivered: whatever follows, the subscriber has got or will get exactly
      what was published between its subscription and then. */
  lemma UnsubscribedGetsNoMore(b: Bus, id: nat, later: seq<Step>)
    requires Inv(b) && id < |b.subs| && b.subs[id].fate.Open? && Legal(Apply(b, Unsubscribe(id)), later)
    ensures var d := Run(Apply(b, Unsubscribe(id)), later);
      b.subs[id].since <= |b.history| && id < |d.subs| && Stream(d.subs[id]) == Wrap(b.history[b.subs[id].since..])
  {
    var c := Apply(b, Unsubscribe(id));
    StepKeeps(b, Unsubscribe(id));
    RunKeeps(c, later);
    UnsubscribedStays(c, later, id);
    var d := Run(c, later);
    assert SubOk(d, id) && SubOk(b, id);
    assert d.history[b.subs[id].since..|b.history|] == b.history[b.subs[id].since..];
  }

  /** The sequence numbers a subscriber sees only ever increase, overflowed or not. */
  lemma StreamsIncrease(bufferSize: nat, queueSize: int, steps: seq<Step>, i: nat, j: nat, k: nat)
    requires Legal(NewBus(bufferSize, queueSize), steps)
    requires i < |Run(NewBus(bufferSize, queueSize), steps).subs|
    requires var stream := Stream(Run(NewBus(bufferSize, queueSize), steps).subs[i]);
      j < k < |stream| && stream[k].Some?
    ensures var stream := Stream(Run(NewBus(bufferSize, queueSize), steps).subs[i]);
      stream[j].Some? && stream[j].value.sequence < stream[k].value.sequence
  {
    var b0 := NewBus(bufferSize, queueSize);
    RunKeeps(b0, steps);
    var b := Run(b0, steps);
    assert SubOk(b, i);
    var s := b.subs[i];
    match s.fate
    case Open =>
    case Unsubscribed(at) =>
    case Overflowed(at, lost) =>
      var events := b.history[s.since..lost] + b.history[lost + 1..at];
      assert Stream(s)[k] == Wrap(events)[k] && Stream(s)[j] == Wrap(events)[j];
  }

  lemma WrapJoin(x: seq<Event>, y: seq<Event>)
    ensures Wrap(x + y) == Wrap(x) + Wrap(y)
  {
  }

  lemma NoGapIffAdjacent(history: seq<Event>, n: nat, a: nat, b: nat)
    requires n <= a <= b <= |history|
    ensures Wrap(history[n..a]) + Wrap(history[b..]) == Wrap(history[n..]) <==> a == b
  {
    if a == b {
      WrapJoin(history[n..a], history[a..]);
      assert history[n..a] + history[a..] == history[n..];
    } else {
      assert |Wrap(history[n..a]) + Wrap(history[b..])| < |Wrap(history[n..])|;
    }
  }

  /** A subscriber that joined after `between` and is still open: what it has got and will get. */
  lemma LateSubscriber(b: Bus, between: seq<Step>, later: seq<Step>)
    requires Inv(b) && Legal(b, between) && Legal(Apply(Run(b, between), Subscribe), later)
    ensures var c := Run(b, between);
      var d := Run(Apply(c, Subscribe), later);
      && b.history <= c.history <= d.history
      && |c.subs| < |d.subs|
      && (d.subs[|c.subs|].fate.Open? ==> Stream(d.subs[|c.subs|]) == Wrap(d.history[|c.history|..]))
  {
    var c := Run(b, between);
    RunKeeps(b, between);
    StepKeeps(c, Subscribe);
    RunKeeps(Apply(c, Subscribe), later);
    assert SubOk(Run(Apply(c, Subscribe), later), |c.subs|);
  }

  /** Replaying from `n` and then subscribing: together the replay and an open subscription deliver the
      history from `n` on, without a gap, exactly when nothing was published in between. */
  lemma ReplayThenSubscribe(b: Bus, n: nat, between: seq<Step>, later: seq<Step>)
    requires Inv(b) && b.bufferSize >= 1 && n <= |b.history|
    requires ReplaySpec(b.buffer, |b.history|, n).Some?
    requires Legal(b, between) && Legal(Apply(Run(b, between), Subscribe), later)
    requires var c, d := Run(b, between), Run(Apply(Run(b, between), Subscribe), later);
      |c.subs| < |d.subs| && d.subs[|c.subs|].fate.Open?
    ensures var c, d := Run(b, between), Run(Apply(Run(b, between), Subscribe), later);
      Wrap(ReplaySpec(b.buffer, |b.history|, n).value) + Stream(d.subs[|c.subs|]) == Wrap(After(d.history, n))
      <==> |c.history| == |b.history|
  {
    var c := Run(b, between);
    var d := Run(Apply(c, Subscribe), later);
    LateSubscriber(b, between, later);
    ReplayRefinesHistory(b.history, b.bufferSize, n);
    assert b.history[n..] == d.history[n..|b.history|];
    NoGapIffAdjacent(d.history, n, |b.history|, |c.history|);
  }

  // ---- the bus itself ----

  class EventQueue {
    const maxSize: int
    var items: seq<Item>

    constructor (maxSize: int)
      ensures this.maxSize == maxSize && items == []
    {
      this.maxSize := maxSize;
      items := [];
    }

    /** `put_nowait`; false stands for `QueueFull`. */
    method PutNowait(item: Item) returns (ok: bool)
      modifies this`items
      ensures ok == !Full(old(items), maxSize)
      ensures items == if ok then old(items) + [item] else old(items)
    {
      ok := !Full(items, maxSize);
      if ok {
        items := items + [item];
      }
    }

    /** `get_nowait`; None stands for `QueueEmpty`. */
    method GetNowait() returns (item: Option<Item>)
      modifies this`items
      ensures item == if old(items) == [] then None else Some(old(items)[0])
      ensures items == if old(items) == [] then [] else old(items)[1..]
    {
      if items == [] {
        return None;
      }
      item := Some(items[0]);
      items := items[1..];
    }
  }

  class EventBus {
    var sequence: nat
    var buffer: seq<Event>
    const bufferSize: nat
    const queueSize: int
    var subscribers: map<nat, EventQueue>
    var nextSubId: nat
    ghost var history: seq<Event>
    ghost var queues: seq<EventQueue>

    /** The queue of every subscriber there ever was, by number, let go or not. */
    ghost predicate KeepsQueues()
      reads this
    {
      && |queues| == nextSubId
      && (forall a, b :: 0 <= a < b < |queues| ==> queues[a] != queues[b])
      && (forall id :: id in subscribers ==> id < |queues| && subscribers[id] == queues[id])
    }

    /** The bus is in state `b` of the transition system; who has taken what is the readers' business. */
    ghost predicate Shows(b: Bus)
      reads this, queues
    {
      && KeepsQueues()
      && b.history == history && b.buffer == buffer && b.bufferSize == bufferSize && b.queueSize == queueSize
      && |b.subs| == |queues|
      && (forall id :: 0 <= id < |queues| ==>
            b.subs[id].items == queues[id].items && (b.subs[id].fate.Open? <==> id in subscribers))
    }

    /** Each subscriber has a queue of its own. */
    ghost predicate OwnQueues()
      reads this
    {
      && (forall a, b :: a in subscribers && b in subscribers && a != b ==> subscribers[a] != subscribers[b])
      && (forall id :: id in subscribers ==> id < nextSubId && subscribers[id].maxSize == queueSize)
    }

    ghost predicate WithinSize(queue: EventQueue)
      reads queue
    {
      queue.maxSize > 0 ==> |queue.items| <= queue.maxSize
    }

    /** No queue is over its size; so the sentinel always finds room once one event is dropped. */
    ghost predicate Bounded()
      reads this, subscribers.Values
    {
      forall id :: id in subscribers ==> WithinSize(subscribers[id])
    }

    /** The buffer is the end of the history, which is numbered from one. */
    ghost predicate Valid()
      reads this, subscribers.Values
    {
      && OwnQueues()
      && Bounded()
      && sequence == |history|
      && Numbered(history)
      && buffer == Last(history, bufferSize)
    }

    constructor (bufferSize: nat, queueSize: int)
      ensures Valid() && history == [] && subscribers == map[]
      ensures Shows(NewBus(bufferSize, queueSize))
      ensures this.bufferSize == bufferSize && this.queueSize == queueSize
    {
      this.bufferSize, this.queueSize := bufferSize, queueSize;
      sequence, buffer, history, queues := 0, [], [], [];
      subscribers, nextSubId := map[], 0;
    }

    /** The first loop of `publish`: every queue with room gets the event; the full ones are returned. */
    method OfferToAll(event: Event) returns (overflowed: set<nat>)
      requires OwnQueues() && Bounded()
      modifies subscribers.Values
      ensures Bounded()
      ensures forall id :: id in overflowed <==> id in subscribers && Full(old(subscribers[id].items), queueSize)
      ensures forall id :: id in subscribers ==>
          subscribers[id].items == PutIfRoom(old(subscribers[id].items), queueSize, event)
    {
      overflowed := {};
      var todo := subscribers.Keys;
      while todo != {}
        invariant todo <= subscribers.Keys
        invariant forall id :: id in overflowed <==>
          id in subscribers && id !in todo && Full(old(subscribers[id].items), queueSize)
        invariant forall id :: id in todo ==> subscribers[id].items == old(subscribers[id].items)
        invariant forall id :: id in subscribers && id !in todo ==>
          subscribers[id].items == PutIfRoom(old(subscribers[id].items), queueSize, event)
        modifies subscribers.Values
      {
        var id :| id in todo;
        var ok := subscribers[id].PutNowait(Some(event));
        if !ok {
          overflowed := overflowed + {id};
        }
        todo := todo - {id};
      }
    }

    /** The second loop: a full queue loses its oldest event, gets the sentinel, and is let go. */
    method CloseOverflowed(full: set<nat>)
      requires OwnQueues() && Bounded() && full <= subscribers.Keys
      requires forall id :: id in full ==> Full(subscribers[id].items, queueSize)
      modifies this`subscribers, subscribers.Values
      ensures subscribers == old(subscribers) - full
      ensures forall id :: id in old(subscribers) && id in full ==>
        old(subscribers)[id].items == Displace(old(subscribers[id].items))
      ensures forall id :: id in old(subscribers) && id !in full ==>
          old(subscribers)[id].items == old(subscribers[id].items)
    {
      var overflowed := full;
      ghost var all := subscribers;
      while overflowed != {}
        invariant overflowed <= full
        invariant subscribers == all - (full - overflowed)
        invariant forall id :: id in full && id !in overflowed ==> all[id].items == Displace(old(subscribers[id].items))
        invariant forall id :: id in all && (id !in full || id in overflowed) ==>
            all[id].items == old(subscribers[id].items)
        modifies this`subscribers, all.Values
      {
        var id :| id in overflowed;
        var queue := subscribers[id];
        subscribers := subscribers - {id};
        Evict(queue);
        overflowed := overflowed - {id};
      }
    }

    static method Evict(queue: EventQueue)
      requires 0 < queue.maxSize == |queue.items|
      modifies queue`items
      ensures queue.items == Displace(old(queue.items))
    {
      var _ := queue.GetNowait();
      var _ := queue.PutNowait(None);
    }

    /** Every queue at once. */
    method Deliver(event: Event)
      requires OwnQueues() && Bounded()
      modifies this`subscribers, subscribers.Values
      ensures OwnQueues() && Bounded()
      ensures forall id :: id in old(subscribers) ==>
        old(subscribers)[id].items == Offer(old(subscribers[id].items), queueSize, event)
      ensures forall id :: id in subscribers <==> id in old(subscribers) && !Full(old(subscribers[id].items), queueSize)
      ensures forall id :: id in subscribers ==> subscribers[id] == old(subscribers)[id]
    {
      var overflowed := OfferToAll(event);
      CloseOverflowed(overflowed);
    }

    /** The new event is numbered, buffered and delivered. */
    method Announce(content: Content) returns (event: Event)
      requires Valid()
      modifies this`sequence, this`buffer, this`history, this`subscribers, subscribers.Values
      ensures Valid()
      ensures event == Event(old(sequence) + 1, content) && history == old(history) + [event]
      ensures forall id :: id in old(subscribers) ==>
        old(subscribers)[id].items == Offer(old(subscribers[id].items), queueSize, event)
      ensures forall id :: id in subscribers <==> id in old(subscribers) && !Full(old(subscribers[id].items), queueSize)
      ensures forall id :: id in subscribers ==> subscribers[id] == old(subscribers)[id]
    {
      sequence := sequence + 1;
      event := Event(sequence, content);
      LastOfLast(history, event, bufferSize);
      buffer := Last(buffer + [event], bufferSize);
      history := history + [event];
      Deliver(event);
    }

    method Publish(content: Content) returns (event: Event)
      requires Valid()
      modifies this`sequence, this`buffer, this`history, this`subscribers, subscribers.Values
      ensures Valid()
      ensures event == Event(old(sequence) + 1, content) && history == old(history) + [event]
      ensures forall b :: old(Shows(b)) ==> Shows(Apply(b, Step.Publish(content)))
    {
      hide Last, Numbered, Offer, Full;
      assert KeepsQueues() ==>
        forall id :: 0 <= id < |queues| && id !in subscribers ==> queues[id] !in subscribers.Values;
      event := Announce(content);
      LastOfLast(old(history), event, bufferSize);
      forall b | old(Shows(b))
        ensures Shows(Apply(b, Step.Publish(content)))
      {
        ghost var c := Apply(b, Step.Publish(content));
        forall id | 0 <= id < |queues|
          ensures c.subs[id].items == queues[id].items && (c.subs[id].fate.Open? <==> id in subscribers)
        {
          if id in old(subscribers) {
            assert queues[id].items == Offer(old(queues[id].items), queueSize, event);
          } else {
            assert queues[id].items == old(queues[id].items);
          }
        }
      }
    }

    method ReplaySince(n: int) returns (r: Option<seq<Event>>)
      requires Valid()
      ensures r == ReplaySpec(Last(history, bufferSize), |history|, n)
    {
      if n == sequence {
        return Some([]);
      }
      if buffer == [] {
        return if n == 0 then Some([]) else None;
      }
      var oldest := buffer[0].sequence;
      if n < oldest - 1 {
        return None;
      }
      r := Some(Newer(buffer, n));
    }

    method Subscribe() returns (id: nat, queue: EventQueue)
      requires Valid()
      modifies this`subscribers, this`nextSubId, this`queues
      ensures Valid() && fresh(queue) && queue.items == []
      ensures id !in old(subscribers) && subscribers == old(subscribers)[id := queue]
      ensures forall b :: old(Shows(b)) ==> id == |b.subs| && Shows(Apply(b, Step.Subscribe))
    {
      id := nextSubId;
      nextSubId := nextSubId + 1;
      queue := new EventQueue(queueSize);
      subscribers := subscribers[id := queue];
      queues := queues + [queue];
    }

    method Unsubscribe(id: nat)
      requires Valid()
      modifies this`subscribers
      ensures Valid() && subscribers == old(subscribers) - {id}
      ensures forall b :: old(Shows(b)) ==> Shows(Apply(b, Step.Unsubscribe(id)))
    {
      subscribers := subscribers - {id};
    }
  }
}
