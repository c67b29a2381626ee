/** Collecting fill events and dispatching their volume, while collections run and fail side by side. */
module MetricsCollection {
  import opened Options
  import opened Sequences

  datatype Event = Event(base: string, quote: string, amount: real, price: real)

  /** What the rate provider answered for one event: a rate from its quote token, else one from its base token. */
  datatype Rates = Rates(fromQuote: Option<real>, fromBase: Option<real>)

  function Value(e: Event, r: Rates): real {
    if r.fromQuote.Some? then e.amount * e.price * r.fromQuote.value
    else if r.fromBase.Some? then e.amount * r.fromBase.value
    else 0.0
  }

  function VolumeOf(events: seq<Event>, rates: seq<Rates>): real
    requires |rates| <= |events|
  {
    if rates == [] then 0.0
    else VolumeOf(events, rates[..|rates| - 1]) + Value(events[|rates| - 1], rates[|rates| - 1])
  }

  /** What the events trade for, in their quote token, and how much of the base token they trade. */
  function Turnover(events: seq<Event>): real {
    if events == [] then 0.0
    else var e := events[|events| - 1]; Turnover(events[..|events| - 1]) + e.amount * e.price
  }

  function Traded(events: seq<Event>): real {
    if events == [] then 0.0 else Traded(events[..|events| - 1]) + events[|events| - 1].amount
  }

  /**
    The volume at one rate for all events: their turnover at the quote token's rate, whatever the base
    token's is; without one the traded amount at the base token's rate; nothing without either.
   */
  lemma {:induction false} VolumeAtOneRate(events: seq<Event>, rates: seq<Rates>, q: Option<real>, b: Option<real>)
    requires |rates| == |events| && (forall i :: 0 <= i < |rates| ==> rates[i] == Rates(q, b))
    ensures VolumeOf(events, rates) ==
      match q
      case Some(rate) => rate * Turnover(events)
      case None => (match b case Some(rate) => rate * Traded(events) case None => 0.0)
  {
    if events == [] {
    } else {
      var n := |events| - 1;
      VolumeAtOneRate(events[..n], rates[..n], q, b);
      VolumeOfFirst(events, rates[..n]);
    }
  }

  lemma {:induction false} VolumeOfFirst(events: seq<Event>, rates: seq<Rates>)
    requires |rates| <= |events|
    ensures VolumeOf(events, rates) == VolumeOf(events[..|rates|], rates)
    decreases |rates|
  {
    if rates == [] {
    } else {
      var n := |rates| - 1;
      VolumeOfFirst(events, rates[..n]);
      VolumeOfFirst(events[..n + 1], rates[..n]);
      assert events[..n + 1][..n] == events[..n];
    }
  }

  /** A running collection; it has rated its first `|rates|` events. */
  datatype Collection = Collection(events: seq<Event>, rates: seq<Rates>, volume: real) {
    predicate Valid() {
      |rates| <= |events| && volume == VolumeOf(events, rates)
    }
  }

  /** `finished` holds the collections that ran to their end; those with a positive volume were dispatched. */
  datatype State = State(
    collected: seq<Event>, running: seq<Collection>, finished: seq<Collection>, lost: multiset<Event>, lastTick: real)

  /** `k` picks one of the running collections, in any order. */
  datatype Step =
    | Filled(event: Event)
    | Tick(timestamp: real)
    | Stop
    | Rated(k: nat, rates: Rates)
    | Finished(k: nat)
    | Failed(k: nat)
    | Cancelled(k: nat)

  function Triggered(s: State): State {
    s.(collected := [], running := s.running + [Collection(s.collected, [], 0.0)])
  }

  predicate Due(s: State, timestamp: real, interval: real) {
    timestamp - s.lastTick >= interval
  }

  /** A step of a collection that is not there, or not that far, does nothing. */
  function Next(s: State, step: Step, interval: real): State {
    match step
    case Filled(e) => s.(collected := s.collected + [e])
    case Tick(timestamp) => if Due(s, timestamp, interval) then Triggered(s.(lastTick := timestamp)) else s
    case Stop => Triggered(s)
    case Rated(k, r) =>
      if k < |s.running| && |s.running[k].rates| < |s.running[k].events| then
        var c := s.running[k];
        s.(running := s.running[k := c.(rates := c.rates + [r], volume := c.volume + Value(c.events[|c.rates|], r))])
      else s
    case Finished(k) =>
      if k < |s.running| && |s.running[k].rates| == |s.running[k].events|
      then s.(running := RemoveAt(s.running, k), finished := s.finished + [s.running[k]])
      else s
    case Failed(k) =>
      if k < |s.running|
      then s.(running := RemoveAt(s.running, k), collected := s.collected + s.running[k].events)
      else s
    case Cancelled(k) =>
      if k < |s.running|
      then s.(running := RemoveAt(s.running, k), lost := s.lost + multiset(s.running[k].events))
      else s
  }

  function Run(s: State, steps: seq<Step>, interval: real): State {
    if steps == [] then s else Next(Run(s, steps[..|steps| - 1], interval), steps[|steps| - 1], interval)
  }

  function Start(): State {
    State([], [], [], multiset{}, 0.0)
  }

  function Registered(step: Step): multiset<Event> {
    if step.Filled? then multiset{step.event} else multiset{}
  }

  function Fills(steps: seq<Step>): multiset<Event> {
    if steps == [] then multiset{}
    else Fills(steps[..|steps| - 1]) + Registered(steps[|steps| - 1])
  }

  function EventsOf(cs: seq<Collection>): multiset<Event> {
    if cs == [] then multiset{} else EventsOf(cs[..|cs| - 1]) + multiset(cs[|cs| - 1].events)
  }

  lemma EventsOfOneMore(cs: seq<Collection>, c: Collection)
    ensures EventsOf(cs + [c]) == EventsOf(cs) + multiset(c.events)
  {
    assert (cs + [c])[..|cs|] == cs;
  }

  lemma {:induction false} EventsWithout(cs: seq<Collection>, k: nat)
    requires k < |cs|
    ensures EventsOf(cs) == EventsOf(RemoveAt(cs, k)) + multiset(cs[k].events)
  {
    var init := cs[..|cs| - 1];
    if k == |cs| - 1 {
      assert RemoveAt(cs, k) == init;
    } else {
      EventsWithout(init, k);
      assert RemoveAt(cs, k) == RemoveAt(init, k) + [cs[|cs| - 1]];
      EventsOfOneMore(RemoveAt(init, k), cs[|cs| - 1]);
    }
  }

  lemma {:induction false} EventsKept(cs: seq<Collection>, k: nat, c: Collection)
    requires k < |cs| && c.events == cs[k].events
    ensures EventsOf(cs[k := c]) == EventsOf(cs)
  {
    var init := cs[..|cs| - 1];
    if k == |cs| - 1 {
      assert cs[k := c][..|cs| - 1] == init;
    } else {
      EventsKept(init, k, c);
      assert cs[k := c][..|cs| - 1] == init[k := c];
    }
  }

  /** Every event is in exactly one place. */
  function Everywhere(s: State): multiset<Event> {
    multiset(s.collected) + EventsOf(s.running) + EventsOf(s.finished) + s.lost
  }

  lemma StepConserves(s: State, step: Step, interval: real)
    ensures Everywhere(Next(s, step, interval)) == Everywhere(s) + Registered(step)
  {
    hide EventsOf, Value;
    match step
    case Filled(_) =>
    case Tick(t) => EventsOfOneMore(s.running, Collection(s.collected, [], 0.0));
    case Stop => EventsOfOneMore(s.running, Collection(s.collected, [], 0.0));
    case Rated(k, r) =>
      if k < |s.running| && |s.running[k].rates| < |s.running[k].events| {
        EventsKept(s.running, k, Next(s, step, interval).running[k]);
      }
    case Finished(k) =>
      if k < |s.running| {
        EventsWithout(s.running, k);
        EventsOfOneMore(s.finished, s.running[k]);
      }
    case Failed(k) => if k < |s.running| { EventsWithout(s.running, k); }
    case Cancelled(k) => if k < |s.running| { EventsWithout(s.running, k); }
  }

  predicate NoneCancelled(steps: seq<Step>) {
    forall i :: 0 <= i < |steps| ==> !steps[i].Cancelled?
  }

  /** In any interleaving the registered events are the waiting, the running, the finished and the cancelled ones. */
  lemma {:induction false} RunConserves(steps: seq<Step>, interval: real)
    ensures Everywhere(Run(Start(), steps, interval)) == Fills(steps)
    ensures NoneCancelled(steps) ==> Run(Start(), steps, interval).lost == multiset{}
  {
    hide Everywhere, EventsOf, Next;
    if steps == [] {
      assert Everywhere(Start()) == multiset{} by { StartIsEmpty(); }
    } else {
      var before, step := steps[..|steps| - 1], steps[|steps| - 1];
      assert step == steps[|before|];
      RunConserves(before, interval);
      StepConserves(Run(Start(), before, interval), step, interval);
      if !step.Cancelled? { OnlyCancellingLoses(Run(Start(), before, interval), step, interval); }
    }
  }

  lemma OnlyCancellingLoses(s: State, step: Step, interval: real)
    requires !step.Cancelled?
    ensures Next(s, step, interval).lost == s.lost
  {
    hide Value;
  }

  lemma StartIsEmpty()
    ensures Everywhere(Start()) == multiset{}
  {
  }

  // What is dispatched

  predicate AllValid(cs: seq<Collection>) {
    forall i :: 0 <= i < |cs| ==> cs[i].Valid()
  }

  predicate AllRated(cs: seq<Collection>) {
    forall i :: 0 <= i < |cs| ==> cs[i].Valid() && |cs[i].rates| == |cs[i].events|
  }

  lemma RatedStaysValid(c: Collection, r: Rates)
    requires c.Valid() && |c.rates| < |c.events|
    ensures c.(rates := c.rates + [r], volume := c.volume + Value(c.events[|c.rates|], r)).Valid()
  {
    assert (c.rates + [r])[..|c.rates|] == c.rates;
  }

  lemma StepValid(s: State, step: Step, interval: real)
    requires AllValid(s.running) && AllRated(s.finished)
    ensures var s' := Next(s, step, interval); AllValid(s'.running) && AllRated(s'.finished)
  {
    hide Value, VolumeOf;
    NothingRated(s.collected);
    if step.Rated? && step.k < |s.running| && |s.running[step.k].rates| < |s.running[step.k].events| {
      RatedStaysValid(s.running[step.k], step.rates);
    }
  }

  lemma {:induction false} RunValid(steps: seq<Step>, interval: real)
    ensures var s := Run(Start(), steps, interval); AllValid(s.running) && AllRated(s.finished)
  {
    hide Next, AllValid, AllRated;
    if steps == [] {
      StartIsValid();
    } else {
      RunValid(steps[..|steps| - 1], interval);
      StepValid(Run(Start(), steps[..|steps| - 1], interval), steps[|steps| - 1], interval);
    }
  }

  lemma StartIsValid()
    ensures AllValid(Start().running) && AllRated(Start().finished)
  {
  }

  lemma NothingRated(events: seq<Event>)
    ensures Collection(events, [], 0.0).Valid()
  {
  }

  function Dispatched(finished: seq<Collection>): seq<Collection> {
    if finished == [] then []
    else
      var before, c := Dispatched(finished[..|finished| - 1]), finished[|finished| - 1];
      if c.volume > 0.0 then before + [c] else before
  }

  lemma {:induction false} DispatchedWithin(finished: seq<Collection>)
    ensures EventsOf(Dispatched(finished)) <= EventsOf(finished)
    ensures forall c :: c in Dispatched(finished) ==> c in finished && c.volume > 0.0
  {
    if finished == [] {
    } else {
      var init, c := finished[..|finished| - 1], finished[|finished| - 1];
      DispatchedWithin(init);
      EventsOfOneMore(Dispatched(init), c);
    }
  }

  /**
   * Every dispatched volume is positive and the value of its events at the rates they were given, and no
   * registered event is part of two dispatched volumes.
   */
  lemma DispatchedOnce(steps: seq<Step>, interval: real)
    ensures var d := Dispatched(Run(Start(), steps, interval).finished);
            && EventsOf(d) <= Fills(steps)
            && (forall c :: c in d ==>
                  c.volume > 0.0 && |c.rates| == |c.events| && c.volume == VolumeOf(c.events, c.rates))
  {
    hide EventsOf, VolumeOf, Dispatched;
    var s := Run(Start(), steps, interval);
    RunConserves(steps, interval);
    RunValid(steps, interval);
    DispatchedWithin(s.finished);
    forall c | c in Dispatched(s.finished) ensures |c.rates| == |c.events| && c.volume == VolumeOf(c.events, c.rates) {
      var i :| 0 <= i < |s.finished| && s.finished[i] == c;
      assert s.finished[i].Valid();
    }
  }

  function TotalVolume(cs: seq<Collection>): real {
    if cs == [] then 0.0 else TotalVolume(cs[..|cs| - 1]) + cs[|cs| - 1].volume
  }

  predicate NoNegativeVolume(cs: seq<Collection>) {
    forall i :: 0 <= i < |cs| ==> cs[i].volume >= 0.0
  }

  /** Leaving out the collections without volume loses none of the volume, unless one is negative. */
  lemma {:induction false} DispatchedIsAll(finished: seq<Collection>)
    ensures TotalVolume(Dispatched(finished)) >= TotalVolume(finished)
    ensures TotalVolume(Dispatched(finished)) == TotalVolume(finished) <==> NoNegativeVolume(finished)
  {
    if finished == [] {
    } else {
      var init, c := finished[..|finished| - 1], finished[|finished| - 1];
      DispatchedIsAll(init);
      VolumeOfOneMore(Dispatched(init), c);
      hide TotalVolume, NoNegativeVolume;
      VolumeOfOneMore(init, c);
      assert finished == init + [c];
    }
  }

  lemma VolumeOfOneMore(cs: seq<Collection>, c: Collection)
    ensures TotalVolume(cs + [c]) == TotalVolume(cs) + c.volume
    ensures NoNegativeVolume(cs + [c]) <==> NoNegativeVolume(cs) && c.volume >= 0.0
  {
    assert (cs + [c])[..|cs|] == cs;
    if NoNegativeVolume(cs + [c]) {
      assert (cs + [c])[|cs|] == c;
      forall i | 0 <= i < |cs| ensures cs[i].volume >= 0.0 {
        assert (cs + [c])[i] == cs[i];
      }
    }
  }

  // How often

  /** A tick at least an interval after the last one that counted hands all waiting events to a new collection. */
  lemma TickStarts(s: State, timestamp: real, interval: real)
    ensures Next(s, Tick(timestamp), interval) ==
      if timestamp >= s.lastTick + interval
      then s.(collected := [], running := s.running + [Collection(s.collected, [], 0.0)], lastTick := timestamp)
      else s
  {
  }

  /** The timestamps of the ticks that started a collection. */
  function TriggeringTicks(steps: seq<Step>, interval: real): seq<real> {
    if steps == [] then []
    else
      var before, step := steps[..|steps| - 1], steps[|steps| - 1];
      TriggeringTicks(before, interval) +
      if step.Tick? && Due(Run(Start(), before, interval), step.timestamp, interval) then [step.timestamp] else []
  }

  /** Ticks start collections at least an interval apart. */
  lemma {:induction false} TicksApart(steps: seq<Step>, interval: real)
    ensures var ticks := TriggeringTicks(steps, interval);
            && Run(Start(), steps, interval).lastTick == (if ticks == [] then 0.0 else ticks[|ticks| - 1])
            && (ticks != [] ==> ticks[0] >= interval)
            && (forall i :: 0 < i < |ticks| ==> ticks[i] - ticks[i - 1] >= interval)
  {
    hide Next;
    if steps == [] {
    } else {
      TicksApart(steps[..|steps| - 1], interval);
      OnlyDueTicksCount(Run(Start(), steps[..|steps| - 1], interval), steps[|steps| - 1], interval);
    }
  }

  lemma OnlyDueTicksCount(s: State, step: Step, interval: real)
    ensures Next(s, step, interval).lastTick ==
      if step.Tick? && Due(s, step.timestamp, interval) then step.timestamp else s.lastTick
  {
    hide Value;
  }

  class TradeVolumeMetricCollector {
    const activationInterval: real
    var collectedEvents: seq<Event>
    var lastProcessTickTimestamp: real
    var collections: seq<Collection>
    ghost var finished: seq<Collection>
    ghost var lost: multiset<Event>

    ghost function View(): State
      reads this
    {
      State(collectedEvents, collections, finished, lost, lastProcessTickTimestamp)
    }

    constructor (activationInterval: real)
      ensures this.activationInterval == activationInterval && View() == Start()
    {
      this.activationInterval := activationInterval;
      collectedEvents, lastProcessTickTimestamp, collections := [], 0.0, [];
      finished, lost := [], multiset{};
    }

    method RegisterFillEvent(event: Event)
      modifies this
      ensures View() == Next(old(View()), Filled(event), activationInterval)
    {
      collectedEvents := collectedEvents + [event];
    }

    /** Swaps the list out before the collection starts. */
    method TriggerMetricsCollectionProcess()
      modifies this
      ensures View() == Next(old(View()), Stop, activationInterval)
    {
      var eventsToProcess := collectedEvents;
      collectedEvents := [];
      collections := collections + [Collection(eventsToProcess, [], 0.0)];
    }

    method ProcessTick(timestamp: real)
      modifies this
      ensures View() == Next(old(View()), Tick(timestamp), activationInterval)
    {
      var inactivityTime := timestamp - lastProcessTickTimestamp;
      if inactivityTime >= activationInterval {
        lastProcessTickTimestamp := timestamp;
        TriggerMetricsCollectionProcess();
      }
    }

    /** A running collection goes on with the rates of its next event. */
    method RateNextEvent(k: nat, rates: Rates)
      requires k < |collections| && |collections[k].rates| < |collections[k].events|
      modifies this
      ensures View() == Next(old(View()), Rated(k, rates), activationInterval)
    {
      var c := collections[k];
      var event, value := c.events[|c.rates|], 0.0;
      if rates.fromQuote.Some? {
        value := event.amount * event.price * rates.fromQuote.value;
      } else if rates.fromBase.Some? {
        value := event.amount * rates.fromBase.value;
      }
      assert value == Value(event, rates);
      var volume := c.volume + value;
      collections := collections[k := c.(rates := c.rates + [rates], volume := volume)];
    }

    /** A collection without events left dispatches its volume, if there is any. */
    method FinishCollection(k: nat) returns (dispatched: Option<real>)
      requires k < |collections| && |collections[k].rates| == |collections[k].events|
      modifies this
      ensures View() == Next(old(View()), Finished(k), activationInterval)
      ensures dispatched == if old(collections[k].volume) > 0.0 then Some(old(collections[k].volume)) else None
    {
      var c := collections[k];
      dispatched := if c.volume > 0.0 then Some(c.volume) else None;
      collections := RemoveAt(collections, k);
      finished := finished + [c];
    }

    /** An exception puts the events back, behind those registered meanwhile; a cancellation does not. */
    method AbortCollection(k: nat, cancelled: bool)
      requires k < |collections|
      modifies this
      ensures View() == Next(old(View()), if cancelled then Cancelled(k) else Failed(k), activationInterval)
    {
      var events := collections[k].events;
      collections := RemoveAt(collections, k);
      if cancelled {
        lost := lost + multiset(events);
      } else {
        collectedEvents := collectedEvents + events;
      }
    }
  }
}
