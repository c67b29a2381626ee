/**
  Event dispatch over weakly held listeners. `dead` is the set of listeners already collected: the
  weak references to exactly those yield `None`.
 */
module PubSubs {

  class EventListener {
    var currentEventTag: int
    var currentEventCaller: PubSub?

    constructor ()
      ensures currentEventTag == 0 && currentEventCaller == null
    {
      currentEventTag, currentEventCaller := 0, null;
    }

    method SetEventInfo(tag: int, caller: PubSub?)
      modifies this
      ensures currentEventTag == tag && currentEventCaller == caller
    {
      currentEventTag, currentEventCaller := tag, caller;
    }

    /** The listener is called: it can see the event info it holds. */
    method Call(depth: nat) returns (delivery: Delivery)
      ensures delivery == Delivery(depth, currentEventTag, currentEventCaller, this)
    {
      delivery := Delivery(depth, currentEventTag, currentEventCaller, this);
    }
  }

  type Events = map<int, set<EventListener>>

  /** What a client can observe: the listeners of a tag that are still alive. */
  function Observed(events: Events, dead: set<EventListener>, tag: int): set<EventListener> {
    if tag in events then events[tag] - dead else {}
  }

  predicate NoEmptyTag(events: Events) {
    forall tag :: tag in events ==> events[tag] != {}
  }

  function Swept(events: Events, dead: set<EventListener>, tag: int): Events {
    if tag !in events then events
    else if events[tag] - dead == {} then events - {tag}
    else events[tag := events[tag] - dead]
  }

  function WithListener(events: Events, dead: set<EventListener>, tag: int, l: EventListener, collect: bool): Events {
    var added := events[tag := (if tag in events then events[tag] else {}) + {l}];
    if collect then Swept(added, dead, tag) else added
  }

  function WithoutListener(events: Events, dead: set<EventListener>, tag: int, l: EventListener): Events {
    if tag !in events then events else Swept(events[tag := events[tag] - {l}], dead, tag)
  }

  /** A listener call: what it does to the registry, events it triggers in turn, and how it ends. */
  datatype Action =
    | Add(tag: int, listener: EventListener, collect: bool)
    | Remove(tag: int, listener: EventListener)
    | Trigger(tag: int, reactions: seq<Reaction>)

  /** Ordinary exceptions are logged and swallowed; the others end the dispatch. */
  datatype Outcome = Returns | Raises | RaisesBaseException

  datatype Reaction = Reaction(actions: seq<Action>, outcome: Outcome)

  /** A call made by the dispatch at nesting level `depth`, with the event info the listener holds when it is called. */
  datatype Delivery = Delivery(depth: nat, tag: int, caller: PubSub?, listener: EventListener)

  /** The listeners called with `tag` by the dispatch at `depth`, in order. */
  function CalledAt(log: seq<Delivery>, depth: nat, tag: int): seq<EventListener> {
    if log == [] then []
    else
      var d := log[|log| - 1];
      CalledAt(log[..|log| - 1], depth, tag) + (if d.depth == depth && d.tag == tag then [d.listener] else [])
  }

  lemma {:induction false} CalledAtAppend(a: seq<Delivery>, b: seq<Delivery>, depth: nat, tag: int)
    ensures CalledAt(a + b, depth, tag) == CalledAt(a, depth, tag) + CalledAt(b, depth, tag)
  {
    if b == [] {
      assert a + b == a;
    } else {
      assert (a + b)[..|a + b| - 1] == a + b[..|b| - 1];
      CalledAtAppend(a, b[..|b| - 1], depth, tag);
    }
  }

  lemma NothingCalled(depth: nat, tag: int)
    ensures CalledAt([], depth, tag) == []
  {
  }

  lemma CalledBetween(a: seq<Delivery>, b: seq<Delivery>, c: seq<Delivery>, depth: nat, tag: int)
    requires a <= b <= c
    ensures CalledAt(c[|a|..], depth, tag) == CalledAt(b[|a|..], depth, tag) + CalledAt(c[|b|..], depth, tag)
  {
    assert c[|a|..] == b[|a|..] + c[|b|..];
    CalledAtAppend(b[|a|..], c[|b|..], depth, tag);
  }

  lemma {:induction false} CalledDeeper(log: seq<Delivery>, depth: nat, tag: int)
    requires forall d :: d in log ==> d.depth > depth
    ensures CalledAt(log, depth, tag) == []
  {
    if log == [] {
    } else {
      CalledDeeper(log[..|log| - 1], depth, tag);
    }
  }

  function Members(ls: seq<EventListener>): set<EventListener> {
    set l | l in ls
  }

  predicate Distinct(ls: seq<EventListener>) {
    forall i, j :: 0 <= i < j < |ls| ==> ls[i] != ls[j]
  }

  lemma DistinctSnoc(ls: seq<EventListener>, l: EventListener)
    requires Distinct(ls) && l !in ls
    ensures Distinct(ls + [l])
  {
    forall i | 0 <= i < |ls| ensures ls[i] != l {
      assert ls[i] in ls;
    }
  }

  lemma SweptListeners(events: Events, dead: set<EventListener>, tag: int)
    ensures var swept := Swept(events, dead, tag);
            Observed(events, dead, tag) == if tag in swept then swept[tag] else {}
  {
  }

  /** Only listeners of `universe` that are alive are registered by the actions. */
  predicate ActionsWithin(actions: seq<Action>, universe: set<EventListener>, dead: set<EventListener>)
    decreases actions, 0
  {
    forall i :: 0 <= i < |actions| ==> ActionWithin(actions[i], universe, dead)
  }

  predicate ActionWithin(a: Action, universe: set<EventListener>, dead: set<EventListener>)
    decreases a, 0
  {
    match a
    case Add(_, l, _) => l in universe && l !in dead
    case Remove(_, _) => true
    case Trigger(_, reactions) => ReactionsWithin(reactions, universe, dead)
  }

  predicate ReactionsWithin(reactions: seq<Reaction>, universe: set<EventListener>, dead: set<EventListener>)
    decreases reactions, 0
  {
    forall i :: 0 <= i < |reactions| ==> ActionsWithin(reactions[i].actions, universe, dead)
  }

  /** No call, nested ones included, raises outside `Exception`. */
  predicate Orderly(reactions: seq<Reaction>)
    decreases reactions, 0
  {
    forall i :: 0 <= i < |reactions| ==>
      reactions[i].outcome != RaisesBaseException && OrderlyActions(reactions[i].actions)
  }

  predicate OrderlyActions(actions: seq<Action>)
    decreases actions, 0
  {
    forall i :: 0 <= i < |actions| ==> OrderlyAction(actions[i])
  }

  predicate OrderlyAction(a: Action)
    decreases a, 0
  {
    a.Trigger? ==> Orderly(a.reactions)
  }

  // What a dispatch does, when call `k` of it does what `reactions[k]` says

  /** The registry left behind, whether an exception outside `Exception` got through, and the listener calls made. */
  datatype Effect = Effect(events: Events, aborted: bool, calls: nat) {
    function Then(next: Effect): Effect {
      next.(calls := calls + next.calls)
    }
  }

  function ActionEffect(events: Events, dead: set<EventListener>, a: Action): Effect
    decreases a, 0
  {
    match a
    case Add(tag, l, collect) => Effect(WithListener(events, dead, tag, l, collect), false, 0)
    case Remove(tag, l) => Effect(WithoutListener(events, dead, tag, l), false, 0)
    case Trigger(tag, reactions) => DispatchEffect(events, dead, tag, reactions)
  }

  /** The first `i` actions, up to one that an exception escapes. */
  function ActionsEffect(events: Events, dead: set<EventListener>, actions: seq<Action>, i: nat): Effect
    requires i <= |actions|
    decreases actions, i
  {
    if i == 0 then Effect(events, false, 0)
    else
      var e := ActionsEffect(events, dead, actions, i - 1);
      if e.aborted then e else e.Then(ActionEffect(e.events, dead, actions[i - 1]))
  }

  /** Call `k`; calls beyond the given reactions do nothing. */
  function CallEffect(events: Events, dead: set<EventListener>, reactions: seq<Reaction>, k: nat): Effect
    decreases reactions, 0
  {
    if k >= |reactions| then Effect(events, false, 1)
    else
      var e := ActionsEffect(events, dead, reactions[k].actions, |reactions[k].actions|);
      Effect(e.events, e.aborted || reactions[k].outcome == RaisesBaseException, 1 + e.calls)
  }

  /** The first `n` calls, up to one that aborts. */
  function CallsEffect(events: Events, dead: set<EventListener>, reactions: seq<Reaction>, n: nat): Effect
    decreases reactions, 1, n
  {
    if n == 0 then Effect(events, false, 0)
    else
      var e := CallsEffect(events, dead, reactions, n - 1);
      if e.aborted then e else e.Then(CallEffect(e.events, dead, reactions, n - 1))
  }

  /** A sweep, and then a call for every listener left. */
  function DispatchEffect(events: Events, dead: set<EventListener>, tag: int, reactions: seq<Reaction>): Effect
    decreases reactions, 2
  {
    CallsEffect(Swept(events, dead, tag), dead, reactions, |Observed(events, dead, tag)|)
  }

  /** What call `k` hands back: the exception of a nested dispatch, or else its own outcome. */
  function CallOutcome(events: Events, dead: set<EventListener>, reactions: seq<Reaction>, k: nat): Outcome {
    if k >= |reactions| then Returns
    else if ActionsEffect(events, dead, reactions[k].actions, |reactions[k].actions|).aborted then RaisesBaseException
    else reactions[k].outcome
  }

  lemma CallAborts(events: Events, dead: set<EventListener>, reactions: seq<Reaction>, k: nat)
    ensures CallEffect(events, dead, reactions, k).aborted <==>
            CallOutcome(events, dead, reactions, k) == RaisesBaseException
  {
  }

  /** After the call that aborts there are no others. */
  lemma {:induction false} AbortedStays(events: Events, dead: set<EventListener>, reactions: seq<Reaction>, k: nat,
                                        n: nat)
    requires k <= n && CallsEffect(events, dead, reactions, k).aborted
    ensures CallsEffect(events, dead, reactions, n) == CallsEffect(events, dead, reactions, k)
  {
    if k == n {
    } else {
      AbortedStays(events, dead, reactions, k, n - 1);
    }
  }

  /** Likewise after the action that an exception escapes. */
  lemma {:induction false} EscapedStays(events: Events, dead: set<EventListener>, actions: seq<Action>, k: nat, n: nat)
    requires k <= n <= |actions| && ActionsEffect(events, dead, actions, k).aborted
    ensures ActionsEffect(events, dead, actions, n) == ActionsEffect(events, dead, actions, k)
  {
    if k == n {
    } else {
      EscapedStays(events, dead, actions, k, n - 1);
    }
  }

  lemma NoAction(events: Events, dead: set<EventListener>, actions: seq<Action>)
    ensures ActionsEffect(events, dead, actions, 0) == Effect(events, false, 0)
  {
  }

  /** Action `i` is either the last one or leads to the next. */
  lemma NextAction(events: Events, dead: set<EventListener>, actions: seq<Action>, i: nat, before: Effect,
                   universe: set<EventListener>)
    requires i < |actions| && !before.aborted && ActionsEffect(events, dead, actions, i) == before
    requires ActionsWithin(actions, universe, dead)
    ensures ActionWithin(actions[i], universe, dead) && (OrderlyActions(actions) ==> OrderlyAction(actions[i]))
    ensures var e := before.Then(ActionEffect(before.events, dead, actions[i]));
            e == ActionsEffect(events, dead, actions, if e.aborted then |actions| else i + 1)
  {
    if ActionsEffect(events, dead, actions, i + 1).aborted {
      EscapedStays(events, dead, actions, i + 1, |actions|);
    }
  }

  /** Ordinary exceptions, however deep, abort nothing. */
  lemma {:induction false} OrderlyCalls(events: Events, dead: set<EventListener>, reactions: seq<Reaction>, n: nat)
    requires Orderly(reactions)
    ensures !CallsEffect(events, dead, reactions, n).aborted
    decreases reactions, 1, n
  {
    if n == 0 {
    } else {
      OrderlyCalls(events, dead, reactions, n - 1);
      var before := CallsEffect(events, dead, reactions, n - 1).events;
      if n <= |reactions| {
        var actions := reactions[n - 1].actions;
        OrderlyBody(before, dead, actions, |actions|);
      }
    }
  }

  lemma {:induction false} OrderlyBody(events: Events, dead: set<EventListener>, actions: seq<Action>, i: nat)
    requires i <= |actions| && OrderlyActions(actions)
    ensures !ActionsEffect(events, dead, actions, i).aborted
    decreases actions, i
  {
    if i == 0 {
    } else {
      OrderlyBody(events, dead, actions, i - 1);
      var before := ActionsEffect(events, dead, actions, i - 1).events;
      var a := actions[i - 1];
      assert OrderlyAction(a);
      if a.Trigger? {
        OrderlyDispatch(before, dead, a.tag, a.reactions);
        assert ActionEffect(before, dead, a) == DispatchEffect(before, dead, a.tag, a.reactions);
      }
    }
  }

  lemma OrderlyDispatch(events: Events, dead: set<EventListener>, tag: int, reactions: seq<Reaction>)
    requires Orderly(reactions)
    ensures !DispatchEffect(events, dead, tag, reactions).aborted
    decreases reactions, 2
  {
    OrderlyCalls(Swept(events, dead, tag), dead, reactions, |Observed(events, dead, tag)|);
  }

  /** Call `k` is made and hands back an exception outside `Exception`. */
  predicate Cuts(events: Events, dead: set<EventListener>, reactions: seq<Reaction>, k: nat) {
    var e := CallsEffect(events, dead, reactions, k);
    !e.aborted && CallOutcome(e.events, dead, reactions, k) == RaisesBaseException
  }

  /**
    A dispatch is cut short exactly when one of its calls hands back an exception outside `Exception`,
    in the registry that the calls before it left.
   */
  lemma {:induction false} AbortedByCall(events: Events, dead: set<EventListener>, reactions: seq<Reaction>, n: nat)
    ensures CallsEffect(events, dead, reactions, n).aborted <==>
            exists k :: 0 <= k < n && Cuts(events, dead, reactions, k)
  {
    if n == 0 {
    } else {
      AbortedByCall(events, dead, reactions, n - 1);
      CallAborts(CallsEffect(events, dead, reactions, n - 1).events, dead, reactions, n - 1);
      if CallsEffect(events, dead, reactions, n).aborted && !CallsEffect(events, dead, reactions, n - 1).aborted {
        assert Cuts(events, dead, reactions, n - 1);
      }
    }
  }

  /**
    A dispatch to `targets` in the swept registry `start` has called `called`, all but those in `rest`,
    with the effect `now`; only the last call may have aborted it.
   */
  ghost predicate Dispatched(start: Events, dead: set<EventListener>, reactions: seq<Reaction>,
                             targets: set<EventListener>, rest: set<EventListener>, called: seq<EventListener>,
                             now: Effect)
  {
    && rest <= targets && |called| + |rest| == |targets|
    && Distinct(called) && Members(called) == targets - rest
    && now == CallsEffect(start, dead, reactions, |called|)
    && (now.aborted ==> called != [] && Cuts(start, dead, reactions, |called| - 1))
  }

  lemma DispatchedNone(start: Events, dead: set<EventListener>, reactions: seq<Reaction>, targets: set<EventListener>)
    ensures Dispatched(start, dead, reactions, targets, targets, [], Effect(start, false, 0))
  {
  }

  lemma DispatchedOneMore(start: Events, dead: set<EventListener>, reactions: seq<Reaction>,
                          targets: set<EventListener>, rest: set<EventListener>, called: seq<EventListener>,
                          before: Effect, l: EventListener)
    requires !before.aborted && l in rest && Dispatched(start, dead, reactions, targets, rest, called, before)
    ensures var now := before.Then(CallEffect(before.events, dead, reactions, |called|));
            Dispatched(start, dead, reactions, targets, rest - {l}, called + [l], now)
  {
    assert l !in Members(called);
    DistinctSnoc(called, l);
    assert Members(called + [l]) == Members(called) + {l};
    CallAborts(before.events, dead, reactions, |called|);
  }

  lemma DispatchedAll(events: Events, dead: set<EventListener>, tag: int, reactions: seq<Reaction>,
                      rest: set<EventListener>, called: seq<EventListener>, now: Effect)
    requires Dispatched(Swept(events, dead, tag), dead, reactions, Observed(events, dead, tag), rest, called, now)
    requires now.aborted || rest == {}
    ensures now == DispatchEffect(events, dead, tag, reactions) && (Orderly(reactions) ==> !now.aborted)
    ensures Distinct(called) && forall l :: l in called ==> l in Observed(events, dead, tag)
    ensures !now.aborted ==> forall l :: l in Observed(events, dead, tag) ==> l in called
    ensures now.aborted ==> called != [] && Cuts(Swept(events, dead, tag), dead, reactions, |called| - 1)
  {
    hide CallsEffect, Cuts, Orderly;
    var targets := Observed(events, dead, tag);
    forall l ensures l in called <==> l in targets - rest {
      assert l in called <==> l in Members(called);
    }
    var start, n := Swept(events, dead, tag), |targets|;
    if now.aborted {
      AbortedStays(start, dead, reactions, |called|, n);
    }
    if Orderly(reactions) {
      OrderlyCalls(start, dead, reactions, n);
    }
  }

  class PubSub {
    var events: Events
    var deliveries: seq<Delivery>

    constructor ()
      ensures events == map[] && deliveries == []
    {
      events, deliveries := map[], [];
    }

    predicate Within(universe: set<EventListener>)
      reads this
    {
      NoEmptyTag(events) && forall tag :: tag in events ==> events[tag] <= universe
    }

    static method CollectDead(listeners: set<EventListener>, dead: set<EventListener>)
      returns (toRemove: seq<EventListener>)
      ensures forall l :: l in toRemove <==> l in listeners && l in dead
    {
      var toVisit := listeners;
      toRemove := [];
      while toVisit != {}
        invariant toVisit <= listeners
        invariant forall l :: l in toRemove <==> l in listeners - toVisit && l in dead
        decreases toVisit
      {
        var l :| l in toVisit;
        toVisit := toVisit - {l};
        if l in dead {
          toRemove := toRemove + [l];
        }
      }
    }

    static method Erase(listeners: set<EventListener>, toRemove: seq<EventListener>)
      returns (rest: set<EventListener>)
      ensures rest == listeners - set l | l in toRemove
    {
      rest := listeners;
      var i := 0;
      while i < |toRemove|
        invariant 0 <= i <= |toRemove|
        invariant rest == listeners - set l | l in toRemove[..i]
      {
        rest := rest - {toRemove[i]};
        assert toRemove[..i + 1] == toRemove[..i] + [toRemove[i]];
        i := i + 1;
      }
      assert toRemove[..i] == toRemove;
    }

    /** Collect the dead references first, erase them afterwards, drop the tag if nothing is left. */
    method RemoveDeadListeners(tag: int, dead: set<EventListener>)
      modifies `events
      ensures events == Swept(old(events), dead, tag)
    {
      if tag !in events {
        return;
      }
      var toRemove := CollectDead(events[tag], dead);
      var listeners := Erase(events[tag], toRemove);
      assert listeners == events[tag] - dead;
      events := if |listeners| < 1 then events - {tag} else events[tag := listeners];
    }

    method AddListener(tag: int, l: EventListener, dead: set<EventListener>, collect: bool)
      modifies `events
      ensures events == WithListener(old(events), dead, tag, l, collect)
    {
      if tag in events {
        events := events[tag := events[tag] + {l}];
      } else {
        events := events[tag := {l}];
        assert {} + {l} == {l};
      }
      if collect {
        RemoveDeadListeners(tag, dead);
      }
    }

    method RemoveListener(tag: int, l: EventListener, dead: set<EventListener>)
      modifies `events
      ensures events == WithoutListener(old(events), dead, tag, l)
    {
      if tag !in events {
        return;
      }
      if l in events[tag] {
        events := events[tag := events[tag] - {l}];
      } else {
        assert events[tag] - {l} == events[tag];
      }
      assert events == old(events)[tag := old(events)[tag] - {l}];
      RemoveDeadListeners(tag, dead);
    }

    method GetListeners(tag: int, dead: set<EventListener>) returns (r: seq<EventListener>)
      modifies `events
      ensures events == Swept(old(events), dead, tag)
      ensures Distinct(r) && forall l :: l in r <==> l in Observed(old(events), dead, tag)
    {
      RemoveDeadListeners(tag, dead);
      r := [];
      if tag !in events {
        return;
      }
      var listeners := events[tag];
      var toVisit := listeners;
      ghost var swept := events;
      while toVisit != {}
        invariant events == swept && toVisit <= listeners
        invariant Distinct(r) && forall l :: l in r <==> l in listeners - toVisit
        decreases toVisit
      {
        var l :| l in toVisit;
        toVisit := toVisit - {l};
        DistinctSnoc(r, l);
        r := r + [l];
      }
    }

    /** Deliveries since `before`: none above `depth`, all from here, and every called listener has its info reset. */
    ghost predicate Settled(before: seq<Delivery>, depth: nat, universe: set<EventListener>)
      reads this, universe
    {
      && before <= deliveries
      && forall i :: |before| <= i < |deliveries| ==>
           && deliveries[i].depth >= depth && deliveries[i].caller == this && deliveries[i].listener in universe
           && deliveries[i].listener.currentEventTag == 0
           && deliveries[i].listener.currentEventCaller == null
    }

    /** A dispatch leaves the event info of every listener alone or resets it. */
    twostate predicate KeptOrReset(universe: set<EventListener>)
      reads universe
    {
      forall l :: l in universe ==>
        || (l.currentEventTag == 0 && l.currentEventCaller == null)
        || (l.currentEventTag == old(l.currentEventTag) && l.currentEventCaller == old(l.currentEventCaller))
    }

    /** One turn: announce the event to the listener, call it, and reset its info whatever happens. */
    method CallListener(depth: nat, tag: int, l: EventListener, dead: set<EventListener>,
                        reactions: seq<Reaction>, k: nat, ghost universe: set<EventListener>)
      returns (outcome: Outcome)
      requires l in universe && Within(universe) && ReactionsWithin(reactions, universe, dead)
      modifies this, universe
      ensures Within(universe) && Settled(old(deliveries), depth, universe) && KeptOrReset(universe)
      ensures CalledAt(deliveries[|old(deliveries)|..], depth, tag) == [l]
      ensures CallEffect(old(events), dead, reactions, k) ==
              Effect(events, outcome == RaisesBaseException, |deliveries| - |old(deliveries)|)
      ensures outcome == CallOutcome(old(events), dead, reactions, k)
      ensures Orderly(reactions) ==> outcome != RaisesBaseException
      decreases reactions, 1
    {
      l.SetEventInfo(tag, this);
      var delivery := l.Call(depth);
      deliveries := deliveries + [delivery];
      outcome := Returns;
      if k < |reactions| {
        var escaped := RunActions(depth + 1, dead, reactions[k].actions, universe);
        outcome := if escaped then RaisesBaseException else reactions[k].outcome;
      }
      l.SetEventInfo(0, null);
      TurnCalls(old(deliveries), deliveries, Delivery(depth, tag, this, l));
    }

    lemma TurnCalls(before: seq<Delivery>, after: seq<Delivery>, d: Delivery)
      requires before + [d] <= after
      requires forall i :: |before| < i < |after| ==> after[i].depth > d.depth
      ensures CalledAt(after[|before|..], d.depth, d.tag) == [d.listener]
    {
      var nested := after[|before| + 1..];
      assert after[|before|..] == [d] + nested;
      CalledAtAppend([d], nested, d.depth, d.tag);
      CalledDeeper(nested, d.depth, d.tag);
    }

    /**
      One dispatch. Each live listener registered at entry is called exactly once, whatever the
      calls add, remove, trigger or raise; only an exception outside `Exception` cuts it short.
     */
    method TriggerEvent(depth: nat, tag: int, dead: set<EventListener>, reactions: seq<Reaction>,
                        ghost universe: set<EventListener>) returns (aborted: bool)
      requires Within(universe) && ReactionsWithin(reactions, universe, dead)
      modifies this, universe
      ensures Within(universe) && Settled(old(deliveries), depth, universe) && KeptOrReset(universe)
      ensures Effect(events, aborted, |deliveries| - |old(deliveries)|) ==
              DispatchEffect(old(events), dead, tag, reactions)
      ensures Orderly(reactions) ==> !aborted
      ensures var called := CalledAt(deliveries[|old(deliveries)|..], depth, tag);
              && Distinct(called)
              && (forall l :: l in called ==> l in Observed(old(events), dead, tag))
              && (!aborted ==> forall l :: l in Observed(old(events), dead, tag) ==> l in called)
              && (aborted ==> called != [] && Cuts(Swept(old(events), dead, tag), dead, reactions, |called| - 1))
      decreases reactions, 2
    {
      hide CalledAt, ReactionsWithin, Distinct, CallsEffect, CallEffect, CallOutcome, Cuts, Orderly, Dispatched,
        Observed;
      RemoveDeadListeners(tag, dead);
      ghost var before, targets, called, start := deliveries, Observed(old(events), dead, tag), [], events;
      SweptListeners(old(events), dead, tag);
      assert deliveries[|before|..] == [] && CalledAt([], depth, tag) == [] by { NothingCalled(depth, tag); }
      DispatchedNone(start, dead, reactions, targets);
      if tag !in events {
        DispatchedAll(old(events), dead, tag, reactions, {}, [], Effect(start, false, 0));
        return false;
      }
      var listeners, k := events[tag], 0;
      while listeners != {}
        invariant listeners <= targets
        invariant Within(universe) && Settled(before, depth, universe) && KeptOrReset(universe)
        invariant k == |called| && called == CalledAt(deliveries[|before|..], depth, tag)
        invariant Dispatched(start, dead, reactions, targets, listeners, called,
                             Effect(events, false, |deliveries| - |before|))
        decreases listeners
      {
        var l :| l in listeners;
        ghost var now := Effect(events, false, |deliveries| - |before|);
        DispatchedOneMore(start, dead, reactions, targets, listeners, called, now, l);
        listeners := listeners - {l};
        ghost var calling := deliveries;
        var outcome := CallListener(depth, tag, l, dead, reactions, k, universe);
        CalledBetween(before, calling, deliveries, depth, tag);
        called := called + [l];
        if outcome == RaisesBaseException {
          DispatchedAll(old(events), dead, tag, reactions, listeners, called,
                        Effect(events, true, |deliveries| - |before|));
          return true;
        }
        k := k + 1;
      }
      DispatchedAll(old(events), dead, tag, reactions, {}, called, Effect(events, false, |deliveries| - |before|));
      aborted := false;
    }

    /** The body of a listener call; an exception escaping a nested dispatch ends it. */
    method RunActions(depth: nat, dead: set<EventListener>, actions: seq<Action>,
                      ghost universe: set<EventListener>) returns (escaped: bool)
      requires Within(universe) && ActionsWithin(actions, universe, dead)
      modifies this, universe
      ensures Within(universe) && Settled(old(deliveries), depth, universe) && KeptOrReset(universe)
      ensures Effect(events, escaped, |deliveries| - |old(deliveries)|) ==
              ActionsEffect(old(events), dead, actions, |actions|)
      ensures OrderlyActions(actions) ==> !escaped
      decreases actions, 3
    {
      hide ActionsEffect, DispatchEffect, Orderly, ActionsWithin, OrderlyActions;
      var i := 0;
      NoAction(events, dead, actions);
      while i < |actions|
        invariant 0 <= i <= |actions|
        invariant Within(universe) && Settled(old(deliveries), depth, universe) && KeptOrReset(universe)
        invariant Effect(events, false, |deliveries| - |old(deliveries)|) ==
                  ActionsEffect(old(events), dead, actions, i)
      {
        NextAction(old(events), dead, actions, i, Effect(events, false, |deliveries| - |old(deliveries)|), universe);
        match actions[i] {
          case Add(tag, l, collect) => AddListener(tag, l, dead, collect);
          case Remove(tag, l) => RemoveListener(tag, l, dead);
          case Trigger(tag, reactions) =>
            var aborted := TriggerEvent(depth, tag, dead, reactions, universe);
            if aborted {
              return true;
            }
        }
        i := i + 1;
      }
      escaped := false;
    }
  }
}
