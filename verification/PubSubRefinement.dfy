/** The listener registry, with its dead references and sweeps, refines a plain map of live listeners. */
module PubSubRefinement {
  import opened PubSubs

  datatype Operation =
    | Subscribe(tag: int, listener: EventListener, collect: bool)  // `collect` is the random draw
    | Unsubscribe(tag: int, listener: EventListener)
    | Query(tag: int)
    | Dies(listener: EventListener)

  datatype Registry = Registry(events: Events, dead: set<EventListener>)

  function Next(r: Registry, op: Operation): Registry {
    match op
    case Subscribe(tag, l, collect) => r.(events := WithListener(r.events, r.dead, tag, l, collect))
    case Unsubscribe(tag, l) => r.(events := WithoutListener(r.events, r.dead, tag, l))
    case Query(tag) => r.(events := Swept(r.events, r.dead, tag))
    case Dies(l) => r.(dead := r.dead + {l})
  }

  /** The simple view: every tag has the set of its live listeners. */
  function At(live: Events, tag: int): set<EventListener> {
    if tag in live then live[tag] else {}
  }

  function SimpleNext(live: Events, op: Operation): Events {
    match op
    case Subscribe(tag, l, _) => live[tag := At(live, tag) + {l}]
    case Unsubscribe(tag, l) => live[tag := At(live, tag) - {l}]
    case Query(_) => live
    case Dies(l) => map tag | tag in live :: live[tag] - {l}
  }

  ghost predicate Refines(r: Registry, live: Events) {
    NoEmptyTag(r.events) && forall tag :: Observed(r.events, r.dead, tag) == At(live, tag)
  }

  /** A subscriber holds its listener, so the listener is alive. */
  predicate Sensible(dead: set<EventListener>, op: Operation) {
    op.Subscribe? ==> op.listener !in dead
  }

  lemma SweepInvisible(events: Events, dead: set<EventListener>, tag: int, t: int)
    ensures Observed(Swept(events, dead, tag), dead, t) == Observed(events, dead, t)
  {
  }

  lemma StepRefines(r: Registry, live: Events, op: Operation)
    requires Refines(r, live) && Sensible(r.dead, op)
    ensures Refines(Next(r, op), SimpleNext(live, op))
  {
    var r', live' := Next(r, op), SimpleNext(live, op);
    forall t ensures Observed(r'.events, r'.dead, t) == At(live', t) {
      assert Observed(r.events, r.dead, t) == At(live, t);
      match op
      case Subscribe(tag, l, collect) =>
        SweepInvisible(WithListener(r.events, r.dead, tag, l, false), r.dead, tag, t);
      case Unsubscribe(tag, l) =>
        if tag in r.events {
          SweepInvisible(r.events[tag := r.events[tag] - {l}], r.dead, tag, t);
        }
      case Query(tag) => SweepInvisible(r.events, r.dead, tag, t);
      case Dies(l) =>
    }
    NoEmptyAfter(r, op);
  }

  lemma NoEmptyAfter(r: Registry, op: Operation)
    requires NoEmptyTag(r.events) && Sensible(r.dead, op)
    ensures NoEmptyTag(Next(r, op).events)
  {
    if op.Subscribe? {
      assert op.listener in WithListener(r.events, r.dead, op.tag, op.listener, false)[op.tag] - r.dead;
    }
  }

  /**
    Removing a listener, asking for the listeners and adding one with a draw leave no dead reference
    under the tag, and no other tag is touched; adding one without a draw keeps the dead ones.
   */
  lemma SweepsTheTag(r: Registry, op: Operation)
    requires !op.Dies?
    ensures var after := Next(r, op).events;
            && (forall tag :: tag != op.tag ==> (tag in after <==> tag in r.events))
            && (forall tag :: tag != op.tag && tag in after ==> after[tag] == r.events[tag])
            && if op.Subscribe? && !op.collect
               then op.tag in after && forall l :: l in after[op.tag] <==> l == op.listener || l in ListedAt(r, op.tag)
               else op.tag in after ==> forall l :: l in after[op.tag] ==> l !in r.dead
  {
  }

  function ListedAt(r: Registry, tag: int): set<EventListener> {
    if tag in r.events then r.events[tag] else {}
  }

  predicate SensibleRun(dead: set<EventListener>, ops: seq<Operation>)
    decreases |ops|
  {
    ops == [] ||
    (Sensible(dead, ops[0])
     && SensibleRun(if ops[0].Dies? then dead + {ops[0].listener} else dead, ops[1..]))
  }

  /** What the queries of a run return. */
  function Answers(r: Registry, ops: seq<Operation>): seq<set<EventListener>>
    decreases |ops|
  {
    if ops == [] then []
    else (if ops[0].Query? then [Observed(r.events, r.dead, ops[0].tag)] else [])
         + Answers(Next(r, ops[0]), ops[1..])
  }

  function SimpleAnswers(live: Events, ops: seq<Operation>): seq<set<EventListener>>
    decreases |ops|
  {
    if ops == [] then []
    else (if ops[0].Query? then [At(live, ops[0].tag)] else []) + SimpleAnswers(SimpleNext(live, ops[0]), ops[1..])
  }

  function After(r: Registry, ops: seq<Operation>): Registry
    decreases |ops|
  {
    if ops == [] then r else After(Next(r, ops[0]), ops[1..])
  }

  /**
    Every run, whatever the random draws, answers like the plain map of live listeners, and never
    leaves a tag without listeners behind.
   */
  lemma {:induction false} RunRefines(r: Registry, live: Events, ops: seq<Operation>)
    requires Refines(r, live) && SensibleRun(r.dead, ops)
    ensures Answers(r, ops) == SimpleAnswers(live, ops)
    ensures NoEmptyTag(After(r, ops).events)
    decreases |ops|
  {
    if ops == [] {
    } else {
      StepRefines(r, live, ops[0]);
      assert ops[0].Query? ==> Observed(r.events, r.dead, ops[0].tag) == At(live, ops[0].tag);
      RunRefines(Next(r, ops[0]), SimpleNext(live, ops[0]), ops[1..]);
    }
  }

  function Undrawn(op: Operation): Operation {
    if op.Subscribe? then op.(collect := false) else op
  }

  predicate SameButDraws(a: seq<Operation>, b: seq<Operation>) {
    |a| == |b| && forall i :: 0 <= i < |a| ==> Undrawn(a[i]) == Undrawn(b[i])
  }

  lemma {:induction false} SimpleIgnoresDraws(live: Events, dead: set<EventListener>, a: seq<Operation>,
                                              b: seq<Operation>)
    requires SameButDraws(a, b)
    ensures SimpleAnswers(live, a) == SimpleAnswers(live, b)
    ensures SensibleRun(dead, a) == SensibleRun(dead, b)
    decreases |a|
  {
    if a != [] {
      assert Undrawn(a[0]) == Undrawn(b[0]);
      assert forall i :: 0 <= i < |a| - 1 ==> a[1..][i] == a[i + 1] && b[1..][i] == b[i + 1];
      SimpleIgnoresDraws(SimpleNext(live, a[0]), if a[0].Dies? then dead + {a[0].listener} else dead, a[1..], b[1..]);
    }
  }

  /** Runs from an empty registry that differ only in the random draws cannot be told apart. */
  lemma DrawsInvisible(a: seq<Operation>, b: seq<Operation>)
    requires SameButDraws(a, b) && SensibleRun({}, a)
    ensures Answers(Registry(map[], {}), a) == Answers(Registry(map[], {}), b)
  {
    SimpleIgnoresDraws(map[], {}, a, b);
    RunRefines(Registry(map[], {}), map[], a);
    RunRefines(Registry(map[], {}), map[], b);
  }
}
