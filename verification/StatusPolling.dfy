/** The error handlers of the status polling, as steps of the tracker. */
module StatusPolling {
  import opened Options
  import opened Orders
  import opened TrackerModel
  import opened TrackerInvariant
  import opened TrackerRuns
  import opened TrackerClosing

  /** What a status request gives: a status, an exception that may mean "not found", or a cancellation. */
  datatype Reply = Status(update: OrderUpdate) | Raised(isNotFound: bool) | Cancelled

  /** For an active order every exception but a cancellation, which ends the round, is a not-found report. */
  function ActiveStep(id: Id, reply: Reply, now: real, victim: nat): Option<Step> {
    match reply
    case Status(u) => Some(Update(u, victim))
    case Raised(_) => Some(NotFound(id, now, victim))
    case Cancelled => None
  }

  /** For a lost order only an exception that means "not found" leads to a step. */
  function LostStep(id: Id, reply: Reply, now: real, victim: nat): Option<Step> {
    match reply
    case Status(u) => Some(Update(u, victim))
    case Raised(isNotFound) => if isNotFound then Some(Update(FailedUpdate(id, now), victim)) else None
    case Cancelled => None
  }

  function AfterLostPoll(s: State, id: Id, reply: Reply, now: real, victim: nat): State
    requires Resolves(s)
  {
    match LostStep(id, reply, now, victim)
    case Some(step) => Next(s, step)
    case None => s
  }

  // Rounds over the active orders

  /** The request for one order: what else happens while it is out, and its reply. */
  datatype Turn = Turn(between: seq<Step>, reply: Reply, now: real, victim: nat)

  /** A round asks for the orders active at its start, one after the other, also when they have moved since. */
  datatype Round = Round(before: seq<Step>, turns: seq<Turn>)

  /** The steps of the turns; a cancellation cuts the round short. */
  function RoundSteps(ids: seq<Id>, turns: seq<Turn>): seq<Step>
    requires |turns| <= |ids|
    decreases |turns|
  {
    if turns == [] then []
    else
      match ActiveStep(ids[0], turns[0].reply, turns[0].now, turns[0].victim)
      case Some(step) => turns[0].between + [step] + RoundSteps(ids[1..], turns[1..])
      case None => turns[0].between
  }

  ghost predicate AdmissibleRounds(s: State, rounds: seq<Round>)
    decreases |rounds|
  {
    rounds != [] ==>
      var s1 := Run(s, rounds[0].before);
      && AdmissibleRun(s, rounds[0].before)
      && |rounds[0].turns| <= |s1.active|
      && AdmissibleRun(s1, RoundSteps(s1.active, rounds[0].turns))
      && AdmissibleRounds(Run(s1, RoundSteps(s1.active, rounds[0].turns)), rounds[1..])
  }

  ghost function AfterRounds(s: State, rounds: seq<Round>): State
    requires AdmissibleRounds(s, rounds)
    decreases |rounds|
  {
    if rounds == [] then s
    else
      var s1 := Run(s, rounds[0].before);
      AfterRounds(Run(s1, RoundSteps(s1.active, rounds[0].turns)), rounds[1..])
  }

  /** The request for the order fails before the round is cut short. */
  predicate FailsIn(ids: seq<Id>, turns: seq<Turn>, id: Id)
    requires |turns| <= |ids|
  {
    exists k :: 0 <= k < |turns| && ids[k] == id && turns[k].reply.Raised? && NoneCancelled(turns[..k])
  }

  predicate NoneCancelled(turns: seq<Turn>) {
    forall k :: 0 <= k < |turns| ==> !turns[k].reply.Cancelled?
  }

  /** In every round that still asks for the order, the request for it fails. */
  ghost predicate FailsInAll(s: State, rounds: seq<Round>, id: Id)
    requires AdmissibleRounds(s, rounds)
    decreases |rounds|
  {
    rounds != [] ==>
      var s1 := Run(s, rounds[0].before);
      && (id in s1.active ==> FailsIn(s1.active, rounds[0].turns, id))
      && FailsInAll(Run(s1, RoundSteps(s1.active, rounds[0].turns)), rounds[1..], id)
  }

  lemma {:induction false} ReportsInParts(xs: seq<Step>, ys: seq<Step>, id: Id)
    ensures ReportsIn(xs + ys, id) == ReportsIn(xs, id) + ReportsIn(ys, id)
  {
    if xs == [] {
      assert xs + ys == ys;
    } else {
      assert (xs + ys)[1..] == xs[1..] + ys;
      ReportsInParts(xs[1..], ys, id);
    }
  }

  /** A failing request is a report. */
  lemma {:induction false} FailureReports(ids: seq<Id>, turns: seq<Turn>, id: Id)
    requires |turns| <= |ids| && FailsIn(ids, turns, id)
    ensures ReportsIn(RoundSteps(ids, turns), id) >= 1
    decreases |turns|
  {
    var k :| 0 <= k < |turns| && ids[k] == id && turns[k].reply.Raised? && NoneCancelled(turns[..k]);
    assert k > 0 ==> !turns[..k][0].reply.Cancelled?;
    var turn, rest := turns[0], RoundSteps(ids[1..], turns[1..]);
    var step := ActiveStep(ids[0], turn.reply, turn.now, turn.victim).value;
    ReportsInParts(turn.between + [step], rest, id);
    ReportsInParts(turn.between, [step], id);
    if k > 0 {
      assert forall i :: 0 <= i < k - 1 ==> turns[1..][i] == turns[..k][i + 1];
      assert turns[1..][k - 1] == turns[k] && ids[1..][k - 1] == id && NoneCancelled(turns[1..][..k - 1]);
      FailureReports(ids[1..], turns[1..], id);
    }
  }

  /** A status that is asked for before the round is cut short is processed as an update. */
  lemma {:induction false} StatusIsApplied(ids: seq<Id>, turns: seq<Turn>, k: nat)
    requires k < |turns| <= |ids| && turns[k].reply.Status? && NoneCancelled(turns[..k])
    ensures Update(turns[k].reply.update, turns[k].victim) in RoundSteps(ids, turns)
    decreases |turns|
  {
    if k == 0 {
    } else {
      assert !turns[..k][0].reply.Cancelled?;
      assert forall i :: 0 <= i < k - 1 ==> turns[1..][i] == turns[..k][i + 1];
      assert NoneCancelled(turns[1..][..k - 1]);
      StatusIsApplied(ids[1..], turns[1..], k - 1);
    }
  }

  /** A cancellation ends the round: nothing is asked for after it. */
  lemma {:induction false} CancellationCuts(ids: seq<Id>, turns: seq<Turn>, k: nat)
    requires k < |turns| <= |ids| && turns[k].reply.Cancelled?
    ensures RoundSteps(ids, turns) == RoundSteps(ids[..k + 1], turns[..k + 1])
    decreases |turns|
  {
    if k > 0 {
      CancellationCuts(ids[1..], turns[1..], k - 1);
      assert ids[..k + 1][1..] == ids[1..][..k] && turns[..k + 1][1..] == turns[1..][..k];
    }
  }

  /** One round: an order still active after it has one report more, at least. */
  lemma RoundCounts(s: State, round: Round, id: Id)
    requires Inv(s) && id in s.active && AdmissibleRun(s, round.before)
    requires var s1 := Run(s, round.before);
             && |round.turns| <= |s1.active| && AdmissibleRun(s1, RoundSteps(s1.active, round.turns))
             && (id in s1.active ==> FailsIn(s1.active, round.turns, id))
    ensures var s1 := Run(s, round.before);
            var s2 := Run(s1, RoundSteps(s1.active, round.turns));
            && Inv(s2) && s2.limit == s.limit && LeadsTo(Active, PlaceOf(s2, id))
            && (id in s2.active ==> Reports(s2, id) >= Reports(s, id) + 1)
  {
    hide Run, AdmissibleRun, RoundSteps, FailsIn, Inv, Reports;
    var s1 := Run(s, round.before);
    var steps := RoundSteps(s1.active, round.turns);
    var s2 := Run(s1, steps);
    RunKeeps(s, round.before);
    RunMoves(s, round.before, id);
    LimitFixedOverRun(s, round.before);
    RunKeeps(s1, steps);
    RunMoves(s1, steps, id);
    LimitFixedOverRun(s1, steps);
    if id in s2.active {
      CounterOverRun(s, round.before, id);
      CounterOverRun(s1, steps, id);
      FailureReports(s1.active, round.turns, id);
    }
  }

  lemma {:induction false} RoundsCount(s: State, rounds: seq<Round>, id: Id)
    requires Inv(s) && AdmissibleRounds(s, rounds) && FailsInAll(s, rounds, id)
    requires PlaceOf(s, id) in {Active, Cached, Lost, Gone}
    ensures var t := AfterRounds(s, rounds);
            && Inv(t) && t.limit == s.limit && PlaceOf(t, id) in {Active, Cached, Lost, Gone}
            && (id in t.active ==> id in s.active && Reports(t, id) >= Reports(s, id) + |rounds|)
    decreases |rounds|
  {
    hide Run, AdmissibleRun, RoundSteps, FailsIn, Inv, Reports;
    if rounds == [] {
    } else {
      var s1 := Run(s, rounds[0].before);
      var steps := RoundSteps(s1.active, rounds[0].turns);
      var s2 := Run(s1, steps);
      RunKeeps(s, rounds[0].before);
      RunMoves(s, rounds[0].before, id);
      LimitFixedOverRun(s, rounds[0].before);
      RunKeeps(s1, steps);
      RunMoves(s1, steps, id);
      LimitFixedOverRun(s1, steps);
      if id in s.active {
        RoundCounts(s, rounds[0], id);
      }
      RoundsCount(s2, rounds[1..], id);
    }
  }

  lemma CounterWithin(s: State, id: Id)
    requires Inv(s)
    ensures Reports(s, id) <= AtLeastZero(s.limit)
  {
  }

  /**
    An active order whose status request fails in more rounds than the limit allows is not active
    any more, whatever happens between the requests and the rounds.
   */
  lemma FailingPollsEndActivity(s: State, rounds: seq<Round>, id: Id)
    requires Inv(s) && AdmissibleRounds(s, rounds) && FailsInAll(s, rounds, id) && id in s.active
    requires Reports(s, id) + |rounds| > AtLeastZero(s.limit)
    ensures PlaceOf(AfterRounds(s, rounds), id) in {Cached, Lost, Gone}
  {
    hide AdmissibleRounds, AfterRounds, FailsInAll, Inv;
    RoundsCount(s, rounds, id);
    CounterWithin(AfterRounds(s, rounds), id);
  }

  // Lost orders

  /** An active or cached order with the update's exchange id takes the update. */
  predicate Taken(s: State, u: OrderUpdate)
    requires Resolves(s)
  {
    u.exchangeId.Some? && FirstByExchangeId(s, s.active + s.cached, u.exchangeId).Some?
  }

  /** A status that names a lost order drops it exactly when it is terminal and no other order takes it. */
  lemma StatusOfLost(s: State, id: Id, u: OrderUpdate, victim: nat)
    requires Inv(s) && id in s.lost && u.clientId == Some(id)
    ensures PlaceOf(ProcessOrderUpdate(s, u, victim), id) ==
      if u.newState in {Canceled, Filled, Failed} && !Taken(s, u) then Gone else Lost
  {
    var live := s.active + s.cached;
    FetchAddresses(s, live, u);
    if Taken(s, u) {
      var other := FirstByExchangeId(s, live, u.exchangeId).value;
      FinishMoves(s, other, u, victim, id);
    }
    hide FinishUpdate;
  }

  /** A lost order is dropped by a reply that says it is over, and by no other. */
  lemma LostPollDrops(s: State, id: Id, reply: Reply, now: real, victim: nat)
    requires Inv(s) && id in s.lost && (reply.Status? ==> reply.update.clientId == Some(id))
    ensures var over := match reply
              case Status(u) => u.newState in {Canceled, Filled, Failed} && !Taken(s, u)
              case Raised(isNotFound) => isNotFound
              case Cancelled => false;
            PlaceOf(AfterLostPoll(s, id, reply, now, victim), id) == if over then Gone else Lost
  {
    hide ProcessOrderUpdate, FirstByExchangeId;
    match reply
    case Status(u) => StatusOfLost(s, id, u, victim);
    case Raised(_) => StatusOfLost(s, id, FailedUpdate(id, now), victim);
    case Cancelled => assert id !in s.active && id !in s.cached;
  }

  /** A failed submission closes an active order: it is cached, with one failure or, fully executed, completed event. */
  lemma SubmissionFailure(s: State, id: Id, now: real, victim: nat)
    requires Inv(s) && id in s.active
    ensures var s' := ProcessOrderUpdate(s, FailedUpdate(id, now), victim);
            && PlaceOf(s', id) == Cached && s'.orders[id].state == Failed
            && s'.log == s.log + [
                 if s.orders[id].amount != 0.0 && s.orders[id].FullyExecuted()
                 then OrderCompleted(id, s.orders[id].side, s.orders[id].executedBase, s.orders[id].executedQuote)
                 else OrderFailure(id)]
  {
    hide ProcessOrderUpdate, IsClose;
    UpdateOutcome(s, id, FailedUpdate(id, now), victim);
  }
}
