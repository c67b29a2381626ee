/** Announcing funding payments: fetches complete in any order, and each payment is announced once. */
module FundingPayments {
  import opened Options

  type Pair = string

  datatype Payment = Payment(pair: Pair, timestamp: real, rate: real, amount: real)

  /** What may happen between two suspensions: a fetch answers, a fetch fails, the network stops. */
  datatype Step =
    | Fetched(payment: Payment, fireEventOnNew: bool)
    | FetchFailed(pair: Pair)
    | Stop

  type LastPayments = map<Pair, real>

  function Previous(last: LastPayments, pair: Pair): real {
    if pair in last then last[pair] else 0.0
  }

  predicate Announces(last: LastPayments, step: Step) {
    step.Fetched? && step.fireEventOnNew && step.payment.timestamp > Previous(last, step.payment.pair)
  }

  function After(last: LastPayments, step: Step): LastPayments {
    match step
    case Stop => map[]
    case FetchFailed(_) => last
    case Fetched(p, _) => if Announces(last, step) || p.pair !in last then last[p.pair := p.timestamp] else last
  }

  function LastAfter(last: LastPayments, steps: seq<Step>): LastPayments {
    if steps == [] then last else After(LastAfter(last, steps[..|steps| - 1]), steps[|steps| - 1])
  }

  /** The events of a run, in order. */
  function Events(last: LastPayments, steps: seq<Step>): seq<Payment> {
    if steps == [] then []
    else
      var before, step := steps[..|steps| - 1], steps[|steps| - 1];
      Events(last, before) + if Announces(LastAfter(last, before), step) then [step.payment] else []
  }

  /** The timestamps announced for one pair. */
  function Stamps(events: seq<Payment>, pair: Pair): seq<real> {
    if events == [] then []
    else
      var before, e := Stamps(events[..|events| - 1], pair), events[|events| - 1];
      if e.pair == pair then before + [e.timestamp] else before
  }

  predicate Rising(xs: seq<real>) {
    forall i, j :: 0 <= i < j < |xs| ==> xs[i] < xs[j]
  }

  predicate NoStop(steps: seq<Step>) {
    forall i :: 0 <= i < |steps| ==> !steps[i].Stop?
  }

  /** Fetches answer with a timestamp of 0 when there is no payment, and never below. */
  predicate NoneNegative(steps: seq<Step>) {
    forall i :: 0 <= i < |steps| && steps[i].Fetched? ==> steps[i].payment.timestamp >= 0.0
  }

  lemma StampsOfOneMore(events: seq<Payment>, e: Payment, pair: Pair)
    ensures var before := Stamps(events, pair);
            Stamps(events + [e], pair) == if e.pair == pair then before + [e.timestamp] else before
  {
    assert (events + [e])[..|events|] == events;
  }

  /** Once stored, a pair's timestamp is kept until the network stops and never falls. */
  lemma {:induction false} StoredNeverFalls(last: LastPayments, steps: seq<Step>, pair: Pair)
    requires NoStop(steps) && pair in last
    ensures pair in LastAfter(last, steps) && last[pair] <= LastAfter(last, steps)[pair]
  {
    if steps == [] {
    } else {
      StoredNeverFalls(last, steps[..|steps| - 1], pair);
    }
  }

  lemma EventsOfOneMore(last: LastPayments, steps: seq<Step>, pair: Pair)
    requires steps != []
    ensures var before, step := steps[..|steps| - 1], steps[|steps| - 1];
            Stamps(Events(last, steps), pair) ==
            if Announces(LastAfter(last, before), step) && step.payment.pair == pair
            then Stamps(Events(last, before), pair) + [step.payment.timestamp]
            else Stamps(Events(last, before), pair)
  {
    var before, step := steps[..|steps| - 1], steps[|steps| - 1];
    if Announces(LastAfter(last, before), step) {
      StampsOfOneMore(Events(last, before), step.payment, pair);
    } else {
      assert Events(last, before) + [] == Events(last, before);
    }
  }

  /** Between two stops the events of a pair carry rising timestamps, and the latest of them is stored at the end. */
  lemma {:induction false} RisingBetweenStops(last: LastPayments, steps: seq<Step>, pair: Pair)
    requires NoStop(steps)
    ensures var stamps, after := Stamps(Events(last, steps), pair), LastAfter(last, steps);
            Rising(stamps) && (stamps != [] ==> pair in after && after[pair] == stamps[|stamps| - 1])
  {
    hide Events, Stamps;
    if steps == [] {
      assert Stamps(Events(last, steps), pair) == [] by { NoEvents(last, pair); }
    } else {
      assert steps[|steps| - 1] == steps[|steps[..|steps| - 1]|];
      RisingBetweenStops(last, steps[..|steps| - 1], pair);
      EventsOfOneMore(last, steps, pair);
    }
  }

  lemma NoEvents(last: LastPayments, pair: Pair)
    ensures Stamps(Events(last, []), pair) == []
  {
  }

  /** All of them are above the timestamp stored before; a pair without one counts from 0. */
  lemma {:induction false} AboveStored(last: LastPayments, steps: seq<Step>, pair: Pair)
    requires NoStop(steps) && (pair in last || NoneNegative(steps))
    ensures var stamps := Stamps(Events(last, steps), pair);
            && (forall i :: 0 <= i < |stamps| ==> stamps[i] > Previous(last, pair))
            && Previous(LastAfter(last, steps), pair) >= Previous(last, pair)
  {
    hide Events, Stamps;
    if steps == [] {
      NoEvents(last, pair);
    } else {
      assert steps[|steps| - 1] == steps[|steps[..|steps| - 1]|];
      AboveStored(last, steps[..|steps| - 1], pair);
      EventsOfOneMore(last, steps, pair);
      if pair in last {
        StoredNeverFalls(last, steps[..|steps| - 1], pair);
      }
    }
  }

  /** The first fetch of a pair sets its baseline, whether it fires or not: only newer payments are announced later. */
  lemma BaselineStored(last: LastPayments, payment: Payment, fire: bool, steps: seq<Step>)
    requires NoStop(steps) && payment.pair !in last
    ensures var stamps := Stamps(Events(After(last, Fetched(payment, fire)), steps), payment.pair);
            forall i :: 0 <= i < |stamps| ==> stamps[i] > payment.timestamp
  {
    AboveStored(After(last, Fetched(payment, fire)), steps, payment.pair);
  }

  predicate FetchedFor(step: Step, pair: Pair) {
    step.Fetched? && step.payment.pair == pair
  }

  /**
    What is stored for a pair was there before or was brought by one of its fetches, one that fired or
    the first one; and a fetch leaves something stored.
   */
  lemma {:induction false} StoredIsFetched(last: LastPayments, steps: seq<Step>, pair: Pair)
    requires NoStop(steps)
    ensures pair in LastAfter(last, steps) <==>
            pair in last || exists i :: 0 <= i < |steps| && FetchedFor(steps[i], pair)
    ensures var after := LastAfter(last, steps);
            pair in after ==>
              || (pair in last && after[pair] == last[pair])
              || (exists i :: 0 <= i < |steps| && FetchedFor(steps[i], pair)
                              && after[pair] == steps[i].payment.timestamp
                              && (steps[i].fireEventOnNew || pair !in LastAfter(last, steps[..i])))
  {
    if steps == [] {
    } else {
      var n := |steps| - 1;
      var before := steps[..n];
      assert forall i :: 0 <= i < n ==> before[i] == steps[i] && before[..i] == steps[..i];
      StoredIsFetched(last, before, pair);
      if FetchedFor(steps[n], pair) {
        assert pair in LastAfter(last, steps);
      }
    }
  }

  /** A fetch that fires is announced exactly when its timestamp is above the stored one, or above 0 without one. */
  lemma AnnouncedIffNewer(last: LastPayments, steps: seq<Step>, payment: Payment, fire: bool)
    ensures var stored := LastAfter(last, steps);
            Events(last, steps + [Fetched(payment, fire)]) == Events(last, steps) +
              if fire && payment.timestamp > (if payment.pair in stored then stored[payment.pair] else 0.0)
              then [payment] else []
  {
    var run := steps + [Fetched(payment, fire)];
    assert run[..|run| - 1] == steps;
  }

  /** No payment is announced twice between two stops, whatever order the fetches finish in. */
  lemma AnnouncedOnce(last: LastPayments, steps: seq<Step>, i: nat, j: nat)
    requires NoStop(steps) && i < j < |Events(last, steps)|
    ensures var events := Events(last, steps);
            events[i].pair == events[j].pair ==> events[i].timestamp < events[j].timestamp
  {
    var events := Events(last, steps);
    if events[i].pair == events[j].pair {
      RisingBetweenStops(last, steps, events[i].pair);
      StampsInOrder(events, i, j);
    }
  }

  lemma {:induction false} StampsInOrder(events: seq<Payment>, i: nat, j: nat)
    requires i < j < |events| && events[i].pair == events[j].pair && Rising(Stamps(events, events[i].pair))
    ensures events[i].timestamp < events[j].timestamp
  {
    var pair, init := events[i].pair, events[..|events| - 1];
    if j == |events| - 1 {
      var k := StampAt(init, i);
      assert Stamps(events, pair)[k] == events[i].timestamp;
      assert Stamps(events, pair)[|Stamps(init, pair)|] == events[j].timestamp;
    } else {
      assert Rising(Stamps(init, pair)) by {
        forall k, l | 0 <= k < l < |Stamps(init, pair)| ensures Stamps(init, pair)[k] < Stamps(init, pair)[l] {
          assert Stamps(events, pair)[k] < Stamps(events, pair)[l];
        }
      }
      StampsInOrder(init, i, j);
    }
  }

  lemma {:induction false} StampAt(events: seq<Payment>, i: nat) returns (k: nat)
    requires i < |events|
    ensures k < |Stamps(events, events[i].pair)| && Stamps(events, events[i].pair)[k] == events[i].timestamp
  {
    if i == |events| - 1 {
      k := |Stamps(events, events[i].pair)| - 1;
    } else {
      k := StampAt(events[..|events| - 1], i);
    }
  }

  /** Nothing newer is missed: after a firing fetch the stored timestamp is at least the one it brought. */
  lemma {:induction false} NewestIsKept(last: LastPayments, steps: seq<Step>, i: nat)
    requires NoStop(steps) && i < |steps| && steps[i].Fetched? && steps[i].fireEventOnNew
    ensures var p := steps[i].payment; p.pair in LastAfter(last, steps) && LastAfter(last, steps)[p.pair] >= p.timestamp
  {
    KeptSince(last, steps, i, |steps|);
    assert steps[..|steps|] == steps;
  }

  lemma {:induction false} KeptSince(last: LastPayments, steps: seq<Step>, i: nat, n: nat)
    requires NoStop(steps) && i < n <= |steps| && steps[i].Fetched? && steps[i].fireEventOnNew
    ensures var p, after := steps[i].payment, LastAfter(last, steps[..n]);
            p.pair in after && after[p.pair] >= p.timestamp
  {
    assert steps[..n][..n - 1] == steps[..n - 1];
    if i < n - 1 {
      KeptSince(last, steps, i, n - 1);
    }
  }

  /** A payment fetched after a stop is announced exactly when its timestamp is positive and the fetch fires. */
  lemma RepeatedAfterStop(last: LastPayments, steps: seq<Step>, payment: Payment, fire: bool)
    ensures Events(last, steps + [Stop, Fetched(payment, fire)]) ==
      Events(last, steps) + if fire && payment.timestamp > 0.0 then [payment] else []
  {
    var stopped := steps + [Stop];
    var run := steps + [Stop, Fetched(payment, fire)];
    assert run[..|run| - 1] == stopped && stopped[..|stopped| - 1] == steps;
    assert Events(last, stopped) == Events(last, steps) + [];
  }

  class FundingPaymentMonitor {
    var lastFundingFeePaymentTs: LastPayments
    var announced: seq<Payment>
    ghost var history: seq<Step>

    /** The state is what the steps so far lead to. */
    ghost predicate Valid()
      reads this
    {
      lastFundingFeePaymentTs == LastAfter(map[], history) && announced == Events(map[], history)
    }

    constructor ()
      ensures Valid() && history == []
    {
      lastFundingFeePaymentTs, announced, history := map[], [], [];
    }

    ghost method Happened(step: Step)
      modifies `history
      ensures history == old(history) + [step]
      ensures LastAfter(map[], history) == After(LastAfter(map[], old(history)), step)
      ensures Events(map[], history) == Events(map[], old(history)) +
        if Announces(LastAfter(map[], old(history)), step) then [step.payment] else []
    {
      history := history + [step];
      assert history[..|history| - 1] == old(history);
    }

    method EmitFundingPaymentEvent(payment: Payment, fireEventOnNew: bool)
      requires Valid()
      modifies this
      ensures Valid() && history == old(history) + [Fetched(payment, fireEventOnNew)]
    {
      var pair, previous := payment.pair, 0.0;
      if pair in lastFundingFeePaymentTs {
        previous := lastFundingFeePaymentTs[pair];
      }
      Happened(Fetched(payment, fireEventOnNew));
      if payment.timestamp > previous && fireEventOnNew {
        announced := announced + [payment];
        lastFundingFeePaymentTs := lastFundingFeePaymentTs[pair := payment.timestamp];
      }
      if pair !in lastFundingFeePaymentTs {
        lastFundingFeePaymentTs := lastFundingFeePaymentTs[pair := payment.timestamp];
      }
    }

    /** `None` stands for a fetch that failed. */
    method UpdateFundingPayment(pair: Pair, fetched: Option<Payment>, fireEventOnNew: bool) returns (success: bool)
      requires Valid() && (fetched.Some? ==> fetched.value.pair == pair)
      modifies this
      ensures Valid() && success == fetched.Some?
      ensures var step := if fetched.Some? then Fetched(fetched.value, fireEventOnNew) else FetchFailed(pair);
              history == old(history) + [step]
    {
      success := fetched.Some?;
      if success {
        EmitFundingPaymentEvent(fetched.value, fireEventOnNew);
      } else {
        Happened(FetchFailed(pair));
      }
    }

    method StopNetwork()
      requires Valid()
      modifies this
      ensures Valid() && history == old(history) + [Stop]
    {
      Happened(Stop);
      lastFundingFeePaymentTs := map[];
    }
  }
}
