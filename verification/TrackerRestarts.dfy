/** Trackers that are saved and restored again and again: what holds over all of their sessions. */
module TrackerRestarts {
  import opened Orders
  import opened TrackerModel
  import opened TrackerInvariant
  import opened TrackerRuns
  import opened TrackerEvents
  import opened TrackerRestore

  /** Every session starts from the snapshot the session before it left, and is a run of its own. */
  ghost predicate AdmissibleSessions(s: State, sessions: seq<seq<Step>>)
    decreases |sessions|
  {
    sessions != [] && Resolves(s) ==>
      && AdmissibleRun(Restored(s), sessions[0])
      && (forall step :: step in sessions[0] ==> Clean(step))
      && AdmissibleSessions(Run(Restored(s), sessions[0]), sessions[1..])
  }

  ghost function AfterSessions(s: State, sessions: seq<seq<Step>>): State
    decreases |sessions|
  {
    if sessions == [] || !Resolves(s) then s else AfterSessions(Run(Restored(s), sessions[0]), sessions[1..])
  }

  /** The events of all the sessions; every restored tracker begins with an empty log. */
  ghost function EventsAfter(s: State, sessions: seq<seq<Step>>): seq<Event>
    decreases |sessions|
  {
    if sessions == [] || !Resolves(s) then []
    else
      var t := Run(Restored(s), sessions[0]);
      t.log + EventsAfter(t, sessions[1..])
  }

  /** The order comes back, as active or lost, at every restart. */
  ghost predicate Survives(s: State, sessions: seq<seq<Step>>, id: Id)
    decreases |sessions|
  {
    sessions != [] && Resolves(s) ==>
      && (id in Restored(s).active || id in Restored(s).lost)
      && Survives(Run(Restored(s), sessions[0]), sessions[1..], id)
  }

  /** The invariant holds in every session, so every property of a run from a sound state does. */
  lemma {:induction false} SessionsKeep(s: State, sessions: seq<seq<Step>>)
    requires Inv(s) && AdmissibleSessions(s, sessions)
    ensures Inv(AfterSessions(s, sessions)) && AfterSessions(s, sessions).limit == s.limit
    decreases |sessions|
  {
    hide Inv, Run, Restored;
    if sessions == [] {
    } else {
      OpenAndClosed(s);
      RestoredInv(s);
      RunKeeps(Restored(s), sessions[0]);
      LimitFixedOverRun(Restored(s), sessions[0]);
      SessionsKeep(Run(Restored(s), sessions[0]), sessions[1..]);
    }
  }

  lemma {:induction false} FilledTotalConcat(log: seq<Event>, more: seq<Event>, id: Id)
    ensures FilledTotal(log + more, id) == FilledTotal(log, id) + FilledTotal(more, id)
  {
    if more == [] {
      assert log + more == log;
    } else {
      assert (log + more)[..|log + more| - 1] == log + more[..|more| - 1];
      FilledTotalConcat(log, more[..|more| - 1], id);
    }
  }

  /** Reading fills back keeps their amounts and trade ids. */
  lemma {:induction false} RereadFills(fills: seq<TradeUpdate>)
    ensures SumBase(FillsFromJson(fills)) == SumBase(fills) && SumQuote(FillsFromJson(fills)) == SumQuote(fills)
    ensures SumPositive(FillsFromJson(fills)) == SumPositive(fills)
    ensures forall x :: HasFill(FillsFromJson(fills), x) <==> HasFill(fills, x)
  {
    var read := FillsFromJson(fills);
    forall x ensures HasFill(read, x) <==> HasFill(fills, x) {
      if HasFill(fills, x) {
        var i :| 0 <= i < |fills| && fills[i].tradeId == x;
        assert read[i].tradeId == x;
      }
    }
    if fills == [] {
    } else {
      RereadFills(fills[..|fills| - 1]);
      assert read[..|fills| - 1] == FillsFromJson(fills[..|fills| - 1]);
    }
  }

  /** The books over everything announced so far, in this session and in those before it. */
  ghost predicate Balanced(o: Order, log: seq<Event>) {
    && SumsItsFills(o)
    && FilledTotal(log, o.clientId) == SumPositive(o.fills)
    && EventsBacked(log, o.clientId, [], o.fills)
    && TradeIdsOnce(log, o.clientId)
  }

  lemma JoinedLogs(o: Order, log: seq<Event>, base: seq<TradeUpdate>, o': Order, more: seq<Event>)
    requires Balanced(o, log) && o'.clientId == o.clientId && base == FillsFromJson(o.fills)
    requires base <= o'.fills && SumsItsFills(o')
    requires FilledTotal(more, o.clientId) == SumPositive(o'.fills) - SumPositive(base)
    requires EventsBacked(more, o.clientId, base, o'.fills) && TradeIdsOnce(more, o.clientId)
    ensures Balanced(o', log + more)
  {
    hide SumBase, SumQuote, SumPositive, FilledTotal, FillsFromJson;
    var id, all := o.clientId, log + more;
    FilledTotalConcat(log, more, id);
    RereadFills(o.fills);
    PrefixFills(base, o'.fills);
    forall e | e in all && FillOf(e, id) ensures HasFill(o'.fills, e.tradeId) && !HasFill([], e.tradeId) {
      assert e in log || e in more;
    }
    forall i, j | 0 <= i < j < |all| && FillOf(all[i], id) && FillOf(all[j], id)
      ensures all[i].tradeId != all[j].tradeId
    {
      if i < |log| <= j {
        assert all[i] in log && all[j] in more;
      }
    }
  }

  lemma PrefixFills(base: seq<TradeUpdate>, fills: seq<TradeUpdate>)
    requires base <= fills
    ensures forall x :: HasFill(base, x) ==> HasFill(fills, x)
  {
    forall x | HasFill(base, x) ensures HasFill(fills, x) {
      var i :| 0 <= i < |base| && base[i].tradeId == x;
      assert fills[i] == base[i];
    }
  }

  /** One restart and the session after it. */
  lemma SessionBalances(s: State, log: seq<Event>, steps: seq<Step>, id: Id)
    requires Inv(s) && id in s.orders && Balanced(s.orders[id], log)
    requires id in Restored(s).active || id in Restored(s).lost
    requires AdmissibleRun(Restored(s), steps) && forall step :: step in steps ==> Clean(step)
    ensures var t := Run(Restored(s), steps);
            Inv(t) && id in t.orders && t.orders[id].clientId == id && Balanced(t.orders[id], log + t.log)
  {
    hide Inv, Run, Restored, Restores, Balanced, SumBase, SumQuote, SumPositive, FillsFromJson, EventsBacked,
      TradeIdsOnce;
    OpenAndClosed(s);
    RestorableStores(s);
    RestoredInv(s);
    RestoredOne(s, id);
    var r := Restored(s);
    var base := FillsFromJson(s.orders[id].fills);
    ActiveOpenLostClosed(s, id);
    BalancedSum(s.orders[id], log);
    RereadFills(s.orders[id].fills);
    FreshBooks(r, id, base);
    BooksOverRun(r, steps, id, base);
    RunKeeps(r, steps);
    KnownStays(r, steps, id);
    ActiveOpenLostClosed(Run(r, steps), id);
    JoinedLogs(s.orders[id], log, base, Run(r, steps).orders[id], Run(r, steps).log);
  }

  lemma BalancedSum(o: Order, log: seq<Event>)
    requires Balanced(o, log)
    ensures SumsItsFills(o)
  {
  }

  lemma FreshBooks(r: State, id: Id, base: seq<TradeUpdate>)
    requires id in r.orders && r.log == [] && r.orders[id].fills == base && SumsItsFills(r.orders[id])
    ensures Books(r, id, base)
  {
  }

  lemma {:induction false} KnownStays(s: State, steps: seq<Step>, id: Id)
    requires Inv(s) && AdmissibleRun(s, steps) && id in s.orders
    ensures id in Run(s, steps).orders
    decreases |steps|
  {
    hide Next, Inv;
    if steps == [] {
    } else {
      OpenAndClosed(s);
      StepKeeps(s, steps[0]);
      StepEvents(s, steps[0]);
      KnownAfter(s, steps[0], id);
      KnownStays(Next(s, steps[0]), steps[1..], id);
    }
  }

  lemma KnownAfter(s: State, step: Step, id: Id)
    requires Inv(s) && id in s.orders
    ensures id in OrdersAfter(s, step)
  {
    hide AppliedBy;
  }

  /** The books balance over any number of restarts that bring the order back. */
  lemma {:induction false} SessionsBalance(s: State, log: seq<Event>, sessions: seq<seq<Step>>, id: Id)
    requires Inv(s) && id in s.orders && s.orders[id].clientId == id && Balanced(s.orders[id], log)
    requires AdmissibleSessions(s, sessions) && Survives(s, sessions, id)
    ensures var t := AfterSessions(s, sessions);
            id in t.orders && t.orders[id].clientId == id && Balanced(t.orders[id], log + EventsAfter(s, sessions))
    decreases |sessions|
  {
    hide Inv, Run, Restored, Balanced;
    if sessions == [] {
      assert log + EventsAfter(s, sessions) == log;
    } else {
      OpenAndClosed(s);
      var t := Run(Restored(s), sessions[0]);
      SessionBalances(s, log, sessions[0], id);
      SessionsBalance(t, log + t.log, sessions[1..], id);
      assert log + EventsAfter(s, sessions) == (log + t.log) + EventsAfter(t, sessions[1..]);
    }
  }

  /**
    Conservation over a first run and any number of restarts: the filled events of an order that
    comes back each time never repeat a trade id, not even across a restart, and their amounts add
    up to its executed amount exactly when none of its recorded fills is negative.
   */
  lemma FillConservationAcrossRestarts(limit: int, first: seq<Step>, sessions: seq<seq<Step>>, id: Id)
    requires AdmissibleRun(Empty(limit), first) && (forall step :: step in first ==> Clean(step))
    requires var s := Run(Empty(limit), first);
             id in s.orders && AdmissibleSessions(s, sessions) && Survives(s, sessions, id)
    ensures var s := Run(Empty(limit), first);
            var t, log := AfterSessions(s, sessions), s.log + EventsAfter(s, sessions);
            && id in t.orders && TradeIdsOnce(log, id)
            && (FilledTotal(log, id) == t.orders[id].executedBase <==> NoNegativeFill(t.orders[id].fills))
  {
    hide Run, AdmissibleSessions, Survives, AfterSessions, EventsAfter, SumBase, SumQuote, SumPositive, NoNegativeFill;
    var s := Run(Empty(limit), first);
    EmptyInv(limit);
    RunKeeps(Empty(limit), first);
    FillConservation(limit, first, id);
    assert SumPositive([]) == 0.0 by { NoFills(); }
    SessionsBalance(s, s.log, sessions, id);
    NegativeFillsShow(AfterSessions(s, sessions).orders[id].fills);
  }

  lemma NoFills()
    ensures SumPositive([]) == 0.0
  {
  }
}
