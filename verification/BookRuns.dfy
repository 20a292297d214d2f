/**
 The aggregate over whole runs, exactly: when it stays an exact index of the orders, and
 when it misses what symbol-less commands sweep.
 */
module BookRuns {
  import opened Collections
  import opened Envelope
  import opened FillAlgebra
  import opened L2Book
  import opened Replication
  import opened Subscription
  import opened Words

  // ---------------------------------------------------------------- when the index is exact

  lemma {:induction false} NoRestThenOne(front: seq<Effect>, tail: seq<Effect>)
    requires RestCount(front) == 0 && |tail| <= 1
    ensures RestsLast(front + tail)
    decreases |front|
  {
    if front == [] {
      assert front + tail == tail;
    } else {
      assert (front + tail)[1..] == front[1..] + tail;
      NoRestThenOne(front[1..], tail);
    }
  }

  lemma PlacementRestsNothing(first: seq<Effect>, fills: seq<Fill>, stp: seq<OrderId>)
    requires RestCount(first) == 0
    ensures RestCount(first + (MakerEffects(fills) + RemoveEffects(stp))) == 0
  {
    MakersRestNothing(fills);
    RemovalsRestNothing(stp);
    RestCountAppend(MakerEffects(fills), RemoveEffects(stp));
    RestCountAppend(first, MakerEffects(fills) + RemoveEffects(stp));
  }

  lemma PlacementRestsLast(first: seq<Effect>, fills: seq<Fill>, stp: seq<OrderId>, tail: seq<Effect>)
    requires RestCount(first) == 0 && |tail| <= 1
    ensures RestsLast(first + (MakerEffects(fills) + RemoveEffects(stp) + tail))
    ensures RestsLast(first + (MakerEffects(fills) + RemoveEffects(stp)))
  {
    hide RestCount, RestsLast, MakerEffects, RemoveEffects;
    var middle := MakerEffects(fills) + RemoveEffects(stp);
    PlacementRestsNothing(first, fills, stp);
    NoRestThenOne(first + middle, tail);
    NoRestThenOne(first + middle, []);
    assert first + middle + tail == first + (middle + tail);
    assert first + middle + [] == first + middle;
  }

  lemma RemovalsRestLast(ids: seq<OrderId>)
    ensures RestsLast(RemoveEffects(ids))
  {
    RemovalsRestNothing(ids);
    NoRestThenOne(RemoveEffects(ids), []);
    assert RemoveEffects(ids) + [] == RemoveEffects(ids);
  }

  /** A committed outcome rests at most one order, after everything else it does. */
  lemma EventRestsLast(command: VenueCommand, outcome: VenueOutcome)
    ensures RestsLast(Effects(command, outcome))
  {
    match outcome {
      case Added(fills, resting, stp) =>
        var tail := if command.AddOrder? then RestEffects(command.orderId, command.side, command.limitPrice, resting) else [];
        PlacementRestsLast([], fills, stp, tail);
        assert [] + (MakerEffects(fills) + RemoveEffects(stp) + tail) == Effects(command, outcome);
      case Market(fills, _, stp) =>
        PlacementRestsLast([], fills, stp, []);
        assert [] + (MakerEffects(fills) + RemoveEffects(stp)) == Effects(command, outcome);
      case Replaced(cancelled, add) =>
        var first := if cancelled && command.Replace? then [Remove(command.orderId)] else [];
        match add {
          case Filled(fills, stp) => PlacementRestsLast(first, fills, stp, []);
          case Rested(fills, resting, stp) =>
            PlacementRestsLast(first, fills, stp,
              if command.Replace? then RestEffects(command.newOrderId, command.side, command.limitPrice, resting) else []);
          case AddRejected => assert first + [] == first;
        }
      case MassCancelled(affected) => RemovalsRestLast(affected);
      case ControlApplied(swept) => RemovalsRestLast(swept);
      case Evicted(evicted) => RemovalsRestLast(evicted);
      case _ =>
    }
  }

  lemma EventAgreesIff(v: Venue, event: VenueEvent, s: Symbol)
    requires Agrees(InstrumentAt(v, s).book)
    ensures Agrees(InstrumentAt(Commit(v, event), s).book) <==>
              (Targets(event, s) ==> EffectsExact(InstrumentAt(v, s).book, Effects(event.command, event.outcome)))
  {
    CommitIsLocal(v, event, s);
    EventRestsLast(event.command, event.outcome);
    FoldAgreesIff(InstrumentAt(v, s).book, Effects(event.command, event.outcome));
    hide Agrees, EffectsExact, Effects, ApplyAll, Commit, RestsLast, Publishes;
  }

  /** Every event of the run up to `n` that targets `s` rests exactly, at its moment. */
  ghost predicate RestsExactly(v: Venue, events: seq<VenueEvent>, n: nat, s: Symbol)
    requires n <= |events|
  {
    forall k :: 0 <= k < n && Targets(events[k], s) ==>
      EffectsExact(At(v, events, k, s).book, Effects(events[k].command, events[k].outcome))
  }

  lemma StepExactIff(v: Venue, events: seq<VenueEvent>, n: nat, s: Symbol)
    requires 0 < n <= |events| && Agrees(At(v, events, n - 1, s).book)
    ensures Agrees(At(v, events, n, s).book) <==>
              (Targets(events[n - 1], s) ==>
                 EffectsExact(At(v, events, n - 1, s).book, Effects(events[n - 1].command, events[n - 1].outcome)))
  {
    hide Agrees, EffectsExact, Effects, Targets, Commit;
    EventAgreesIff(StateAt(v, events, n - 1), events[n - 1], s);
  }

  /** After every event of the run up to `n` the levels are exactly the sums of the resting orders. */
  ghost predicate ExactThroughout(v: Venue, events: seq<VenueEvent>, n: nat, s: Symbol)
    requires n <= |events|
  {
    forall k :: 0 <= k <= n ==> Agrees(At(v, events, k, s).book)
  }

  lemma ExactAtStart(v: Venue, events: seq<VenueEvent>, s: Symbol)
    requires Agrees(InstrumentAt(v, s).book)
    ensures ExactThroughout(v, events, 0, s) && RestsExactly(v, events, 0, s)
  {
    hide Agrees;
  }

  lemma ExactOneMore(v: Venue, events: seq<VenueEvent>, n: nat, s: Symbol)
    requires 0 < n <= |events|
    ensures ExactThroughout(v, events, n, s) <==> ExactThroughout(v, events, n - 1, s) && Agrees(At(v, events, n, s).book)
    ensures ExactThroughout(v, events, n - 1, s) ==> Agrees(At(v, events, n - 1, s).book)
    ensures RestsExactly(v, events, n, s) <==>
              RestsExactly(v, events, n - 1, s)
              && (Targets(events[n - 1], s) ==>
                    EffectsExact(At(v, events, n - 1, s).book, Effects(events[n - 1].command, events[n - 1].outcome)))
  {
    hide At, Agrees, EffectsExact, Effects, Targets;
  }

  /**
   Over any run, of any length and with any quantities, the levels stay exactly the sums
   of the resting orders, with no empty level and no spent order, if and only if every
   order that comes to rest does so exactly: under an id not resting then, with a level
   sum that fits 64 bits (or in the one coincidence `RestExact` names).
   */
  lemma {:induction false} RunExactIff(v: Venue, events: seq<VenueEvent>, n: nat, s: Symbol)
    requires n <= |events| && Agrees(InstrumentAt(v, s).book)
    ensures ExactThroughout(v, events, n, s) <==> RestsExactly(v, events, n, s)
  {
    hide Agrees, EffectsExact, Effects, Targets, ExactThroughout, RestsExactly;
    if n == 0 {
      ExactAtStart(v, events, s);
    } else {
      RunExactIff(v, events, n - 1, s);
      ExactOneMore(v, events, n, s);
      if ExactThroughout(v, events, n - 1, s) {
        StepExactIff(v, events, n, s);
      }
    }
  }

  // ---------------------------------------------------------------- sweeps without a contract symbol

  /** The ids a committed outcome says it removed, apart from the legs of a match. */
  function RemovedIds(outcome: VenueOutcome): seq<OrderId> {
    match outcome
    case Cancelled(id) => [id]
    case MassCancelled(affected) => affected
    case ControlApplied(swept) => swept
    case Evicted(evicted) => evicted
    case _ => []
  }

  /** A command that names no contract, whose outcome does nothing but remove orders. */
  predicate IsSweep(event: VenueEvent) {
    CommandSymbol(event.command).None?
    && Effects(event.command, event.outcome) == RemoveEffects(RemovedIds(event.outcome))
  }

  ghost predicate NoneRests(orders: Orders, ids: seq<OrderId>) {
    forall id :: id in ids ==> id !in orders
  }

  lemma {:induction false} AbsentRemovals(b: BookState, ids: seq<OrderId>)
    requires NoneRests(b.orders, ids)
    ensures ApplyAll(b, RemoveEffects(ids)) == b
    decreases |ids|
  {
    if ids != [] {
      assert ids[0] in ids;
      assert b.orders - {ids[0]} == b.orders;
      assert RemoveEffects(ids)[1..] == RemoveEffects(ids[1..]);
      AbsentRemovals(b, ids[1..]);
    }
  }

  /** Folding removals changes a book exactly when one of the ids rests in it. */
  lemma RemovalsChangeIff(b: BookState, ids: seq<OrderId>)
    ensures ApplyAll(b, RemoveEffects(ids)) == b <==> NoneRests(b.orders, ids)
  {
    if id :| id in ids && id in b.orders {
      FoldedOrders(b, RemoveEffects(ids));
      RemovalsAreFold(b.orders, ids);
      assert id !in ApplyAll(b, RemoveEffects(ids)).orders;
    } else {
      AbsentRemovals(b, ids);
    }
  }

  /**
   A command without a contract symbol reaches no aggregate. The aggregate of `s` is
   therefore what folding the outcome would make it if and only if none of the removed
   ids rests there.
   */
  lemma SweepMissedIff(v: Venue, event: VenueEvent, s: Symbol)
    requires IsSweep(event)
    ensures Commit(v, event) == v
    ensures InstrumentAt(Commit(v, event), s).book
              == ApplyAll(InstrumentAt(v, s).book, Effects(event.command, event.outcome))
       <==> NoneRests(InstrumentAt(v, s).book.orders, RemovedIds(event.outcome))
  {
    RemovalsChangeIff(InstrumentAt(v, s).book, RemovedIds(event.outcome));
  }

  /** The resting quantities at a level that a sweep takes away. */
  ghost function SweptAt(orders: Orders, ids: seq<OrderId>, l: Level): map<OrderId, nat> {
    map id | id in orders && id in ids && LevelOf(orders[id]) == l :: orders[id].remaining
  }

  lemma SweptSplits(orders: Orders, ids: seq<OrderId>, l: Level)
    ensures LevelTotal(orders, l) == LevelTotal(OrdersAfter(orders, RemoveEffects(ids)), l) + Total(SweptAt(orders, ids, l))
  {
    RemovalsAreFold(orders, ids);
    var at := AtLevel(orders, l);
    var kept := AtLevel(OrdersAfter(orders, RemoveEffects(ids)), l);
    var swept := SweptAt(orders, ids, l);
    var keptPadded: map<OrderId, nat> := map id | id in at :: if id in ids then 0 else at[id];
    var sweptPadded: map<OrderId, nat> := map id | id in at :: if id in ids then at[id] else 0;
    hide OrdersAfter, RemoveEffects;
    TotalPointwise(keptPadded, sweptPadded, at);
    TotalIgnoresZeros(keptPadded, kept);
    TotalIgnoresZeros(sweptPadded, swept);
  }

  lemma {:induction false} RemovalsKeepAgreement(b: BookState, ids: seq<OrderId>)
    requires Agrees(b)
    ensures Agrees(ApplyAll(b, RemoveEffects(ids)))
    decreases |ids|
  {
    if ids != [] {
      assert RemoveEffects(ids)[1..] == RemoveEffects(ids[1..]);
      ReductionsAgree(b, Remove(ids[0]));
      RemovalsKeepAgreement(ApplyEffect(b, Remove(ids[0])), ids[1..]);
    }
  }

  /** What a sweep leaves behind at each level: exactly the resting quantity of the orders it removed there. */
  lemma SweptDepthLeft(v: Venue, event: VenueEvent, s: Symbol, l: Level)
    requires IsSweep(event) && Agrees(InstrumentAt(v, s).book)
    ensures var book := InstrumentAt(v, s).book;
            QtyAt(InstrumentAt(Commit(v, event), s).book, l)
            == QtyAt(ApplyAll(book, Effects(event.command, event.outcome)), l)
               + Total(SweptAt(book.orders, RemovedIds(event.outcome), l))
  {
    var book := InstrumentAt(v, s).book;
    var ids := RemovedIds(event.outcome);
    SweepMissedIff(v, event, s);
    RemovalsKeepAgreement(book, ids);
    FoldedOrders(book, RemoveEffects(ids));
    SweptSplits(book.orders, ids, l);
    hide Effects, RemoveEffects, OrdersAfter, ApplyAll, QtyAt, LevelTotal, SweptAt;
  }

  /** The aggregate of `s` if sweeps were folded too. */
  function FullBook(v: Venue, events: seq<VenueEvent>, k: nat, s: Symbol): BookState
    requires k <= |events|
  {
    if k == 0 then InstrumentAt(v, s).book
    else
      var before, event := FullBook(v, events, k - 1, s), events[k - 1];
      if Targets(event, s) || CommandSymbol(event.command).None?
      then ApplyAll(before, Effects(event.command, event.outcome))
      else before
  }

  /** No sweep before event `n` removed an order that rested on `s`. */
  ghost predicate SweepsElsewhere(v: Venue, events: seq<VenueEvent>, n: nat, s: Symbol)
    requires n <= |events|
  {
    forall k :: 0 <= k < n && CommandSymbol(events[k].command).None? ==>
      NoneRests(At(v, events, k, s).book.orders, RemovedIds(events[k].outcome))
  }

  /** If the books agree before an event they agree after it exactly when it is no sweep of a resting order. */
  lemma FullStepIff(v: Venue, events: seq<VenueEvent>, n: nat, s: Symbol)
    requires 0 < n <= |events| && (CommandSymbol(events[n - 1].command).None? ==> IsSweep(events[n - 1]))
    requires At(v, events, n - 1, s).book == FullBook(v, events, n - 1, s)
    ensures At(v, events, n, s).book == FullBook(v, events, n, s) <==>
              (CommandSymbol(events[n - 1].command).None? ==>
                 NoneRests(At(v, events, n - 1, s).book.orders, RemovedIds(events[n - 1].outcome)))
  {
    var before, event := StateAt(v, events, n - 1), events[n - 1];
    CommitIsLocal(before, event, s);
    hide Commit, Effects, ApplyAll, RemovedIds, NoneRests;
    if CommandSymbol(event.command).None? {
      SweepMissedIff(before, event, s);
    }
  }

  /** The aggregate of `s` shows every committed outcome up to event `n`, sweeps included. */
  ghost predicate Follows(v: Venue, events: seq<VenueEvent>, n: nat, s: Symbol)
    requires n <= |events|
  {
    forall k :: 0 <= k <= n ==> At(v, events, k, s).book == FullBook(v, events, k, s)
  }

  lemma FollowsOneMore(v: Venue, events: seq<VenueEvent>, n: nat, s: Symbol)
    requires 0 < n <= |events|
    ensures Follows(v, events, n, s) <==>
              Follows(v, events, n - 1, s) && At(v, events, n, s).book == FullBook(v, events, n, s)
    ensures SweepsElsewhere(v, events, n, s) <==>
              SweepsElsewhere(v, events, n - 1, s)
              && (CommandSymbol(events[n - 1].command).None? ==>
                    NoneRests(At(v, events, n - 1, s).book.orders, RemovedIds(events[n - 1].outcome)))
  {
    hide At, FullBook, RemovedIds, CommandSymbol, NoneRests;
  }

  /**
   Over any run, the aggregate of `s` follows every committed outcome if and only if no
   kill, eviction or hierarchy-wide mass cancel removed an order that rested on `s`.
   */
  lemma {:induction false} RunFollowsIff(v: Venue, events: seq<VenueEvent>, n: nat, s: Symbol)
    requires n <= |events|
    requires forall k :: 0 <= k < n && CommandSymbol(events[k].command).None? ==> IsSweep(events[k])
    ensures Follows(v, events, n, s) <==> SweepsElsewhere(v, events, n, s)
  {
    if n > 0 {
      RunFollowsIff(v, events, n - 1, s);
      FollowsOneMore(v, events, n, s);
      hide At, FullBook, RemovedIds, CommandSymbol, IsSweep, NoneRests, SweepsElsewhere;
      if Follows(v, events, n - 1, s) {
        assert At(v, events, n - 1, s).book == FullBook(v, events, n - 1, s);
        FullStepIff(v, events, n, s);
      }
    }
  }

  /** The three commands that name no contract and remove orders. */
  function Kill(swept: seq<OrderId>): VenueEvent {
    VenueEvent(0, 0, MarketMakerControl(Some(false)), ControlApplied(swept))
  }

  function Eviction(evicted: seq<OrderId>): VenueEvent {
    VenueEvent(0, 0, EvictExpiredOrders(0), Evicted(evicted))
  }

  function UnderlyingCancel(affected: seq<OrderId>): VenueEvent {
    VenueEvent(0, 0, MassCancel(Underlying), MassCancelled(affected))
  }

  lemma SingleSweep(sweep: VenueEvent, id: OrderId)
    requires sweep in {Kill([id]), Eviction([id]), UnderlyingCancel([id])}
    ensures IsSweep(sweep) && RemovedIds(sweep.outcome) == [id]
    ensures Effects(sweep.command, sweep.outcome) == [Remove(id)]
  {
    assert [id][1..] == [];
    assert RemoveEffects([id]) == [Remove(id)] + RemoveEffects([]);
  }

  lemma RestThenSweep(v: Venue, events: seq<VenueEvent>, s: Symbol, b: BookState, rest: Effect, remove: Effect)
    requires |events| == 2 && Targets(events[0], s) && CommandSymbol(events[1].command).None?
    requires Effects(events[0].command, events[0].outcome) == [rest]
    requires Effects(events[1].command, events[1].outcome) == [remove]
    requires InstrumentAt(v, s).book == b
    ensures At(v, events, 2, s).book == ApplyEffect(b, rest)
    ensures FullBook(v, events, 2, s) == ApplyEffect(ApplyEffect(b, rest), remove)
  {
    hide Effects, ApplyEffect, Publishes;
    SingleEffect(b, rest);
    SingleEffect(ApplyEffect(b, rest), remove);
    CommitIsLocal(v, events[0], s);
    CommitIsLocal(StateAt(v, events, 1), events[1], s);
    assert StateAt(v, events, 0) == v && StateAt(v, events, 1) == Commit(v, events[0]);
    assert At(v, events, 1, s).book == ApplyEffect(b, rest);
    assert FullBook(v, events, 1, s) == ApplyEffect(b, rest);
  }

  /**
   One order comes to rest and is then removed by a kill, an eviction or a mass cancel
   over an underlying: the aggregate keeps showing it, where the folded book is empty.
   */
  lemma SweptDepthStays(s: Symbol, id: OrderId, price: u64, quantity: u64, sweep: VenueEvent)
    requires quantity > 0
    requires sweep in {Kill([id]), Eviction([id]), UnderlyingCancel([id])}
    ensures var rest := VenueEvent(0, 0, AddOrder(s, id, MARKET_MAKER_ACCOUNT, Buy, Some(price)), Added([], quantity, []));
            && QtyAt(At(map[], [rest, sweep], 2, s).book, Level(Bid, price)) == quantity
            && QtyAt(FullBook(map[], [rest, sweep], 2, s), Level(Bid, price)) == 0
  {
    hide At, FullBook;
    var rest := VenueEvent(0, 0, AddOrder(s, id, MARKET_MAKER_ACCOUNT, Buy, Some(price)), Added([], quantity, []));
    SingleSweep(sweep, id);
    RestThenSweep(map[], [rest, sweep], s, EMPTY_BOOK, Rest(id, Bid, price, quantity), Remove(id));
  }
}
