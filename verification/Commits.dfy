/**
 What one committed event does, command by command and outcome by outcome: which
 instrument it moves, which orders leave and which come to rest, and what is enqueued.
 */
module Commits {
  import opened Collections
  import opened Envelope
  import opened FillAlgebra
  import opened L2Book
  import opened MarketData
  import opened Replication
  import opened Subscription
  import opened TradePairing
  import opened Words

  // ---------------------------------------------------------------- which instrument a command moves

  /**
   Orders, cancels, replaces, status changes and mass cancels over one book move the
   instrument they name, by the effects of their outcome, and no other. Every other
   command moves none.
   */
  lemma CommitMoves(v: Venue, event: VenueEvent, s: Symbol)
    ensures var named :=
              match event.command
              case AddOrder(symbol, _, _, _, _) => symbol == s
              case CancelOrder(symbol, _, _) => symbol == s
              case Replace(symbol, _, _, _, _, _) => symbol == s
              case SetInstrumentStatus(symbol) => symbol == s
              case MassCancel(scope) => scope == Book(s)
              case EvictExpiredOrders(_) => false
              case MarketMakerControl(_) => false
              case Clock(_) => false
              case SimStep(_, _, _) => false;
            && InstrumentAt(Commit(v, event), s).book
               == (if named then ApplyAll(InstrumentAt(v, s).book, Effects(event.command, event.outcome)) else InstrumentAt(v, s).book)
            && (!named ==> InstrumentAt(Commit(v, event), s) == InstrumentAt(v, s))
            && (named <==> Targets(event, s))
  {
    hide Effects, ApplyAll, Publishes;
  }

  /**
   When an event is published: it moved the instrument and touched one of its levels, and
   its command is not one of the market maker's adds, cancels or replaces. Then, and only
   then, the sequence rises by one, stopping at the largest, and one delta is enqueued with
   it that lists the touched levels as they are afterwards.
   */
  lemma CommitPublishes(v: Venue, event: VenueEvent, underlyingOf: Symbol -> Option<string>, s: Symbol)
    ensures var before, after := InstrumentAt(v, s), InstrumentAt(Commit(v, event), s);
            var maker :=
              match event.command
              case AddOrder(_, _, account, _, _) => account == "@market-maker"
              case CancelOrder(_, _, account) => account == "@market-maker"
              case Replace(_, _, _, account, _, _) => account == "@market-maker"
              case _ => false;
            var touched := TouchedAll(before.book.orders, Effects(event.command, event.outcome));
            var published := Targets(event, s) && touched != {} && !maker;
            && after.sequence
               == (if !published then before.sequence
                   else if before.sequence < 0xFFFF_FFFF_FFFF_FFFF then before.sequence + 1
                   else before.sequence)
            && DeltasFor(Messages(v, event, underlyingOf), s)
               == if published then [OrderbookDelta(s, after.sequence, ChangesAt(after.book, touched))] else []
  {
    MessagesCarryDelta(v, event, underlyingOf, s);
    hide TouchedAll, ChangesAt, Effects, ApplyAll, Messages, DeltasFor;
  }

  // ---------------------------------------------------------------- which orders leave and which come to rest

  /** The orders left when the listed ones are gone. */
  ghost function Without(orders: Orders, ids: seq<OrderId>): Orders {
    map id | id in orders && id !in ids :: orders[id]
  }

  /** The orders after one more comes to rest, when it is priced and something of it is left. */
  ghost function WithRest(orders: Orders, id: OrderId, side: Side, limitPrice: Option<u64>, quantity: u64): Orders {
    if quantity > 0 && limitPrice.Some?
    then orders[id := RestingOrder(if side.Buy? then Bid else Ask, limitPrice.value, quantity)]
    else orders
  }

  lemma MatchedThenSwept(orders: Orders, fills: seq<Fill>, stp: seq<OrderId>)
    requires PositiveOrders(orders)
    ensures OrdersAfter(orders, MakerEffects(fills) + RemoveEffects(stp)) == Without(Consumed(orders, fills), stp)
  {
    hide MakerEffects, RemoveEffects, Consumed;
    ConsumedIsFold(orders, fills);
    RemovalsAreFold(Consumed(orders, fills), stp);
    OrdersAppend(orders, MakerEffects(fills), RemoveEffects(stp));
  }

  lemma RestIsAdded(orders: Orders, id: OrderId, side: Side, limitPrice: Option<u64>, quantity: u64)
    ensures OrdersAfter(orders, RestEffects(id, side, limitPrice, quantity)) == WithRest(orders, id, side, limitPrice, quantity)
  {
    var es := RestEffects(id, side, limitPrice, quantity);
    if es != [] {
      assert es[1..] == [];
    }
  }

  lemma OneRemoval(orders: Orders, id: OrderId)
    ensures OrdersAfter(orders, []) == orders
    ensures OrdersAfter(orders, [Remove(id)]) == Without(orders, [id])
    ensures PositiveOrders(orders) ==> PositiveOrders(Without(orders, [id]))
  {
    assert [Remove(id)][1..] == [];
    assert orders - {id} == Without(orders, [id]);
  }

  /**
   A limit add: makers lose their fills, self-trade legs are swept, and what is left of a
   priced order rests, a buy among the bids and a sell among the asks.
   */
  lemma AddedOrders(orders: Orders, command: VenueCommand, fills: seq<Fill>, resting: u64, stp: seq<OrderId>)
    requires PositiveOrders(orders)
    ensures var swept := Without(Consumed(orders, fills), stp);
            OrdersAfter(orders, Effects(command, Added(fills, resting, stp)))
            == if command.AddOrder? then WithRest(swept, command.orderId, command.side, command.limitPrice, resting) else swept
  {
    hide MakerEffects, RemoveEffects, Consumed, Without, RestEffects, WithRest;
    MatchedThenSwept(orders, fills, stp);
    assert MakerEffects(fills) + RemoveEffects(stp) + [] == MakerEffects(fills) + RemoveEffects(stp);
    if command.AddOrder? {
      OrdersAppend(orders, MakerEffects(fills) + RemoveEffects(stp),
                   RestEffects(command.orderId, command.side, command.limitPrice, resting));
      RestIsAdded(Without(Consumed(orders, fills), stp), command.orderId, command.side, command.limitPrice, resting);
    }
  }

  /** A replace: the old order leaves when its cancel succeeded, then the new one is placed, unless that was refused. */
  lemma ReplacedOrders(orders: Orders, command: VenueCommand, cancelled: bool, add: AddOutcome)
    requires PositiveOrders(orders) && command.Replace?
    ensures var open := if cancelled then Without(orders, [command.orderId]) else orders;
            OrdersAfter(orders, Effects(command, Replaced(cancelled, add)))
            == match add
               case Filled(fills, stp) => Without(Consumed(open, fills), stp)
               case Rested(fills, resting, stp) =>
                 WithRest(Without(Consumed(open, fills), stp), command.newOrderId, command.side, command.limitPrice, resting)
               case AddRejected => open
  {
    hide MakerEffects, RemoveEffects, Consumed, Without, RestEffects, WithRest, PositiveOrders, OrdersAfter;
    var first := if cancelled then [Remove(command.orderId)] else [];
    var open := if cancelled then Without(orders, [command.orderId]) else orders;
    OneRemoval(orders, command.orderId);
    OrdersAppend(orders, first, AddEffects(command, add));
    match add {
      case Filled(fills, stp) => MatchedThenSwept(open, fills, stp);
      case Rested(fills, resting, stp) =>
        MatchedThenSwept(open, fills, stp);
        OrdersAppend(open, MakerEffects(fills) + RemoveEffects(stp),
                     RestEffects(command.newOrderId, command.side, command.limitPrice, resting));
        RestIsAdded(Without(Consumed(open, fills), stp), command.newOrderId, command.side, command.limitPrice, resting);
      case AddRejected => OneRemoval(open, command.orderId);
    }
  }

  /** A market add, a cancel, and the removals of mass cancels, controls and evictions; nothing else touches an order. */
  lemma OtherOutcomes(orders: Orders, command: VenueCommand, outcome: VenueOutcome)
    requires PositiveOrders(orders)
    ensures var after := OrdersAfter(orders, Effects(command, outcome));
            && (outcome.Market? ==> after == Without(Consumed(orders, outcome.fills), outcome.stpCancelled))
            && (outcome.Cancelled? ==> after == Without(orders, [outcome.orderId]))
            && (outcome.MassCancelled? ==> after == Without(orders, outcome.affected))
            && (outcome.ControlApplied? ==> after == Without(orders, outcome.swept))
            && (outcome.Evicted? ==> after == Without(orders, outcome.evicted))
            && (outcome.InstrumentStatusChanged? || outcome.Rejected? || outcome.Duplicate? ==> after == orders)
  {
    match outcome {
      case Market(fills, _, stp) => MatchedThenSwept(orders, fills, stp);
      case Cancelled(id) => OneRemoval(orders, id);
      case MassCancelled(affected) => RemovalsAreFold(orders, affected);
      case ControlApplied(swept) => RemovalsAreFold(orders, swept);
      case Evicted(evicted) => RemovalsAreFold(orders, evicted);
      case _ =>
    }
  }

  /** Only maker legs consume: a list of taker legs alone leaves every order as it is. */
  lemma {:induction false} TakerLegsIgnored(orders: Orders, fills: seq<Fill>)
    requires forall f :: f in fills ==> f.liquidity.Taker?
    ensures OrdersAfter(orders, MakerEffects(fills)) == orders
    decreases |fills|
  {
    if fills != [] {
      assert fills[0] in fills && forall f :: f in fills[1..] ==> f in fills;
      TakerLegsIgnored(orders, fills[1..]);
    }
  }

  /** One maker leg takes its quantity off its order, which leaves when nothing remains. */
  lemma MakerLegConsumes(orders: Orders, f: Fill)
    requires f.liquidity.Maker? && f.orderId in orders
    ensures var order := orders[f.orderId];
            OrdersAfter(orders, MakerEffects([f]))
            == if f.quantity < order.remaining then orders[f.orderId := order.(remaining := order.remaining - f.quantity)]
               else Without(orders, [f.orderId])
  {
    assert [f][1..] == [] && MakerEffects([f])[1..] == [];
    assert orders - {f.orderId} == Without(orders, [f.orderId]);
  }

  // ---------------------------------------------------------------- a cancel, end to end

  lemma OnePrice(l: Level, side: BookSide)
    ensures PricesOn({l}, side) == if l.side == side then [l.price] else []
  {
    AscendingUnique(PricesOn({l}, side), if l.side == side then [l.price] else []);
  }

  lemma OneChange(b: BookState, l: Level)
    ensures ChangesAt(b, {l}) == [PriceLevelChange(l.side, l.price, QtyAt(b, l))]
  {
    hide PricesOn, QtyAt;
    OnePrice(l, Bid);
    OnePrice(l, Ask);
  }

  lemma RemovalShows(b: BookState, id: OrderId)
    requires id in b.orders && b.orders[id].remaining <= QtyAt(b, LevelOf(b.orders[id]))
    ensures var l := LevelOf(b.orders[id]);
            QtyAt(ApplyEffect(b, Remove(id)), l) == QtyAt(b, l) - b.orders[id].remaining
  {
    ReduceLevelShows(b, LevelOf(b.orders[id]), b.orders[id].remaining, LevelOf(b.orders[id]));
  }

  /**
   A committed cancel of a resting order takes the order away and its remainder off its
   level, and unless it is the market maker's tells the clients that level's new quantity.
   */
  lemma CancelCommitted(v: Venue, underlyingOf: Symbol -> Option<string>, sequence: u64, ts: u64, s: Symbol, id: OrderId, account: AccountId)
    requires Agrees(InstrumentAt(v, s).book) && id in InstrumentAt(v, s).book.orders
    ensures var event := VenueEvent(sequence, ts, CancelOrder(s, id, account), Cancelled(id));
            var before, after := InstrumentAt(v, s), InstrumentAt(Commit(v, event), s);
            var order := before.book.orders[id];
            var left := QtyAt(before.book, Level(order.side, order.price)) - order.remaining;
            && after.book.orders == Without(before.book.orders, [id])
            && QtyAt(after.book, Level(order.side, order.price)) == left
            && DeltasFor(Messages(v, event, underlyingOf), s)
               == if account == "@market-maker" then []
                  else [OrderbookDelta(s, after.sequence, [PriceLevelChange(order.side, order.price, left)])]
  {
    hide ChangesAt, Messages, DeltasFor, Commit, Agrees, ReduceLevel, QtyAt, ApplyAll, TouchedAll;
    var event := VenueEvent(sequence, ts, CancelOrder(s, id, account), Cancelled(id));
    var book := InstrumentAt(v, s).book;
    var l := LevelOf(book.orders[id]);
    CommitMoves(v, event, s);
    CommitPublishes(v, event, underlyingOf, s);
    SingleEffect(book, Remove(id));
    LevelCoversOrder(book, id);
    RemovalShows(book, id);
    OneChange(ApplyEffect(book, Remove(id)), l);
    assert book.orders - {id} == Without(book.orders, [id]);
  }

  // ---------------------------------------------------------------- what is printed

  /** The anonymised print of each leg, in order. */
  lemma {:induction false} LegPrinted(fills: seq<Fill>, underlying: string, s: Symbol, event: VenueEvent, i: nat)
    requires i < |fills|
    ensures |FillPrints(fills, underlying, s, event)| == |fills|
    ensures FillPrints(fills, underlying, s, event)[i]
         == FillPrint(fills[i].executionId, event.underlyingSequence, event.venueTs, fills[i].liquidity,
                      underlying, s, fills[i].side, fills[i].quantity, fills[i].price)
    decreases |fills|
  {
    if |fills| > 1 {
      LegPrinted(fills[1..], underlying, s, event, if i > 0 then i - 1 else 0);
    }
  }

  /**
   Everything a committed event enqueues, in order: for the instrument it names the delta,
   if it is published, then the legs of an add, market order or crossing replace and their
   trades, when the underlying is known; otherwise the price of an accepted simulation step.
   */
  lemma EventEnqueues(v: Venue, event: VenueEvent, underlyingOf: Symbol -> Option<string>, s: Symbol)
    ensures var legs :=
              match event.outcome
              case Added(fills, _, _) => fills
              case Market(fills, _, _) => fills
              case Replaced(_, Filled(fills, _)) => fills
              case Replaced(_, Rested(fills, _, _)) => fills
              case _ => [];
            var underlying := underlyingOf(s);
            Targets(event, s) ==>
              Messages(v, event, underlyingOf)
              == DeltasFor(Messages(v, event, underlyingOf), s)
                 + if legs == [] || underlying.None? then []
                   else FillPrints(legs, underlying.value, s, event) + TradesOf(legs, s, event.venueTs)
    ensures (forall symbol :: !Targets(event, symbol)) ==>
              Messages(v, event, underlyingOf)
              == match event.command
                 case SimStep(_, underlying, price) => if event.outcome.Rejected? then [] else [Price(underlying, price)]
                 case _ => []
  {
    hide FillPrints, TradesOf, DeltaOf;
    MessagesCarryDelta(v, event, underlyingOf, s);
    if CommandSymbol(event.command).Some? {
      assert Targets(event, CommandSymbol(event.command).value);
    }
    hide DeltasFor;
  }
}
