/**
 The market-data service: one mutable L2 aggregate per instrument, the manager that
 folds every committed event into the aggregate of its instrument, and the messages
 it enqueues. `Commit` and `Messages` say in one place what an event does to the
 venue's aggregates and what it publishes.
 */
module Subscription {
  import opened Collections
  import opened Words
  import opened Envelope
  import opened L2Book
  import opened MarketData
  import opened TradePairing

  // ---------------------------------------------------------------- one event, as a function

  datatype Instrument = Instrument(sequence: u64, book: BookState)

  type Venue = map<Symbol, Instrument>

  const FRESH_INSTRUMENT := Instrument(0, EMPTY_BOOK)

  function InstrumentAt(v: Venue, symbol: Symbol): Instrument {
    if symbol in v then v[symbol] else FRESH_INSTRUMENT
  }

  function NextSequence(sequence: u64): u64 {
    if sequence < U64_MAX then sequence + 1 else U64_MAX
  }

  /** The levels an event touches on its own instrument. */
  function Touched(i: Instrument, event: VenueEvent): set<Level> {
    TouchedAll(i.book.orders, Effects(event.command, event.outcome))
  }

  /** An event is published when it touches the book and is not a market-maker requote. */
  predicate Publishes(i: Instrument, event: VenueEvent) {
    Touched(i, event) != {} && !IsMarketMakerCommand(event.command)
  }

  function Fold(i: Instrument, event: VenueEvent): Instrument {
    Instrument(if Publishes(i, event) then NextSequence(i.sequence) else i.sequence,
               ApplyAll(i.book, Effects(event.command, event.outcome)))
  }

  function Commit(v: Venue, event: VenueEvent): Venue {
    match CommandSymbol(event.command)
    case None => v
    case Some(symbol) => v[symbol := Fold(InstrumentAt(v, symbol), event)]
  }

  /** The order-book delta an event publishes for its instrument, if any. */
  function DeltaOf(symbol: Symbol, i: Instrument, event: VenueEvent): seq<WsMessage> {
    if Publishes(i, event)
    then [OrderbookDelta(symbol, NextSequence(i.sequence), ChangesAt(Fold(i, event).book, Touched(i, event)))]
    else []
  }

  function FillPrints(fills: seq<Fill>, underlying: string, symbol: Symbol, event: VenueEvent): seq<WsMessage> {
    if fills == [] then []
    else
      var f := fills[0];
      [FillPrint(f.executionId, event.underlyingSequence, event.venueTs, f.liquidity,
                 underlying, symbol, f.side, f.quantity, f.price)]
      + FillPrints(fills[1..], underlying, symbol, event)
  }

  function PrintsOf(symbol: Symbol, underlying: Option<string>, event: VenueEvent): seq<WsMessage> {
    var fills := OutcomeFills(event.outcome);
    if fills == [] || underlying.None? then []
    else FillPrints(fills, underlying.value, symbol, event) + TradesOf(fills, symbol, event.venueTs)
  }

  function PriceOf(event: VenueEvent): seq<WsMessage> {
    if event.command.SimStep? && !event.outcome.Rejected? then [Price(event.command.underlying, event.command.price)] else []
  }

  function Messages(v: Venue, event: VenueEvent, underlyingOf: Symbol -> Option<string>): seq<WsMessage> {
    match CommandSymbol(event.command)
    case None => PriceOf(event)
    case Some(symbol) => DeltaOf(symbol, InstrumentAt(v, symbol), event) + PrintsOf(symbol, underlyingOf(symbol), event)
  }

  // ---------------------------------------------------------------- the aggregate of one instrument

  class InstrumentState {
    var sequence: u64
    var bids: map<u64, u64>
    var asks: map<u64, u64>
    var orders: map<OrderId, RestingOrder>

    /** An aggregate holding `i`; a fresh instrument starts from `FRESH_INSTRUMENT`. */
    constructor (i: Instrument)
      ensures View() == i
    {
      sequence, bids, asks, orders := i.sequence, i.book.bids, i.book.asks, i.book.orders;
    }

    function Contents(): BookState
      reads this
    {
      BookState(bids, asks, orders)
    }

    function View(): Instrument
      reads this
    {
      Instrument(sequence, Contents())
    }

    /** Adds a resting order and raises its level; a zero quantity is ignored. */
    method RestOrder(id: OrderId, side: BookSide, price: u64, qty: u64, touched: set<Level>) returns (now: set<Level>)
      modifies this
      ensures Contents() == ApplyEffect(old(Contents()), Rest(id, side, price, qty))
      ensures now == touched + TouchedBy(old(orders), Rest(id, side, price, qty))
      ensures sequence == old(sequence)
    {
      now := touched;
      if qty == 0 {
        return;
      }
      orders := orders[id := RestingOrder(side, price, qty)];
      var level := if side.Bid? then bids else asks;
      var entry := if price in level then level[price] else 0;
      level := level[price := if entry + qty <= U64_MAX then entry + qty else U64_MAX];
      if side.Bid? {
        bids := level;
      } else {
        asks := level;
      }
      now := now + {Level(side, price)};
    }

    /** Lowers a level, clamped at zero, and drops it when nothing is left. */
    method ReduceAt(side: BookSide, price: u64, amount: u64, touched: set<Level>) returns (now: set<Level>)
      modifies this`bids, this`asks
      ensures Contents() == ReduceLevel(old(Contents()), Level(side, price), amount)
      ensures now == touched + {Level(side, price)}
    {
      var level := if side.Bid? then bids else asks;
      if price in level {
        var qty := if amount <= level[price] then level[price] - amount else 0;
        level := level[price := qty];
        if qty == 0 {
          level := level - {price};
        }
        if side.Bid? {
          bids := level;
        } else {
          asks := level;
        }
      }
      now := touched + {Level(side, price)};
    }

    /** Consumes up to `qty` from a resting maker and drops it when fully consumed. */
    method ReduceOrder(id: OrderId, qty: u64, touched: set<Level>) returns (now: set<Level>)
      modifies this
      ensures Contents() == ApplyEffect(old(Contents()), Consume(id, qty))
      ensures now == touched + TouchedBy(old(orders), Consume(id, qty))
      ensures sequence == old(sequence)
    {
      now := touched;
      if id !in orders {
        return;
      }
      var order := orders[id];
      var amount := if qty <= order.remaining then qty else order.remaining;
      order := order.(remaining := order.remaining - amount);
      orders := orders[id := order];
      now := ReduceAt(order.side, order.price, amount, touched);
      if order.remaining == 0 {
        orders := orders - {id};
        assert orders == old(orders) - {id};
      }
    }

    /** Removes a resting order and takes its whole remainder off its level. */
    method RemoveOrder(id: OrderId, touched: set<Level>) returns (now: set<Level>)
      modifies this
      ensures Contents() == ApplyEffect(old(Contents()), Remove(id))
      ensures now == touched + TouchedBy(old(orders), Remove(id))
      ensures sequence == old(sequence)
    {
      now := touched;
      if id !in orders {
        assert orders - {id} == orders;
        return;
      }
      var order := orders[id];
      orders := orders - {id};
      now := ReduceAt(order.side, order.price, order.remaining, touched);
    }

    method ConsumeMakerFills(fills: seq<Fill>, touched: set<Level>) returns (now: set<Level>)
      modifies this
      ensures Contents() == ApplyAll(old(Contents()), MakerEffects(fills))
      ensures now == touched + TouchedAll(old(orders), MakerEffects(fills))
      ensures sequence == old(sequence)
    {
      now := touched;
      for i := 0 to |fills|
        invariant ApplyAll(Contents(), MakerEffects(fills[i..])) == ApplyAll(old(Contents()), MakerEffects(fills))
        invariant now + TouchedAll(orders, MakerEffects(fills[i..])) == touched + TouchedAll(old(orders), MakerEffects(fills))
        invariant sequence == old(sequence)
      {
        var f := fills[i];
        assert fills[i..][1..] == fills[i + 1..];
        if f.liquidity.Maker? {
          assert MakerEffects(fills[i..])[1..] == MakerEffects(fills[i + 1..]);
          now := ReduceOrder(f.orderId, f.quantity, now);
        }
      }
    }

    method RemoveOrders(ids: seq<OrderId>, touched: set<Level>) returns (now: set<Level>)
      modifies this
      ensures Contents() == ApplyAll(old(Contents()), RemoveEffects(ids))
      ensures now == touched + TouchedAll(old(orders), RemoveEffects(ids))
      ensures sequence == old(sequence)
    {
      now := touched;
      for i := 0 to |ids|
        invariant ApplyAll(Contents(), RemoveEffects(ids[i..])) == ApplyAll(old(Contents()), RemoveEffects(ids))
        invariant now + TouchedAll(orders, RemoveEffects(ids[i..])) == touched + TouchedAll(old(orders), RemoveEffects(ids))
        invariant sequence == old(sequence)
      {
        assert ids[i..][1..] == ids[i + 1..];
        assert RemoveEffects(ids[i..])[1..] == RemoveEffects(ids[i + 1..]);
        now := RemoveOrder(ids[i], now);
      }
    }

    /** The match, self-trade and resting legs of an add, folded in that order. */
    method PlaceAdd(fills: seq<Fill>, stp: seq<OrderId>, rest: seq<Effect>, touched: set<Level>) returns (now: set<Level>)
      requires rest == [] || (|rest| == 1 && rest[0].Rest?)
      modifies this
      ensures Contents() == ApplyAll(old(Contents()), MakerEffects(fills) + RemoveEffects(stp) + rest)
      ensures now == touched + TouchedAll(old(orders), MakerEffects(fills) + RemoveEffects(stp) + rest)
      ensures sequence == old(sequence)
    {
      ApplyAllAppend(Contents(), MakerEffects(fills) + RemoveEffects(stp), rest);
      ApplyAllAppend(Contents(), MakerEffects(fills), RemoveEffects(stp));
      now := ConsumeMakerFills(fills, touched);
      ApplyAllAppend(Contents(), RemoveEffects(stp), []);
      now := RemoveOrders(stp, now);
      if rest != [] {
        assert rest[1..] == [];
        now := RestOrder(rest[0].id, rest[0].side, rest[0].price, rest[0].quantity, now);
      }
    }

    /** The add leg of a replace; a rejected leg leaves the book alone. */
    method PlaceReplacement(command: VenueCommand, add: AddOutcome, touched: set<Level>) returns (now: set<Level>)
      modifies this
      ensures Contents() == ApplyAll(old(Contents()), AddEffects(command, add))
      ensures now == touched + TouchedAll(old(orders), AddEffects(command, add))
      ensures sequence == old(sequence)
    {
      now := touched;
      match add {
        case Filled(fills, stp) =>
          assert MakerEffects(fills) + RemoveEffects(stp) + [] == MakerEffects(fills) + RemoveEffects(stp);
          now := PlaceAdd(fills, stp, [], now);
        case Rested(fills, resting, stp) =>
          var rest := if command.Replace?
                      then RestEffects(command.newOrderId, command.side, command.limitPrice, resting) else [];
          now := PlaceAdd(fills, stp, rest, now);
        case AddRejected =>
      }
    }

    /** A non-atomic replace: the cancel leg when it succeeded, then the add leg. */
    method ApplyReplace(command: VenueCommand, cancelled: bool, add: AddOutcome) returns (now: set<Level>)
      modifies this
      ensures Contents() == ApplyAll(old(Contents()), Effects(command, Replaced(cancelled, add)))
      ensures now == TouchedAll(old(orders), Effects(command, Replaced(cancelled, add)))
      ensures sequence == old(sequence)
    {
      var first := if cancelled && command.Replace? then [Remove(command.orderId)] else [];
      ApplyAllAppend(Contents(), first, AddEffects(command, add));
      now := {};
      if cancelled && command.Replace? {
        assert first[1..] == [];
        now := RemoveOrder(command.orderId, now);
      }
      now := PlaceReplacement(command, add, now);
    }

    /** Folds a committed outcome and lists the resulting quantity of every touched level. */
    method Apply(command: VenueCommand, outcome: VenueOutcome) returns (changes: seq<PriceLevelChange>)
      modifies this
      ensures Contents() == ApplyAll(old(Contents()), Effects(command, outcome))
      ensures changes == ChangesAt(Contents(), TouchedAll(old(orders), Effects(command, outcome)))
      ensures sequence == old(sequence)
    {
      hide ApplyAll, TouchedAll, ApplyEffect, TouchedBy, MakerEffects, RemoveEffects, ChangesAt;
      var touched: set<Level> := {};
      match outcome {
        case Added(fills, resting, stp) =>
          var rest := if command.AddOrder?
                      then RestEffects(command.orderId, command.side, command.limitPrice, resting) else [];
          touched := PlaceAdd(fills, stp, rest, touched);
        case Market(fills, _, stp) =>
          assert MakerEffects(fills) + RemoveEffects(stp) + [] == MakerEffects(fills) + RemoveEffects(stp);
          touched := PlaceAdd(fills, stp, [], touched);
        case Cancelled(id) =>
          SingleEffect(Contents(), Remove(id));
          touched := RemoveOrder(id, touched);
        case Replaced(cancelled, add) =>
          touched := ApplyReplace(command, cancelled, add);
        case MassCancelled(affected) =>
          touched := RemoveOrders(affected, touched);
        case ControlApplied(swept) =>
          touched := RemoveOrders(swept, touched);
        case Evicted(evicted) =>
          touched := RemoveOrders(evicted, touched);
        case InstrumentStatusChanged => NoEffects(Contents());
        case Rejected => NoEffects(Contents());
        case Duplicate(_, _) => NoEffects(Contents());
      }
      assert touched == TouchedAll(old(orders), Effects(command, outcome));
      changes := ChangesAt(Contents(), touched);
    }

    /**
     Folds a committed event, assigning the next sequence only when the book was
     touched by something other than a market-maker requote.
     */
    method FoldEvent(event: VenueEvent) returns (current: u64, changes: seq<PriceLevelChange>)
      modifies this
      ensures View() == Fold(old(View()), event)
      ensures Publishes(old(View()), event) ==> current == NextSequence(old(sequence))
      ensures changes == if Publishes(old(View()), event) then ChangesAt(View().book, Touched(old(View()), event)) else []
      ensures changes == [] <==> !Publishes(old(View()), event)
    {
      hide ApplyAll, TouchedAll, Effects, ChangesAt, IsMarketMakerCommand;
      changes := Apply(event.command, event.outcome);
      NothingTouchedNothingListed(Contents(), Touched(old(View()), event));
      if changes == [] || IsMarketMakerCommand(event.command) {
        return sequence, [];
      }
      sequence := if sequence < U64_MAX then sequence + 1 else U64_MAX;
      current := sequence;
    }

    /** The best levels of each side, each with its quantity, at the current sequence. */
    method Snapshot(symbol: Symbol, depth: Option<nat>) returns (message: WsMessage)
      ensures message.OrderbookSnapshot? && message.symbol == symbol && message.sequence == sequence
      ensures ListsBest(Bid, bids, message.bids, depth) && ListsBest(Ask, asks, message.asks, depth)
      ensures message == SnapshotOf(symbol, sequence, Contents(), depth)
    {
      SideListsBest(Bid, bids, depth);
      SideListsBest(Ask, asks, depth);
      hide ListsBest;
      var bidLevels := Listed(bids, Reverse(SidePrices(bids)));
      var askLevels := Listed(asks, SidePrices(asks));
      if depth.Some? {
        bidLevels := Truncate(bidLevels, depth);
        askLevels := Truncate(askLevels, depth);
      }
      message := OrderbookSnapshot(symbol, sequence, bidLevels, askLevels);
    }
  }

  // ---------------------------------------------------------------- the manager

  /**
   Every instrument's aggregate plus the messages enqueued so far. The map owns its
   aggregates: one is lent to an `InstrumentState` while an event is folded into it
   and then stored back. The bounded broadcast ring is kept as the sequence of
   everything that was sent.
   */
  class OrderbookSubscriptionManager {
    var instruments: Venue
    var sent: seq<WsMessage>
    const underlyingOf: Symbol -> Option<string>

    constructor (underlyingOf: Symbol -> Option<string>)
      ensures instruments == map[] && sent == [] && this.underlyingOf == underlyingOf
    {
      instruments, sent, this.underlyingOf := map[], [], underlyingOf;
    }

    method OrderbookSnapshot(symbol: Symbol, depth: Option<nat>) returns (message: WsMessage)
      ensures message == SnapshotOf(symbol, InstrumentAt(instruments, symbol).sequence,
                                    InstrumentAt(instruments, symbol).book, depth)
    {
      if symbol in instruments {
        var state := new InstrumentState(instruments[symbol]);
        message := state.Snapshot(symbol, depth);
      } else {
        message := WsMessage.OrderbookSnapshot(symbol, 0, [], []);
      }
    }

    /** Folds one committed event and enqueues what it publishes, in order. */
    method OnCommittedEvent(event: VenueEvent) returns (deltaSequence: Option<u64>)
      modifies this
      ensures instruments == Commit(old(instruments), event)
      ensures sent == old(sent) + Messages(old(instruments), event, underlyingOf)
      ensures var symbol := CommandSymbol(event.command);
              deltaSequence == if symbol.Some? && Publishes(InstrumentAt(old(instruments), symbol.value), event)
                               then Some(NextSequence(InstrumentAt(old(instruments), symbol.value).sequence)) else None
    {
      hide Fold, Publishes, Touched, PrintsOf, ChangesAt;
      var symbol := CommandSymbol(event.command);
      if symbol.None? {
        EmitPrice(event);
        return None;
      }
      var before := InstrumentAt(instruments, symbol.value);
      var state := new InstrumentState(before);
      var sequence, changes := state.FoldEvent(event);
      instruments := instruments[symbol.value := state.View()];
      deltaSequence := None;
      if changes != [] {
        sent := sent + [OrderbookDelta(symbol.value, sequence, changes)];
        deltaSequence := Some(sequence);
      }
      assert sent == old(sent) + DeltaOf(symbol.value, before, event);
      EmitFillsAndTrades(event, symbol.value);
    }

    /** Anonymised prints of every leg, then one public print per complete match. */
    method EmitFillsAndTrades(event: VenueEvent, symbol: Symbol)
      modifies this`sent
      ensures sent == old(sent) + PrintsOf(symbol, underlyingOf(symbol), event)
    {
      var fills := OutcomeFills(event.outcome);
      var underlying := underlyingOf(symbol);
      if fills == [] || underlying.None? {
        assert sent == old(sent) + [];
        return;
      }
      EmitFills(fills, underlying.value, symbol, event);
      var trades := PairTrades(fills, symbol, event.venueTs);
      sent := sent + trades;
    }

    method EmitFills(fills: seq<Fill>, underlying: string, symbol: Symbol, event: VenueEvent)
      modifies this`sent
      ensures sent == old(sent) + FillPrints(fills, underlying, symbol, event)
    {
      for i := 0 to |fills|
        invariant sent + FillPrints(fills[i..], underlying, symbol, event)
               == old(sent) + FillPrints(fills, underlying, symbol, event)
      {
        var f := fills[i];
        assert fills[i..][1..] == fills[i + 1..];
        sent := sent + [FillPrint(f.executionId, event.underlyingSequence, event.venueTs, f.liquidity,
                                  underlying, symbol, f.side, f.quantity, f.price)];
      }
      assert fills[|fills|..] == [];
    }

    method EmitPrice(event: VenueEvent)
      modifies this`sent
      ensures sent == old(sent) + PriceOf(event)
    {
      if event.command.SimStep? && !event.outcome.Rejected? {
        sent := sent + [Price(event.command.underlying, event.command.price)];
      }
    }
  }

  lemma SingleEffect(b: BookState, e: Effect)
    ensures ApplyAll(b, [e]) == ApplyEffect(b, e)
    ensures TouchedAll(b.orders, [e]) == TouchedBy(b.orders, e)
  {
    assert [e][1..] == [];
  }

  lemma NoEffects(b: BookState)
    ensures ApplyAll(b, []) == b && TouchedAll(b.orders, []) == {}
  {}

  /** The change list is empty exactly when nothing was touched. */
  lemma NothingTouchedNothingListed(b: BookState, touched: set<Level>)
    ensures ChangesAt(b, touched) == [] <==> touched == {}
  {
    ChangesListTouched(b, touched);
    if touched != {} {
      var l :| l in touched;
      TouchedIsListed(b, touched, l);
    }
  }
}
