/**
 Runs of committed events, and what a client can rebuild from them: a full snapshot
 followed by order-book deltas. A run starts at any venue state; `StateAt` is the
 venue after a number of its events.
 */
module Replication {
  import opened Collections
  import opened Words
  import opened Envelope
  import opened L2Book
  import opened MarketData
  import opened Subscription

  function StateAt(v: Venue, events: seq<VenueEvent>, k: nat): Venue
    requires k <= |events|
  {
    if k == 0 then v else Commit(StateAt(v, events, k - 1), events[k - 1])
  }

  /** The aggregate of `s` after `k` events. */
  function At(v: Venue, events: seq<VenueEvent>, k: nat, s: Symbol): Instrument
    requires k <= |events|
  {
    InstrumentAt(StateAt(v, events, k), s)
  }

  lemma AtIs(v: Venue, events: seq<VenueEvent>, k: nat, s: Symbol)
    requires k <= |events|
    ensures At(v, events, k, s) == InstrumentAt(StateAt(v, events, k), s)
  {}

  predicate Targets(event: VenueEvent, s: Symbol) {
    CommandSymbol(event.command) == Some(s)
  }

  /** One event moves one instrument: its own by `Fold`, every other not at all. */
  lemma CommitIsLocal(v: Venue, event: VenueEvent, s: Symbol)
    ensures InstrumentAt(Commit(v, event), s) == if Targets(event, s) then Fold(InstrumentAt(v, s), event) else InstrumentAt(v, s)
  {}

  // ---------------------------------------------------------------- the index over whole runs

  /** The resting orders of `s` after `k` events, by the plain order-map transition alone. */
  function OrdersAt(v: Venue, events: seq<VenueEvent>, k: nat, s: Symbol): Orders
    requires k <= |events|
  {
    if k == 0 then InstrumentAt(v, s).book.orders
    else
      var before := OrdersAt(v, events, k - 1, s);
      var event := events[k - 1];
      if Targets(event, s) then OrdersAfter(before, Effects(event.command, event.outcome)) else before
  }

  /** Every order that comes to rest has an id that is not resting then, and at most the capped quantity. */
  ghost predicate AdmissibleRun(events: seq<VenueEvent>) {
    forall k, s :: 0 <= k < |events| && Targets(events[k], s) ==>
      RestsAdmissible(OrdersAt(map[], events, k, s), Effects(events[k].command, events[k].outcome))
  }

  lemma {:induction false} RestCountAppend(es: seq<Effect>, more: seq<Effect>)
    ensures RestCount(es + more) == RestCount(es) + RestCount(more)
    decreases |es|
  {
    if es == [] {
      assert es + more == more;
    } else {
      assert (es + more)[1..] == es[1..] + more;
      RestCountAppend(es[1..], more);
    }
  }

  lemma {:induction false} MakersRestNothing(fills: seq<Fill>)
    ensures RestCount(MakerEffects(fills)) == 0
    decreases |fills|
  {
    if fills != [] {
      MakersRestNothing(fills[1..]);
      RestCountAppend(if fills[0].liquidity.Maker? then [Consume(fills[0].orderId, fills[0].quantity)] else [],
                      MakerEffects(fills[1..]));
    }
  }

  lemma {:induction false} RemovalsRestNothing(ids: seq<OrderId>)
    ensures RestCount(RemoveEffects(ids)) == 0
    decreases |ids|
  {
    if ids != [] {
      RemovalsRestNothing(ids[1..]);
      RestCountAppend([Remove(ids[0])], RemoveEffects(ids[1..]));
    }
  }

  lemma PlacementRestsOnce(fills: seq<Fill>, stp: seq<OrderId>, tail: seq<Effect>)
    requires |tail| <= 1
    ensures RestCount(MakerEffects(fills) + RemoveEffects(stp) + tail) <= 1
    ensures RestCount(MakerEffects(fills) + RemoveEffects(stp)) == 0
  {
    MakersRestNothing(fills);
    RemovalsRestNothing(stp);
    RestCountAppend(MakerEffects(fills), RemoveEffects(stp));
    RestCountAppend(MakerEffects(fills) + RemoveEffects(stp), tail);
  }

  /** A committed outcome brings at most one order to rest. */
  lemma OneRestPerEvent(command: VenueCommand, outcome: VenueOutcome)
    ensures RestCount(Effects(command, outcome)) <= 1
  {
    match outcome {
      case Added(fills, resting, stp) =>
        PlacementRestsOnce(fills, stp,
          if command.AddOrder? then RestEffects(command.orderId, command.side, command.limitPrice, resting) else []);
      case Market(fills, _, stp) => PlacementRestsOnce(fills, stp, []);
      case Cancelled(_) =>
      case Replaced(cancelled, add) =>
        var first := if cancelled && command.Replace? then [Remove(command.orderId)] else [];
        match add {
          case Filled(fills, stp) => PlacementRestsOnce(fills, stp, []);
          case Rested(fills, resting, stp) =>
            PlacementRestsOnce(fills, stp,
              if command.Replace? then RestEffects(command.newOrderId, command.side, command.limitPrice, resting) else []);
          case AddRejected =>
        }
        RestCountAppend(first, AddEffects(command, add));
      case MassCancelled(affected) => RemovalsRestNothing(affected);
      case InstrumentStatusChanged =>
      case Evicted(evicted) => RemovalsRestNothing(evicted);
      case ControlApplied(swept) => RemovalsRestNothing(swept);
      case Rejected =>
      case Duplicate(_, _) =>
    }
  }

  lemma {:induction false} BookTracksOrders(v: Venue, events: seq<VenueEvent>, k: nat, s: Symbol)
    requires k <= |events|
    ensures At(v, events, k, s).book.orders == OrdersAt(v, events, k, s)
  {
    if k > 0 {
      BookTracksOrders(v, events, k - 1, s);
      var event := events[k - 1];
      CommitIsLocal(StateAt(v, events, k - 1), event, s);
      ApplyAllAppend(At(v, events, k - 1, s).book, Effects(event.command, event.outcome), []);
    }
  }

  lemma {:induction false} RunAgrees(events: seq<VenueEvent>, k: nat, s: Symbol)
    requires k <= |events| && AdmissibleRun(events)
    requires |events| * MAX_ORDER_QUANTITY <= U64_MAX
    ensures Agrees(At(map[], events, k, s).book)
    ensures BoundedOrders(At(map[], events, k, s).book.orders, k)
  {
    if k == 0 {
      EmptyAgrees();
    } else {
      RunAgrees(events, k - 1, s);
      RunAgreesStep(events, k, s);
    }
  }

  lemma RunAgreesStep(events: seq<VenueEvent>, k: nat, s: Symbol)
    requires 0 < k <= |events| && AdmissibleRun(events)
    requires |events| * MAX_ORDER_QUANTITY <= U64_MAX
    requires Agrees(At(map[], events, k - 1, s).book)
    requires BoundedOrders(At(map[], events, k - 1, s).book.orders, k - 1)
    ensures Agrees(At(map[], events, k, s).book)
    ensures BoundedOrders(At(map[], events, k, s).book.orders, k)
  {
    hide Agrees, Effects, ApplyAll, RestsAdmissible, Commit, Publishes, OrdersAt;
    var event := events[k - 1];
    var before := At(map[], events, k - 1, s);
    CommitIsLocal(StateAt(map[], events, k - 1), event, s);
    if Targets(event, s) {
      BookTracksOrders(map[], events, k - 1, s);
      OneRestPerEvent(event.command, event.outcome);
      FoldAgrees(before.book, Effects(event.command, event.outcome), k - 1);
    }
  }

  /**
   Over every run from the empty venue whose resting ids are fresh and whose resting
   quantities respect the order-size cap (and which is short enough that the capped
   quantities cannot add up past 64 bits), each instrument's levels are exactly the
   sums of the orders that the plain order-map transition leaves resting there, no
   level is empty and no order is spent.
   */
  lemma RunRefinesOrderMap(events: seq<VenueEvent>, k: nat, s: Symbol)
    requires k <= |events| && AdmissibleRun(events)
    requires |events| * MAX_ORDER_QUANTITY <= U64_MAX
    ensures var book := At(map[], events, k, s).book;
            var orders := OrdersAt(map[], events, k, s);
            && book.orders == orders
            && (forall l :: QtyAt(book, l) == LevelTotal(orders, l))
            && NoZeroLevels(book)
            && (forall id :: id in orders ==> 0 < orders[id].remaining <= QtyAt(book, LevelOf(orders[id])))
  {
    RunAgrees(events, k, s);
    BookTracksOrders(map[], events, k, s);
    var book := At(map[], events, k, s).book;
    forall id | id in book.orders ensures book.orders[id].remaining <= QtyAt(book, LevelOf(book.orders[id])) {
      LevelCoversOrder(book, id);
    }
  }

  // ---------------------------------------------------------------- the published stream

  /** The deltas published for `s` by the events from index `i` up to index `j`. */
  function Stream(v: Venue, events: seq<VenueEvent>, s: Symbol, i: nat, j: nat): seq<WsMessage>
    requires i <= j <= |events|
    decreases j
  {
    if i == j then []
    else Stream(v, events, s, i, j - 1)
         + (if Targets(events[j - 1], s) then DeltaOf(s, At(v, events, j - 1, s), events[j - 1]) else [])
  }

  predicate IsDeltaFor(m: WsMessage, s: Symbol) {
    m.OrderbookDelta? && m.symbol == s
  }

  function DeltasFor(messages: seq<WsMessage>, s: Symbol): seq<WsMessage> {
    if messages == [] then []
    else (if IsDeltaFor(messages[0], s) then [messages[0]] else []) + DeltasFor(messages[1..], s)
  }

  /** Everything enqueued by the events from index `i` up to index `j`. */
  function Sent(v: Venue, events: seq<VenueEvent>, underlyingOf: Symbol -> Option<string>, i: nat, j: nat): seq<WsMessage>
    requires i <= j <= |events|
    decreases j
  {
    if i == j then []
    else Sent(v, events, underlyingOf, i, j - 1) + Messages(StateAt(v, events, j - 1), events[j - 1], underlyingOf)
  }

  lemma DeltasForHead(head: WsMessage, tail: seq<WsMessage>, s: Symbol)
    ensures DeltasFor([head] + tail, s) == (if IsDeltaFor(head, s) then [head] + DeltasFor(tail, s) else DeltasFor(tail, s))
  {
    assert ([head] + tail)[1..] == tail;
  }

  lemma {:induction false} NoDeltas(messages: seq<WsMessage>, s: Symbol)
    requires forall m :: m in messages ==> !IsDeltaFor(m, s)
    ensures DeltasFor(messages, s) == []
    decreases |messages|
  {
    if messages != [] {
      NoDeltas(messages[1..], s);
    }
  }

  lemma {:induction false} DeltasForAppend(a: seq<WsMessage>, b: seq<WsMessage>, s: Symbol)
    ensures DeltasFor(a + b, s) == DeltasFor(a, s) + DeltasFor(b, s)
    decreases |a|
  {
    hide DeltasFor, IsDeltaFor;
    if a == [] {
      NoDeltas([], s);
      assert a + b == b;
    } else {
      var head, tail := a[0], a[1..];
      DeltasForAppend(tail, b, s);
      DeltasForHead(head, tail + b, s);
      DeltasForHead(head, tail, s);
      assert a == [head] + tail;
      assert a + b == [head] + (tail + b);
    }
  }

  lemma {:induction false} FillPrintsAreNotDeltas(fills: seq<Fill>, underlying: string, symbol: Symbol, event: VenueEvent, s: Symbol)
    ensures forall m :: m in FillPrints(fills, underlying, symbol, event) ==> !IsDeltaFor(m, s)
    decreases |fills|
  {
    if fills != [] {
      FillPrintsAreNotDeltas(fills[1..], underlying, symbol, event, s);
    }
  }

  lemma PrintsAreNotDeltas(symbol: Symbol, underlying: Option<string>, event: VenueEvent, s: Symbol)
    ensures DeltasFor(PrintsOf(symbol, underlying, event), s) == []
  {
    var fills := OutcomeFills(event.outcome);
    if underlying.Some? {
      FillPrintsAreNotDeltas(fills, underlying.value, symbol, event, s);
    }
    TradePairing.PrintsComplete(TradePairing.FirstSeen(fills), fills, symbol, event.venueTs);
    NoDeltas(PrintsOf(symbol, underlying, event), s);
  }

  lemma MessagesCarryDelta(before: Venue, event: VenueEvent, underlyingOf: Symbol -> Option<string>, s: Symbol)
    ensures DeltasFor(Messages(before, event, underlyingOf), s)
         == if Targets(event, s) then DeltaOf(s, InstrumentAt(before, s), event) else []
  {
    hide Publishes, Fold, Touched, ChangesAt, PrintsOf;
    match CommandSymbol(event.command) {
      case None => NoDeltas(PriceOf(event), s);
      case Some(symbol) =>
        var delta := DeltaOf(symbol, InstrumentAt(before, symbol), event);
        DeltasForAppend(delta, PrintsOf(symbol, underlyingOf(symbol), event), s);
        PrintsAreNotDeltas(symbol, underlyingOf(symbol), event, s);
        assert delta != [] ==> delta[1..] == [];
    }
  }

  lemma SentCarriesStreamStep(v: Venue, events: seq<VenueEvent>, underlyingOf: Symbol -> Option<string>,
                              s: Symbol, i: nat, j: nat)
    requires i < j <= |events|
    requires DeltasFor(Sent(v, events, underlyingOf, i, j - 1), s) == Stream(v, events, s, i, j - 1)
    ensures DeltasFor(Sent(v, events, underlyingOf, i, j), s) == Stream(v, events, s, i, j)
  {
    hide Messages, DeltaOf, DeltasFor, StateAt, At, Targets;
    var before := StateAt(v, events, j - 1);
    AtIs(v, events, j - 1, s);
    DeltasForAppend(Sent(v, events, underlyingOf, i, j - 1), Messages(before, events[j - 1], underlyingOf), s);
    MessagesCarryDelta(before, events[j - 1], underlyingOf, s);
  }

  /** The deltas for `s` found in what the manager enqueued are exactly the published stream of `s`. */
  lemma {:induction false} SentCarriesStream(v: Venue, events: seq<VenueEvent>, underlyingOf: Symbol -> Option<string>,
                                             s: Symbol, i: nat, j: nat)
    requires i <= j <= |events|
    ensures DeltasFor(Sent(v, events, underlyingOf, i, j), s) == Stream(v, events, s, i, j)
    decreases j
  {
    hide StateAt, At, Messages;
    if i < j {
      hide DeltasFor, Sent, Stream;
      SentCarriesStream(v, events, underlyingOf, s, i, j - 1);
      SentCarriesStreamStep(v, events, underlyingOf, s, i, j);
    }
  }

  // ---------------------------------------------------------------- sequences are gap-free

  lemma {:induction false} SequenceGrows(v: Venue, events: seq<VenueEvent>, s: Symbol, i: nat, j: nat)
    requires i <= j <= |events|
    requires InstrumentAt(v, s).sequence + |events| <= U64_MAX
    ensures At(v, events, i, s).sequence <= At(v, events, j, s).sequence
    ensures At(v, events, j, s).sequence <= InstrumentAt(v, s).sequence + j
    decreases j
  {
    if j > 0 {
      SequenceGrows(v, events, s, if i < j then i else i - 1, j - 1);
      CommitIsLocal(StateAt(v, events, j - 1), events[j - 1], s);
    }
  }

  lemma StreamGrows(v: Venue, events: seq<VenueEvent>, s: Symbol, i: nat, j: nat)
    requires i < j <= |events|
    ensures Stream(v, events, s, i, j)
         == Stream(v, events, s, i, j - 1)
            + (if Targets(events[j - 1], s) then DeltaOf(s, At(v, events, j - 1, s), events[j - 1]) else [])
  {}

  /** What one event adds to a stream: nothing, or the delta with the next sequence. */
  lemma StreamStep(v: Venue, events: seq<VenueEvent>, s: Symbol, i: nat, j: nat)
    requires i < j <= |events|
    requires At(v, events, j - 1, s).sequence < U64_MAX
    ensures var before, after := At(v, events, j - 1, s).sequence, At(v, events, j, s).sequence;
            var d, earlier := Stream(v, events, s, i, j), Stream(v, events, s, i, j - 1);
            || (after == before && d == earlier)
            || (after == before + 1 && |d| == |earlier| + 1 && d[..|earlier|] == earlier
                && IsDeltaFor(d[|earlier|], s) && d[|earlier|].sequence == after)
  {
    hide Publishes, Touched, ChangesAt, Commit, At, Stream, InstrumentAt, Effects, ApplyAll, CommandSymbol;
    CommitIsLocal(StateAt(v, events, j - 1), events[j - 1], s);
    AtIs(v, events, j - 1, s);
    AtIs(v, events, j, s);
    StreamGrows(v, events, s, i, j);
  }

  /** Deltas of `s` numbered consecutively from `first + 1`. */
  ghost predicate GapFree(d: seq<WsMessage>, first: nat, s: Symbol) {
    forall n :: 0 <= n < |d| ==> IsDeltaFor(d[n], s) && d[n].sequence == first + n + 1
  }

  lemma GapFreeExtends(earlier: seq<WsMessage>, d: seq<WsMessage>, first: nat, s: Symbol)
    requires GapFree(earlier, first, s)
    requires |d| == |earlier| + 1 && d[..|earlier|] == earlier
    requires IsDeltaFor(d[|earlier|], s) && d[|earlier|].sequence == first + |earlier| + 1
    ensures GapFree(d, first, s)
  {
    forall n | 0 <= n < |d| ensures IsDeltaFor(d[n], s) && d[n].sequence == first + n + 1 {
      if n < |earlier| {
        assert d[n] == earlier[n];
      }
    }
  }

  /** Every stream numbers its deltas consecutively, from the aggregate's sequence before it to the one after it. */
  lemma {:induction false} StreamIsGapFree(v: Venue, events: seq<VenueEvent>, s: Symbol, i: nat, j: nat)
    requires i <= j <= |events|
    requires InstrumentAt(v, s).sequence + |events| <= U64_MAX
    ensures |Stream(v, events, s, i, j)| == At(v, events, j, s).sequence - At(v, events, i, s).sequence
    ensures GapFree(Stream(v, events, s, i, j), At(v, events, i, s).sequence, s)
    decreases j
  {
    if i < j {
      hide At, IsDeltaFor, GapFree, Stream;
      StreamIsGapFree(v, events, s, i, j - 1);
      SequenceGrows(v, events, s, 0, j - 1);
      StreamStep(v, events, s, i, j);
      var d, earlier := Stream(v, events, s, i, j), Stream(v, events, s, i, j - 1);
      if d != earlier {
        GapFreeExtends(earlier, d, At(v, events, i, s).sequence, s);
      }
    }
  }

  lemma {:induction false} StreamSplits(v: Venue, events: seq<VenueEvent>, s: Symbol, i: nat, p: nat, j: nat)
    requires i <= p <= j <= |events|
    ensures Stream(v, events, s, i, j) == Stream(v, events, s, i, p) + Stream(v, events, s, p, j)
    decreases j
  {
    if p < j {
      StreamSplits(v, events, s, i, p, j - 1);
    }
  }

  // ---------------------------------------------------------------- the client mirror

  /** What a client believes rests at each level; absent means nothing. */
  type Mirror = map<Level, u64>

  function MirrorQty(m: Mirror, l: Level): u64 {
    if l in m then m[l] else 0
  }

  function LoadSide(m: Mirror, side: BookSide, data: seq<PriceLevelData>): Mirror
    decreases |data|
  {
    if data == [] then m
    else LoadSide(m[Level(side, data[0].price) := data[0].quantity], side, data[1..])
  }

  function LoadSnapshot(snapshot: WsMessage): Mirror
    requires snapshot.OrderbookSnapshot?
  {
    LoadSide(LoadSide(map[], Bid, snapshot.bids), Ask, snapshot.asks)
  }

  function ApplyChange(m: Mirror, c: PriceLevelChange): Mirror {
    if c.quantity == 0 then m - {ChangedLevel(c)} else m[ChangedLevel(c) := c.quantity]
  }

  function ApplyChanges(m: Mirror, changes: seq<PriceLevelChange>): Mirror
    decreases |changes|
  {
    if changes == [] then m else ApplyChanges(ApplyChange(m, changes[0]), changes[1..])
  }

  /** Applies deltas in order; other messages do not concern the mirror. */
  function ApplyStream(m: Mirror, messages: seq<WsMessage>): Mirror {
    if messages == [] then m
    else
      var before := ApplyStream(m, messages[..|messages| - 1]);
      var last := messages[|messages| - 1];
      if last.OrderbookDelta? then ApplyChanges(before, last.changes) else before
  }

  lemma {:induction false} LoadSideShows(m: Mirror, side: BookSide, levels: map<u64, u64>, prices: seq<u64>, l: Level)
    requires forall p :: p in prices ==> p in levels
    ensures MirrorQty(LoadSide(m, side, Listed(levels, prices)), l)
         == if l.side == side && l.price in prices then levels[l.price] else MirrorQty(m, l)
    ensures l in LoadSide(m, side, Listed(levels, prices)) <==> l in m || (l.side == side && l.price in prices)
    decreases |prices|
  {
    if prices != [] {
      var data := Listed(levels, prices);
      assert data[1..] == Listed(levels, prices[1..]);
      LoadSideShows(m[Level(side, data[0].price) := data[0].quantity], side, levels, prices[1..], l);
    }
  }

  /** The levels a snapshot of the asked depth keeps: those with fewer better ones than the depth. */
  ghost predicate Kept(side: BookSide, levels: map<u64, u64>, depth: Option<nat>, price: u64) {
    price in levels && (depth.Some? ==> Rank(side, levels, price) < depth.value)
  }

  lemma KeptIsListed(side: BookSide, levels: map<u64, u64>, depth: Option<nat>, price: u64)
    ensures price in Truncate(BestFirst(side, levels), depth) <==> Kept(side, levels, depth, price)
  {
    var prices := BestFirst(side, levels);
    hide BestFirst, Rank;
    if i :| 0 <= i < |prices| && prices[i] == price {
      RankIsPlace(side, levels, i);
      assert price in prices;
      forall k | 0 <= k < |prices| && prices[k] == price ensures k == i {
        RankIsPlace(side, levels, k);
      }
    } else {
      assert price !in prices;
    }
  }

  lemma TruncateListed(levels: map<u64, u64>, prices: seq<u64>, depth: Option<nat>)
    requires forall p :: p in prices ==> p in levels
    ensures forall p :: p in Truncate(prices, depth) ==> p in levels
    ensures Truncate(Listed(levels, prices), depth) == Listed(levels, Truncate(prices, depth))
  {
    assert forall p :: p in Truncate(prices, depth) ==> p in prices;
  }

  /** Loading one side of a snapshot shows the levels it keeps and leaves the other side alone. */
  lemma SideLoaded(m: Mirror, side: BookSide, levels: map<u64, u64>, depth: Option<nat>, l: Level)
    requires forall q :: q in m ==> q.side != side
    ensures var loaded := LoadSide(m, side, Truncate(Listed(levels, BestFirst(side, levels)), depth));
            && (l.side == side ==> MirrorQty(loaded, l) == (if Kept(side, levels, depth, l.price) then levels[l.price] else 0)
                                   && (l in loaded <==> Kept(side, levels, depth, l.price)))
            && (l.side != side ==> MirrorQty(loaded, l) == MirrorQty(m, l) && (l in loaded <==> l in m))
  {
    hide LoadSide, Listed, Truncate, BestFirst;
    TruncateListed(levels, BestFirst(side, levels), depth);
    LoadSideShows(m, side, levels, Truncate(BestFirst(side, levels), depth), l);
    KeptIsListed(side, levels, depth, l.price);
  }

  lemma BidsLoaded(levels: map<u64, u64>, depth: Option<nat>)
    ensures forall q :: q in LoadSide(map[], Bid, Truncate(Listed(levels, BestFirst(Bid, levels)), depth)) ==> q.side == Bid
  {
    forall q | q in LoadSide(map[], Bid, Truncate(Listed(levels, BestFirst(Bid, levels)), depth)) ensures q.side == Bid {
      SideLoaded(map[], Bid, levels, depth, q);
    }
  }

  /** Loading a snapshot shows exactly the levels it keeps, each with its quantity in the aggregate. */
  lemma SnapshotShows(s: Symbol, sequence: u64, b: BookState, depth: Option<nat>, l: Level)
    ensures var m := LoadSnapshot(SnapshotOf(s, sequence, b, depth));
            && MirrorQty(m, l) == (if Kept(l.side, SideLevels(b, l.side), depth, l.price) then QtyAt(b, l) else 0)
            && (l in m <==> Kept(l.side, SideLevels(b, l.side), depth, l.price))
  {
    hide LoadSide, Listed, Truncate, BestFirst, Rank;
    var bids := LoadSide(map[], Bid, Truncate(Listed(b.bids, BestFirst(Bid, b.bids)), depth));
    BidsLoaded(b.bids, depth);
    SideLoaded(map[], Bid, b.bids, depth, l);
    SideLoaded(bids, Ask, b.asks, depth, l);
  }

  /** A full snapshot is faithful: loading it shows exactly the aggregate it was taken from. */
  lemma SnapshotIsFaithful(s: Symbol, sequence: u64, b: BookState, l: Level)
    ensures var m := LoadSnapshot(SnapshotOf(s, sequence, b, None));
            MirrorQty(m, l) == QtyAt(b, l) && (l in m <==> l.price in SideLevels(b, l.side))
  {
    hide LoadSnapshot, SnapshotOf;
    SnapshotShows(s, sequence, b, None, l);
  }

  lemma SideBestFirst(side: BookSide, levels: map<u64, u64>, depth: nat)
    ensures var listed := Listed(levels, BestFirst(side, levels));
            && Truncate(listed, None) == listed
            && Truncate(listed, Some(depth)) <= listed && |Truncate(listed, Some(depth))| == Min(depth, |levels|)
            && (forall i, j :: 0 <= i < j < |listed| ==> Better(side, listed[i].price, listed[j].price))
  {
    BestFirstSize(side, levels);
    var listed, prices := Listed(levels, BestFirst(side, levels)), BestFirst(side, levels);
    hide BestFirst, Listed;
    TruncateKeepsPrefix(listed, Some(depth));
    forall i, j | 0 <= i < j < |listed| ensures Better(side, listed[i].price, listed[j].price) {
      assert Better(side, prices[i], prices[j]);
    }
  }

  /** A snapshot lists each side best first, and a depth limit keeps a prefix of the full listing. */
  lemma SnapshotBestFirst(s: Symbol, sequence: u64, b: BookState, depth: nat)
    ensures var full := SnapshotOf(s, sequence, b, None);
            var cut := SnapshotOf(s, sequence, b, Some(depth));
            && cut.bids <= full.bids && |cut.bids| == Min(depth, |b.bids|)
            && cut.asks <= full.asks && |cut.asks| == Min(depth, |b.asks|)
            && (forall i, j :: 0 <= i < j < |full.bids| ==> full.bids[i].price > full.bids[j].price)
            && (forall i, j :: 0 <= i < j < |full.asks| ==> full.asks[i].price < full.asks[j].price)
  {
    hide BestFirst, Listed, Truncate;
    SideBestFirst(Bid, b.bids, depth);
    SideBestFirst(Ask, b.asks, depth);
  }

  lemma {:induction false} ChangesShow(m: Mirror, changes: seq<PriceLevelChange>, b: BookState, l: Level)
    requires forall c :: c in changes ==> c.quantity == QtyAt(b, ChangedLevel(c))
    ensures MirrorQty(ApplyChanges(m, changes), l)
         == if exists c :: c in changes && ChangedLevel(c) == l then QtyAt(b, l) else MirrorQty(m, l)
    decreases |changes|
  {
    if changes != [] {
      var head, tail := changes[0], changes[1..];
      ChangesShow(ApplyChange(m, head), tail, b, l);
      assert forall c :: c in changes <==> c == head || c in tail;
    }
  }

  /** Applying the change list of a fold shows the new quantity at every touched level and nothing else. */
  lemma DeltaShows(m: Mirror, b: BookState, touched: set<Level>, l: Level)
    ensures MirrorQty(ApplyChanges(m, ChangesAt(b, touched)), l) == if l in touched then QtyAt(b, l) else MirrorQty(m, l)
  {
    var changes := ChangesAt(b, touched);
    ChangesListTouched(b, touched);
    ChangesShow(m, changes, b, l);
    if l in touched {
      var i :| 0 <= i < |changes| && ChangedLevel(changes[i]) == l;
      assert changes[i] in changes;
    }
  }

  // ---------------------------------------------------------------- what a mirror shows

  /** Event number `k` publishes level `l` of `s`. */
  predicate PublishesLevel(v: Venue, events: seq<VenueEvent>, k: nat, s: Symbol, l: Level)
    requires k < |events|
  {
    Targets(events[k], s) && Publishes(At(v, events, k, s), events[k]) && l in Touched(At(v, events, k, s), events[k])
  }

  /** One past the last event in `i..j` that publishes `l`, or `None` when no event does. */
  function LastPublication(v: Venue, events: seq<VenueEvent>, s: Symbol, i: nat, j: nat, l: Level): Option<nat>
    requires i <= j <= |events|
    decreases j
  {
    if i == j then None
    else if PublishesLevel(v, events, j - 1, s, l) then Some(j)
    else LastPublication(v, events, s, i, j - 1, l)
  }

  lemma {:induction false} LastPublicationIsLast(v: Venue, events: seq<VenueEvent>, s: Symbol, i: nat, j: nat, l: Level)
    requires i <= j <= |events|
    ensures var last := LastPublication(v, events, s, i, j, l);
            && (last.Some? ==> i < last.value <= j && PublishesLevel(v, events, last.value - 1, s, l))
            && forall k :: (if last.Some? then last.value else i) <= k < j ==> !PublishesLevel(v, events, k, s, l)
    decreases j
  {
    hide PublishesLevel;
    if i < j && !PublishesLevel(v, events, j - 1, s, l) {
      LastPublicationIsLast(v, events, s, i, j - 1, l);
      assert LastPublication(v, events, s, i, j, l) == LastPublication(v, events, s, i, j - 1, l);
      hide LastPublication;
    }
  }

  lemma StreamStepShows(v: Venue, events: seq<VenueEvent>, s: Symbol, m: Mirror, i: nat, j: nat, l: Level)
    requires i < j <= |events|
    ensures MirrorQty(ApplyStream(m, Stream(v, events, s, i, j)), l)
         == if PublishesLevel(v, events, j - 1, s, l) then QtyAt(At(v, events, j, s).book, l)
            else MirrorQty(ApplyStream(m, Stream(v, events, s, i, j - 1)), l)
  {
    hide Touched, ChangesAt, Commit, InstrumentAt, ApplyChanges, MirrorQty, QtyAt;
    var before := At(v, events, j - 1, s);
    var event := events[j - 1];
    var earlier := Stream(v, events, s, i, j - 1);
    var stream := Stream(v, events, s, i, j);
    CommitIsLocal(StateAt(v, events, j - 1), event, s);
    if Targets(event, s) && Publishes(before, event) {
      assert stream[..|stream| - 1] == earlier;
      DeltaShows(ApplyStream(m, earlier), At(v, events, j, s).book, Touched(before, event), l);
    } else {
      assert stream == earlier;
    }
  }

  /**
   After any stream, a mirror shows at each level the quantity the aggregate had at
   the last publication of that level, or what the mirror started with when the
   stream never published it.
   */
  lemma {:induction false} StreamShowsLastPublication(v: Venue, events: seq<VenueEvent>, s: Symbol, m: Mirror, i: nat, j: nat, l: Level)
    requires i <= j <= |events|
    ensures LastPublication(v, events, s, i, j, l).Some? ==> LastPublication(v, events, s, i, j, l).value <= |events|
    ensures var last := LastPublication(v, events, s, i, j, l);
            MirrorQty(ApplyStream(m, Stream(v, events, s, i, j)), l)
            == if last.Some? then QtyAt(At(v, events, last.value, s).book, l) else MirrorQty(m, l)
    decreases j
  {
    hide PublishesLevel, QtyAt, MirrorQty, At;
    LastPublicationIsLast(v, events, s, i, j, l);
    if i < j {
      StreamShowsLastPublication(v, events, s, m, i, j - 1, l);
      StreamStepShows(v, events, s, m, i, j, l);
    }
  }

  /** The mirror of a client that loads a full snapshot after event `i` and then applies `stream`. */
  function MirrorFrom(v: Venue, events: seq<VenueEvent>, s: Symbol, i: nat, stream: seq<WsMessage>): Mirror
    requires i <= |events|
  {
    var at := At(v, events, i, s);
    ApplyStream(LoadSnapshot(SnapshotOf(s, at.sequence, at.book, None)), stream)
  }

  predicate TouchesLevel(v: Venue, events: seq<VenueEvent>, k: nat, s: Symbol, l: Level)
    requires k < |events|
  {
    Targets(events[k], s) && l in Touched(At(v, events, k, s), events[k])
  }

  lemma {:induction false} UntouchedStays(v: Venue, events: seq<VenueEvent>, s: Symbol, i: nat, j: nat, l: Level)
    requires i <= j <= |events|
    requires forall k :: i <= k < j ==> !TouchesLevel(v, events, k, s, l)
    ensures QtyAt(At(v, events, j, s).book, l) == QtyAt(At(v, events, i, s).book, l)
    decreases j
  {
    if i < j {
      UntouchedStays(v, events, s, i, j - 1, l);
      var event := events[j - 1];
      CommitIsLocal(StateAt(v, events, j - 1), event, s);
      assert !TouchesLevel(v, events, j - 1, s, l);
      if Targets(event, s) {
        UntouchedUnchanged(At(v, events, j - 1, s).book, Effects(event.command, event.outcome), l);
      }
    }
  }

  /**
   Snapshot plus deltas: a client that loads a full snapshot and applies every later
   delta agrees with the aggregate at every level that no market-maker event touched
   after the level was last published (or, if it never was, after the snapshot).
   */
  lemma SnapshotThenDeltas(v: Venue, events: seq<VenueEvent>, s: Symbol, i: nat, j: nat, l: Level)
    requires i <= j <= |events|
    requires var last := LastPublication(v, events, s, i, j, l);
             forall k :: (if last.Some? then last.value else i) <= k < j && TouchesLevel(v, events, k, s, l) ==>
               !IsMarketMakerCommand(events[k].command)
    ensures MirrorQty(MirrorFrom(v, events, s, i, Stream(v, events, s, i, j)), l) == QtyAt(At(v, events, j, s).book, l)
  {
    var last := LastPublication(v, events, s, i, j, l);
    var from := if last.Some? then last.value else i;
    var at := At(v, events, i, s);
    SnapshotIsFaithful(s, at.sequence, at.book, l);
    StreamShowsLastPublication(v, events, s, LoadSnapshot(SnapshotOf(s, at.sequence, at.book, None)), i, j, l);
    LastPublicationIsLast(v, events, s, i, j, l);
    forall k | from <= k < j ensures !TouchesLevel(v, events, k, s, l) {
      assert !PublishesLevel(v, events, k, s, l);
    }
    UntouchedStays(v, events, s, from, j, l);
  }

  /** The mirror of a client whose snapshot was cut to a depth. */
  function CutMirrorFrom(v: Venue, events: seq<VenueEvent>, s: Symbol, i: nat, depth: nat, stream: seq<WsMessage>): Mirror
    requires i <= |events|
  {
    var at := At(v, events, i, s);
    ApplyStream(LoadSnapshot(SnapshotOf(s, at.sequence, at.book, Some(depth))), stream)
  }

  /**
   A depth limits the snapshot, not the deltas after it. So such a client is right at a
   level no market maker touched since it was last shown if and only if the level was
   published after the snapshot, or was among the asked depth then, or was empty then.
   */
  lemma CutClientIff(v: Venue, events: seq<VenueEvent>, s: Symbol, i: nat, j: nat, depth: nat, l: Level)
    requires i <= j <= |events|
    requires var last := LastPublication(v, events, s, i, j, l);
             forall k :: (if last.Some? then last.value else i) <= k < j && TouchesLevel(v, events, k, s, l) ==>
               !IsMarketMakerCommand(events[k].command)
    ensures MirrorQty(CutMirrorFrom(v, events, s, i, depth, Stream(v, events, s, i, j)), l)
              == QtyAt(At(v, events, j, s).book, l)
       <==> var book := At(v, events, i, s).book;
            || LastPublication(v, events, s, i, j, l).Some?
            || Kept(l.side, SideLevels(book, l.side), Some(depth), l.price)
            || QtyAt(book, l) == 0
  {
    hide At, Stream, LoadSnapshot, QtyAt, MirrorQty, PublishesLevel, TouchesLevel, BestFirst, Listed, Truncate;
    var at := At(v, events, i, s);
    SnapshotShows(s, at.sequence, at.book, Some(depth), l);
    SnapshotIsFaithful(s, at.sequence, at.book, l);
    StreamShowsLastPublication(v, events, s, LoadSnapshot(SnapshotOf(s, at.sequence, at.book, Some(depth))), i, j, l);
    StreamShowsLastPublication(v, events, s, LoadSnapshot(SnapshotOf(s, at.sequence, at.book, None)), i, j, l);
    SnapshotThenDeltas(v, events, s, i, j, l);
  }

  // ---------------------------------------------------------------- runs without market-maker events

  ghost predicate MarketMakerFree(events: seq<VenueEvent>, s: Symbol, i: nat, j: nat)
    requires i <= j <= |events|
  {
    forall k :: i <= k < j && Targets(events[k], s) ==> !IsMarketMakerCommand(events[k].command)
  }

  /** The aggregate as a map from levels to quantities. */
  ghost function Depth(b: BookState): Mirror {
    (map p | p in b.bids :: Level(Bid, p) := b.bids[p]) + (map p | p in b.asks :: Level(Ask, p) := b.asks[p])
  }

  ghost predicate NoZeroEntries(m: Mirror) {
    forall l :: l in m ==> m[l] > 0
  }

  lemma DepthShows(b: BookState, l: Level)
    ensures l in Depth(b) <==> l.price in SideLevels(b, l.side)
    ensures l in Depth(b) ==> Depth(b)[l] == QtyAt(b, l)
  {}

  lemma MirrorMatches(m: Mirror, b: BookState, l: Level)
    requires NoZeroEntries(m) && NoZeroLevels(b) && MirrorQty(m, l) == QtyAt(b, l)
    ensures l in m <==> l in Depth(b)
    ensures l in m ==> m[l] == Depth(b)[l]
  {
    hide Depth;
    DepthShows(b, l);
  }

  lemma MirrorsDepth(m: Mirror, b: BookState)
    requires NoZeroEntries(m) && NoZeroLevels(b)
    requires forall l :: MirrorQty(m, l) == QtyAt(b, l)
    ensures m == Depth(b)
  {
    hide Depth, NoZeroEntries, NoZeroLevels, QtyAt, MirrorQty;
    var d := Depth(b);
    forall l ensures l in m <==> l in d
             ensures l in m ==> m[l] == d[l] {
      assert MirrorQty(m, l) == QtyAt(b, l);
      MirrorMatches(m, b, l);
    }
  }

  lemma {:induction false} ChangesKeepNonZero(m: Mirror, changes: seq<PriceLevelChange>)
    requires NoZeroEntries(m)
    ensures NoZeroEntries(ApplyChanges(m, changes))
    decreases |changes|
  {
    if changes != [] {
      ChangesKeepNonZero(ApplyChange(m, changes[0]), changes[1..]);
    }
  }

  lemma {:induction false} StreamKeepsNonZero(m: Mirror, messages: seq<WsMessage>)
    requires NoZeroEntries(m)
    ensures NoZeroEntries(ApplyStream(m, messages))
    decreases |messages|
  {
    if messages != [] {
      StreamKeepsNonZero(m, messages[..|messages| - 1]);
      var last := messages[|messages| - 1];
      if last.OrderbookDelta? {
        ChangesKeepNonZero(ApplyStream(m, messages[..|messages| - 1]), last.changes);
      }
    }
  }

  lemma {:induction false} RunKeepsNonZero(v: Venue, events: seq<VenueEvent>, k: nat, s: Symbol)
    requires k <= |events| && NoZeroLevels(InstrumentAt(v, s).book)
    ensures NoZeroLevels(At(v, events, k, s).book)
  {
    if k > 0 {
      RunKeepsNonZero(v, events, k - 1, s);
      var event := events[k - 1];
      CommitIsLocal(StateAt(v, events, k - 1), event, s);
      NoZeroLevelsKept(At(v, events, k - 1, s).book, Effects(event.command, event.outcome));
    }
  }

  lemma PublishedIffTouched(v: Venue, events: seq<VenueEvent>, s: Symbol, i: nat, j: nat, k: nat, l: Level)
    requires i <= k < j <= |events| && MarketMakerFree(events, s, i, j)
    ensures PublishesLevel(v, events, k, s, l) <==> TouchesLevel(v, events, k, s, l)
  {}

  /**
   Overlap is harmless without market-maker events: load the snapshot taken after
   event `i`, then apply a stream that starts at any earlier event `p`; the mirror is
   exactly the aggregate after event `j`, however much of the stream the snapshot
   already covers.
   */
  lemma OverlapConverges(v: Venue, events: seq<VenueEvent>, s: Symbol, p: nat, i: nat, j: nat)
    requires p <= i <= j <= |events| && MarketMakerFree(events, s, p, j)
    requires NoZeroLevels(InstrumentAt(v, s).book)
    ensures MirrorFrom(v, events, s, i, Stream(v, events, s, p, j)) == Depth(At(v, events, j, s).book)
  {
    var at := At(v, events, i, s);
    var start := LoadSnapshot(SnapshotOf(s, at.sequence, at.book, None));
    var m := MirrorFrom(v, events, s, i, Stream(v, events, s, p, j));
    forall l ensures MirrorQty(m, l) == QtyAt(At(v, events, j, s).book, l) {
      OverlapShows(v, events, s, p, i, j, l);
    }
    RunKeepsNonZero(v, events, i, s);
    RunKeepsNonZero(v, events, j, s);
    forall l | l in start ensures start[l] > 0 {
      SnapshotIsFaithful(s, at.sequence, at.book, l);
    }
    StreamKeepsNonZero(start, Stream(v, events, s, p, j));
    MirrorsDepth(m, At(v, events, j, s).book);
  }

  lemma OverlapShows(v: Venue, events: seq<VenueEvent>, s: Symbol, p: nat, i: nat, j: nat, l: Level)
    requires p <= i <= j <= |events| && MarketMakerFree(events, s, p, j)
    ensures MirrorQty(MirrorFrom(v, events, s, i, Stream(v, events, s, p, j)), l) == QtyAt(At(v, events, j, s).book, l)
  {
    var at := At(v, events, i, s);
    var last := LastPublication(v, events, s, p, j, l);
    var from := if last.Some? then last.value else i;
    SnapshotIsFaithful(s, at.sequence, at.book, l);
    StreamShowsLastPublication(v, events, s, LoadSnapshot(SnapshotOf(s, at.sequence, at.book, None)), p, j, l);
    LastPublicationIsLast(v, events, s, p, j, l);
    forall k | from <= k < j ensures !TouchesLevel(v, events, k, s, l) {
      PublishedIffTouched(v, events, s, p, j, k, l);
    }
    UntouchedStays(v, events, s, from, j, l);
  }

  lemma {:induction false} SomeEventHasSequence(v: Venue, events: seq<VenueEvent>, s: Symbol, i: nat, a: nat) returns (p: nat)
    requires i <= |events| && InstrumentAt(v, s).sequence + |events| <= U64_MAX
    requires InstrumentAt(v, s).sequence <= a <= At(v, events, i, s).sequence
    ensures p <= i && At(v, events, p, s).sequence == a
  {
    if At(v, events, i, s).sequence == a {
      p := i;
    } else {
      CommitIsLocal(StateAt(v, events, i - 1), events[i - 1], s);
      p := SomeEventHasSequence(v, events, s, i - 1, a);
    }
  }

  /**
   Catch-up by sequence number: with `s0` the sequence at the start of a
   market-maker-free run, take a full snapshot at sequence `s1` and apply any
   contiguous part of the delta stream that begins at sequence `a + 1 <= s1 + 1` and
   runs to the end: the mirror is exactly the aggregate at the end.
   */
  lemma CatchUpToleratesOverlap(v: Venue, events: seq<VenueEvent>, s: Symbol, i: nat, a: nat)
    requires i <= |events| && MarketMakerFree(events, s, 0, |events|)
    requires NoZeroLevels(InstrumentAt(v, s).book)
    requires InstrumentAt(v, s).sequence + |events| <= U64_MAX
    requires InstrumentAt(v, s).sequence <= a <= At(v, events, i, s).sequence
    ensures var all := Stream(v, events, s, 0, |events|);
            var s0 := InstrumentAt(v, s).sequence;
            && a - s0 <= |all|
            && (forall n :: a - s0 <= n < |all| ==> all[n].OrderbookDelta? && all[n].sequence == s0 + n + 1)
            && MirrorFrom(v, events, s, i, all[a - s0..]) == Depth(At(v, events, |events|, s).book)
  {
    var n := |events|;
    var p := SomeEventHasSequence(v, events, s, i, a);
    StreamIsGapFree(v, events, s, 0, n);
    StreamIsGapFree(v, events, s, 0, p);
    StreamIsGapFree(v, events, s, p, n);
    StreamSplits(v, events, s, 0, p, n);
    assert Stream(v, events, s, 0, n)[a - InstrumentAt(v, s).sequence..] == Stream(v, events, s, p, n);
    OverlapConverges(v, events, s, p, i, n);
  }
}
