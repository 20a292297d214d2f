/**
 The event-sourced L2 aggregate of one instrument as a value: price levels per side
 kept beside the map of resting orders they summarise. Every committed outcome is a
 list of primitive effects; this module says what each effect does to the two
 structures and proves that the levels stay an exact index of the orders.
 */
module L2Book {
  import opened Collections
  import opened Words
  import opened Envelope

  datatype BookSide = Bid | Ask

  datatype Level = Level(side: BookSide, price: u64)

  datatype RestingOrder = RestingOrder(side: BookSide, price: u64, remaining: u64)

  type Orders = map<OrderId, RestingOrder>

  datatype BookState = BookState(bids: map<u64, u64>, asks: map<u64, u64>, orders: Orders)

  const EMPTY_BOOK := BookState(map[], map[], map[])

  const MAX_ORDER_QUANTITY := 1_000_000

  function BookSideOf(side: Side): BookSide {
    match side
    case Buy => Bid
    case Sell => Ask
  }

  function LevelOf(order: RestingOrder): Level {
    Level(order.side, order.price)
  }

  function SideLevels(b: BookState, side: BookSide): map<u64, u64> {
    match side
    case Bid => b.bids
    case Ask => b.asks
  }

  function WithLevels(b: BookState, side: BookSide, levels: map<u64, u64>): BookState {
    match side
    case Bid => b.(bids := levels)
    case Ask => b.(asks := levels)
  }

  function QtyAt(b: BookState, l: Level): u64 {
    var levels := SideLevels(b, l.side);
    if l.price in levels then levels[l.price] else 0
  }

  // ---------------------------------------------------------------- primitive effects

  datatype Effect =
    | Consume(id: OrderId, quantity: u64)
    | Remove(id: OrderId)
    | Rest(id: OrderId, side: BookSide, price: u64, quantity: u64)

  /** Lowers a level, clamping at zero and dropping the level when nothing is left. */
  function ReduceLevel(b: BookState, l: Level, amount: u64): BookState {
    var levels := SideLevels(b, l.side);
    if l.price !in levels then b
    else
      var left := if amount <= levels[l.price] then levels[l.price] - amount else 0;
      WithLevels(b, l.side, if left == 0 then levels - {l.price} else levels[l.price := left])
  }

  function RaiseLevel(b: BookState, l: Level, amount: u64): BookState {
    var sum := QtyAt(b, l) + amount;
    WithLevels(b, l.side, SideLevels(b, l.side)[l.price := if sum <= U64_MAX then sum else U64_MAX])
  }

  function Min(a: nat, b: nat): nat {
    if a <= b then a else b
  }

  /** What an effect does to the resting orders alone. */
  function OrderStep(orders: Orders, e: Effect): Orders {
    match e
    case Consume(id, quantity) =>
      if id !in orders then orders
      else if quantity < orders[id].remaining then
        orders[id := orders[id].(remaining := orders[id].remaining - quantity)]
      else orders - {id}
    case Remove(id) => orders - {id}
    case Rest(id, side, price, quantity) =>
      if quantity == 0 then orders else orders[id := RestingOrder(side, price, quantity)]
  }

  function ApplyEffect(b: BookState, e: Effect): BookState {
    var next := match e {
      case Consume(id, quantity) =>
        if id !in b.orders then b
        else ReduceLevel(b, LevelOf(b.orders[id]), Min(quantity, b.orders[id].remaining))
      case Remove(id) =>
        if id !in b.orders then b
        else ReduceLevel(b, LevelOf(b.orders[id]), b.orders[id].remaining)
      case Rest(id, side, price, quantity) =>
        if quantity == 0 then b else RaiseLevel(b, Level(side, price), quantity)
    };
    next.(orders := OrderStep(b.orders, e))
  }

  /** The levels an effect touches, whether or not their quantity ends up different. */
  function TouchedBy(orders: Orders, e: Effect): set<Level> {
    match e
    case Rest(id, side, price, quantity) => if quantity == 0 then {} else {Level(side, price)}
    case _ => if e.id in orders then {LevelOf(orders[e.id])} else {}
  }

  function ApplyAll(b: BookState, es: seq<Effect>): BookState
    decreases |es|
  {
    if es == [] then b else ApplyAll(ApplyEffect(b, es[0]), es[1..])
  }

  function OrdersAfter(orders: Orders, es: seq<Effect>): Orders
    decreases |es|
  {
    if es == [] then orders else OrdersAfter(OrderStep(orders, es[0]), es[1..])
  }

  function TouchedAll(orders: Orders, es: seq<Effect>): set<Level>
    decreases |es|
  {
    if es == [] then {} else TouchedBy(orders, es[0]) + TouchedAll(OrderStep(orders, es[0]), es[1..])
  }

  // ---------------------------------------------------------------- outcomes as effects

  function MakerEffects(fills: seq<Fill>): seq<Effect> {
    if fills == [] then []
    else if fills[0].liquidity.Maker? then
      [Consume(fills[0].orderId, fills[0].quantity)] + MakerEffects(fills[1..])
    else MakerEffects(fills[1..])
  }

  function RemoveEffects(ids: seq<OrderId>): seq<Effect> {
    if ids == [] then [] else [Remove(ids[0])] + RemoveEffects(ids[1..])
  }

  /** An add rests its remainder only when it is a priced order with something left. */
  function RestEffects(id: OrderId, side: Side, limitPrice: Option<u64>, quantity: u64): seq<Effect> {
    if quantity > 0 && limitPrice.Some? then [Rest(id, BookSideOf(side), limitPrice.value, quantity)] else []
  }

  /** The primitive effects of a committed outcome, in the order they are folded. */
  function Effects(command: VenueCommand, outcome: VenueOutcome): seq<Effect> {
    match outcome
    case Added(fills, resting, stp) =>
      MakerEffects(fills) + RemoveEffects(stp)
      + (if command.AddOrder? then RestEffects(command.orderId, command.side, command.limitPrice, resting) else [])
    case Market(fills, _, stp) => MakerEffects(fills) + RemoveEffects(stp)
    case Cancelled(id) => [Remove(id)]
    case Replaced(cancelled, add) =>
      (if cancelled && command.Replace? then [Remove(command.orderId)] else []) + AddEffects(command, add)
    case MassCancelled(affected) => RemoveEffects(affected)
    case ControlApplied(swept) => RemoveEffects(swept)
    case Evicted(evicted) => RemoveEffects(evicted)
    case InstrumentStatusChanged => []
    case Rejected => []
    case Duplicate(_, _) => []
  }

  function AddEffects(command: VenueCommand, add: AddOutcome): seq<Effect> {
    match add
    case Filled(fills, stp) => MakerEffects(fills) + RemoveEffects(stp)
    case Rested(fills, resting, stp) =>
      MakerEffects(fills) + RemoveEffects(stp)
      + (if command.Replace? then RestEffects(command.newOrderId, command.side, command.limitPrice, resting) else [])
    case AddRejected => []
  }

  lemma {:induction false} ApplyAllAppend(b: BookState, es: seq<Effect>, more: seq<Effect>)
    ensures ApplyAll(b, es + more) == ApplyAll(ApplyAll(b, es), more)
    ensures ApplyAll(b, es).orders == OrdersAfter(b.orders, es)
    ensures OrdersAfter(b.orders, es + more) == OrdersAfter(OrdersAfter(b.orders, es), more)
    ensures TouchedAll(b.orders, es + more) == TouchedAll(b.orders, es) + TouchedAll(OrdersAfter(b.orders, es), more)
    decreases |es|
  {
    if es == [] {
      assert es + more == more;
    } else {
      assert (es + more)[1..] == es[1..] + more;
      ApplyAllAppend(ApplyEffect(b, es[0]), es[1..], more);
    }
  }

  lemma StepUntouched(b: BookState, e: Effect, l: Level)
    requires l !in TouchedBy(b.orders, e)
    ensures QtyAt(ApplyEffect(b, e), l) == QtyAt(b, l)
  {}

  /** Levels outside the touched set keep their quantity, so listing the touched levels misses no change. */
  lemma {:induction false} UntouchedUnchanged(b: BookState, es: seq<Effect>, l: Level)
    requires l !in TouchedAll(b.orders, es)
    ensures QtyAt(ApplyAll(b, es), l) == QtyAt(b, l)
    decreases |es|
  {
    if es != [] {
      StepUntouched(b, es[0], l);
      hide QtyAt;
      UntouchedUnchanged(ApplyEffect(b, es[0]), es[1..], l);
    }
  }

  ghost predicate NoZeroLevels(b: BookState) {
    && (forall p :: p in b.bids ==> b.bids[p] > 0)
    && (forall p :: p in b.asks ==> b.asks[p] > 0)
  }

  lemma StepKeepsNonZero(b: BookState, e: Effect)
    requires NoZeroLevels(b)
    ensures NoZeroLevels(ApplyEffect(b, e))
  {}

  lemma {:induction false} NoZeroLevelsKept(b: BookState, es: seq<Effect>)
    requires NoZeroLevels(b)
    ensures NoZeroLevels(ApplyAll(b, es))
    decreases |es|
  {
    if es != [] {
      StepKeepsNonZero(b, es[0]);
      hide NoZeroLevels;
      NoZeroLevelsKept(ApplyEffect(b, es[0]), es[1..]);
    }
  }

  // ---------------------------------------------------------------- the index refines the order map

  ghost function AtLevel(orders: Orders, l: Level): map<OrderId, nat> {
    map id | id in orders && LevelOf(orders[id]) == l :: orders[id].remaining
  }

  /** The exact depth at a level: the sum of what rests there. */
  ghost function LevelTotal(orders: Orders, l: Level): nat {
    Total(AtLevel(orders, l))
  }

  /** The levels are exactly the sums of the resting orders, with nothing empty on either side. */
  ghost predicate Agrees(b: BookState) {
    && (forall l :: QtyAt(b, l) == LevelTotal(b.orders, l))
    && NoZeroLevels(b)
    && (forall id :: id in b.orders ==> b.orders[id].remaining > 0)
  }

  lemma LevelTotalWithout(orders: Orders, id: OrderId, l: Level)
    ensures LevelTotal(orders, l)
         == LevelTotal(orders - {id}, l) + if id in orders && LevelOf(orders[id]) == l then orders[id].remaining else 0
  {
    var at := AtLevel(orders, l);
    assert AtLevel(orders - {id}, l) == at - {id};
    TotalUpdate(at, id, 0);
  }

  lemma LevelTotalWith(orders: Orders, id: OrderId, order: RestingOrder, l: Level)
    ensures LevelTotal(orders[id := order], l)
         == LevelTotal(orders - {id}, l) + if LevelOf(order) == l then order.remaining else 0
  {
    LevelTotalWithout(orders[id := order], id, l);
    assert orders[id := order] - {id} == orders - {id};
  }

  lemma EmptyAgrees()
    ensures Agrees(EMPTY_BOOK)
  {
    forall l ensures LevelTotal(EMPTY_BOOK.orders, l) == 0 {
      TotalZero(AtLevel(EMPTY_BOOK.orders, l));
    }
  }

  /** A level that agrees with its orders always covers each of them, so no reduction is ever clamped. */
  lemma LevelCoversOrder(b: BookState, id: OrderId)
    requires Agrees(b) && id in b.orders
    ensures b.orders[id].remaining <= QtyAt(b, LevelOf(b.orders[id]))
  {
    LevelTotalWithout(b.orders, id, LevelOf(b.orders[id]));
  }

  lemma ReduceLevelShows(b: BookState, at: Level, amount: u64, l: Level)
    requires amount <= QtyAt(b, at)
    ensures QtyAt(ReduceLevel(b, at, amount), l) == QtyAt(b, l) - if l == at then amount else 0
  {}

  /** After a reduction each level has lost exactly what the order lost there. */
  lemma ReductionMatches(b: BookState, e: Effect, l: Level)
    requires Agrees(b) && !e.Rest? && e.id in b.orders
    ensures QtyAt(ApplyEffect(b, e), l) == LevelTotal(OrderStep(b.orders, e), l)
  {
    var order := b.orders[e.id];
    var next := OrderStep(b.orders, e);
    var amount := if e.Consume? then Min(e.quantity, order.remaining) else order.remaining;
    LevelCoversOrder(b, e.id);
    LevelTotalWithout(b.orders, e.id, l);
    ReduceLevelShows(b, LevelOf(order), amount, l);
    assert QtyAt(ApplyEffect(b, e), l) == QtyAt(ReduceLevel(b, LevelOf(order), amount), l);
    hide QtyAt, ReduceLevel, LevelTotal, ApplyEffect;
    if e.id in next {
      LevelTotalWith(b.orders, e.id, next[e.id], l);
    }
  }

  lemma ReductionsAgree(b: BookState, e: Effect)
    requires Agrees(b) && !e.Rest?
    ensures Agrees(ApplyEffect(b, e))
  {
    StepKeepsNonZero(b, e);
    if e.id in b.orders {
      forall l ensures QtyAt(ApplyEffect(b, e), l) == LevelTotal(OrderStep(b.orders, e), l) {
        ReductionMatches(b, e, l);
      }
    } else {
      assert ApplyEffect(b, e) == b;
    }
  }

  /** What a rest does to the exact depth of a level: an older order of that id goes, the new one comes. */
  lemma RestedTotal(b: BookState, e: Effect, l: Level)
    requires e.Rest? && e.quantity > 0
    ensures LevelTotal(OrderStep(b.orders, e), l) == LevelTotal(b.orders, l)
              - (if e.id in b.orders && LevelOf(b.orders[e.id]) == l then b.orders[e.id].remaining else 0)
              + (if Level(e.side, e.price) == l then e.quantity else 0)
  {
    hide LevelTotal;
    LevelTotalWith(b.orders, e.id, RestingOrder(e.side, e.price, e.quantity), l);
    LevelTotalWithout(b.orders, e.id, l);
  }

  lemma RestShows(b: BookState, e: Effect, l: Level)
    requires e.Rest? && e.quantity > 0
    ensures QtyAt(ApplyEffect(b, e), l)
         == if l == Level(e.side, e.price) then Min(QtyAt(b, l) + e.quantity, U64_MAX) else QtyAt(b, l)
  {}

  /**
   When one rest keeps the index exact: its id is fresh and the level sum fits; or the id
   already rests at that very level and the sum, clamped at the top of the word, happens
   to be what the level holds once the older order is gone.
   */
  predicate RestExact(b: BookState, e: Effect)
    requires e.Rest?
  {
    var l := Level(e.side, e.price);
    if e.id !in b.orders then QtyAt(b, l) + e.quantity <= U64_MAX
    else LevelOf(b.orders[e.id]) == l && QtyAt(b, l) - b.orders[e.id].remaining + e.quantity == U64_MAX
  }

  /**
   Resting keeps the index exact in exactly those cases. (`orders.insert` overwrites a
   resting id without taking the overwritten quantity off its level.)
   */
  lemma RestAgreesIff(b: BookState, e: Effect)
    requires Agrees(b) && e.Rest? && e.quantity > 0
    ensures Agrees(ApplyEffect(b, e)) <==> RestExact(b, e)
  {
    var next := ApplyEffect(b, e);
    StepKeepsNonZero(b, e);
    assert next.orders == OrderStep(b.orders, e);
    hide LevelTotal, ApplyEffect, QtyAt, NoZeroLevels;
    var l := if e.id in b.orders then LevelOf(b.orders[e.id]) else Level(e.side, e.price);
    RestShows(b, e, l);
    RestedTotal(b, e, l);
    assert QtyAt(next, l) == LevelTotal(next.orders, l) <==> RestExact(b, e);
    if RestExact(b, e) {
      forall l ensures QtyAt(next, l) == LevelTotal(next.orders, l) {
        RestShows(b, e, l);
        RestedTotal(b, e, l);
      }
    }
  }

  /** As long as the level has room, resting keeps the index exact if and only if the id is not already resting. */
  lemma RestAgreesIffFresh(b: BookState, id: OrderId, side: BookSide, price: u64, quantity: u64)
    requires Agrees(b) && quantity > 0
    requires QtyAt(b, Level(side, price)) + quantity <= U64_MAX
    ensures Agrees(ApplyEffect(b, Rest(id, side, price, quantity))) <==> id !in b.orders
  {
    hide ApplyEffect, QtyAt, LevelTotal;
    RestAgreesIff(b, Rest(id, side, price, quantity));
  }

  /** For a fresh id the index stays exact if and only if the level sum still fits 64 bits. */
  lemma RestAgreesIffFits(b: BookState, id: OrderId, side: BookSide, price: u64, quantity: u64)
    requires Agrees(b) && quantity > 0 && id !in b.orders
    ensures Agrees(ApplyEffect(b, Rest(id, side, price, quantity)))
       <==> QtyAt(b, Level(side, price)) + quantity <= U64_MAX
  {
    hide ApplyEffect, QtyAt, Agrees;
    RestAgreesIff(b, Rest(id, side, price, quantity));
  }

  /** Every rest of a list of effects is exact at its moment. */
  ghost predicate EffectsExact(b: BookState, es: seq<Effect>)
    decreases |es|
  {
    es == [] ||
    ((es[0].Rest? && es[0].quantity > 0 ==> RestExact(b, es[0])) && EffectsExact(ApplyEffect(b, es[0]), es[1..]))
  }

  /** Only the last effect may be a rest. */
  predicate RestsLast(es: seq<Effect>) {
    |es| <= 1 || (!es[0].Rest? && RestsLast(es[1..]))
  }

  /** Folding effects of which only the last may rest keeps the index exact exactly when that rest is. */
  lemma {:induction false} FoldAgreesIff(b: BookState, es: seq<Effect>)
    requires Agrees(b) && RestsLast(es)
    ensures Agrees(ApplyAll(b, es)) <==> EffectsExact(b, es)
    decreases |es|
  {
    if es != [] {
      var e, next := es[0], ApplyEffect(b, es[0]);
      if e.Rest? {
        assert es[1..] == [];
        if e.quantity > 0 {
          RestAgreesIff(b, e);
        } else {
          assert next == b;
        }
      } else {
        ReductionsAgree(b, e);
        FoldAgreesIff(next, es[1..]);
      }
    }
  }

  // ---------------------------------------------------------------- a book is determined by its orders

  lemma AgreeingBooksEqual(a: BookState, b: BookState)
    requires Agrees(a) && Agrees(b) && a.orders == b.orders
    ensures a == b
  {
    forall l ensures QtyAt(a, l) == QtyAt(b, l) {}
    forall p: u64 ensures p in a.bids <==> p in b.bids
                  ensures p in a.bids ==> a.bids[p] == b.bids[p] {
      assert QtyAt(a, Level(Bid, p)) == QtyAt(b, Level(Bid, p));
    }
    forall p: u64 ensures p in a.asks <==> p in b.asks
                  ensures p in a.asks ==> a.asks[p] == b.asks[p] {
      assert QtyAt(a, Level(Ask, p)) == QtyAt(b, Level(Ask, p));
    }
    assert a.bids == b.bids;
    assert a.asks == b.asks;
  }

  // ---------------------------------------------------------------- bounded runs never overflow

  ghost predicate BoundedOrders(orders: Orders, count: nat) {
    && |orders| <= count
    && forall id :: id in orders ==> orders[id].remaining <= MAX_ORDER_QUANTITY
  }

  /** Order quantities are capped, so a level holds at most the order count times the cap. */
  lemma BoundedLevel(orders: Orders, count: nat, l: Level)
    requires BoundedOrders(orders, count)
    ensures LevelTotal(orders, l) <= count * MAX_ORDER_QUANTITY
  {
    var at := AtLevel(orders, l);
    TotalBound(at, MAX_ORDER_QUANTITY);
    assert at.Keys <= orders.Keys;
    SubsetCardinality(at.Keys, orders.Keys);
    assert |at| == |at.Keys| && |orders| == |orders.Keys|;
  }

  /** Each rest in a list of effects is new at its moment and within the order-size cap. */
  ghost predicate RestsAdmissible(orders: Orders, es: seq<Effect>)
    decreases |es|
  {
    es == [] ||
    ((es[0].Rest? ==> es[0].id !in orders && es[0].quantity <= MAX_ORDER_QUANTITY)
     && RestsAdmissible(OrderStep(orders, es[0]), es[1..]))
  }

  function RestCount(es: seq<Effect>): nat {
    if es == [] then 0 else (if es[0].Rest? then 1 else 0) + RestCount(es[1..])
  }

  lemma StepBounded(orders: Orders, count: nat, e: Effect)
    requires BoundedOrders(orders, count)
    requires e.Rest? ==> e.quantity <= MAX_ORDER_QUANTITY
    ensures BoundedOrders(OrderStep(orders, e), count + if e.Rest? then 1 else 0)
  {
    var next := OrderStep(orders, e);
    SubsetCardinality(next.Keys - {e.id}, orders.Keys);
    assert next.Keys <= (next.Keys - {e.id}) + {e.id};
    SubsetCardinality(next.Keys, (next.Keys - {e.id}) + {e.id});
    if !e.Rest? {
      SubsetCardinality(next.Keys, orders.Keys);
    }
    assert |next| == |next.Keys| && |orders| == |orders.Keys|;
  }

  /**
   Folding any list of effects whose rests are fresh and within the order-size cap
   keeps the levels an exact index of the orders, while the number of rests so far
   stays below the point where a 64-bit level sum could overflow.
   */
  lemma {:induction false} FoldAgrees(b: BookState, es: seq<Effect>, count: nat)
    requires Agrees(b) && BoundedOrders(b.orders, count)
    requires RestsAdmissible(b.orders, es)
    requires (count + RestCount(es)) * MAX_ORDER_QUANTITY <= U64_MAX
    ensures Agrees(ApplyAll(b, es))
    ensures BoundedOrders(ApplyAll(b, es).orders, count + RestCount(es))
    decreases |es|
  {
    if es != [] {
      var e := es[0];
      StepBounded(b.orders, count, e);
      if e.Rest? && e.quantity > 0 {
        BoundedLevel(b.orders, count, Level(e.side, e.price));
        RestAgreesIffFresh(b, e.id, e.side, e.price, e.quantity);
      } else if e.Rest? {
        assert ApplyEffect(b, e) == b;
      } else {
        ReductionsAgree(b, e);
      }
      FoldAgrees(ApplyEffect(b, e), es[1..], count + if e.Rest? then 1 else 0);
    }
  }
}
