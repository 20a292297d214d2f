/**
 The algebra of folding maker fills into the aggregate: a closed form that forgets
 the order of the fills, permutation invariance of state and touched levels, and
 conservation of resting quantity across whole outcomes.
 */
module FillAlgebra {
  import opened Collections
  import opened Words
  import opened Envelope
  import opened L2Book

  /** Everything the maker legs for one order ask for. */
  function MakerTotal(fills: seq<Fill>, id: OrderId): nat {
    if fills == [] then 0
    else (if fills[0].liquidity.Maker? && fills[0].orderId == id then fills[0].quantity else 0)
         + MakerTotal(fills[1..], id)
  }

  ghost predicate PositiveOrders(orders: Orders) {
    forall id :: id in orders ==> orders[id].remaining > 0
  }

  /** The orders left when each maker has lost the sum of its fills, or everything it had. */
  ghost function Consumed(orders: Orders, fills: seq<Fill>): Orders {
    map id | id in orders && MakerTotal(fills, id) < orders[id].remaining ::
      orders[id].(remaining := orders[id].remaining - MakerTotal(fills, id))
  }

  /** The levels of the resting makers that appear in the fills. */
  ghost function FilledLevels(orders: Orders, fills: seq<Fill>): set<Level> {
    set f | f in fills && f.liquidity.Maker? && f.orderId in orders :: LevelOf(orders[f.orderId])
  }

  lemma ConsumedShrinks(orders: Orders, fills: seq<Fill>)
    ensures Consumed(orders, fills).Keys <= orders.Keys
  {}

  lemma ConsumedStep(orders: Orders, f: Fill, rest: seq<Fill>)
    requires PositiveOrders(orders) && f.liquidity.Maker?
    ensures Consumed(OrderStep(orders, Consume(f.orderId, f.quantity)), rest) == Consumed(orders, [f] + rest)
  {
    var next := OrderStep(orders, Consume(f.orderId, f.quantity));
    var a, b := Consumed(next, rest), Consumed(orders, [f] + rest);
    forall id ensures id in a <==> id in b
              ensures id in a ==> a[id] == b[id] {
      assert ([f] + rest)[1..] == rest;
      assert MakerTotal([f] + rest, id) == (if f.orderId == id then f.quantity else 0) + MakerTotal(rest, id);
    }
  }

  /** Folding maker fills one at a time reaches the closed form. */
  lemma {:induction false} ConsumedIsFold(orders: Orders, fills: seq<Fill>)
    requires PositiveOrders(orders)
    ensures OrdersAfter(orders, MakerEffects(fills)) == Consumed(orders, fills)
    decreases |fills|
  {
    if fills == [] {
      assert Consumed(orders, fills) == orders;
    } else {
      var f, rest := fills[0], fills[1..];
      assert fills == [f] + rest;
      if f.liquidity.Maker? {
        var e := Consume(f.orderId, f.quantity);
        assert MakerEffects(fills)[1..] == MakerEffects(rest);
        ConsumedIsFold(OrderStep(orders, e), rest);
        ConsumedStep(orders, f, rest);
      } else {
        ConsumedIsFold(orders, rest);
        assert forall id :: MakerTotal(fills, id) == MakerTotal(rest, id);
        assert Consumed(orders, fills) == Consumed(orders, rest);
      }
    }
  }

  lemma NothingFilled(orders: Orders)
    ensures FilledLevels(orders, []) == {}
  {}

  /** A consume keeps the level of its order, so later fills of that order add no level of their own. */
  lemma FilledLevelsStep(orders: Orders, fills: seq<Fill>)
    requires fills != []
    ensures var f, rest := fills[0], fills[1..];
            FilledLevels(orders, fills)
            == if f.liquidity.Maker?
               then TouchedBy(orders, Consume(f.orderId, f.quantity)) + FilledLevels(OrderStep(orders, Consume(f.orderId, f.quantity)), rest)
               else FilledLevels(orders, rest)
  {
    assert forall g :: g in fills <==> g == fills[0] || g in fills[1..];
  }

  lemma {:induction false} FilledLevelsIsFold(orders: Orders, fills: seq<Fill>)
    ensures TouchedAll(orders, MakerEffects(fills)) == FilledLevels(orders, fills)
    decreases |fills|
  {
    hide FilledLevels, OrderStep, TouchedBy;
    if fills == [] {
      NothingFilled(orders);
    } else {
      var f, rest := fills[0], fills[1..];
      FilledLevelsStep(orders, fills);
      if f.liquidity.Maker? {
        assert MakerEffects(fills)[1..] == MakerEffects(rest);
        FilledLevelsIsFold(OrderStep(orders, Consume(f.orderId, f.quantity)), rest);
      } else {
        FilledLevelsIsFold(orders, rest);
      }
    }
  }

  // ---------------------------------------------------------------- the order of fills

  /** Taking from two levels, or twice from one, leaves the same levels in either order. */
  lemma ReductionsCommute(b: BookState, l: Level, x: u64, k: Level, y: u64)
    ensures ReduceLevel(ReduceLevel(b, l, x), k, y) == ReduceLevel(ReduceLevel(b, k, y), l, x)
  {
    if l == k {
      TakeTwice(b, l, x, y);
      TakeTwice(b, l, y, x);
    } else if l.side == k.side {
      TakeApart(b, l.side, l.price, x, k.price, y);
    }
  }

  /** What one reduction does to the levels of a side. */
  function Reduced(levels: map<u64, u64>, price: u64, amount: nat): map<u64, u64> {
    if price !in levels then levels
    else if amount < levels[price] then levels[price := levels[price] - amount]
    else levels - {price}
  }

  lemma ReduceIsReduced(b: BookState, l: Level, amount: u64)
    ensures ReduceLevel(b, l, amount) == WithLevels(b, l.side, Reduced(SideLevels(b, l.side), l.price, amount))
  {}

  lemma ReducedTwice(levels: map<u64, u64>, price: u64, x: nat, y: nat)
    ensures Reduced(Reduced(levels, price, x), price, y) == Reduced(levels, price, x + y)
  {}

  lemma ReducedApart(levels: map<u64, u64>, p: u64, x: nat, q: u64, y: nat)
    requires p != q
    ensures Reduced(Reduced(levels, p, x), q, y) == Reduced(Reduced(levels, q, y), p, x)
  {}

  lemma TakeTwice(b: BookState, l: Level, x: u64, y: u64)
    ensures ReduceLevel(ReduceLevel(b, l, x), l, y) == WithLevels(b, l.side, Reduced(SideLevels(b, l.side), l.price, x + y))
  {
    hide ReduceLevel, Reduced;
    ReduceIsReduced(b, l, x);
    ReduceIsReduced(ReduceLevel(b, l, x), l, y);
    ReducedTwice(SideLevels(b, l.side), l.price, x, y);
  }

  lemma TakeApart(b: BookState, side: BookSide, p: u64, x: u64, q: u64, y: u64)
    requires p != q
    ensures var l, k := Level(side, p), Level(side, q);
            ReduceLevel(ReduceLevel(b, l, x), k, y) == ReduceLevel(ReduceLevel(b, k, y), l, x)
  {
    hide ReduceLevel, Reduced;
    var l, k := Level(side, p), Level(side, q);
    ReduceIsReduced(b, l, x);
    ReduceIsReduced(b, k, y);
    ReduceIsReduced(ReduceLevel(b, l, x), k, y);
    ReduceIsReduced(ReduceLevel(b, k, y), l, x);
    ReducedApart(SideLevels(b, side), p, x, q, y);
  }

  /** What a consume takes off its level. */
  function Taken(orders: Orders, e: Effect): u64
    requires e.Consume?
  {
    if e.id in orders then Min(e.quantity, orders[e.id].remaining) else 0
  }

  /** The levels after two consumes of different orders, or of one. */
  lemma ConsumesCommute(b: BookState, c: Effect, d: Effect)
    requires c.Consume? && d.Consume?
    ensures ApplyEffect(ApplyEffect(b, c), d) == ApplyEffect(ApplyEffect(b, d), c)
  {
    OrdersCommute(b.orders, c, d);
    if c.id == d.id {
      SameOrderCommutes(b, c, d);
    } else if c.id in b.orders && d.id in b.orders {
      OtherOrdersCommute(b, c, d);
    }
  }

  lemma OrdersCommute(orders: Orders, c: Effect, d: Effect)
    requires c.Consume? && d.Consume?
    ensures OrderStep(OrderStep(orders, c), d) == OrderStep(OrderStep(orders, d), c)
  {}

  lemma ConsumeParts(b: BookState, e: Effect)
    requires e.Consume? && e.id in b.orders
    ensures ApplyEffect(b, e)
         == ReduceLevel(b, LevelOf(b.orders[e.id]), Taken(b.orders, e)).(orders := OrderStep(b.orders, e))
  {}

  lemma ReduceIgnoresOrders(b: BookState, orders: Orders, l: Level, amount: u64)
    ensures ReduceLevel(b.(orders := orders), l, amount) == ReduceLevel(b, l, amount).(orders := orders)
  {}

  lemma OtherOrdersCommute(b: BookState, c: Effect, d: Effect)
    requires c.Consume? && d.Consume? && c.id != d.id && c.id in b.orders && d.id in b.orders
    ensures ApplyEffect(ApplyEffect(b, c), d) == ApplyEffect(ApplyEffect(b, d), c)
  {
    TwoConsumes(b, c, d);
    TwoConsumes(b, d, c);
    OrdersCommute(b.orders, c, d);
    hide ReduceLevel, ApplyEffect, OrderStep, Taken;
    ReductionsCommute(b, LevelOf(b.orders[c.id]), Taken(b.orders, c), LevelOf(b.orders[d.id]), Taken(b.orders, d));
  }

  /** A consume leaves another order as it is, so the second takes what it would have taken first. */
  lemma TwoConsumes(b: BookState, c: Effect, d: Effect)
    requires c.Consume? && d.Consume? && c.id != d.id && c.id in b.orders && d.id in b.orders
    ensures ApplyEffect(ApplyEffect(b, c), d)
         == ReduceLevel(ReduceLevel(b, LevelOf(b.orders[c.id]), Taken(b.orders, c)), LevelOf(b.orders[d.id]), Taken(b.orders, d))
              .(orders := OrderStep(OrderStep(b.orders, c), d))
  {
    hide ReduceLevel, ApplyEffect;
    var next := OrderStep(b.orders, c);
    assert d.id in next && next[d.id] == b.orders[d.id];
    hide OrderStep;
    ConsumeParts(b, c);
    ConsumeParts(ApplyEffect(b, c), d);
    ReduceIgnoresOrders(ReduceLevel(b, LevelOf(b.orders[c.id]), Taken(b.orders, c)), next,
                        LevelOf(b.orders[d.id]), Taken(b.orders, d));
  }

  /** Two consumes of one order take the sum of what they ask for, or all it has. */
  lemma SameOrderTakes(b: BookState, c: Effect, d: Effect)
    requires c.Consume? && d.Consume? && c.id == d.id && c.id in b.orders
    ensures var l, have := LevelOf(b.orders[c.id]), b.orders[c.id].remaining;
            ApplyEffect(ApplyEffect(b, c), d)
            == WithLevels(b, l.side, Reduced(SideLevels(b, l.side), l.price, Min(c.quantity + d.quantity, have)))
                 .(orders := OrderStep(OrderStep(b.orders, c), d))
  {
    hide ReduceLevel, ApplyEffect, Reduced;
    var l, next := LevelOf(b.orders[c.id]), OrderStep(b.orders, c);
    ConsumeParts(b, c);
    ReduceIsReduced(b, l, Taken(b.orders, c));
    if c.id in next {
      assert LevelOf(next[c.id]) == l;
      ConsumeParts(ApplyEffect(b, c), d);
      ReduceIgnoresOrders(ReduceLevel(b, l, Taken(b.orders, c)), next, l, Taken(next, d));
      TakeTwice(b, l, Taken(b.orders, c), Taken(next, d));
    } else {
      ConsumeAbsent(ApplyEffect(b, c), d);
    }
  }

  lemma ConsumeAbsent(b: BookState, e: Effect)
    requires e.Consume? && e.id !in b.orders
    ensures ApplyEffect(b, e) == b && OrderStep(b.orders, e) == b.orders
  {}

  lemma SameOrderCommutes(b: BookState, c: Effect, d: Effect)
    requires c.Consume? && d.Consume? && c.id == d.id
    ensures ApplyEffect(ApplyEffect(b, c), d) == ApplyEffect(ApplyEffect(b, d), c)
  {
    hide ApplyEffect, OrderStep, Reduced;
    if c.id in b.orders {
      SameOrderTakes(b, c, d);
      SameOrderTakes(b, d, c);
      OrdersCommute(b.orders, c, d);
    } else {
      ConsumeAbsent(b, c);
      ConsumeAbsent(b, d);
    }
  }

  /** One fill folded; taker legs do nothing. */
  function FoldFill(b: BookState, f: Fill): BookState {
    if f.liquidity.Maker? then ApplyEffect(b, Consume(f.orderId, f.quantity)) else b
  }

  function FoldFills(b: BookState, fills: seq<Fill>): BookState
    decreases |fills|
  {
    if fills == [] then b else FoldFills(FoldFill(b, fills[0]), fills[1..])
  }

  lemma {:induction false} FoldFillsIsFold(b: BookState, fills: seq<Fill>)
    ensures FoldFills(b, fills) == ApplyAll(b, MakerEffects(fills))
    decreases |fills|
  {
    hide ApplyEffect;
    if fills != [] {
      FoldFillsIsFold(FoldFill(b, fills[0]), fills[1..]);
      if fills[0].liquidity.Maker? {
        assert MakerEffects(fills)[1..] == MakerEffects(fills[1..]);
      }
    }
  }

  lemma FillsSwap(b: BookState, f: Fill, g: Fill)
    ensures FoldFill(FoldFill(b, f), g) == FoldFill(FoldFill(b, g), f)
  {
    hide ApplyEffect;
    if f.liquidity.Maker? && g.liquidity.Maker? {
      ConsumesCommute(b, Consume(f.orderId, f.quantity), Consume(g.orderId, g.quantity));
    }
  }

  /** A fill may be folded before everything that precedes it. */
  lemma {:induction false} FillMovesFirst(b: BookState, before: seq<Fill>, f: Fill, after: seq<Fill>)
    ensures FoldFills(b, before + [f] + after) == FoldFills(FoldFill(b, f), before + after)
    decreases |before|
  {
    hide FoldFill;
    if before == [] {
      assert before + [f] + after == [f] + after && before + after == after;
      assert ([f] + after)[1..] == after;
    } else {
      var g, tail := before[0], before[1..];
      assert (before + [f] + after)[1..] == tail + [f] + after && (before + after)[1..] == tail + after;
      FillMovesFirst(FoldFill(b, g), tail, f, after);
      FillsSwap(b, f, g);
    }
  }

  lemma MultisetWithout<T>(s: seq<T>, i: nat)
    requires i < |s|
    ensures multiset(s[..i] + s[i + 1..]) == multiset(s) - multiset{s[i]}
    ensures s == s[..i] + [s[i]] + s[i + 1..]
  {
    assert s == s[..i] + [s[i]] + s[i + 1..];
  }

  lemma {:induction false} FoldPermutes(b: BookState, fills: seq<Fill>, permuted: seq<Fill>)
    requires multiset(fills) == multiset(permuted)
    ensures FoldFills(b, fills) == FoldFills(b, permuted)
    decreases |fills|
  {
    hide FoldFill;
    if fills == [] {
      assert |multiset(permuted)| == 0;
    } else {
      var f := fills[0];
      assert f in multiset(permuted);
      var i :| 0 <= i < |permuted| && permuted[i] == f;
      MultisetWithout(permuted, i);
      MultisetWithout(fills, 0);
      assert fills[..0] + fills[1..] == fills[1..];
      FillMovesFirst(b, permuted[..i], f, permuted[i + 1..]);
      FoldPermutes(FoldFill(b, f), fills[1..], permuted[..i] + permuted[i + 1..]);
    }
  }

  /**
   Fold order does not matter, on any aggregate, whether or not its levels agree with its
   orders: any permutation of a fill list leaves it in the same state and touches the same
   levels.
   */
  lemma FillOrderIrrelevant(b: BookState, fills: seq<Fill>, permuted: seq<Fill>)
    requires multiset(fills) == multiset(permuted)
    ensures ApplyAll(b, MakerEffects(fills)) == ApplyAll(b, MakerEffects(permuted))
    ensures TouchedAll(b.orders, MakerEffects(fills)) == TouchedAll(b.orders, MakerEffects(permuted))
  {
    FoldPermutes(b, fills, permuted);
    FoldFillsIsFold(b, fills);
    FoldFillsIsFold(b, permuted);
    FilledLevelsPermute(b.orders, fills, permuted);
    FilledLevelsIsFold(b.orders, fills);
    FilledLevelsIsFold(b.orders, permuted);
  }

  lemma FoldedOrders(b: BookState, es: seq<Effect>)
    ensures ApplyAll(b, es).orders == OrdersAfter(b.orders, es)
  {
    ApplyAllAppend(b, es, []);
  }

  lemma FilledLevelsPermute(orders: Orders, fills: seq<Fill>, permuted: seq<Fill>)
    requires multiset(fills) == multiset(permuted)
    ensures FilledLevels(orders, fills) == FilledLevels(orders, permuted)
  {
    forall f ensures f in fills <==> f in permuted {
      assert f in fills <==> f in multiset(fills);
      assert f in permuted <==> f in multiset(permuted);
    }
  }

  // ---------------------------------------------------------------- conservation

  ghost function Quantities(orders: Orders): map<OrderId, nat> {
    map id | id in orders :: orders[id].remaining
  }

  /** Everything that rests on the instrument. */
  ghost function RestingTotal(orders: Orders): nat {
    Total(Quantities(orders))
  }

  function Remaining(orders: Orders, id: OrderId): nat {
    if id in orders then orders[id].remaining else 0
  }

  /** Each maker loses the sum of its fills, capped by what it had; nobody else loses anything. */
  lemma EachMakerLoses(orders: Orders, fills: seq<Fill>, id: OrderId)
    requires PositiveOrders(orders)
    ensures Remaining(OrdersAfter(orders, MakerEffects(fills)), id)
         == Remaining(orders, id) - Min(MakerTotal(fills, id), Remaining(orders, id))
  {
    ConsumedIsFold(orders, fills);
  }

  ghost function Losses(orders: Orders, fills: seq<Fill>): map<OrderId, nat> {
    map id | id in orders :: Min(MakerTotal(fills, id), orders[id].remaining)
  }

  ghost function ConsumedAmount(orders: Orders, fills: seq<Fill>): nat {
    Total(Losses(orders, fills))
  }

  ghost function RemovedAmount(orders: Orders, ids: seq<OrderId>): nat {
    Total(map id | id in orders && id in ids :: orders[id].remaining)
  }

  lemma ConsumedConserves(orders: Orders, fills: seq<Fill>)
    ensures RestingTotal(Consumed(orders, fills)) + ConsumedAmount(orders, fills) == RestingTotal(orders)
  {
    var kept := Consumed(orders, fills);
    var padded: map<OrderId, nat> := map id | id in orders :: Remaining(kept, id);
    TotalPointwise(padded, Losses(orders, fills), Quantities(orders));
    TotalIgnoresZeros(padded, Quantities(kept));
  }

  lemma RemovalsConserve(orders: Orders, ids: seq<OrderId>)
    ensures RestingTotal(OrdersAfter(orders, RemoveEffects(ids))) + RemovedAmount(orders, ids) == RestingTotal(orders)
  {
    RemovalsAreFold(orders, ids);
    var kept := OrdersAfter(orders, RemoveEffects(ids));
    var gone: map<OrderId, nat> := map id | id in orders && id in ids :: orders[id].remaining;
    var keptPadded: map<OrderId, nat> := map id | id in orders :: Remaining(kept, id);
    var gonePadded: map<OrderId, nat> := map id | id in orders :: if id in ids then orders[id].remaining else 0;
    TotalPointwise(keptPadded, gonePadded, Quantities(orders));
    TotalIgnoresZeros(keptPadded, Quantities(kept));
    TotalIgnoresZeros(gonePadded, gone);
  }

  lemma {:induction false} RemovalsAreFold(orders: Orders, ids: seq<OrderId>)
    ensures OrdersAfter(orders, RemoveEffects(ids)) == map id | id in orders && id !in ids :: orders[id]
    decreases |ids|
  {
    if ids != [] {
      assert RemoveEffects(ids)[1..] == RemoveEffects(ids[1..]);
      RemovalsAreFold(orders - {ids[0]}, ids[1..]);
    } else {
      assert orders == map id | id in orders && id !in ids :: orders[id];
    }
  }

  /** The one order a placement leaves resting: nothing, or a single rest effect. */
  ghost predicate IsRestTail(es: seq<Effect>) {
    es == [] || (|es| == 1 && es[0].Rest?)
  }

  function RestedQuantity(es: seq<Effect>): nat {
    if es != [] && es[0].Rest? then es[0].quantity else 0
  }

  /**
   Conservation over one placement: cancel `first`, match `fills`, remove the
   self-trade legs `stp`, rest the tail. What rests afterwards, plus what was
   matched and what was removed, is what rested before plus the new remainder.
   */
  lemma PlacementConserves(orders: Orders, first: seq<OrderId>, fills: seq<Fill>, stp: seq<OrderId>, tail: seq<Effect>)
    requires PositiveOrders(orders) && IsRestTail(tail)
    requires var open := OrdersAfter(orders, RemoveEffects(first));
             tail != [] ==> tail[0].id !in OrdersAfter(Consumed(open, fills), RemoveEffects(stp))
    ensures var open := OrdersAfter(orders, RemoveEffects(first));
            RestingTotal(OrdersAfter(orders, RemoveEffects(first) + (MakerEffects(fills) + RemoveEffects(stp) + tail)))
            + RemovedAmount(orders, first) + ConsumedAmount(open, fills) + RemovedAmount(Consumed(open, fills), stp)
            == RestingTotal(orders) + RestedQuantity(tail)
  {
    hide Consumed, ConsumedAmount, RemovedAmount, RestingTotal, MakerEffects, RemoveEffects;
    var open := OrdersAfter(orders, RemoveEffects(first));
    var matched := Consumed(open, fills);
    var swept := OrdersAfter(matched, RemoveEffects(stp));
    RemovalsAreFold(orders, first);
    RemovalsConserve(orders, first);
    ConsumedIsFold(open, fills);
    ConsumedConserves(open, fills);
    RemovalsConserve(matched, stp);
    OrdersAppend(orders, RemoveEffects(first), MakerEffects(fills) + RemoveEffects(stp) + tail);
    OrdersAppend(open, MakerEffects(fills) + RemoveEffects(stp), tail);
    OrdersAppend(open, MakerEffects(fills), RemoveEffects(stp));
    RestAdds(swept, tail);
  }

  lemma RestAdds(orders: Orders, tail: seq<Effect>)
    requires IsRestTail(tail) && (tail != [] ==> tail[0].id !in orders)
    ensures RestingTotal(OrdersAfter(orders, tail)) == RestingTotal(orders) + RestedQuantity(tail)
  {
    if tail != [] {
      var done := OrdersAfter(orders, tail);
      assert done == OrdersAfter(OrderStep(orders, tail[0]), tail[1..]);
      if tail[0].quantity > 0 {
        assert Quantities(done) == Quantities(orders)[tail[0].id := tail[0].quantity];
        assert Quantities(orders) - {tail[0].id} == Quantities(orders);
        TotalUpdate(Quantities(orders), tail[0].id, tail[0].quantity);
      }
    }
  }

  lemma OrdersAppend(orders: Orders, es: seq<Effect>, more: seq<Effect>)
    ensures OrdersAfter(orders, es + more) == OrdersAfter(OrdersAfter(orders, es), more)
  {
    ApplyAllAppend(BookState(map[], map[], orders), es, more);
  }

  /** Conservation for a committed limit add. */
  lemma AddConserves(orders: Orders, command: VenueCommand, outcome: VenueOutcome)
    requires PositiveOrders(orders) && outcome.Added? && command.AddOrder?
    requires command.orderId !in orders
    ensures var rested := if command.limitPrice.Some? then outcome.restingQuantity else 0;
            RestingTotal(OrdersAfter(orders, Effects(command, outcome)))
            + ConsumedAmount(orders, outcome.fills)
            + RemovedAmount(Consumed(orders, outcome.fills), outcome.stpCancelled)
            == RestingTotal(orders) + rested
  {
    var tail := RestEffects(command.orderId, command.side, command.limitPrice, outcome.restingQuantity);
    RemovalsAreFold(orders, []);
    RemovalsAreFold(Consumed(orders, outcome.fills), outcome.stpCancelled);
    PlacementConserves(orders, [], outcome.fills, outcome.stpCancelled, tail);
    assert RemoveEffects([]) + (MakerEffects(outcome.fills) + RemoveEffects(outcome.stpCancelled) + tail)
        == Effects(command, outcome);
    var none: map<OrderId, nat> := map id | id in orders && id in [] :: orders[id].remaining;
    TotalZero(none);
  }

  /** Conservation for a committed replace whose add leg was not rejected. */
  lemma ReplaceConserves(orders: Orders, command: VenueCommand, outcome: VenueOutcome)
    requires PositiveOrders(orders) && outcome.Replaced? && command.Replace? && !outcome.add.AddRejected?
    requires command.newOrderId !in orders
    ensures var first := if outcome.cancelled then [command.orderId] else [];
            var open := OrdersAfter(orders, RemoveEffects(first));
            var rested := if outcome.add.Rested? && command.limitPrice.Some? then outcome.add.restingQuantity else 0;
            RestingTotal(OrdersAfter(orders, Effects(command, outcome)))
            + RemovedAmount(orders, first)
            + ConsumedAmount(open, outcome.add.fills)
            + RemovedAmount(Consumed(open, outcome.add.fills), outcome.add.stpCancelled)
            == RestingTotal(orders) + rested
  {
    hide Consumed, ConsumedAmount, RemovedAmount, RestingTotal, MakerEffects, OrdersAfter;
    var first := if outcome.cancelled then [command.orderId] else [];
    var add := outcome.add;
    var tail := if add.Rested?
                then RestEffects(command.newOrderId, command.side, command.limitPrice, add.restingQuantity) else [];
    var open := OrdersAfter(orders, RemoveEffects(first));
    RemovalsAreFold(orders, first);
    RemovalsAreFold(Consumed(open, add.fills), add.stpCancelled);
    ConsumedShrinks(open, add.fills);
    PlacementConserves(orders, first, add.fills, add.stpCancelled, tail);
    assert RemoveEffects(first) == (if outcome.cancelled then [Remove(command.orderId)] else []);
    assert MakerEffects(add.fills) + RemoveEffects(add.stpCancelled) + tail == AddEffects(command, add);
  }
}
