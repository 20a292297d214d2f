/**
 Pairing committed fill legs into public trade prints: one print per execution id
 that has both a maker and a taker leg, in the order the ids first appear.
 */
module TradePairing {
  import opened Collections
  import opened Words
  import opened Envelope
  import opened MarketData

  /** The maker/taker accumulator of one match. */
  datatype TradeAccum = TradeAccum(maker: Option<OrderId>, taker: Option<OrderId>,
                                   price: Option<u64>, quantity: Option<u64>)

  // ---------------------------------------------------------------- specification

  ghost predicate HasLeg(fills: seq<Fill>, id: ExecutionId, liquidity: LiquidityFlag) {
    exists f :: f in fills && f.executionId == id && f.liquidity == liquidity
  }

  ghost predicate Occurs(fills: seq<Fill>, id: ExecutionId) {
    exists f :: f in fills && f.executionId == id
  }

  /** The execution ids in the order they first appear. */
  function FirstSeen(fills: seq<Fill>): seq<ExecutionId> {
    if fills == [] then []
    else
      var earlier := FirstSeen(fills[..|fills| - 1]);
      var id := fills[|fills| - 1].executionId;
      if id in earlier then earlier else earlier + [id]
  }

  /** What the legs of `id` have accumulated; a later leg overwrites an earlier one. */
  function Accumulated(fills: seq<Fill>, id: ExecutionId): TradeAccum {
    if fills == [] then TradeAccum(None, None, None, None)
    else
      var acc := Accumulated(fills[..|fills| - 1], id);
      var f := fills[|fills| - 1];
      if f.executionId == id then AddLeg(acc, f) else acc
  }

  function AddLeg(acc: TradeAccum, f: Fill): TradeAccum {
    var priced := acc.(price := Some(f.price), quantity := Some(f.quantity));
    match f.liquidity
    case Maker => priced.(maker := Some(f.orderId))
    case Taker => priced.(taker := Some(f.orderId))
  }

  function Print(id: ExecutionId, acc: TradeAccum, symbol: Symbol, ts: u64): seq<WsMessage> {
    if acc.price.Some? && acc.quantity.Some? && acc.maker.Some? && acc.taker.Some?
    then [Trade(id, symbol, acc.price.value, acc.quantity.value, ts, acc.maker.value, acc.taker.value)]
    else []
  }

  function Prints(ids: seq<ExecutionId>, fills: seq<Fill>, symbol: Symbol, ts: u64): seq<WsMessage> {
    if ids == [] then []
    else Print(ids[0], Accumulated(fills, ids[0]), symbol, ts) + Prints(ids[1..], fills, symbol, ts)
  }

  function TradesOf(fills: seq<Fill>, symbol: Symbol, ts: u64): seq<WsMessage> {
    Prints(FirstSeen(fills), fills, symbol, ts)
  }

  method PairTrades(fills: seq<Fill>, symbol: Symbol, ts: u64) returns (trades: seq<WsMessage>)
    ensures trades == TradesOf(fills, symbol, ts)
  {
    var order: seq<ExecutionId> := [];
    var byExec: map<ExecutionId, TradeAccum> := map[];
    for i := 0 to |fills|
      invariant order == FirstSeen(fills[..i])
      invariant forall id :: id in byExec <==> id in order
      invariant forall id :: id in byExec ==> byExec[id] == Accumulated(fills[..i], id)
    {
      var fill := fills[i];
      assert fills[..i + 1][..i] == fills[..i];
      if fill.executionId !in byExec {
        AbsentAccumulatesNothing(fills[..i], fill.executionId);
        order := order + [fill.executionId];
        byExec := byExec[fill.executionId := TradeAccum(None, None, None, None)];
      }
      var acc := byExec[fill.executionId].(price := Some(fill.price), quantity := Some(fill.quantity));
      match fill.liquidity {
        case Maker => acc := acc.(maker := Some(fill.orderId));
        case Taker => acc := acc.(taker := Some(fill.orderId));
      }
      byExec := byExec[fill.executionId := acc];
    }
    assert fills[..|fills|] == fills;
    trades := PrintMatches(order, byExec, fills, symbol, ts);
  }

  method PrintMatches(order: seq<ExecutionId>, byExec: map<ExecutionId, TradeAccum>, ghost fills: seq<Fill>,
                      symbol: Symbol, ts: u64) returns (trades: seq<WsMessage>)
    requires forall id :: id in order ==> id in byExec && byExec[id] == Accumulated(fills, id)
    ensures trades == Prints(order, fills, symbol, ts)
  {
    trades := [];
    for i := 0 to |order|
      invariant trades + Prints(order[i..], fills, symbol, ts) == Prints(order, fills, symbol, ts)
    {
      assert order[i] in order;
      assert order[i..][1..] == order[i + 1..];
      trades := trades + Print(order[i], byExec[order[i]], symbol, ts);
    }
  }

  // ---------------------------------------------------------------- what is printed

  lemma {:induction false} FirstSeenListsIds(fills: seq<Fill>)
    ensures forall id :: id in FirstSeen(fills) <==> Occurs(fills, id)
    ensures forall i, j :: 0 <= i < j < |FirstSeen(fills)| ==> FirstSeen(fills)[i] != FirstSeen(fills)[j]
    decreases |fills|
  {
    if fills != [] {
      var n := |fills| - 1;
      FirstSeenListsIds(fills[..n]);
      assert fills == fills[..n] + [fills[n]];
      forall id ensures Occurs(fills, id) <==> Occurs(fills[..n], id) || id == fills[n].executionId {
        assert fills[n] in fills;
      }
    }
  }

  lemma {:induction false} AbsentAccumulatesNothing(fills: seq<Fill>, id: ExecutionId)
    requires id !in FirstSeen(fills)
    ensures Accumulated(fills, id) == TradeAccum(None, None, None, None)
    decreases |fills|
  {
    if fills != [] {
      AbsentAccumulatesNothing(fills[..|fills| - 1], id);
    }
  }

  /** An accumulator is complete exactly when both legs occur, and its fields come from legs of that match. */
  lemma {:induction false} AccumulatedLegs(fills: seq<Fill>, id: ExecutionId)
    ensures var acc := Accumulated(fills, id);
            && (acc.maker.Some? <==> HasLeg(fills, id, Maker))
            && (acc.taker.Some? <==> HasLeg(fills, id, Taker))
            && (acc.price.Some? <==> Occurs(fills, id))
            && (acc.quantity.Some? <==> Occurs(fills, id))
    decreases |fills|
  {
    if fills != [] {
      var n := |fills| - 1;
      AccumulatedLegs(fills[..n], id);
      assert fills == fills[..n] + [fills[n]];
      assert fills[n] in fills;
      assert HasLeg(fills, id, Maker) <==> HasLeg(fills[..n], id, Maker)
                                           || (fills[n].executionId == id && fills[n].liquidity.Maker?);
      assert HasLeg(fills, id, Taker) <==> HasLeg(fills[..n], id, Taker)
                                           || (fills[n].executionId == id && fills[n].liquidity.Taker?);
      assert Occurs(fills, id) <==> Occurs(fills[..n], id) || fills[n].executionId == id;
    }
  }

  function TradeIds(trades: seq<WsMessage>): seq<ExecutionId>
    requires forall t :: t in trades ==> t.Trade?
  {
    if trades == [] then []
    else
      assert trades[0] in trades;
      [trades[0].tradeId] + TradeIds(trades[1..])
  }

  ghost function Complete(ids: seq<ExecutionId>, fills: seq<Fill>): seq<ExecutionId> {
    if ids == [] then []
    else (if HasLeg(fills, ids[0], Maker) && HasLeg(fills, ids[0], Taker) then [ids[0]] else [])
         + Complete(ids[1..], fills)
  }

  lemma {:induction false} PrintsComplete(ids: seq<ExecutionId>, fills: seq<Fill>, symbol: Symbol, ts: u64)
    ensures forall t :: t in Prints(ids, fills, symbol, ts) ==> t.Trade?
    ensures TradeIds(Prints(ids, fills, symbol, ts)) == Complete(ids, fills)
    decreases |ids|
  {
    if ids != [] {
      AccumulatedLegs(fills, ids[0]);
      PrintsComplete(ids[1..], fills, symbol, ts);
      var head := Print(ids[0], Accumulated(fills, ids[0]), symbol, ts);
      assert HasLeg(fills, ids[0], Maker) ==> Occurs(fills, ids[0]);
      if head != [] {
        assert Prints(ids, fills, symbol, ts)[1..] == Prints(ids[1..], fills, symbol, ts);
      } else {
        assert Prints(ids, fills, symbol, ts) == Prints(ids[1..], fills, symbol, ts);
      }
    }
  }

  /**
   For any fill list, the prints name exactly the execution ids that have both legs,
   once each, in first-occurrence order; an id that misses a leg is never printed.
   */
  lemma TradesNameCompleteMatches(fills: seq<Fill>, symbol: Symbol, ts: u64)
    ensures forall t :: t in TradesOf(fills, symbol, ts) ==> t.Trade?
    ensures TradeIds(TradesOf(fills, symbol, ts)) == Complete(FirstSeen(fills), fills)
    ensures forall id :: id in TradeIds(TradesOf(fills, symbol, ts)) <==>
              HasLeg(fills, id, Maker) && HasLeg(fills, id, Taker)
  {
    PrintsComplete(FirstSeen(fills), fills, symbol, ts);
    FirstSeenListsIds(fills);
    forall id ensures id in Complete(FirstSeen(fills), fills) <==> HasLeg(fills, id, Maker) && HasLeg(fills, id, Taker) {
      CompleteMembers(FirstSeen(fills), fills, id);
      assert HasLeg(fills, id, Maker) ==> Occurs(fills, id);
    }
  }

  lemma {:induction false} CompleteMembers(ids: seq<ExecutionId>, fills: seq<Fill>, id: ExecutionId)
    ensures id in Complete(ids, fills) <==> id in ids && HasLeg(fills, id, Maker) && HasLeg(fills, id, Taker)
    decreases |ids|
  {
    if ids != [] {
      CompleteMembers(ids[1..], fills, id);
    }
  }

  // ---------------------------------------------------------------- well-paired fill lists

  /** No two legs of one match share a role, and the legs of a match agree on price and quantity. */
  ghost predicate LegsAgree(fills: seq<Fill>) {
    forall i, j :: 0 <= i < j < |fills| && fills[i].executionId == fills[j].executionId ==>
      fills[i].liquidity != fills[j].liquidity
      && fills[i].price == fills[j].price && fills[i].quantity == fills[j].quantity
  }

  /** Every match has exactly one maker and one taker leg, of equal price and quantity. */
  ghost predicate WellPaired(fills: seq<Fill>) {
    && LegsAgree(fills)
    && forall f :: f in fills ==> HasLeg(fills, f.executionId, Maker) && HasLeg(fills, f.executionId, Taker)
  }

  lemma {:induction false} AccumulatedMatches(fills: seq<Fill>, f: Fill)
    requires LegsAgree(fills) && f in fills
    ensures var acc := Accumulated(fills, f.executionId);
            && acc.price == Some(f.price) && acc.quantity == Some(f.quantity)
            && (f.liquidity.Maker? ==> acc.maker == Some(f.orderId))
            && (f.liquidity.Taker? ==> acc.taker == Some(f.orderId))
    decreases |fills|
  {
    var n := |fills| - 1;
    var last := fills[n];
    assert fills == fills[..n] + [last];
    if last.executionId != f.executionId {
      AccumulatedMatches(fills[..n], f);
    } else if f != last {
      var i :| 0 <= i < |fills| && fills[i] == f;
      assert fills[i].liquidity != fills[n].liquidity;
      assert fills[..n][i] == f;
      AccumulatedMatches(fills[..n], f);
    }
  }

  /** `maker` and `taker` are the two legs of match `id`. */
  ghost predicate IsMatch(fills: seq<Fill>, id: ExecutionId, maker: Fill, taker: Fill) {
    && maker in fills && taker in fills
    && maker.executionId == taker.executionId == id
    && maker.liquidity.Maker? && taker.liquidity.Taker?
  }

  /** In a well-paired list every first-seen id is printed, with the two order ids of its legs. */
  lemma WellPairedTrades(fills: seq<Fill>, symbol: Symbol, ts: u64)
    requires WellPaired(fills)
    ensures |TradesOf(fills, symbol, ts)| == |FirstSeen(fills)|
    ensures forall k, maker, taker :: 0 <= k < |FirstSeen(fills)| && IsMatch(fills, FirstSeen(fills)[k], maker, taker) ==>
              TradesOf(fills, symbol, ts)[k] ==
                Trade(FirstSeen(fills)[k], symbol, maker.price, maker.quantity, ts, maker.orderId, taker.orderId)
  {
    var ids := FirstSeen(fills);
    FirstSeenListsIds(fills);
    forall id | id in ids ensures HasLeg(fills, id, Maker) && HasLeg(fills, id, Taker) {
      assert Occurs(fills, id);
    }
    PrintsOnePerId(ids, fills, symbol, ts);
    forall k, maker, taker | 0 <= k < |ids| && IsMatch(fills, ids[k], maker, taker)
      ensures TradesOf(fills, symbol, ts)[k] ==
                Trade(ids[k], symbol, maker.price, maker.quantity, ts, maker.orderId, taker.orderId) {
      AccumulatedMatches(fills, maker);
      AccumulatedMatches(fills, taker);
    }
  }

  lemma {:induction false} PrintsOnePerId(ids: seq<ExecutionId>, fills: seq<Fill>, symbol: Symbol, ts: u64)
    requires forall id :: id in ids ==> HasLeg(fills, id, Maker) && HasLeg(fills, id, Taker)
    ensures |Prints(ids, fills, symbol, ts)| == |ids|
    ensures forall k :: 0 <= k < |ids| ==>
              Print(ids[k], Accumulated(fills, ids[k]), symbol, ts) == [Prints(ids, fills, symbol, ts)[k]]
    decreases |ids|
  {
    if ids != [] {
      AccumulatedLegs(fills, ids[0]);
      assert Occurs(fills, ids[0]);
      PrintsOnePerId(ids[1..], fills, symbol, ts);
    }
  }

  // ---------------------------------------------------------------- what any fill list prints

  /** Leg `k` is the last one of match `id`. */
  ghost predicate LastLeg(fills: seq<Fill>, id: ExecutionId, k: nat) {
    k < |fills| && fills[k].executionId == id && forall j :: k < j < |fills| ==> fills[j].executionId != id
  }

  /** Leg `k` is the last one of match `id` in this role. */
  ghost predicate LastInRole(fills: seq<Fill>, id: ExecutionId, liquidity: LiquidityFlag, k: nat) {
    && k < |fills| && fills[k].executionId == id && fills[k].liquidity == liquidity
    && forall j :: k < j < |fills| ==> fills[j].executionId != id || fills[j].liquidity != liquidity
  }

  lemma {:induction false} AccumulatedLast(fills: seq<Fill>, id: ExecutionId, k: nat)
    ensures var acc := Accumulated(fills, id);
            && (LastLeg(fills, id, k) ==> acc.price == Some(fills[k].price) && acc.quantity == Some(fills[k].quantity))
            && (LastInRole(fills, id, Maker, k) ==> acc.maker == Some(fills[k].orderId))
            && (LastInRole(fills, id, Taker, k) ==> acc.taker == Some(fills[k].orderId))
    decreases |fills|
  {
    if fills != [] {
      var n := |fills| - 1;
      var earlier := fills[..n];
      AccumulatedLast(earlier, id, k);
      if k < n {
        assert earlier[k] == fills[k];
        assert LastLeg(fills, id, k) ==> LastLeg(earlier, id, k) && fills[n].executionId != id;
        assert LastInRole(fills, id, Maker, k) ==> LastInRole(earlier, id, Maker, k);
        assert LastInRole(fills, id, Taker, k) ==> LastInRole(earlier, id, Taker, k);
      }
    }
  }

  /**
   Whatever the legs, a match with both roles is printed with the price and quantity of
   its last leg and the order ids of its last maker and its last taker leg.
   */
  lemma PrintsLastLegs(fills: seq<Fill>, symbol: Symbol, ts: u64, id: ExecutionId, k: nat, maker: nat, taker: nat)
    requires LastLeg(fills, id, k) && LastInRole(fills, id, Maker, maker) && LastInRole(fills, id, Taker, taker)
    ensures Trade(id, symbol, fills[k].price, fills[k].quantity, ts, fills[maker].orderId, fills[taker].orderId)
         in TradesOf(fills, symbol, ts)
  {
    AccumulatedLast(fills, id, k);
    AccumulatedLast(fills, id, maker);
    AccumulatedLast(fills, id, taker);
    FirstSeenListsIds(fills);
    assert fills[k] in fills;
    assert id in FirstSeen(fills);
    hide FirstSeen, Accumulated;
    PrintedWhenListed(FirstSeen(fills), fills, symbol, ts, id);
  }

  lemma {:induction false} PrintedWhenListed(ids: seq<ExecutionId>, fills: seq<Fill>, symbol: Symbol, ts: u64, id: ExecutionId)
    requires id in ids
    ensures forall t :: t in Print(id, Accumulated(fills, id), symbol, ts) ==> t in Prints(ids, fills, symbol, ts)
    decreases |ids|
  {
    if ids[0] != id {
      assert ids == [ids[0]] + ids[1..];
      PrintedWhenListed(ids[1..], fills, symbol, ts, id);
    }
  }

  /** The ids are in the order of their first legs: an earlier one has a leg before any leg of a later one. */
  lemma {:induction false} FirstSeenInOrder(fills: seq<Fill>, i: nat, j: nat) returns (k: nat)
    requires i < j < |FirstSeen(fills)|
    ensures k < |fills| && fills[k].executionId == FirstSeen(fills)[i]
    ensures forall m :: 0 <= m <= k ==> fills[m].executionId != FirstSeen(fills)[j]
    decreases |fills|
  {
    var n := |fills| - 1;
    var earlier := fills[..n];
    if j < |FirstSeen(earlier)| {
      k := FirstSeenInOrder(earlier, i, j);
      assert forall m :: 0 <= m <= k ==> earlier[m] == fills[m];
    } else {
      FirstSeenListsIds(earlier);
      assert FirstSeen(earlier)[i] in FirstSeen(earlier);
      assert Occurs(earlier, FirstSeen(earlier)[i]);
      var f :| f in earlier && f.executionId == FirstSeen(earlier)[i];
      k :| 0 <= k < |earlier| && earlier[k] == f;
      forall m | 0 <= m <= k ensures fills[m].executionId != FirstSeen(fills)[j] {
        assert earlier[m] == fills[m] && earlier[m] in earlier;
        assert Occurs(earlier, fills[m].executionId);
      }
    }
  }

  // ---------------------------------------------------------------- traded quantity is conserved

  function LegQuantity(fills: seq<Fill>, liquidity: LiquidityFlag): nat {
    if fills == [] then 0
    else LegQuantity(fills[..|fills| - 1], liquidity)
         + (if fills[|fills| - 1].liquidity == liquidity then fills[|fills| - 1].quantity else 0)
  }

  function TradeQuantity(trades: seq<WsMessage>): nat
    requires forall t :: t in trades ==> t.Trade?
  {
    if trades == [] then 0
    else
      assert trades[0] in trades;
      trades[0].quantity + TradeQuantity(trades[1..])
  }

  /** The quantity of each match that has a leg of this role. */
  ghost function LegMap(fills: seq<Fill>, liquidity: LiquidityFlag): map<ExecutionId, nat>
    requires LegsAgree(fills)
  {
    map id | id in FirstSeen(fills) && HasLeg(fills, id, liquidity) ::
      AccumulatedQuantity(fills, id)
  }

  function AccumulatedQuantity(fills: seq<Fill>, id: ExecutionId): nat {
    var acc := Accumulated(fills, id);
    if acc.quantity.Some? then acc.quantity.value else 0
  }

  lemma {:induction false} LegQuantityIsTotal(fills: seq<Fill>, liquidity: LiquidityFlag)
    requires LegsAgree(fills)
    ensures LegQuantity(fills, liquidity) == Total(LegMap(fills, liquidity))
    decreases |fills|
  {
    if fills == [] {
      assert LegMap(fills, liquidity) == map[];
    } else {
      var n := |fills| - 1;
      var f, earlier := fills[n], fills[..n];
      LegQuantityIsTotal(earlier, liquidity);
      NewLeg(fills);
      LegMapStep(fills, liquidity);
      if f.liquidity == liquidity {
        TotalUpdate(LegMap(earlier, liquidity), f.executionId, f.quantity);
      }
    }
  }

  lemma AppendedLegs(fills: seq<Fill>, id: ExecutionId, liquidity: LiquidityFlag)
    requires fills != []
    ensures var f := fills[|fills| - 1];
            HasLeg(fills, id, liquidity) <==>
            HasLeg(fills[..|fills| - 1], id, liquidity) || (f.executionId == id && f.liquidity == liquidity)
  {
    var n := |fills| - 1;
    assert fills == fills[..n] + [fills[n]];
    assert fills[n] in fills;
  }

  /** The last leg plays a role its match did not have before. */
  lemma NewLeg(fills: seq<Fill>)
    requires LegsAgree(fills) && fills != []
    ensures !HasLeg(fills[..|fills| - 1], fills[|fills| - 1].executionId, fills[|fills| - 1].liquidity)
  {
    var n := |fills| - 1;
    forall g | g in fills[..n] && g.executionId == fills[n].executionId
      ensures g.liquidity != fills[n].liquidity {
      var i :| 0 <= i < n && fills[..n][i] == g;
      assert fills[i] == g;
    }
  }

  /** The last leg repeats the quantity its match already had. */
  lemma AppendedQuantity(fills: seq<Fill>, id: ExecutionId)
    requires LegsAgree(fills) && fills != []
    requires Occurs(fills[..|fills| - 1], id)
    ensures AccumulatedQuantity(fills, id) == AccumulatedQuantity(fills[..|fills| - 1], id)
  {
    var n := |fills| - 1;
    if fills[n].executionId == id {
      var g :| g in fills[..n] && g.executionId == id;
      var i :| 0 <= i < n && fills[..n][i] == g;
      assert fills[i] == g;
      AccumulatedMatches(fills[..n], g);
    }
  }

  lemma LegMapKeys(fills: seq<Fill>, liquidity: LiquidityFlag, id: ExecutionId)
    requires LegsAgree(fills)
    ensures id in LegMap(fills, liquidity) <==> HasLeg(fills, id, liquidity)
  {
    FirstSeenListsIds(fills);
    LegOccurs(fills, id, liquidity);
  }

  lemma LegMapStep(fills: seq<Fill>, liquidity: LiquidityFlag)
    requires LegsAgree(fills) && fills != []
    ensures var f := fills[|fills| - 1];
            var before := LegMap(fills[..|fills| - 1], liquidity);
            LegMap(fills, liquidity) == (if f.liquidity == liquidity then before[f.executionId := f.quantity] else before)
  {
    hide FirstSeen, HasLeg;
    var n := |fills| - 1;
    var f, earlier := fills[n], fills[..n];
    var before := LegMap(earlier, liquidity);
    var after := if f.liquidity == liquidity then before[f.executionId := f.quantity] else before;
    var now := LegMap(fills, liquidity);
    forall id ensures id in now <==> id in after
              ensures id in now ==> now[id] == after[id] {
      AppendedLegs(fills, id, liquidity);
      LegMapKeys(fills, liquidity, id);
      LegMapKeys(earlier, liquidity, id);
      if id in before {
        LegOccurs(earlier, id, liquidity);
        AppendedQuantity(fills, id);
        if id == f.executionId {
          assert AccumulatedQuantity(fills, id) == f.quantity;
        }
      }
    }
  }

  lemma LegOccurs(fills: seq<Fill>, id: ExecutionId, liquidity: LiquidityFlag)
    ensures HasLeg(fills, id, liquidity) ==> Occurs(fills, id)
  {}

  ghost function MatchQuantities(ids: seq<ExecutionId>, fills: seq<Fill>): map<ExecutionId, nat> {
    map id | id in ids :: AccumulatedQuantity(fills, id)
  }

  lemma MatchQuantitiesStep(ids: seq<ExecutionId>, fills: seq<Fill>)
    requires ids != []
    requires forall i, j :: 0 <= i < j < |ids| ==> ids[i] != ids[j]
    ensures Total(MatchQuantities(ids, fills)) ==
            AccumulatedQuantity(fills, ids[0]) + Total(MatchQuantities(ids[1..], fills))
  {
    var m := MatchQuantities(ids, fills);
    TotalRemove(m, ids[0]);
    assert m - {ids[0]} == MatchQuantities(ids[1..], fills);
  }

  lemma {:induction false} TradeQuantityIsTotal(ids: seq<ExecutionId>, fills: seq<Fill>, symbol: Symbol, ts: u64)
    requires forall id :: id in ids ==> HasLeg(fills, id, Maker) && HasLeg(fills, id, Taker)
    requires forall i, j :: 0 <= i < j < |ids| ==> ids[i] != ids[j]
    ensures forall t :: t in Prints(ids, fills, symbol, ts) ==> t.Trade?
    ensures TradeQuantity(Prints(ids, fills, symbol, ts)) == Total(MatchQuantities(ids, fills))
    decreases |ids|
  {
    PrintsComplete(ids, fills, symbol, ts);
    if ids == [] {
      assert MatchQuantities(ids, fills) == map[];
    } else {
      TradeQuantityIsTotal(ids[1..], fills, symbol, ts);
      MatchQuantitiesStep(ids, fills);
      AccumulatedLegs(fills, ids[0]);
      LegOccurs(fills, ids[0], Maker);
      assert Prints(ids, fills, symbol, ts)[1..] == Prints(ids[1..], fills, symbol, ts);
    }
  }

  lemma LegsAreMatches(fills: seq<Fill>)
    requires WellPaired(fills)
    ensures forall id :: id in FirstSeen(fills) ==> HasLeg(fills, id, Maker) && HasLeg(fills, id, Taker)
    ensures LegMap(fills, Maker) == LegMap(fills, Taker) == MatchQuantities(FirstSeen(fills), fills)
  {
    hide FirstSeen, AccumulatedQuantity;
    FirstSeenListsIds(fills);
    forall id | id in FirstSeen(fills) ensures HasLeg(fills, id, Maker) && HasLeg(fills, id, Taker) {
      assert Occurs(fills, id);
    }
  }

  /** In a well-paired list the printed quantity is the makers' total and the takers' total. */
  lemma TradedQuantityConserved(fills: seq<Fill>, symbol: Symbol, ts: u64)
    requires WellPaired(fills)
    ensures forall t :: t in TradesOf(fills, symbol, ts) ==> t.Trade?
    ensures TradeQuantity(TradesOf(fills, symbol, ts)) == LegQuantity(fills, Maker) == LegQuantity(fills, Taker)
  {
    hide LegMap, MatchQuantities, FirstSeen, TradeQuantity, LegQuantity, Accumulated;
    FirstSeenListsIds(fills);
    LegsAreMatches(fills);
    TradeQuantityIsTotal(FirstSeen(fills), fills, symbol, ts);
    LegQuantityIsTotal(fills, Maker);
    LegQuantityIsTotal(fills, Taker);
  }
}
