/** The messages of the market-data service and the pure projections that build them. */
module MarketData {
  import opened Collections
  import opened Words
  import opened Envelope
  import opened L2Book

  datatype PriceLevelData = PriceLevelData(price: u64, quantity: u64)

  /** A level's resulting quantity; zero means the level is gone. */
  datatype PriceLevelChange = PriceLevelChange(side: BookSide, price: u64, quantity: u64)

  datatype WsMessage =
    | OrderbookSnapshot(symbol: Symbol, sequence: u64, bids: seq<PriceLevelData>, asks: seq<PriceLevelData>)
    | OrderbookDelta(symbol: Symbol, sequence: u64, changes: seq<PriceLevelChange>)
    | FillPrint(executionId: ExecutionId, underlyingSequence: u64, venueTs: u64, liquidity: LiquidityFlag,
                underlying: string, instrument: Symbol, side: Side, quantity: u64, price: u64)
    | Trade(tradeId: ExecutionId, symbol: Symbol, price: u64, quantity: u64, timestamp: u64,
            makerOrderId: OrderId, takerOrderId: OrderId)
    | Price(underlying: string, priceCents: u64)

  // ---------------------------------------------------------------- deltas

  function PricesOn(touched: set<Level>, side: BookSide): (r: seq<u64>)
    ensures StrictlyAscending(r)
    ensures forall p: u64 :: p in r <==> Level(side, p) in touched
  {
    Ascending(set l | l in touched && l.side == side :: l.price)
  }

  function SideChanges(b: BookState, side: BookSide, prices: seq<u64>): (r: seq<PriceLevelChange>)
    ensures |r| == |prices|
    ensures forall i :: 0 <= i < |r| ==> r[i] == PriceLevelChange(side, prices[i], QtyAt(b, Level(side, prices[i])))
  {
    if prices == [] then []
    else [PriceLevelChange(side, prices[0], QtyAt(b, Level(side, prices[0])))] + SideChanges(b, side, prices[1..])
  }

  /** The touched levels in order (bids first, prices rising), each with its quantity in `b`. */
  function ChangesAt(b: BookState, touched: set<Level>): seq<PriceLevelChange> {
    SideChanges(b, Bid, PricesOn(touched, Bid)) + SideChanges(b, Ask, PricesOn(touched, Ask))
  }

  function ChangedLevel(c: PriceLevelChange): Level {
    Level(c.side, c.price)
  }

  lemma ChangeAt(b: BookState, touched: set<Level>, i: nat)
    requires i < |ChangesAt(b, touched)|
    ensures var c := ChangesAt(b, touched)[i];
            var bids, asks := PricesOn(touched, Bid), PricesOn(touched, Ask);
            && ChangedLevel(c) == (if i < |bids| then Level(Bid, bids[i]) else Level(Ask, asks[i - |bids|]))
            && ChangedLevel(c) in touched
            && c.quantity == QtyAt(b, ChangedLevel(c))
  {
    var bids, asks := PricesOn(touched, Bid), PricesOn(touched, Ask);
    if i < |bids| {
      assert bids[i] in bids;
    } else {
      assert asks[i - |bids|] in asks;
    }
  }

  /** Every touched level is listed exactly once, in strict order, with its quantity in `b`. */
  lemma ChangesListTouched(b: BookState, touched: set<Level>)
    ensures var r := ChangesAt(b, touched);
            && (forall i, j :: 0 <= i < j < |r| ==>
                  (r[i].side.Bid? && r[j].side.Ask?) || (r[i].side == r[j].side && r[i].price < r[j].price))
            && (forall i :: 0 <= i < |r| ==> ChangedLevel(r[i]) in touched)
            && (forall i :: 0 <= i < |r| ==> r[i].quantity == QtyAt(b, ChangedLevel(r[i])))
            && (forall l :: l in touched ==> exists i :: 0 <= i < |r| && ChangedLevel(r[i]) == l)
  {
    var r := ChangesAt(b, touched);
    forall i | 0 <= i < |r|
      ensures ChangedLevel(r[i]) in touched && r[i].quantity == QtyAt(b, ChangedLevel(r[i])) {
      ChangeAt(b, touched, i);
    }
    forall i, j | 0 <= i < j < |r|
      ensures (r[i].side.Bid? && r[j].side.Ask?) || (r[i].side == r[j].side && r[i].price < r[j].price) {
      ChangeAt(b, touched, i);
      ChangeAt(b, touched, j);
    }
    forall l | l in touched ensures exists i :: 0 <= i < |r| && ChangedLevel(r[i]) == l {
      TouchedIsListed(b, touched, l);
    }
  }

  lemma ChangesSize(b: BookState, touched: set<Level>)
    ensures |ChangesAt(b, touched)| == |PricesOn(touched, Bid)| + |PricesOn(touched, Ask)|
  {}

  lemma TouchedIsListed(b: BookState, touched: set<Level>, l: Level)
    requires l in touched
    ensures exists i :: 0 <= i < |ChangesAt(b, touched)| && ChangedLevel(ChangesAt(b, touched)[i]) == l
  {
    hide ChangesAt, PricesOn, QtyAt;
    ChangesSize(b, touched);
    var bids, asks := PricesOn(touched, Bid), PricesOn(touched, Ask);
    if l.side.Bid? {
      assert l.price in bids;
      var i :| 0 <= i < |bids| && bids[i] == l.price;
      ChangeAt(b, touched, i);
    } else {
      assert l.price in asks;
      var i :| 0 <= i < |asks| && asks[i] == l.price;
      ChangeAt(b, touched, |bids| + i);
    }
  }

  // ---------------------------------------------------------------- snapshots

  function SidePrices(levels: map<u64, u64>): (r: seq<u64>)
    ensures StrictlyAscending(r)
    ensures forall p: u64 :: p in r <==> p in levels
  {
    Ascending(levels.Keys)
  }

  function Listed(levels: map<u64, u64>, prices: seq<u64>): (r: seq<PriceLevelData>)
    requires forall p :: p in prices ==> p in levels
    ensures |r| == |prices|
    ensures forall i :: 0 <= i < |r| ==> r[i] == PriceLevelData(prices[i], levels[prices[i]])
  {
    if prices == [] then []
    else [PriceLevelData(prices[0], levels[prices[0]])] + Listed(levels, prices[1..])
  }

  function Reverse(s: seq<u64>): (r: seq<u64>)
    ensures |r| == |s|
    ensures forall i :: 0 <= i < |r| ==> r[i] == s[|s| - 1 - i]
    ensures forall x :: x in r <==> x in s
  {
    if s == [] then [] else Reverse(s[1..]) + [s[0]]
  }

  function Truncate<T>(s: seq<T>, depth: Option<nat>): seq<T> {
    if depth.Some? && depth.value < |s| then s[..depth.value] else s
  }

  function SnapshotOf(symbol: Symbol, sequence: u64, b: BookState, depth: Option<nat>): WsMessage {
    OrderbookSnapshot(symbol, sequence,
                      Truncate(Listed(b.bids, BestFirst(Bid, b.bids)), depth),
                      Truncate(Listed(b.asks, BestFirst(Ask, b.asks)), depth))
  }

  predicate Better(side: BookSide, price: u64, other: u64) {
    match side
    case Bid => price > other
    case Ask => price < other
  }

  /** How many levels of a side are better than a price. */
  ghost function Rank(side: BookSide, levels: map<u64, u64>, price: u64): nat {
    |set p | p in levels && Better(side, p, price)|
  }

  /**
   What a client may rely on: as many levels as there are, up to the asked depth, and as
   entry number `i` the level of the aggregate that has exactly `i` better ones.
   */
  ghost predicate ListsBest(side: BookSide, levels: map<u64, u64>, data: seq<PriceLevelData>, depth: Option<nat>) {
    && |data| == (if depth.Some? then Min(depth.value, |levels|) else |levels|)
    && (forall i :: 0 <= i < |data| ==> data[i].price in levels && data[i].quantity == levels[data[i].price])
    && (forall i :: 0 <= i < |data| ==> Rank(side, levels, data[i].price) == i)
  }

  /** All prices of a side, best first. */
  function BestFirst(side: BookSide, levels: map<u64, u64>): (r: seq<u64>)
    ensures forall p: u64 :: p in r <==> p in levels
    ensures forall i, j :: 0 <= i < j < |r| ==> Better(side, r[i], r[j])
  {
    if side.Bid? then Reverse(SidePrices(levels)) else SidePrices(levels)
  }

  ghost function Members(s: seq<u64>): set<u64> {
    set x | x in s
  }

  lemma {:induction false} DistinctSize(s: seq<u64>)
    requires forall i, j :: 0 <= i < j < |s| ==> s[i] != s[j]
    ensures |Members(s)| == |s|
    decreases |s|
  {
    if s != [] {
      DistinctSize(s[1..]);
      assert Members(s) == Members(s[1..]) + {s[0]};
    }
  }

  /** The better levels of a price are the ones listed before it. */
  lemma RankIsPlace(side: BookSide, levels: map<u64, u64>, i: nat)
    requires i < |BestFirst(side, levels)|
    ensures Rank(side, levels, BestFirst(side, levels)[i]) == i
  {
    var prices := BestFirst(side, levels);
    hide BestFirst;
    forall p: u64 ensures p in levels && Better(side, p, prices[i]) <==> p in prices[..i] {
      assert p in levels <==> p in prices;
    }
    assert (set p | p in levels && Better(side, p, prices[i])) == Members(prices[..i]);
    DistinctSize(prices[..i]);
  }

  lemma BestFirstSize(side: BookSide, levels: map<u64, u64>)
    ensures |BestFirst(side, levels)| == |levels|
  {
    assert |levels.Keys| == |levels|;
  }

  lemma TruncateKeepsPrefix(data: seq<PriceLevelData>, depth: Option<nat>)
    ensures Truncate(data, depth) <= data
    ensures |Truncate(data, depth)| == if depth.Some? then Min(depth.value, |data|) else |data|
  {}

  lemma ListedAt(side: BookSide, levels: map<u64, u64>, i: nat)
    requires i < |BestFirst(side, levels)|
    ensures var entry := Listed(levels, BestFirst(side, levels))[i];
            && entry.price in levels && entry.quantity == levels[entry.price]
            && Rank(side, levels, entry.price) == i
  {
    RankIsPlace(side, levels, i);
    assert BestFirst(side, levels)[i] in BestFirst(side, levels);
    hide Rank, BestFirst;
  }

  /** The side of a snapshot lists the best levels. */
  lemma SideListsBest(side: BookSide, levels: map<u64, u64>, depth: Option<nat>)
    ensures ListsBest(side, levels, Truncate(Listed(levels, BestFirst(side, levels)), depth), depth)
  {
    hide BestFirst, Listed, Truncate, Rank;
    var all := Listed(levels, BestFirst(side, levels));
    var data := Truncate(all, depth);
    BestFirstSize(side, levels);
    TruncateKeepsPrefix(all, depth);
    forall i | 0 <= i < |data|
      ensures data[i].price in levels && data[i].quantity == levels[data[i].price]
      ensures Rank(side, levels, data[i].price) == i {
      assert data[i] == all[i];
      ListedAt(side, levels, i);
    }
  }

  /** There is only one such list. */
  lemma BestListUnique(side: BookSide, levels: map<u64, u64>, a: seq<PriceLevelData>, b: seq<PriceLevelData>, depth: Option<nat>)
    requires ListsBest(side, levels, a, depth) && ListsBest(side, levels, b, depth)
    ensures a == b
  {
    forall i | 0 <= i < |a| ensures a[i] == b[i] {
      EqualRanks(side, levels, a[i].price, b[i].price);
    }
  }

  lemma EqualRanks(side: BookSide, levels: map<u64, u64>, p: u64, q: u64)
    requires p in levels && q in levels && Rank(side, levels, p) == Rank(side, levels, q)
    ensures p == q
  {
    var prices := BestFirst(side, levels);
    assert p in prices && q in prices;
    var i :| 0 <= i < |prices| && prices[i] == p;
    var j :| 0 <= j < |prices| && prices[j] == q;
    RankIsPlace(side, levels, i);
    RankIsPlace(side, levels, j);
  }
}
