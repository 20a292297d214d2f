/**
 One client connection of the WebSocket gateway: what it is subscribed to, and the
 per-symbol baseline that keeps a delta the client's snapshot already covers from
 being forwarded. The broadcast is joined before the snapshot is taken, so the two
 overlap; the baseline is what makes the overlap harmless for every run.
 */
module Gateway {
  import opened Collections
  import opened Words
  import opened Envelope
  import opened L2Book
  import opened MarketData
  import opened Subscription
  import opened Replication

  const MAX_SUBSCRIPTIONS_PER_CONNECTION := 256

  datatype Channel = Orderbook | Trades | Fills | Prices

  datatype Classified = Classified(channel: Channel, key: string, sequence: Option<u64>)

  datatype ConnectionState = ConnectionState(subscriptions: set<(Channel, string)>, baselines: map<string, u64>)

  function Classify(message: WsMessage): Option<Classified> {
    match message
    case OrderbookDelta(symbol, sequence, _) => Some(Classified(Orderbook, symbol, Some(sequence)))
    case Trade(_, symbol, _, _, _, _, _) => Some(Classified(Trades, symbol, None))
    case FillPrint(_, _, _, _, _, instrument, _, _, _) => Some(Classified(Fills, instrument, None))
    case Price(underlying, _) => Some(Classified(Prices, underlying, None))
    case OrderbookSnapshot(_, _, _, _) => None
  }

  function Baseline(c: ConnectionState, key: string): u64 {
    if key in c.baselines then c.baselines[key] else 0
  }

  /** Whether a message is forwarded. */
  predicate Forwards(c: ConnectionState, message: WsMessage) {
    var classified := Classify(message);
    && classified.Some?
    && (classified.value.channel, classified.value.key) in c.subscriptions
    && (classified.value.sequence.Some? ==> classified.value.sequence.value > Baseline(c, classified.value.key))
  }

  /** A forwarded delta raises the baseline of its symbol. */
  function AfterFilter(c: ConnectionState, message: WsMessage): ConnectionState {
    if Forwards(c, message) && message.OrderbookDelta?
    then c.(baselines := c.baselines[message.symbol := message.sequence]) else c
  }

  function Forwarded(c: ConnectionState, messages: seq<WsMessage>): seq<WsMessage>
    decreases |messages|
  {
    if messages == [] then []
    else (if Forwards(c, messages[0]) then [messages[0]] else []) + Forwarded(AfterFilter(c, messages[0]), messages[1..])
  }

  class Connection {
    var subscriptions: set<(Channel, string)>
    var baselines: map<string, u64>

    constructor ()
      ensures View() == ConnectionState({}, map[])
    {
      subscriptions, baselines := {}, map[];
    }

    function View(): ConnectionState
      reads this
    {
      ConnectionState(subscriptions, baselines)
    }

    /** Subscribes to an order book: takes a snapshot and starts the baseline at its sequence. */
    method SubscribeOrderbook(symbol: Symbol, depth: Option<nat>, manager: OrderbookSubscriptionManager)
      returns (snapshot: Option<WsMessage>)
      modifies this
      ensures var entry := (Orderbook, symbol);
              var instrument := InstrumentAt(manager.instruments, symbol);
              if entry !in old(subscriptions) && |old(subscriptions)| >= 256 then
                snapshot == None && View() == old(View())
              else
                && snapshot == Some(SnapshotOf(symbol, instrument.sequence, instrument.book, depth))
                && subscriptions == old(subscriptions) + {entry}
                && baselines == old(baselines)[symbol := instrument.sequence]
    {
      var entry := (Orderbook, symbol);
      if entry !in subscriptions && |subscriptions| >= MAX_SUBSCRIPTIONS_PER_CONNECTION {
        return None;
      }
      subscriptions := subscriptions + {entry};
      var message := manager.OrderbookSnapshot(symbol, depth);
      baselines := baselines[symbol := message.sequence];
      snapshot := Some(message);
    }

    method Filter(message: WsMessage) returns (forwarded: Option<WsMessage>)
      modifies this
      ensures View() == AfterFilter(old(View()), message)
      ensures forwarded == if Forwards(old(View()), message) then Some(message) else None
    {
      var classified := Classify(message);
      if classified.None? || (classified.value.channel, classified.value.key) !in subscriptions {
        return None;
      }
      var key, sequence := classified.value.key, classified.value.sequence;
      if classified.value.channel == Orderbook && sequence.Some? {
        var baseline := if key in baselines then baselines[key] else 0;
        if sequence.value <= baseline {
          return None;
        }
        baselines := baselines[key := sequence.value];
      }
      return Some(message);
    }
  }

  /**
   What a connection forwards, message by message: prints and prices when it is subscribed
   to their channel for their instrument or underlying, a delta also only above the
   baseline of its symbol, and never a snapshot meant for somebody else. Only a forwarded
   delta changes the connection, and only that baseline.
   */
  lemma ForwardsWhen(c: ConnectionState, message: WsMessage)
    ensures message.OrderbookDelta? ==>
              (Forwards(c, message) <==>
                 (Orderbook, message.symbol) in c.subscriptions
                 && message.sequence > if message.symbol in c.baselines then c.baselines[message.symbol] else 0)
    ensures message.Trade? ==> (Forwards(c, message) <==> (Trades, message.symbol) in c.subscriptions)
    ensures message.FillPrint? ==> (Forwards(c, message) <==> (Fills, message.instrument) in c.subscriptions)
    ensures message.Price? ==> (Forwards(c, message) <==> (Prices, message.underlying) in c.subscriptions)
    ensures message.OrderbookSnapshot? ==> !Forwards(c, message)
    ensures AfterFilter(c, message).subscriptions == c.subscriptions
    ensures AfterFilter(c, message).baselines
         == if Forwards(c, message) && message.OrderbookDelta? then c.baselines[message.symbol := message.sequence] else c.baselines
  {}

  // ---------------------------------------------------------------- what survives the filter

  /** The deltas above a baseline that rises with every delta kept. */
  function Accepted(deltas: seq<WsMessage>, baseline: u64): seq<WsMessage>
    requires forall d :: d in deltas ==> d.OrderbookDelta?
    decreases |deltas|
  {
    if deltas == [] then []
    else
      var d := deltas[0];
      assert d in deltas;
      if d.sequence > baseline then [d] + Accepted(deltas[1..], d.sequence) else Accepted(deltas[1..], baseline)
  }

  lemma {:induction false} DeltasForMembers(messages: seq<WsMessage>, s: Symbol)
    ensures forall d :: d in DeltasFor(messages, s) ==> IsDeltaFor(d, s)
    decreases |messages|
  {
    if messages != [] {
      DeltasForMembers(messages[1..], s);
    }
  }

  /** How one message moves the baseline of `s`: only a delta of `s` does, and only upwards. */
  lemma BaselineStep(c: ConnectionState, message: WsMessage, s: Symbol)
    requires (Orderbook, s) in c.subscriptions
    ensures AfterFilter(c, message).subscriptions == c.subscriptions
    ensures IsDeltaFor(message, s) ==> (Forwards(c, message) <==> message.sequence > Baseline(c, s))
    ensures Baseline(AfterFilter(c, message), s)
         == if IsDeltaFor(message, s) && message.sequence > Baseline(c, s) then message.sequence else Baseline(c, s)
  {}

  /** Traffic for other symbols and channels does not disturb the baseline of `s`. */
  lemma {:induction false} ForwardedDeltas(c: ConnectionState, messages: seq<WsMessage>, s: Symbol)
    requires (Orderbook, s) in c.subscriptions
    ensures forall d :: d in DeltasFor(messages, s) ==> d.OrderbookDelta?
    ensures DeltasFor(Forwarded(c, messages), s) == Accepted(DeltasFor(messages, s), Baseline(c, s))
    decreases |messages|
  {
    DeltasForMembers(messages, s);
    if messages != [] {
      var head, tail := messages[0], messages[1..];
      var next := AfterFilter(c, head);
      BaselineStep(c, head, s);
      ForwardedDeltas(next, tail, s);
      hide Forwards, AfterFilter, Baseline, Classify, DeltasFor;
      assert messages == [head] + tail;
      DeltasForHead(head, tail, s);
      DeltasForHead(head, Forwarded(next, tail), s);
      if Forwards(c, head) {
        assert Forwarded(c, messages) == [head] + Forwarded(next, tail);
      } else {
        assert Forwarded(c, messages) == Forwarded(next, tail);
      }
      if IsDeltaFor(head, s) {
        assert DeltasFor(messages, s)[1..] == DeltasFor(tail, s);
      }
    }
  }

  lemma {:induction false} AcceptedDropsCovered(covered: seq<WsMessage>, rest: seq<WsMessage>, baseline: u64)
    requires forall d :: d in covered + rest ==> d.OrderbookDelta?
    requires forall d :: d in covered ==> d.sequence <= baseline
    ensures forall d :: d in rest ==> d.OrderbookDelta?
    ensures Accepted(covered + rest, baseline) == Accepted(rest, baseline)
    decreases |covered|
  {
    forall d | d in rest ensures d.OrderbookDelta? {
      assert d in covered + rest;
    }
    if covered == [] {
      assert covered + rest == rest;
    } else {
      assert (covered + rest)[1..] == covered[1..] + rest;
      AcceptedDropsCovered(covered[1..], rest, baseline);
    }
  }

  lemma {:induction false} AcceptedKeepsGapFree(deltas: seq<WsMessage>, baseline: u64, s: Symbol)
    requires GapFree(deltas, baseline, s)
    ensures forall d :: d in deltas ==> d.OrderbookDelta?
    ensures Accepted(deltas, baseline) == deltas
    decreases |deltas|
  {
    if deltas != [] {
      assert IsDeltaFor(deltas[0], s) && deltas[0].sequence == baseline + 1;
      forall n | 0 <= n < |deltas| - 1
        ensures IsDeltaFor(deltas[1..][n], s) && deltas[1..][n].sequence == baseline + 1 + n + 1 {
        assert IsDeltaFor(deltas[n + 1], s);
      }
      AcceptedKeepsGapFree(deltas[1..], deltas[0].sequence, s);
    }
  }

  /**
   The gateway forwards exactly the deltas the snapshot does not cover: a connection
   that joins the broadcast before event `p`, snapshots after event `i` and is then
   handed everything enqueued from `p` to `j` forwards the stream from `i` to `j`.
   */
  lemma FilterForwardsUncovered(v: Venue, events: seq<VenueEvent>, underlyingOf: Symbol -> Option<string>,
                                s: Symbol, p: nat, i: nat, j: nat, c: ConnectionState)
    requires p <= i <= j <= |events|
    requires InstrumentAt(v, s).sequence + |events| <= U64_MAX
    requires (Orderbook, s) in c.subscriptions && Baseline(c, s) == At(v, events, i, s).sequence
    ensures DeltasFor(Forwarded(c, Sent(v, events, underlyingOf, p, j)), s) == Stream(v, events, s, i, j)
  {
    var sent := Sent(v, events, underlyingOf, p, j);
    ForwardedDeltas(c, sent, s);
    SentCarriesStream(v, events, underlyingOf, s, p, j);
    StreamSplits(v, events, s, p, i, j);
    StreamIsGapFree(v, events, s, p, i);
    StreamIsGapFree(v, events, s, i, j);
    var covered := Stream(v, events, s, p, i);
    forall d | d in covered ensures d.OrderbookDelta? && d.sequence <= Baseline(c, s) {
      var n :| 0 <= n < |covered| && covered[n] == d;
      assert IsDeltaFor(covered[n], s);
    }
    AcceptedDropsCovered(covered, Stream(v, events, s, i, j), Baseline(c, s));
    AcceptedKeepsGapFree(Stream(v, events, s, i, j), Baseline(c, s), s);
  }

  /**
   End to end, market-maker events included: the order-book deltas of `s` that the
   gateway forwards, whatever else the connection is subscribed to, keep the client's
   mirror of `s` equal to the aggregate at every level no market-maker event touched
   after the level's last publication.
   */
  lemma GatewayClientConverges(v: Venue, events: seq<VenueEvent>, underlyingOf: Symbol -> Option<string>,
                               s: Symbol, p: nat, i: nat, j: nat, c: ConnectionState, l: Level)
    requires p <= i <= j <= |events|
    requires InstrumentAt(v, s).sequence + |events| <= U64_MAX
    requires (Orderbook, s) in c.subscriptions && Baseline(c, s) == At(v, events, i, s).sequence
    requires var last := LastPublication(v, events, s, i, j, l);
             forall k :: (if last.Some? then last.value else i) <= k < j && TouchesLevel(v, events, k, s, l) ==>
               !IsMarketMakerCommand(events[k].command)
    ensures var received := DeltasFor(Forwarded(c, Sent(v, events, underlyingOf, p, j)), s);
            MirrorQty(MirrorFrom(v, events, s, i, received), l) == QtyAt(At(v, events, j, s).book, l)
  {
    FilterForwardsUncovered(v, events, underlyingOf, s, p, i, j, c);
    SnapshotThenDeltas(v, events, s, i, j, l);
  }

  /**
   After a full snapshot and a stream that may begin before it, unfiltered, a level is
   shown right if and only if it still has the quantity it had at its last publication
   in that stream (or at the snapshot, when the stream never published it).
   */
  lemma UnfilteredOverlapIff(v: Venue, events: seq<VenueEvent>, s: Symbol, p: nat, i: nat, j: nat, l: Level)
    requires p <= i <= j <= |events|
    ensures var last := LastPublication(v, events, s, p, j, l);
            var from := if last.Some? then last.value else i;
            && from <= j
            && (MirrorQty(MirrorFrom(v, events, s, i, Stream(v, events, s, p, j)), l) == QtyAt(At(v, events, j, s).book, l)
                <==> QtyAt(At(v, events, from, s).book, l) == QtyAt(At(v, events, j, s).book, l))
  {
    var at := At(v, events, i, s);
    SnapshotIsFaithful(s, at.sequence, at.book, l);
    LastPublicationIsLast(v, events, s, p, j, l);
    StreamShowsLastPublication(v, events, s, LoadSnapshot(SnapshotOf(s, at.sequence, at.book, None)), p, j, l);
  }

  function UserRests(s: Symbol, id: OrderId): VenueEvent {
    VenueEvent(1, 0, AddOrder(s, id, "alice", Buy, Some(100)), Added([], 5, []))
  }

  function MakerRests(s: Symbol, id: OrderId): VenueEvent {
    VenueEvent(2, 0, AddOrder(s, id, MARKET_MAKER_ACCOUNT, Buy, Some(100)), Added([], 7, []))
  }

  lemma RestingEvent(i: Instrument, event: VenueEvent, e: Effect)
    requires e.Rest? && e.quantity > 0 && Effects(event.command, event.outcome) == [e]
    ensures Fold(i, event).book == ApplyEffect(i.book, e)
    ensures Touched(i, event) == {Level(e.side, e.price)}
    ensures Publishes(i, event) <==> !IsMarketMakerCommand(event.command)
  {
    SingleEffect(i.book, e);
    assert Level(e.side, e.price) in Touched(i, event);
  }

  lemma TwoRests(s: Symbol, id: OrderId, quote: OrderId)
    ensures var events := [UserRests(s, id), MakerRests(s, quote)];
            var l := Level(Bid, 100);
            && QtyAt(At(map[], events, 1, s).book, l) == 5 && QtyAt(At(map[], events, 2, s).book, l) == 12
            && PublishesLevel(map[], events, 0, s, l) && !PublishesLevel(map[], events, 1, s, l)
  {
    var events := [UserRests(s, id), MakerRests(s, quote)];
    var v: Venue := map[];
    assert At(v, events, 0, s) == FRESH_INSTRUMENT;
    RestingEvent(FRESH_INSTRUMENT, events[0], Rest(id, Bid, 100, 5));
    RestingEvent(At(v, events, 1, s), events[1], Rest(quote, Bid, 100, 7));
    hide Effects, Fold, Touched, Publishes, Commit;
    CommitIsLocal(StateAt(v, events, 0), events[0], s);
    CommitIsLocal(StateAt(v, events, 1), events[1], s);
  }

  /**
   Without the filter an overlap can hide a market-maker update: a delta the snapshot
   already covers puts back the quantity from before the update.
   */
  lemma UnfilteredOverlapCanRegress(s: Symbol, id: OrderId, quote: OrderId)
    requires id != quote
    ensures var events := [UserRests(s, id), MakerRests(s, quote)];
            var l := Level(Bid, 100);
            && MirrorQty(MirrorFrom(map[], events, s, 2, Stream(map[], events, s, 0, 2)), l) == 5
            && QtyAt(At(map[], events, 2, s).book, l) == 12
  {
    hide At, PublishesLevel, Stream, LoadSnapshot;
    var v: Venue := map[];
    var l := Level(Bid, 100);
    var events := [UserRests(s, id), MakerRests(s, quote)];
    TwoRests(s, id, quote);
    LastPublicationIsLast(v, events, s, 0, 2, l);
    var at := At(v, events, 2, s);
    StreamShowsLastPublication(v, events, s, LoadSnapshot(SnapshotOf(s, at.sequence, at.book, None)), 0, 2, l);
  }
}
