/**
 The venue's command envelope, cut down to the fields that the market-data
 service reads: what was asked (`VenueCommand`), what happened (`VenueOutcome`)
 and the committed pair (`VenueEvent`).
 */
module Envelope {
  import opened Collections
  import opened Words

  type Symbol = string
  type OrderId = string
  type AccountId = string
  type ExecutionId = string

  const MARKET_MAKER_ACCOUNT: AccountId := "@market-maker"

  /** The hash under which the engine groups an account's orders. */
  type Hash32 = bytes: seq<u8> | |bytes| == 32 witness seq(32, _ => 0)

  function Repeated(b: u8): (bytes: Hash32)
    ensures forall i :: 0 <= i < 32 ==> bytes[i] == b
  {
    seq(32, _ => b)
  }

  const MARKET_MAKER_OWNER := Repeated(0xEE)

  datatype Side = Buy | Sell

  datatype LiquidityFlag = Maker | Taker

  /** One leg of a match; the two legs of a match share their `executionId`. */
  datatype Fill = Fill(
    executionId: ExecutionId,
    orderId: OrderId,
    side: Side,
    liquidity: LiquidityFlag,
    price: u64,
    quantity: u64)

  datatype MassCancelScope =
    | Underlying
    | Expiration(expiration: nat)
    | Strike(strikeExpiration: nat, strike: u64)
    | Book(symbol: Symbol)

  datatype VenueCommand =
    | AddOrder(symbol: Symbol, orderId: OrderId, account: AccountId, side: Side, limitPrice: Option<u64>)
    | CancelOrder(symbol: Symbol, orderId: OrderId, account: AccountId)
    | Replace(symbol: Symbol, orderId: OrderId, newOrderId: OrderId, account: AccountId, side: Side, limitPrice: Option<u64>)
    | MassCancel(scope: MassCancelScope)
    | SetInstrumentStatus(symbol: Symbol)
    | EvictExpiredOrders(nowMs: u64)
    | MarketMakerControl(enabled: Option<bool>)
    | Clock(nowMs: u64)
    | SimStep(nowMs: u64, underlying: string, price: u64)

  /** Cancelled legs are kept as the ids of the orders they removed. */
  datatype AddOutcome =
    | Filled(fills: seq<Fill>, stpCancelled: seq<OrderId>)
    | Rested(fills: seq<Fill>, restingQuantity: u64, stpCancelled: seq<OrderId>)
    | AddRejected

  datatype VenueOutcome =
    | Added(fills: seq<Fill>, restingQuantity: u64, stpCancelled: seq<OrderId>)
    | Market(fills: seq<Fill>, unfilledQuantity: u64, stpCancelled: seq<OrderId>)
    | Cancelled(orderId: OrderId)
    | Replaced(cancelled: bool, add: AddOutcome)
    | MassCancelled(affected: seq<OrderId>)
    | InstrumentStatusChanged
    | Evicted(evicted: seq<OrderId>)
    | ControlApplied(swept: seq<OrderId>)
    | Rejected
    | Duplicate(originalOrderId: OrderId, terminal: VenueOutcome)

  datatype VenueEvent = VenueEvent(
    underlyingSequence: u64,
    venueTs: u64,
    command: VenueCommand,
    outcome: VenueOutcome)

  predicate IsMarketMakerCommand(command: VenueCommand) {
    match command
    case AddOrder(_, _, account, _, _) => account == MARKET_MAKER_ACCOUNT
    case CancelOrder(_, _, account) => account == MARKET_MAKER_ACCOUNT
    case Replace(_, _, _, account, _, _) => account == MARKET_MAKER_ACCOUNT
    case _ => false
  }

  /** The one contract a command targets; venue-wide and hierarchy-wide commands have none. */
  function CommandSymbol(command: VenueCommand): Option<Symbol> {
    match command
    case AddOrder(symbol, _, _, _, _) => Some(symbol)
    case CancelOrder(symbol, _, _) => Some(symbol)
    case Replace(symbol, _, _, _, _, _) => Some(symbol)
    case SetInstrumentStatus(symbol) => Some(symbol)
    case MassCancel(Book(symbol)) => Some(symbol)
    case _ => None
  }

  /** The captured fill legs of an outcome. */
  function OutcomeFills(outcome: VenueOutcome): seq<Fill> {
    match outcome
    case Added(fills, _, _) => fills
    case Market(fills, _, _) => fills
    case Replaced(_, Filled(fills, _)) => fills
    case Replaced(_, Rested(fills, _, _)) => fills
    case _ => []
  }
}
