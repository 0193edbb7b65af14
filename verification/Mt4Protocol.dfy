/**
  Wire values of the MT4 execution protocol (adapters/mt4/protocol.py).

  A command is split into its frame (message id, timestamp, sequence) and its
  `Body`: exactly the fields that take part in the idempotency fingerprint.
  SHA-256 over the canonical body is a function parameter `hash: Body -> string`
  wherever it matters; nothing is assumed about it.
 */
module Mt4Protocol {
  import opened Options

  type Uuid = nat

  /** A UTC instant in microseconds since the first instant of year 1. */
  type Time = int

  /** Text as code points; a surrogate is one that no UTF-8 text can hold. */
  type Text = seq<nat>

  datatype OrderSide = Buy | Sell
  datatype OrderType = Market | Limit | Stop | StopLimit
  datatype MessageType = SubmitOrder | CancelOrder | ModifyOrder | ReconciliationRequest

  datatype Body = Body(
    protocolVersion: string,
    messageType: MessageType,
    orderIntentId: Option<Uuid>,
    strategyId: string,
    strategyVersion: string,
    expiresAt: Option<Time>,
    symbol: Option<string>,
    side: Option<OrderSide>,
    quantity: Option<real>,
    orderType: Option<OrderType>,
    price: Option<real>,
    stopLoss: Option<real>,
    takeProfit: Option<real>,
    maxSlippage: real,
    reason: Option<string>,
    newPrice: Option<real>,
    newStopLoss: Option<real>,
    newTakeProfit: Option<real>)

  datatype Command = Command(messageId: Uuid, timestamp: Time, sequence: nat, body: Body)

  predicate PositiveIfPresent(x: Option<real>) {
    x.Some? ==> x.value > 0.0
  }

  /** The last instant of year 9999, where the calendar of `datetime` ends. */
  const LAST_INSTANT: Time := 315_537_897_599_999_999

  predicate OnCalendar(t: Time) {
    0 <= t <= LAST_INSTANT
  }

  /**
    A time written with an offset can denote an instant outside the calendar,
    such as 9999-12-31T23:59:59-01:00; converting it to UTC overflows.
   */
  predicate TimesOnCalendar(c: Command) {
    OnCalendar(c.timestamp) && (c.body.expiresAt.Some? ==> OnCalendar(c.body.expiresAt.value))
  }

  predicate Encodable(t: Text) {
    forall i | 0 <= i < |t| :: !(0xD800 <= t[i] <= 0xDFFF)
  }

  /** Major version 1, whatever follows the first dot. */
  predicate SameMajor(version: string) {
    version == "1" || (|version| >= 2 && version[0] == '1' && version[1] == '.')
  }

  /** Field constraints shared by every command (protocol.py:99-106, 157-168, 206). */
  predicate FieldsInRange(b: Body) {
    && SameMajor(b.protocolVersion)
    && (b.reason.Some? ==> |b.reason.value| <= 200)
    && b.strategyId != ""
    && b.strategyVersion != ""
    && (b.symbol.Some? ==> b.symbol.value != "")
    && PositiveIfPresent(b.quantity)
    && PositiveIfPresent(b.price)
    && PositiveIfPresent(b.stopLoss)
    && PositiveIfPresent(b.takeProfit)
    && PositiveIfPresent(b.newPrice)
    && PositiveIfPresent(b.newStopLoss)
    && PositiveIfPresent(b.newTakeProfit)
    && b.maxSlippage >= 0.0
  }

  /** The mandatory fields of submit, cancel and modify. */
  predicate OrderFieldsPresent(c: Command) {
    var b := c.body;
    && b.orderIntentId.Some?
    && b.symbol.Some?
    && b.side.Some?
    && b.quantity.Some?
    && b.orderType.Some?
    && b.expiresAt.Some?
    && b.expiresAt.value > c.timestamp
  }

  /** What the schema validators of the four command classes let through. */
  predicate WellFormed(c: Command) {
    var b := c.body;
    && TimesOnCalendar(c)
    && FieldsInRange(b)
    && match b.messageType
       case SubmitOrder =>
         OrderFieldsPresent(c) && (b.orderType.value != Market ==> b.price.Some?)
       case CancelOrder => OrderFieldsPresent(c)
       case ModifyOrder =>
         OrderFieldsPresent(c) && (b.newPrice.Some? || b.newStopLoss.Some? || b.newTakeProfit.Some?)
       case ReconciliationRequest => true
  }

  /**
    One frame as it reaches the bridge, by how far the parser gets with it:
    bytes that are no JSON; JSON nested beyond the recursion limit; JSON other
    than an object; an object without a textual type; one of an unknown type; an
    event or a reply; a command. `timesFit` says that all times of an event or
    reply are on the calendar, `valid` that it passes its schema.
   */
  datatype Frame =
    | Unparseable
    | TooDeep
    | NotAnObject
    | Untyped
    | UnknownType(name: Text)
    | NotACommand(timesFit: bool, valid: bool)
    | CommandFrame(command: Command, checksumMatches: bool)

  /**
    The frames on which the parser fails with something other than its own error
    (protocol.py:396-449): parsing recurses too deep, a field is looked up in what
    is not an object, the text of an unknown type cannot be encoded into the
    reply, or a time overflows.
   */
  predicate Breaks(f: Frame) {
    match f
    case TooDeep => true
    case NotAnObject => true
    case UnknownType(name) => !Encodable(name)
    case NotACommand(timesFit, _) => !timesFit
    case CommandFrame(c, _) => !TimesOnCalendar(c)
    case Unparseable => false
    case Untyped => false
  }

  datatype ErrorCode =
    | SchemaInvalid | UnknownMessageType | ChecksumMismatch | SafeModeActive
    | CommandExpired | IntentConflict | SequenceViolation
    | UnknownOrder | OrderNotActive
    | TradingDisabled | MarketClosed | SymbolNotAllowed | LotLimitExceeded | LotStepInvalid
    | StaleQuotes | SpreadTooHigh | StopLevelViolation | InsufficientMargin | InvalidMagic

  datatype AckStatus = Submitted | Filled | Cancelled | Modified

  /** Frame fields of a reply, rewritten on every send (emulator.py:280-286). */
  datatype ReplyFrame = ReplyFrame(correlationId: Option<Uuid>, timestamp: Time, sequence: nat)

  datatype Position = Position(
    id: nat,
    orderIntentId: Uuid,
    strategyId: string,
    symbol: string,
    side: OrderSide,
    quantity: real,
    average: real,
    magic: nat)

  datatype Reply =
    | OrderAck(frame: ReplyFrame, orderIntentId: Uuid, status: AckStatus, venueOrderId: nat,
               duplicate: bool, message: Option<string>)
    | OrderReject(frame: ReplyFrame, intent: Option<Uuid>, error: ErrorCode)
    | ReconciliationResponse(frame: ReplyFrame, positions: seq<Position>, openIntents: seq<Uuid>,
                             lastSequences: map<string, nat>, tradingEnabled: bool)

  /** Everything in a reply except its frame fields and the duplicate flag. */
  datatype Payload =
    | AckPayload(orderIntentId: Uuid, status: AckStatus, venueOrderId: nat, message: Option<string>)
    | RejectPayload(intent: Option<Uuid>, error: ErrorCode)
    | ReconciliationPayload(positions: seq<Position>, openIntents: seq<Uuid>,
                            lastSequences: map<string, nat>, tradingEnabled: bool)

  function PayloadOf(r: Reply): Payload {
    match r
    case OrderAck(_, i, s, v, _, m) => AckPayload(i, s, v, m)
    case OrderReject(_, i, e) => RejectPayload(i, e)
    case ReconciliationResponse(_, p, o, l, t) => ReconciliationPayload(p, o, l, t)
  }

  /** `_reframe_reply`: fresh frame fields; only an ack carries the duplicate flag. */
  function Reframe(c: Command, r: Reply, duplicate: bool, now: Time): (out: Reply)
    ensures PayloadOf(out) == PayloadOf(r)
    ensures out.frame == ReplyFrame(Some(c.messageId), now, c.sequence)
    ensures out.OrderAck? <==> r.OrderAck?
    ensures out.OrderAck? ==> out.duplicate == duplicate
  {
    var frame := ReplyFrame(Some(c.messageId), now, c.sequence);
    match r
    case OrderAck(_, i, s, v, _, m) => OrderAck(frame, i, s, v, duplicate, m)
    case OrderReject(_, i, e) => OrderReject(frame, i, e)
    case ReconciliationResponse(_, p, o, l, t) => ReconciliationResponse(frame, p, o, l, t)
  }
}
