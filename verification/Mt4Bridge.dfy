/**
  One frame at the bridge (adapters/mt4/emulator.py:187-308): parse, checksum,
  SAFE_MODE, gate, venue, idempotency memory, reply.
 */
module Mt4Bridge {
  import opened Options
  import opened Mt4Protocol
  import opened Mt4Gate
  import opened Mt4Venue

  datatype Bridge = Bridge(gate: Gate, venue: Venue, safeMode: bool)

  /** `Raised` is an exception out of the handler: no reply is sent and the serve loop ends. */
  datatype Handled =
    | Replied(bridge: Bridge, reply: Reply, events: seq<Event>)
    | Raised(bridge: Bridge)

  function RejectReply(c: Option<Command>, error: ErrorCode, now: Time): Reply {
    match c
    case None => OrderReject(ReplyFrame(None, now, 0), None, error)
    case Some(c) => OrderReject(ReplyFrame(Some(c.messageId), now, c.sequence), c.body.orderIntentId, error)
  }

  /** The frame of an ack is a placeholder until it is sent. */
  function OutcomeReply(c: Command, outcome: BrokerOutcome, now: Time): Reply
    requires c.body.orderIntentId.Some?
  {
    match outcome
    case Refused(error) => RejectReply(Some(c), error, now)
    case Acked(status, id, message, _) =>
      OrderAck(ReplyFrame(None, now, 0), c.body.orderIntentId.value, status, id, false, message)
  }

  function Intents(ws: seq<WorkingOrder>): seq<Uuid> {
    seq(|ws|, i requires 0 <= i < |ws| => ws[i].orderIntentId)
  }

  /** The venue call a command leads to. */
  function VenueCall(cfg: Config, v: Venue, c: Command, now: Time): (r: (Venue, BrokerOutcome))
    requires Ready(cfg, v) && WellFormed(c) && c.body.messageType != ReconciliationRequest
    ensures Ready(cfg, r.0)
  {
    match c.body.messageType
    case SubmitOrder => ProcessSubmit(cfg, v, c, now)
    case CancelOrder => ProcessCancel(v, c)
    case ModifyOrder => ProcessModify(cfg, v, c)
  }

  function Dispatch(cfg: Config, b: Bridge, c: Command, now: Time): (r: (Venue, Reply, seq<Event>))
    requires Ready(cfg, b.venue) && WellFormed(c)
    ensures Ready(cfg, r.0)
  {
    if c.body.messageType == ReconciliationRequest then
      (b.venue,
       ReconciliationResponse(ReplyFrame(None, now, 0), b.venue.positions, Intents(b.venue.working),
                              b.gate.last, b.venue.tradingEnabled),
       [])
    else
      var (v, outcome) := VenueCall(cfg, b.venue, c, now);
      (v, OutcomeReply(c, outcome, now), if outcome.Acked? then outcome.events else [])
  }

  /** SAFE_MODE turns new entries away before the gate sees them. */
  predicate Blocked(b: Bridge, c: Command) {
    b.safeMode && c.body.messageType == SubmitOrder
  }

  /** The command reaches the venue: the emulator looks at replay and error, not at accepted. */
  predicate Executes(b: Bridge, c: Command, hash: Body -> string, now: Time) {
    var o := Verdict(b.gate, c, hash, now);
    !Blocked(b, c) && o.replay.None? && o.error.None?
  }

  function HandleCommand(cfg: Config, hash: Body -> string, b: Bridge, c: Command, now: Time): (h: Handled)
    requires Ready(cfg, b.venue) && WellFormed(c)
    ensures Ready(cfg, h.bridge.venue)
  {
    if Blocked(b, c) then
      Replied(b, RejectReply(Some(c), SafeModeActive, now), [])
    else
      var o := Verdict(b.gate, c, hash, now);
      if o.replay.Some? then
        Replied(b, Reframe(c, o.replay.value, o.replay.value.OrderAck?, now), [])
      else if o.error.Some? then
        Replied(b, RejectReply(Some(c), o.error.value, now), [])
      else
        var (v, reply, events) := Dispatch(cfg, b, c, now);
        match Recorded(b.gate, c, reply, hash)
        case None => Raised(b.(venue := v))
        case Some(g) => Replied(b.(gate := g, venue := v), Reframe(c, reply, false, now), events)
  }

  function Handle(cfg: Config, hash: Body -> string, b: Bridge, f: Frame, now: Time): (h: Handled)
    requires Ready(cfg, b.venue)
    ensures Ready(cfg, h.bridge.venue)
  {
    match f
    case Unparseable => Replied(b, RejectReply(None, SchemaInvalid, now), [])
    case TooDeep => Raised(b)
    case NotAnObject => Raised(b)
    case Untyped => Replied(b, RejectReply(None, SchemaInvalid, now), [])
    case UnknownType(name) =>
      if Encodable(name) then Replied(b, RejectReply(None, UnknownMessageType, now), []) else Raised(b)
    case NotACommand(timesFit, valid) =>
      if !timesFit then Raised(b)
      else Replied(b, RejectReply(None, if valid then UnknownMessageType else SchemaInvalid, now), [])
    case CommandFrame(c, checksumMatches) =>
      if !TimesOnCalendar(c) then Raised(b)
      else if !WellFormed(c) then Replied(b, RejectReply(None, SchemaInvalid, now), [])
      else if !checksumMatches then Replied(b, RejectReply(Some(c), ChecksumMismatch, now), [])
      else HandleCommand(cfg, hash, b, c, now)
  }

  /** Only a command that executes can change the bridge. */
  lemma UnexecutedIsInert(cfg: Config, hash: Body -> string, b: Bridge, c: Command, now: Time)
    requires Ready(cfg, b.venue) && WellFormed(c) && !Executes(b, c, hash, now)
    ensures var h := HandleCommand(cfg, hash, b, c, now);
            h.Replied? && h.bridge == b && h.events == []
  {
  }
}
