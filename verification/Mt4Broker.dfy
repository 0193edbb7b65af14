/**
  The mutable objects of the bridge: the simulated broker and the emulator that
  handles frames. Each method is proved to move the state as Mt4Venue and
  Mt4Bridge say, so the results of Mt4Safety and Mt4Conservation are about them.
 */
module Mt4Broker {
  import opened Options
  import opened Mt4Protocol
  import opened Mt4Lots
  import opened Mt4Gate
  import opened Mt4Venue
  import opened Mt4Bridge

  class SimulatedBroker {
    const cfg: Config
    var working: seq<WorkingOrder>
    var positions: seq<Position>
    var counter: nat
    var realized: real
    var tradingEnabled: bool
    var quotes: map<string, Quote>

    constructor (cfg: Config, quotes: map<string, Quote>)
      requires ValidConfig(cfg) && GoodQuotes(cfg, quotes)
      ensures this.cfg == cfg && State() == Start(cfg, quotes) && Ready(cfg, State())
    {
      this.cfg := cfg;
      this.working, this.positions, this.counter := [], [], 0;
      this.realized, this.tradingEnabled, this.quotes := 0.0, true, quotes;
    }

    ghost function State(): Venue
      reads this
    {
      Venue(working, positions, counter, realized, tradingEnabled, quotes)
    }

    method WorkingByIntent(intent: Uuid) returns (k: nat)
      ensures k == FindWorking(working, intent)
    {
      k := 0;
      while k < |working| && working[k].orderIntentId != intent
        invariant k <= |working|
        invariant forall i | 0 <= i < k :: working[i].orderIntentId != intent
      {
        k := k + 1;
      }
    }

    method PositionsByIntent(intent: Uuid) returns (k: nat)
      ensures k == FindPosition(positions, intent)
    {
      k := 0;
      while k < |positions| && positions[k].orderIntentId != intent
        invariant k <= |positions|
        invariant forall i | 0 <= i < k :: positions[i].orderIntentId != intent
      {
        k := k + 1;
      }
    }

    /** The margin sum of `account_state`. */
    method UsedMargin() returns (m: real)
      requires Ready(cfg, State())
      ensures m == Margin(cfg, positions)
    {
      m := 0.0;
      var i := |positions|;
      while i > 0
        invariant 0 <= i <= |positions|
        invariant m == Margin(cfg, positions[i..])
      {
        i := i - 1;
        assert positions[i..][1..] == positions[i + 1..];
        m := positions[i].quantity * cfg.symbols[positions[i].symbol].contractSize / cfg.leverage + m;
      }
      assert positions[0..] == positions;
    }

    method PositionEvent(o: WorkingOrder, quantity: real, price: real)
      modifies this`positions, this`counter
      ensures (positions, counter) == NetPosition(old(positions), o, quantity, price, old(counter))
    {
      var k := PositionsByIntent(o.orderIntentId);
      if k == |positions| {
        counter := counter + 1;
        positions := positions + [Position(counter, o.orderIntentId, o.strategyId, o.symbol, o.side,
                                           quantity, price, o.magic)];
      } else if positions[k].quantity + quantity != 0.0 {
        var held := positions[k];
        positions := positions[k := held.(quantity := held.quantity + quantity,
                                          average := Mean(held.average, held.quantity, price, quantity))];
      }
    }

    /** `_fill_order` for the working order at index `k`; returns the order as it now stands. */
    method FillWorking(k: nat) returns (o: WorkingOrder, events: seq<Event>)
      requires Ready(cfg, State()) && k < |working|
      modifies this`working, this`positions, this`counter, this`realized
      ensures var m := FillOrder(cfg, old(State()), k);
              State() == m.venue && o == m.order && events == m.events
      ensures Ready(cfg, State())
    {
      hide FillQuantity, NetPosition, Margin;
      o := working[k];
      var q := quotes[o.symbol];
      if Slippage(o, q) > o.maxSlippage {
        return o, [];
      }
      var quantity := OrderFill(cfg, o);
      if quantity <= 0.0 {
        return o, [];
      }
      var first := FillEventOf(cfg, o, q, quantity);
      var before := o;
      o := o.(remaining := o.remaining - quantity);
      if o.remaining > 0.0 {
        working := working[k := o];
      } else {
        working := working[..k] + working[k + 1..];
        realized := realized - quantity * cfg.commissionPerLot;
      }
      PositionEvent(before, quantity, FillPrice(before, q));
      assert State() == FillOrder(cfg, old(State()), k).venue;
      var margin := UsedMargin();
      events := [first, PositionSnapshot(positions), AccountSnapshot(cfg.balance + realized, margin)];
    }

    /** Step the quotes, then match every order that was resting. */
    method Advance(newQuotes: map<string, Quote>) returns (events: seq<Event>)
      requires Ready(cfg, State()) && GoodQuotes(cfg, newQuotes)
      modifies this
      ensures (State(), events) == Mt4Venue.Advance(cfg, old(State()), newQuotes)
      ensures Ready(cfg, State())
    {
      hide FillOrder;
      quotes := newQuotes;
      events := [];
      var i := 0;
      ghost var whole := MatchFrom(cfg, State(), 0);
      while i < |working|
        invariant i <= |working| && Ready(cfg, State())
        invariant var rest := MatchFrom(cfg, State(), i);
                  whole.0 == rest.0 && whole.1 == events + rest.1
        decreases |working| - i
      {
        if IsTouched(working[i], quotes[working[i].symbol]) {
          var n := |working|;
          var o, es := FillWorking(i);
          events := events + es;
          if |working| == n { i := i + 1; }
        } else {
          i := i + 1;
        }
      }
      assert events + [] == events;
    }

    method ProcessSubmit(c: Command, now: Time) returns (outcome: BrokerOutcome)
      requires Ready(cfg, State()) && WellFormed(c) && c.body.messageType == SubmitOrder
      modifies this
      ensures (State(), outcome) == Mt4Venue.ProcessSubmit(cfg, old(State()), c, now)
      ensures Ready(cfg, State())
    {
      hide FillOrder, OnGrid, StopsOk, Margin;
      var margin := UsedMargin();
      var refusal := Refusal(c, now, margin);
      if refusal.Some? {
        return Refused(refusal.value);
      }
      var o := NewOrder(cfg, Venue(working, positions, counter, realized, tradingEnabled, quotes), c);
      counter := counter + 1;
      working := working + [o];
      var events: seq<Event> := [];
      assert State() == Rested(cfg, old(State()), c);
      if c.body.orderType.value.Market? {
        o, events := FillWorking(|working| - 1);
      }
      outcome := Acked(if o.remaining == 0.0 then Filled else Submitted, o.id, None, events);
    }

    /** `_venue_checks`, with the account's margin already summed. */
    method Refusal(c: Command, now: Time, margin: real) returns (r: Option<ErrorCode>)
      requires Ready(cfg, State()) && WellFormed(c) && c.body.messageType == SubmitOrder
      requires margin == Margin(cfg, positions)
      ensures r == VenueChecks(cfg, State(), c, now)
    {
      hide OnGrid, StopsOk, Margin;
      var b := c.body;
      if !tradingEnabled { return Some(TradingDisabled); }
      if !cfg.marketOpen { return Some(MarketClosed); }
      if b.symbol.value !in cfg.symbols { return Some(SymbolNotAllowed); }
      var spec, q := cfg.symbols[b.symbol.value], quotes[b.symbol.value];
      if b.quantity.value < spec.minLot { return Some(LotLimitExceeded); }
      if b.quantity.value > spec.maxLot { return Some(LotLimitExceeded); }
      if !OnGrid(b.quantity.value, spec.lotStep) { return Some(LotStepInvalid); }
      if now - q.at > cfg.maxQuoteAge { return Some(StaleQuotes); }
      if q.ask - q.bid > spec.maxSpread { return Some(SpreadTooHigh); }
      if !StopsOk(spec, q.ask, b.side.value, b.price, b.stopLoss, b.takeProfit) {
        return Some(StopLevelViolation);
      }
      var required := b.quantity.value * spec.contractSize * q.ask / cfg.leverage;
      if required > cfg.balance + realized - margin { return Some(InsufficientMargin); }
      if cfg.magicWhitelist != [] && cfg.magicOf(b.strategyId) !in cfg.magicWhitelist {
        return Some(InvalidMagic);
      }
      r := None;
    }

    method ProcessCancel(c: Command) returns (outcome: BrokerOutcome)
      requires c.body.orderIntentId.Some?
      modifies this`working
      ensures (State(), outcome) == Mt4Venue.ProcessCancel(old(State()), c)
    {
      var k := WorkingByIntent(c.body.orderIntentId.value);
      if k == |working| {
        var p := PositionsByIntent(c.body.orderIntentId.value);
        return Refused(if p < |positions| then OrderNotActive else UnknownOrder);
      }
      var o := working[k];
      if o.remaining <= 0.0 {
        return Refused(OrderNotActive);
      }
      working := working[..k] + working[k + 1..];
      outcome := Acked(Cancelled, o.id, c.body.reason, []);
    }

    method ProcessModify(c: Command) returns (outcome: BrokerOutcome)
      requires Ready(cfg, State()) && c.body.orderIntentId.Some?
      modifies this`working
      ensures (State(), outcome) == Mt4Venue.ProcessModify(cfg, old(State()), c)
      ensures Ready(cfg, State())
    {
      hide StopsOk;
      var k := WorkingByIntent(c.body.orderIntentId.value);
      if k == |working| {
        return Refused(UnknownOrder);
      }
      var o := working[k];
      if o.remaining <= 0.0 {
        return Refused(OrderNotActive);
      }
      var spec, amended := cfg.symbols[o.symbol], Amended(o, c.body);
      if c.body.newPrice.Some? && o.price.Some?
         && Distance(c.body.newPrice.value, o.price.value) < spec.freezeLevel {
        return Refused(StopLevelViolation);
      }
      if !StopsOk(spec, quotes[o.symbol].ask, o.side, amended.price, amended.stopLoss, amended.takeProfit) {
        return Refused(StopLevelViolation);
      }
      working := working[k := amended];
      outcome := Acked(Modified, o.id, None, []);
    }
  }

  class Emulator {
    const gate: CommandGate
    const broker: SimulatedBroker
    var safeMode: bool

    constructor (cfg: Config, hash: Body -> string, quotes: map<string, Quote>)
      requires ValidConfig(cfg) && GoodQuotes(cfg, quotes)
      ensures broker.cfg == cfg && gate.hash == hash
      ensures State() == Bridge(EmptyGate, Start(cfg, quotes), false)
    {
      gate := new CommandGate(hash);
      broker := new SimulatedBroker(cfg, quotes);
      safeMode := false;
    }

    ghost function State(): Bridge
      reads this, gate.ledger, gate.sequences, broker
    {
      Bridge(gate.State(), broker.State(), safeMode)
    }

    method DispatchCommand(c: Command, now: Time) returns (reply: Reply, events: seq<Event>)
      requires Ready(broker.cfg, broker.State()) && WellFormed(c)
      modifies broker
      ensures (broker.State(), reply, events) == Dispatch(broker.cfg, old(State()), c, now)
      ensures Ready(broker.cfg, broker.State())
    {
      hide Mt4Venue.ProcessSubmit, Mt4Venue.ProcessCancel, Mt4Venue.ProcessModify;
      var outcome: BrokerOutcome;
      match c.body.messageType {
        case SubmitOrder => outcome := broker.ProcessSubmit(c, now);
        case CancelOrder => outcome := broker.ProcessCancel(c);
        case ModifyOrder => outcome := broker.ProcessModify(c);
        case ReconciliationRequest =>
          return ReconciliationResponse(ReplyFrame(None, now, 0), broker.positions, Intents(broker.working),
                                        gate.sequences.last, broker.tradingEnabled),
                 [];
      }
      reply := OutcomeReply(c, outcome, now);
      events := if outcome.Acked? then outcome.events else [];
    }

    /** `_handle_command`: `raised` is an exception out of the parser or of `gate.record`. */
    method HandleFrame(f: Frame, now: Time) returns (reply: Reply, events: seq<Event>, raised: bool)
      requires Ready(broker.cfg, broker.State())
      modifies broker, gate.ledger, gate.sequences
      ensures var h := Handle(broker.cfg, gate.hash, old(State()), f, now);
              && (raised <==> h.Raised?)
              && (!raised ==> State() == h.bridge && reply == h.reply && events == h.events)
              && (raised ==> broker.State() == h.bridge.venue)
      ensures Breaks(f) ==> raised && State() == old(State())
      ensures Ready(broker.cfg, broker.State())
    {
      hide Verdict, Dispatch;
      raised, events := false, [];
      if f.TooDeep? || f.NotAnObject? {
        return RejectReply(None, SchemaInvalid, now), [], true;
      }
      if f.Unparseable? || f.Untyped? {
        return RejectReply(None, SchemaInvalid, now), [], false;
      }
      if f.UnknownType? {
        return RejectReply(None, UnknownMessageType, now), [], !Encodable(f.name);
      }
      if f.NotACommand? {
        if !f.timesFit {
          return RejectReply(None, SchemaInvalid, now), [], true;
        }
        return RejectReply(None, if f.valid then UnknownMessageType else SchemaInvalid, now), [], false;
      }
      var c := f.command;
      if !TimesOnCalendar(c) {
        return RejectReply(None, SchemaInvalid, now), [], true;
      }
      if !WellFormed(c) {
        return RejectReply(None, SchemaInvalid, now), [], false;
      }
      if !f.checksumMatches {
        return RejectReply(Some(c), ChecksumMismatch, now), [], false;
      }
      if safeMode && c.body.messageType == SubmitOrder {
        return RejectReply(Some(c), SafeModeActive, now), [], false;
      }
      var outcome := gate.Evaluate(c, now);
      if outcome.replay.Some? {
        return Reframe(c, outcome.replay.value, outcome.replay.value.OrderAck?, now), [], false;
      }
      if outcome.error.Some? {
        return RejectReply(Some(c), outcome.error.value, now), [], false;
      }
      reply, events := DispatchCommand(c, now);
      raised := gate.Record(c, reply);
      reply := Reframe(c, reply, false, now);
    }
  }
}
