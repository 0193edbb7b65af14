/**
  The simulated venue behind the bridge (adapters/mt4/broker.py), as functions
  over the value `Venue`. Quotes are inputs; prices are positive reals.
 */
module Mt4Venue {
  import opened Options
  import opened Mt4Protocol
  import opened Mt4Lots

  datatype SymbolSpec = SymbolSpec(
    minLot: real, maxLot: real, lotStep: real, contractSize: real,
    maxSpread: real, stopLevel: real, freezeLevel: real)

  datatype Quote = Quote(bid: real, ask: real, at: Time)

  datatype Config = Config(
    symbols: map<string, SymbolSpec>,
    balance: real,
    leverage: real,
    marketOpen: bool,
    maxQuoteAge: int,
    partialFillRatio: real,
    commissionPerLot: real,
    magicWhitelist: seq<nat>,
    magicOf: string -> nat)

  datatype WorkingOrder = WorkingOrder(
    id: nat,
    orderIntentId: Uuid,
    strategyId: string,
    symbol: string,
    side: OrderSide,
    orderType: OrderType,
    quantity: real,
    remaining: real,
    price: Option<real>,
    stopLoss: Option<real>,
    takeProfit: Option<real>,
    magic: nat,
    refPrice: real,
    maxSlippage: real)

  /** `working` and `positions` keep the insertion order of the source's dictionaries. */
  datatype Venue = Venue(
    working: seq<WorkingOrder>,
    positions: seq<Position>,
    counter: nat,
    realized: real,
    tradingEnabled: bool,
    quotes: map<string, Quote>)

  datatype Event =
    | PartialFill(orderId: nat, intent: Uuid, quantity: real, remaining: real, price: real,
                  commission: real, slippage: real, symbol: string)
    | Fill(orderId: nat, intent: Uuid, quantity: real, price: real,
           commission: real, slippage: real, symbol: string, side: OrderSide)
    | PositionSnapshot(positions: seq<Position>)
    | AccountSnapshot(equity: real, margin: real)

  datatype BrokerOutcome =
    | Acked(status: AckStatus, orderId: nat, message: Option<string>, events: seq<Event>)
    | Refused(error: ErrorCode)

  ghost predicate ValidConfig(cfg: Config) {
    && 0.0 < cfg.partialFillRatio <= 1.0
    && cfg.leverage > 0.0
    && cfg.commissionPerLot >= 0.0
    && forall s <- cfg.symbols :: cfg.symbols[s].lotStep > 0.0 && cfg.symbols[s].minLot > 0.0
  }

  /** Every configured symbol is quoted at positive prices, ask at or above bid. */
  ghost predicate GoodQuotes(cfg: Config, quotes: map<string, Quote>) {
    forall s <- cfg.symbols :: s in quotes && 0.0 < quotes[s].bid <= quotes[s].ask
  }

  /** The venue trades only configured symbols. */
  ghost predicate Ready(cfg: Config, v: Venue) {
    && ValidConfig(cfg)
    && GoodQuotes(cfg, v.quotes)
    && (forall o <- v.working :: o.symbol in cfg.symbols)
    && (forall p <- v.positions :: p.symbol in cfg.symbols)
  }

  function Start(cfg: Config, quotes: map<string, Quote>): Venue {
    Venue([], [], 0, 0.0, true, quotes)
  }

  // ----- lookups -----------------------------------------------------------------

  /** First working order of an intent, or the length when there is none. */
  function FindWorking(ws: seq<WorkingOrder>, intent: Uuid): (k: nat)
    ensures k <= |ws|
    ensures k < |ws| ==> ws[k].orderIntentId == intent
    ensures forall i | 0 <= i < k :: ws[i].orderIntentId != intent
  {
    if ws == [] then 0
    else if ws[0].orderIntentId == intent then 0
    else 1 + FindWorking(ws[1..], intent)
  }

  /** First position of an intent, or the length when there is none. */
  function FindPosition(ps: seq<Position>, intent: Uuid): (k: nat)
    ensures k <= |ps|
    ensures k < |ps| ==> ps[k].orderIntentId == intent
    ensures forall i | 0 <= i < k :: ps[i].orderIntentId != intent
  {
    if ps == [] then 0
    else if ps[0].orderIntentId == intent then 0
    else 1 + FindPosition(ps[1..], intent)
  }

  // ----- venue checks ------------------------------------------------------------

  function Margin(cfg: Config, ps: seq<Position>): real
    requires cfg.leverage > 0.0
    requires forall p <- ps :: p.symbol in cfg.symbols
  {
    if ps == [] then 0.0
    else ps[0].quantity * cfg.symbols[ps[0].symbol].contractSize / cfg.leverage + Margin(cfg, ps[1..])
  }

  function Distance(a: real, b: real): real {
    if a >= b then a - b else b - a
  }

  /** One protective level: on its own side of the reference, and far enough away. */
  predicate LevelOk(level: Option<real>, below: bool, reference: real, stopLevel: real) {
    level.Some? ==>
      && (if below then level.value < reference else level.value > reference)
      && Distance(reference, level.value) >= stopLevel
  }

  /** `_stop_level_check`: no violation. */
  predicate StopsOk(spec: SymbolSpec, ask: real, side: OrderSide,
                    price: Option<real>, stopLoss: Option<real>, takeProfit: Option<real>)
  {
    var reference := if price.Some? then price.value else ask;
    && LevelOk(stopLoss, side.Buy?, reference, spec.stopLevel)
    && LevelOk(takeProfit, side.Sell?, reference, spec.stopLevel)
  }

  /** `_venue_checks`, in order; `None` lets the order through. */
  function VenueChecks(cfg: Config, v: Venue, c: Command, now: Time): Option<ErrorCode>
    requires Ready(cfg, v) && WellFormed(c) && c.body.messageType == SubmitOrder
  {
    var b := c.body;
    if !v.tradingEnabled then Some(TradingDisabled)
    else if !cfg.marketOpen then Some(MarketClosed)
    else if b.symbol.value !in cfg.symbols then Some(SymbolNotAllowed)
    else
      var spec := cfg.symbols[b.symbol.value];
      var q := v.quotes[b.symbol.value];
      if b.quantity.value < spec.minLot then Some(LotLimitExceeded)
      else if b.quantity.value > spec.maxLot then Some(LotLimitExceeded)
      else if !OnGrid(b.quantity.value, spec.lotStep) then Some(LotStepInvalid)
      else if now - q.at > cfg.maxQuoteAge then Some(StaleQuotes)
      else if q.ask - q.bid > spec.maxSpread then Some(SpreadTooHigh)
      else if !StopsOk(spec, q.ask, b.side.value, b.price, b.stopLoss, b.takeProfit) then
        Some(StopLevelViolation)
      else if b.quantity.value * spec.contractSize * q.ask / cfg.leverage
              > cfg.balance + v.realized - Margin(cfg, v.positions) then
        Some(InsufficientMargin)
      else if cfg.magicWhitelist != [] && cfg.magicOf(b.strategyId) !in cfg.magicWhitelist then
        Some(InvalidMagic)
      else None
  }

  // ----- matching ----------------------------------------------------------------

  predicate IsTouched(o: WorkingOrder, q: Quote) {
    match o.orderType
    case Market => true
    case Limit =>
      o.price.Some? && (if o.side.Buy? then q.ask <= o.price.value else q.bid >= o.price.value)
    case Stop =>
      o.price.Some? && (if o.side.Buy? then q.ask >= o.price.value else q.bid <= o.price.value)
    case StopLimit =>
      o.price.Some? && (if o.side.Buy? then q.ask >= o.price.value else q.bid <= o.price.value)
  }

  function FillPrice(o: WorkingOrder, q: Quote): real {
    if o.side.Buy? then q.ask else q.bid
  }

  function Slippage(o: WorkingOrder, q: Quote): real {
    if o.side.Buy? then FillPrice(o, q) - o.refPrice else o.refPrice - FillPrice(o, q)
  }

  /** The partial ratio applies to the first fill of a MARKET order only. */
  function FillRatio(cfg: Config, o: WorkingOrder): real {
    if o.orderType.Market? && o.remaining == o.quantity then cfg.partialFillRatio else 1.0
  }

  function OrderFill(cfg: Config, o: WorkingOrder): real
    requires o.symbol in cfg.symbols && cfg.symbols[o.symbol].lotStep > 0.0
  {
    FillQuantity(o.remaining, FillRatio(cfg, o), cfg.symbols[o.symbol].lotStep)
  }

  function Mean(average: real, held: real, price: real, bought: real): real
    requires held + bought != 0.0
  {
    (average * held + price * bought) / (held + bought)
  }

  /** `_position_event`: nets one fill into the position of the order's intent. */
  function NetPosition(ps: seq<Position>, o: WorkingOrder, quantity: real, price: real, counter: nat)
    : (seq<Position>, nat)
  {
    var k := FindPosition(ps, o.orderIntentId);
    if k == |ps| then
      (ps + [Position(counter + 1, o.orderIntentId, o.strategyId, o.symbol, o.side, quantity, price,
                      o.magic)],
       counter + 1)
    else if ps[k].quantity + quantity == 0.0 then
      (ps, counter)  // the source divides by zero here; quantities are positive, see PositionsMatch
    else
      (ps[k := ps[k].(quantity := ps[k].quantity + quantity,
                      average := Mean(ps[k].average, ps[k].quantity, price, quantity))],
       counter)
  }

  function FillEventOf(cfg: Config, o: WorkingOrder, q: Quote, quantity: real): Event {
    var commission := quantity * cfg.commissionPerLot;
    if o.remaining - quantity > 0.0 then
      PartialFill(o.id, o.orderIntentId, quantity, o.remaining - quantity, FillPrice(o, q), commission,
                  Slippage(o, q), o.symbol)
    else
      Fill(o.id, o.orderIntentId, quantity, FillPrice(o, q), commission, Slippage(o, q), o.symbol, o.side)
  }

  datatype Matched = Matched(venue: Venue, order: WorkingOrder, events: seq<Event>)

  /** Whether an attempt on this order fills anything. */
  predicate Fillable(cfg: Config, o: WorkingOrder, q: Quote)
    requires o.symbol in cfg.symbols && cfg.symbols[o.symbol].lotStep > 0.0
  {
    Slippage(o, q) <= o.maxSlippage && OrderFill(cfg, o) > 0.0
  }

  /** `_fill_order` on the working order at index `k`. */
  function FillOrder(cfg: Config, v: Venue, k: nat): (m: Matched)
    requires Ready(cfg, v) && k < |v.working|
    ensures Ready(cfg, m.venue)
    ensures m.venue.quotes == v.quotes && m.venue.tradingEnabled == v.tradingEnabled
    ensures |m.venue.working| == |v.working| || |m.venue.working| == |v.working| - 1
  {
    var o := v.working[k];
    var q := v.quotes[o.symbol];
    if !Fillable(cfg, o, q) then
      Matched(v, o, [])
    else
      var quantity := OrderFill(cfg, o);
      var o' := o.(remaining := o.remaining - quantity);
      var whole := o'.remaining <= 0.0;
      var working := if whole then v.working[..k] + v.working[k + 1..] else v.working[k := o'];
      var realized := if whole then v.realized - quantity * cfg.commissionPerLot else v.realized;
      var (positions, counter) := NetPosition(v.positions, o, quantity, FillPrice(o, q), v.counter);
      assert forall p <- positions :: p.symbol in cfg.symbols;
      var v' := Venue(working, positions, counter, realized, v.tradingEnabled, v.quotes);
      Matched(v', o',
              [FillEventOf(cfg, o, q, quantity), PositionSnapshot(positions),
               AccountSnapshot(cfg.balance + realized, Margin(cfg, positions))])
  }

  /** The matching loop of `advance`, from index `i` on. */
  function MatchFrom(cfg: Config, v: Venue, i: nat): (m: (Venue, seq<Event>))
    requires Ready(cfg, v) && i <= |v.working|
    ensures Ready(cfg, m.0)
    decreases |v.working| - i
  {
    if i == |v.working| then (v, [])
    else if !IsTouched(v.working[i], v.quotes[v.working[i].symbol]) then MatchFrom(cfg, v, i + 1)
    else
      var m := FillOrder(cfg, v, i);
      var next := if |m.venue.working| < |v.working| then i else i + 1;
      var rest := MatchFrom(cfg, m.venue, next);
      (rest.0, m.events + rest.1)
  }

  function Advance(cfg: Config, v: Venue, quotes: map<string, Quote>): (m: (Venue, seq<Event>))
    requires Ready(cfg, v) && GoodQuotes(cfg, quotes)
    ensures Ready(cfg, m.0)
  {
    MatchFrom(cfg, v.(quotes := quotes), 0)
  }

  // ----- commands ------------------------------------------------------------------

  function NewOrder(cfg: Config, v: Venue, c: Command): WorkingOrder
    requires Ready(cfg, v) && WellFormed(c) && c.body.messageType == SubmitOrder
    requires c.body.symbol.value in cfg.symbols
  {
    var b := c.body;
    var q := v.quotes[b.symbol.value];
    WorkingOrder(v.counter + 1, b.orderIntentId.value, b.strategyId, b.symbol.value, b.side.value,
                 b.orderType.value, b.quantity.value, b.quantity.value, b.price, b.stopLoss,
                 b.takeProfit, cfg.magicOf(b.strategyId),
                 if b.side.value.Buy? then q.ask else q.bid, b.maxSlippage)
  }

  /** The order is resting, before any matching. */
  function Rested(cfg: Config, v: Venue, c: Command): (v': Venue)
    requires Ready(cfg, v) && WellFormed(c) && c.body.messageType == SubmitOrder
    requires c.body.symbol.value in cfg.symbols
    ensures Ready(cfg, v')
  {
    v.(working := v.working + [NewOrder(cfg, v, c)], counter := v.counter + 1)
  }

  function ProcessSubmit(cfg: Config, v: Venue, c: Command, now: Time): (r: (Venue, BrokerOutcome))
    requires Ready(cfg, v) && WellFormed(c) && c.body.messageType == SubmitOrder
    ensures Ready(cfg, r.0)
  {
    var refusal := VenueChecks(cfg, v, c, now);
    if refusal.Some? then
      (v, Refused(refusal.value))
    else
      var rested := Rested(cfg, v, c);
      var m :=
        if c.body.orderType.value.Market? then FillOrder(cfg, rested, |v.working|)
        else Matched(rested, NewOrder(cfg, v, c), []);
      (m.venue, Acked(if m.order.remaining == 0.0 then Filled else Submitted, m.order.id, None, m.events))
  }

  function ProcessCancel(v: Venue, c: Command): (Venue, BrokerOutcome)
    requires c.body.orderIntentId.Some?
  {
    var k := FindWorking(v.working, c.body.orderIntentId.value);
    if k == |v.working| then
      if FindPosition(v.positions, c.body.orderIntentId.value) < |v.positions| then
        (v, Refused(OrderNotActive))
      else
        (v, Refused(UnknownOrder))
    else if v.working[k].remaining <= 0.0 then
      (v, Refused(OrderNotActive))
    else
      (v.(working := v.working[..k] + v.working[k + 1..]),
       Acked(Cancelled, v.working[k].id, c.body.reason, []))
  }

  function OrElse(x: Option<real>, y: Option<real>): Option<real> {
    if x.Some? then x else y
  }

  function Amended(o: WorkingOrder, b: Body): WorkingOrder {
    o.(price := OrElse(b.newPrice, o.price),
       stopLoss := OrElse(b.newStopLoss, o.stopLoss),
       takeProfit := OrElse(b.newTakeProfit, o.takeProfit))
  }

  function ProcessModify(cfg: Config, v: Venue, c: Command): (r: (Venue, BrokerOutcome))
    requires Ready(cfg, v) && c.body.orderIntentId.Some?
    ensures Ready(cfg, r.0)
  {
    var k := FindWorking(v.working, c.body.orderIntentId.value);
    if k == |v.working| then (v, Refused(UnknownOrder))
    else
      var o := v.working[k];
      var spec := cfg.symbols[o.symbol];
      var o' := Amended(o, c.body);
      if o.remaining <= 0.0 then (v, Refused(OrderNotActive))
      else if c.body.newPrice.Some? && o.price.Some?
              && Distance(c.body.newPrice.value, o.price.value) < spec.freezeLevel then
        (v, Refused(StopLevelViolation))
      else if !StopsOk(spec, v.quotes[o.symbol].ask, o.side, o'.price, o'.stopLoss, o'.takeProfit) then
        (v, Refused(StopLevelViolation))
      else
        (v.(working := v.working[k := o']), Acked(Modified, o.id, None, []))
  }
}
