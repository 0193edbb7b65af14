/**
  Quantity conservation at the venue, over every run of submits, cancels,
  modifies and quote steps.

  The journal is a history variable: the order as it was placed, every fill
  event the venue emitted, and the remainder of every cancelled order.
 */
module Mt4Conservation {
  import opened Options
  import opened Mt4Protocol
  import opened Mt4Lots
  import opened Mt4Venue

  type FillEvent = e: Event | e.PartialFill? || e.Fill?
    witness Fill(0, 0, 0.0, 0.0, 0.0, 0.0, "", Buy)

  datatype Journal = Journal(
    placed: map<nat, WorkingOrder>,
    fills: seq<FillEvent>,
    cancelled: map<nat, real>)

  const EmptyJournal := Journal(map[], [], map[])

  // ----- sums over fill events -----------------------------------------------------

  function FillsIn(events: seq<Event>): seq<FillEvent> {
    if events == [] then []
    else (if events[0].PartialFill? || events[0].Fill? then [events[0]] else []) + FillsIn(events[1..])
  }

  function OfOrder(fs: seq<FillEvent>, id: nat): seq<FillEvent> {
    if fs == [] then []
    else
      var e := fs[|fs| - 1];
      OfOrder(fs[..|fs| - 1], id) + (if e.orderId == id then [e] else [])
  }

  function OfIntent(fs: seq<FillEvent>, intent: Uuid): seq<FillEvent> {
    if fs == [] then []
    else
      var e := fs[|fs| - 1];
      OfIntent(fs[..|fs| - 1], intent) + (if e.intent == intent then [e] else [])
  }

  function Total(fs: seq<FillEvent>): real {
    if fs == [] then 0.0 else Total(fs[..|fs| - 1]) + fs[|fs| - 1].quantity
  }

  function Notional(fs: seq<FillEvent>): real {
    if fs == [] then 0.0
    else Notional(fs[..|fs| - 1]) + fs[|fs| - 1].price * fs[|fs| - 1].quantity
  }

  lemma {:induction false} FillsInConcat(a: seq<Event>, b: seq<Event>)
    ensures FillsIn(a + b) == FillsIn(a) + FillsIn(b)
  {
    if a == [] {
      assert a + b == b;
    } else {
      assert (a + b)[1..] == a[1..] + b && (a + b)[0] == a[0];
      FillsInConcat(a[1..], b);
      var x, y, z := FillsIn([a[0]]), FillsIn(a[1..]), FillsIn(b);
      assert x + (y + z) == x + y + z;
    }
  }

  lemma AppendFill(fs: seq<FillEvent>, e: FillEvent)
    ensures forall id: nat ::
              OfOrder(fs + [e], id) == if e.orderId == id then OfOrder(fs, id) + [e] else OfOrder(fs, id)
    ensures forall i: Uuid ::
              OfIntent(fs + [e], i) == if e.intent == i then OfIntent(fs, i) + [e] else OfIntent(fs, i)
    ensures Total(fs + [e]) == Total(fs) + e.quantity
    ensures Notional(fs + [e]) == Notional(fs) + e.price * e.quantity
  {
    assert (fs + [e])[..|fs|] == fs;
  }

  // ----- the books of one order and of one position ---------------------------------

  /** With these lot steps no partial fill overshoots (Mt4Lots.StepOverfillsExactly). */
  ghost predicate FittingSteps(cfg: Config) {
    forall s <- cfg.symbols :: Fits(cfg.symbols[s].lotStep)
  }

  predicate SameOrder(a: WorkingOrder, b: WorkingOrder) {
    && a.id == b.id
    && a.orderIntentId == b.orderIntentId
    && a.strategyId == b.strategyId
    && a.symbol == b.symbol
    && a.side == b.side
    && a.orderType == b.orderType
    && a.quantity == b.quantity
  }

  /** An order that can still trade: untouched, or partially filled once. */
  ghost predicate StillOpen(fs: seq<FillEvent>) {
    fs == [] || (|fs| == 1 && fs[0].PartialFill?)
  }

  /** A completed order: at most one partial fill, then exactly one full fill. */
  ghost predicate Completed(fs: seq<FillEvent>) {
    || (|fs| == 1 && fs[0].Fill?)
    || (|fs| == 2 && fs[0].PartialFill? && fs[1].Fill?)
  }

  ghost predicate RestingBooks(cfg: Config, j: Journal, w: WorkingOrder) {
    && w.id in j.placed
    && w.id !in j.cancelled
    && SameOrder(w, j.placed[w.id])
    && w.symbol in cfg.symbols
    && cfg.symbols[w.symbol].lotStep > 0.0
    && w.remaining > 0.0
    && OnGrid(w.remaining, cfg.symbols[w.symbol].lotStep)
    && var fs := OfOrder(j.fills, w.id);
       && StillOpen(fs)
       && (fs == [] <==> w.remaining == w.quantity)
       && w.quantity == Total(fs) + w.remaining
  }

  ghost predicate ClosedBooks(j: Journal, id: nat)
    requires id in j.placed
  {
    var fs := OfOrder(j.fills, id);
    if id in j.cancelled then
      StillOpen(fs) && j.cancelled[id] > 0.0 && j.placed[id].quantity == Total(fs) + j.cancelled[id]
    else
      Completed(fs) && j.placed[id].quantity == Total(fs)
  }

  ghost predicate PositionBooks(j: Journal, p: Position) {
    var fs := OfIntent(j.fills, p.orderIntentId);
    && p.quantity > 0.0
    && p.quantity == Total(fs)
    && p.average * p.quantity == Notional(fs)
  }

  ghost function WorkingIds(v: Venue): set<nat> {
    set k | 0 <= k < |v.working| :: v.working[k].id
  }

  ghost predicate OrderBooks(cfg: Config, v: Venue, j: Journal) {
    && (forall k | 0 <= k < |v.working| :: RestingBooks(cfg, j, v.working[k]))
    && (forall k, l | 0 <= k < l < |v.working| :: v.working[k].id != v.working[l].id)
    && (forall id <- j.placed :: id <= v.counter && id == j.placed[id].id)
    && (forall id <- j.placed :: id !in WorkingIds(v) ==> ClosedBooks(j, id))
    && (forall id <- j.cancelled :: id in j.placed)
    && (forall i | 0 <= i < |j.fills| :: j.fills[i].orderId in j.placed)
    && (forall i | 0 <= i < |j.fills| ::
          j.fills[i].intent == j.placed[j.fills[i].orderId].orderIntentId)
  }

  ghost predicate PositionsMatch(v: Venue, j: Journal) {
    && (forall k | 0 <= k < |v.positions| :: PositionBooks(j, v.positions[k]))
    && (forall k, l | 0 <= k < l < |v.positions| ::
          v.positions[k].orderIntentId != v.positions[l].orderIntentId)
    && (forall intent: Uuid :: OfIntent(j.fills, intent) != [] ==>
          FindPosition(v.positions, intent) < |v.positions|)
  }

  ghost predicate Conserved(cfg: Config, v: Venue, j: Journal) {
    && Ready(cfg, v)
    && FittingSteps(cfg)
    && OrderBooks(cfg, v, j)
    && PositionsMatch(v, j)
  }

  // ----- one fill -------------------------------------------------------------------

  lemma NoFillsYet(fs: seq<FillEvent>, id: nat)
    requires forall i | 0 <= i < |fs| :: fs[i].orderId != id
    ensures OfOrder(fs, id) == []
  {
    if fs != [] {
      NoFillsYet(fs[..|fs| - 1], id);
    }
  }

  /** What one fill does to the order it is for. */
  lemma FillSize(cfg: Config, j: Journal, w: WorkingOrder)
    requires ValidConfig(cfg) && FittingSteps(cfg) && RestingBooks(cfg, j, w)
    ensures 0.0 <= OrderFill(cfg, w) <= w.remaining
    ensures OnGrid(w.remaining - OrderFill(cfg, w), cfg.symbols[w.symbol].lotStep)
    ensures OfOrder(j.fills, w.id) != [] ==> OrderFill(cfg, w) == w.remaining
  {
    hide Fits;
    NeverOverfills(w.remaining, FillRatio(cfg, w), cfg.symbols[w.symbol].lotStep);
    if OfOrder(j.fills, w.id) != [] {
      WholeRemainderFills(w.remaining, 1.0, cfg.symbols[w.symbol].lotStep);
    }
  }

  function Noted(j: Journal, events: seq<Event>): Journal {
    j.(fills := j.fills + FillsIn(events))
  }

  lemma MeanIsWeighted(average: real, held: real, price: real, bought: real)
    requires held + bought > 0.0
    ensures Mean(average, held, price, bought) * (held + bought) == average * held + price * bought
  {
  }

  function WithFill(j: Journal, e: FillEvent): Journal {
    j.(fills := j.fills + [e])
  }

  lemma OtherPositionBooks(j: Journal, p: Position, e: FillEvent)
    requires PositionBooks(j, p) && p.orderIntentId != e.intent
    ensures PositionBooks(WithFill(j, e), p)
  {
    AppendFill(j.fills, e);
  }

  lemma OpenedBooks(j: Journal, p: Position, e: FillEvent)
    requires OfIntent(j.fills, e.intent) == [] && p.orderIntentId == e.intent
    requires p.quantity == e.quantity > 0.0 && p.average == e.price
    ensures PositionBooks(WithFill(j, e), p)
  {
    AppendFill(j.fills, e);
    assert OfIntent(WithFill(j, e).fills, e.intent) == [e];
    AppendFill([], e);
    assert [] + [e] == [e];
  }

  lemma NettedBooks(j: Journal, p: Position, e: FillEvent)
    requires PositionBooks(j, p) && p.orderIntentId == e.intent && e.quantity > 0.0
    ensures PositionBooks(WithFill(j, e),
                          p.(quantity := p.quantity + e.quantity,
                             average := Mean(p.average, p.quantity, e.price, e.quantity)))
  {
    AppendFill(j.fills, e);
    AppendFill(OfIntent(j.fills, e.intent), e);
    MeanIsWeighted(p.average, p.quantity, e.price, e.quantity);
  }

  lemma PositionInvolves(j: Journal, p: Position)
    requires PositionBooks(j, p)
    ensures p.quantity > 0.0
  {
  }

  /** Netting a fill keeps every position equal to the fills of its intent. */
  lemma FillKeepsPositions(v: Venue, j: Journal, o: WorkingOrder, e: FillEvent, counter: nat)
    requires PositionsMatch(v, j)
    requires e.intent == o.orderIntentId && e.quantity > 0.0
    ensures PositionsMatch(
              v.(positions := NetPosition(v.positions, o, e.quantity, e.price, counter).0),
              WithFill(j, e))
  {
    hide Total, Notional, OfIntent, Mean, PositionBooks;
    var ps := v.positions;
    var k := FindPosition(ps, o.orderIntentId);
    var ps' := NetPosition(ps, o, e.quantity, e.price, counter).0;
    if k < |ps| { PositionInvolves(j, ps[k]); }
    if k == |ps| {
      OpenedBooks(j, ps'[k], e);
    } else {
      assert PositionBooks(j, ps[k]);
      NettedBooks(j, ps[k], e);
    }
    forall i | 0 <= i < |ps'| ensures PositionBooks(WithFill(j, e), ps'[i]) {
      if i != k {
        assert PositionBooks(j, ps[i]) && ps[i].orderIntentId != e.intent;
        OtherPositionBooks(j, ps[i], e);
      }
    }
    forall intent: Uuid | OfIntent(WithFill(j, e).fills, intent) != []
      ensures FindPosition(ps', intent) < |ps'|
    {
      AppendFill(j.fills, e);
      var l := if intent == e.intent then k else FindPosition(ps, intent);
      assert ps'[l].orderIntentId == intent;
    }
  }

  lemma OtherRestingBooks(cfg: Config, j: Journal, w: WorkingOrder, e: FillEvent)
    requires RestingBooks(cfg, j, w) && e.orderId != w.id
    ensures RestingBooks(cfg, WithFill(j, e), w)
  {
    AppendFill(j.fills, e);
  }

  lemma OtherClosedBooks(j: Journal, id: nat, e: FillEvent)
    requires id in j.placed && ClosedBooks(j, id) && e.orderId != id
    ensures ClosedBooks(WithFill(j, e), id)
  {
    AppendFill(j.fills, e);
  }

  /** The first fill of an order that leaves something resting. */
  lemma PartialBooks(cfg: Config, j: Journal, w: WorkingOrder, e: FillEvent)
    requires RestingBooks(cfg, j, w) && OfOrder(j.fills, w.id) == []
    requires e.PartialFill? && e.orderId == w.id && 0.0 < e.quantity < w.remaining
    requires OnGrid(w.remaining - e.quantity, cfg.symbols[w.symbol].lotStep)
    ensures RestingBooks(cfg, WithFill(j, e), w.(remaining := w.remaining - e.quantity))
  {
    AppendFill(j.fills, e);
    assert OfOrder(WithFill(j, e).fills, w.id) == [e];
    AppendFill([], e);
    assert [] + [e] == [e];
  }

  /** The fill that completes an order. */
  lemma WholeBooks(cfg: Config, j: Journal, w: WorkingOrder, e: FillEvent)
    requires RestingBooks(cfg, j, w)
    requires e.Fill? && e.orderId == w.id && e.quantity == w.remaining
    ensures ClosedBooks(WithFill(j, e), w.id)
  {
    AppendFill(j.fills, e);
    AppendFill(OfOrder(j.fills, w.id), e);
  }

  lemma RestingInvolves(cfg: Config, j: Journal, w: WorkingOrder)
    requires RestingBooks(cfg, j, w)
    ensures w.id in j.placed && w.id !in j.cancelled && w.remaining > 0.0
    ensures SameOrder(w, j.placed[w.id]) && w.symbol in cfg.symbols
  {
  }

  lemma RemovedIds(v: Venue, v': Venue, k: nat)
    requires k < |v.working|
    requires v'.working == v.working[..k] + v.working[k + 1..]
    ensures WorkingIds(v) == WorkingIds(v') + {v.working[k].id}
  {
    forall i | 0 <= i < |v.working| && i != k
      ensures v.working[i].id in WorkingIds(v')
    {
      var l := if i < k then i else i - 1;
      assert v'.working[l] == v.working[i];
    }
    forall i | 0 <= i < |v'.working|
      ensures v'.working[i].id in WorkingIds(v)
    {
      var l := if i < k then i else i + 1;
      assert v'.working[i] == v.working[l];
    }
  }

  lemma OrdersAfterPartial(cfg: Config, v: Venue, j: Journal, k: nat, e: FillEvent, v': Venue)
    requires OrderBooks(cfg, v, j) && k < |v.working|
    requires OfOrder(j.fills, v.working[k].id) == []
    requires e.PartialFill? && e.orderId == v.working[k].id && e.intent == v.working[k].orderIntentId
    requires 0.0 < e.quantity < v.working[k].remaining
    requires OnGrid(v.working[k].remaining - e.quantity, cfg.symbols[v.working[k].symbol].lotStep)
    requires v'.working == v.working[k := v.working[k].(remaining := v.working[k].remaining - e.quantity)]
    requires v'.counter >= v.counter
    ensures OrderBooks(cfg, v', WithFill(j, e))
  {
    hide Total, OfOrder, OnGrid, RestingBooks, ClosedBooks;
    var j' := WithFill(j, e);
    RestingInvolves(cfg, j, v.working[k]);
    assert WorkingIds(v') == WorkingIds(v) by {
      assert forall i | 0 <= i < |v.working| :: v'.working[i].id == v.working[i].id;
    }
    forall i | 0 <= i < |v'.working| ensures RestingBooks(cfg, j', v'.working[i]) {
      if i == k {
        PartialBooks(cfg, j, v.working[k], e);
      } else {
        OtherRestingBooks(cfg, j, v.working[i], e);
      }
    }
    forall id <- j'.placed | id !in WorkingIds(v') ensures ClosedBooks(j', id) {
      OtherClosedBooks(j, id, e);
    }
  }

  lemma OrdersAfterWhole(cfg: Config, v: Venue, j: Journal, k: nat, e: FillEvent, v': Venue)
    requires OrderBooks(cfg, v, j) && k < |v.working|
    requires e.Fill? && e.orderId == v.working[k].id && e.intent == v.working[k].orderIntentId
    requires e.quantity == v.working[k].remaining
    requires v'.working == v.working[..k] + v.working[k + 1..]
    requires v'.counter >= v.counter
    ensures OrderBooks(cfg, v', WithFill(j, e))
  {
    hide Total, OfOrder, OnGrid, RestingBooks, ClosedBooks;
    var j' := WithFill(j, e);
    RestingInvolves(cfg, j, v.working[k]);
    RemovedIds(v, v', k);
    forall i | 0 <= i < |v'.working| ensures RestingBooks(cfg, j', v'.working[i]) {
      var l := if i < k then i else i + 1;
      assert v'.working[i] == v.working[l];
      OtherRestingBooks(cfg, j, v.working[l], e);
    }
    forall id <- j'.placed | id !in WorkingIds(v') ensures ClosedBooks(j', id) {
      if id == v.working[k].id {
        WholeBooks(cfg, j, v.working[k], e);
      } else {
        OtherClosedBooks(j, id, e);
      }
    }
  }

  lemma OneFillAmongThree(es: seq<Event>)
    requires |es| == 3 && (es[0].PartialFill? || es[0].Fill?)
    requires es[1].PositionSnapshot? && es[2].AccountSnapshot?
    ensures FillsIn(es) == [es[0]]
  {
    var a := es[1..];
    var b := a[1..];
    assert b[0].AccountSnapshot? && b[1..] == [];
    assert FillsIn(b) == [];
    assert FillsIn(a) == [];
  }

  /** What a successful attempt does, without its arithmetic. */
  lemma FillEffect(cfg: Config, v: Venue, j: Journal, k: nat)
    requires Ready(cfg, v) && FittingSteps(cfg) && k < |v.working| && RestingBooks(cfg, j, v.working[k])
    requires Fillable(cfg, v.working[k], v.quotes[v.working[k].symbol])
    ensures var w, m := v.working[k], FillOrder(cfg, v, k);
            && |m.events| == 3
            && FillsIn(m.events) == [m.events[0]]
            && var e: FillEvent := m.events[0];
               && e.orderId == w.id && e.intent == w.orderIntentId
               && 0.0 < e.quantity <= w.remaining
               && OnGrid(w.remaining - e.quantity, cfg.symbols[w.symbol].lotStep)
               && (e.quantity < w.remaining ==>
                     && e.PartialFill?
                     && OfOrder(j.fills, w.id) == []
                     && m.venue.working == v.working[k := w.(remaining := w.remaining - e.quantity)])
               && (e.quantity == w.remaining ==>
                     && e.Fill?
                     && m.venue.working == v.working[..k] + v.working[k + 1..])
               && (m.venue.positions, m.venue.counter) ==
                  NetPosition(v.positions, w, e.quantity, e.price, v.counter)
  {
    hide FillQuantity, OnGrid, NetPosition, Margin, Slippage, Total, RestingBooks;
    FillSize(cfg, j, v.working[k]);
    OneFillAmongThree(FillOrder(cfg, v, k).events);
  }

  /** One matching attempt conserves every order and every position. */
  lemma FillConserves(cfg: Config, v: Venue, j: Journal, k: nat)
    requires Conserved(cfg, v, j) && k < |v.working|
    ensures var m := FillOrder(cfg, v, k);
            Conserved(cfg, m.venue, Noted(j, m.events))
  {
    hide FillQuantity, Margin, NetPosition, Slippage, PositionsMatch, OnGrid, Total;
    var m := FillOrder(cfg, v, k);
    var w := v.working[k];
    if Fillable(cfg, w, v.quotes[w.symbol]) {
      FillEffect(cfg, v, j, k);
      ConservedAfterFill(cfg, v, j, k, m.events[0], m.venue);
    } else {
      NothingNoted(j);
    }
  }

  lemma ConservedAfterFill(cfg: Config, v: Venue, j: Journal, k: nat, e: FillEvent, v': Venue)
    requires Conserved(cfg, v, j) && Ready(cfg, v') && k < |v.working|
    requires e.orderId == v.working[k].id && e.intent == v.working[k].orderIntentId
    requires 0.0 < e.quantity <= v.working[k].remaining
    requires OnGrid(v.working[k].remaining - e.quantity, cfg.symbols[v.working[k].symbol].lotStep)
    requires e.quantity < v.working[k].remaining ==>
               && e.PartialFill?
               && OfOrder(j.fills, v.working[k].id) == []
               && v'.working ==
                  v.working[k := v.working[k].(remaining := v.working[k].remaining - e.quantity)]
    requires e.quantity == v.working[k].remaining ==>
               e.Fill? && v'.working == v.working[..k] + v.working[k + 1..]
    requires (v'.positions, v'.counter) ==
             NetPosition(v.positions, v.working[k], e.quantity, e.price, v.counter)
    ensures Conserved(cfg, v', WithFill(j, e))
  {
    if e.quantity < v.working[k].remaining {
      OrdersAfterPartial(cfg, v, j, k, e, v');
    } else {
      OrdersAfterWhole(cfg, v, j, k, e, v');
    }
    FillKeepsPositions(v, j, v.working[k], e, v.counter);
  }

  lemma NothingNoted(j: Journal)
    ensures Noted(j, []) == j
  {
    assert j.fills + FillsIn([]) == j.fills;
  }

  lemma NotedTwice(j: Journal, a: seq<Event>, b: seq<Event>)
    ensures Noted(Noted(j, a), b) == Noted(j, a + b)
  {
    FillsInConcat(a, b);
  }

  /** A whole quote step conserves, whatever it matches. */
  lemma {:induction false} MatchConserves(cfg: Config, v: Venue, j: Journal, i: nat)
    requires Conserved(cfg, v, j) && i <= |v.working|
    ensures var m := MatchFrom(cfg, v, i);
            Conserved(cfg, m.0, Noted(j, m.1))
    decreases |v.working| - i
  {
    hide FillOrder, OrderBooks, PositionsMatch, Noted;
    if i == |v.working| {
      NothingNoted(j);
    } else if !IsTouched(v.working[i], v.quotes[v.working[i].symbol]) {
      MatchConserves(cfg, v, j, i + 1);
    } else {
      var m := FillOrder(cfg, v, i);
      var next := if |m.venue.working| < |v.working| then i else i + 1;
      FillConserves(cfg, v, j, i);
      MatchConserves(cfg, m.venue, Noted(j, m.events), next);
      NotedTwice(j, m.events, MatchFrom(cfg, m.venue, next).1);
    }
  }

  // ----- commands -------------------------------------------------------------------

  function SubmitJournal(cfg: Config, v: Venue, j: Journal, c: Command, now: Time): Journal
    requires Ready(cfg, v) && WellFormed(c) && c.body.messageType == SubmitOrder
  {
    match ProcessSubmit(cfg, v, c, now).1
    case Refused(_) => j
    case Acked(_, id, _, events) => Noted(j.(placed := j.placed[id := NewOrder(cfg, v, c)]), events)
  }

  function CancelJournal(v: Venue, j: Journal, c: Command): Journal
    requires c.body.orderIntentId.Some?
  {
    match ProcessCancel(v, c).1
    case Refused(_) => j
    case Acked(_, id, _, _) =>
      j.(cancelled := j.cancelled[id := v.working[FindWorking(v.working, c.body.orderIntentId.value)].remaining])
  }

  /** Positions depend on the fills alone. */
  lemma PositionsFrame(v: Venue, j: Journal, v': Venue, j': Journal)
    requires PositionsMatch(v, j) && v'.positions == v.positions && j'.fills == j.fills
    ensures PositionsMatch(v', j')
  {
    hide Total, Notional, OfIntent;
    forall k | 0 <= k < |v.positions| ensures PositionBooks(j', v.positions[k]) {
      assert PositionBooks(j, v.positions[k]);
    }
  }

  /** Resting books depend on the fills and on the order's own journal entries. */
  lemma RestingFrame(cfg: Config, j: Journal, j': Journal, w: WorkingOrder)
    requires RestingBooks(cfg, j, w)
    requires j'.fills == j.fills && w.id in j'.placed && j'.placed[w.id] == j.placed[w.id]
    requires w.id !in j'.cancelled
    ensures RestingBooks(cfg, j', w)
  {
  }

  lemma BooksWithNewOrder(cfg: Config, v: Venue, j: Journal, o: WorkingOrder, v': Venue)
    requires OrderBooks(cfg, v, j)
    requires o.id == v.counter + 1 && RestingBooks(cfg, j.(placed := j.placed[o.id := o]), o)
    requires v'.working == v.working + [o] && v'.counter == v.counter + 1
    ensures OrderBooks(cfg, v', j.(placed := j.placed[o.id := o]))
  {
    hide Total, OfOrder, OnGrid, RestingBooks, ClosedBooks;
    var j' := j.(placed := j.placed[o.id := o]);
    forall i | 0 <= i < |v.working| ensures v'.working[i] == v.working[i] != o {
      RestingInvolves(cfg, j, v.working[i]);
    }
    assert v'.working[|v.working|] == o;
    forall i | 0 <= i < |v.working| ensures RestingBooks(cfg, j', v.working[i]) {
      RestingInvolves(cfg, j, v.working[i]);
      RestingFrame(cfg, j, j', v.working[i]);
    }
    assert WorkingIds(v') == WorkingIds(v) + {o.id};
    forall id <- j'.placed | id !in WorkingIds(v') ensures ClosedBooks(j', id) {
      ClosedFrame(j, j', id);
    }
    forall i, l | 0 <= i < l < |v'.working| ensures v'.working[i].id != v'.working[l].id {
      RestingInvolves(cfg, j, v.working[i]);
    }
  }

  lemma NewOrderBooks(cfg: Config, v: Venue, j: Journal, c: Command)
    requires Conserved(cfg, v, j)
    requires WellFormed(c) && c.body.messageType == SubmitOrder && c.body.symbol.value in cfg.symbols
    requires OnGrid(c.body.quantity.value, cfg.symbols[c.body.symbol.value].lotStep)
    ensures var o := NewOrder(cfg, v, c);
            o.id !in j.placed && RestingBooks(cfg, j.(placed := j.placed[o.id := o]), o)
  {
    hide OnGrid, PositionsMatch, RestingBooks, ClosedBooks;
    var o := NewOrder(cfg, v, c);
    assert o.id !in j.placed;
    NoFillsYet(j.fills, o.id);
    UntouchedBooks(cfg, j.(placed := j.placed[o.id := o]), o);
  }

  lemma UntouchedBooks(cfg: Config, j: Journal, o: WorkingOrder)
    requires o.id in j.placed && j.placed[o.id] == o && o.id !in j.cancelled
    requires o.symbol in cfg.symbols && cfg.symbols[o.symbol].lotStep > 0.0
    requires o.quantity == o.remaining > 0.0 && OnGrid(o.remaining, cfg.symbols[o.symbol].lotStep)
    requires OfOrder(j.fills, o.id) == []
    ensures RestingBooks(cfg, j, o)
  {
  }

  lemma PlacingConserves(cfg: Config, v: Venue, j: Journal, c: Command)
    requires Conserved(cfg, v, j)
    requires WellFormed(c) && c.body.messageType == SubmitOrder && c.body.symbol.value in cfg.symbols
    requires OnGrid(c.body.quantity.value, cfg.symbols[c.body.symbol.value].lotStep)
    ensures var o := NewOrder(cfg, v, c);
            Conserved(cfg, Rested(cfg, v, c), j.(placed := j.placed[o.id := o]))
  {
    hide OnGrid, OrderBooks, PositionsMatch, RestingBooks;
    var o := NewOrder(cfg, v, c);
    NewOrderBooks(cfg, v, j, c);
    BooksWithNewOrder(cfg, v, j, o, Rested(cfg, v, c));
    PositionsFrame(v, j, Rested(cfg, v, c), j.(placed := j.placed[o.id := o]));
  }

  lemma ClosedFrame(j: Journal, j': Journal, id: nat)
    requires id in j.placed && ClosedBooks(j, id)
    requires j'.fills == j.fills && id in j'.placed && j'.placed[id] == j.placed[id]
    requires id in j'.cancelled <==> id in j.cancelled
    requires id in j.cancelled ==> j'.cancelled[id] == j.cancelled[id]
    ensures ClosedBooks(j', id)
  {
  }

  lemma CancelledBooks(cfg: Config, j: Journal, j': Journal, w: WorkingOrder)
    requires RestingBooks(cfg, j, w)
    requires j'.fills == j.fills && j'.placed == j.placed
    requires w.id in j'.cancelled && j'.cancelled[w.id] == w.remaining
    ensures ClosedBooks(j', w.id)
  {
  }

  lemma SubmitConserves(cfg: Config, v: Venue, j: Journal, c: Command, now: Time)
    requires Conserved(cfg, v, j) && WellFormed(c) && c.body.messageType == SubmitOrder
    ensures Conserved(cfg, ProcessSubmit(cfg, v, c, now).0, SubmitJournal(cfg, v, j, c, now))
  {
    hide OrderBooks, PositionsMatch, FillOrder, Noted, OnGrid, StopsOk, Margin;
    if VenueChecks(cfg, v, c, now).None? {
      var o := NewOrder(cfg, v, c);
      var j' := j.(placed := j.placed[o.id := o]);
      PlacingConserves(cfg, v, j, c);
      if c.body.orderType.value.Market? {
        FillConserves(cfg, Rested(cfg, v, c), j', |v.working|);
        FilledSameOrder(cfg, Rested(cfg, v, c), |v.working|);
      } else {
        NothingNoted(j');
      }
    }
  }

  lemma FilledSameOrder(cfg: Config, v: Venue, k: nat)
    requires Ready(cfg, v) && k < |v.working|
    ensures SameOrder(FillOrder(cfg, v, k).order, v.working[k])
  {
  }

  lemma BooksWithoutOrder(cfg: Config, v: Venue, j: Journal, k: nat, v': Venue)
    requires OrderBooks(cfg, v, j) && k < |v.working|
    requires v'.working == v.working[..k] + v.working[k + 1..] && v'.counter == v.counter
    ensures OrderBooks(cfg, v', j.(cancelled := j.cancelled[v.working[k].id := v.working[k].remaining]))
  {
    hide Total, OfOrder, OnGrid, RestingBooks, ClosedBooks;
    var w := v.working[k];
    var j' := j.(cancelled := j.cancelled[w.id := w.remaining]);
    RestingInvolves(cfg, j, w);
    CancelledBooks(cfg, j, j', w);
    RemovedIds(v, v', k);
    forall i | 0 <= i < |v'.working| ensures RestingBooks(cfg, j', v'.working[i]) {
      var l := if i < k then i else i + 1;
      assert v'.working[i] == v.working[l];
      RestingInvolves(cfg, j, v.working[l]);
      RestingFrame(cfg, j, j', v.working[l]);
    }
    forall id <- j'.placed | id !in WorkingIds(v') ensures ClosedBooks(j', id) {
      if id != w.id { ClosedFrame(j, j', id); }
    }
  }

  lemma CancelConserves(cfg: Config, v: Venue, j: Journal, c: Command)
    requires Conserved(cfg, v, j) && c.body.orderIntentId.Some?
    ensures Conserved(cfg, ProcessCancel(v, c).0, CancelJournal(v, j, c))
  {
    hide OrderBooks, PositionsMatch;
    if ProcessCancel(v, c).1.Acked? {
      var k := FindWorking(v.working, c.body.orderIntentId.value);
      BooksWithoutOrder(cfg, v, j, k, ProcessCancel(v, c).0);
      PositionsFrame(v, j, ProcessCancel(v, c).0, CancelJournal(v, j, c));
    }
  }

  lemma ModifyConserves(cfg: Config, v: Venue, j: Journal, c: Command)
    requires Conserved(cfg, v, j) && c.body.orderIntentId.Some?
    ensures Conserved(cfg, ProcessModify(cfg, v, c).0, j)
  {
    hide StopsOk, Total, OfOrder, OnGrid, PositionsMatch, RestingBooks, ClosedBooks;
    var k := FindWorking(v.working, c.body.orderIntentId.value);
    var v' := ProcessModify(cfg, v, c).0;
    if v' != v {
      assert v'.working == v.working[k := Amended(v.working[k], c.body)];
      PositionsFrame(v, j, v', j);
      forall i | 0 <= i < |v'.working| ensures RestingBooks(cfg, j, v'.working[i]) {
        if i == k { AmendedBooks(cfg, j, v.working[k], c.body); }
      }
      assert WorkingIds(v') == WorkingIds(v) by {
        assert forall i | 0 <= i < |v.working| :: v'.working[i].id == v.working[i].id;
      }
    }
  }

  /** An amendment touches prices only. */
  lemma AmendedBooks(cfg: Config, j: Journal, w: WorkingOrder, b: Body)
    requires RestingBooks(cfg, j, w)
    ensures RestingBooks(cfg, j, Amended(w, b))
  {
  }

  lemma AdvanceConserves(cfg: Config, v: Venue, j: Journal, quotes: map<string, Quote>)
    requires Conserved(cfg, v, j) && GoodQuotes(cfg, quotes)
    ensures Conserved(cfg, Advance(cfg, v, quotes).0, Noted(j, Advance(cfg, v, quotes).1))
  {
    var v' := v.(quotes := quotes);
    assert WorkingIds(v') == WorkingIds(v);
    MatchConserves(cfg, v', j, 0);
  }

  // ----- runs -----------------------------------------------------------------------

  datatype VenueStep =
    | Submit(c: Command, now: Time)
    | Cancel(c: Command)
    | Modify(c: Command)
    | QuoteStep(quotes: map<string, Quote>)
    | SetTrading(enabled: bool)

  ghost predicate Admissible(cfg: Config, s: VenueStep) {
    match s
    case Submit(c, _) => WellFormed(c) && c.body.messageType == SubmitOrder
    case Cancel(c) => WellFormed(c) && c.body.messageType == CancelOrder
    case Modify(c) => WellFormed(c) && c.body.messageType == ModifyOrder
    case QuoteStep(quotes) => GoodQuotes(cfg, quotes)
    case SetTrading(_) => true
  }

  ghost function Next(cfg: Config, v: Venue, j: Journal, s: VenueStep): (n: (Venue, Journal))
    requires Ready(cfg, v) && Admissible(cfg, s)
    ensures Ready(cfg, n.0)
  {
    match s
    case Submit(c, now) => (ProcessSubmit(cfg, v, c, now).0, SubmitJournal(cfg, v, j, c, now))
    case Cancel(c) => (ProcessCancel(v, c).0, CancelJournal(v, j, c))
    case Modify(c) => (ProcessModify(cfg, v, c).0, j)
    case QuoteStep(quotes) =>
      (Advance(cfg, v, quotes).0, Noted(j, Advance(cfg, v, quotes).1))
    case SetTrading(enabled) => (v.(tradingEnabled := enabled), j)
  }

  ghost function Run(cfg: Config, v: Venue, j: Journal, steps: seq<VenueStep>): (n: (Venue, Journal))
    requires Ready(cfg, v) && forall s <- steps :: Admissible(cfg, s)
    ensures Ready(cfg, n.0)
    decreases |steps|
  {
    if steps == [] then (v, j)
    else
      var n := Next(cfg, v, j, steps[0]);
      Run(cfg, n.0, n.1, steps[1..])
  }

  lemma StepConserves(cfg: Config, v: Venue, j: Journal, s: VenueStep)
    requires Conserved(cfg, v, j) && Admissible(cfg, s)
    ensures var n := Next(cfg, v, j, s); Conserved(cfg, n.0, n.1)
  {
    hide ProcessSubmit, ProcessCancel, ProcessModify, Advance, SubmitJournal, CancelJournal, Noted, PositionsMatch;
    match s
    case Submit(c, now) => SubmitConserves(cfg, v, j, c, now);
    case Cancel(c) => CancelConserves(cfg, v, j, c);
    case Modify(c) => ModifyConserves(cfg, v, j, c);
    case QuoteStep(quotes) => AdvanceConserves(cfg, v, j, quotes);
    case SetTrading(enabled) => TradingFlagConserves(cfg, v, j, enabled);
  }

  lemma TradingFlagConserves(cfg: Config, v: Venue, j: Journal, enabled: bool)
    requires Conserved(cfg, v, j)
    ensures Conserved(cfg, v.(tradingEnabled := enabled), j)
  {
    assert WorkingIds(v.(tradingEnabled := enabled)) == WorkingIds(v);
  }

  lemma {:induction false} RunConserves(cfg: Config, v: Venue, j: Journal, steps: seq<VenueStep>)
    requires Conserved(cfg, v, j) && forall s <- steps :: Admissible(cfg, s)
    ensures var n := Run(cfg, v, j, steps); Conserved(cfg, n.0, n.1)
    decreases |steps|
  {
    hide Next, OrderBooks, PositionsMatch;
    if steps != [] {
      var n := Next(cfg, v, j, steps[0]);
      StepConserves(cfg, v, j, steps[0]);
      RunConserves(cfg, n.0, n.1, steps[1..]);
    }
  }

  /** How much of a placed order is neither filled nor dropped. */
  ghost function Outstanding(v: Venue, j: Journal, id: nat): real
    requires id in j.placed
  {
    if exists k :: 0 <= k < |v.working| && v.working[k].id == id then
      var k :| 0 <= k < |v.working| && v.working[k].id == id;
      v.working[k].remaining
    else if id in j.cancelled then j.cancelled[id]
    else 0.0
  }

  /**
    From an empty venue, after any run: the requested quantity of every order
    ever placed is its fills plus what rests or was cancelled; it saw at most
    one partial and then at most one full fill; and every position is the fill
    total of its intent at the quantity-weighted mean price.
   */
  lemma QuantityIsConserved(cfg: Config, quotes: map<string, Quote>, steps: seq<VenueStep>)
    requires ValidConfig(cfg) && FittingSteps(cfg) && GoodQuotes(cfg, quotes)
    requires forall s <- steps :: Admissible(cfg, s)
    ensures var (v, j) := Run(cfg, Start(cfg, quotes), EmptyJournal, steps);
            && (forall id <- j.placed ::
                  && j.placed[id].quantity == Total(OfOrder(j.fills, id)) + Outstanding(v, j, id)
                  && Outstanding(v, j, id) >= 0.0
                  && (StillOpen(OfOrder(j.fills, id)) || Completed(OfOrder(j.fills, id)))
                  && (Completed(OfOrder(j.fills, id)) ==> Outstanding(v, j, id) == 0.0))
            && (forall k :: 0 <= k < |v.working| ==>
                  && v.working[k].remaining > 0.0 && v.working[k].symbol in cfg.symbols
                  && cfg.symbols[v.working[k].symbol].lotStep > 0.0
                  && OnGrid(v.working[k].remaining, cfg.symbols[v.working[k].symbol].lotStep))
            && (forall p <- v.positions ::
                  && p.quantity == Total(OfIntent(j.fills, p.orderIntentId)) > 0.0
                  && p.average * p.quantity == Notional(OfIntent(j.fills, p.orderIntentId)))
            && (forall id <- j.cancelled ::
                  && id in j.placed && id !in WorkingIds(v) && j.cancelled[id] > 0.0
                  && StillOpen(OfOrder(j.fills, id)) && Outstanding(v, j, id) == j.cancelled[id])
            && (forall intent: Uuid :: OfIntent(j.fills, intent) != [] ==>
                  exists k :: 0 <= k < |v.positions| && v.positions[k].orderIntentId == intent)
  {
    hide Run;
    assert Conserved(cfg, Start(cfg, quotes), EmptyJournal);
    RunConserves(cfg, Start(cfg, quotes), EmptyJournal, steps);
    var (v, j) := Run(cfg, Start(cfg, quotes), EmptyJournal, steps);
    forall id <- j.placed
      ensures && j.placed[id].quantity == Total(OfOrder(j.fills, id)) + Outstanding(v, j, id)
              && Outstanding(v, j, id) >= 0.0
              && (StillOpen(OfOrder(j.fills, id)) || Completed(OfOrder(j.fills, id)))
              && (Completed(OfOrder(j.fills, id)) ==> Outstanding(v, j, id) == 0.0)
    {
      BooksOf(cfg, v, j, id);
    }
    forall p <- v.positions
      ensures && p.quantity == Total(OfIntent(j.fills, p.orderIntentId)) > 0.0
              && p.average * p.quantity == Notional(OfIntent(j.fills, p.orderIntentId))
    {
      assert PositionBooks(j, p);
    }
    forall id <- j.cancelled
      ensures && id in j.placed && id !in WorkingIds(v) && j.cancelled[id] > 0.0
              && StillOpen(OfOrder(j.fills, id)) && Outstanding(v, j, id) == j.cancelled[id]
    {
      CancelledOf(cfg, v, j, id);
    }
    forall intent: Uuid | OfIntent(j.fills, intent) != []
      ensures exists k :: 0 <= k < |v.positions| && v.positions[k].orderIntentId == intent
    {
      var k := FindPosition(v.positions, intent);
      assert v.positions[k].orderIntentId == intent;
    }
  }

  lemma CancelledOf(cfg: Config, v: Venue, j: Journal, id: nat)
    requires Conserved(cfg, v, j) && id in j.cancelled
    ensures id in j.placed && id !in WorkingIds(v) && j.cancelled[id] > 0.0
    ensures StillOpen(OfOrder(j.fills, id)) && Outstanding(v, j, id) == j.cancelled[id]
  {
    hide PositionsMatch, OfOrder, Total;
    forall k | 0 <= k < |v.working| ensures v.working[k].id != id {
      assert RestingBooks(cfg, j, v.working[k]);
    }
    assert ClosedBooks(j, id);
  }

  // ----- a closed order stays closed -------------------------------------------------------

  /** Placed, and filled whole or cancelled since. */
  ghost predicate Closed(v: Venue, j: Journal, id: nat) {
    id in j.placed && id !in WorkingIds(v)
  }

  /** The order's record is the same in both journals. */
  ghost predicate SameRecord(j: Journal, j': Journal, id: nat) {
    && id in j.placed && id in j'.placed && j'.placed[id] == j.placed[id]
    && OfOrder(j'.fills, id) == OfOrder(j.fills, id)
    && (id in j'.cancelled <==> id in j.cancelled)
    && (id in j.cancelled ==> j'.cancelled[id] == j.cancelled[id])
  }

  lemma FillLeaves(cfg: Config, v: Venue, j: Journal, k: nat, id: nat)
    requires Conserved(cfg, v, j) && k < |v.working| && Closed(v, j, id)
    ensures var m := FillOrder(cfg, v, k);
            Closed(m.venue, Noted(j, m.events), id) && SameRecord(j, Noted(j, m.events), id)
  {
    hide FillQuantity, Margin, NetPosition, Slippage, PositionsMatch, OnGrid, Total, OfOrder, RestingBooks;
    var m, w := FillOrder(cfg, v, k), v.working[k];
    if Fillable(cfg, w, v.quotes[w.symbol]) {
      FillEffect(cfg, v, j, k);
      AppendFill(j.fills, m.events[0]);
      assert w.id in WorkingIds(v);
      assert WorkingIds(m.venue) <= WorkingIds(v);
    } else {
      NothingNoted(j);
    }
  }

  lemma {:induction false} MatchLeaves(cfg: Config, v: Venue, j: Journal, i: nat, id: nat)
    requires Conserved(cfg, v, j) && i <= |v.working| && Closed(v, j, id)
    ensures var m := MatchFrom(cfg, v, i);
            Closed(m.0, Noted(j, m.1), id) && SameRecord(j, Noted(j, m.1), id)
    decreases |v.working| - i
  {
    hide FillOrder, OrderBooks, PositionsMatch, Noted, OfOrder, WorkingIds;
    if i == |v.working| {
      NothingNoted(j);
    } else if !IsTouched(v.working[i], v.quotes[v.working[i].symbol]) {
      MatchLeaves(cfg, v, j, i + 1, id);
    } else {
      var m := FillOrder(cfg, v, i);
      var next := if |m.venue.working| < |v.working| then i else i + 1;
      FillConserves(cfg, v, j, i);
      FillLeaves(cfg, v, j, i, id);
      MatchLeaves(cfg, m.venue, Noted(j, m.events), next, id);
      NotedTwice(j, m.events, MatchFrom(cfg, m.venue, next).1);
    }
  }

  lemma PlacingLeaves(cfg: Config, v: Venue, j: Journal, c: Command, id: nat)
    requires Conserved(cfg, v, j) && Closed(v, j, id)
    requires WellFormed(c) && c.body.messageType == SubmitOrder && c.body.symbol.value in cfg.symbols
    ensures var o := NewOrder(cfg, v, c);
            var j' := j.(placed := j.placed[o.id := o]);
            Closed(Rested(cfg, v, c), j', id) && SameRecord(j, j', id)
  {
    hide PositionsMatch, OfOrder, RestingBooks, ClosedBooks;
    assert WorkingIds(Rested(cfg, v, c)) <= WorkingIds(v) + {v.counter + 1};
  }

  lemma SubmitLeaves(cfg: Config, v: Venue, j: Journal, c: Command, now: Time, id: nat)
    requires Conserved(cfg, v, j) && WellFormed(c) && c.body.messageType == SubmitOrder && Closed(v, j, id)
    ensures var j' := SubmitJournal(cfg, v, j, c, now);
            Closed(ProcessSubmit(cfg, v, c, now).0, j', id) && SameRecord(j, j', id)
  {
    hide OrderBooks, PositionsMatch, FillOrder, Noted, OnGrid, StopsOk, Margin, OfOrder, WorkingIds;
    if VenueChecks(cfg, v, c, now).None? {
      var o := NewOrder(cfg, v, c);
      var j' := j.(placed := j.placed[o.id := o]);
      PlacingConserves(cfg, v, j, c);
      PlacingLeaves(cfg, v, j, c, id);
      if c.body.orderType.value.Market? {
        FillLeaves(cfg, Rested(cfg, v, c), j', |v.working|, id);
        FilledSameOrder(cfg, Rested(cfg, v, c), |v.working|);
      } else {
        NothingNoted(j');
      }
    }
  }

  lemma CancelLeaves(v: Venue, j: Journal, c: Command, id: nat)
    requires c.body.orderIntentId.Some? && Closed(v, j, id)
    ensures Closed(ProcessCancel(v, c).0, CancelJournal(v, j, c), id) && SameRecord(j, CancelJournal(v, j, c), id)
  {
    hide OfOrder;
    if ProcessCancel(v, c).1.Acked? {
      var k := FindWorking(v.working, c.body.orderIntentId.value);
      assert v.working[k].id in WorkingIds(v);
      assert WorkingIds(ProcessCancel(v, c).0) <= WorkingIds(v);
    }
  }

  lemma ModifyLeaves(cfg: Config, v: Venue, j: Journal, c: Command, id: nat)
    requires Ready(cfg, v) && c.body.orderIntentId.Some? && Closed(v, j, id)
    ensures Closed(ProcessModify(cfg, v, c).0, j, id)
  {
    hide StopsOk;
    assert WorkingIds(ProcessModify(cfg, v, c).0) <= WorkingIds(v);
  }

  lemma QuotesLeave(cfg: Config, v: Venue, j: Journal, quotes: map<string, Quote>, id: nat)
    requires Conserved(cfg, v, j) && GoodQuotes(cfg, quotes) && Closed(v, j, id)
    ensures var m := Advance(cfg, v, quotes);
            Closed(m.0, Noted(j, m.1), id) && SameRecord(j, Noted(j, m.1), id)
  {
    hide MatchFrom, Noted, PositionsMatch, OrderBooks, OfOrder;
    var v' := v.(quotes := quotes);
    assert WorkingIds(v') == WorkingIds(v);
    SameQuoteBooks(cfg, v, j, quotes);
    MatchLeaves(cfg, v', j, 0, id);
  }

  lemma StepLeaves(cfg: Config, v: Venue, j: Journal, s: VenueStep, id: nat)
    requires Conserved(cfg, v, j) && Admissible(cfg, s) && Closed(v, j, id)
    ensures var n := Next(cfg, v, j, s); Closed(n.0, n.1, id) && SameRecord(j, n.1, id)
  {
    hide ProcessSubmit, ProcessCancel, ProcessModify, Advance, SubmitJournal, CancelJournal, Noted, PositionsMatch,
         OrderBooks, OfOrder;
    match s
    case Submit(c, now) => SubmitLeaves(cfg, v, j, c, now, id);
    case Cancel(c) => CancelLeaves(v, j, c, id);
    case Modify(c) => ModifyLeaves(cfg, v, j, c, id);
    case QuoteStep(quotes) => QuotesLeave(cfg, v, j, quotes, id);
    case SetTrading(enabled) => assert WorkingIds(v.(tradingEnabled := enabled)) == WorkingIds(v);
  }

  lemma SameQuoteBooks(cfg: Config, v: Venue, j: Journal, quotes: map<string, Quote>)
    requires Conserved(cfg, v, j) && GoodQuotes(cfg, quotes)
    ensures Conserved(cfg, v.(quotes := quotes), j)
  {
    assert WorkingIds(v.(quotes := quotes)) == WorkingIds(v);
  }

  /** Once filled whole or cancelled, an order is never filled or cancelled again, over every further run. */
  lemma {:induction false} ClosedOrdersStayClosed(cfg: Config, v: Venue, j: Journal, steps: seq<VenueStep>, id: nat)
    requires Conserved(cfg, v, j) && Closed(v, j, id) && forall s <- steps :: Admissible(cfg, s)
    ensures var n := Run(cfg, v, j, steps); Closed(n.0, n.1, id) && SameRecord(j, n.1, id)
    decreases |steps|
  {
    hide Next, OrderBooks, PositionsMatch, OfOrder, WorkingIds;
    if steps != [] {
      var n := Next(cfg, v, j, steps[0]);
      StepConserves(cfg, v, j, steps[0]);
      StepLeaves(cfg, v, j, steps[0], id);
      ClosedOrdersStayClosed(cfg, n.0, n.1, steps[1..], id);
    }
  }

  lemma BooksOf(cfg: Config, v: Venue, j: Journal, id: nat)
    requires Conserved(cfg, v, j) && id in j.placed
    ensures j.placed[id].quantity == Total(OfOrder(j.fills, id)) + Outstanding(v, j, id)
    ensures Outstanding(v, j, id) >= 0.0
    ensures StillOpen(OfOrder(j.fills, id)) || Completed(OfOrder(j.fills, id))
    ensures Completed(OfOrder(j.fills, id)) ==> Outstanding(v, j, id) == 0.0
  {
    if k :| 0 <= k < |v.working| && v.working[k].id == id {
      assert RestingBooks(cfg, j, v.working[k]);
    } else {
      assert id !in WorkingIds(v);
      assert ClosedBooks(j, id);
    }
  }
}
