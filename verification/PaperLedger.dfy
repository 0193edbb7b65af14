/**
  Average-cost netting of the paper account (apps/worker/ledger.py) for
  instruments quoted in the account currency, against plain cash accounting.
 */
module PaperLedger {
  import opened Options

  datatype Side = Long | Short

  /** A fill report together with the intent it belongs to. */
  datatype Report = Report(
    instrument: string, buy: bool, quantity: real, price: Option<real>, commission: real, intent: nat)

  datatype Position = Position(
    venueId: nat, side: Side, quantity: real, average: real, entryCosts: real, intents: seq<nat>)

  datatype Outcome = Outcome(
    venueId: nat, intents: seq<nat>, instrument: string, side: Side, quantity: real,
    entry: real, exit: real, realized: real, costs: real)

  /** Result of one `apply_fill`: the position left, the PnL returned, a closed trade if any. */
  datatype Application = Application(position: Option<Position>, realized: real, outcome: Option<Outcome>)

  predicate Acceptable(r: Report) {
    r.quantity > 0.0 && r.price.Some?
  }

  function SideOf(buy: bool): Side {
    if buy then Long else Short
  }

  function Min(a: real, b: real): real {
    if a <= b then a else b
  }

  predicate Closes(p: Option<Position>, r: Report) {
    p.Some? && p.value.side != SideOf(r.buy)
  }

  /** PnL of closing `quantity` at `price` of a position entered at `average`. */
  function ClosingPnl(side: Side, average: real, quantity: real, price: real): real {
    if side.Long? then (price - average) * quantity else -(price - average) * quantity
  }

  /** Weighted mean entry price of `held` units at `average` joined by `quantity` units at `price`. */
  function Averaged(average: real, held: real, price: real, quantity: real): real
    requires held + quantity != 0.0
  {
    (average * held + price * quantity) / (held + quantity)
  }

  ghost predicate Sane(p: Option<Position>) {
    p.Some? ==> p.value.quantity > 0.0
  }

  /** `apply_fill` on the position of the report's instrument; `freshId` is the new venue id. */
  function Applied(p: Option<Position>, r: Report, freshId: nat): (a: Application)
    requires Acceptable(r) && Sane(p)
    ensures Sane(a.position)
  {
    var price := r.price.value;
    if p.None? then
      Application(Some(Position(freshId, SideOf(r.buy), r.quantity, price, r.commission, [r.intent])), 0.0, None)
    else if p.value.side == SideOf(r.buy) then
      Application(Some(p.value.(quantity := p.value.quantity + r.quantity,
                                average := Averaged(p.value.average, p.value.quantity, price, r.quantity),
                                entryCosts := p.value.entryCosts + r.commission,
                                intents := p.value.intents + [r.intent])),
                  0.0, None)
    else
      var closed := Min(p.value.quantity, r.quantity);
      var realized := ClosingPnl(p.value.side, p.value.average, closed, price);
      if p.value.quantity - r.quantity <= 0.0 then
        Application(None, realized,
                    Some(Outcome(p.value.venueId, p.value.intents + [r.intent], r.instrument, p.value.side, closed,
                                 p.value.average, price, realized, p.value.entryCosts + r.commission)))
      else
        Application(Some(p.value.(quantity := p.value.quantity - r.quantity,
                                  entryCosts := p.value.entryCosts + r.commission)),
                    realized, None)
  }

  // ----- the two ways of accounting ----------------------------------------------------------------

  /** The part of a report the ledger acts on: beyond the open quantity a closing fill is dropped. */
  function AppliedQuantity(p: Option<Position>, r: Report): real {
    if Closes(p, r) then Min(p.value.quantity, r.quantity) else r.quantity
  }

  function Net(p: Option<Position>): real {
    if p.None? then 0.0 else if p.value.side.Long? then p.value.quantity else -p.value.quantity
  }

  /** `_unrealized` at a mark. */
  function Unrealized(p: Option<Position>, mark: real): real {
    if p.None? then 0.0
    else if p.value.side.Long? then (mark - p.value.average) * p.value.quantity
    else -(mark - p.value.average) * p.value.quantity
  }

  /** Money paid out or received for the applied part of a report. */
  function CashFlow(p: Option<Position>, r: Report): real
    requires r.price.Some?
  {
    if r.buy then -(r.price.value * AppliedQuantity(p, r)) else r.price.value * AppliedQuantity(p, r)
  }

  datatype Account = Account(position: Option<Position>, realized: real, cash: real, commissions: real,
                             outcomes: seq<Outcome>)

  const Flat := Account(None, 0.0, 0.0, 0.0, [])

  /** One report: the ledger's books and the cash books side by side. */
  function Booked(acc: Account, r: Report, freshId: nat): (acc': Account)
    requires Acceptable(r) && Sane(acc.position)
    ensures Sane(acc'.position)
  {
    var a := Applied(acc.position, r, freshId);
    Account(a.position, acc.realized + a.realized, acc.cash + CashFlow(acc.position, r),
            acc.commissions + r.commission,
            if a.outcome.Some? then acc.outcomes + [a.outcome.value] else acc.outcomes)
  }

  /** One `apply_fill` call: the report and the venue id a new position would get. */
  datatype Call = Call(report: Report, freshId: nat)

  /** What a history of calls does to one instrument; calls that raise or concern others do nothing. */
  function BookedAll(acc: Account, instrument: string, calls: seq<Call>): (acc': Account)
    requires Sane(acc.position)
    ensures Sane(acc'.position)
    decreases |calls|
  {
    if calls == [] then acc
    else if calls[0].report.instrument == instrument && Acceptable(calls[0].report) then
      BookedAll(Booked(acc, calls[0].report, calls[0].freshId), instrument, calls[1..])
    else BookedAll(acc, instrument, calls[1..])
  }

  /** Cost of a holding on the books, signed like the cash it took. */
  function Cost(side: Side, average: real, quantity: real): real {
    if side.Long? then -(average * quantity) else average * quantity
  }

  function BookCost(p: Option<Position>): real {
    if p.None? then 0.0 else Cost(p.value.side, p.value.average, p.value.quantity)
  }

  lemma UnrealizedSplits(p: Option<Position>, mark: real)
    ensures Unrealized(p, mark) == BookCost(p) + Net(p) * mark
  {
    if p.Some? {
      assert (mark - p.value.average) * p.value.quantity == mark * p.value.quantity - p.value.average * p.value.quantity;
    }
  }

  lemma AddingMovesCost(side: Side, average: real, held: real, price: real, quantity: real)
    requires held > 0.0 && quantity > 0.0
    ensures Cost(side, Averaged(average, held, price, quantity), held + quantity) ==
            Cost(side, average, held) + Cost(side, price, quantity)
  {
    assert Averaged(average, held, price, quantity) * (held + quantity) == average * held + price * quantity;
  }

  lemma ClosingMovesCost(side: Side, average: real, held: real, price: real, closed: real)
    ensures ClosingPnl(side, average, closed, price) + Cost(side, average, held - closed) ==
            Cost(side, average, held) - Cost(side, price, closed)
  {
    assert (price - average) * closed == price * closed - average * closed;
    assert average * (held - closed) == average * held - average * closed;
  }

  /** Per report: realized PnL plus the change in book cost is exactly the cash that moved. */
  lemma CashMovesWithTheBooks(p: Option<Position>, r: Report, freshId: nat)
    requires Acceptable(r) && Sane(p)
    ensures var a := Applied(p, r, freshId);
            a.realized + BookCost(a.position) == BookCost(p) + CashFlow(p, r)
  {
    hide Averaged, ClosingPnl;
    var price := r.price.value;
    assert CashFlow(p, r) == Cost(SideOf(r.buy), price, AppliedQuantity(p, r));
    if p.Some? {
      var q := p.value;
      if q.side == SideOf(r.buy) {
        AddingMovesCost(q.side, q.average, q.quantity, price, r.quantity);
      } else {
        ClosingMovesCost(q.side, q.average, q.quantity, price, Min(q.quantity, r.quantity));
      }
    }
  }

  lemma {:induction false} BooksAgreeWithCash(acc: Account, instrument: string, calls: seq<Call>)
    requires Sane(acc.position)
    ensures var end := BookedAll(acc, instrument, calls);
            end.realized + BookCost(end.position) - end.cash == acc.realized + BookCost(acc.position) - acc.cash
    decreases |calls|
  {
    hide Applied, CashFlow, BookCost;
    if calls != [] {
      var c := calls[0];
      if c.report.instrument == instrument && Acceptable(c.report) {
        CashMovesWithTheBooks(acc.position, c.report, c.freshId);
        BooksAgreeWithCash(Booked(acc, c.report, c.freshId), instrument, calls[1..]);
      } else {
        BooksAgreeWithCash(acc, instrument, calls[1..]);
      }
    }
  }

  /**
    Average-cost accounting refines cash accounting: after every history of
    calls, for every instrument and at every mark, realized plus unrealized PnL
    equals the cash that flowed plus the net position at the mark.
   */
  lemma PnlIsCashPlusMarket(instrument: string, calls: seq<Call>, mark: real)
    ensures var end := BookedAll(Flat, instrument, calls);
            end.realized + Unrealized(end.position, mark) == end.cash + Net(end.position) * mark
  {
    hide BookedAll;
    BooksAgreeWithCash(Flat, instrument, calls);
    UnrealizedSplits(BookedAll(Flat, instrument, calls).position, mark);
  }

  /** A report moves the net position by all of its quantity exactly when it does not overshoot. */
  lemma NettingExactly(p: Option<Position>, r: Report, freshId: nat)
    requires Acceptable(r) && Sane(p)
    ensures var signed := if r.buy then r.quantity else -r.quantity;
            Net(Applied(p, r, freshId).position) == Net(p) + signed <==>
            !(Closes(p, r) && r.quantity > p.value.quantity)
  {
  }

  // ----- costs and closed trades ---------------------------------------------------------------------

  function OutcomeCosts(os: seq<Outcome>): real {
    if os == [] then 0.0 else OutcomeCosts(os[..|os| - 1]) + os[|os| - 1].costs
  }

  function OutcomePnl(os: seq<Outcome>): real {
    if os == [] then 0.0 else OutcomePnl(os[..|os| - 1]) + os[|os| - 1].realized
  }

  function OpenCosts(p: Option<Position>): real {
    if p.None? then 0.0 else p.value.entryCosts
  }

  /** PnL of a report that closes part of the position and leaves the rest open. */
  function PartialPnl(p: Option<Position>, r: Report): real
    requires r.price.Some?
  {
    if Closes(p, r) && r.quantity < p.value.quantity
    then ClosingPnl(p.value.side, p.value.average, r.quantity, r.price.value)
    else 0.0
  }

  /** The PnL of all partial closes in a history. */
  function PartialsOf(acc: Account, instrument: string, calls: seq<Call>): real
    requires Sane(acc.position)
    decreases |calls|
  {
    if calls == [] then 0.0
    else if calls[0].report.instrument == instrument && Acceptable(calls[0].report) then
      PartialPnl(acc.position, calls[0].report) +
      PartialsOf(Booked(acc, calls[0].report, calls[0].freshId), instrument, calls[1..])
    else PartialsOf(acc, instrument, calls[1..])
  }

  lemma BookedSplits(acc: Account, r: Report, freshId: nat)
    requires Acceptable(r) && Sane(acc.position)
    ensures var acc' := Booked(acc, r, freshId);
            && OutcomeCosts(acc'.outcomes) + OpenCosts(acc'.position) - acc'.commissions ==
               OutcomeCosts(acc.outcomes) + OpenCosts(acc.position) - acc.commissions
            && acc'.realized - OutcomePnl(acc'.outcomes) ==
               acc.realized - OutcomePnl(acc.outcomes) + PartialPnl(acc.position, r)
  {
    hide ClosingPnl, Averaged;
    var a := Applied(acc.position, r, freshId);
    if a.outcome.Some? {
      var os' := acc.outcomes + [a.outcome.value];
      assert os'[..|acc.outcomes|] == acc.outcomes;
    }
  }

  /**
    Every commission ends up in exactly one closed trade or in the open
    position, and realized PnL is that of the closing legs of the outcomes plus
    that of the partial closes, which no outcome carries.
   */
  lemma {:induction false} CostsAndPnlAreConserved(acc: Account, instrument: string, calls: seq<Call>)
    requires Sane(acc.position)
    ensures var end := BookedAll(acc, instrument, calls);
            && OutcomeCosts(end.outcomes) + OpenCosts(end.position) - end.commissions ==
               OutcomeCosts(acc.outcomes) + OpenCosts(acc.position) - acc.commissions
            && end.realized - OutcomePnl(end.outcomes) ==
               acc.realized - OutcomePnl(acc.outcomes) + PartialsOf(acc, instrument, calls)
    decreases |calls|
  {
    hide Booked, OutcomeCosts, OutcomePnl, OpenCosts, PartialPnl;
    if calls != [] {
      var c := calls[0];
      if c.report.instrument == instrument && Acceptable(c.report) {
        BookedSplits(acc, c.report, c.freshId);
        CostsAndPnlAreConserved(Booked(acc, c.report, c.freshId), instrument, calls[1..]);
      } else {
        CostsAndPnlAreConserved(acc, instrument, calls[1..]);
      }
    }
  }

  /** From a flat start the outcomes carry all realized PnL exactly when the partial closes made none. */
  lemma OutcomesCarryPnlExactly(instrument: string, calls: seq<Call>)
    ensures var end := BookedAll(Flat, instrument, calls);
            OutcomePnl(end.outcomes) == end.realized <==> PartialsOf(Flat, instrument, calls) == 0.0
  {
    hide BookedAll, PartialsOf;
    CostsAndPnlAreConserved(Flat, instrument, calls);
  }

  /** A fill that closes less than the open quantity, at another price than the average. */
  predicate ClosesPart(p: Option<Position>, r: Report)
    requires r.price.Some?
  {
    Closes(p, r) && r.quantity < p.value.quantity && r.price.value != p.value.average
  }

  /** All realized PnL is in the outcomes. */
  ghost predicate Carried(acc: Account) {
    OutcomePnl(acc.outcomes) == acc.realized
  }

  /** Call by call: the outcomes go on carrying all realized PnL exactly when the fill does not close a part. */
  lemma {:induction false} NextFillCarriesPnlExactly(acc: Account, r: Report, freshId: nat)
    requires Acceptable(r) && Sane(acc.position) && Carried(acc)
    ensures Carried(Booked(acc, r, freshId)) <==> !ClosesPart(acc.position, r)
  {
    hide OutcomePnl, Booked;
    BookedSplits(acc, r, freshId);
    if Closes(acc.position, r) && r.quantity < acc.position.value.quantity {
      var gain := r.price.value - acc.position.value.average;
      assert gain * r.quantity == 0.0 <==> gain == 0.0;
    }
  }

  /** No fill of a history closes a part of the position it meets. */
  ghost predicate ClosesWhole(p: Option<Position>, instrument: string, calls: seq<Call>)
    requires Sane(p)
    decreases |calls|
  {
    if calls == [] then true
    else if calls[0].report.instrument == instrument && Acceptable(calls[0].report) then
      && !ClosesPart(p, calls[0].report)
      && ClosesWhole(Applied(p, calls[0].report, calls[0].freshId).position, instrument, calls[1..])
    else ClosesWhole(p, instrument, calls[1..])
  }

  ghost predicate AlwaysCarried(acc: Account, instrument: string, calls: seq<Call>)
    requires Sane(acc.position)
  {
    forall n :: 0 <= n <= |calls| ==> Carried(BookedAll(acc, instrument, calls[..n]))
  }

  lemma {:induction false} AlwaysFromTheFirst(acc: Account, instrument: string, calls: seq<Call>)
    requires Sane(acc.position) && Carried(acc) && calls != []
    ensures var c := calls[0];
            var next := if c.report.instrument == instrument && Acceptable(c.report)
                        then Booked(acc, c.report, c.freshId) else acc;
            AlwaysCarried(acc, instrument, calls) <==> AlwaysCarried(next, instrument, calls[1..])
  {
    hide Booked, Carried, Acceptable;
    var c := calls[0];
    var next := if c.report.instrument == instrument && Acceptable(c.report)
                then Booked(acc, c.report, c.freshId) else acc;
    forall n | 0 <= n < |calls|
      ensures BookedAll(acc, instrument, calls[..n + 1]) == BookedAll(next, instrument, calls[1..][..n])
    {
      assert calls[..n + 1][1..] == calls[1..][..n];
    }
    if AlwaysCarried(acc, instrument, calls) {
      forall n | 0 <= n <= |calls[1..]| ensures Carried(BookedAll(next, instrument, calls[1..][..n])) {
        assert Carried(BookedAll(acc, instrument, calls[..n + 1]));
      }
    }
    if AlwaysCarried(next, instrument, calls[1..]) {
      forall n | 0 <= n <= |calls| ensures Carried(BookedAll(acc, instrument, calls[..n])) {
        if n > 0 { assert Carried(BookedAll(next, instrument, calls[1..][..n - 1])); }
      }
    }
  }

  /**
    Over a whole history: the outcomes carry all realized PnL after every call
    exactly when no fill closes a part of the position it meets.
   */
  lemma {:induction false} WholeClosesCarryPnl(acc: Account, instrument: string, calls: seq<Call>)
    requires Sane(acc.position) && Carried(acc)
    ensures AlwaysCarried(acc, instrument, calls) <==> ClosesWhole(acc.position, instrument, calls)
    decreases |calls|
  {
    hide Carried, ClosesPart, AlwaysCarried;
    if calls == [] {
      NothingBooked(acc, instrument);
    } else {
      var c := calls[0];
      AlwaysFromTheFirst(acc, instrument, calls);
      if c.report.instrument == instrument && Acceptable(c.report) {
        var next := Booked(acc, c.report, c.freshId);
        NextFillCarriesPnlExactly(acc, c.report, c.freshId);
        if ClosesPart(acc.position, c.report) {
          NowOrNever(next, instrument, calls[1..]);
        } else {
          WholeClosesCarryPnl(next, instrument, calls[1..]);
        }
      } else {
        WholeClosesCarryPnl(acc, instrument, calls[1..]);
      }
    }
  }

  lemma NothingBooked(acc: Account, instrument: string)
    requires Sane(acc.position) && Carried(acc)
    ensures AlwaysCarried(acc, instrument, [])
  {
    var calls: seq<Call> := [];
    assert forall n :: 0 <= n <= 0 ==> calls[..n] == [];
  }

  lemma {:induction false} NowOrNever(acc: Account, instrument: string, calls: seq<Call>)
    requires Sane(acc.position) && !Carried(acc)
    ensures !AlwaysCarried(acc, instrument, calls)
  {
    assert calls[..0] == [];
    assert BookedAll(acc, instrument, calls[..0]) == acc;
  }

  /** Bought 2 at 1 and sold one at a time at 3: flat again, 4 realized, and the outcome says 2. */
  lemma {:induction false} HalvesLosePnl(instrument: string)
    ensures var open := Report(instrument, true, 2.0, Some(1.0), 0.0, 0);
            var half := Report(instrument, false, 1.0, Some(3.0), 0.0, 0);
            var end := BookedAll(Flat, instrument, [Call(open, 0), Call(half, 0), Call(half, 0)]);
            end.position.None? && end.realized == 4.0 && OutcomePnl(end.outcomes) == 2.0
  {
    var open := Report(instrument, true, 2.0, Some(1.0), 0.0, 0);
    var half := Report(instrument, false, 1.0, Some(3.0), 0.0, 0);
    var calls := [Call(open, 0), Call(half, 0), Call(half, 0)];
    var one := Booked(Flat, open, 0);
    var two := Booked(one, half, 0);
    var three := Booked(two, half, 0);
    assert calls[1..] == [Call(half, 0), Call(half, 0)] && calls[1..][1..] == [Call(half, 0)];
    assert BookedAll(Flat, instrument, calls) == BookedAll(one, instrument, calls[1..]);
    assert BookedAll(one, instrument, calls[1..]) == BookedAll(two, instrument, calls[1..][1..]);
    assert BookedAll(two, instrument, [Call(half, 0)]) == BookedAll(three, instrument, []);
    assert three.outcomes[..0] == [];
  }

  // ----- the ledger object and its restart -----------------------------------------------------------

  /** A persisted execution position. */
  datatype Row = Row(instrument: string, side: Side, quantity: real, average: real, lastIntent: nat, closed: bool)

  type Positions = map<string, Position>

  function At(ps: Positions, instrument: string): Option<Position> {
    if instrument in ps then Some(ps[instrument]) else None
  }

  function RowOf(instrument: string, p: Position, closed: bool): Row
    requires p.intents != []
  {
    Row(instrument, p.side, p.quantity, p.average, p.intents[|p.intents| - 1], closed)
  }

  /** Every open position has its own open row, and every open row is a position. */
  ghost predicate Persisted(ps: Positions, rows: map<nat, Row>) {
    && (forall i <- ps :: ps[i].quantity > 0.0 && ps[i].intents != [])
    && (forall i <- ps :: ps[i].venueId in rows && rows[ps[i].venueId] == RowOf(i, ps[i], false))
    && (forall id <- rows :: !rows[id].closed ==> rows[id].instrument in ps && ps[rows[id].instrument].venueId == id)
  }

  lemma HeldIsSane(ps: Positions, rows: map<nat, Row>, i: string)
    requires Persisted(ps, rows)
    ensures Sane(At(ps, i))
    ensures i in ps ==> ps[i].intents != [] && ps[i].venueId in rows && !rows[ps[i].venueId].closed
  {
  }

  lemma OpenIsPersisted(ps: Positions, rows: map<nat, Row>, i: string, p: Position)
    requires Persisted(ps, rows) && p.quantity > 0.0 && p.intents != []
    requires if i in ps then p.venueId == ps[i].venueId else p.venueId !in rows
    ensures Persisted(ps[i := p], rows[p.venueId := RowOf(i, p, false)])
  {
  }

  lemma CloseIsPersisted(ps: Positions, rows: map<nat, Row>, i: string, closed: Row)
    requires Persisted(ps, rows) && i in ps && closed.closed
    ensures Persisted(ps - {i}, rows[ps[i].venueId := closed])
  {
  }

  /** `load`: what a restarted ledger rebuilds from one open row. */
  function Restored(id: nat, row: Row): Position {
    Position(id, row.side, row.quantity, row.average, 0.0, [row.lastIntent])
  }

  datatype Saved = Saved(id: nat, row: Row)

  function Loaded(saved: seq<Saved>): Positions {
    if saved == [] then map[]
    else
      var before, last := Loaded(saved[..|saved| - 1]), saved[|saved| - 1];
      if last.row.closed then before else before[last.row.instrument := Restored(last.id, last.row)]
  }

  /** A position as a restart sees it: without its cost history. */
  function Forgetful(p: Position): Position
    requires p.intents != []
  {
    p.(entryCosts := 0.0, intents := [p.intents[|p.intents| - 1]])
  }

  class Ledger {
    var positions: Positions
    var rows: map<nat, Row>
    var outcomes: seq<Outcome>

    constructor ()
      ensures positions == map[] && rows == map[] && outcomes == [] && Persisted(positions, rows)
    {
      positions, rows, outcomes := map[], map[], [];
    }

    /** `raised` is the ValueError for an empty or unpriced fill. */
    method ApplyFill(r: Report, freshId: nat) returns (raised: bool, realized: real)
      requires Persisted(positions, rows) && freshId !in rows
      modifies this
      ensures raised <==> !Acceptable(r)
      ensures raised ==> positions == old(positions) && rows == old(rows) && outcomes == old(outcomes)
      ensures !raised ==>
                var a := Applied(old(At(positions, r.instrument)), r, freshId);
                && realized == a.realized
                && At(positions, r.instrument) == a.position
                && (forall i <- old(positions) :: i != r.instrument ==>
                      i in positions && positions[i] == old(positions)[i])
                && (forall i <- positions :: i != r.instrument ==> i in old(positions))
                && outcomes == old(outcomes) + (if a.outcome.Some? then [a.outcome.value] else [])
                && (a.outcome.Some? ==> a.outcome.value.venueId in rows && rows[a.outcome.value.venueId].closed)
      ensures forall id <- old(rows) :: old(rows)[id].closed ==> id in rows && rows[id] == old(rows)[id]
      ensures Persisted(positions, rows)
    {
      hide Averaged, ClosingPnl, Persisted;
      if r.quantity <= 0.0 || r.price.None? {
        return true, 0.0;
      }
      raised := false;
      HeldIsSane(positions, rows, r.instrument);
      var current := At(positions, r.instrument);
      var a := Applied(current, r, freshId);
      realized := a.realized;
      if a.position.Some? {
        var p := a.position.value;
        OpenIsPersisted(positions, rows, r.instrument, p);
        positions := positions[r.instrument := p];
        rows := rows[p.venueId := RowOf(r.instrument, p, false)];
      } else {
        var p := current.value;
        CloseIsPersisted(positions, rows, r.instrument, RowOf(r.instrument, p.(intents := p.intents + [r.intent]), true));
        positions := positions - {r.instrument};
        outcomes := outcomes + [a.outcome.value];
        rows := rows[p.venueId := RowOf(r.instrument, p.(intents := p.intents + [r.intent]), true)];
      }
    }

    /** The loop of `load` over the persisted positions; of two open rows of an instrument the later wins. */
    method Load(saved: seq<Saved>)
      modifies this`positions
      ensures positions == Loaded(saved)
    {
      positions := map[];
      for k := 0 to |saved|
        invariant positions == Loaded(saved[..k])
      {
        assert saved[..k + 1][..k] == saved[..k];
        if saved[k].row.closed {
          continue;
        }
        positions := positions[saved[k].row.instrument := Restored(saved[k].id, saved[k].row)];
      }
      assert saved[..|saved|] == saved;
    }
  }

  /** The last open row of an instrument decides what is loaded for it. */
  lemma {:induction false} LoadedIs(saved: seq<Saved>, k: nat)
    requires k < |saved| && !saved[k].row.closed
    requires forall j | k < j < |saved| :: saved[j].row.closed || saved[j].row.instrument != saved[k].row.instrument
    ensures At(Loaded(saved), saved[k].row.instrument) == Some(Restored(saved[k].id, saved[k].row))
  {
    var n := |saved| - 1;
    if k < n {
      LoadedIs(saved[..n], k);
    }
  }

  lemma {:induction false} LoadedStems(saved: seq<Saved>, instrument: string) returns (k: nat)
    requires instrument in Loaded(saved)
    ensures k < |saved| && !saved[k].row.closed && saved[k].row.instrument == instrument
  {
    var n := |saved| - 1;
    if !saved[n].row.closed && saved[n].row.instrument == instrument {
      k := n;
    } else {
      k := LoadedStems(saved[..n], instrument);
    }
  }

  /** The saved rows are all rows, each once, in any order. */
  ghost predicate Lists(saved: seq<Saved>, rows: map<nat, Row>) {
    && (forall k | 0 <= k < |saved| :: saved[k].id in rows && rows[saved[k].id] == saved[k].row)
    && (forall id <- rows :: exists k :: 0 <= k < |saved| && saved[k].id == id)
    && (forall j, k | 0 <= j < k < |saved| :: saved[j].id != saved[k].id)
  }

  /** A restarted ledger holds every open position, less its cost history. */
  lemma RestartRestoresPositions(ps: Positions, rows: map<nat, Row>, saved: seq<Saved>)
    requires Persisted(ps, rows) && Lists(saved, rows)
    ensures Loaded(saved).Keys == ps.Keys
    ensures forall i <- ps :: Loaded(saved)[i] == Forgetful(ps[i])
    ensures forall i: string :: Alike(At(ps, i), At(Loaded(saved), i))
  {
    hide Loaded;
    forall i <- ps ensures i in Loaded(saved) && Loaded(saved)[i] == Forgetful(ps[i]) {
      var id := ps[i].venueId;
      assert rows[id] == RowOf(i, ps[i], false);
      var k :| 0 <= k < |saved| && saved[k].id == id;
      forall j | k < j < |saved| ensures saved[j].row.closed || saved[j].row.instrument != i {
        assert saved[j].id != id;
      }
      LoadedIs(saved, k);
    }
    forall i <- Loaded(saved) ensures i in ps {
      var k := LoadedStems(saved, i);
    }
  }

  /** Equal but for the cost history. */
  ghost predicate Alike(p: Option<Position>, q: Option<Position>) {
    && (p.Some? <==> q.Some?)
    && (p.Some? ==> p.value.(entryCosts := 0.0, intents := []) == q.value.(entryCosts := 0.0, intents := []))
  }

  /** A call cannot tell such positions apart, except in the costs of the trade it closes. */
  lemma AlikeStayAlike(p: Option<Position>, q: Option<Position>, r: Report, freshId: nat)
    requires Acceptable(r) && Sane(p) && Sane(q) && Alike(p, q)
    ensures var a := Applied(p, r, freshId);
            var b := Applied(q, r, freshId);
            && a.realized == b.realized && Alike(a.position, b.position)
            && CashFlow(p, r) == CashFlow(q, r)
            && (a.outcome.Some? <==> b.outcome.Some?)
            && (a.outcome.Some? ==>
                  && a.outcome.value.realized == b.outcome.value.realized
                  && a.outcome.value.costs - b.outcome.value.costs == OpenCosts(p) - OpenCosts(q))
  {
    hide Averaged, ClosingPnl;
  }

  /** A restart changes no later realized PnL and no later position, over every history of calls. */
  lemma {:induction false} RestartKeepsAccounting(acc: Account, restarted: Account, instrument: string, calls: seq<Call>)
    requires Sane(acc.position) && Sane(restarted.position) && Alike(acc.position, restarted.position)
    ensures var end := BookedAll(acc, instrument, calls);
            var end' := BookedAll(restarted, instrument, calls);
            && end.realized - acc.realized == end'.realized - restarted.realized
            && Alike(end.position, end'.position)
            && |end.outcomes| - |acc.outcomes| == |end'.outcomes| - |restarted.outcomes|
    decreases |calls|
  {
    hide Applied, CashFlow, Alike, OpenCosts;
    if calls != [] {
      var c := calls[0];
      if c.report.instrument == instrument && Acceptable(c.report) {
        AlikeStayAlike(acc.position, restarted.position, c.report, c.freshId);
        RestartKeepsAccounting(Booked(acc, c.report, c.freshId), Booked(restarted, c.report, c.freshId),
                               instrument, calls[1..]);
      } else {
        RestartKeepsAccounting(acc, restarted, instrument, calls[1..]);
      }
    }
  }
}
