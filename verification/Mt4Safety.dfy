/**
  Safety of the bridge over whole runs: arbitrary frames in any order, quote
  steps, and operators toggling SAFE_MODE and trading.

  The history is a ghost of the run: the venue journal, every executed order
  command with the reply that was sent for it, and the intent of every submit
  that reached the venue.
 */
module Mt4Safety {
  import opened Options
  import opened Mt4Protocol
  import opened Mt4Gate
  import opened Mt4Venue
  import opened Mt4Conservation
  import opened Mt4Identity
  import opened Mt4Bridge

  datatype Executed = Executed(command: Command, reply: Reply)

  datatype World = World(
    bridge: Bridge,
    journal: Journal,
    executed: seq<Executed>,
    submits: seq<Uuid>)

  datatype Step =
    | Receive(frame: Frame, now: Time)
    | Tick(quotes: map<string, Quote>)
    | SetSafeMode(on: bool)
    | SetTradingEnabled(on: bool)

  ghost predicate Allowed(cfg: Config, s: Step) {
    s.Tick? ==> GoodQuotes(cfg, s.quotes)
  }

  ghost function VenueJournal(cfg: Config, v: Venue, j: Journal, c: Command, now: Time): Journal
    requires Ready(cfg, v) && WellFormed(c)
  {
    match c.body.messageType
    case SubmitOrder => SubmitJournal(cfg, v, j, c, now)
    case CancelOrder => CancelJournal(v, j, c)
    case ModifyOrder => j
    case ReconciliationRequest => j
  }

  /** The frame carries a command the handler passes on to the gate. */
  predicate Intact(f: Frame) {
    f.CommandFrame? && WellFormed(f.command) && f.checksumMatches
  }

  ghost function AfterCommand(cfg: Config, hash: Body -> string, w: World, c: Command, now: Time): (w': World)
    requires Ready(cfg, w.bridge.venue) && WellFormed(c)
    ensures Ready(cfg, w'.bridge.venue)
  {
    var h := HandleCommand(cfg, hash, w.bridge, c, now);
    if !Executes(w.bridge, c, hash, now) then w.(bridge := h.bridge)
    else
      World(
        h.bridge,
        VenueJournal(cfg, w.bridge.venue, w.journal, c, now),
        if h.Replied? && c.body.messageType != ReconciliationRequest
        then w.executed + [Executed(c, h.reply)] else w.executed,
        if c.body.messageType == SubmitOrder then w.submits + [c.body.orderIntentId.value] else w.submits)
  }

  ghost function After(cfg: Config, hash: Body -> string, w: World, s: Step): (w': World)
    requires Ready(cfg, w.bridge.venue) && Allowed(cfg, s)
    ensures Ready(cfg, w'.bridge.venue)
  {
    match s
    case Receive(f, now) =>
      if Intact(f) then AfterCommand(cfg, hash, w, f.command, now)
      else w.(bridge := Handle(cfg, hash, w.bridge, f, now).bridge)
    case Tick(quotes) =>
      var (v, events) := Advance(cfg, w.bridge.venue, quotes);
      w.(bridge := w.bridge.(venue := v), journal := Noted(w.journal, events))
    case SetSafeMode(on) => w.(bridge := w.bridge.(safeMode := on))
    case SetTradingEnabled(on) =>
      w.(bridge := w.bridge.(venue := w.bridge.venue.(tradingEnabled := on)))
  }

  ghost function Run(cfg: Config, hash: Body -> string, w: World, steps: seq<Step>): (w': World)
    requires Ready(cfg, w.bridge.venue) && forall s <- steps :: Allowed(cfg, s)
    ensures Ready(cfg, w'.bridge.venue)
    decreases |steps|
  {
    if steps == [] then w else Run(cfg, hash, After(cfg, hash, w, steps[0]), steps[1..])
  }

  function Boot(cfg: Config, quotes: map<string, Quote>): World {
    World(Bridge(EmptyGate, Start(cfg, quotes), false), EmptyJournal, [], [])
  }

  // ----- the invariant ---------------------------------------------------------------

  /** Every order ever placed belongs to a recorded submit, one order per intent. */
  ghost predicate OneOrderPerIntent(g: Gate, j: Journal) {
    && (forall id <- j.placed :: (j.placed[id].orderIntentId, SubmitOrder) in g.records)
    && (forall a <- j.placed, b <- j.placed ::
          j.placed[a].orderIntentId == j.placed[b].orderIntentId ==> a == b)
  }

  /** Every submit that ran is recorded, and no intent ran twice. */
  ghost predicate SubmitsOnce(g: Gate, submits: seq<Uuid>) {
    && (forall i | 0 <= i < |submits| :: (submits[i], SubmitOrder) in g.records)
    && (forall i, k | 0 <= i < k < |submits| :: submits[i] != submits[k])
  }

  /** What the gate still knows about a command it executed. */
  ghost predicate Settled(g: Gate, hash: Body -> string, x: Executed) {
    var c := x.command;
    && WellFormed(c)
    && c.body.messageType != ReconciliationRequest
    && c.sequence <= LastOf(g.last, c.body.strategyId)
    && KeyOf(c) in g.records
    && (g.records[KeyOf(c)].fingerprint == hash(c.body) || c.body.messageType == ModifyOrder)
    && (c.body.messageType != ModifyOrder ==>
          && g.records[KeyOf(c)].originalReply.Some?
          && var stored := g.records[KeyOf(c)].originalReply.value;
             PayloadOf(stored) == PayloadOf(x.reply) && (stored.OrderAck? <==> x.reply.OrderAck?))
  }

  ghost predicate Safe(cfg: Config, hash: Body -> string, w: World) {
    && Traced(cfg, w.bridge.venue, w.journal)
    && (FittingSteps(cfg) ==> Conserved(cfg, w.bridge.venue, w.journal))
    && Remembers(w.bridge.gate)
    && OneOrderPerIntent(w.bridge.gate, w.journal)
    && SubmitsOnce(w.bridge.gate, w.submits)
    && (forall i | 0 <= i < |w.executed| :: Settled(w.bridge.gate, hash, w.executed[i]))
  }

  // ----- one executed command ---------------------------------------------------------

  lemma VenueCallConserves(cfg: Config, v: Venue, j: Journal, c: Command, now: Time)
    requires Conserved(cfg, v, j) && WellFormed(c) && c.body.messageType != ReconciliationRequest
    ensures Conserved(cfg, VenueCall(cfg, v, c, now).0, VenueJournal(cfg, v, j, c, now))
  {
    hide ProcessSubmit, ProcessCancel, ProcessModify, SubmitJournal, CancelJournal, OrderBooks, PositionsMatch;
    match c.body.messageType
    case SubmitOrder => SubmitConserves(cfg, v, j, c, now);
    case CancelOrder => CancelConserves(cfg, v, j, c);
    case ModifyOrder => ModifyConserves(cfg, v, j, c);
  }

  lemma VenueCallTraced(cfg: Config, v: Venue, j: Journal, c: Command, now: Time)
    requires Traced(cfg, v, j) && WellFormed(c) && c.body.messageType != ReconciliationRequest
    ensures Traced(cfg, VenueCall(cfg, v, c, now).0, VenueJournal(cfg, v, j, c, now))
  {
    hide ProcessSubmit, ProcessCancel, ProcessModify, SubmitJournal, CancelJournal, Identified, PositionsMatch;
    match c.body.messageType
    case SubmitOrder => SubmitTraced(cfg, v, j, c, now);
    case CancelOrder => CancelTraced(cfg, v, j, c);
    case ModifyOrder => ModifyTraced(cfg, v, j, c);
  }

  /** A venue call places at most the order of its own submit. */
  lemma VenueCallPlaces(cfg: Config, v: Venue, j: Journal, c: Command, now: Time)
    requires Traced(cfg, v, j) && WellFormed(c)
    ensures var j' := VenueJournal(cfg, v, j, c, now);
            || j'.placed == j.placed
            || (c.body.messageType == SubmitOrder
                && exists id: nat, o: WorkingOrder ::
                     id !in j.placed && o.orderIntentId == c.body.orderIntentId.value
                     && j'.placed == j.placed[id := o])
  {
    hide FillOrder, VenueChecks, Identified, PositionsMatch;
    if c.body.messageType == SubmitOrder && ProcessSubmit(cfg, v, c, now).1.Acked? {
      var o := NewOrder(cfg, v, c);
      var id := ProcessSubmit(cfg, v, c, now).1.orderId;
      FilledSameOrder(cfg, Rested(cfg, v, c), |v.working|);
      assert id == o.id;
      PlacingTraced(cfg, v, j, c);
      assert VenueJournal(cfg, v, j, c, now).placed == j.placed[id := o];
    }
  }

  /** An executed order command is recorded with its reply, and nothing else is forgotten. */
  lemma ExecutedIsRecorded(cfg: Config, hash: Body -> string, b: Bridge, c: Command, now: Time)
    requires Ready(cfg, b.venue) && Remembers(b.gate)
    requires WellFormed(c) && Executes(b, c, hash, now) && c.body.messageType != ReconciliationRequest
    ensures var h := HandleCommand(cfg, hash, b, c, now);
            var (v, reply, _) := Dispatch(cfg, b, c, now);
            && h.Replied?
            && h.bridge.venue == v == VenueCall(cfg, b.venue, c, now).0
            && h.bridge.safeMode == b.safeMode
            && h.reply == Reframe(c, reply, false, now)
            && Recorded(b.gate, c, reply, hash) == Some(h.bridge.gate)
            && Verdict(b.gate, c, hash, now).accepted
  {
    hide Verdict, VenueCall;
    AcceptedExactly(b.gate, c, hash, now);
    RecordAfterAccept(b.gate, c, Dispatch(cfg, b, c, now).1, hash, now);
  }

  /** Recording keeps what is settled settled, and settles the new command. */
  lemma RecordSettles(g: Gate, c: Command, reply: Reply, hash: Body -> string, now: Time, xs: seq<Executed>)
    requires Remembers(g) && WellFormed(c) && c.body.messageType != ReconciliationRequest
    requires Verdict(g, c, hash, now).accepted
    requires forall i | 0 <= i < |xs| :: Settled(g, hash, xs[i])
    ensures Recorded(g, c, reply, hash).Some?
    ensures var g' := Recorded(g, c, reply, hash).value;
            var xs' := xs + [Executed(c, Reframe(c, reply, false, now))];
            forall i | 0 <= i < |xs'| :: Settled(g', hash, xs'[i])
  {
    hide Verdict;
    RecordAfterAccept(g, c, reply, hash, now);
    AcceptedExactly(g, c, hash, now);
    var g' := Recorded(g, c, reply, hash).value;
    var xs' := xs + [Executed(c, Reframe(c, reply, false, now))];
    forall i | 0 <= i < |xs'| ensures Settled(g', hash, xs'[i]) {
      if i < |xs| {
        assert Settled(g, hash, xs[i]);
        assert KeyOf(xs[i].command) in g.records;
      }
    }
  }

  /** The new record is the only thing that changes for orders and submits. */
  lemma RecordKeepsIntents(g: Gate, c: Command, reply: Reply, hash: Body -> string, now: Time,
                           j: Journal, j': Journal, submits: seq<Uuid>)
    requires Remembers(g) && WellFormed(c) && c.body.messageType != ReconciliationRequest
    requires Verdict(g, c, hash, now).accepted
    requires OneOrderPerIntent(g, j) && SubmitsOnce(g, submits)
    requires || j'.placed == j.placed
             || (c.body.messageType == SubmitOrder
                 && exists id: nat, o: WorkingOrder ::
                      id !in j.placed && o.orderIntentId == c.body.orderIntentId.value
                      && j'.placed == j.placed[id := o])
    ensures Recorded(g, c, reply, hash).Some?
    ensures var g' := Recorded(g, c, reply, hash).value;
            && OneOrderPerIntent(g', j')
            && SubmitsOnce(g', if c.body.messageType == SubmitOrder
                               then submits + [c.body.orderIntentId.value] else submits)
  {
    hide Verdict;
    RecordAfterAccept(g, c, reply, hash, now);
    AcceptedExactly(g, c, hash, now);
    var g' := Recorded(g, c, reply, hash).value;
    assert KeyOf(c) in g'.records;
    if c.body.messageType == SubmitOrder {
      assert (c.body.orderIntentId.value, SubmitOrder) == KeyOf(c) && KeyOf(c) !in g.records;
    }
  }

  lemma ExecutedKeepsSafe(cfg: Config, hash: Body -> string, w: World, c: Command, now: Time)
    requires Safe(cfg, hash, w) && WellFormed(c) && Executes(w.bridge, c, hash, now)
    ensures Safe(cfg, hash, AfterCommand(cfg, hash, w, c, now))
  {
    hide OrderBooks, PositionsMatch, Identified, FittingSteps, VenueCall, VenueJournal, Verdict, Settled, OneOrderPerIntent, SubmitsOnce;
    if c.body.messageType == ReconciliationRequest {
      ReconcileIsReadOnly(cfg, hash, w, c, now);
    } else {
      var b, reply := w.bridge, Dispatch(cfg, w.bridge, c, now).1;
      var w' := AfterCommand(cfg, hash, w, c, now);
      ExecutedIsRecorded(cfg, hash, b, c, now);
      if FittingSteps(cfg) { VenueCallConserves(cfg, b.venue, w.journal, c, now); }
      VenueCallTraced(cfg, b.venue, w.journal, c, now);
      VenueCallPlaces(cfg, b.venue, w.journal, c, now);
      RecordAfterAccept(b.gate, c, reply, hash, now);
      RecordSettles(b.gate, c, reply, hash, now, w.executed);
      RecordKeepsIntents(b.gate, c, reply, hash, now, w.journal, w'.journal, w.submits);
    }
  }

  /** Reconciliation is a query: it executes, and changes nothing. */
  lemma ReconcileIsReadOnly(cfg: Config, hash: Body -> string, w: World, c: Command, now: Time)
    requires Ready(cfg, w.bridge.venue) && WellFormed(c)
    requires c.body.messageType == ReconciliationRequest
    ensures AfterCommand(cfg, hash, w, c, now) == w
    ensures HandleCommand(cfg, hash, w.bridge, c, now).Replied?
  {
  }

  lemma StepKeepsSafe(cfg: Config, hash: Body -> string, w: World, s: Step)
    requires Safe(cfg, hash, w) && Allowed(cfg, s)
    ensures Safe(cfg, hash, After(cfg, hash, w, s))
  {
    hide OrderBooks, PositionsMatch, Identified, FittingSteps, Settled, OneOrderPerIntent, SubmitsOnce,
         Verdict, HandleCommand, AfterCommand, Advance, Noted;
    var v := w.bridge.venue;
    match s
    case Receive(f, now) =>
      if Intact(f) {
        if Executes(w.bridge, f.command, hash, now) {
          ExecutedKeepsSafe(cfg, hash, w, f.command, now);
        } else {
          InertKeepsWorld(cfg, hash, w, f.command, now);
        }
      }
    case Tick(quotes) =>
      if FittingSteps(cfg) { AdvanceConserves(cfg, v, w.journal, quotes); }
      AdvanceTraced(cfg, v, w.journal, quotes);
      NotedPlacesNothing(w.journal, Advance(cfg, v, quotes).1);
      SamePlaced(w.bridge.gate, w.journal, Noted(w.journal, Advance(cfg, v, quotes).1));
    case SetSafeMode(_) =>
    case SetTradingEnabled(on) =>
      if FittingSteps(cfg) { TradingFlagConserves(cfg, v, w.journal, on); }
      TradingFlagTraced(cfg, v, w.journal, on);
  }

  lemma InertKeepsWorld(cfg: Config, hash: Body -> string, w: World, c: Command, now: Time)
    requires Ready(cfg, w.bridge.venue) && WellFormed(c) && !Executes(w.bridge, c, hash, now)
    ensures AfterCommand(cfg, hash, w, c, now) == w
  {
    UnexecutedIsInert(cfg, hash, w.bridge, c, now);
  }

  lemma NotedPlacesNothing(j: Journal, events: seq<Event>)
    ensures Noted(j, events).placed == j.placed
  {
  }

  lemma SamePlaced(g: Gate, j: Journal, j': Journal)
    requires OneOrderPerIntent(g, j) && j'.placed == j.placed
    ensures OneOrderPerIntent(g, j')
  {
  }

  lemma {:induction false} RunKeepsSafe(cfg: Config, hash: Body -> string, w: World, steps: seq<Step>)
    requires Safe(cfg, hash, w) && forall s <- steps :: Allowed(cfg, s)
    ensures Safe(cfg, hash, Run(cfg, hash, w, steps))
    decreases |steps|
  {
    hide After, Conserved, Identified, PositionsMatch, Settled, OneOrderPerIntent, SubmitsOnce;
    if steps != [] {
      StepKeepsSafe(cfg, hash, w, steps[0]);
      RunKeepsSafe(cfg, hash, After(cfg, hash, w, steps[0]), steps[1..]);
    }
  }

  lemma BootIsSafe(cfg: Config, hash: Body -> string, quotes: map<string, Quote>)
    requires ValidConfig(cfg) && GoodQuotes(cfg, quotes)
    ensures Safe(cfg, hash, Boot(cfg, quotes))
  {
  }

  // ----- main results -----------------------------------------------------------------

  ghost predicate Reachable(cfg: Config, hash: Body -> string, quotes: map<string, Quote>,
                            steps: seq<Step>, w: World)
  {
    && ValidConfig(cfg) && GoodQuotes(cfg, quotes)
    && (forall s <- steps :: Allowed(cfg, s))
    && w == Run(cfg, hash, Boot(cfg, quotes), steps)
  }

  lemma ReachableIsSafe(cfg: Config, hash: Body -> string, quotes: map<string, Quote>,
                        steps: seq<Step>, w: World)
    requires Reachable(cfg, hash, quotes, steps, w)
    ensures Safe(cfg, hash, w)
  {
    hide Run, Safe;
    BootIsSafe(cfg, hash, quotes);
    RunKeepsSafe(cfg, hash, Boot(cfg, quotes), steps);
  }

  /** With one order per intent, the fills of the intent are the fills of the order. */
  lemma {:induction false} IntentFillsAreOrderFills(fs: seq<FillEvent>, placed: map<nat, WorkingOrder>, id: nat)
    requires id in placed
    requires forall i | 0 <= i < |fs| :: fs[i].orderId in placed
    requires forall i | 0 <= i < |fs| :: fs[i].intent == placed[fs[i].orderId].orderIntentId
    requires forall a <- placed :: placed[a].orderIntentId == placed[id].orderIntentId ==> a == id
    ensures OfIntent(fs, placed[id].orderIntentId) == OfOrder(fs, id)
  {
    if fs != [] {
      IntentFillsAreOrderFills(fs[..|fs| - 1], placed, id);
    }
  }

  lemma SubmitsCounted(g: Gate, submits: seq<Uuid>, intent: Uuid)
    requires SubmitsOnce(g, submits)
    ensures multiset(submits)[intent] <= 1
  {
    if |submits| > 0 {
      var n := |submits| - 1;
      assert submits == submits[..n] + [submits[n]];
      SubmitsCounted(g, submits[..n], intent);
      if submits[n] == intent && multiset(submits[..n])[intent] > 0 {
        assert false;
      }
    }
  }

  /**
    The headline promise, over every run of frames, ticks and operator actions:
    an intent reaches `process_submit` at most once, owns at most one venue
    order and at most one position, and that position never exceeds what the
    one order asked for.
   */
  lemma AtMostOneTradePerIntent(cfg: Config, hash: Body -> string, quotes: map<string, Quote>,
                                steps: seq<Step>, w: World, intent: Uuid)
    requires Reachable(cfg, hash, quotes, steps, w)
    ensures multiset(w.submits)[intent] <= 1
    ensures forall a <- w.journal.placed, b <- w.journal.placed ::
              w.journal.placed[a].orderIntentId == w.journal.placed[b].orderIntentId == intent ==> a == b
    ensures forall k, l :: 0 <= k < l < |w.bridge.venue.positions| ==>
              !(w.bridge.venue.positions[k].orderIntentId == intent
                && w.bridge.venue.positions[l].orderIntentId == intent)
    ensures forall p <- w.bridge.venue.positions :: p.orderIntentId == intent ==>
              exists id <- w.journal.placed ::
                && w.journal.placed[id].orderIntentId == intent
                && p.quantity == Total(OfOrder(w.journal.fills, id))
                && p.average * p.quantity == Notional(OfOrder(w.journal.fills, id))
                && (FittingSteps(cfg) ==> p.quantity <= w.journal.placed[id].quantity)
  {
    hide Run, Reachable, Safe, Total, Notional, OfOrder, FittingSteps;
    ReachableIsSafe(cfg, hash, quotes, steps, w);
    SafeOwnsOnce(cfg, hash, w, intent);
    forall p <- w.bridge.venue.positions | p.orderIntentId == intent
      ensures exists id <- w.journal.placed ::
                && w.journal.placed[id].orderIntentId == intent
                && p.quantity == Total(OfOrder(w.journal.fills, id))
                && p.average * p.quantity == Notional(OfOrder(w.journal.fills, id))
                && (FittingSteps(cfg) ==> p.quantity <= w.journal.placed[id].quantity)
    {
      var id := PositionOwner(cfg, hash, w, p);
    }
  }

  lemma SafeOwnsOnce(cfg: Config, hash: Body -> string, w: World, intent: Uuid)
    requires Safe(cfg, hash, w)
    ensures multiset(w.submits)[intent] <= 1
    ensures forall a <- w.journal.placed, b <- w.journal.placed ::
              w.journal.placed[a].orderIntentId == w.journal.placed[b].orderIntentId == intent ==> a == b
    ensures forall k, l :: 0 <= k < l < |w.bridge.venue.positions| ==>
              !(w.bridge.venue.positions[k].orderIntentId == intent
                && w.bridge.venue.positions[l].orderIntentId == intent)
  {
    hide Conserved, Identified, Settled, PositionBooks, OfIntent;
    SubmitsCounted(w.bridge.gate, w.submits, intent);
  }

  lemma PositionOwner(cfg: Config, hash: Body -> string, w: World, p: Position) returns (id: nat)
    requires Safe(cfg, hash, w) && p in w.bridge.venue.positions
    ensures id in w.journal.placed && w.journal.placed[id].orderIntentId == p.orderIntentId
    ensures p.quantity == Total(OfOrder(w.journal.fills, id))
    ensures p.average * p.quantity == Notional(OfOrder(w.journal.fills, id))
    ensures FittingSteps(cfg) ==> p.quantity <= w.journal.placed[id].quantity
  {
    hide Settled, SubmitsOnce, Remembers, OrderBooks, Identified, FittingSteps;
    var j := w.journal;
    BooksOfPosition(w.bridge.venue, j, p);
    id := FilledOrder(w.bridge.venue, j, w.bridge.gate, p.orderIntentId);
    if FittingSteps(cfg) { BooksOf(cfg, w.bridge.venue, j, id); }
  }

  lemma BooksOfPosition(v: Venue, j: Journal, p: Position)
    requires PositionsMatch(v, j) && p in v.positions
    ensures PositionBooks(j, p) && OfIntent(j.fills, p.orderIntentId) != []
  {
  }

  lemma FilledOrder(v: Venue, j: Journal, g: Gate, intent: Uuid) returns (id: nat)
    requires Identified(v, j) && OneOrderPerIntent(g, j) && OfIntent(j.fills, intent) != []
    ensures id in j.placed && j.placed[id].orderIntentId == intent
    ensures OfIntent(j.fills, intent) == OfOrder(j.fills, id)
  {
    var i := SomeFill(j.fills, intent);
    id := j.fills[i].orderId;
    IntentFillsAreOrderFills(j.fills, j.placed, id);
  }

  lemma SomeFill(fs: seq<FillEvent>, intent: Uuid) returns (i: nat)
    requires OfIntent(fs, intent) != []
    ensures i < |fs| && fs[i].intent == intent
  {
    if fs[|fs| - 1].intent == intent {
      i := |fs| - 1;
    } else {
      i := SomeFill(fs[..|fs| - 1], intent);
    }
  }

  /** In every reachable state a frame is answered exactly when the parser does not break on it. */
  lemma HandlerAnswersExactly(cfg: Config, hash: Body -> string, quotes: map<string, Quote>,
                              steps: seq<Step>, w: World, f: Frame, now: Time)
    requires Reachable(cfg, hash, quotes, steps, w)
    ensures Handle(cfg, hash, w.bridge, f, now).Replied? <==> !Breaks(f)
  {
    ReachableIsSafe(cfg, hash, quotes, steps, w);
    hide Run, Reachable, Conserved, Identified, PositionsMatch;
    if Intact(f) {
      if !Executes(w.bridge, f.command, hash, now) {
        UnexecutedIsInert(cfg, hash, w.bridge, f.command, now);
      } else if f.command.body.messageType == ReconciliationRequest {
        ReconcileIsReadOnly(cfg, hash, w, f.command, now);
      } else {
        ExecutedIsRecorded(cfg, hash, w.bridge, f.command, now);
      }
    }
  }

  /** The handler never raises once the venue has acted: when it raises, nothing has changed. */
  lemma RaisingChangesNothing(cfg: Config, hash: Body -> string, quotes: map<string, Quote>,
                              steps: seq<Step>, w: World, f: Frame, now: Time)
    requires Reachable(cfg, hash, quotes, steps, w) && Handle(cfg, hash, w.bridge, f, now).Raised?
    ensures Breaks(f) && Handle(cfg, hash, w.bridge, f, now).bridge == w.bridge
    ensures After(cfg, hash, w, Receive(f, now)) == w
  {
    hide Run, Reachable, HandleCommand;
    HandlerAnswersExactly(cfg, hash, quotes, steps, w, f, now);
  }

  /** Frames of each kind that go unanswered, in every reachable state. */
  lemma UnansweredFrames(cfg: Config, hash: Body -> string, quotes: map<string, Quote>,
                         steps: seq<Step>, w: World, c: Command, now: Time)
    requires Reachable(cfg, hash, quotes, steps, w)
    ensures Handle(cfg, hash, w.bridge, NotAnObject, now) == Raised(w.bridge)
    ensures Handle(cfg, hash, w.bridge, UnknownType([0xD800]), now) == Raised(w.bridge)
    ensures Handle(cfg, hash, w.bridge, CommandFrame(c.(timestamp := LAST_INSTANT + 1), true), now) == Raised(w.bridge)
  {
    hide Run, Reachable, HandleCommand;
    var name: Text := [0xD800];
    assert name[0] == 0xD800;
  }

  /** A retry of an executed command's content: when does it run again? */
  lemma RetryExecutesExactly(cfg: Config, hash: Body -> string, w: World, i: nat, c: Command, now: Time)
    requires Safe(cfg, hash, w) && i < |w.executed|
    requires WellFormed(c) && c.body == w.executed[i].command.body
    ensures Executes(w.bridge, c, hash, now) <==>
            && c.body.messageType == ModifyOrder
            && !Expired(c, now)
            && w.bridge.gate.records[KeyOf(c)].fingerprint != hash(c.body)
            && c.sequence == LastOf(w.bridge.gate.last, c.body.strategyId) + 1
  {
    hide Conserved, Identified, PositionsMatch;
    assert Settled(w.bridge.gate, hash, w.executed[i]);
    AcceptedExactly(w.bridge.gate, c, hash, now);
  }

  /**
    Redelivering the very frame of any command the bridge ever executed, at any
    later time and in any operator mode, changes nothing and emits nothing;
    this includes an amendment whose ledger record a newer one has replaced.
   */
  lemma RedeliveryIsHarmless(cfg: Config, hash: Body -> string, quotes: map<string, Quote>,
                             steps: seq<Step>, w: World, i: nat, now: Time)
    requires Reachable(cfg, hash, quotes, steps, w) && i < |w.executed|
    ensures WellFormed(w.executed[i].command)
    ensures After(cfg, hash, w, Receive(CommandFrame(w.executed[i].command, true), now)) == w
    ensures var h := HandleCommand(cfg, hash, w.bridge, w.executed[i].command, now);
            h.Replied? && h.events == []
  {
    ReachableIsSafe(cfg, hash, quotes, steps, w);
    hide Run, Reachable, Conserved, Identified, PositionsMatch, HandleCommand, AfterCommand;
    var c := w.executed[i].command;
    assert Settled(w.bridge.gate, hash, w.executed[i]);
    RetryExecutesExactly(cfg, hash, w, i, c, now);
    SafeIsReady(cfg, hash, w);
    UnexecutedIsInert(cfg, hash, w.bridge, c, now);
    InertKeepsWorld(cfg, hash, w, c, now);
  }

  lemma SafeIsReady(cfg: Config, hash: Body -> string, w: World)
    requires Safe(cfg, hash, w)
    ensures Ready(cfg, w.bridge.venue)
  {
    hide Conserved;
  }

  /**
    A retry of an executed submit or cancel, with any frame fields: as long as
    it is neither expired nor blocked, the answer is the first answer again,
    flagged duplicate when that was an ack.
   */
  lemma RetryRepeatsTheAnswer(cfg: Config, hash: Body -> string, quotes: map<string, Quote>,
                              steps: seq<Step>, w: World, i: nat, c: Command, now: Time)
    requires Reachable(cfg, hash, quotes, steps, w) && i < |w.executed|
    requires WellFormed(c) && c.body == w.executed[i].command.body && c.body.messageType != ModifyOrder
    requires !Expired(c, now) && !Blocked(w.bridge, c)
    ensures var h := HandleCommand(cfg, hash, w.bridge, c, now);
            && h.Replied? && h.bridge == w.bridge && h.events == []
            && PayloadOf(h.reply) == PayloadOf(w.executed[i].reply)
            && h.reply.frame.correlationId == Some(c.messageId)
            && (h.reply.OrderAck? <==> w.executed[i].reply.OrderAck?)
            && (h.reply.OrderAck? ==> h.reply.duplicate)
  {
    ReachableIsSafe(cfg, hash, quotes, steps, w);
    hide Run, Reachable, Conserved, Identified, PositionsMatch, Dispatch;
    assert Settled(w.bridge.gate, hash, w.executed[i]);
  }
}
