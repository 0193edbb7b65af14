/**
  What holds at the venue for every configuration, however fine its lot steps:
  orders have fresh ids and keep their intent, every fill belongs to a placed
  order, and every position is the fill total of its intent.
 */
module Mt4Identity {
  import opened Options
  import opened Mt4Protocol
  import opened Mt4Lots
  import opened Mt4Venue
  import opened Mt4Conservation

  ghost predicate Identified(v: Venue, j: Journal) {
    && (forall k | 0 <= k < |v.working| :: v.working[k].id in j.placed)
    && (forall k | 0 <= k < |v.working| ::
          j.placed[v.working[k].id].orderIntentId == v.working[k].orderIntentId)
    && (forall k, l | 0 <= k < l < |v.working| :: v.working[k].id != v.working[l].id)
    && (forall id <- j.placed :: id <= v.counter)
    && (forall i | 0 <= i < |j.fills| :: j.fills[i].orderId in j.placed)
    && (forall i | 0 <= i < |j.fills| ::
          j.fills[i].intent == j.placed[j.fills[i].orderId].orderIntentId)
  }

  ghost predicate Traced(cfg: Config, v: Venue, j: Journal) {
    && Ready(cfg, v)
    && Identified(v, j)
    && PositionsMatch(v, j)
  }

  /** What a successful attempt does to identities. */
  lemma FillIdentity(cfg: Config, v: Venue, k: nat)
    requires Ready(cfg, v) && k < |v.working|
    requires Fillable(cfg, v.working[k], v.quotes[v.working[k].symbol])
    ensures var w, m := v.working[k], FillOrder(cfg, v, k);
            && FillsIn(m.events) == [m.events[0]]
            && var e: FillEvent := m.events[0];
               && e.orderId == w.id && e.intent == w.orderIntentId && e.quantity > 0.0
               && (m.venue.positions, m.venue.counter) ==
                  NetPosition(v.positions, w, e.quantity, e.price, v.counter)
               && (|| m.venue.working == v.working[..k] + v.working[k + 1..]
                   || m.venue.working == v.working[k := w.(remaining := w.remaining - e.quantity)])
  {
    hide FillQuantity, NetPosition, Margin, Slippage;
    OneFillAmongThree(FillOrder(cfg, v, k).events);
  }

  lemma FillTraced(cfg: Config, v: Venue, j: Journal, k: nat)
    requires Traced(cfg, v, j) && k < |v.working|
    ensures var m := FillOrder(cfg, v, k);
            Traced(cfg, m.venue, Noted(j, m.events))
  {
    hide OrderFill, Margin, Slippage, PositionsMatch;
    var m, w := FillOrder(cfg, v, k), v.working[k];
    if Fillable(cfg, w, v.quotes[w.symbol]) {
      FillIdentity(cfg, v, k);
      FillKeepsPositions(v, j, w, m.events[0], v.counter);
      PositionsFrame(v.(positions := m.venue.positions), WithFill(j, m.events[0]),
                     m.venue, Noted(j, m.events));
    } else {
      NothingNoted(j);
    }
  }

  lemma {:induction false} MatchTraced(cfg: Config, v: Venue, j: Journal, i: nat)
    requires Traced(cfg, v, j) && i <= |v.working|
    ensures var m := MatchFrom(cfg, v, i);
            Traced(cfg, m.0, Noted(j, m.1))
    decreases |v.working| - i
  {
    hide FillOrder, Identified, PositionsMatch, Noted;
    if i == |v.working| {
      NothingNoted(j);
    } else if !IsTouched(v.working[i], v.quotes[v.working[i].symbol]) {
      MatchTraced(cfg, v, j, i + 1);
    } else {
      var m := FillOrder(cfg, v, i);
      var next := if |m.venue.working| < |v.working| then i else i + 1;
      FillTraced(cfg, v, j, i);
      MatchTraced(cfg, m.venue, Noted(j, m.events), next);
      NotedTwice(j, m.events, MatchFrom(cfg, m.venue, next).1);
    }
  }

  lemma AdvanceTraced(cfg: Config, v: Venue, j: Journal, quotes: map<string, Quote>)
    requires Traced(cfg, v, j) && GoodQuotes(cfg, quotes)
    ensures Traced(cfg, Advance(cfg, v, quotes).0, Noted(j, Advance(cfg, v, quotes).1))
  {
    hide MatchFrom, Noted, PositionsMatch;
    PositionsFrame(v, j, v.(quotes := quotes), j);
    MatchTraced(cfg, v.(quotes := quotes), j, 0);
  }

  lemma PlacingTraced(cfg: Config, v: Venue, j: Journal, c: Command)
    requires Traced(cfg, v, j)
    requires WellFormed(c) && c.body.messageType == SubmitOrder && c.body.symbol.value in cfg.symbols
    ensures var o := NewOrder(cfg, v, c);
            o.id !in j.placed && Traced(cfg, Rested(cfg, v, c), j.(placed := j.placed[o.id := o]))
  {
    hide PositionsMatch;
    var o := NewOrder(cfg, v, c);
    PositionsFrame(v, j, Rested(cfg, v, c), j.(placed := j.placed[o.id := o]));
  }

  lemma SubmitTraced(cfg: Config, v: Venue, j: Journal, c: Command, now: Time)
    requires Traced(cfg, v, j) && WellFormed(c) && c.body.messageType == SubmitOrder
    ensures Traced(cfg, ProcessSubmit(cfg, v, c, now).0, SubmitJournal(cfg, v, j, c, now))
  {
    hide Identified, PositionsMatch, FillOrder, Noted, OnGrid, StopsOk, Margin;
    if VenueChecks(cfg, v, c, now).None? {
      var o := NewOrder(cfg, v, c);
      var j' := j.(placed := j.placed[o.id := o]);
      PlacingTraced(cfg, v, j, c);
      if c.body.orderType.value.Market? {
        FillTraced(cfg, Rested(cfg, v, c), j', |v.working|);
        FilledSameOrder(cfg, Rested(cfg, v, c), |v.working|);
      } else {
        NothingNoted(j');
      }
    }
  }

  lemma CancelTraced(cfg: Config, v: Venue, j: Journal, c: Command)
    requires Traced(cfg, v, j) && c.body.orderIntentId.Some?
    ensures Traced(cfg, ProcessCancel(v, c).0, CancelJournal(v, j, c))
  {
    hide PositionsMatch;
    PositionsFrame(v, j, ProcessCancel(v, c).0, CancelJournal(v, j, c));
  }

  lemma ModifyTraced(cfg: Config, v: Venue, j: Journal, c: Command)
    requires Traced(cfg, v, j) && c.body.orderIntentId.Some?
    ensures Traced(cfg, ProcessModify(cfg, v, c).0, j)
  {
    hide PositionsMatch, StopsOk;
    PositionsFrame(v, j, ProcessModify(cfg, v, c).0, j);
  }

  lemma TradingFlagTraced(cfg: Config, v: Venue, j: Journal, enabled: bool)
    requires Traced(cfg, v, j)
    ensures Traced(cfg, v.(tradingEnabled := enabled), j)
  {
    hide PositionsMatch;
    PositionsFrame(v, j, v.(tradingEnabled := enabled), j);
  }
}
