/**
  One-minute bars built tick by tick in bounded memory
  (apps/live_supervisor/signals.py, apps/live_supervisor/engine.py), against
  grouping the whole stream at once. Times are integer microseconds.
 */
module MinuteBars {
  import opened Options

  datatype Tick = Tick(price: real, at: int)

  datatype Bar = Bar(open: real, high: real, low: real, close: real, closedAt: int)

  /** The closed bars kept, and the bar of the current minute. */
  datatype Series = Series(closed: seq<Bar>, current: Option<Bar>)

  const MINUTE := 60_000_000

  const Fresh := Series([], None)

  function MinuteOf(at: int): int {
    at - at % MINUTE
  }

  function Max(a: real, b: real): real {
    if a >= b then a else b
  }

  function Min(a: real, b: real): real {
    if a <= b then a else b
  }

  /** What a deque of length `cap` keeps of everything appended to it. */
  function LastOf<T>(s: seq<T>, cap: nat): seq<T> {
    if |s| <= cap then s else s[|s| - cap..]
  }

  // ----- tick by tick -----------------------------------------------------------------------------

  function Opened(t: Tick): Bar {
    Bar(t.price, t.price, t.price, t.price, MinuteOf(t.at))
  }

  function Updated(b: Bar, t: Tick): Bar {
    Bar(b.open, Max(b.high, t.price), Min(b.low, t.price), t.price, b.closedAt)
  }

  /** `on_price`: a tick of an earlier minute still updates the current bar. */
  function OnPrice(cap: nat, s: Series, t: Tick): Series {
    if s.current.None? then Series(s.closed, Some(Opened(t)))
    else if MinuteOf(t.at) > s.current.value.closedAt then
      Series(LastOf(s.closed + [s.current.value], cap), Some(Opened(t)))
    else Series(s.closed, Some(Updated(s.current.value, t)))
  }

  function After(cap: nat, s: Series, ts: seq<Tick>): Series
    decreases |ts|
  {
    if ts == [] then s else After(cap, OnPrice(cap, s, ts[0]), ts[1..])
  }

  // ----- all at once --------------------------------------------------------------------------------

  /** A non-empty run of ticks. */
  datatype Group = Group(first: Tick, more: seq<Tick>) {
    function All(): seq<Tick> {
      [first] + more
    }

    /** The minute the group opens. */
    function Lead(): int {
      MinuteOf(first.at)
    }
  }

  function HighOf(first: Tick, more: seq<Tick>): real {
    if more == [] then first.price else Max(HighOf(first, more[..|more| - 1]), more[|more| - 1].price)
  }

  function LowOf(first: Tick, more: seq<Tick>): real {
    if more == [] then first.price else Min(LowOf(first, more[..|more| - 1]), more[|more| - 1].price)
  }

  function BarOf(g: Group): Bar {
    Bar(g.first.price, HighOf(g.first, g.more), LowOf(g.first, g.more),
        if g.more == [] then g.first.price else g.more[|g.more| - 1].price, g.Lead())
  }

  /** Number of leading ticks that are not past `minute`. */
  function RunLength(ts: seq<Tick>, minute: int): (n: nat)
    ensures n <= |ts|
  {
    if ts == [] || MinuteOf(ts[0].at) > minute then 0 else 1 + RunLength(ts[1..], minute)
  }

  /** The stream cut before every tick whose minute is past all earlier ones. */
  function Groups(ts: seq<Tick>): (gs: seq<Group>)
    ensures gs == [] <==> ts == []
    decreases |ts|
  {
    if ts == [] then [] else
      var n := RunLength(ts[1..], MinuteOf(ts[0].at));
      [Group(ts[0], ts[1..][..n])] + Groups(ts[1..][n..])
  }

  function BarsOf(gs: seq<Group>): (bs: seq<Bar>)
    ensures |bs| == |gs|
  {
    if gs == [] then [] else [BarOf(gs[0])] + BarsOf(gs[1..])
  }

  /** The bars of every completed minute, oldest first. */
  function Completed(ts: seq<Tick>): (bs: seq<Bar>)
    ensures |bs| == if ts == [] then 0 else |Groups(ts)| - 1
  {
    if ts == [] then [] else BarsOf(Groups(ts)[..|Groups(ts)| - 1])
  }

  function Flatten(gs: seq<Group>): seq<Tick> {
    if gs == [] then [] else gs[0].All() + Flatten(gs[1..])
  }

  // ----- the batch grouping means what it should -------------------------------------------------

  /** High and low are attained and bound every price of the group. */
  lemma {:induction false} HighAndLow(first: Tick, more: seq<Tick>)
    ensures forall t <- [first] + more :: LowOf(first, more) <= t.price <= HighOf(first, more)
    ensures exists t <- [first] + more :: t.price == HighOf(first, more)
    ensures exists t <- [first] + more :: t.price == LowOf(first, more)
  {
    var all := [first] + more;
    assert first == all[0];
    if more != [] {
      var init, last := more[..|more| - 1], more[|more| - 1];
      HighAndLow(first, init);
      assert last == all[|more|];
      assert all == [first] + init + [last];
    }
  }

  lemma BarsAt(gs: seq<Group>, k: nat)
    requires k < |gs|
    ensures BarsOf(gs)[k] == BarOf(gs[k])
  {
    if k > 0 { BarsAt(gs[1..], k - 1); }
  }

  lemma {:induction false} RunLengthMeans(ts: seq<Tick>, minute: int)
    ensures var n := RunLength(ts, minute);
            && (forall i :: 0 <= i < n ==> MinuteOf(ts[i].at) <= minute)
            && (n < |ts| ==> MinuteOf(ts[n].at) > minute)
  {
    hide MinuteOf;
    if ts != [] { RunLengthMeans(ts[1..], minute); }
  }

  /** No tick of the group is past the minute it opens. */
  ghost predicate Led(g: Group) {
    forall i :: 0 <= i < |g.more| ==> MinuteOf(g.more[i].at) <= g.Lead()
  }

  ghost predicate LeadersRise(gs: seq<Group>) {
    forall i, j :: 0 <= i < j < |gs| ==> gs[i].Lead() < gs[j].Lead()
  }

  /** The first group and the stream that is left after it. */
  lemma FirstGroup(ts: seq<Tick>) returns (g: Group, rest: seq<Tick>)
    requires ts != []
    ensures Groups(ts) == [g] + Groups(rest) && ts == g.All() + rest
    ensures g.first == ts[0] && Led(g) && |rest| < |ts|
    ensures rest != [] ==> MinuteOf(rest[0].at) > g.Lead()
  {
    hide MinuteOf, RunLength, Groups;
    var n := RunLength(ts[1..], MinuteOf(ts[0].at));
    GroupsCut(ts);
    RunLengthMeans(ts[1..], MinuteOf(ts[0].at));
    g, rest := Group(ts[0], ts[1..][..n]), ts[1..][n..];
  }

  /** Grouping loses and reorders nothing; each group opens its minute and later groups open later ones. */
  lemma {:induction false} GroupsPartition(ts: seq<Tick>)
    ensures Flatten(Groups(ts)) == ts
    ensures forall k :: 0 <= k < |Groups(ts)| ==> Led(Groups(ts)[k])
    ensures LeadersRise(Groups(ts))
    ensures ts != [] ==> Groups(ts)[0].first == ts[0]
    decreases |ts|
  {
    hide Groups, Led, MinuteOf;
    if ts != [] {
      var g, rest := FirstGroup(ts);
      GroupsPartition(rest);
      var gs := Groups(ts);
      assert gs[1..] == Groups(rest);
      forall i, j | 0 <= i < j < |gs| ensures gs[i].Lead() < gs[j].Lead() {
        assert gs[j] == Groups(rest)[j - 1];
        if i > 0 {
          assert gs[i] == Groups(rest)[i - 1];
        } else {
          assert Groups(rest)[0].Lead() == MinuteOf(rest[0].at);
        }
      }
    }
  }

  ghost predicate InOrder(ts: seq<Tick>) {
    forall i, j :: 0 <= i < j < |ts| ==> ts[i].at <= ts[j].at
  }

  /** The ticks of one minute. */
  function TicksOf(ts: seq<Tick>, minute: int): seq<Tick> {
    if ts == [] then []
    else (if MinuteOf(ts[0].at) == minute then [ts[0]] else []) + TicksOf(ts[1..], minute)
  }

  ghost predicate AllIn(ts: seq<Tick>, minute: int) {
    forall i :: 0 <= i < |ts| ==> MinuteOf(ts[i].at) == minute
  }

  ghost predicate NoneIn(ts: seq<Tick>, minute: int) {
    forall i :: 0 <= i < |ts| ==> MinuteOf(ts[i].at) != minute
  }

  lemma {:induction false} TicksOfSplit(ts: seq<Tick>, minute: int, rest: seq<Tick>)
    ensures AllIn(ts, minute) ==> TicksOf(ts + rest, minute) == ts + TicksOf(rest, minute)
    ensures NoneIn(ts, minute) ==> TicksOf(ts + rest, minute) == TicksOf(rest, minute)
  {
    hide MinuteOf;
    if ts == [] {
      assert ts + rest == rest;
    } else {
      assert (ts + rest)[1..] == ts[1..] + rest;
      TicksOfSplit(ts[1..], minute, rest);
    }
  }

  lemma NoTicksOf(ts: seq<Tick>, minute: int)
    requires NoneIn(ts, minute)
    ensures TicksOf(ts, minute) == []
  {
    TicksOfSplit(ts, minute, []);
    assert ts + [] == ts;
  }

  lemma MinutesFollowTimes(a: int, b: int)
    requires a <= b
    ensures MinuteOf(a) <= MinuteOf(b)
  {
  }

  /** With times in order a first group is one whole minute and the rest is past it. */
  lemma OrderedFirst(ts: seq<Tick>, g: Group, rest: seq<Tick>)
    requires InOrder(ts) && ts == g.All() + rest && Led(g)
    requires rest != [] ==> MinuteOf(rest[0].at) > g.Lead()
    ensures AllIn(g.All(), g.Lead()) && InOrder(rest)
    ensures forall i :: 0 <= i < |rest| ==> MinuteOf(rest[i].at) > g.Lead()
  {
    hide MinuteOf;
    forall i | 0 <= i < |g.All()| ensures MinuteOf(g.All()[i].at) == g.Lead() {
      if i > 0 {
        assert ts[0] == g.first && ts[i] == g.more[i - 1];
        MinutesFollowTimes(g.first.at, g.more[i - 1].at);
      }
    }
    forall i, j | 0 <= i < j < |rest| ensures rest[i].at <= rest[j].at {
      assert ts[|g.All()| + i] == rest[i] && ts[|g.All()| + j] == rest[j];
    }
    forall i | 0 <= i < |rest| ensures MinuteOf(rest[i].at) > g.Lead() {
      if i > 0 { MinutesFollowTimes(rest[0].at, rest[i].at); }
    }
  }

  /** With times in order, every group is exactly the ticks of its minute. */
  lemma {:induction false} OrderedGroupsAreMinutes(ts: seq<Tick>, k: nat)
    requires InOrder(ts) && k < |Groups(ts)|
    ensures Groups(ts)[k].All() == TicksOf(ts, Groups(ts)[k].Lead())
    decreases |ts|
  {
    hide Groups, Led, InOrder, MinuteOf;
    var g, rest := FirstGroup(ts);
    OrderedFirst(ts, g, rest);
    if k == 0 {
      TicksOfSplit(g.All(), g.Lead(), rest);
      NoTicksOf(rest, g.Lead());
    } else {
      GroupsPartition(ts);
      var h := Groups(rest)[k - 1];
      assert h == Groups(ts)[k] && Groups(ts)[0] == g;
      TicksOfSplit(g.All(), h.Lead(), rest);
      OrderedGroupsAreMinutes(rest, k - 1);
    }
  }

  // ----- tick by tick equals all at once --------------------------------------------------------

  lemma {:induction false} LateTicksAreAbsorbed(cap: nat, closed: seq<Bar>, g: Group, late: seq<Tick>)
    requires forall i :: 0 <= i < |late| ==> MinuteOf(late[i].at) <= g.Lead()
    ensures After(cap, Series(closed, Some(BarOf(g))), late) == Series(closed, Some(BarOf(Group(g.first, g.more + late))))
    decreases |late|
  {
    hide MinuteOf;
    if late == [] {
      assert g.more + late == g.more;
    } else {
      var g' := Group(g.first, g.more + [late[0]]);
      assert g'.more[..|g.more|] == g.more;
      assert Updated(BarOf(g), late[0]) == BarOf(g');
      LateTicksAreAbsorbed(cap, closed, g', late[1..]);
      assert g'.more + late[1..] == g.more + late;
    }
  }

  lemma {:induction false} AfterAppend(cap: nat, s: Series, ts: seq<Tick>, more: seq<Tick>)
    ensures After(cap, s, ts + more) == After(cap, After(cap, s, ts), more)
    decreases |ts|
  {
    hide OnPrice;
    if ts == [] {
      assert ts + more == more;
    } else {
      assert (ts + more)[1..] == ts[1..] + more;
      AfterAppend(cap, OnPrice(cap, s, ts[0]), ts[1..], more);
    }
  }

  lemma LastOfLast<T>(s: seq<T>, x: T, cap: nat)
    ensures LastOf(LastOf(s, cap) + [x], cap) == LastOf(s + [x], cap)
  {
    if |s| > cap {
      var kept := s[|s| - cap..] + [x];
      assert LastOf(kept, cap) == kept[1..];
      assert (s + [x])[|s| + 1 - cap..] == kept[1..];
    }
  }

  /** The ticks of one group turn the bar of its first tick into the bar of the group. */
  lemma GroupIsABar(cap: nat, closed: seq<Bar>, g: Group)
    requires Led(g)
    ensures After(cap, Series(closed, Some(Opened(g.first))), g.more) == Series(closed, Some(BarOf(g)))
  {
    assert Opened(g.first) == BarOf(Group(g.first, []));
    LateTicksAreAbsorbed(cap, closed, Group(g.first, []), g.more);
    assert [] + g.more == g.more;
  }

  lemma BarsPrepend(g: Group, gs: seq<Group>)
    requires gs != []
    ensures var all := [g] + gs;
            && BarsOf(all[..|all| - 1]) == [BarOf(g)] + BarsOf(gs[..|gs| - 1])
            && all[|all| - 1] == gs[|gs| - 1]
  {
    hide BarOf;
    var all := [g] + gs;
    assert all[..|all| - 1][1..] == gs[..|gs| - 1];
  }

  /** A tick of a later minute closes the open group. */
  lemma NextGroup(cap: nat, history: seq<Bar>, g: Group, h: Group, rest: seq<Tick>)
    requires Led(h) && h.Lead() > g.Lead()
    ensures After(cap, Series(LastOf(history, cap), Some(BarOf(g))), h.All() + rest) ==
            After(cap, Series(LastOf(history + [BarOf(g)], cap), Some(BarOf(h))), rest)
  {
    hide Led, LastOf, HighOf, LowOf, MinuteOf;
    var kept := LastOf(history + [BarOf(g)], cap);
    LastOfLast(history, BarOf(g), cap);
    var ts := h.All() + rest;
    assert ts[0] == h.first && ts[1..] == h.more + rest;
    assert OnPrice(cap, Series(LastOf(history, cap), Some(BarOf(g))), h.first) == Series(kept, Some(Opened(h.first)));
    AfterAppend(cap, Series(kept, Some(Opened(h.first))), h.more, rest);
    GroupIsABar(cap, kept, h);
  }

  /** From an open group on: its bar and those of the following groups but the last are appended. */
  lemma {:induction false} GroupsFold(cap: nat, history: seq<Bar>, g: Group, ts: seq<Tick>)
    requires ts != [] ==> MinuteOf(ts[0].at) > g.Lead()
    ensures var gs := [g] + Groups(ts);
            After(cap, Series(LastOf(history, cap), Some(BarOf(g))), ts) ==
            Series(LastOf(history + BarsOf(gs[..|gs| - 1]), cap), Some(BarOf(gs[|gs| - 1])))
    decreases |ts|
  {
    hide BarOf, LastOf, Groups, Led, MinuteOf;
    var gs := [g] + Groups(ts);
    if ts == [] {
      assert gs[..|gs| - 1] == [];
      assert history + BarsOf([]) == history;
    } else {
      var h, rest := FirstGroup(ts);
      NextGroup(cap, history, g, h, rest);
      GroupsFold(cap, history + [BarOf(g)], h, rest);
      BarsPrepend(g, Groups(ts));
      var hs := [h] + Groups(rest);
      assert hs == Groups(ts);
      assert history + [BarOf(g)] + BarsOf(hs[..|hs| - 1]) == history + ([BarOf(g)] + BarsOf(hs[..|hs| - 1]));
    }
  }

  lemma NoTicks(cap: nat)
    ensures After(cap, Fresh, []).closed == LastOf(Completed([]), cap)
  {
  }

  lemma FirstTick(cap: nat, ts: seq<Tick>)
    requires ts != []
    ensures After(cap, Fresh, ts) == After(cap, Series([], Some(Opened(ts[0]))), ts[1..])
  {
    hide Opened;
  }

  /**
    Whatever the ticks and however late some of them come, the closed bars kept
    are the last `cap` of the bars of the completed groups, and the current bar
    is that of the last group.
   */
  lemma IncrementalIsBatch(cap: nat, ts: seq<Tick>)
    ensures After(cap, Fresh, ts).closed == LastOf(Completed(ts), cap)
    ensures ts != [] ==> After(cap, Fresh, ts).current == Some(BarOf(Groups(ts)[|Groups(ts)| - 1]))
  {
    hide Groups, Led, MinuteOf, BarOf, BarsOf, Opened, After;
    if ts == [] {
      NoTicks(cap);
    } else {
      var g, rest := FirstGroup(ts);
      assert ts[1..] == g.more + rest;
      FirstTick(cap, ts);
      AfterAppend(cap, Series([], Some(Opened(g.first))), g.more, rest);
      GroupIsABar(cap, [], g);
      assert LastOf<Bar>([], cap) == [];
      GroupsFold(cap, [], g, rest);
      assert [] + Completed(ts) == Completed(ts);
    }
  }

  ghost predicate Sound(b: Bar) {
    b.low <= b.open <= b.high && b.low <= b.close <= b.high
  }

  ghost predicate Seedable(bs: seq<Bar>) {
    && (forall i :: 0 <= i < |bs| ==> MinuteOf(bs[i].closedAt) == bs[i].closedAt)
    && (forall i, j :: 0 <= i < j < |bs| ==> bs[i].closedAt < bs[j].closedAt)
  }

  lemma BarIsSound(g: Group)
    ensures Sound(BarOf(g)) && BarOf(g).closedAt == g.Lead() && MinuteOf(g.Lead()) == g.Lead()
  {
    HighAndLow(g.first, g.more);
    assert g.first == g.All()[0];
    if g.more != [] { assert g.more[|g.more| - 1] == g.All()[|g.more|]; }
  }

  lemma CompletedAt(ts: seq<Tick>, i: nat)
    requires i < |Completed(ts)|
    ensures var b := Completed(ts)[i];
            Sound(b) && b.closedAt == Groups(ts)[i].Lead() && MinuteOf(b.closedAt) == b.closedAt
  {
    hide BarOf, BarsOf, Sound, MinuteOf;
    BarsAt(Groups(ts)[..|Groups(ts)| - 1], i);
    BarIsSound(Groups(ts)[i]);
  }

  /** Closed minutes strictly increase, even with late ticks, and every closed bar is sound. */
  lemma ClosedMinutesRise(cap: nat, ts: seq<Tick>)
    ensures var bs := After(cap, Fresh, ts).closed;
            Seedable(bs) && forall i :: 0 <= i < |bs| ==> Sound(bs[i])
  {
    hide After, Completed, Groups, Sound, MinuteOf;
    IncrementalIsBatch(cap, ts);
    GroupsPartition(ts);
    forall i | 0 <= i < |Completed(ts)|
      ensures var b := Completed(ts)[i];
              Sound(b) && b.closedAt == Groups(ts)[i].Lead() && MinuteOf(b.closedAt) == b.closedAt
    {
      CompletedAt(ts, i);
    }
  }

  // ----- seeding --------------------------------------------------------------------------------------

  /** The prices `seed_bars` feeds for one bar. */
  function SeedOf(b: Bar): Group {
    Group(Tick(b.open, b.closedAt), [Tick(b.high, b.closedAt), Tick(b.low, b.closedAt), Tick(b.close, b.closedAt)])
  }

  function Seeds(bs: seq<Bar>): (gs: seq<Group>)
    ensures |gs| == |bs| && forall k :: 0 <= k < |bs| ==> gs[k] == SeedOf(bs[k])
  {
    if bs == [] then [] else [SeedOf(bs[0])] + Seeds(bs[1..])
  }

  function SeedTicks(bs: seq<Bar>): seq<Tick> {
    Flatten(Seeds(bs))
  }

  lemma SeededBar(b: Bar)
    requires MinuteOf(b.closedAt) == b.closedAt
    ensures Led(SeedOf(b)) && SeedOf(b).Lead() == b.closedAt
    ensures BarOf(SeedOf(b)) == b <==> Sound(b)
  {
    hide HighOf, LowOf, MinuteOf;
    var first, more := SeedOf(b).first, SeedOf(b).more;
    assert HighOf(first, []) == LowOf(first, []) == b.open by { OnlyTick(first); }
    OneMoreTick(first, [], more[0]);
    OneMoreTick(first, [more[0]], more[1]);
    OneMoreTick(first, [more[0], more[1]], more[2]);
    assert [] + [more[0]] == [more[0]] && [more[0]] + [more[1]] == [more[0], more[1]];
    assert [more[0], more[1]] + [more[2]] == more;
  }

  lemma OnlyTick(first: Tick)
    ensures HighOf(first, []) == LowOf(first, []) == first.price
  {
  }

  lemma OneMoreTick(first: Tick, more: seq<Tick>, t: Tick)
    ensures HighOf(first, more + [t]) == Max(HighOf(first, more), t.price)
    ensures LowOf(first, more + [t]) == Min(LowOf(first, more), t.price)
  {
    assert (more + [t])[..|more|] == more;
  }

  lemma {:induction false} RunLengthIs(ts: seq<Tick>, minute: int, n: nat)
    requires n <= |ts|
    requires forall i :: 0 <= i < n ==> MinuteOf(ts[i].at) <= minute
    requires n < |ts| ==> MinuteOf(ts[n].at) > minute
    ensures RunLength(ts, minute) == n
  {
    hide MinuteOf;
    if n > 0 { RunLengthIs(ts[1..], minute, n - 1); }
  }

  /** A led group in front of a later stream is the first group. */
  lemma GroupInFront(g: Group, rest: seq<Tick>)
    requires Led(g) && (rest != [] ==> MinuteOf(rest[0].at) > g.Lead())
    ensures Groups(g.All() + rest) == [g] + Groups(rest)
  {
    hide MinuteOf, Groups, RunLength;
    var ts := g.All() + rest;
    assert ts[1..] == g.more + rest;
    RunLengthIs(ts[1..], g.Lead(), |g.more|);
    assert ts[1..][..|g.more|] == g.more && ts[1..][|g.more|..] == rest;
    GroupsCut(ts);
  }

  lemma GroupsCut(ts: seq<Tick>)
    requires ts != []
    ensures var n := RunLength(ts[1..], MinuteOf(ts[0].at));
            Groups(ts) == [Group(ts[0], ts[1..][..n])] + Groups(ts[1..][n..])
  {
    hide MinuteOf, RunLength;
  }

  /** Each seeded bar is a group of its own. */
  lemma {:induction false} SeedsAreGroups(bs: seq<Bar>, late: Tick)
    requires Seedable(bs)
    requires forall i :: 0 <= i < |bs| ==> MinuteOf(late.at) > bs[i].closedAt
    ensures Groups(SeedTicks(bs) + [late]) == Seeds(bs) + [Group(late, [])]
  {
    hide Groups, MinuteOf, Led;
    if bs == [] {
      GroupInFrontOfNothing(late);
      assert SeedTicks(bs) + [late] == [late];
    } else {
      var rest := SeedTicks(bs[1..]) + [late];
      assert Seeds(bs)[1..] == Seeds(bs[1..]);
      assert SeedTicks(bs) + [late] == SeedOf(bs[0]).All() + rest;
      assert MinuteOf(rest[0].at) > bs[0].closedAt by {
        if |bs| > 1 { assert rest[0] == SeedOf(bs[1]).first; }
      }
      SeededBar(bs[0]);
      GroupInFront(SeedOf(bs[0]), rest);
      SeedsAreGroups(bs[1..], late);
    }
  }

  lemma GroupInFrontOfNothing(t: Tick)
    ensures Groups([t]) == [Group(t, [])]
  {
    var g := Group(t, []);
    assert g.All() + [] == [t];
    GroupInFront(g, []);
  }

  /** What a fresh series makes of seeded bars. */
  lemma SeededBars(bs: seq<Bar>, late: Tick)
    requires Seedable(bs)
    requires forall i :: 0 <= i < |bs| ==> MinuteOf(late.at) > bs[i].closedAt
    ensures var got := Completed(SeedTicks(bs) + [late]);
            |got| == |bs| && forall i :: 0 <= i < |bs| ==> (got[i] == bs[i] <==> Sound(bs[i]))
  {
    hide Groups, BarOf, BarsOf, MinuteOf, Sound;
    SeedsAreGroups(bs, late);
    var gs := Groups(SeedTicks(bs) + [late]);
    assert gs[..|gs| - 1] == Seeds(bs);
    forall i | 0 <= i < |bs| ensures BarsOf(Seeds(bs))[i] == bs[i] <==> Sound(bs[i]) {
      BarsAt(Seeds(bs), i);
      SeededBar(bs[i]);
    }
  }

  /** Those of the seeded bars that fit in the deque are sound. */
  ghost predicate KeptSound(bs: seq<Bar>, cap: nat) {
    forall i :: 0 <= i < |LastOf(bs, cap)| ==> Sound(LastOf(bs, cap)[i])
  }

  lemma LastAt(s: seq<Bar>, cap: nat)
    ensures |LastOf(s, cap)| == if |s| <= cap then |s| else cap
    ensures forall i :: 0 <= i < |LastOf(s, cap)| ==> LastOf(s, cap)[i] == s[|s| - |LastOf(s, cap)| + i]
  {
  }

  lemma LastOfPointwise(got: seq<Bar>, bs: seq<Bar>, cap: nat)
    requires |got| == |bs| && forall i :: 0 <= i < |bs| ==> (got[i] == bs[i] <==> Sound(bs[i]))
    ensures LastOf(got, cap) == LastOf(bs, cap) <==> KeptSound(bs, cap)
  {
    hide Sound, LastOf;
    var xs, ys := LastOf(got, cap), LastOf(bs, cap);
    LastAt(got, cap);
    LastAt(bs, cap);
    var drop := |bs| - |ys|;
    assert forall i :: 0 <= i < |ys| ==> (xs[i] == ys[i] <==> Sound(ys[i]));
    if forall i :: 0 <= i < |ys| ==> Sound(ys[i]) {
      assert xs == ys;
    }
  }

  /**
    Seeding a fresh series and one later tick give the last `cap` seeded bars
    back exactly when those bars are sound.
   */
  lemma SeedingReproducesExactly(cap: nat, bs: seq<Bar>, late: Tick)
    requires Seedable(bs)
    requires forall i :: 0 <= i < |bs| ==> MinuteOf(late.at) > bs[i].closedAt
    ensures After(cap, Fresh, SeedTicks(bs) + [late]).closed == LastOf(bs, cap) <==> KeptSound(bs, cap)
  {
    hide After, Completed, LastOf, KeptSound, MinuteOf, SeedTicks, Seedable;
    var ts := SeedTicks(bs) + [late];
    IncrementalIsBatch(cap, ts);
    SeededBars(bs, late);
    LastOfPointwise(Completed(ts), bs, cap);
  }

  /** Restart: the bars a series has built, seeded into a fresh one, come back unchanged. */
  lemma RestartRestoresBars(cap: nat, ts: seq<Tick>, late: Tick)
    requires var saved := After(cap, Fresh, ts).closed;
             forall i :: 0 <= i < |saved| ==> MinuteOf(late.at) > saved[i].closedAt
    ensures var saved := After(cap, Fresh, ts).closed;
            After(cap, Fresh, SeedTicks(saved) + [late]).closed == saved
  {
    hide After, Completed, Sound, MinuteOf, SeedTicks, Seedable;
    var saved := After(cap, Fresh, ts).closed;
    ClosedMinutesRise(cap, ts);
    IncrementalIsBatch(cap, ts);
    assert LastOf(saved, cap) == saved;
    SeedingReproducesExactly(cap, saved, late);
  }

  lemma {:induction false} LateTicksCloseNothing(cap: nat, s: Series, ts: seq<Tick>)
    requires s.current.Some?
    requires forall i :: 0 <= i < |ts| ==> MinuteOf(ts[i].at) <= s.current.value.closedAt
    ensures var s' := After(cap, s, ts);
            s'.closed == s.closed && s'.current.Some? && s'.current.value.closedAt == s.current.value.closedAt
    decreases |ts|
  {
    hide MinuteOf;
    if ts != [] { LateTicksCloseNothing(cap, OnPrice(cap, s, ts[0]), ts[1..]); }
  }

  lemma {:induction false} SeedTimes(bs: seq<Bar>, minute: int)
    requires forall i :: 0 <= i < |bs| ==> MinuteOf(bs[i].closedAt) <= minute
    ensures forall i :: 0 <= i < |SeedTicks(bs)| ==> MinuteOf(SeedTicks(bs)[i].at) <= minute
  {
    hide MinuteOf;
    if bs != [] {
      assert Seeds(bs)[1..] == Seeds(bs[1..]);
      assert SeedTicks(bs) == SeedOf(bs[0]).All() + SeedTicks(bs[1..]);
      SeedTimes(bs[1..], minute);
    }
  }

  /**
    The guard of `seed_bars` looks at closed bars only: on a series that already
    has a current minute, bars that are not past it are folded into it and lost.
   */
  lemma SeedingLateIsLost(cap: nat, s: Series, bs: seq<Bar>)
    requires s.current.Some?
    requires forall i :: 0 <= i < |bs| ==> MinuteOf(bs[i].closedAt) <= s.current.value.closedAt
    ensures var s' := After(cap, s, SeedTicks(bs));
            s'.closed == s.closed && s'.current.Some? && s'.current.value.closedAt == s.current.value.closedAt
  {
    hide After, SeedTicks, MinuteOf;
    SeedTimes(bs, s.current.value.closedAt);
    LateTicksCloseNothing(cap, s, SeedTicks(bs));
  }

  /** How many of the bars, from the first on, are not past a minute. */
  function NotPast(bs: seq<Bar>, minute: int): (k: nat)
    ensures k <= |bs| && (forall i :: 0 <= i < k ==> bs[i].closedAt <= minute)
    ensures k < |bs| ==> bs[k].closedAt > minute
  {
    if bs == [] || bs[0].closedAt > minute then 0 else 1 + NotPast(bs[1..], minute)
  }

  lemma {:induction false} SeedTicksSplit(bs: seq<Bar>, more: seq<Bar>)
    ensures SeedTicks(bs + more) == SeedTicks(bs) + SeedTicks(more)
    decreases |bs|
  {
    hide SeedOf;
    if bs == [] {
      assert bs + more == more;
    } else {
      assert (bs + more)[1..] == bs[1..] + more;
      assert Seeds(bs + more)[1..] == Seeds(bs[1..] + more) && Seeds(bs)[1..] == Seeds(bs[1..]);
      SeedTicksSplit(bs[1..], more);
    }
  }

  /** Ticks past the current minute close the current bar in front of their own. */
  lemma ClosesInFront(cap: nat, current: Bar, ts: seq<Tick>)
    requires ts != [] && MinuteOf(ts[0].at) > current.closedAt
    ensures After(cap, Series([], Some(current)), ts).closed == LastOf([current] + Completed(ts), cap)
  {
    hide Groups, Led, MinuteOf, BarOf, BarsOf, Opened, LastOf;
    var g, rest := FirstGroup(ts);
    assert ts[1..] == g.more + rest;
    assert [] + [current] == [current];
    var kept := LastOf([current], cap);
    assert After(cap, Series([], Some(current)), ts) == After(cap, Series(kept, Some(Opened(g.first))), ts[1..]);
    hide After;
    AfterAppend(cap, Series(kept, Some(Opened(g.first))), g.more, rest);
    GroupIsABar(cap, kept, g);
    GroupsFold(cap, [current], g, rest);
  }

  lemma LastInFront(x: Bar, got: seq<Bar>, bs: seq<Bar>, cap: nat)
    requires |got| == |bs|
    ensures LastOf([x] + got, cap) == LastOf([x] + bs, cap) <==> LastOf(got, cap) == LastOf(bs, cap)
  {
    if |bs| < cap {
      assert ([x] + got)[1..] == got && ([x] + bs)[1..] == bs;
    } else {
      assert LastOf([x] + got, cap) == LastOf(got, cap);
      assert LastOf([x] + bs, cap) == LastOf(bs, cap);
    }
  }

  lemma {:induction false} SeedingPastExactly(cap: nat, current: Bar, bs: seq<Bar>, late: Tick)
    requires Seedable(bs) && MinuteOf(late.at) > current.closedAt
    requires forall i :: 0 <= i < |bs| ==> current.closedAt < bs[i].closedAt < MinuteOf(late.at)
    ensures After(cap, Series([], Some(current)), SeedTicks(bs) + [late]).closed == LastOf([current] + bs, cap) <==>
            KeptSound(bs, cap)
  {
    hide After, Completed, LastOf, KeptSound, MinuteOf, SeedTicks, Seedable;
    var ts := SeedTicks(bs) + [late];
    SeedsStart(bs, late);
    ClosesInFront(cap, current, ts);
    SeededBars(bs, late);
    LastOfPointwise(Completed(ts), bs, cap);
    LastInFront(current, Completed(ts), bs, cap);
  }

  /** The bars past a minute are those after the ones that are not. */
  lemma PastTheMinute(bs: seq<Bar>, minute: int)
    requires Seedable(bs)
    ensures var k := NotPast(bs, minute);
            && Seedable(bs[k..]) && (forall i :: 0 <= i < |bs[k..]| ==> bs[k..][i].closedAt > minute)
            && (forall i :: 0 <= i < k ==> MinuteOf(bs[..k][i].closedAt) <= minute)
  {
    hide MinuteOf;
  }

  /**
    Seeding a series that has no closed bar yet but a current minute, and one
    later tick: the bars not past that minute go into its bar, and the last
    `cap` of that bar and the bars past it are kept, exactly when the latter
    are sound.
   */
  lemma {:induction false} SeedingLateExactly(cap: nat, s: Series, bs: seq<Bar>, late: Tick)
    requires Seedable(bs) && s.closed == [] && s.current.Some?
    requires MinuteOf(late.at) > s.current.value.closedAt
    requires forall i :: 0 <= i < |bs| ==> bs[i].closedAt < MinuteOf(late.at)
    ensures var k := NotPast(bs, s.current.value.closedAt);
            var s' := After(cap, s, SeedTicks(bs[..k]));
            && s'.closed == [] && s'.current.Some? && s'.current.value.closedAt == s.current.value.closedAt
            && (After(cap, s, SeedTicks(bs) + [late]).closed == LastOf([s'.current.value] + bs[k..], cap) <==>
                KeptSound(bs[k..], cap))
  {
    hide After, LastOf, MinuteOf, SeedTicks, Seedable, KeptSound;
    var k := NotPast(bs, s.current.value.closedAt);
    PastTheMinute(bs, s.current.value.closedAt);
    SeedingLateIsLost(cap, s, bs[..k]);
    var s' := After(cap, s, SeedTicks(bs[..k]));
    var ts := SeedTicks(bs[k..]) + [late];
    assert bs[..k] + bs[k..] == bs;
    SeedTicksSplit(bs[..k], bs[k..]);
    assert SeedTicks(bs) + [late] == SeedTicks(bs[..k]) + ts;
    AfterAppend(cap, s, SeedTicks(bs[..k]), ts);
    SeedingPastExactly(cap, s'.current.value, bs[k..], late);
  }

  lemma SeedsStart(bs: seq<Bar>, late: Tick)
    requires Seedable(bs)
    ensures var ts := SeedTicks(bs) + [late];
            MinuteOf(ts[0].at) == if bs == [] then MinuteOf(late.at) else bs[0].closedAt
  {
    hide MinuteOf;
  }

  // ----- the objects ---------------------------------------------------------------------------------

  class MinuteBarSeries {
    const maxBars: nat
    var closed: seq<Bar>
    var currentMinute: Option<int>
    var open: real
    var high: real
    var low: real
    var close: real

    function State(): Series
      reads this
    {
      Series(closed, if currentMinute.None? then None else Some(Bar(open, high, low, close, currentMinute.value)))
    }

    constructor (maxBars: nat)
      ensures State() == Fresh && this.maxBars == maxBars
    {
      this.maxBars := maxBars;
      closed, currentMinute := [], None;
      open, high, low, close := 0.0, 0.0, 0.0, 0.0;
    }

    method OnPriceOf(mid: real, observedAt: int)
      modifies this
      ensures State() == OnPrice(maxBars, old(State()), Tick(mid, observedAt))
    {
      var minute := MinuteOf(observedAt);
      if currentMinute.None? {
        currentMinute := Some(minute);
        open, high, low, close := mid, mid, mid, mid;
        return;
      }
      if minute > currentMinute.value {
        closed := LastOf(closed + [Bar(open, high, low, close, currentMinute.value)], maxBars);
        currentMinute := Some(minute);
        open, high, low, close := mid, mid, mid, mid;
        return;
      }
      if mid > high {
        high := mid;
      }
      if mid < low {
        low := mid;
      }
      close := mid;
    }
  }

  class LiveEngine {
    const series: map<string, MinuteBarSeries>

    constructor (series: map<string, MinuteBarSeries>)
      ensures this.series == series
    {
      this.series := series;
    }

    /** Each instrument has a series of its own. */
    ghost predicate Separate() {
      forall a <- series, b <- series :: series[a] == series[b] ==> a == b
    }

    method OnQuote(symbol: string, bid: real, ask: real, timestamp: int)
      requires Separate()
      modifies series.Values
      ensures symbol in series ==>
                series[symbol].State() ==
                OnPrice(series[symbol].maxBars, old(series[symbol].State()), Tick((bid + ask) / 2.0, timestamp))
      ensures forall other <- series :: other != symbol ==> series[other].State() == old(series[other].State())
    {
      if symbol in series {
        series[symbol].OnPriceOf((bid + ask) / 2.0, timestamp);
      }
    }

    method SeedBars(instrument: string, bars: seq<Bar>)
      requires Separate()
      modifies series.Values
      ensures instrument in series ==>
                series[instrument].State() ==
                if old(series[instrument].closed) == [] then
                  After(series[instrument].maxBars, old(series[instrument].State()), SeedTicks(bars))
                else old(series[instrument].State())
      ensures forall other <- series :: other != instrument ==> series[other].State() == old(series[other].State())
    {
      if instrument !in series || series[instrument].closed != [] {
        return;
      }
      var s := series[instrument];
      ghost var begin := s.State();
      for i := 0 to |bars|
        invariant s.State() == After(s.maxBars, begin, SeedTicks(bars[..i]))
        invariant forall other <- series :: other != instrument ==> series[other].State() == old(series[other].State())
      {
        s.OnPriceOf(bars[i].open, bars[i].closedAt);
        s.OnPriceOf(bars[i].high, bars[i].closedAt);
        s.OnPriceOf(bars[i].low, bars[i].closedAt);
        s.OnPriceOf(bars[i].close, bars[i].closedAt);
        SeedNext(s.maxBars, begin, bars, i);
      }
      assert bars[..|bars|] == bars;
    }
  }

  lemma {:induction false} SeedTicksAppend(bs: seq<Bar>, b: Bar)
    ensures SeedTicks(bs + [b]) == SeedTicks(bs) + SeedOf(b).All()
  {
    hide SeedOf;
    assert Seeds(bs + [b])[1..] == Seeds((bs + [b])[1..]);
    if bs == [] {
      assert bs + [b] == [b];
    } else {
      assert Seeds(bs)[1..] == Seeds(bs[1..]);
      assert (bs + [b])[1..] == bs[1..] + [b];
      SeedTicksAppend(bs[1..], b);
    }
  }

  lemma FourTicks(cap: nat, s: Series, g: seq<Tick>)
    requires |g| == 4
    ensures After(cap, s, g) == OnPrice(cap, OnPrice(cap, OnPrice(cap, OnPrice(cap, s, g[0]), g[1]), g[2]), g[3])
  {
    hide OnPrice;
    var s1 := OnPrice(cap, s, g[0]);
    var s2 := OnPrice(cap, s1, g[1]);
    var s3 := OnPrice(cap, s2, g[2]);
    assert g[1..][1..] == g[2..] && g[2..][1..] == g[3..] && g[3..][1..] == [];
    assert After(cap, s, g) == After(cap, s1, g[1..]) == After(cap, s2, g[2..]) == After(cap, s3, g[3..]);
    assert After(cap, s3, g[3..]) == After(cap, OnPrice(cap, s3, g[3]), []);
  }

  /** One round of the loop of `seed_bars`. */
  lemma SeedNext(cap: nat, begin: Series, bars: seq<Bar>, i: nat)
    requires i < |bars|
    ensures var s := After(cap, begin, SeedTicks(bars[..i]));
            var g := SeedOf(bars[i]).All();
            After(cap, begin, SeedTicks(bars[..i + 1])) ==
            OnPrice(cap, OnPrice(cap, OnPrice(cap, OnPrice(cap, s, g[0]), g[1]), g[2]), g[3])
  {
    hide OnPrice, After, SeedTicks;
    var g := SeedOf(bars[i]).All();
    assert bars[..i + 1] == bars[..i] + [bars[i]];
    SeedTicksAppend(bars[..i], bars[i]);
    AfterAppend(cap, begin, SeedTicks(bars[..i]), g);
    FourTicks(cap, After(cap, begin, SeedTicks(bars[..i])), g);
  }
}
