/**
  Point-in-time reads of gold (adapters/market_data/repository.py) and the
  invariant they exist for: nothing that is not yet knowable at T can change
  what is visible at T.
 */
module MdPointInTime {
  import opened Options
  import opened MdKeys
  import opened MdBars
  import opened MdLeast
  import opened MdSilver
  import opened MdGold

  // ----- the order of gold ------------------------------------------------------------------------

  /** The row key with its tie-breaker: the source. */
  function ByFull(): Bar -> Key {
    (b: Bar) => RowKey(b) + [Text(b.source)]
  }

  lemma FullKeyIsIdentity(a: Bar, b: Bar)
    requires ByFull()(a) == ByFull()(b)
    ensures IdOf(a) == IdOf(b)
  {
    var x, y := ByFull()(a), ByFull()(b);
    assert x[0] == y[0] && x[1] == y[1] && x[2] == y[2] && x[3] == y[3] && x[4] == y[4];
    assert x[0][0] == y[0][0];
    TextIsInjective(a.instrument, b.instrument);
    TextIsInjective(Name(a.timeframe), Name(b.timeframe));
    NameIsInjective(a.timeframe, b.timeframe);
    TextIsInjective(a.source, b.source);
    TextIsInjective(a.sourceRecordId, b.sourceRecordId);
  }

  predicate SourceTie(a: Bar, b: Bar) {
    KeyLeq([Text(a.source)], [Text(b.source)])
  }

  function Tie(): (Bar, Bar) -> bool {
    (a: Bar, b: Bar) => SourceTie(a, b)
  }

  /** Rows that tie on the row key are ordered by source when ordered by identity. */
  lemma IdentityBreaksTies(a: Bar, b: Bar)
    requires RowKey(a) == RowKey(b) && KeyLeq(IdentityKey(IdOf(a)), IdentityKey(IdOf(b)))
    ensures SourceTie(a, b)
  {
    var x, y := RowKey(a), RowKey(b);
    assert x[0] == y[0] && x[1] == y[1] && x[2] == y[2] && x[3] == y[3];
    var p := [Text(a.instrument), Text(Name(a.timeframe)), Stamp(a.eventTime)];
    assert IdentityKey(IdOf(a)) == p + [Text(a.source), Text(a.sourceRecordId)];
    assert IdentityKey(IdOf(b)) == p + [Text(b.source), Text(b.sourceRecordId)];
    CommonPrefix(p, [Text(a.source), Text(a.sourceRecordId)], [Text(b.source), Text(b.sourceRecordId)]);
  }

  lemma FullOrder(a: Bar, b: Bar)
    requires KeyLeq(RowKey(a), RowKey(b)) && (RowKey(a) == RowKey(b) ==> SourceTie(a, b))
    ensures KeyLeq(ByFull()(a), ByFull()(b))
  {
    hide KeyLeq, Text;
    if RowKey(a) == RowKey(b) {
      CommonPrefix(RowKey(a), [Text(a.source)], [Text(b.source)]);
    } else {
      PrefixDecides(RowKey(a), [Text(a.source)], RowKey(b), [Text(b.source)]);
    }
  }

  lemma SortedIdsAreDistinct(bs: seq<Bar>)
    ensures Strict(SortedIds(bs), ById())
  {
    hide KeyLeq, IdentityKey;
    FirstSeenMembers(bs);
    var s := SortBy(FirstSeen(bs), ById());
    SortKeeps(FirstSeen(bs), ById());
    DistinctStaysDistinct(FirstSeen(bs), s);
    forall i, j | 0 <= i < j < |s| ensures ById()(s[i]) != ById()(s[j]) {
      if ById()(s[i]) == ById()(s[j]) { IdentityKeyIsInjective(s[i], s[j]); }
    }
  }

  lemma DistinctStaysDistinct<T>(a: seq<T>, b: seq<T>)
    requires multiset(a) == multiset(b)
    requires forall i, j | 0 <= i < j < |a| :: a[i] != a[j]
    ensures forall i, j | 0 <= i < j < |b| :: b[i] != b[j]
  {
    forall i, j | 0 <= i < j < |b| ensures b[i] != b[j] {
      if b[i] == b[j] {
        Twice(b, i, j);
        AtMostOnce(a, b[i]);
      }
    }
  }

  lemma Twice<T>(b: seq<T>, i: nat, j: nat)
    requires i < j < |b| && b[i] == b[j]
    ensures multiset(b)[b[i]] >= 2
  {
    assert b == b[..j] + [b[j]] + b[j + 1..];
    assert b[i] == b[..j][i];
    assert b[i] in multiset(b[..j]);
  }

  lemma {:induction false} AtMostOnce<T>(a: seq<T>, x: T)
    requires forall i, j | 0 <= i < j < |a| :: a[i] != a[j]
    ensures multiset(a)[x] <= 1
  {
    if a != [] {
      var n := |a| - 1;
      assert a == a[..n] + [a[n]];
      AtMostOnce(a[..n], x);
      assert a[n] !in a[..n];
    }
  }

  lemma MergedTies(enc: Encoding, bs: seq<Bar>)
    ensures TiesBy(Merged(enc, bs), ByRow(), Tie())
    ensures forall i, j | 0 <= i < j < |Merged(enc, bs)| :: IdOf(Merged(enc, bs)[i]) != IdOf(Merged(enc, bs)[j])
  {
    hide KeyLeq, IdentityKey, RowKey, Survivor, SortedIds;
    var ids, m := SortedIds(bs), Merged(enc, bs);
    SortedIdsAreDistinct(bs);
    forall i | 0 <= i < |m| ensures IdOf(m[i]) == ids[i] {
      assert ids[i] in ids;
      SurvivorIsLeast(enc, bs, ids[i], m[i]);
    }
    forall i, j | 0 <= i < j < |m| && ByRow()(m[i]) == ByRow()(m[j]) ensures Tie()(m[i], m[j]) {
      assert KeyLeq(ById()(ids[i]), ById()(ids[j]));
      IdentityBreaksTies(m[i], m[j]);
    }
    forall i, j | 0 <= i < j < |m| ensures IdOf(m[i]) != IdOf(m[j]) {
      assert ById()(ids[i]) != ById()(ids[j]);
    }
  }

  /** Gold is one row per identity, strictly ascending by time, record id and source. */
  lemma GoldIsStrict(enc: Encoding, lim: Limits, runs: seq<Run>)
    ensures Strict(Gold(enc, lim, runs), ByFull())
    ensures forall i, j | 0 <= i < j < |Gold(enc, lim, runs)| ::
              IdOf(Gold(enc, lim, runs)[i]) != IdOf(Gold(enc, lim, runs)[j])
  {
    hide KeyLeq, RowKey, Merged, AllSilver, SourceTie;
    var m := Merged(enc, AllSilver(enc, lim, runs));
    var g := Gold(enc, lim, runs);
    MergedTies(enc, AllSilver(enc, lim, runs));
    SortKeeps(m, ByRow());
    SortIsStable(m, ByRow(), Tie());
    IdsStayDistinct(m, g);
    forall i, j | 0 <= i < j < |g|
      ensures KeyLeq(ByFull()(g[i]), ByFull()(g[j])) && ByFull()(g[i]) != ByFull()(g[j])
    {
      assert KeyLeq(ByRow()(g[i]), ByRow()(g[j]));
      if ByRow()(g[i]) == ByRow()(g[j]) { assert Tie()(g[i], g[j]); }
      FullOrder(g[i], g[j]);
      if ByFull()(g[i]) == ByFull()(g[j]) { FullKeyIsIdentity(g[i], g[j]); }
    }
  }

  lemma IdsStayDistinct(a: seq<Bar>, b: seq<Bar>)
    requires multiset(a) == multiset(b)
    requires forall i, j | 0 <= i < j < |a| :: IdOf(a[i]) != IdOf(a[j])
    ensures forall i, j | 0 <= i < j < |b| :: IdOf(b[i]) != IdOf(b[j])
  {
    DistinctStaysDistinct(a, b);
    SameMembers(a, b);
    forall i, j | 0 <= i < j < |b| ensures IdOf(b[i]) != IdOf(b[j]) {
      assert b[i] in a && b[j] in a;
      var k :| 0 <= k < |a| && a[k] == b[i];
      var l :| 0 <= l < |a| && a[l] == b[j];
      assert k != l;
    }
  }

  // ----- reads ------------------------------------------------------------------------------------

  predicate VisibleAt(b: Bar, asOf: int) {
    b.availableTime <= asOf && b.eventTime <= asOf
  }

  /** `PointInTimeFilter.apply`. */
  function Visible(rows: seq<Bar>, asOf: int): seq<Bar> {
    if rows == [] then []
    else (if VisibleAt(rows[0], asOf) then [rows[0]] else []) + Visible(rows[1..], asOf)
  }

  predicate InRange(b: Bar, start: Option<int>, end: Option<int>) {
    && (start.Some? ==> b.eventTime >= start.value)
    && (end.Some? ==> b.eventTime <= end.value)
  }

  function Between(rows: seq<Bar>, start: Option<int>, end: Option<int>): seq<Bar> {
    if rows == [] then []
    else (if InRange(rows[0], start, end) then [rows[0]] else []) + Between(rows[1..], start, end)
  }

  /** `MarketDataRepository.bars` on a loaded dataset. */
  function Query(rows: seq<Bar>, asOf: int, start: Option<int>, end: Option<int>): seq<Bar> {
    Between(Visible(rows, asOf), start, end)
  }

  function LatestKey(b: Bar): Key {
    [Stamp(b.eventTime), Text(b.sourceRecordId)]
  }

  /** Python's `max`: the first row with the greatest key. */
  function Latest(rows: seq<Bar>): Option<Bar> {
    if rows == [] then None
    else
      match Latest(rows[1..])
      case None => Some(rows[0])
      case Some(b) => if KeyLeq(LatestKey(b), LatestKey(rows[0])) then Some(rows[0]) else Some(b)
  }

  function Snapshot(rows: seq<Bar>, asOf: int): Option<Bar> {
    Latest(Query(rows, asOf, None, None))
  }

  lemma {:induction false} VisibleMember(rows: seq<Bar>, asOf: int, b: Bar)
    ensures b in Visible(rows, asOf) <==> b in rows && VisibleAt(b, asOf)
  {
    if rows != [] {
      assert rows == [rows[0]] + rows[1..];
      VisibleMember(rows[1..], asOf, b);
    }
  }

  lemma {:induction false} VisibleIsStrict(rows: seq<Bar>, asOf: int, key: Bar -> Key)
    requires Strict(rows, key)
    ensures Strict(Visible(rows, asOf), key)
  {
    hide KeyLeq;
    if rows != [] {
      VisibleIsStrict(rows[1..], asOf, key);
      var v := Visible(rows[1..], asOf);
      forall i | 0 <= i < |v| ensures KeyLeq(key(rows[0]), key(v[i])) && key(rows[0]) != key(v[i]) {
        assert v[i] in v;
        VisibleMember(rows[1..], asOf, v[i]);
        var k :| 0 <= k < |rows[1..]| && rows[1..][k] == v[i];
        assert rows[k + 1] == v[i];
      }
    }
  }

  /** Whatever is served was knowable, and had happened, by `asOf`. */
  lemma QueryServesThePast(rows: seq<Bar>, asOf: int, start: Option<int>, end: Option<int>, b: Bar)
    ensures b in Query(rows, asOf, start, end) <==> b in rows && VisibleAt(b, asOf) && InRange(b, start, end)
  {
    VisibleMember(rows, asOf, b);
    BetweenMember(Visible(rows, asOf), start, end, b);
  }

  lemma {:induction false} BetweenMember(rows: seq<Bar>, start: Option<int>, end: Option<int>, b: Bar)
    ensures b in Between(rows, start, end) <==> b in rows && InRange(b, start, end)
  {
    if rows != [] {
      assert rows == [rows[0]] + rows[1..];
      BetweenMember(rows[1..], start, end, b);
    }
  }

  // ----- no look-ahead ---------------------------------------------------------------------------

  function KnownBy(t: int): Bar -> bool {
    (b: Bar) => b.availableTime <= t
  }

  /** Versions not knowable at `t` do not compete with a version that is. */
  lemma PickKnown(enc: Encoding, bs: seq<Bar>, id: Identity, t: int)
    requires OfIdentity(bs, id) != []
    ensures var known := Keep(bs, KnownBy(t));
            if OfIdentity(known, id) != [] then Pick(enc, bs, id) == Pick(enc, known, id)
            else Pick(enc, bs, id).availableTime > t
  {
    hide Keep, NoLater, Least;
    var f := OfIdentity(bs, id);
    KeepTwice(bs, HasId(id), KnownBy(t));
    LeastIsIn(f, ByCanonical(enc));
    KeepMember(f, KnownBy(t), Pick(enc, bs, id));
    if Keep(f, KnownBy(t)) != [] {
      forall x <- f, y <- f | KnownBy(t)(x) && !KnownBy(t)(y)
        ensures KeyLeq(ByCanonical(enc)(x), ByCanonical(enc)(y)) && !KeyLeq(ByCanonical(enc)(y), ByCanonical(enc)(x))
      {
        MemberOfIdentity(bs, id, x);
        MemberOfIdentity(bs, id, y);
        KnownFirst(enc, x, y);
      }
      LeastAmongKept(f, ByCanonical(enc), KnownBy(t));
    }
  }

  lemma KnownFirst(enc: Encoding, x: Bar, y: Bar)
    requires IdOf(x) == IdOf(y) && x.availableTime < y.availableTime
    ensures KeyLeq(ByCanonical(enc)(x), ByCanonical(enc)(y)) && !KeyLeq(ByCanonical(enc)(y), ByCanonical(enc)(x))
  {
    hide KeyLeq, Canonical;
    FirstKnowableFirst(enc, x, y);
  }

  /** A visible gold row is one chosen from what was knowable. */
  lemma VisibleIsKnown(enc: Encoding, lim: Limits, runs: seq<Run>, t: int, b: Bar)
    ensures b in Visible(Gold(enc, lim, runs), t) <==>
            Chosen(enc, Keep(AllFlagged(lim, runs), KnownBy(t)), b) && VisibleAt(b, t)
  {
    hide Gold, AllFlagged, Chosen, Visible, OfIdentity, Pick;
    var all, id := AllFlagged(lim, runs), IdOf(b);
    var known := Keep(all, KnownBy(t));
    VisibleMember(Gold(enc, lim, runs), t, b);
    GoldHoldsTheEarliest(enc, lim, runs, b);
    ChosenIsThePick(enc, all, b);
    ChosenIsThePick(enc, known, b);
    if OfIdentity(known, id) != [] {
      var x := OfIdentity(known, id)[0];
      MemberOfIdentity(known, id, x);
      KeepMember(all, KnownBy(t), x);
      MemberOfIdentity(all, id, x);
    }
    if OfIdentity(all, id) != [] {
      PickKnown(enc, all, id, t);
    }
  }

  lemma SameVisible(enc: Encoding, lim: Limits, runs: seq<Run>, runs': seq<Run>, t: int)
    requires Keep(AllFlagged(lim, runs), KnownBy(t)) == Keep(AllFlagged(lim, runs'), KnownBy(t))
    ensures Visible(Gold(enc, lim, runs), t) == Visible(Gold(enc, lim, runs'), t)
  {
    hide Gold, AllFlagged, Visible, ByFull, Chosen, Keep;
    var g, g' := Gold(enc, lim, runs), Gold(enc, lim, runs');
    GoldIsStrict(enc, lim, runs);
    GoldIsStrict(enc, lim, runs');
    VisibleIsStrict(g, t, ByFull());
    VisibleIsStrict(g', t, ByFull());
    forall b: Bar ensures b in Visible(g, t) <==> b in Visible(g', t) {
      VisibleIsKnown(enc, lim, runs, t, b);
      VisibleIsKnown(enc, lim, runs', t, b);
    }
    StrictIsUnique(Visible(g, t), Visible(g', t), ByFull());
  }

  /** The same batch, apart from the records in it. */
  predicate SameBatch(a: Run, b: Run) {
    a.(records := []) == b.(records := [])
  }

  function KnownIn(run: Run, t: int): Record -> bool {
    (r: Record) => KnowableAt(run, r) <= t
  }

  function KnownRecords(run: Run, t: int): seq<Record> {
    Keep(run.records, KnownIn(run, t))
  }

  /**
    Old runs hold the same knowable records in the same order; records not
    knowable at `t` may stand anywhere among them, and new runs of only such
    records anywhere among the runs, which are listed by random identifier.
   */
  ghost predicate LateExtension(runs: seq<Run>, runs': seq<Run>, t: int)
    decreases |runs'|
  {
    if runs' == [] then runs == []
    else
      var init', last' := runs'[..|runs'| - 1], runs'[|runs'| - 1];
      || (KnownRecords(last', t) == [] && LateExtension(runs, init', t))
      || (&& runs != []
          && SameBatch(runs[|runs| - 1], last') && KnownRecords(runs[|runs| - 1], t) == KnownRecords(last', t)
          && LateExtension(runs[..|runs| - 1], init', t))
  }

  /** A run of records not knowable at `t`, put in at any place. */
  lemma {:induction false} InsertedRun(runs: seq<Run>, k: nat, run: Run, t: int)
    requires k <= |runs| && KnownRecords(run, t) == []
    ensures LateExtension(runs, runs[..k] + [run] + runs[k..], t)
    decreases |runs|
  {
    hide KnownRecords;
    var runs' := runs[..k] + [run] + runs[k..];
    var n := |runs|;
    if k == n {
      assert runs'[..n] == runs && runs'[n] == run;
      Unextended(runs, t);
    } else {
      assert runs'[..n] == runs[..n - 1][..k] + [run] + runs[..n - 1][k..];
      assert runs'[n] == runs[n - 1];
      InsertedRun(runs[..n - 1], k, run, t);
    }
  }

  lemma {:induction false} Unextended(runs: seq<Run>, t: int)
    ensures LateExtension(runs, runs, t)
    decreases |runs|
  {
    hide KnownRecords;
    if runs != [] { Unextended(runs[..|runs| - 1], t); }
  }

  lemma SameBar(lim: Limits, a: Run, b: Run, r: Record)
    requires SameBatch(a, b)
    ensures FlaggedBar(lim, a, r) == FlaggedBar(lim, b, r)
  {
  }

  function FlaggedAll(lim: Limits, run: Run, rs: seq<Record>): seq<Bar> {
    if rs == [] then [] else [FlaggedBar(lim, run, rs[0])] + FlaggedAll(lim, run, rs[1..])
  }

  lemma {:induction false} FlaggedAllIs(lim: Limits, run: Run, rs: seq<Record>)
    ensures |FlaggedAll(lim, run, rs)| == |rs|
    ensures forall i | 0 <= i < |rs| :: FlaggedAll(lim, run, rs)[i] == FlaggedBar(lim, run, rs[i])
  {
    hide FlaggedBar;
    if rs != [] { FlaggedAllIs(lim, run, rs[1..]); }
  }

  lemma {:induction false} KnownFlagged(lim: Limits, run: Run, rs: seq<Record>, t: int)
    ensures Keep(FlaggedAll(lim, run, rs), KnownBy(t)) == FlaggedAll(lim, run, Keep(rs, KnownIn(run, t)))
  {
    hide FlaggedBar;
    if rs != [] {
      KnownFlagged(lim, run, rs[1..], t);
      var f, k := FlaggedAll(lim, run, rs[1..]), Keep(rs[1..], KnownIn(run, t));
      assert ([FlaggedBar(lim, run, rs[0])] + f)[1..] == f;
      assert ([rs[0]] + k)[1..] == k && [] + k == k;
    }
  }

  lemma {:induction false} SameFlagged(lim: Limits, a: Run, b: Run, rs: seq<Record>)
    requires SameBatch(a, b)
    ensures FlaggedAll(lim, a, rs) == FlaggedAll(lim, b, rs)
  {
    hide FlaggedBar;
    if rs != [] {
      SameBar(lim, a, b, rs[0]);
      SameFlagged(lim, a, b, rs[1..]);
    }
  }

  lemma KnownOfRun(lim: Limits, run: Run, t: int)
    ensures Keep(FlaggedRun(lim, run), KnownBy(t)) == FlaggedAll(lim, run, KnownRecords(run, t))
  {
    hide FlaggedAll, FlaggedBar, Keep;
    FlaggedAllIs(lim, run, run.records);
    assert FlaggedRun(lim, run) == FlaggedAll(lim, run, run.records);
    KnownFlagged(lim, run, run.records, t);
  }

  lemma {:induction false} ExtensionKeepsKnown(lim: Limits, runs: seq<Run>, runs': seq<Run>, t: int)
    requires LateExtension(runs, runs', t)
    ensures Keep(AllFlagged(lim, runs), KnownBy(t)) == Keep(AllFlagged(lim, runs'), KnownBy(t))
    decreases |runs'|
  {
    hide FlaggedRun, Keep, KnownRecords, FlaggedAll;
    if runs' != [] {
      var init', last' := runs'[..|runs'| - 1], runs'[|runs'| - 1];
      KeepConcat(AllFlagged(lim, init'), FlaggedRun(lim, last'), KnownBy(t));
      KnownOfRun(lim, last', t);
      if KnownRecords(last', t) == [] && LateExtension(runs, init', t) {
        ExtensionKeepsKnown(lim, runs, init', t);
        NothingFlagged(lim, last');
        assert Keep(AllFlagged(lim, init'), KnownBy(t)) + [] == Keep(AllFlagged(lim, init'), KnownBy(t));
      } else {
        var init, last := runs[..|runs| - 1], runs[|runs| - 1];
        ExtensionKeepsKnown(lim, init, init', t);
        KeepConcat(AllFlagged(lim, init), FlaggedRun(lim, last), KnownBy(t));
        KnownOfRun(lim, last, t);
        SameFlagged(lim, last, last', KnownRecords(last', t));
      }
    }
  }

  lemma NothingFlagged(lim: Limits, run: Run)
    ensures FlaggedAll(lim, run, []) == []
  {
  }

  /**
    No look-ahead, end to end: ingest any further records that are not knowable
    at `t`, into old or new runs wherever listed, and seal again; every query as of `t`, and the
    snapshot as of `t`, return exactly what they returned before.
   */
  lemma NoLookAhead(enc: Encoding, lim: Limits, runs: seq<Run>, runs': seq<Run>, t: int,
                    start: Option<int>, end: Option<int>)
    requires LateExtension(runs, runs', t)
    ensures Query(Gold(enc, lim, runs), t, start, end) == Query(Gold(enc, lim, runs'), t, start, end)
    ensures Snapshot(Gold(enc, lim, runs), t) == Snapshot(Gold(enc, lim, runs'), t)
  {
    hide Gold, Visible, Latest, AllFlagged, Keep, LateExtension;
    ExtensionKeepsKnown(lim, runs, runs', t);
    SameVisible(enc, lim, runs, runs', t);
  }

  // ----- gold depends on what was ingested, not on how -------------------------------------------

  /** Where decimals are told apart, gold is a matter of the set of versions ingested. */
  lemma GoldIsTheEarliest(enc: Encoding, lim: Limits, runs: seq<Run>, b: Bar)
    requires Faithful(enc, Ingested(lim, runs))
    ensures b in Gold(enc, lim, runs) <==> Earliest(enc, Ingested(lim, runs), b)
  {
    hide Gold, AllFlagged, Chosen, Earliest, Faithful;
    forall x <- AllFlagged(lim, runs) ensures Plain(x) { IngestedIsPlain(lim, runs, x); }
    GoldHoldsTheEarliest(enc, lim, runs, b);
    ChosenIsEarliest(enc, AllFlagged(lim, runs), b);
  }

  lemma GoldSeesTheSet(enc: Encoding, lim: Limits, runs: seq<Run>, runs': seq<Run>)
    requires Faithful(enc, Ingested(lim, runs)) && Ingested(lim, runs) == Ingested(lim, runs')
    ensures Gold(enc, lim, runs) == Gold(enc, lim, runs')
  {
    hide Gold, Ingested, Earliest, ByFull, Faithful;
    var g, g' := Gold(enc, lim, runs), Gold(enc, lim, runs');
    GoldIsStrict(enc, lim, runs);
    GoldIsStrict(enc, lim, runs');
    forall b: Bar ensures b in g <==> b in g' {
      GoldIsTheEarliest(enc, lim, runs, b);
      GoldIsTheEarliest(enc, lim, runs', b);
    }
    StrictIsUnique(g, g', ByFull());
  }

  /** Listing the runs in another order seals the same gold. */
  lemma GoldIgnoresRunOrder(enc: Encoding, lim: Limits, runs: seq<Run>, runs': seq<Run>)
    requires Faithful(enc, Ingested(lim, runs)) && multiset(runs) == multiset(runs')
    ensures Gold(enc, lim, runs) == Gold(enc, lim, runs')
  {
    hide Gold, FlaggedRun, FlaggedBar, AllFlagged, Faithful;
    SameMembers(runs, runs');
    forall b: Bar ensures b in AllFlagged(lim, runs) <==> b in AllFlagged(lim, runs') {
      IngestedMember(lim, runs, b);
      IngestedMember(lim, runs', b);
      if i :| 0 <= i < |runs| && b in FlaggedRun(lim, runs[i]) {
        assert runs[i] in runs';
        var k :| 0 <= k < |runs'| && runs'[k] == runs[i];
      }
      if i :| 0 <= i < |runs'| && b in FlaggedRun(lim, runs'[i]) {
        assert runs'[i] in runs;
        var k :| 0 <= k < |runs| && runs[k] == runs'[i];
      }
    }
    assert Ingested(lim, runs) == Ingested(lim, runs');
    GoldSeesTheSet(enc, lim, runs, runs');
  }

  /** `more` adds only versions that are not yet knowable at `t`. */
  ghost predicate AddsOnlyLater(few: set<Bar>, more: set<Bar>, t: int) {
    few <= more && forall b <- more :: b !in few ==> b.availableTime > t
  }

  lemma EarliestUnmoved(enc: Encoding, few: set<Bar>, more: set<Bar>, t: int, b: Bar)
    requires AddsOnlyLater(few, more, t) && b.availableTime <= t
    ensures Earliest(enc, few, b) <==> Earliest(enc, more, b)
  {
    hide NoLater;
    if Earliest(enc, few, b) {
      forall c <- more | IdOf(c) == IdOf(b) ensures NoLater(enc, b, c) {
        if c !in few { FirstKnowableFirst(enc, b, c); }
      }
    }
  }

  /** No look-ahead also when runs and records come in any other order. */
  lemma NoLookAheadInAnyOrder(enc: Encoding, lim: Limits, runs: seq<Run>, runs': seq<Run>, t: int,
                              start: Option<int>, end: Option<int>)
    requires Faithful(enc, Ingested(lim, runs')) && AddsOnlyLater(Ingested(lim, runs), Ingested(lim, runs'), t)
    ensures Query(Gold(enc, lim, runs), t, start, end) == Query(Gold(enc, lim, runs'), t, start, end)
    ensures Snapshot(Gold(enc, lim, runs), t) == Snapshot(Gold(enc, lim, runs'), t)
  {
    hide Gold, Ingested, Visible, Between, Latest, ByFull, Earliest;
    var g, g' := Gold(enc, lim, runs), Gold(enc, lim, runs');
    assert Faithful(enc, Ingested(lim, runs));
    GoldIsStrict(enc, lim, runs);
    GoldIsStrict(enc, lim, runs');
    VisibleIsStrict(g, t, ByFull());
    VisibleIsStrict(g', t, ByFull());
    forall b: Bar ensures b in Visible(g, t) <==> b in Visible(g', t) {
      VisibleMember(g, t, b);
      VisibleMember(g', t, b);
      GoldIsTheEarliest(enc, lim, runs, b);
      GoldIsTheEarliest(enc, lim, runs', b);
      if b.availableTime <= t { EarliestUnmoved(enc, Ingested(lim, runs), Ingested(lim, runs'), t, b); }
    }
    StrictIsUnique(Visible(g, t), Visible(g', t), ByFull());
  }

  /** Gold holds one unmarked row for every identity ever ingested, and no other row. */
  lemma GoldCoversEveryIdentity(enc: Encoding, lim: Limits, runs: seq<Run>)
    ensures Ids(Gold(enc, lim, runs)) == Ids(AllFlagged(lim, runs))
    ensures forall b <- Gold(enc, lim, runs) :: !b.flags.duplicate
  {
    hide Gold, AllFlagged, NoLater, OfIdentity, Pick;
    var g, all := Gold(enc, lim, runs), AllFlagged(lim, runs);
    forall b <- g ensures b in all && !b.flags.duplicate {
      GoldHoldsTheEarliest(enc, lim, runs, b);
      IngestedIsPlain(lim, runs, b);
    }
    forall c <- all ensures IdOf(c) in Ids(g) {
      Represented(all, IdOf(c));
      PickIsOwn(enc, all, IdOf(c));
      var u := Pick(enc, all, IdOf(c));
      ChosenIsThePick(enc, all, u);
      GoldHoldsTheEarliest(enc, lim, runs, u);
    }
  }
}
