/**
  Bars, their identity, their canonical key and the flags of the silver layer
  (adapters/market_data/hashing.py, quality.py, pipeline.py).

  The canonical text of decimals and flag sets, and the SHA-256 digests, are the
  fields of an `Encoding`. Decimal text rounds to the context precision, so it is
  assumed to tell decimals apart only where stated, and only those at hand.
 */
module MdBars {
  import opened Options
  import opened MdKeys
  import opened MdLeast

  datatype Timeframe = M1 | M5 | M15 | M30 | H1 | H4 | D1 | W1 | MN1

  function Name(tf: Timeframe): string {
    match tf
    case M1 => "M1" case M5 => "M5" case M15 => "M15" case M30 => "M30"
    case H1 => "H1" case H4 => "H4" case D1 => "D1" case W1 => "W1" case MN1 => "MN1"
  }

  datatype Flags = Flags(
    ok: bool, duplicate: bool, stale: bool, futureDated: bool, priceAnomaly: bool, inferred: bool)

  const NoFlags := Flags(false, false, false, false, false, false)

  datatype Bar = Bar(
    instrument: string,
    timeframe: Timeframe,
    eventTime: int,
    availableTime: int,
    ingestedAt: int,
    open: real,
    high: real,
    low: real,
    close: real,
    volume: real,
    source: string,
    sourceRecordId: string,
    flags: Flags,
    checksum: Option<string>)

  datatype Identity = Identity(
    instrument: string, timeframe: Timeframe, eventTime: int, source: string, sourceRecordId: string)

  datatype Encoding = Encoding(
    decimal: real -> string,
    flagText: Flags -> string,
    rowDigest: Key -> string,
    streamDigest: seq<Key> -> string)

  function IdOf(b: Bar): Identity {
    Identity(b.instrument, b.timeframe, b.eventTime, b.source, b.sourceRecordId)
  }

  // ----- keys ------------------------------------------------------------------------------

  /** `canonical_bar_bytes`: the checksum is left out, it is derived. */
  function Canonical(enc: Encoding, b: Bar): Key {
    [Text(b.instrument), Text(Name(b.timeframe)), Stamp(b.eventTime)] +
    ([Stamp(b.availableTime)] +
     [Stamp(b.ingestedAt), Text(enc.decimal(b.open)), Text(enc.decimal(b.high)), Text(enc.decimal(b.low)),
      Text(enc.decimal(b.close)), Text(enc.decimal(b.volume)), Text(b.source), Text(b.sourceRecordId),
      Text(enc.flagText(b.flags))])
  }

  function IdentityKey(id: Identity): Key {
    [Text(id.instrument), Text(Name(id.timeframe)), Stamp(id.eventTime), Text(id.source), Text(id.sourceRecordId)]
  }

  /** `bar_row_key`. */
  function RowKey(b: Bar): Key {
    [Stamp(b.eventTime), Text(b.instrument), Text(Name(b.timeframe)), Text(b.sourceRecordId)]
  }

  function ByCanonical(enc: Encoding): Bar -> Key {
    (b: Bar) => Canonical(enc, b)
  }

  /** Sort key of the silver pass: identity, then ingestion time, then content. */
  function BySilver(enc: Encoding): Bar -> Key {
    (b: Bar) => IdentityKey(IdOf(b)) + ([Stamp(b.ingestedAt)] + Canonical(enc, b))
  }

  /** Sort key of the gold merge: unflagged rows first, then content. */
  function ByMerge(enc: Encoding): Bar -> Key {
    (b: Bar) => [Stamp(if b.flags.duplicate then 1 else 0)] + Canonical(enc, b)
  }

  function ByRow(): Bar -> Key {
    (b: Bar) => RowKey(b)
  }

  function ById(): Identity -> Key {
    (id: Identity) => IdentityKey(id)
  }

  // ----- what the keys tell apart ------------------------------------------------------------

  function DecimalsOf(b: Bar): set<real> {
    {b.open, b.high, b.low, b.close, b.volume}
  }

  /** No two different decimals of these bars share a text, and no two flag sets do. */
  ghost predicate Faithful(enc: Encoding, s: set<Bar>) {
    && (forall a <- s, b <- s, x: real, y: real ::
          x in DecimalsOf(a) && y in DecimalsOf(b) && enc.decimal(x) == enc.decimal(y) ==> x == y)
    && (forall f: Flags, g: Flags :: enc.flagText(f) == enc.flagText(g) ==> f == g)
  }

  function Strokes(n: nat): (r: string)
    ensures |r| == n
  {
    if n == 0 then "" else Strokes(n - 1) + "1"
  }

  function IndexIn(xs: seq<real>, x: real): (i: nat)
    ensures i <= |xs| && (x in xs ==> i < |xs| && xs[i] == x)
  {
    if xs == [] || xs[0] == x then 0 else 1 + IndexIn(xs[1..], x)
  }

  lemma DecimalsListed(s: set<Bar>) returns (xs: seq<real>)
    ensures forall b <- s, x: real :: x in DecimalsOf(b) ==> x in xs
  {
    xs := [];
    if b :| b in s {
      var others := DecimalsListed(s - {b});
      xs := others + [b.open, b.high, b.low, b.close, b.volume];
    }
  }

  function FlagBits(f: Flags): string {
    [if f.ok then '1' else '0', if f.duplicate then '1' else '0', if f.stale then '1' else '0',
     if f.futureDated then '1' else '0', if f.priceAnomaly then '1' else '0', if f.inferred then '1' else '0']
  }

  lemma FlagBitsAreInjective(f: Flags, g: Flags)
    requires FlagBits(f) == FlagBits(g)
    ensures f == g
  {
    var x, y := FlagBits(f), FlagBits(g);
    assert x[0] == y[0] && x[1] == y[1] && x[2] == y[2] && x[3] == y[3] && x[4] == y[4] && x[5] == y[5];
  }

  /** For any finite set of bars there is such an encoding. */
  lemma SomeEncodingIsFaithful(s: set<Bar>)
    ensures exists enc: Encoding :: Faithful(enc, s)
  {
    var xs := DecimalsListed(s);
    var enc := Encoding((x: real) => Strokes(IndexIn(xs, x)), f => FlagBits(f), (_: Key) => "", (_: seq<Key>) => "");
    forall a <- s, b <- s, x: real, y: real |
      x in DecimalsOf(a) && y in DecimalsOf(b) && enc.decimal(x) == enc.decimal(y) ensures x == y
    {
      assert |enc.decimal(x)| == IndexIn(xs, x) && |enc.decimal(y)| == IndexIn(xs, y);
    }
    forall f: Flags, g: Flags | enc.flagText(f) == enc.flagText(g) ensures f == g {
      FlagBitsAreInjective(f, g);
    }
    assert Faithful(enc, s);
  }

  /** Everything but the derived checksum. */
  function Hashed(b: Bar): Bar {
    b.(checksum := None)
  }

  lemma NameIsInjective(a: Timeframe, b: Timeframe)
    requires Name(a) == Name(b)
    ensures a == b
  {
    assert Name(a)[0] == Name(b)[0];
    if |Name(a)| > 1 { assert Name(a)[1] == Name(b)[1]; }
    if |Name(a)| > 2 { assert Name(a)[2] == Name(b)[2]; }
  }

  lemma IdentityKeyIsInjective(a: Identity, b: Identity)
    requires IdentityKey(a) == IdentityKey(b)
    ensures a == b
  {
    var x, y := IdentityKey(a), IdentityKey(b);
    assert x[0] == y[0] && x[1] == y[1] && x[2] == y[2] && x[3] == y[3] && x[4] == y[4];
    assert x[2][0] == y[2][0];
    TextIsInjective(a.instrument, b.instrument);
    TextIsInjective(Name(a.timeframe), Name(b.timeframe));
    NameIsInjective(a.timeframe, b.timeframe);
    TextIsInjective(a.source, b.source);
    TextIsInjective(a.sourceRecordId, b.sourceRecordId);
  }

  lemma CanonicalFields(enc: Encoding, a: Bar, b: Bar)
    requires Canonical(enc, a) == Canonical(enc, b)
    ensures Text(a.instrument) == Text(b.instrument) && Text(Name(a.timeframe)) == Text(Name(b.timeframe))
    ensures a.eventTime == b.eventTime && a.availableTime == b.availableTime && a.ingestedAt == b.ingestedAt
    ensures Text(enc.decimal(a.open)) == Text(enc.decimal(b.open))
    ensures Text(enc.decimal(a.high)) == Text(enc.decimal(b.high))
    ensures Text(enc.decimal(a.low)) == Text(enc.decimal(b.low))
    ensures Text(enc.decimal(a.close)) == Text(enc.decimal(b.close))
    ensures Text(enc.decimal(a.volume)) == Text(enc.decimal(b.volume))
    ensures Text(a.source) == Text(b.source) && Text(a.sourceRecordId) == Text(b.sourceRecordId)
    ensures Text(enc.flagText(a.flags)) == Text(enc.flagText(b.flags))
  {
    hide Text;
    var x, y := Canonical(enc, a), Canonical(enc, b);
    assert x[0] == y[0] && x[1] == y[1] && x[2] == y[2] && x[3] == y[3] && x[4] == y[4];
    assert x[5] == y[5] && x[6] == y[6] && x[7] == y[7] && x[8] == y[8] && x[9] == y[9];
    assert x[10] == y[10] && x[11] == y[11] && x[12] == y[12];
    assert x[2][0] == y[2][0] && x[3][0] == y[3][0] && x[4][0] == y[4][0];
  }

  /** Two bars with the same canonical key differ in nothing that is hashed. */
  lemma CanonicalIsInjective(enc: Encoding, s: set<Bar>, a: Bar, b: Bar)
    requires Faithful(enc, s) && a in s && b in s && Canonical(enc, a) == Canonical(enc, b)
    ensures Hashed(a) == Hashed(b)
  {
    hide Text, Canonical;
    CanonicalFields(enc, a, b);
    TextIsInjective(a.instrument, b.instrument);
    TextIsInjective(Name(a.timeframe), Name(b.timeframe));
    NameIsInjective(a.timeframe, b.timeframe);
    TextIsInjective(enc.decimal(a.open), enc.decimal(b.open));
    TextIsInjective(enc.decimal(a.high), enc.decimal(b.high));
    TextIsInjective(enc.decimal(a.low), enc.decimal(b.low));
    TextIsInjective(enc.decimal(a.close), enc.decimal(b.close));
    TextIsInjective(enc.decimal(a.volume), enc.decimal(b.volume));
    TextIsInjective(a.source, b.source);
    TextIsInjective(a.sourceRecordId, b.sourceRecordId);
    TextIsInjective(enc.flagText(a.flags), enc.flagText(b.flags));
  }

  // ----- the earliest version of a bar ---------------------------------------------------------

  predicate NoLater(enc: Encoding, a: Bar, b: Bar) {
    KeyLeq(Canonical(enc, a), Canonical(enc, b))
  }

  /** Once the identity is fixed, the version knowable first comes first. */
  lemma FirstKnowableFirst(enc: Encoding, a: Bar, b: Bar)
    requires IdOf(a) == IdOf(b) && a.availableTime < b.availableTime
    ensures NoLater(enc, a, b) && !NoLater(enc, b, a)
  {
    var p := [Text(a.instrument), Text(Name(a.timeframe)), Stamp(a.eventTime)];
    var x, y := Canonical(enc, a)[4..], Canonical(enc, b)[4..];
    var x', y' := [Stamp(a.availableTime)] + x, [Stamp(b.availableTime)] + y;
    assert Canonical(enc, a) == p + x' && Canonical(enc, b) == p + y';
    CommonPrefix(p, x', y');
    CommonPrefix(p, y', x');
    StampDecides(a.availableTime, x, b.availableTime, y);
  }

  /** `b` is in `s`, and no version of the same bar in `s` comes before it. */
  ghost predicate Earliest(enc: Encoding, s: set<Bar>, b: Bar) {
    b in s && forall c <- s :: IdOf(c) == IdOf(b) ==> NoLater(enc, b, c)
  }

  /** No checksum yet and no DUPLICATE flag: what the pipeline holds before dedup. */
  predicate Plain(b: Bar) {
    b.checksum.None? && !b.flags.duplicate
  }

  lemma EarliestIsUnique(enc: Encoding, s: set<Bar>, a: Bar, b: Bar)
    requires Faithful(enc, s) && Earliest(enc, s, a) && Earliest(enc, s, b)
    requires Plain(a) && Plain(b) && IdOf(a) == IdOf(b)
    ensures a == b
  {
    hide Canonical;
    KeyOrder(Canonical(enc, a), Canonical(enc, b));
    CanonicalIsInjective(enc, s, a, b);
  }

  // ----- the version the pipeline settles on ---------------------------------------------------

  /** Row `k` comes before every other version of its bar, strictly before those listed earlier. */
  ghost predicate ChosenAt(enc: Encoding, bs: seq<Bar>, k: int) {
    && 0 <= k < |bs|
    && (forall j | 0 <= j < |bs| :: IdOf(bs[j]) == IdOf(bs[k]) ==> NoLater(enc, bs[k], bs[j]))
    && (forall j | 0 <= j < k :: IdOf(bs[j]) == IdOf(bs[k]) ==> !NoLater(enc, bs[j], bs[k]))
  }

  /** The earliest version of a bar in a list, and of equally early ones the first. */
  ghost predicate Chosen(enc: Encoding, bs: seq<Bar>, b: Bar) {
    exists k :: ChosenAt(enc, bs, k) && bs[k] == b
  }

  function HasId(id: Identity): Bar -> bool {
    (b: Bar) => IdOf(b) == id
  }

  function OfIdentity(bs: seq<Bar>, id: Identity): seq<Bar> {
    Keep(bs, HasId(id))
  }

  function Ids(bs: seq<Bar>): set<Identity> {
    set b <- bs :: IdOf(b)
  }

  lemma MemberOfIdentity(bs: seq<Bar>, id: Identity, b: Bar)
    ensures b in OfIdentity(bs, id) <==> b in bs && IdOf(b) == id
  {
    KeepMember(bs, HasId(id), b);
  }

  lemma Represented(bs: seq<Bar>, id: Identity)
    ensures OfIdentity(bs, id) != [] <==> id in Ids(bs)
  {
    if id in Ids(bs) {
      var b :| b in bs && IdOf(b) == id;
      MemberOfIdentity(bs, id, b);
    }
    if OfIdentity(bs, id) != [] {
      MemberOfIdentity(bs, id, OfIdentity(bs, id)[0]);
    }
  }

  /** The first least version in canonical order. */
  function Pick(enc: Encoding, bs: seq<Bar>, id: Identity): Bar
    requires OfIdentity(bs, id) != []
  {
    Least(OfIdentity(bs, id), ByCanonical(enc))
  }

  lemma IdentityAppend(bs: seq<Bar>, b: Bar, id: Identity)
    ensures OfIdentity(bs + [b], id) == OfIdentity(bs, id) + (if IdOf(b) == id then [b] else [])
  {
    KeepConcat(bs, [b], HasId(id));
    assert Keep([b], HasId(id)) == (if IdOf(b) == id then [b] else []) + Keep([], HasId(id));
  }

  lemma {:induction false} PickIsChosen(enc: Encoding, bs: seq<Bar>, id: Identity) returns (k: nat)
    requires OfIdentity(bs, id) != []
    ensures ChosenAt(enc, bs, k) && bs[k] == Pick(enc, bs, id) && IdOf(bs[k]) == id
  {
    hide KeyLeq, Canonical, OfIdentity;
    var n := |bs| - 1;
    NoneOfNone(bs, id);
    var init, last := bs[..n], bs[n];
    assert bs == init + [last];
    IdentityAppend(init, last, id);
    KeyOrder(Canonical(enc, last), Canonical(enc, last));
    if OfIdentity(init, id) == [] {
      forall j | 0 <= j < n ensures IdOf(bs[j]) != id {
        assert init[j] == bs[j];
        MemberOfIdentity(init, id, init[j]);
      }
      k := n;
      assert OfIdentity(bs, id) == [last];
    } else {
      var i := PickIsChosen(enc, init, id);
      if IdOf(last) != id {
        k := i;
        assert OfIdentity(bs, id) == OfIdentity(init, id);
      } else {
        k := if NoLater(enc, bs[i], last) then i else n;
        LeastConcat(OfIdentity(init, id), [last], ByCanonical(enc));
        ChosenStep(enc, bs, i, k);
      }
    }
  }

  lemma NoneOfNone(bs: seq<Bar>, id: Identity)
    ensures OfIdentity(bs, id) != [] ==> bs != []
  {
  }

  lemma ChosenStep(enc: Encoding, bs: seq<Bar>, i: nat, k: nat)
    requires bs != [] && ChosenAt(enc, bs[..|bs| - 1], i) && IdOf(bs[|bs| - 1]) == IdOf(bs[i])
    requires k == if NoLater(enc, bs[i], bs[|bs| - 1]) then i else |bs| - 1
    ensures ChosenAt(enc, bs, k)
  {
    hide KeyLeq, Canonical;
    var init, n := bs[..|bs| - 1], |bs| - 1;
    KeyOrder(Canonical(enc, bs[i]), Canonical(enc, bs[n]));
    KeyOrder(Canonical(enc, bs[n]), Canonical(enc, bs[n]));
    forall j | 0 <= j < |bs| && IdOf(bs[j]) == IdOf(bs[k]) ensures NoLater(enc, bs[k], bs[j]) {
      if j < n {
        assert init[j] == bs[j];
        if k == n { KeyTransitive(Canonical(enc, bs[n]), Canonical(enc, bs[i]), Canonical(enc, bs[j])); }
      }
    }
    forall j | 0 <= j < k && IdOf(bs[j]) == IdOf(bs[k]) ensures !NoLater(enc, bs[j], bs[k]) {
      assert init[j] == bs[j];
      if k == n && NoLater(enc, bs[j], bs[n]) {
        KeyTransitive(Canonical(enc, bs[i]), Canonical(enc, bs[j]), Canonical(enc, bs[n]));
      }
    }
  }

  lemma ChosenIsUnique(enc: Encoding, bs: seq<Bar>, i: int, k: int)
    requires ChosenAt(enc, bs, i) && ChosenAt(enc, bs, k) && IdOf(bs[i]) == IdOf(bs[k])
    ensures i == k
  {
    hide NoLater;
  }

  /** One version per identity is chosen, and it is the pick. */
  lemma ChosenIsThePick(enc: Encoding, bs: seq<Bar>, b: Bar)
    ensures Chosen(enc, bs, b) <==> OfIdentity(bs, IdOf(b)) != [] && b == Pick(enc, bs, IdOf(b))
  {
    hide NoLater, OfIdentity;
    if Chosen(enc, bs, b) {
      var k :| ChosenAt(enc, bs, k) && bs[k] == b;
      assert b in bs;
      MemberOfIdentity(bs, IdOf(b), b);
      var i := PickIsChosen(enc, bs, IdOf(b));
      ChosenIsUnique(enc, bs, i, k);
    }
    if OfIdentity(bs, IdOf(b)) != [] {
      var i := PickIsChosen(enc, bs, IdOf(b));
    }
  }

  /** Where decimals are told apart, the chosen version depends on the set of versions only. */
  lemma ChosenIsEarliest(enc: Encoding, bs: seq<Bar>, b: Bar)
    requires Faithful(enc, AsSet(bs)) && forall x <- bs :: Plain(x)
    ensures Chosen(enc, bs, b) <==> Earliest(enc, AsSet(bs), b)
  {
    hide NoLater, Faithful, OfIdentity;
    if k :| ChosenAt(enc, bs, k) && bs[k] == b {
      forall c <- bs | IdOf(c) == IdOf(b) ensures NoLater(enc, b, c) {
        var j :| 0 <= j < |bs| && bs[j] == c;
      }
    }
    if Earliest(enc, AsSet(bs), b) {
      MemberOfIdentity(bs, IdOf(b), b);
      var k := PickIsChosen(enc, bs, IdOf(b));
      forall c <- bs | IdOf(c) == IdOf(b) ensures NoLater(enc, bs[k], c) {
        var j :| 0 <= j < |bs| && bs[j] == c;
      }
      EarliestIsUnique(enc, AsSet(bs), b, bs[k]);
    }
  }

  function AsSet(bs: seq<Bar>): set<Bar> {
    set b <- bs
  }

  // ----- raw records to flagged bars -------------------------------------------------------------

  datatype Record = Record(
    eventTime: int,
    available: Option<int>,
    sourceRecordId: string,
    open: real, high: real, low: real, close: real, volume: real)

  /** One ingestion run, restricted to one instrument and timeframe. */
  datatype Run = Run(
    instrument: string,
    timeframe: Timeframe,
    source: string,
    ingestedAt: int,
    now: int,
    records: seq<Record>)

  /** When a record counts as knowable: its own time, or the ingestion instant. */
  function KnowableAt(run: Run, r: Record): int {
    if r.available.Some? then r.available.value else run.ingestedAt
  }

  function BronzeOf(run: Run, r: Record): Bar {
    Bar(run.instrument, run.timeframe, r.eventTime, KnowableAt(run, r), run.ingestedAt,
        r.open, r.high, r.low, r.close, r.volume, run.source, r.sourceRecordId,
        NoFlags.(inferred := r.available.None?), None)
  }

  function MaxOf(a: real, b: real): real { if a >= b then a else b }
  function MinOf(a: real, b: real): real { if a <= b then a else b }

  /** `_flag`: earlier flags are kept; OK only when nothing else applies. */
  function Flagged(b: Bar, now: int, tolerance: int, staleAfter: int): Bar {
    var anomaly := b.flags.priceAnomaly || b.high < MaxOf(b.open, b.close) || b.low > MinOf(b.open, b.close);
    var future := b.flags.futureDated || b.availableTime > now + tolerance;
    var stale := b.flags.stale || now - b.availableTime > staleAfter;
    var clean := !b.flags.duplicate && !b.flags.inferred && !anomaly && !future && !stale && !b.flags.ok;
    b.(flags := b.flags.(priceAnomaly := anomaly, futureDated := future, stale := stale,
                         ok := b.flags.ok || clean))
  }

  datatype Limits = Limits(tolerance: int, staleAfter: int)

  function FlaggedBar(lim: Limits, run: Run, r: Record): (b: Bar)
    ensures Plain(b) && b.availableTime == KnowableAt(run, r) && b.ingestedAt == run.ingestedAt
  {
    Flagged(BronzeOf(run, r), run.now, lim.tolerance, lim.staleAfter)
  }

  function FlaggedRun(lim: Limits, run: Run): (bs: seq<Bar>)
    ensures |bs| == |run.records|
    ensures forall i | 0 <= i < |bs| :: bs[i] == FlaggedBar(lim, run, run.records[i])
  {
    seq(|run.records|, i requires 0 <= i < |run.records| => FlaggedBar(lim, run, run.records[i]))
  }
}
