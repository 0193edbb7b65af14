/**
  Sealing gold into month partitions and loading it back under checksums
  (adapters/market_data/pipeline.py:237-302, repository.py:71-115,
  hashing.py:74-95), with the catalog that makes a sealed version final
  (catalog.py:157-213).
 */
module MdSealed {
  import opened Options
  import opened MdKeys
  import opened MdBars
  import opened MdGold
  import opened MdPointInTime

  datatype DatasetId = DatasetId(instrument: string, timeframe: Timeframe)
  datatype VersionKey = VersionKey(dataset: DatasetId, version: nat)
  datatype PartKey = PartKey(dataset: DatasetId, version: nat, month: int)
  datatype Partition = Partition(key: PartKey, rowCount: nat, checksum: string)
  datatype DatasetVersion =
    | Open
    | Sealed(datasetHash: string, rowCount: nat, partitions: seq<Partition>)

  // ----- hashes -----------------------------------------------------------------------------------

  function CanonicalAll(enc: Encoding, rows: seq<Bar>): (r: seq<Key>)
    ensures |r| == |rows| && forall i | 0 <= i < |r| :: r[i] == Canonical(enc, rows[i])
  {
    seq(|rows|, i requires 0 <= i < |rows| => Canonical(enc, rows[i]))
  }

  /** `_hash_stream`: rows in row-key order. `partition_hash` and `dataset_hash` are both this. */
  function StreamHash(enc: Encoding, rows: seq<Bar>): string {
    enc.streamDigest(CanonicalAll(enc, SortBy(rows, ByRow())))
  }

  function WithChecksum(enc: Encoding, b: Bar): Bar {
    if b.checksum.Some? then b else b.(checksum := Some(enc.rowDigest(Canonical(enc, b))))
  }

  function ChecksumAll(enc: Encoding, rows: seq<Bar>): (r: seq<Bar>)
    ensures |r| == |rows| && forall i | 0 <= i < |r| :: r[i] == WithChecksum(enc, rows[i])
  {
    seq(|rows|, i requires 0 <= i < |rows| => WithChecksum(enc, rows[i]))
  }

  // ----- month partitions -------------------------------------------------------------------------

  function OfMonth(rows: seq<Bar>, month: int -> int, m: int): seq<Bar> {
    if rows == [] then []
    else
      var b := rows[|rows| - 1];
      OfMonth(rows[..|rows| - 1], month, m) + (if month(b.eventTime) == m then [b] else [])
  }

  /** The months in the order in which the rows reach them. */
  function MonthsSeen(rows: seq<Bar>, month: int -> int): seq<int> {
    if rows == [] then []
    else
      var before := MonthsSeen(rows[..|rows| - 1], month);
      var m := month(rows[|rows| - 1].eventTime);
      if m in before then before else before + [m]
  }

  function Joined(rows: seq<Bar>, month: int -> int, ms: seq<int>): seq<Bar> {
    if ms == [] then []
    else Joined(rows, month, ms[..|ms| - 1]) + OfMonth(rows, month, ms[|ms| - 1])
  }

  ghost predicate Monotone(month: int -> int) {
    forall s: int, t: int :: s <= t ==> month(s) <= month(t)
  }

  ghost predicate ByTime(rows: seq<Bar>) {
    forall i, j | 0 <= i < j < |rows| :: rows[i].eventTime <= rows[j].eventTime
  }

  ghost predicate AscendingMonths(ms: seq<int>) {
    forall i, j | 0 <= i < j < |ms| :: ms[i] < ms[j]
  }

  lemma {:induction false} MonthsAscend(rows: seq<Bar>, month: int -> int)
    requires Monotone(month) && ByTime(rows)
    ensures AscendingMonths(MonthsSeen(rows, month))
    ensures forall m <- MonthsSeen(rows, month) :: rows != [] && m <= month(rows[|rows| - 1].eventTime)
    ensures rows != [] ==> month(rows[|rows| - 1].eventTime) in MonthsSeen(rows, month)
  {
    if rows != [] {
      var n := |rows| - 1;
      MonthsAscend(rows[..n], month);
      var before, m := MonthsSeen(rows[..n], month), month(rows[n].eventTime);
      forall i | 0 <= i < |before| ensures before[i] <= m {
        assert before[i] in before;
        assert month(rows[n - 1].eventTime) <= m;
      }
      forall i | 0 <= i < |before| && m !in before ensures before[i] < m {
        assert before[i] in before;
      }
    }
  }

  lemma OfMonthAppend(rows: seq<Bar>, month: int -> int, b: Bar, m: int)
    ensures OfMonth(rows + [b], month, m) ==
            if month(b.eventTime) == m then OfMonth(rows, month, m) + [b] else OfMonth(rows, month, m)
  {
    assert (rows + [b])[..|rows|] == rows;
  }

  lemma {:induction false} OtherMonths(rows: seq<Bar>, month: int -> int, b: Bar, ms: seq<int>)
    requires month(b.eventTime) !in ms
    ensures Joined(rows + [b], month, ms) == Joined(rows, month, ms)
  {
    if ms != [] {
      assert ms[|ms| - 1] in ms;
      OtherMonths(rows, month, b, ms[..|ms| - 1]);
      OfMonthAppend(rows, month, b, ms[|ms| - 1]);
    }
  }

  lemma {:induction false} AbsentMonth(rows: seq<Bar>, month: int -> int, m: int)
    requires m !in MonthsSeen(rows, month)
    ensures OfMonth(rows, month, m) == []
  {
    if rows != [] {
      AbsentMonth(rows[..|rows| - 1], month, m);
    }
  }

  /** A further row of the newest month lands at the very end. */
  lemma JoinSameMonth(r: seq<Bar>, month: int -> int, b: Bar, ms: seq<int>)
    requires ms != [] && ms[|ms| - 1] == month(b.eventTime) && month(b.eventTime) !in ms[..|ms| - 1]
    ensures Joined(r + [b], month, ms) == Joined(r, month, ms) + [b]
  {
    hide OfMonth;
    OtherMonths(r, month, b, ms[..|ms| - 1]);
    OfMonthAppend(r, month, b, month(b.eventTime));
  }

  /** So does the first row of a new month. */
  lemma JoinNewMonth(r: seq<Bar>, month: int -> int, b: Bar, ms: seq<int>)
    requires month(b.eventTime) !in ms && OfMonth(r, month, month(b.eventTime)) == []
    ensures Joined(r + [b], month, ms + [month(b.eventTime)]) == Joined(r, month, ms) + [b]
  {
    hide OfMonth;
    OtherMonths(r, month, b, ms);
    OfMonthAppend(r, month, b, month(b.eventTime));
    assert (ms + [month(b.eventTime)])[..|ms|] == ms;
  }

  /** Splitting rows in time order by month and joining the months gives the rows back. */
  lemma {:induction false} SplitThenJoin(rows: seq<Bar>, month: int -> int)
    requires Monotone(month) && ByTime(rows)
    ensures Joined(rows, month, MonthsSeen(rows, month)) == rows
  {
    if rows != [] {
      hide Joined, OfMonth;
      var n := |rows| - 1;
      var b, r := rows[n], rows[..n];
      assert rows == r + [b];
      SplitThenJoin(r, month);
      if month(b.eventTime) in MonthsSeen(r, month) {
        LastMonth(rows, month);
        JoinSameMonth(r, month, b, MonthsSeen(r, month));
      } else {
        AbsentMonth(r, month, month(b.eventTime));
        JoinNewMonth(r, month, b, MonthsSeen(r, month));
      }
    }
  }

  /** A row in an old month is in the newest month, and in no earlier one. */
  lemma LastMonth(rows: seq<Bar>, month: int -> int)
    requires Monotone(month) && ByTime(rows) && rows != []
    requires month(rows[|rows| - 1].eventTime) in MonthsSeen(rows[..|rows| - 1], month)
    ensures var before := MonthsSeen(rows[..|rows| - 1], month);
            && before != [] && before[|before| - 1] == month(rows[|rows| - 1].eventTime)
            && before[|before| - 1] !in before[..|before| - 1]
  {
    MonthsAscend(rows, month);
    var before := MonthsSeen(rows[..|rows| - 1], month);
    assert MonthsSeen(rows, month) == before;
    var i :| 0 <= i < |before| && before[i] == month(rows[|rows| - 1].eventTime);
    assert before[|before| - 1] in before;
    assert before[|before| - 1] <= before[i];
    assert i == |before| - 1;
  }

  // ----- what sealing writes ------------------------------------------------------------------------

  function PartitionOf(enc: Encoding, month: int -> int, d: DatasetId, v: nat, rows: seq<Bar>, m: int): Partition {
    Partition(PartKey(d, v, m), |OfMonth(rows, month, m)|, StreamHash(enc, OfMonth(rows, month, m)))
  }

  function EntryFor(enc: Encoding, month: int -> int, d: DatasetId, v: nat, rows: seq<Bar>): DatasetVersion {
    var ms := MonthsSeen(rows, month);
    Sealed(StreamHash(enc, rows), |rows|,
           seq(|ms|, i requires 0 <= i < |ms| => PartitionOf(enc, month, d, v, rows, ms[i])))
  }

  ghost predicate Holds(parts: map<PartKey, seq<Bar>>, month: int -> int, d: DatasetId, v: nat, rows: seq<Bar>) {
    forall m <- MonthsSeen(rows, month) ::
      PartKey(d, v, m) in parts && parts[PartKey(d, v, m)] == OfMonth(rows, month, m)
  }

  // ----- loading ------------------------------------------------------------------------------------

  /** The partitions in catalog order; `None` is a missing object or a checksum error. */
  function LoadParts(enc: Encoding, parts: map<PartKey, seq<Bar>>, ps: seq<Partition>): Option<seq<Bar>> {
    if ps == [] then Some([])
    else
      var p := ps[|ps| - 1];
      var before := LoadParts(enc, parts, ps[..|ps| - 1]);
      if before.None? || p.key !in parts then None
      else if |parts[p.key]| != p.rowCount || StreamHash(enc, parts[p.key]) != p.checksum then None
      else Some(before.value + parts[p.key])
  }

  function Load(enc: Encoding, parts: map<PartKey, seq<Bar>>, manifest: Option<string>, entry: DatasetVersion)
    : Option<seq<Bar>>
  {
    if entry.Open? || manifest != Some(entry.datasetHash) then None
    else
      match LoadParts(enc, parts, entry.partitions)
      case None => None
      case Some(rows) =>
        if StreamHash(enc, rows) != entry.datasetHash then None else Some(SortBy(rows, ByRow()))
  }

  lemma {:induction false} LoadsJoined(enc: Encoding, month: int -> int, d: DatasetId, v: nat, rows: seq<Bar>,
                                       parts: map<PartKey, seq<Bar>>, k: nat)
    requires Holds(parts, month, d, v, rows) && k <= |MonthsSeen(rows, month)|
    ensures LoadParts(enc, parts, EntryFor(enc, month, d, v, rows).partitions[..k]) ==
            Some(Joined(rows, month, MonthsSeen(rows, month)[..k]))
  {
    hide StreamHash, OfMonth, MonthsSeen;
    if k > 0 {
      LoadsJoined(enc, month, d, v, rows, parts, k - 1);
      var ps, ms := EntryFor(enc, month, d, v, rows).partitions, MonthsSeen(rows, month);
      assert ps[..k][..k - 1] == ps[..k - 1] && ms[..k][..k - 1] == ms[..k - 1];
      assert ms[k - 1] in ms;
    }
  }

  lemma RowsAreByTime(rows: seq<Bar>)
    requires Ascending(rows, ByRow())
    ensures ByTime(rows)
  {
    forall i, j | 0 <= i < j < |rows| ensures rows[i].eventTime <= rows[j].eventTime {
      assert KeyLeq(ByRow()(rows[i]), ByRow()(rows[j]));
    }
  }

  /** Seal, then load: every checksum verifies and the sealed rows come back in order. */
  lemma SealThenLoad(enc: Encoding, month: int -> int, d: DatasetId, v: nat, rows: seq<Bar>,
                     parts: map<PartKey, seq<Bar>>)
    requires Monotone(month) && Ascending(rows, ByRow()) && Holds(parts, month, d, v, rows)
    ensures Load(enc, parts, Some(StreamHash(enc, rows)), EntryFor(enc, month, d, v, rows)) == Some(rows)
  {
    hide StreamHash, OfMonth, MonthsSeen, Holds, LoadParts, KeyLeq;
    var ms := MonthsSeen(rows, month);
    RowsAreByTime(rows);
    LoadsJoined(enc, month, d, v, rows, parts, |ms|);
    assert ms[..|ms|] == ms;
    var ps := EntryFor(enc, month, d, v, rows).partitions;
    assert ps[..|ms|] == ps;
    SplitThenJoin(rows, month);
    SortIsIdempotent(rows, ByRow());
  }

  /** Two different row streams with the same digest. */
  predicate Collision(enc: Encoding, a: seq<Key>, b: seq<Key>) {
    a != b && enc.streamDigest(a) == enc.streamDigest(b)
  }

  /**
    Tamper evidence: whatever happened to the stored objects, a load that
    succeeds returns rows that agree with the sealed ones in every hashed field,
    or the two are a collision of the digest.
   */
  lemma LoadedRowsAreTheSealedRows(enc: Encoding, month: int -> int, d: DatasetId, v: nat, rows: seq<Bar>,
                                   parts: map<PartKey, seq<Bar>>, manifest: Option<string>, loaded: seq<Bar>)
    requires Ascending(rows, ByRow()) && Faithful(enc, AsSet(rows) + AsSet(loaded))
    requires Load(enc, parts, manifest, EntryFor(enc, month, d, v, rows)) == Some(loaded)
    ensures || Collision(enc, CanonicalAll(enc, loaded), CanonicalAll(enc, rows))
            || (|loaded| == |rows| && forall i | 0 <= i < |rows| :: Hashed(loaded[i]) == Hashed(rows[i]))
  {
    hide Canonical, Faithful, LoadParts, KeyLeq, MonthsSeen, OfMonth;
    SortIsIdempotent(rows, ByRow());
    var entry := EntryFor(enc, month, d, v, rows);
    var raw := LoadParts(enc, parts, entry.partitions).value;
    assert loaded == SortBy(raw, ByRow());
    var a, b := CanonicalAll(enc, loaded), CanonicalAll(enc, rows);
    assert enc.streamDigest(a) == enc.streamDigest(b);
    if a == b {
      forall i | 0 <= i < |rows| ensures Hashed(loaded[i]) == Hashed(rows[i]) {
        assert a[i] == b[i];
        CanonicalIsInjective(enc, AsSet(rows) + AsSet(loaded), loaded[i], rows[i]);
      }
    }
  }

  // ----- end to end -----------------------------------------------------------------------------------

  function SealedRows(enc: Encoding, lim: Limits, runs: seq<Run>): seq<Bar> {
    ChecksumAll(enc, Gold(enc, lim, runs))
  }

  lemma SealedRowsAscend(enc: Encoding, lim: Limits, runs: seq<Run>)
    ensures Ascending(SealedRows(enc, lim, runs), ByRow())
  {
    hide Merged, AllSilver, KeyLeq, Canonical;
    SortKeeps(Merged(enc, AllSilver(enc, lim, runs)), ByRow());
    var g, s := Gold(enc, lim, runs), SealedRows(enc, lim, runs);
    forall i, j | 0 <= i < j < |s| ensures KeyLeq(ByRow()(s[i]), ByRow()(s[j])) {
      assert KeyLeq(ByRow()(g[i]), ByRow()(g[j]));
    }
  }

  lemma ChecksumHead(enc: Encoding, rows: seq<Bar>)
    requires rows != []
    ensures ChecksumAll(enc, rows) == [WithChecksum(enc, rows[0])] + ChecksumAll(enc, rows[1..])
    ensures ChecksumAll(enc, rows)[1..] == ChecksumAll(enc, rows[1..])
  {
    hide WithChecksum;
  }

  lemma {:induction false} ChecksumsCommute(enc: Encoding, rows: seq<Bar>, asOf: int,
                                            start: Option<int>, end: Option<int>)
    ensures Visible(ChecksumAll(enc, rows), asOf) == ChecksumAll(enc, Visible(rows, asOf))
    ensures Between(ChecksumAll(enc, rows), start, end) == ChecksumAll(enc, Between(rows, start, end))
  {
    hide ChecksumAll;
    if rows == [] {
      assert ChecksumAll(enc, []) == [];
    } else {
      ChecksumHead(enc, rows);
      ChecksumsCommute(enc, rows[1..], asOf, start, end);
      var v, r := Visible(rows[1..], asOf), Between(rows[1..], start, end);
      ChecksumHead(enc, [rows[0]] + v);
      ChecksumHead(enc, [rows[0]] + r);
      assert ([rows[0]] + v)[1..] == v && ([rows[0]] + r)[1..] == r;
      assert [] + ChecksumAll(enc, v) == ChecksumAll(enc, v) && [] + v == v && [] + r == r;
    }
  }

  /**
    Two sealed versions, the second built after any records not knowable at `t`
    had arrived: loaded and read as of `t`, they give the same bars and snapshot.
   */
  lemma SealedNoLookAhead(enc: Encoding, lim: Limits, month: int -> int, d: DatasetId,
                          runs: seq<Run>, v: nat, runs': seq<Run>, v': nat,
                          parts: map<PartKey, seq<Bar>>, t: int, start: Option<int>, end: Option<int>)
    requires Monotone(month) && LateExtension(runs, runs', t)
    requires Holds(parts, month, d, v, SealedRows(enc, lim, runs))
    requires Holds(parts, month, d, v', SealedRows(enc, lim, runs'))
    ensures var a := SealedRows(enc, lim, runs);
            var b := SealedRows(enc, lim, runs');
            var la := Load(enc, parts, Some(StreamHash(enc, a)), EntryFor(enc, month, d, v, a));
            var lb := Load(enc, parts, Some(StreamHash(enc, b)), EntryFor(enc, month, d, v', b));
            && la.Some? && lb.Some? && Query(la.value, t, start, end) == Query(lb.value, t, start, end)
            && Snapshot(la.value, t) == Snapshot(lb.value, t)
  {
    hide Gold, Holds, Load, EntryFor, StreamHash, LateExtension, Visible, Between, Latest;
    SealedRowsAscend(enc, lim, runs);
    SealedRowsAscend(enc, lim, runs');
    SealThenLoad(enc, month, d, v, SealedRows(enc, lim, runs), parts);
    SealThenLoad(enc, month, d, v', SealedRows(enc, lim, runs'), parts);
    NoLookAhead(enc, lim, runs, runs', t, start, end);
    var g, g' := Gold(enc, lim, runs), Gold(enc, lim, runs');
    ChecksumsCommute(enc, g, t, start, end);
    ChecksumsCommute(enc, g', t, start, end);
    ChecksumsCommute(enc, Visible(g, t), t, start, end);
    ChecksumsCommute(enc, Visible(g', t), t, start, end);
    NoLookAhead(enc, lim, runs, runs', t, None, None);
    ChecksumsCommute(enc, Visible(g, t), t, None, None);
    ChecksumsCommute(enc, Visible(g', t), t, None, None);
  }
}
