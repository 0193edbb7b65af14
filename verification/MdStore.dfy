/**
  The mutable side of sealing: the in-memory catalog, the gold objects, the
  sealing pass and the verified load.
 */
module MdStore {
  import opened Options
  import opened MdKeys
  import opened MdBars
  import opened MdGold
  import opened MdSealed

  type Versions = map<VersionKey, DatasetVersion>

  // ----- the catalog ------------------------------------------------------------------------------

  /** `open_dataset`; `None` is DatasetVersionExistsError. */
  function Opened(vs: Versions, key: VersionKey): Option<Versions> {
    if key in vs then None else Some(vs[key := Open])
  }

  /** `seal_dataset`; `None` is DatasetNotFoundError or DatasetSealedError. */
  function SealedIn(vs: Versions, key: VersionKey, entry: DatasetVersion): Option<Versions> {
    if key !in vs || vs[key].Sealed? then None else Some(vs[key := entry])
  }

  datatype CatalogOp = OpenOp(key: VersionKey) | SealOp(key: VersionKey, entry: DatasetVersion)

  /** One call; a call that raises leaves the catalog as it is. */
  function Called(vs: Versions, op: CatalogOp): Versions {
    var r := match op
      case OpenOp(key) => Opened(vs, key)
      case SealOp(key, entry) => SealedIn(vs, key, entry);
    if r.Some? then r.value else vs
  }

  function CalledAll(vs: Versions, ops: seq<CatalogOp>): Versions
    decreases |ops|
  {
    if ops == [] then vs else CalledAll(Called(vs, ops[0]), ops[1..])
  }

  /** A sealed version never changes again, whatever is called in whatever order. */
  lemma {:induction false} SealedIsFinal(vs: Versions, key: VersionKey, ops: seq<CatalogOp>)
    requires key in vs && vs[key].Sealed?
    ensures key in CalledAll(vs, ops) && CalledAll(vs, ops)[key] == vs[key]
    decreases |ops|
  {
    if ops != [] {
      SealedIsFinal(Called(vs, ops[0]), key, ops[1..]);
    }
  }

  class MemoryCatalog {
    var versions: Versions

    constructor ()
      ensures versions == map[]
    {
      versions := map[];
    }

    method OpenDataset(key: VersionKey) returns (raised: bool)
      modifies this
      ensures raised <==> Opened(old(versions), key).None?
      ensures versions == Called(old(versions), OpenOp(key))
    {
      if key in versions {
        return true;
      }
      versions := versions[key := Open];
      raised := false;
    }

    method SealDataset(key: VersionKey, entry: DatasetVersion) returns (raised: bool)
      modifies this
      ensures raised <==> SealedIn(old(versions), key, entry).None?
      ensures versions == Called(old(versions), SealOp(key, entry))
    {
      if key !in versions || versions[key].Sealed? {
        return true;
      }
      versions := versions[key := entry];
      raised := false;
    }
  }

  // ----- sealing ----------------------------------------------------------------------------------

  function ByNumber(): int -> Key {
    (m: int) => [Stamp(m)]
  }

  lemma AscendingMonthsAreSorted(ms: seq<int>)
    requires AscendingMonths(ms)
    ensures SortBy(ms, ByNumber()) == ms
  {
    forall i, j | 0 <= i < j < |ms| ensures KeyLeq(ByNumber()(ms[i]), ByNumber()(ms[j])) {
      StampDecides(ms[i], [], ms[j], []);
    }
    SortIsIdempotent(ms, ByNumber());
  }

  lemma MonthStep(rows: seq<Bar>, month: int -> int, i: nat)
    requires i < |rows|
    ensures var m := month(rows[i].eventTime);
            && MonthsSeen(rows[..i + 1], month) ==
               (if m in MonthsSeen(rows[..i], month) then MonthsSeen(rows[..i], month)
                else MonthsSeen(rows[..i], month) + [m])
            && forall k: int ::
                 OfMonth(rows[..i + 1], month, k) ==
                 if k == m then OfMonth(rows[..i], month, k) + [rows[i]] else OfMonth(rows[..i], month, k)
  {
    assert rows[..i + 1][..i] == rows[..i];
  }

  lemma NoMonths(month: int -> int)
    ensures MonthsSeen([], month) == [] && forall m: int :: OfMonth([], month, m) == []
  {
  }

  /** `month_groups`, in insertion order and as a dictionary. */
  method GroupByMonth(rows: seq<Bar>, month: int -> int) returns (order: seq<int>, groups: map<int, seq<Bar>>)
    ensures order == MonthsSeen(rows, month)
    ensures forall m <- order :: m in groups && groups[m] == OfMonth(rows, month, m)
  {
    hide MonthsSeen, OfMonth;
    order, groups := [], map[];
    NoMonths(month);
    for i := 0 to |rows|
      invariant order == MonthsSeen(rows[..i], month)
      invariant forall m: int :: m in groups <==> m in order
      invariant forall m <- groups :: groups[m] == OfMonth(rows[..i], month, m)
      invariant forall m: int :: m !in groups ==> OfMonth(rows[..i], month, m) == []
    {
      var m := month(rows[i].eventTime);
      MonthStep(rows, month, i);
      if m in groups {
        groups := groups[m := groups[m] + [rows[i]]];
      } else {
        order := order + [m];
        groups := groups[m := [rows[i]]];
      }
    }
    assert rows[..|rows|] == rows;
  }

  class LayerStore {
    var parts: map<PartKey, seq<Bar>>
    var manifests: map<VersionKey, string>

    constructor ()
      ensures parts == map[] && manifests == map[]
    {
      parts, manifests := map[], map[];
    }

    /** The loop that writes one object per month and collects the manifest entries. */
    method WriteParts(enc: Encoding, month: int -> int, rows: seq<Bar>, d: DatasetId, v: nat,
                      months: seq<int>, groups: map<int, seq<Bar>>) returns (partitions: seq<Partition>)
      requires forall m <- months :: m in groups && groups[m] == OfMonth(rows, month, m)
      modifies this`parts
      ensures |partitions| == |months|
      ensures forall k | 0 <= k < |months| :: partitions[k] == PartitionOf(enc, month, d, v, rows, months[k])
      ensures forall m <- months ::
                PartKey(d, v, m) in parts && parts[PartKey(d, v, m)] == OfMonth(rows, month, m)
      ensures forall k <- old(parts) ::
                k.dataset != d || k.version != v ==> k in parts && parts[k] == old(parts)[k]
    {
      hide OfMonth, StreamHash;
      partitions := [];
      for i := 0 to |months|
        invariant |partitions| == i
        invariant forall k | 0 <= k < i :: partitions[k] == PartitionOf(enc, month, d, v, rows, months[k])
        invariant forall m <- months[..i] ::
                    PartKey(d, v, m) in parts && parts[PartKey(d, v, m)] == OfMonth(rows, month, m)
        invariant forall k <- old(parts) ::
                    k.dataset != d || k.version != v ==> k in parts && parts[k] == old(parts)[k]
      {
        var m := months[i];
        assert m in months && months[..i + 1] == months[..i] + [m];
        parts := parts[PartKey(d, v, m) := groups[m]];
        partitions := partitions + [Partition(PartKey(d, v, m), |groups[m]|, StreamHash(enc, groups[m]))];
      }
      assert months[..|months|] == months;
    }

    /**
      `seal`: it raises on an empty silver layer, and on a version that already
      exists before any gold object is written.
     */
    method Seal(enc: Encoding, month: int -> int, silver: seq<Bar>, d: DatasetId, v: nat, catalog: MemoryCatalog)
      returns (raised: bool)
      requires Monotone(month)
      modifies this, catalog
      ensures raised <==> silver == [] || VersionKey(d, v) in old(catalog.versions)
      ensures raised ==> parts == old(parts) && manifests == old(manifests) && catalog.versions == old(catalog.versions)
      ensures !raised ==>
                var rows := ChecksumAll(enc, SortBy(Merged(enc, silver), ByRow()));
                && catalog.versions == old(catalog.versions)[VersionKey(d, v) := EntryFor(enc, month, d, v, rows)]
                && manifests == old(manifests)[VersionKey(d, v) := StreamHash(enc, rows)]
                && Holds(parts, month, d, v, rows)
                && forall k <- old(parts) ::
                     k.dataset != d || k.version != v ==> k in parts && parts[k] == old(parts)[k]
    {
      hide Merged, SortBy, OfMonth, MonthsSeen, StreamHash, KeyLeq, ChecksumAll, PartitionOf;
      if silver == [] {
        return true;
      }
      var merged := MergeGoldRows(enc, silver);
      SortKeeps(merged, ByRow());
      var rows := ChecksumAll(enc, SortBy(merged, ByRow()));
      RowsWithChecksums(enc, SortBy(merged, ByRow()));
      raised := catalog.OpenDataset(VersionKey(d, v));
      if raised { return; }
      var order, groups := GroupByMonth(rows, month);
      MonthsAscend(rows, month);
      AscendingMonthsAreSorted(order);
      var partitions := WriteParts(enc, month, rows, d, v, SortBy(order, ByNumber()), groups);
      manifests := manifests[VersionKey(d, v) := StreamHash(enc, rows)];
      assert partitions == EntryFor(enc, month, d, v, rows).partitions;
      raised := catalog.SealDataset(VersionKey(d, v), Sealed(StreamHash(enc, rows), |rows|, partitions));
    }

    /** `_load_gold` for one catalog entry; `None` is the raised error. */
    method LoadGold(enc: Encoding, key: VersionKey, entry: DatasetVersion) returns (r: Option<seq<Bar>>)
      ensures r == Load(enc, parts, if key in manifests then Some(manifests[key]) else None, entry)
    {
      hide StreamHash, SortBy;
      if entry.Open? || key !in manifests || manifests[key] != entry.datasetHash {
        return None;
      }
      var rows: seq<Bar> := [];
      var ps := entry.partitions;
      assert LoadParts(enc, parts, []) == Some([]);
      for i := 0 to |ps|
        invariant LoadParts(enc, parts, ps[..i]) == Some(rows)
      {
        var p := ps[i];
        assert ps[..i + 1][..i] == ps[..i];
        if p.key !in parts || |parts[p.key]| != p.rowCount || StreamHash(enc, parts[p.key]) != p.checksum {
          NoneAfterNone(enc, parts, ps, i + 1);
          return None;
        }
        rows := rows + parts[p.key];
      }
      assert ps[..|ps|] == ps;
      if StreamHash(enc, rows) != entry.datasetHash {
        return None;
      }
      r := Some(SortBy(rows, ByRow()));
    }
  }

  lemma {:induction false} NoneAfterNone(enc: Encoding, parts: map<PartKey, seq<Bar>>, ps: seq<Partition>, i: nat)
    requires i <= |ps| && LoadParts(enc, parts, ps[..i]).None?
    ensures LoadParts(enc, parts, ps).None?
    decreases |ps| - i
  {
    hide StreamHash;
    if i == |ps| {
      assert ps[..i] == ps;
    } else {
      assert ps[..i + 1][..i] == ps[..i];
      NoneAfterNone(enc, parts, ps, i + 1);
    }
  }

  lemma RowsWithChecksums(enc: Encoding, rows: seq<Bar>)
    requires Ascending(rows, ByRow())
    ensures ByTime(ChecksumAll(enc, rows))
  {
    hide Canonical;
    RowsAreByTime(rows);
  }
}
