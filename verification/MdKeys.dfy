/**
  Sort keys of the market-data layer. A key is a list of fields and a field a
  list of codes: a timestamp is one code, a text its characters. Keys compare
  field by field, fields code by code; Python's stable `sorted` is `SortBy`.
 */
module MdKeys {
  type Field = seq<int>
  type Key = seq<Field>

  function Stamp(t: int): Field {
    [t]
  }

  function Text(s: string): Field {
    seq(|s|, i requires 0 <= i < |s| => s[i] as int)
  }

  lemma TextIsInjective(s: string, t: string)
    requires Text(s) == Text(t)
    ensures s == t
  {
    assert |s| == |Text(s)| == |Text(t)| == |t|;
    forall i | 0 <= i < |s| ensures s[i] == t[i] {
      assert Text(s)[i] == Text(t)[i];
    }
  }

  predicate FieldLeq(a: Field, b: Field) {
    if a == [] then true
    else if b == [] then false
    else if a[0] != b[0] then a[0] < b[0]
    else FieldLeq(a[1..], b[1..])
  }

  predicate KeyLeq(a: Key, b: Key) {
    if a == [] then true
    else if b == [] then false
    else if a[0] != b[0] then FieldLeq(a[0], b[0])
    else KeyLeq(a[1..], b[1..])
  }

  lemma {:induction false} FieldOrder(a: Field, b: Field)
    ensures FieldLeq(a, b) || FieldLeq(b, a)
    ensures FieldLeq(a, b) && FieldLeq(b, a) ==> a == b
  {
    if a != [] && b != [] && a[0] == b[0] {
      FieldOrder(a[1..], b[1..]);
      assert a == [a[0]] + a[1..] && b == [b[0]] + b[1..];
    }
  }

  lemma {:induction false} FieldTransitive(a: Field, b: Field, c: Field)
    requires FieldLeq(a, b) && FieldLeq(b, c)
    ensures FieldLeq(a, c)
  {
    if a != [] && b != [] && c != [] && a[0] == b[0] && b[0] == c[0] {
      FieldTransitive(a[1..], b[1..], c[1..]);
    }
  }

  lemma {:induction false} KeyOrder(a: Key, b: Key)
    ensures KeyLeq(a, b) || KeyLeq(b, a)
    ensures KeyLeq(a, b) && KeyLeq(b, a) ==> a == b
  {
    if a != [] && b != [] {
      if a[0] == b[0] {
        KeyOrder(a[1..], b[1..]);
        assert a == [a[0]] + a[1..] && b == [b[0]] + b[1..];
      } else {
        FieldOrder(a[0], b[0]);
      }
    }
  }

  lemma {:induction false} KeyTransitive(a: Key, b: Key, c: Key)
    requires KeyLeq(a, b) && KeyLeq(b, c)
    ensures KeyLeq(a, c)
  {
    if a != [] && b != [] && c != [] {
      if a[0] == b[0] && b[0] == c[0] {
        KeyTransitive(a[1..], b[1..], c[1..]);
      } else if a[0] != b[0] && b[0] != c[0] {
        FieldTransitive(a[0], b[0], c[0]);
        FieldOrder(a[0], b[0]);
      }
    }
  }

  /** Keys that agree up to some field are ordered by what follows. */
  lemma {:induction false} CommonPrefix(p: Key, a: Key, b: Key)
    ensures KeyLeq(p + a, p + b) <==> KeyLeq(a, b)
  {
    if p == [] {
      assert p + a == a && p + b == b;
    } else {
      assert (p + a)[1..] == p[1..] + a && (p + b)[1..] == p[1..] + b;
      CommonPrefix(p[1..], a, b);
    }
  }

  /** An earlier stamp decides, whatever follows it. */
  lemma StampDecides(s: int, a: Key, t: int, b: Key)
    requires s < t
    ensures KeyLeq([Stamp(s)] + a, [Stamp(t)] + b) && !KeyLeq([Stamp(t)] + b, [Stamp(s)] + a)
  {
    assert Stamp(s)[0] == s && Stamp(t)[0] == t;
  }

  // ----- stable sorting ------------------------------------------------------------------

  function Insert<T>(x: T, s: seq<T>, key: T -> Key): seq<T> {
    if s == [] then [x]
    else if KeyLeq(key(x), key(s[0])) then [x] + s
    else [s[0]] + Insert(x, s[1..], key)
  }

  function SortBy<T>(s: seq<T>, key: T -> Key): seq<T> {
    if s == [] then [] else Insert(s[0], SortBy(s[1..], key), key)
  }

  ghost predicate Ascending<T>(s: seq<T>, key: T -> Key) {
    forall i, j | 0 <= i < j < |s| :: KeyLeq(key(s[i]), key(s[j]))
  }

  lemma {:induction false} InsertAdds<T>(x: T, s: seq<T>, key: T -> Key)
    ensures multiset(Insert(x, s, key)) == multiset{x} + multiset(s)
    ensures forall y <- Insert(x, s, key) :: y == x || y in s
  {
    hide KeyLeq;
    if s != [] {
      assert s == [s[0]] + s[1..];
      InsertAdds(x, s[1..], key);
    }
    forall y <- Insert(x, s, key) ensures y == x || y in s {
      assert y in multiset(Insert(x, s, key));
    }
  }

  lemma {:induction false} InsertKeeps<T>(x: T, s: seq<T>, key: T -> Key)
    requires Ascending(s, key)
    ensures Ascending(Insert(x, s, key), key)
  {
    hide KeyLeq;
    if s == [] {
    } else if KeyLeq(key(x), key(s[0])) {
      forall j | 0 <= j < |s| ensures KeyLeq(key(x), key(s[j])) {
        if j > 0 { KeyTransitive(key(x), key(s[0]), key(s[j])); }
      }
    } else {
      InsertKeeps(x, s[1..], key);
      InsertAdds(x, s[1..], key);
      KeyOrder(key(x), key(s[0]));
      var r := Insert(x, s[1..], key);
      forall j | 0 <= j < |r| ensures KeyLeq(key(s[0]), key(r[j])) {
        assert r[j] == x || r[j] in s[1..];
      }
    }
  }

  lemma {:induction false} SortKeeps<T>(s: seq<T>, key: T -> Key)
    ensures multiset(SortBy(s, key)) == multiset(s)
    ensures |SortBy(s, key)| == |s|
    ensures Ascending(SortBy(s, key), key)
  {
    if s != [] {
      assert s == [s[0]] + s[1..];
      SortKeeps(s[1..], key);
      InsertAdds(s[0], SortBy(s[1..], key), key);
      InsertKeeps(s[0], SortBy(s[1..], key), key);
    }
    assert |multiset(SortBy(s, key))| == |multiset(s)|;
  }

  /** Elements with equal keys stay in the order they came in. */
  ghost predicate TiesBy<T>(s: seq<T>, key: T -> Key, tie: (T, T) -> bool) {
    forall i, j | 0 <= i < j < |s| :: key(s[i]) == key(s[j]) ==> tie(s[i], s[j])
  }

  lemma {:induction false} InsertIsStable<T>(x: T, s: seq<T>, key: T -> Key, tie: (T, T) -> bool)
    requires Ascending(s, key) && TiesBy(s, key, tie)
    requires forall y <- s :: key(x) == key(y) ==> tie(x, y)
    ensures TiesBy(Insert(x, s, key), key, tie)
  {
    if s != [] && !KeyLeq(key(x), key(s[0])) {
      InsertIsStable(x, s[1..], key, tie);
      InsertAdds(x, s[1..], key);
      KeyOrder(key(x), key(x));
      var r := Insert(x, s[1..], key);
      forall j | 0 <= j < |r| && key(s[0]) == key(r[j]) ensures tie(s[0], r[j]) {
        assert r[j] == x || r[j] in s[1..];
      }
    }
  }

  lemma {:induction false} SortIsStable<T>(s: seq<T>, key: T -> Key, tie: (T, T) -> bool)
    requires TiesBy(s, key, tie)
    ensures TiesBy(SortBy(s, key), key, tie)
  {
    if s != [] {
      SortIsStable(s[1..], key, tie);
      SortKeeps(s[1..], key);
      var r := SortBy(s[1..], key);
      forall y <- r ensures key(s[0]) == key(y) ==> tie(s[0], y) {
        assert y in multiset(s[1..]);
      }
      InsertIsStable(s[0], r, key, tie);
    }
  }

  /** The keys of the elements tell the elements apart. */
  ghost predicate Distinguishes<T(!new)>(key: T -> Key, s: seq<T>) {
    forall x <- s, y <- s :: key(x) == key(y) ==> x == y
  }

  lemma SameHead<T(!new)>(a: seq<T>, b: seq<T>, key: T -> Key)
    requires a != [] && b != []
    requires (forall x <- a :: x in b) && (forall x <- b :: x in a)
    requires Ascending(a, key) && Ascending(b, key) && Distinguishes(key, a)
    ensures a[0] == b[0]
  {
    hide KeyLeq;
    assert a[0] in b && b[0] in a;
    var i :| 0 <= i < |b| && b[i] == a[0];
    var j :| 0 <= j < |a| && a[j] == b[0];
    KeyOrder(key(a[0]), key(b[0]));
  }

  lemma TailOf<T(!new)>(a: seq<T>, b: seq<T>, key: T -> Key)
    requires a != [] && b != [] && a[0] == b[0] && multiset(a) == multiset(b)
    requires Ascending(a, key) && Ascending(b, key) && Distinguishes(key, a)
    ensures multiset(a[1..]) == multiset(b[1..])
    ensures Ascending(a[1..], key) && Ascending(b[1..], key) && Distinguishes(key, a[1..])
  {
    hide KeyLeq;
    TailMultiset(a);
    TailMultiset(b);
    forall x <- a[1..] ensures x in a {}
  }

  lemma TailMultiset<T>(a: seq<T>)
    requires a != []
    ensures multiset(a[1..]) == multiset(a) - multiset{a[0]}
  {
    assert a == [a[0]] + a[1..];
  }

  /** Two ascending arrangements of the same elements are the same sequence. */
  lemma {:induction false} AscendingIsUnique<T(!new)>(a: seq<T>, b: seq<T>, key: T -> Key)
    requires multiset(a) == multiset(b)
    requires Ascending(a, key) && Ascending(b, key) && Distinguishes(key, a)
    ensures a == b
  {
    hide KeyLeq, Ascending, Distinguishes;
    assert |a| == |multiset(a)| == |multiset(b)| == |b|;
    if a != [] {
      SameMembers(a, b);
      SameHead(a, b, key);
      TailOf(a, b, key);
      AscendingIsUnique(a[1..], b[1..], key);
      assert a == [a[0]] + a[1..] && b == [b[0]] + b[1..];
    }
  }

  lemma SameMembers<T>(a: seq<T>, b: seq<T>)
    requires multiset(a) == multiset(b)
    ensures (forall x <- a :: x in b) && (forall x <- b :: x in a)
  {
    forall x <- a ensures x in b { assert x in multiset(a); }
    forall x <- b ensures x in a { assert x in multiset(b); }
  }

  /** Sorting an ascending sequence changes nothing. */
  lemma {:induction false} SortIsIdempotent<T>(s: seq<T>, key: T -> Key)
    requires Ascending(s, key)
    ensures SortBy(s, key) == s
  {
    if s != [] {
      SortIsIdempotent(s[1..], key);
      assert s == [s[0]] + s[1..];
    }
  }

  // ----- strictly ascending sequences ----------------------------------------------------------

  ghost predicate Strict<T>(s: seq<T>, key: T -> Key) {
    forall i, j | 0 <= i < j < |s| :: KeyLeq(key(s[i]), key(s[j])) && key(s[i]) != key(s[j])
  }

  lemma StrictHeadsAgree<T>(a: seq<T>, b: seq<T>, key: T -> Key)
    requires a != [] && b != [] && Strict(a, key) && Strict(b, key) && a[0] in b && b[0] in a
    ensures a[0] == b[0]
  {
    hide KeyLeq;
    var i :| 0 <= i < |b| && b[i] == a[0];
    var j :| 0 <= j < |a| && a[j] == b[0];
    KeyOrder(key(a[0]), key(b[0]));
  }

  /** A strictly ascending sequence is determined by its members. */
  lemma {:induction false} StrictIsUnique<T>(a: seq<T>, b: seq<T>, key: T -> Key)
    requires Strict(a, key) && Strict(b, key)
    requires (forall x <- a :: x in b) && (forall x <- b :: x in a)
    ensures a == b
  {
    hide KeyLeq;
    if a == [] {
      assert forall i | 0 <= i < |b| :: b[i] in a;
    } else {
      assert a[0] in b;
      StrictHeadsAgree(a, b, key);
      forall x <- a[1..] ensures x in b[1..] { TailMember(a, b, key, x); }
      forall x <- b[1..] ensures x in a[1..] { TailMember(b, a, key, x); }
      StrictIsUnique(a[1..], b[1..], key);
      assert a == [a[0]] + a[1..] && b == [b[0]] + b[1..];
    }
  }

  lemma TailMember<T>(a: seq<T>, b: seq<T>, key: T -> Key, x: T)
    requires a != [] && b != [] && a[0] == b[0] && Strict(a, key) && x in a[1..] && x in b
    ensures x in b[1..]
  {
    hide KeyLeq;
    var i :| 0 <= i < |a[1..]| && a[1..][i] == x;
    assert a[i + 1] == x && key(a[0]) != key(x);
    var j :| 0 <= j < |b| && b[j] == x;
    assert b[1..][j - 1] == x;
  }

  /** Different keys of equal length decide, whatever follows. */
  lemma {:induction false} PrefixDecides(p: Key, a: Key, q: Key, b: Key)
    requires |p| == |q| && p != q && KeyLeq(p, q)
    ensures KeyLeq(p + a, q + b)
  {
    if p[0] == q[0] {
      assert (p + a)[1..] == p[1..] + a && (q + b)[1..] == q[1..] + b;
      assert p == [p[0]] + p[1..] && q == [q[0]] + q[1..];
      PrefixDecides(p[1..], a, q[1..], b);
    }
  }
}
