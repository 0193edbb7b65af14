/**
  Filtering, the first least element of a sequence, and how a stable sort treats
  both. The first least element is what a stable sort puts in front.
 */
module MdLeast {
  import opened MdKeys

  // ----- filtering -----------------------------------------------------------------------------

  function Keep<T>(s: seq<T>, p: T -> bool): seq<T> {
    if s == [] then [] else (if p(s[0]) then [s[0]] else []) + Keep(s[1..], p)
  }

  lemma {:induction false} KeepMember<T>(s: seq<T>, p: T -> bool, x: T)
    ensures x in Keep(s, p) <==> x in s && p(x)
  {
    if s != [] {
      assert s == [s[0]] + s[1..];
      KeepMember(s[1..], p, x);
    }
  }

  lemma {:induction false} KeepConcat<T>(a: seq<T>, b: seq<T>, p: T -> bool)
    ensures Keep(a + b, p) == Keep(a, p) + Keep(b, p)
  {
    if a == [] {
      assert a + b == b;
    } else {
      assert (a + b)[1..] == a[1..] + b;
      KeepConcat(a[1..], b, p);
    }
  }

  lemma {:induction false} KeepTwice<T>(s: seq<T>, p: T -> bool, q: T -> bool)
    ensures Keep(Keep(s, p), q) == Keep(Keep(s, q), p)
  {
    if s != [] {
      KeepTwice(s[1..], p, q);
      var kp, kq := Keep(s[1..], p), Keep(s[1..], q);
      assert ([s[0]] + kp)[1..] == kp && ([s[0]] + kq)[1..] == kq;
      assert [] + kp == kp && [] + kq == kq;
    }
  }

  /** An element goes to the same place among those kept. */
  lemma {:induction false} InsertKept<T>(x: T, s: seq<T>, key: T -> Key, p: T -> bool)
    requires Ascending(s, key)
    ensures Keep(Insert(x, s, key), p) == if p(x) then Insert(x, Keep(s, p), key) else Keep(s, p)
  {
    hide KeyLeq;
    if s == [] {
      assert Keep([x], p) == (if p(x) then [x] else []) + Keep([], p);
    } else if KeyLeq(key(x), key(s[0])) {
      assert ([x] + s)[1..] == s;
      InsertInFront(x, s, key, p);
    } else {
      var r := Insert(x, s[1..], key);
      assert ([s[0]] + r)[1..] == r;
      InsertKept(x, s[1..], key, p);
      var k := Keep(s[1..], p);
      assert ([s[0]] + k)[1..] == k;
      assert [] + k == k;
    }
  }

  lemma InsertInFront<T>(x: T, s: seq<T>, key: T -> Key, p: T -> bool)
    requires Ascending(s, key) && s != [] && KeyLeq(key(x), key(s[0]))
    ensures Insert(x, Keep(s, p), key) == [x] + Keep(s, p)
  {
    hide KeyLeq;
    var k := Keep(s, p);
    if k != [] {
      KeepMember(s, p, k[0]);
      var i :| 0 <= i < |s| && s[i] == k[0];
      if i > 0 { KeyTransitive(key(x), key(s[0]), key(s[i])); }
    }
  }

  /** Sorting and filtering commute. */
  lemma {:induction false} SortKept<T>(s: seq<T>, key: T -> Key, p: T -> bool)
    ensures Keep(SortBy(s, key), p) == SortBy(Keep(s, p), key)
  {
    hide KeyLeq, Insert;
    if s != [] {
      SortKept(s[1..], key, p);
      SortKeeps(s[1..], key);
      InsertKept(s[0], SortBy(s[1..], key), key, p);
      var k := Keep(s[1..], p);
      assert ([s[0]] + k)[1..] == k;
      assert [] + k == k;
    }
  }

  // ----- the first least element ------------------------------------------------------------------

  function Least<T>(s: seq<T>, key: T -> Key): T
    requires s != []
  {
    if |s| == 1 then s[0]
    else
      var m := Least(s[1..], key);
      if KeyLeq(key(s[0]), key(m)) then s[0] else m
  }

  lemma {:induction false} SortedHead<T>(s: seq<T>, key: T -> Key)
    requires s != []
    ensures SortBy(s, key) != [] && SortBy(s, key)[0] == Least(s, key)
  {
    hide KeyLeq;
    if |s| == 1 {
      assert SortBy(s[1..], key) == [];
    } else {
      SortedHead(s[1..], key);
    }
  }

  /** No element is below it, and every earlier one is strictly above it. */
  lemma {:induction false} LeastMeans<T>(s: seq<T>, key: T -> Key) returns (k: nat)
    requires s != []
    ensures k < |s| && s[k] == Least(s, key)
    ensures forall j :: 0 <= j < |s| ==> KeyLeq(key(s[k]), key(s[j]))
    ensures forall j :: 0 <= j < k ==> !KeyLeq(key(s[j]), key(s[k]))
  {
    hide KeyLeq;
    KeyOrder(key(s[0]), key(s[0]));
    if |s| == 1 {
      k := 0;
    } else {
      var i := LeastMeans(s[1..], key);
      KeyOrder(key(s[0]), key(s[1..][i]));
      k := if KeyLeq(key(s[0]), key(s[1..][i])) then 0 else i + 1;
      forall j | 0 <= j < |s| ensures KeyLeq(key(s[k]), key(s[j])) {
        if j > 0 {
          assert s[j] == s[1..][j - 1];
          if k == 0 { KeyTransitive(key(s[0]), key(s[1..][i]), key(s[j])); }
        }
      }
      forall j | 0 <= j < k ensures !KeyLeq(key(s[j]), key(s[k])) {
        if j > 0 { assert s[j] == s[1..][j - 1]; }
      }
    }
  }

  lemma LeastIsIn<T>(s: seq<T>, key: T -> Key)
    requires s != []
    ensures Least(s, key) in s
  {
    hide Least;
    var k := LeastMeans(s, key);
  }

  lemma {:induction false} LeastConcat<T>(a: seq<T>, b: seq<T>, key: T -> Key)
    requires a != [] && b != []
    ensures Least(a + b, key) ==
            if KeyLeq(key(Least(a, key)), key(Least(b, key))) then Least(a, key) else Least(b, key)
  {
    hide KeyLeq;
    assert (a + b)[1..] == a[1..] + b;
    if |a| > 1 {
      LeastConcat(a[1..], b, key);
      var x, m, n := a[0], Least(a[1..], key), Least(b, key);
      KeyOrder(key(x), key(m));
      KeyOrder(key(m), key(n));
      KeyOrder(key(x), key(n));
      if KeyLeq(key(x), key(m)) && KeyLeq(key(m), key(n)) { KeyTransitive(key(x), key(m), key(n)); }
      if KeyLeq(key(m), key(x)) && KeyLeq(key(x), key(n)) { KeyTransitive(key(m), key(x), key(n)); }
      if KeyLeq(key(n), key(m)) && KeyLeq(key(x), key(n)) { KeyTransitive(key(x), key(n), key(m)); }
    } else {
      assert a + b == [a[0]] + b;
      assert a[1..] + b == b;
    }
  }

  /** Two keys that order the elements alike pick the same one. */
  lemma {:induction false} LeastAlike<T>(s: seq<T>, k1: T -> Key, k2: T -> Key)
    requires s != []
    requires forall x <- s, y <- s :: KeyLeq(k1(x), k1(y)) <==> KeyLeq(k2(x), k2(y))
    ensures Least(s, k1) == Least(s, k2)
  {
    hide KeyLeq;
    if |s| > 1 {
      LeastAlike(s[1..], k1, k2);
      LeastIsIn(s[1..], k1);
      assert Least(s[1..], k1) in s && s[0] in s;
    }
  }

  /** Leaving out elements strictly above all others does not change it. */
  lemma {:induction false} LeastAmongKept<T>(s: seq<T>, key: T -> Key, p: T -> bool)
    requires Keep(s, p) != []
    requires forall x <- s, y <- s :: p(x) && !p(y) ==> KeyLeq(key(x), key(y)) && !KeyLeq(key(y), key(x))
    ensures Least(s, key) == Least(Keep(s, p), key)
  {
    hide KeyLeq;
    var rest := Keep(s[1..], p);
    if |s| > 1 {
      LeastIsIn(s[1..], key);
      var m := Least(s[1..], key);
      assert m in s && s[0] in s;
      if rest == [] {
        KeepMember(s[1..], p, m);
        assert Keep(s, p) == [s[0]];
      } else {
        LeastAmongKept(s[1..], key, p);
        LeastIsIn(rest, key);
        KeepMember(s[1..], p, m);
        assert ([s[0]] + rest)[1..] == rest;
        assert [] + rest == rest;
      }
    } else {
      assert Keep(s[1..], p) == [];
    }
  }
}
