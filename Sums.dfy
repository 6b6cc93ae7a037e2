/** Sums of real-valued terms over a sequence, and over the part of it whose
    key equals a given value. The ledger's aggregates (`SUM(...)` and
    `GROUP BY`) are all of this shape. Every sum peels off the LAST element,
    so appending one row to a table adds one term. */
module Sums {

  /** Absolute value, as SQL's `ABS` and Python's `abs` on reals. */
  function Abs(x: real): real {
    if x < 0.0 then -x else x
  }

  function Sum<T>(s: seq<T>, f: T -> real): real {
    if s == [] then 0.0 else Sum(s[..|s| - 1], f) + f(s[|s| - 1])
  }

  /** `SUM(f) ... WHERE key = k`. */
  function SumAt<T, K(==)>(s: seq<T>, key: T -> K, k: K, f: T -> real): real {
    if s == [] then 0.0
    else SumAt(s[..|s| - 1], key, k, f) + (if key(s[|s| - 1]) == k then f(s[|s| - 1]) else 0.0)
  }

  /** The per-key sums of a `GROUP BY key`, added up over the keys `ks`. */
  function SumByKeys<T, K(==)>(s: seq<T>, key: T -> K, ks: seq<K>, f: T -> real): real {
    if ks == [] then 0.0 else SumByKeys(s, key, ks[..|ks| - 1], f) + SumAt(s, key, ks[|ks| - 1], f)
  }

  predicate NoDup<K(==)>(ks: seq<K>) {
    forall i, j :: 0 <= i < j < |ks| ==> ks[i] != ks[j]
  }

  lemma {:induction false} SumAppend<T>(a: seq<T>, b: seq<T>, f: T -> real)
    ensures Sum(a + b, f) == Sum(a, f) + Sum(b, f)
  {
    if b == [] {
      assert a + b == a;
    } else {
      SumAppend(a, b[..|b| - 1], f);
      assert (a + b)[..|a + b| - 1] == a + b[..|b| - 1];
    }
  }

  lemma {:induction false} SumAtAppend<T, K>(a: seq<T>, b: seq<T>, key: T -> K, k: K, f: T -> real)
    ensures SumAt(a + b, key, k, f) == SumAt(a, key, k, f) + SumAt(b, key, k, f)
  {
    if b == [] {
      assert a + b == a;
    } else {
      SumAtAppend(a, b[..|b| - 1], key, k, f);
      assert (a + b)[..|a + b| - 1] == a + b[..|b| - 1];
    }
  }

  /** The terms of one element can be taken out of the sum wherever it sits. */
  lemma SumAtRemove<T, K>(s: seq<T>, i: nat, key: T -> K, k: K, f: T -> real)
    requires i < |s|
    ensures SumAt(s, key, k, f)
         == SumAt(s[..i] + s[i + 1..], key, k, f) + (if key(s[i]) == k then f(s[i]) else 0.0)
  {
    assert s == s[..i] + ([s[i]] + s[i + 1..]);
    SumAtAppend(s[..i], [s[i]] + s[i + 1..], key, k, f);
    SumAtAppend([s[i]], s[i + 1..], key, k, f);
    SumAtAppend(s[..i], s[i + 1..], key, k, f);
    assert [s[i]][..0] == [];
  }

  /** A keyed sum does not depend on the order of the rows. */
  lemma {:induction false} SumAtPermutation<T, K>(a: seq<T>, b: seq<T>, key: T -> K, k: K, f: T -> real)
    requires multiset(a) == multiset(b)
    ensures SumAt(a, key, k, f) == SumAt(b, key, k, f)
    decreases |a|
  {
    if a != [] {
      var x := a[|a| - 1];
      assert x in multiset(a);
      var i :| 0 <= i < |b| && b[i] == x;
      MultisetWithoutLast(a, b, i);
      SumAtPermutation(a[..|a| - 1], b[..i] + b[i + 1..], key, k, f);
      SumAtRemove(b, i, key, k, f);
    } else {
      assert |b| == |multiset(b)| == 0;
    }
  }

  /** Taking the last element out of `a` and one equal element out of `b`
      leaves equal multisets. */
  lemma MultisetWithoutLast<T>(a: seq<T>, b: seq<T>, i: nat)
    requires a != [] && multiset(a) == multiset(b) && i < |b| && b[i] == a[|a| - 1]
    ensures multiset(a[..|a| - 1]) == multiset(b[..i] + b[i + 1..])
  {
    var x := a[|a| - 1];
    var a', b1, b2 := a[..|a| - 1], b[..i], b[i + 1..];
    assert a == a' + [x];
    assert b == b1 + ([x] + b2);
    assert multiset(a) == multiset(a') + multiset{x};
    assert multiset(b) == multiset(b1) + multiset{x} + multiset(b2);
    assert multiset(b1 + b2) == multiset(b1) + multiset(b2);
    assert multiset(a') == multiset(a) - multiset{x};
    assert multiset(b1) + multiset(b2) == multiset(b) - multiset{x};
  }

  /** One more row adds its term to the group of its key, if that key is listed. */
  lemma {:induction false} SumByKeysSnoc<T, K>(s: seq<T>, x: T, key: T -> K, ks: seq<K>, f: T -> real)
    requires NoDup(ks)
    ensures SumByKeys(s + [x], key, ks, f)
         == SumByKeys(s, key, ks, f) + (if key(x) in ks then f(x) else 0.0)
  {
    assert (s + [x])[..|s|] == s;
    if ks != [] {
      var ks' := ks[..|ks| - 1];
      assert NoDup(ks');
      SumByKeysSnoc(s, x, key, ks', f);
      assert key(x) in ks <==> key(x) in ks' || key(x) == ks[|ks| - 1];
      assert ks[|ks| - 1] !in ks';
    }
  }

  /** Adding up the `GROUP BY` sums over every key that occurs, each key once,
      gives the sum over all rows. */
  lemma {:induction false} Regroup<T, K>(s: seq<T>, key: T -> K, ks: seq<K>, f: T -> real)
    requires NoDup(ks)
    requires forall i :: 0 <= i < |s| ==> key(s[i]) in ks
    ensures SumByKeys(s, key, ks, f) == Sum(s, f)
  {
    if s == [] {
      SumByKeysOfNothing(key, ks, f);
    } else {
      var s' := s[..|s| - 1];
      assert s == s' + [s[|s| - 1]];
      Regroup(s', key, ks, f);
      SumByKeysSnoc(s', s[|s| - 1], key, ks, f);
    }
  }

  lemma {:induction false} SumByKeysOfNothing<T, K>(key: T -> K, ks: seq<K>, f: T -> real)
    ensures SumByKeys([], key, ks, f) == 0.0
  {
    if ks != [] {
      SumByKeysOfNothing(key, ks[..|ks| - 1], f);
    }
  }

  /** A keyed sum whose selected terms are all zero is zero. */
  lemma {:induction false} SumAtZero<T, K>(s: seq<T>, key: T -> K, k: K, f: T -> real)
    requires forall i :: 0 <= i < |s| && key(s[i]) == k ==> f(s[i]) == 0.0
    ensures SumAt(s, key, k, f) == 0.0
  {
    if s != [] {
      SumAtZero(s[..|s| - 1], key, k, f);
    }
  }

  /** A keyed sum of non-negative terms is non-negative. */
  lemma {:induction false} SumAtNonNegative<T, K>(s: seq<T>, key: T -> K, k: K, f: T -> real)
    requires forall i :: 0 <= i < |s| ==> f(s[i]) >= 0.0
    ensures SumAt(s, key, k, f) >= 0.0
  {
    if s != [] {
      SumAtNonNegative(s[..|s| - 1], key, k, f);
    }
  }
}
