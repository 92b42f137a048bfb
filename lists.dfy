/** Python list operations the reconciliation engine is built from: lookup of
    the first and the last position of a value, order-preserving removal of
    repeats, and list comprehensions that filter by membership in another
    list. */
module Lists {

  predicate NoDup<T(==)>(s: seq<T>)
  {
    forall i, j :: 0 <= i < j < |s| ==> s[i] != s[j]
  }

  /** `s.index(x)`: the position of the first occurrence of `x`. */
  function FirstIndex<T(==)>(s: seq<T>, x: T): (r: nat)
    requires x in s
    ensures r < |s| && s[r] == x
    ensures forall j :: 0 <= j < r ==> s[j] != x
  {
    if s[0] == x then 0 else 1 + FirstIndex(s[1..], x)
  }

  /** The position of the last occurrence of `x`. */
  function LastIndex<T(==)>(s: seq<T>, x: T): (r: nat)
    requires x in s
    ensures r < |s| && s[r] == x
    ensures forall j :: r < j < |s| ==> s[j] != x
  {
    if s[|s| - 1] == x then |s| - 1
    else
      assert s == s[..|s| - 1] + [s[|s| - 1]];
      LastIndex(s[..|s| - 1], x)
  }

  /** A value found in a prefix has its first occurrence inside that prefix. */
  lemma {:induction false} FirstIndexInPrefix<T>(s: seq<T>, n: nat, x: T)
    requires n <= |s| && x in s[..n]
    ensures x in s && FirstIndex(s, x) == FirstIndex(s[..n], x)
  {
    var k := FirstIndex(s[..n], x);
    assert s[k] == s[..n][k];
  }

  /** The distinct values of `s` in the order of their first occurrence
      (the keys of a dict filled from `s`, leftmost insertion first). */
  function Distinct<T(==,!new)>(s: seq<T>): (r: seq<T>)
    ensures NoDup(r)
    ensures forall x :: x in r <==> x in s
  {
    if |s| == 0 then []
    else
      var init := s[..|s| - 1];
      var d := Distinct(init);
      assert s == init + [s[|s| - 1]];
      if s[|s| - 1] in init then d else d + [s[|s| - 1]]
  }

  /** One more element either extends the distinct prefix or repeats a
      value already listed. */
  lemma DistinctStep<T(!new)>(s: seq<T>, i: nat)
    requires i < |s|
    ensures Distinct(s[..i + 1]) == if s[i] in s[..i] then Distinct(s[..i]) else Distinct(s[..i]) + [s[i]]
  {
    assert s[..i + 1][..i] == s[..i];
    assert s[..i + 1][i] == s[i];
  }

  /** The last occurrence in a longer prefix is the new element or the last
      occurrence before it. */
  lemma LastIndexStep<T>(s: seq<T>, i: nat, x: T)
    requires i < |s| && x in s[..i + 1]
    ensures x != s[i] ==> x in s[..i]
    ensures LastIndex(s[..i + 1], x) == if x == s[i] then i else LastIndex(s[..i], x)
  {
    assert s[..i + 1][..i] == s[..i];
    assert s[..i + 1][i] == s[i];
  }

  /** `Distinct` lists values by increasing position of first occurrence. */
  lemma {:induction false} DistinctFirstOccurrenceOrder<T(!new)>(s: seq<T>)
    ensures forall a, b :: 0 <= a < b < |Distinct(s)| ==>
      FirstIndex(s, Distinct(s)[a]) < FirstIndex(s, Distinct(s)[b])
  {
    if |s| > 0 {
      DistinctFirstOccurrenceOrder(s[..|s| - 1]);
      FirstOccurrenceOrderStep(s, s[..|s| - 1]);
    }
  }

  /** One more element keeps `Distinct` in first-occurrence order. */
  lemma FirstOccurrenceOrderStep<T(!new)>(s: seq<T>, init: seq<T>)
    requires |s| > 0 && init == s[..|s| - 1]
    requires forall a, b :: 0 <= a < b < |Distinct(init)| ==>
      FirstIndex(init, Distinct(init)[a]) < FirstIndex(init, Distinct(init)[b])
    ensures forall a, b :: 0 <= a < b < |Distinct(s)| ==>
      FirstIndex(s, Distinct(s)[a]) < FirstIndex(s, Distinct(s)[b])
  {
    var n := |s| - 1;
    var d := Distinct(init);
    var r := Distinct(s);
    forall x | x in d ensures x in s && FirstIndex(s, x) == FirstIndex(init, x) {
      FirstIndexInPrefix(s, n, x);
    }
    if s[n] in init {
      assert r == d;
    } else {
      assert r == d + [s[n]];
      assert FirstIndex(s, s[n]) == n by {
        forall j | 0 <= j < n ensures s[j] != s[n] { assert s[j] == init[j]; }
      }
      forall a, b | 0 <= a < b < |r| ensures FirstIndex(s, r[a]) < FirstIndex(s, r[b]) {
        assert r[a] == d[a];
        if b < |d| {
          assert r[b] == d[b];
        } else {
          assert r[b] == s[n];
        }
      }
    }
  }

  /** The comprehension `[x for x in s if (x in t) == member]`: the elements
      of `s` that are (or, with `member` false, are not) in `t`, each kept as
      often as it occurs. */
  function Filter<T(==,!new)>(s: seq<T>, t: seq<T>, member: bool): (r: seq<T>)
    ensures forall x :: x in r <==> x in s && (x in t) == member
    ensures |r| <= |s|
  {
    if |s| == 0 then []
    else
      var init := s[..|s| - 1];
      var last := s[|s| - 1];
      assert s == init + [last];
      if (last in t) == member then Filter(init, t, member) + [last] else Filter(init, t, member)
  }

  /** Each value that passes the test is kept as often as it occurs in `s`;
      the others are dropped entirely. */
  lemma {:induction false} FilterMultiplicity<T(!new)>(s: seq<T>, t: seq<T>, member: bool)
    ensures forall x :: multiset(Filter(s, t, member))[x] == if (x in t) == member then multiset(s)[x] else 0
  {
    if |s| > 0 {
      var init := s[..|s| - 1];
      var last := s[|s| - 1];
      FilterMultiplicity(init, t, member);
      assert s == init + [last];
      assert multiset(s) == multiset(init) + multiset([last]);
    }
  }

  /** Nothing passes the test: the comprehension is empty. */
  lemma {:induction false} FilterNone<T(!new)>(s: seq<T>, t: seq<T>, member: bool)
    requires forall i :: 0 <= i < |s| ==> (s[i] in t) != member
    ensures Filter(s, t, member) == []
  {
    if |s| > 0 {
      FilterNone(s[..|s| - 1], t, member);
    }
  }

  /** One more element of `s` either extends the filtered prefix or not. */
  lemma FilterStep<T(!new)>(s: seq<T>, i: nat, t: seq<T>, member: bool)
    requires i < |s|
    ensures Filter(s[..i + 1], t, member) ==
      if (s[i] in t) == member then Filter(s[..i], t, member) + [s[i]] else Filter(s[..i], t, member)
  {
    assert s[..i + 1][..i] == s[..i];
  }

  /** Filtering keeps the order of `s`: it commutes with concatenation. */
  lemma {:induction false} FilterAppend<T(!new)>(a: seq<T>, b: seq<T>, t: seq<T>, member: bool)
    ensures Filter(a + b, t, member) == Filter(a, t, member) + Filter(b, t, member)
    decreases |b|
  {
    if |b| == 0 {
      assert a + b == a;
    } else {
      var b' := b[..|b| - 1];
      assert (a + b)[..|a + b| - 1] == a + b';
      assert (a + b)[|a + b| - 1] == b[|b| - 1];
      FilterAppend(a, b', t, member);
    }
  }
}
