/** `itertools.combinations` and the generator built on it: all non-empty
    combinations of a token list, size 1 first, then size 2, and so on.
    Alongside the token-level definition sits an index-level one
    (`ChooseIndices`), so that "index-increasing selection", "in lexicographic
    order of index tuples" and "each index set exactly once" can be stated
    and proved. */
module Combinations {
  import opened Lists

  /** `list(itertools.combinations(s, k))`: combinations containing `s[0]`
      come first (in the order of the combinations of the rest), then those
      without it. */
  function Choose<T>(s: seq<T>, k: nat): (r: seq<seq<T>>)
    ensures forall i :: 0 <= i < |r| ==> |r[i]| == k
    decreases |s|
  {
    if k == 0 then [[]]
    else if |s| == 0 then []
    else Prefixed(s[0], Choose(s[1..], k - 1)) + Choose(s[1..], k)
  }

  function Prefixed<T>(x: T, cs: seq<seq<T>>): (r: seq<seq<T>>)
    ensures |r| == |cs|
    ensures forall i :: 0 <= i < |r| ==> r[i] == [x] + cs[i]
  {
    seq(|cs|, i requires 0 <= i < |cs| => [x] + cs[i])
  }

  /** The combinations of sizes 1 to `k`, grouped by increasing size. */
  function Levels<T>(s: seq<T>, k: nat): seq<seq<T>>
  {
    if k == 0 then [] else Levels(s, k - 1) + Choose(s, k)
  }

  /** What the loop over `r in range(1, len(s) + 1)` collects. */
  function AllCombinations<T>(s: seq<T>): (r: seq<seq<T>>)
    ensures forall i :: 0 <= i < |r| ==> 1 <= |r[i]| <= |s|
  {
    LevelsSizes(s, |s|);
    Levels(s, |s|)
  }

  // ---------------------------------------------------------------- counting

  function Binom(n: nat, k: nat): nat
  {
    if k == 0 then 1 else if n == 0 then 0 else Binom(n - 1, k - 1) + Binom(n - 1, k)
  }

  /** Binom(n, 0) + ... + Binom(n, k - 1). */
  function BinomPrefixSum(n: nat, k: nat): nat
  {
    if k == 0 then 0 else BinomPrefixSum(n, k - 1) + Binom(n, k - 1)
  }

  function Pow2(n: nat): nat
  {
    if n == 0 then 1 else 2 * Pow2(n - 1)
  }

  lemma {:induction false} ChooseCount<T>(s: seq<T>, k: nat)
    ensures |Choose(s, k)| == Binom(|s|, k)
    decreases |s|
  {
    if k > 0 && |s| > 0 {
      ChooseCount(s[1..], k - 1);
      ChooseCount(s[1..], k);
    }
  }

  lemma {:induction false} BinomAbove(n: nat, k: nat)
    requires k > n
    ensures Binom(n, k) == 0
  {
    if n > 0 {
      BinomAbove(n - 1, k - 1);
      BinomAbove(n - 1, k);
    }
  }

  lemma {:induction false} PascalSum(n: nat, k: nat)
    requires n >= 1 && k >= 1
    ensures BinomPrefixSum(n, k) == BinomPrefixSum(n - 1, k) + BinomPrefixSum(n - 1, k - 1)
  {
    if k >= 2 {
      PascalSum(n, k - 1);
    }
  }

  lemma {:induction false} BinomRowSum(n: nat)
    ensures BinomPrefixSum(n, n + 1) == Pow2(n)
  {
    if n > 0 {
      PascalSum(n, n + 1);
      BinomAbove(n - 1, n);
      BinomRowSum(n - 1);
    }
  }

  lemma {:induction false} LevelsCount<T>(s: seq<T>, k: nat)
    ensures |Levels(s, k)| + 1 == BinomPrefixSum(|s|, k + 1)
  {
    if k > 0 {
      LevelsCount(s, k - 1);
      ChooseCount(s, k);
    }
  }

  /** n tokens give 2^n - 1 combinations; no tokens give none. */
  lemma AllCombinationsCount<T>(s: seq<T>)
    ensures |AllCombinations(s)| == Pow2(|s|) - 1
    ensures |s| == 0 ==> AllCombinations(s) == []
  {
    LevelsCount(s, |s|);
    BinomRowSum(|s|);
  }

  /** Sizes run from 1 to k and never decrease along the output: every
      size-r combination precedes every size-(r+1) one. */
  lemma {:induction false} LevelsSizes<T>(s: seq<T>, k: nat)
    ensures forall i :: 0 <= i < |Levels(s, k)| ==> 1 <= |Levels(s, k)[i]| <= k
    ensures forall i, j :: 0 <= i < j < |Levels(s, k)| ==> |Levels(s, k)[i]| <= |Levels(s, k)[j]|
  {
    if k > 0 {
      LevelsSizes(s, k - 1);
      SizesAppend(Levels(s, k - 1), Choose(s, k), k);
    }
  }

  lemma SizesAppend<T>(a: seq<seq<T>>, c: seq<seq<T>>, k: nat)
    requires k > 0
    requires forall i :: 0 <= i < |a| ==> 1 <= |a[i]| <= k - 1
    requires forall i, j :: 0 <= i < j < |a| ==> |a[i]| <= |a[j]|
    requires forall i :: 0 <= i < |c| ==> |c[i]| == k
    ensures forall i :: 0 <= i < |a + c| ==> 1 <= |(a + c)[i]| <= k
    ensures forall i, j :: 0 <= i < j < |a + c| ==> |(a + c)[i]| <= |(a + c)[j]|
  {
    var l := a + c;
    forall i | 0 <= i < |l| ensures 1 <= |l[i]| <= k {
      if i < |a| { assert l[i] == a[i]; } else { assert l[i] == c[i - |a|]; }
    }
    forall i, j | 0 <= i < j < |l| ensures |l[i]| <= |l[j]| {
      if j < |a| {
        assert l[i] == a[i] && l[j] == a[j];
      } else if i < |a| {
        assert l[i] == a[i] && l[j] == c[j - |a|];
      } else {
        assert l[i] == c[i - |a|] && l[j] == c[j - |a|];
      }
    }
  }

  // ------------------------------------------------------------ index level

  /** `x` lists `k` strictly increasing positions drawn from [lo, hi). */
  predicate IsSelection(x: seq<nat>, lo: nat, hi: nat, k: nat)
  {
    && |x| == k
    && (forall j :: 0 <= j < |x| ==> lo <= x[j] < hi)
    && (forall i, j :: 0 <= i < j < |x| ==> x[i] < x[j])
  }

  /** `itertools.combinations(range(lo, hi), k)`. */
  function ChooseIndices(lo: nat, hi: nat, k: nat): (r: seq<seq<nat>>)
    ensures forall i :: 0 <= i < |r| ==> IsSelection(r[i], lo, hi, k)
    decreases hi - lo
  {
    if k == 0 then [[]]
    else if lo >= hi then []
    else
      var a := ChooseIndices(lo + 1, hi, k - 1);
      var b := ChooseIndices(lo + 1, hi, k);
      SelectionsPrefixed(a, lo, hi, k - 1);
      Prefixed(lo, a) + b
  }

  lemma SelectionsPrefixed(a: seq<seq<nat>>, lo: nat, hi: nat, k: nat)
    requires lo < hi
    requires forall i :: 0 <= i < |a| ==> IsSelection(a[i], lo + 1, hi, k)
    ensures forall i :: 0 <= i < |a| ==> IsSelection(Prefixed(lo, a)[i], lo, hi, k + 1)
  {
    forall i | 0 <= i < |a| ensures IsSelection(Prefixed(lo, a)[i], lo, hi, k + 1) {
      var x := Prefixed(lo, a)[i];
      assert x == [lo] + a[i];
      forall j | 1 <= j < |x| ensures x[j] == a[i][j - 1] { }
    }
  }

  /** A strictly increasing selection fits in its range. */
  lemma {:induction false} SelectionLength(x: seq<nat>, lo: nat, hi: nat, k: nat)
    requires IsSelection(x, lo, hi, k)
    ensures k > 0 ==> lo + k <= hi
    decreases k
  {
    if k > 0 {
      TailSelection(x, lo, hi, k);
      SelectionLength(x[1..], x[0] + 1, hi, k - 1);
      assert lo <= x[0];
    }
  }

  /** Picks the tokens at the selected positions. */
  function Pick<T>(s: seq<T>, x: seq<nat>): (r: seq<T>)
    requires forall j :: 0 <= j < |x| ==> x[j] < |s|
    ensures |r| == |x|
  {
    seq(|x|, j requires 0 <= j < |x| => s[x[j]])
  }

  ghost predicate InRange(xs: seq<seq<nat>>, n: nat)
  {
    forall i, j :: 0 <= i < |xs| && 0 <= j < |xs[i]| ==> xs[i][j] < n
  }

  function PickAll<T>(s: seq<T>, xs: seq<seq<nat>>): (r: seq<seq<T>>)
    requires InRange(xs, |s|)
    ensures |r| == |xs|
  {
    seq(|xs|, i requires 0 <= i < |xs| => Pick(s, xs[i]))
  }

  lemma PickAllAppend<T>(s: seq<T>, xs: seq<seq<nat>>, ys: seq<seq<nat>>)
    requires InRange(xs, |s|) && InRange(ys, |s|)
    ensures InRange(xs + ys, |s|)
    ensures PickAll(s, xs + ys) == PickAll(s, xs) + PickAll(s, ys)
  {
    assert InRange(xs + ys, |s|) by {
      forall i, j | 0 <= i < |xs + ys| && 0 <= j < |(xs + ys)[i]| ensures (xs + ys)[i][j] < |s| {
        if i >= |xs| { assert (xs + ys)[i] == ys[i - |xs|]; }
      }
    }
  }

  lemma PickAllPrefixed<T>(s: seq<T>, lo: nat, xs: seq<seq<nat>>)
    requires lo < |s| && InRange(xs, |s|)
    ensures InRange(Prefixed(lo, xs), |s|)
    ensures PickAll(s, Prefixed(lo, xs)) == Prefixed(s[lo], PickAll(s, xs))
  {
    var p := Prefixed(lo, xs);
    assert InRange(p, |s|) by {
      forall i, j | 0 <= i < |p| && 0 <= j < |p[i]| ensures p[i][j] < |s| {
        assert p[i] == [lo] + xs[i];
      }
    }
    forall i | 0 <= i < |xs| ensures Pick(s, p[i]) == [s[lo]] + Pick(s, xs[i]) {
      assert p[i] == [lo] + xs[i];
    }
  }

  lemma ChooseIndicesInRange(lo: nat, hi: nat, k: nat)
    ensures InRange(ChooseIndices(lo, hi, k), hi)
  {
    var c := ChooseIndices(lo, hi, k);
    forall i, j | 0 <= i < |c| && 0 <= j < |c[i]| ensures c[i][j] < hi {
      assert IsSelection(c[i], lo, hi, k);
    }
  }

  /** The token-level definition is the index-level one read through `s`. */
  lemma {:induction false} ChooseIsPick<T>(s: seq<T>, lo: nat, k: nat)
    requires lo <= |s|
    ensures InRange(ChooseIndices(lo, |s|, k), |s|)
    ensures Choose(s[lo..], k) == PickAll(s, ChooseIndices(lo, |s|, k))
    decreases |s| - lo
  {
    ChooseIndicesInRange(lo, |s|, k);
    var c := ChooseIndices(lo, |s|, k);
    var t := s[lo..];
    if k == 0 {
      assert c == [[]];
      assert Pick(s, []) == [];
      assert PickAll(s, c) == [[]];
    } else if lo == |s| {
      assert c == [];
      assert t == [];
    } else {
      assert t[0] == s[lo] && t[1..] == s[lo + 1..];
      ChooseIsPick(s, lo + 1, k - 1);
      ChooseIsPick(s, lo + 1, k);
      var a := ChooseIndices(lo + 1, |s|, k - 1);
      var b := ChooseIndices(lo + 1, |s|, k);
      assert c == Prefixed(lo, a) + b;
      assert Choose(t, k) == Prefixed(s[lo], Choose(s[lo + 1..], k - 1)) + Choose(s[lo + 1..], k);
      PickAllPrefixed(s, lo, a);
      PickAllAppend(s, Prefixed(lo, a), b);
    }
  }

  /** Strict lexicographic order on index tuples. */
  predicate LexLess(a: seq<nat>, b: seq<nat>)
  {
    |b| > 0 && (|a| == 0 || a[0] < b[0] || (a[0] == b[0] && LexLess(a[1..], b[1..])))
  }

  lemma {:induction false} LexLessIrreflexive(a: seq<nat>)
    ensures !LexLess(a, a)
  {
    if |a| > 0 {
      LexLessIrreflexive(a[1..]);
    }
  }

  /** Within one size, index tuples come in strictly increasing
      lexicographic order. */
  lemma {:induction false} ChooseIndicesSorted(lo: nat, hi: nat, k: nat)
    ensures forall i, j :: 0 <= i < j < |ChooseIndices(lo, hi, k)| ==>
      LexLess(ChooseIndices(lo, hi, k)[i], ChooseIndices(lo, hi, k)[j])
    decreases hi - lo
  {
    if k > 0 && lo < hi {
      var a := ChooseIndices(lo + 1, hi, k - 1);
      var b := ChooseIndices(lo + 1, hi, k);
      ChooseIndicesSorted(lo + 1, hi, k - 1);
      ChooseIndicesSorted(lo + 1, hi, k);
      var p := Prefixed(lo, a);
      var c := ChooseIndices(lo, hi, k);
      assert c == p + b;
      forall i, j | 0 <= i < j < |c| ensures LexLess(c[i], c[j]) {
        if j < |p| {
          assert c[i] == [lo] + a[i] && c[j] == [lo] + a[j];
          assert c[i][1..] == a[i] && c[j][1..] == a[j];
        } else if i < |p| {
          assert c[i] == [lo] + a[i];
          assert c[j] == b[j - |p|];
          assert IsSelection(b[j - |p|], lo + 1, hi, k);
        } else {
          assert c[i] == b[i - |p|] && c[j] == b[j - |p|];
        }
      }
    }
  }

  /** Every selection of `k` positions from [lo, hi) is produced. */
  lemma {:induction false} ChooseIndicesComplete(lo: nat, hi: nat, k: nat, x: seq<nat>)
    requires IsSelection(x, lo, hi, k)
    ensures x in ChooseIndices(lo, hi, k)
    decreases hi - lo
  {
    if k == 0 {
      assert x == [];
    } else {
      assert lo <= x[0] < hi;
      var a := ChooseIndices(lo + 1, hi, k - 1);
      var b := ChooseIndices(lo + 1, hi, k);
      var p := Prefixed(lo, a);
      assert ChooseIndices(lo, hi, k) == p + b;
      if x[0] == lo {
        var y := x[1..];
        TailSelection(x, lo, hi, k);
        ChooseIndicesComplete(lo + 1, hi, k - 1, y);
        var i :| 0 <= i < |a| && a[i] == y;
        assert p[i] == [lo] + y;
        assert [x[0]] + x[1..] == x;
        assert (p + b)[i] == x;
      } else {
        assert forall j :: 0 <= j < |x| ==> x[0] <= x[j];
        assert IsSelection(x, lo + 1, hi, k);
        ChooseIndicesComplete(lo + 1, hi, k, x);
        assert x in p + b;
      }
    }
  }

  lemma TailSelection(x: seq<nat>, lo: nat, hi: nat, k: nat)
    requires k > 0 && IsSelection(x, lo, hi, k)
    ensures IsSelection(x[1..], x[0] + 1, hi, k - 1)
  {
    var y := x[1..];
    forall j | 0 <= j < |y| ensures x[0] + 1 <= y[j] < hi {
      assert y[j] == x[j + 1];
      assert x[0] < x[j + 1];
    }
    forall i, j | 0 <= i < j < |y| ensures y[i] < y[j] {
      assert y[i] == x[i + 1] && y[j] == x[j + 1];
    }
  }

  /** The index-level counterpart of `Levels`. */
  function IndexLevels(n: nat, k: nat): seq<seq<nat>>
  {
    if k == 0 then [] else IndexLevels(n, k - 1) + ChooseIndices(0, n, k)
  }

  /** Shorter tuples first, then lexicographic: the order of the output. */
  predicate ShortLexLess(a: seq<nat>, b: seq<nat>)
  {
    |a| < |b| || (|a| == |b| && LexLess(a, b))
  }

  lemma {:induction false} IndexLevelsShape(n: nat, k: nat)
    ensures forall i :: 0 <= i < |IndexLevels(n, k)| ==>
      1 <= |IndexLevels(n, k)[i]| <= k && IsSelection(IndexLevels(n, k)[i], 0, n, |IndexLevels(n, k)[i]|)
  {
    if k > 0 {
      IndexLevelsShape(n, k - 1);
      var a := IndexLevels(n, k - 1);
      var c := ChooseIndices(0, n, k);
      forall i | 0 <= i < |a + c| ensures 1 <= |(a + c)[i]| <= k && IsSelection((a + c)[i], 0, n, |(a + c)[i]|) {
        if i >= |a| { assert (a + c)[i] == c[i - |a|]; }
      }
    }
  }

  lemma {:induction false} IndexLevelsOrdered(n: nat, k: nat)
    ensures forall i, j :: 0 <= i < j < |IndexLevels(n, k)| ==>
      ShortLexLess(IndexLevels(n, k)[i], IndexLevels(n, k)[j])
  {
    if k > 0 {
      IndexLevelsOrdered(n, k - 1);
      IndexLevelsShape(n, k - 1);
      ChooseIndicesSorted(0, n, k);
      var a := IndexLevels(n, k - 1);
      var c := ChooseIndices(0, n, k);
      forall i, j | 0 <= i < j < |a + c| ensures ShortLexLess((a + c)[i], (a + c)[j]) {
        if j >= |a| {
          assert (a + c)[j] == c[j - |a|];
          if i >= |a| { assert (a + c)[i] == c[i - |a|]; }
        }
      }
    }
  }

  lemma {:induction false} IndexLevelsComplete(n: nat, k: nat, x: seq<nat>)
    requires 1 <= |x| <= k && IsSelection(x, 0, n, |x|)
    ensures x in IndexLevels(n, k)
  {
    if |x| == k {
      ChooseIndicesComplete(0, n, k, x);
    } else {
      IndexLevelsComplete(n, k - 1, x);
    }
  }

  lemma {:induction false} LevelsArePicks<T>(s: seq<T>, k: nat)
    ensures InRange(IndexLevels(|s|, k), |s|)
    ensures Levels(s, k) == PickAll(s, IndexLevels(|s|, k))
  {
    if k > 0 {
      LevelsArePicks(s, k - 1);
      ChooseIsPick(s, 0, k);
      assert s[0..] == s;
      PickAllAppend(s, IndexLevels(|s|, k - 1), ChooseIndices(0, |s|, k));
    }
  }

  /** The generator's output, read as index tuples over the token list:
      (1) the output is exactly the tokens picked by `IndexLevels(n, n)`;
      (2) each entry is a strictly increasing selection of 1 to n positions,
          so tokens inside a combination keep their input order;
      (3) every such selection occurs;
      (4) entries are strictly ordered by size, then lexicographically, so
          each index set appears exactly once. */
  lemma AllCombinationsAreIndexSelections<T>(s: seq<T>)
    ensures InRange(IndexLevels(|s|, |s|), |s|)
    ensures AllCombinations(s) == PickAll(s, IndexLevels(|s|, |s|))
    ensures forall i :: 0 <= i < |IndexLevels(|s|, |s|)| ==>
      var x := IndexLevels(|s|, |s|)[i]; 1 <= |x| <= |s| && IsSelection(x, 0, |s|, |x|)
    ensures forall x :: 1 <= |x| && IsSelection(x, 0, |s|, |x|) ==> x in IndexLevels(|s|, |s|)
    ensures forall i, j :: 0 <= i < j < |IndexLevels(|s|, |s|)| ==>
      ShortLexLess(IndexLevels(|s|, |s|)[i], IndexLevels(|s|, |s|)[j])
    ensures NoDup(IndexLevels(|s|, |s|))
  {
    var n := |s|;
    var xs := IndexLevels(n, n);
    LevelsArePicks(s, n);
    IndexLevelsShape(n, n);
    IndexLevelsOrdered(n, n);
    forall x | 1 <= |x| && IsSelection(x, 0, n, |x|) ensures x in xs {
      SelectionLength(x, 0, n, |x|);
      IndexLevelsComplete(n, n, x);
    }
    OrderedNoDup(xs);
  }

  /** A strictly ordered list of index tuples holds each tuple once. */
  lemma OrderedNoDup(xs: seq<seq<nat>>)
    requires forall i, j :: 0 <= i < j < |xs| ==> ShortLexLess(xs[i], xs[j])
    ensures NoDup(xs)
  {
    forall i, j | 0 <= i < j < |xs| ensures xs[i] != xs[j] {
      if xs[i] == xs[j] {
        LexLessIrreflexive(xs[i]);
      }
    }
  }
}
