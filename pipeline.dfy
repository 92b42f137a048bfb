/** The engine driven by a plain `DataProcessor`: its
    `perform_feature_engineering` is the adapter, fed the engine's work
    list. The consequences of wiring the two together as written. */
module Pipeline {
  import opened Py
  import opened Lists
  import opened Combinations
  import opened AbstractDataProcessor
  import opened DataProcessor
  import opened FeatureEngineering

  /** The combinations as the generator hands them out: tuples. */
  function AsTuples(cs: seq<seq<string>>): (r: seq<Value>)
    ensures |r| == |cs| && forall i :: 0 <= i < |cs| ==> r[i] == Tup(cs[i])
  {
    seq(|cs|, i requires 0 <= i < |cs| => Tup(cs[i]))
  }

  /** A plain `DataProcessor` as the adapter. Its method takes no
      `config, start_date, end_date`, so the with-params call raises a
      `TypeError`. */
  function PlainAdapter(source: DataSource, makeCalculator: (DataSource, Option<string>) -> CalculatorOutcome): (a: Adapter<Dataset>)
    ensures forall c, p, ctx :: a(WithParams(c, p, ctx)).None?
    ensures forall c, p :: a(WithoutParams(c, p)).Some? <==> EngineeringResult(c, makeCalculator(source, p)).Some?
    ensures forall c, p :: EngineeringResult(c, makeCalculator(source, p)).Some? ==>
      var res := EngineeringResult(c, makeCalculator(source, p)).value;
      a(WithoutParams(c, p)) == Some((AsTuples(res.0), res.1))
  {
    (call: EngineeringCall) =>
      match call
      case WithParams(_, _, _) => None
      case WithoutParams(combinations, period) =>
        match EngineeringResult(combinations, makeCalculator(source, period))
        case None => None
        case Some(res) => Some((AsTuples(res.0), res.1))
  }

  /** The combinations a pass asks for are tuples, as the generator makes
      them; a plain processor then calls `split` on a tuple. So as soon as
      one required combination is not saved yet, the pass raises and
      returns `([], [])`. */
  lemma TupleWorkBreaksPass(
    source: DataSource, makeCalculator: (DataSource, Option<string>) -> CalculatorOutcome, period: Option<string>,
    saved: seq<Value>, savedData: seq<Dataset>, required: seq<Value>, context: RunContext)
    requires forall i :: 0 <= i < |required| ==> required[i].Tup?
    requires exists i :: 0 <= i < |required| && required[i] !in NormalizeSaved(saved)
    ensures Reconcile(Plain, period, PlainAdapter(source, makeCalculator), saved, savedData, required, context).None?
  {
    var norm := NormalizeSaved(saved);
    var work := WorkList(required, norm);
    WorkListIsDifference(required, norm);
    var i :| 0 <= i < |required| && required[i] !in norm;
    assert required[i] in work;
    var k :| 0 <= k < |work| && work[k] == required[i];
    assert work[k].Tup?;
    assert EngineeringResult(work, makeCalculator(source, period)).None?;
    assert Request(Plain, period, work, context) == WithoutParams(work, period);
    assert PlainAdapter(source, makeCalculator)(WithoutParams(work, period)).None?;
  }

  /** When every required combination is saved and saved datasets exist,
      the plain processor gets an empty work list, reports no combinations
      and no datasets, and the pass returns that empty pair, which it then
      saves over the snapshot. */
  lemma FullyCachedPassIsEmpty(
    source: DataSource, makeCalculator: (DataSource, Option<string>) -> CalculatorOutcome, period: Option<string>,
    saved: seq<Value>, savedData: seq<Dataset>, required: seq<Value>, context: RunContext)
    requires |savedData| > 0
    requires forall i :: 0 <= i < |required| ==> required[i] in NormalizeSaved(saved)
    ensures Reconcile(Plain, period, PlainAdapter(source, makeCalculator), saved, savedData, required, context) == Some(([], []))
  {
    var norm := NormalizeSaved(saved);
    WorkListIsDifference(required, norm);
    assert WorkList(required, norm) == [];
    var noTokens: seq<string> := [];
    AllCombinationsCount(noTokens);
    assert ProcessedFeatures([]) == Some([]);
    assert FeatureCombinations([]) == Some([]);
    assert Request(Plain, period, [], context) == WithoutParams([], period);
    var calculator := makeCalculator(source, period);
    assert calculator.Built? ==> NormalizedDataList(calculator.calculate, []) == [];
    assert EngineeringResult([], calculator) == Some(([], []));
    assert AsTuples([]) == [];
    assert PlainAdapter(source, makeCalculator)(WithoutParams([], period)) == Some(([], []));
  }

  /** After a failing combination, `zip` pairs the datasets with the wrong
      combinations: with `a` failing and `b` succeeding, the merge files
      `b`'s dataset under `a`. */
  lemma MisalignedAfterFailure(calculate: Calculator, a: seq<string>, b: seq<string>)
    requires ProcessCombination(calculate, a).None?
    requires ProcessCombination(calculate, b).Some?
    ensures Deduplicated(AsTuples([a, b]), NormalizedDataList(calculate, [a, b])) ==
      ([Tup(a)], [ProcessCombination(calculate, b).value])
  {
    var db := ProcessCombination(calculate, b).value;
    FailureThenSuccess(calculate, a, b);
    SingleZippedKey(AsTuples([a, b]), db);
  }

  /** The data list after a failing and a succeeding combination holds only
      the second one's dataset. */
  lemma FailureThenSuccess(calculate: Calculator, a: seq<string>, b: seq<string>)
    requires ProcessCombination(calculate, a).None?
    requires ProcessCombination(calculate, b).Some?
    ensures NormalizedDataList(calculate, [a, b]) == [ProcessCombination(calculate, b).value]
  {
    NormalizedDataListAppend(calculate, [a], [b]);
    NormalizedDataListSingle(calculate, a);
    NormalizedDataListSingle(calculate, b);
    assert [a] + [b] == [a, b];
  }

  /** One dataset zipped with two or more tuple keys lands under the first. */
  lemma SingleZippedKey<D>(combs: seq<Value>, d: D)
    requires |combs| > 0 && combs[0].Tup?
    ensures Deduplicated(combs, [d]) == ([combs[0]], [d])
  {
    var keys := ZippedKeys(combs, [d]);
    assert keys == [combs[0]];
    assert keys[..0] == [];
    assert Distinct(keys) == [combs[0]];
    var r := Deduplicated(combs, [d]);
    assert r.1 == [d];
  }

  /** When no combination fails, the merge keys every tuple with its own
      dataset: nothing is truncated and no dataset moves. */
  lemma AlignedWithoutFailure(calculate: Calculator, cs: seq<seq<string>>)
    requires forall i :: 0 <= i < |cs| ==> ProcessCombination(calculate, cs[i]).Some?
    ensures ZippedKeys(AsTuples(cs), NormalizedDataList(calculate, cs)) == AsTuples(cs)
    ensures forall i :: 0 <= i < |cs| ==> NormalizedDataList(calculate, cs)[i] == ProcessCombination(calculate, cs[i]).value
  {
    NormalizedDataListAligned(calculate, cs);
  }
}
