/** The base class of the data processors: it holds the data source and
    expands raw feature strings into all feature combinations
    (AbstractDataProcessor.py). */
module AbstractDataProcessor {
  import opened Py
  import opened Combinations

  /** The object that supplies raw market data; only its identity matters here. */
  datatype DataSource = DataSource(name: string)

  /** `processed_features`: every feature string split on `,`, the pieces
      flattened in order (duplicates and empty pieces kept). `None` when
      some feature is not a string, since calling `split` on it raises. */
  function ProcessedFeatures(features: seq<Value>): (r: Option<seq<string>>)
    ensures r.None? <==> exists i :: 0 <= i < |features| && features[i].Tup?
  {
    if |features| == 0 then Some([])
    else
      var init := features[..|features| - 1];
      assert forall i :: 0 <= i < |init| ==> init[i] == features[i];
      Extend(ProcessedFeatures(init), features[|features| - 1])
  }

  /** One more feature after the tokens `p`: its pieces are appended, and a
      non-string raises. */
  function Extend(p: Option<seq<string>>, feature: Value): (r: Option<seq<string>>)
    ensures r.Some? <==> p.Some? && feature.Str?
    ensures r.Some? ==> |r.value| == |p.value| + Count(feature.s, ',') + 1 && r.value[..|p.value|] == p.value
  {
    match p
    case None => None
    case Some(tokens) =>
      match feature
      case Str(s) => Some(tokens + Split(s, ','))
      case Tup(_) => None
  }

  /** The number of pieces the features split into: commas plus one per string. */
  function PieceCount(features: seq<Value>): nat
  {
    if |features| == 0 then 0
    else
      var last := features[|features| - 1];
      PieceCount(features[..|features| - 1]) + (if last.Str? then Count(last.s, ',') + 1 else 0)
  }

  /** Each string contributes its comma-separated pieces, in order. */
  lemma {:induction false} ProcessedFeaturesAppend(a: seq<Value>, b: seq<Value>)
    ensures ProcessedFeatures(a + b).Some? <==> ProcessedFeatures(a).Some? && ProcessedFeatures(b).Some?
    ensures ProcessedFeatures(a + b).Some? ==>
      ProcessedFeatures(a + b).value == ProcessedFeatures(a).value + ProcessedFeatures(b).value
    decreases |b|
  {
    if |b| == 0 {
      assert a + b == a;
    } else {
      ProcessedFeaturesAppend(a, b[..|b| - 1]);
      ProcessedFeaturesAppendStep(a, b);
    }
  }

  lemma ProcessedFeaturesAppendStep(a: seq<Value>, b: seq<Value>)
    requires |b| > 0
    requires var b' := b[..|b| - 1];
      && (ProcessedFeatures(a + b').Some? <==> ProcessedFeatures(a).Some? && ProcessedFeatures(b').Some?)
      && (ProcessedFeatures(a + b').Some? ==>
            ProcessedFeatures(a + b').value == ProcessedFeatures(a).value + ProcessedFeatures(b').value)
    ensures ProcessedFeatures(a + b).Some? <==> ProcessedFeatures(a).Some? && ProcessedFeatures(b).Some?
    ensures ProcessedFeatures(a + b).Some? ==>
      ProcessedFeatures(a + b).value == ProcessedFeatures(a).value + ProcessedFeatures(b).value
  {
    var ab := a + b;
    assert ab[..|ab| - 1] == a + b[..|b| - 1];
    assert ab[|ab| - 1] == b[|b| - 1];
    ProcessedFeaturesUnfold(ab);
    ProcessedFeaturesUnfold(b);
    ExtendAppend(ProcessedFeatures(a), ProcessedFeatures(b[..|b| - 1]), ProcessedFeatures(a + b[..|b| - 1]), b[|b| - 1]);
  }

  lemma ProcessedFeaturesUnfold(features: seq<Value>)
    requires |features| > 0
    ensures ProcessedFeatures(features) ==
      Extend(ProcessedFeatures(features[..|features| - 1]), features[|features| - 1])
  {
  }

  /** Extending the concatenation of two token lists extends the second. */
  lemma ExtendAppend(pa: Option<seq<string>>, pb: Option<seq<string>>, pab: Option<seq<string>>, feature: Value)
    requires pab.Some? <==> pa.Some? && pb.Some?
    requires pab.Some? ==> pab.value == pa.value + pb.value
    ensures Extend(pab, feature).Some? <==> pa.Some? && Extend(pb, feature).Some?
    ensures Extend(pab, feature).Some? ==> Extend(pab, feature).value == pa.value + Extend(pb, feature).value
  {
    if pab.Some? && feature.Str? {
      assert (pa.value + pb.value) + Split(feature.s, ',') == pa.value + (pb.value + Split(feature.s, ','));
    }
  }

  /** A string feature contributes (number of commas + 1) tokens. */
  lemma {:induction false} ProcessedFeaturesLength(features: seq<Value>)
    requires ProcessedFeatures(features).Some?
    ensures |ProcessedFeatures(features).value| == PieceCount(features)
  {
    if |features| > 0 {
      ProcessedFeaturesLength(features[..|features| - 1]);
    }
  }

  lemma ProcessedSingle(s: string)
    ensures ProcessedFeatures([Str(s)]) == Some(Split(s, ','))
  {
    var f := [Str(s)];
    assert f[..|f| - 1] == [];
    assert ProcessedFeatures(f[..|f| - 1]) == Some([]);
    assert [] + Split(s, ',') == Split(s, ',');
  }

  /** A comma-joined string splits into the same tokens as its parts given
      separately: `["a,b"]` and `["a", "b"]` are processed alike. */
  lemma CommaJoinedIsSplit(x: string, y: string)
    ensures ProcessedFeatures([Str(x + [','] + y)]) == ProcessedFeatures([Str(x), Str(y)])
  {
    SplitAround(x, y, ',');
    ProcessedSingle(x + [','] + y);
    ProcessedSingle(x);
    ProcessedSingle(y);
    ProcessedFeaturesAppend([Str(x)], [Str(y)]);
    assert [Str(x)] + [Str(y)] == [Str(x), Str(y)];
  }

  lemma ProcessedStep(features: seq<Value>, i: nat, processed: seq<string>)
    requires i < |features| && features[i].Str?
    requires ProcessedFeatures(features[..i]) == Some(processed)
    ensures ProcessedFeatures(features[..i + 1]) == Some(processed + Split(features[i].s, ','))
  {
    var prefix := features[..i + 1];
    assert prefix[..|prefix| - 1] == features[..i];
    assert prefix[|prefix| - 1] == features[i];
    ProcessedFeaturesUnfold(prefix);
  }

  /** What `get_feature_combinations` returns: every non-empty combination of
      the processed tokens, sizes 1 to n in turn, `None` when it raises. */
  function FeatureCombinations(features: seq<Value>): (r: Option<seq<seq<string>>>)
    ensures r.None? <==> exists i :: 0 <= i < |features| && features[i].Tup?
    ensures r.Some? ==> |r.value| == Pow2(PieceCount(features)) - 1
  {
    match ProcessedFeatures(features)
    case None => None
    case Some(tokens) =>
      ProcessedFeaturesLength(features);
      AllCombinationsCount(tokens);
      Some(AllCombinations(tokens))
  }

  class AbstractDataProcessor {
    var dataSource: DataSource

    constructor (dataSource: DataSource)
      ensures this.dataSource == dataSource
    {
      this.dataSource := dataSource;
    }

    /** Replaces the data source; the processor has no other state. */
    method SetData(dataSource: DataSource)
      modifies this`dataSource
      ensures this.dataSource == dataSource
    {
      this.dataSource := dataSource;
    }

    method GetFeatureCombinations(features: seq<Value>) returns (r: Option<seq<seq<string>>>)
      ensures r == FeatureCombinations(features)
    {
      var processed: seq<string> := [];
      var i := 0;
      while i < |features|
        invariant 0 <= i <= |features|
        invariant ProcessedFeatures(features[..i]) == Some(processed)
      {
        if features[i].Tup? {
          return None;
        }
        ProcessedStep(features, i, processed);
        processed := processed + Split(features[i].s, ',');
        i := i + 1;
      }
      assert features[..i] == features;
      var combinations := CombinationsBySize(processed);
      return Some(combinations);
    }
  }

  /** The loop over sizes 1 to n collecting `itertools.combinations` of each. */
  method CombinationsBySize(tokens: seq<string>) returns (combinations: seq<seq<string>>)
    ensures combinations == AllCombinations(tokens)
  {
    combinations := [];
    var size := 1;
    while size <= |tokens|
      invariant 1 <= size <= |tokens| + 1
      invariant combinations == Levels(tokens, size - 1)
    {
      combinations := combinations + Choose(tokens, size);
      size := size + 1;
    }
  }
}
