/** `DataProcessor.perform_feature_engineering` (dataProcessor.py): expand
    the features into all combinations, and for each combination merge the
    frames the feature calculator returns, drop repeated columns, shorten
    column names to their first word and scale the values. A combination
    whose processing raises contributes no dataset and the loop moves on.

    Numeric contents are not modelled: a frame is its column labels and its
    set of row labels, a normalised dataset its column names and row count.
    The calculator is a parameter, and may fail on any combination. */
module DataProcessor {
  import opened Py
  import opened Lists
  import opened AbstractDataProcessor

  /** A frame from the feature calculator: column labels and row labels (dates). */
  datatype Frame = Frame(columns: seq<string>, index: set<int>)

  /** A normalised dataset. The scaler's output gets a fresh 0-based row
      index, so only the row count of the merged frame survives. */
  datatype Dataset = Dataset(columns: seq<string>, rows: nat)

  /** `pd.DataFrame()`. */
  const EmptyDataset: Dataset := Dataset([], 0)

  /** `calculate_features`: the frames for one combination, `None` if it raises. */
  type Calculator = seq<string> -> Option<seq<Frame>>

  /** Building `FeatureCalculator(data_source, parameter_period)` may raise. */
  datatype CalculatorOutcome = Built(calculate: Calculator) | ConstructionFailed

  /** `pd.concat(frames, axis=1)` (an outer join on the row labels), or
      `pd.DataFrame()` when there is nothing to merge. */
  function Concatenated(frames: seq<Frame>): (f: Frame)
    ensures forall i :: 0 <= i < |frames| ==> frames[i].index <= f.index
  {
    if |frames| == 0 then Frame([], {})
    else
      var init := frames[..|frames| - 1];
      var merged := Concatenated(init);
      var last := frames[|frames| - 1];
      assert forall i :: 0 <= i < |init| ==> init[i] == frames[i];
      Frame(merged.columns + last.columns, merged.index + last.index)
  }

  /** Every row of the merge comes from one of the frames (outer join: no
      row is invented, none is lost). */
  lemma {:induction false} ConcatenatedIndex(frames: seq<Frame>, row: int)
    requires row in Concatenated(frames).index
    ensures exists i :: 0 <= i < |frames| && row in frames[i].index
  {
    var init := frames[..|frames| - 1];
    var last := frames[|frames| - 1];
    if row !in last.index {
      ConcatenatedIndex(init, row);
      var i :| 0 <= i < |init| && row in init[i].index;
      assert init[i] == frames[i];
    }
  }

  /** The merged columns are those of the frames, side by side, in order. */
  lemma {:induction false} ConcatenatedColumns(a: seq<Frame>, b: seq<Frame>)
    ensures Concatenated(a + b).columns == Concatenated(a).columns + Concatenated(b).columns
    decreases |b|
  {
    if |b| == 0 {
      assert a + b == a;
    } else {
      var b' := b[..|b| - 1];
      assert (a + b)[..|a + b| - 1] == a + b';
      assert (a + b)[|a + b| - 1] == b[|b| - 1];
      ConcatenatedColumns(a, b');
    }
  }

  /** `[col.split()[0] for col in columns]`: `None` when some name has no
      word (the subscript raises). */
  function RenamedColumns(columns: seq<string>): (r: Option<seq<string>>)
    ensures r.None? <==> exists j :: 0 <= j < |columns| && FirstWord(columns[j]).None?
    ensures r.Some? ==> (|r.value| == |columns| &&
      forall j :: 0 <= j < |columns| ==> FirstWord(columns[j]) == Some(r.value[j]))
  {
    if |columns| == 0 then Some([])
    else
      var init := columns[..|columns| - 1];
      assert forall j :: 0 <= j < |init| ==> init[j] == columns[j];
      match RenamedColumns(init)
      case None => None
      case Some(names) =>
        match FirstWord(columns[|columns| - 1])
        case None => None
        case Some(w) => Some(names + [w])
  }

  /** The dataset one combination yields from the calculator's frames, or
      `None` when a step raises. Repeated full column names are dropped
      (first kept), then each name is cut to its first word; an empty merged
      frame (no columns or no rows) yields `pd.DataFrame()`. */
  function ProcessFrames(frames: seq<Frame>): (r: Option<Dataset>)
    ensures r.Some? ==> (r.value.rows == 0 <==> r.value.columns == [])
    ensures r.Some? ==> r.value.rows <= |Concatenated(frames).index|
  {
    var merged := Concatenated(frames);
    match RenamedColumns(Distinct(merged.columns))
    case None => None
    case Some(names) =>
      if |names| == 0 || merged.index == {} then Some(EmptyDataset)
      else Some(Dataset(names, |merged.index|))
  }

  function ProcessCombination(calculate: Calculator, combination: seq<string>): (r: Option<Dataset>)
    ensures calculate(combination).None? ==> r.None?
  {
    match calculate(combination)
    case None => None
    case Some(frames) => ProcessFrames(frames)
  }

  /** `normalized_data_list` after the loop over `combinations`: one dataset
      per combination whose processing does not raise, in order. */
  function NormalizedDataList(calculate: Calculator, combinations: seq<seq<string>>): (r: seq<Dataset>)
    ensures |r| <= |combinations|
  {
    if |combinations| == 0 then []
    else
      var init := NormalizedDataList(calculate, combinations[..|combinations| - 1]);
      match ProcessCombination(calculate, combinations[|combinations| - 1])
      case None => init
      case Some(d) => init + [d]
  }

  /** What `perform_feature_engineering` returns: `None` when expanding the
      features raises (the returned name is then unbound and the return
      itself raises); otherwise all generated combinations, whether or not
      they succeed, with the datasets of those that do. */
  function EngineeringResult(features: seq<Value>, calculator: CalculatorOutcome): (r: Option<(seq<seq<string>>, seq<Dataset>)>)
    ensures r.None? <==> exists i :: 0 <= i < |features| && features[i].Tup?
    ensures r.Some? ==> r.value.0 == FeatureCombinations(features).value && |r.value.1| <= |r.value.0|
  {
    match FeatureCombinations(features)
    case None => None
    case Some(all) =>
      match calculator
      case ConstructionFailed => Some((all, []))
      case Built(calculate) => Some((all, NormalizedDataList(calculate, all)))
  }

  /** The body of the per-combination `try` block: the dataset one
      combination yields, or `None` when a step raises. */
  method NormalizeCombination(calculate: Calculator, features: seq<string>) returns (r: Option<Dataset>)
    ensures r == ProcessCombination(calculate, features)
  {
    var dfsToMerge := calculate(features);
    if dfsToMerge.None? {
      return None;
    }
    ProcessCombinationUnfold(calculate, features);
    var dfMerged := Concatenated(dfsToMerge.value);
    dfMerged := dfMerged.(columns := Distinct(dfMerged.columns));
    var columnNames := RenamedColumns(dfMerged.columns);
    if columnNames.None? {
      return None;
    }
    dfMerged := dfMerged.(columns := columnNames.value);
    if |dfMerged.columns| == 0 || dfMerged.index == {} {
      return Some(EmptyDataset);
    }
    return Some(Dataset(dfMerged.columns, |dfMerged.index|));
  }

  /** The subclass method; `processor` is the object it runs on. */
  method PerformFeatureEngineering(
    processor: AbstractDataProcessor,
    features: seq<Value>,
    period: Option<string>,
    makeCalculator: (DataSource, Option<string>) -> CalculatorOutcome)
    returns (r: Option<(seq<seq<string>>, seq<Dataset>)>)
    ensures r == EngineeringResult(features, makeCalculator(processor.dataSource, period))
  {
    var normalizedDataList: seq<Dataset> := [];
    var all := processor.GetFeatureCombinations(features);
    if all.None? {
      return None;
    }
    var combinations := all.value;
    var calculator := makeCalculator(processor.dataSource, period);
    if calculator.ConstructionFailed? {
      return Some((combinations, normalizedDataList));
    }
    var calculate := calculator.calculate;
    var idx := 0;
    while idx < |combinations|
      invariant 0 <= idx <= |combinations|
      invariant normalizedDataList == NormalizedDataList(calculate, combinations[..idx])
    {
      NormalizedDataListStep(calculate, combinations, idx);
      var dataset := NormalizeCombination(calculate, combinations[idx]);
      if dataset.None? {
        idx := idx + 1;
        continue;
      }
      normalizedDataList := normalizedDataList + [dataset.value];
      idx := idx + 1;
    }
    assert combinations[..idx] == combinations;
    return Some((combinations, normalizedDataList));
  }

  // ------------------------------------------------------------ properties

  lemma NormalizedDataListStep(calculate: Calculator, cs: seq<seq<string>>, i: nat)
    requires i < |cs|
    ensures NormalizedDataList(calculate, cs[..i + 1]) ==
      match ProcessCombination(calculate, cs[i])
      case None => NormalizedDataList(calculate, cs[..i])
      case Some(d) => NormalizedDataList(calculate, cs[..i]) + [d]
  {
    assert cs[..i + 1][..i] == cs[..i];
    assert cs[..i + 1][i] == cs[i];
  }

  lemma ProcessCombinationUnfold(calculate: Calculator, c: seq<string>)
    requires calculate(c).Some?
    ensures var merged := Concatenated(calculate(c).value);
      var names := RenamedColumns(Distinct(merged.columns));
      ProcessCombination(calculate, c) ==
        if names.None? then None
        else if |names.value| == 0 || merged.index == {} then Some(EmptyDataset)
        else Some(Dataset(names.value, |merged.index|))
  {
  }

  /** The list is built in combination order: it commutes with concatenation. */
  lemma {:induction false} NormalizedDataListAppend(calculate: Calculator, a: seq<seq<string>>, b: seq<seq<string>>)
    ensures NormalizedDataList(calculate, a + b) == NormalizedDataList(calculate, a) + NormalizedDataList(calculate, b)
    decreases |b|
  {
    if |b| == 0 {
      assert a + b == a;
    } else {
      var b' := b[..|b| - 1];
      assert (a + b)[..|a + b| - 1] == a + b';
      assert (a + b)[|a + b| - 1] == b[|b| - 1];
      NormalizedDataListAppend(calculate, a, b');
    }
  }

  lemma {:induction false} ConcatenatedNoRows(frames: seq<Frame>)
    requires forall i :: 0 <= i < |frames| ==> frames[i].index == {}
    ensures Concatenated(frames).index == {}
  {
    if |frames| > 0 {
      ConcatenatedNoRows(frames[..|frames| - 1]);
    }
  }

  /** A single combination adds exactly one dataset when it succeeds, none
      when it raises. */
  lemma NormalizedDataListSingle(calculate: Calculator, c: seq<string>)
    ensures NormalizedDataList(calculate, [c]) ==
      match ProcessCombination(calculate, c) case None => [] case Some(d) => [d]
  {
    assert [c][..0] == [];
  }

  /** As many datasets as combinations exactly when none of them fails. */
  lemma {:induction false} NormalizedDataListComplete(calculate: Calculator, cs: seq<seq<string>>)
    ensures |NormalizedDataList(calculate, cs)| == |cs| <==>
      forall i :: 0 <= i < |cs| ==> ProcessCombination(calculate, cs[i]).Some?
  {
    if |cs| > 0 {
      var init := cs[..|cs| - 1];
      NormalizedDataListComplete(calculate, init);
      assert forall i :: 0 <= i < |init| ==> init[i] == cs[i];
    }
  }

  /** When no combination fails, the i-th dataset belongs to the i-th
      combination. */
  lemma {:induction false} NormalizedDataListAligned(calculate: Calculator, cs: seq<seq<string>>)
    requires forall i :: 0 <= i < |cs| ==> ProcessCombination(calculate, cs[i]).Some?
    ensures |NormalizedDataList(calculate, cs)| == |cs|
    ensures forall i :: 0 <= i < |cs| ==> NormalizedDataList(calculate, cs)[i] == ProcessCombination(calculate, cs[i]).value
  {
    if |cs| > 0 {
      var init := cs[..|cs| - 1];
      assert forall i :: 0 <= i < |init| ==> init[i] == cs[i];
      NormalizedDataListAligned(calculate, init);
    }
  }

  /** A failing combination is skipped and the others keep their order:
      with the middle one of three failing, the datasets of the first and
      third remain. */
  lemma SkipsFailedCombination(calculate: Calculator, a: seq<string>, b: seq<string>, c: seq<string>)
    requires ProcessCombination(calculate, a).Some? && ProcessCombination(calculate, c).Some?
    requires ProcessCombination(calculate, b).None?
    ensures NormalizedDataList(calculate, [a, b, c]) ==
      [ProcessCombination(calculate, a).value, ProcessCombination(calculate, c).value]
  {
    NormalizedDataListAppend(calculate, [a], [b]);
    NormalizedDataListAppend(calculate, [a, b], [c]);
    NormalizedDataListSingle(calculate, a);
    NormalizedDataListSingle(calculate, b);
    NormalizedDataListSingle(calculate, c);
    assert [a] + [b] == [a, b];
    assert [a, b] + [c] == [a, b, c];
  }

  /** A calculator that returns no frames, or frames without rows, still
      produces a dataset: the empty one. */
  lemma EmptyMergeGivesEmptyDataset(calculate: Calculator, c: seq<string>)
    requires calculate(c).Some?
    requires forall i :: 0 <= i < |calculate(c).value| ==> calculate(c).value[i].index == {}
    requires forall j :: 0 <= j < |Concatenated(calculate(c).value).columns| ==>
      FirstWord(Concatenated(calculate(c).value).columns[j]).Some?
    ensures ProcessCombination(calculate, c) == Some(EmptyDataset)
  {
    var merged := Concatenated(calculate(c).value);
    var unique := Distinct(merged.columns);
    forall j | 0 <= j < |unique| ensures FirstWord(unique[j]).Some? {
      assert unique[j] in merged.columns;
    }
    ConcatenatedNoRows(calculate(c).value);
  }

  /** Column bookkeeping of a non-empty dataset: one column per distinct
      merged name, in first-occurrence order, each cut to its first word;
      the row count is that of the merged frame. A name without a word makes
      the whole combination fail. */
  lemma ProcessFramesColumns(frames: seq<Frame>)
    ensures ProcessFrames(frames).None? <==>
      exists j :: 0 <= j < |Concatenated(frames).columns| && FirstWord(Concatenated(frames).columns[j]).None?
    ensures var merged := Concatenated(frames);
      var unique := Distinct(merged.columns);
      var d := ProcessFrames(frames);
      d.Some? && d.value != EmptyDataset ==>
        && |d.value.columns| == |unique|
        && (forall j :: 0 <= j < |unique| ==> FirstWord(unique[j]) == Some(d.value.columns[j]))
        && d.value.rows == |merged.index| > 0
  {
    var merged := Concatenated(frames);
    var unique := Distinct(merged.columns);
    if exists j :: 0 <= j < |merged.columns| && FirstWord(merged.columns[j]).None? {
      var j :| 0 <= j < |merged.columns| && FirstWord(merged.columns[j]).None?;
      assert merged.columns[j] in unique;
      var k :| 0 <= k < |unique| && unique[k] == merged.columns[j];
      assert FirstWord(unique[k]).None?;
      assert RenamedColumns(unique).None?;
      assert ProcessFrames(frames).None?;
      assert exists j :: 0 <= j < |Concatenated(frames).columns| && FirstWord(Concatenated(frames).columns[j]).None?;
    } else {
      forall k | 0 <= k < |unique| ensures FirstWord(unique[k]).Some? {
        assert unique[k] in merged.columns;
      }
      assert RenamedColumns(unique).Some?;
      assert ProcessFrames(frames).Some?;
    }
  }

  lemma ConcatenatedOne(f: Frame)
    ensures Concatenated([f]) == f
  {
    assert [f][..0] == [];
  }

  lemma DistinctTwo(x: string, y: string)
    requires x != y
    ensures Distinct([x, y]) == [x, y]
  {
    var s := [x, y];
    assert s[..1] == [x] && s[..1][..0] == [];
    assert [] + [x] == [x];
    assert Distinct(s[..1]) == [x];
    assert y !in s[..1];
    assert [x] + [y] == s;
  }

  lemma RenamedTwo(x: string, y: string, wx: string, wy: string)
    requires FirstWord(x) == Some(wx) && FirstWord(y) == Some(wy)
    ensures RenamedColumns([x, y]) == Some([wx, wy])
  {
    var s := [x, y];
    assert s[..1] == [x] && s[..1][..0] == [];
    assert [] + [wx] == [wx];
    assert [wx] + [wy] == [wx, wy];
  }

  /** Renaming can bring names back together: "a x" and "a y" are distinct
      before and both become "a", which the output keeps twice. */
  lemma RenamedNamesMayRepeat()
    ensures ProcessFrames([Frame(["a x", "a y"], {0})]) == Some(Dataset(["a", "a"], 1))
  {
    ConcatenatedOne(Frame(["a x", "a y"], {0}));
    assert "a x" != "a y" by { assert "a x"[2] != "a y"[2]; }
    DistinctTwo("a x", "a y");
    assert "" + "a" + " x" == "a x" && "" + "a" + " y" == "a y";
    FirstWordOf("", "a", " x");
    FirstWordOf("", "a", " y");
    RenamedTwo("a x", "a y", "a", "a");
    assert |{0}| == 1;
  }

  /** The returned combination list is the full expansion of the input,
      whatever fails; the datasets never outnumber it, and match its length
      exactly when the calculator is built and no combination fails. */
  lemma EngineeringResultShape(features: seq<Value>, calculator: CalculatorOutcome)
    ensures EngineeringResult(features, calculator).Some? <==> FeatureCombinations(features).Some?
    ensures EngineeringResult(features, calculator).Some? ==>
      var all := FeatureCombinations(features).value;
      var res := EngineeringResult(features, calculator).value;
      && res.0 == all
      && |res.1| <= |res.0|
      && (|res.1| == |res.0| <==>
            (|all| == 0 || (calculator.Built? &&
              forall i :: 0 <= i < |all| ==> ProcessCombination(calculator.calculate, all[i]).Some?)))
  {
    if FeatureCombinations(features).Some? && calculator.Built? {
      NormalizedDataListComplete(calculator.calculate, FeatureCombinations(features).value);
    }
  }
}
