/** The cache-reconciliation engine (FeatureEngineering.py): it compares the
    combinations a previous run saved with the ones now required, has the
    processor engineer the missing ones, merges or replaces the results and
    writes them back to the snapshot file.

    The engine is generic in the dataset type `D` (it never looks inside a
    dataset). The processor's `perform_feature_engineering` is an abstract
    `Adapter` that may fail, and a `ProcessorKind` tag records whether the
    processor is an `NZDataProcessor`. The snapshot file is the `store`
    field; whether a write succeeds is a parameter of the save. */
module FeatureEngineering {
  import opened Py
  import opened Lists

  datatype ProcessorKind = Plain | NZ

  /** The `config, start_date, end_date` arguments, passed through untouched. */
  datatype RunContext = RunContext(config: string, startDate: string, endDate: string)

  /** How the engine calls the processor's `perform_feature_engineering`. */
  datatype EngineeringCall =
    | WithParams(combinations: seq<Value>, period: Option<string>, context: RunContext)
    | WithoutParams(combinations: seq<Value>, period: Option<string>)

  /** The processor's engineering method: the combinations it reports and
      their datasets, or `None` when the call raises. */
  type Adapter<D> = EngineeringCall -> Option<(seq<Value>, seq<D>)>

  /** What the snapshot file holds: nothing, something `pickle` cannot read
      back, or a pickled pair. */
  datatype Snapshot<D> = Missing | Unreadable | Pickled(combinations: seq<Value>, data: seq<D>)

  /** How a save ends: the pair is written; `open` fails and the old file
      stays; or the file is truncated and the dump then fails. */
  datatype SaveOutcome = Written | OpenFailed | WriteFailed

  function Min(a: int, b: int): int
  {
    if a < b then a else b
  }

  // ------------------------------------------------------------ engineering calls

  /** The call the engine makes for a work list: the with-params variant
      exactly for an `NZDataProcessor`; both pass the engine's period. */
  function Request(kind: ProcessorKind, period: Option<string>, work: seq<Value>, context: RunContext): (c: EngineeringCall)
    ensures c.combinations == work && c.period == period
    ensures c.WithParams? <==> kind == NZ
    ensures c.WithParams? ==> c.context == context
  {
    if kind == NZ then WithParams(work, period, context) else WithoutParams(work, period)
  }

  // ------------------------------------------------------------ saved keys and the work list

  /** A saved key as a tuple: a comma-joined string is split into one, a
      value that is already a tuple stays as it is. */
  function Normalize(v: Value): (r: Value)
    ensures r.Tup?
    ensures v.Tup? ==> r == v
    ensures v.Str? ==> Join(r.items, ',') == v.s && |r.items| == Count(v.s, ',') + 1
  {
    match v
    case Tup(_) => v
    case Str(s) => JoinSplit(s, ','); Tup(Split(s, ','))
  }

  /** The rewrite of `saved_feature_combinations`, done only when the list is
      non-empty (the empty list is left as it is). */
  function NormalizeSaved(saved: seq<Value>): (r: seq<Value>)
    ensures |r| == |saved|
    ensures forall i :: 0 <= i < |r| ==> r[i] == Normalize(saved[i])
  {
    if |saved| > 0 then seq(|saved|, i requires 0 <= i < |saved| => Normalize(saved[i])) else saved
  }

  /** `feature_combinations_0`: the required combinations not saved yet. */
  function WorkList(required: seq<Value>, saved: seq<Value>): (r: seq<Value>)
    ensures |r| <= |required|
    ensures forall i :: 0 <= i < |r| ==> r[i] in required && r[i] !in saved
  {
    Filter(required, saved, false)
  }

  /** The branch test, as written with its two disjuncts. */
  function IsCacheEmptyBranch<D>(saved: seq<Value>, savedData: seq<D>): (b: bool)
    ensures b <==> |savedData| == 0
  {
    (|saved| == 0 && |savedData| == 0) || (|saved| > 0 && |savedData| == 0)
  }

  // ------------------------------------------------------------ retained entries

  /** What `process_combinations` returns: in saved order, every saved
      combination that is still required, each paired with the saved dataset
      at the first position where that combination was saved. `None` when
      such a position is past the end of the saved datasets (the subscript
      raises). */
  function Retained<D>(saved: seq<Value>, savedData: seq<D>, all: seq<Value>): (r: Option<(seq<Value>, seq<D>)>)
    ensures r.Some? ==> |r.value.0| == |r.value.1|
    ensures r.Some? ==> forall x :: x in r.value.0 <==> x in saved && x in all
  {
    var kept := Filter(saved, all, true);
    if exists i :: 0 <= i < |kept| && FirstIndex(saved, kept[i]) >= |savedData| then None
    else Some((kept, seq(|kept|, i requires 0 <= i < |kept| => savedData[FirstIndex(saved, kept[i])])))
  }

  lemma RetainedRaises<D>(saved: seq<Value>, savedData: seq<D>, all: seq<Value>, c: Value)
    requires c in saved && c in all && FirstIndex(saved, c) >= |savedData|
    ensures Retained(saved, savedData, all).None?
  {
    var kept := Filter(saved, all, true);
    assert c in kept;
    var k :| 0 <= k < |kept| && kept[k] == c;
  }

  /** `data` holds, for each combination of `combs`, the saved dataset at
      that combination's first saved position. */
  ghost predicate Paired<D>(saved: seq<Value>, savedData: seq<D>, combs: seq<Value>, data: seq<D>)
  {
    && |data| == |combs|
    && forall j :: 0 <= j < |combs| ==>
         combs[j] in saved && FirstIndex(saved, combs[j]) < |savedData| &&
         data[j] == savedData[FirstIndex(saved, combs[j])]
  }

  lemma PairedSnoc<D>(saved: seq<Value>, savedData: seq<D>, combs: seq<Value>, data: seq<D>, c: Value)
    requires Paired(saved, savedData, combs, data)
    requires c in saved && FirstIndex(saved, c) < |savedData|
    ensures Paired(saved, savedData, combs + [c], data + [savedData[FirstIndex(saved, c)]])
  {
  }

  lemma RetainedSucceeds<D>(saved: seq<Value>, savedData: seq<D>, all: seq<Value>, data: seq<D>)
    requires Paired(saved, savedData, Filter(saved, all, true), data)
    ensures Retained(saved, savedData, all) == Some((Filter(saved, all, true), data))
  {
    var kept := Filter(saved, all, true);
    var r := Retained(saved, savedData, all);
    assert r.Some?;
    assert r.value.1 == data;
  }

  // ------------------------------------------------------------ the `comb_to_df` dictionary

  /** `tuple(comb)`: a tuple stays, a string becomes the tuple of its
      one-character strings. */
  function TupleKey(v: Value): (r: Value)
    ensures r.Tup?
    ensures v.Tup? ==> r == v
    ensures v.Str? ==> |r.items| == |v.s| && forall i :: 0 <= i < |v.s| ==> r.items[i] == [v.s[i]]
  {
    match v
    case Tup(_) => v
    case Str(s) => Tup(seq(|s|, i requires 0 <= i < |s| => [s[i]]))
  }

  /** The keys that `zip` pairs with a dataset: only the first
      `min(|combs|, |data|)` combinations take part. */
  function ZippedKeys<D>(combs: seq<Value>, data: seq<D>): (r: seq<Value>)
    ensures |r| == Min(|combs|, |data|)
    ensures forall i :: 0 <= i < |r| ==> r[i] == TupleKey(combs[i])
  {
    seq(Min(|combs|, |data|), i requires 0 <= i < Min(|combs|, |data|) => TupleKey(combs[i]))
  }

  /** The dictionary's keys and values: every zipped key once, in order of
      first insertion, with the dataset of its last insertion. */
  function Deduplicated<D>(combs: seq<Value>, data: seq<D>): (r: (seq<Value>, seq<D>))
    ensures NoDup(r.0) && |r.0| == |r.1|
  {
    var keys := ZippedKeys(combs, data);
    var order := Distinct(keys);
    (order, seq(|order|, j requires 0 <= j < |order| => data[LastIndex(keys, order[j])]))
  }

  /** `m` is the dictionary written with `data[i]` under `keys[i]` in turn:
      its keys are those of `keys`, each holding the dataset of its last
      write. */
  ghost predicate DictOf<D>(keys: seq<Value>, data: seq<D>, m: map<Value, D>)
  {
    && (forall k :: k in m <==> k in keys)
    && (forall k :: k in m ==> LastIndex(keys, k) < |data| && m[k] == data[LastIndex(keys, k)])
  }

  lemma DictStep<D>(keys: seq<Value>, data: seq<D>, m: map<Value, D>, i: nat)
    requires i < |keys| && i < |data|
    requires DictOf(keys[..i], data, m)
    ensures DictOf(keys[..i + 1], data, m[keys[i] := data[i]])
  {
    var m' := m[keys[i] := data[i]];
    assert keys[..i + 1] == keys[..i] + [keys[i]];
    forall k | k in m' ensures LastIndex(keys[..i + 1], k) < |data| && m'[k] == data[LastIndex(keys[..i + 1], k)] {
      LastIndexStep(keys, i, k);
    }
  }

  /** The loop that fills `comb_to_df`, and the `keys()`/`values()` lists read
      off it. The dictionary is its insertion order plus a map. */
  method DeduplicateByKey<D>(combs: seq<Value>, data: seq<D>) returns (keys: seq<Value>, values: seq<D>)
    ensures (keys, values) == Deduplicated(combs, data)
  {
    var zipped := ZippedKeys(combs, data);
    var n := Min(|combs|, |data|);
    var order: seq<Value> := [];
    var combToDf: map<Value, D> := map[];
    var i := 0;
    while i < n
      invariant 0 <= i <= n
      invariant order == Distinct(zipped[..i])
      invariant DictOf(zipped[..i], data, combToDf)
    {
      var key := TupleKey(combs[i]);
      assert key == zipped[i];
      DistinctStep(zipped, i);
      DictStep(zipped, data, combToDf, i);
      if key !in combToDf {
        order := order + [key];
      }
      combToDf := combToDf[key := data[i]];
      i := i + 1;
    }
    assert zipped[..i] == zipped;
    keys := order;
    values := seq(|order|, j requires 0 <= j < |order| => combToDf[order[j]]);
    ghost var expected := Deduplicated(combs, data);
    assert keys == expected.0;
    assert forall j :: 0 <= j < |values| ==> values[j] == expected.1[j];
    assert values == expected.1;
  }

  // ------------------------------------------------------------ one reconciliation pass

  /** What `process_and_save_combinations` computes, `None` when it raises.
      With saved datasets present the processor's output replaces everything;
      without them the retained entries and the new output are merged
      through the dictionary. */
  function Reconcile<D>(
    kind: ProcessorKind, period: Option<string>, engineer: Adapter<D>,
    saved: seq<Value>, savedData: seq<D>, required: seq<Value>, context: RunContext): (r: Option<(seq<Value>, seq<D>)>)
    ensures |savedData| == 0 && r.Some? ==> NoDup(r.value.0) && |r.value.0| == |r.value.1|
  {
    var norm := NormalizeSaved(saved);
    var work := WorkList(required, norm);
    if IsCacheEmptyBranch(norm, savedData) then
      match Retained(norm, savedData, required)
      case None => None
      case Some(kept) =>
        match engineer(Request(kind, period, work, context))
        case None => None
        case Some(added) => Some(Deduplicated(kept.0 + added.0, kept.1 + added.1))
    else
      engineer(Request(kind, period, work, context))
  }

  /** `load_results` on a snapshot. */
  function Loaded<D>(s: Snapshot<D>): (r: (seq<Value>, seq<D>))
    ensures r == ([], []) <==> !s.Pickled? || (s.combinations == [] && s.data == [])
  {
    match s
    case Pickled(c, d) => (c, d)
    case _ => ([], [])
  }

  /** The snapshot after `save_results` writes a pair. */
  function AfterSave<D>(s: Snapshot<D>, combinations: seq<Value>, data: seq<D>, io: SaveOutcome): (r: Snapshot<D>)
    ensures io == Written ==> r.Pickled? && Loaded(r) == (combinations, data)
    ensures io == OpenFailed ==> r == s
    ensures io == WriteFailed ==> !r.Pickled? && r != Missing
  {
    match io
    case Written => Pickled(combinations, data)
    case OpenFailed => s
    case WriteFailed => Unreadable
  }

  class FeatureEngineering<D> {
    const filePath: string
    const kind: ProcessorKind
    const engineer: Adapter<D>
    const parameterPeriod: Option<string>
    /** The contents of the file at `filePath`. */
    var store: Snapshot<D>

    constructor (filePath: string, kind: ProcessorKind, engineer: Adapter<D>, parameterPeriod: Option<string>, store: Snapshot<D>)
      ensures this.filePath == filePath && this.kind == kind && this.engineer == engineer
      ensures this.parameterPeriod == parameterPeriod && this.store == store
    {
      this.filePath := filePath;
      this.kind := kind;
      this.engineer := engineer;
      this.parameterPeriod := parameterPeriod;
      this.store := store;
    }

    function PerformEngineeringWithParams(combinations: seq<Value>, context: RunContext): Option<(seq<Value>, seq<D>)>
    {
      engineer(WithParams(combinations, parameterPeriod, context))
    }

    function PerformEngineeringWithoutParams(combinations: seq<Value>): Option<(seq<Value>, seq<D>)>
    {
      engineer(WithoutParams(combinations, parameterPeriod))
    }

    method LoadResults() returns (combinations: seq<Value>, data: seq<D>)
      ensures (combinations, data) == Loaded(store)
    {
      if store.Pickled? {
        return store.combinations, store.data;
      }
      return [], [];
    }

    method SaveResults(combinations: seq<Value>, data: seq<D>, io: SaveOutcome)
      modifies this`store
      ensures store == AfterSave(old(store), combinations, data, io)
    {
      match io {
        case Written => store := Pickled(combinations, data);
        case OpenFailed =>
        case WriteFailed => store := Unreadable;
      }
    }

    method ProcessCombinations(saved: seq<Value>, savedData: seq<D>, all: seq<Value>) returns (r: Option<(seq<Value>, seq<D>)>)
      ensures r == Retained(saved, savedData, all)
    {
      var filteredCombinations: seq<Value> := [];
      var filteredData: seq<D> := [];
      var i := 0;
      while i < |saved|
        invariant 0 <= i <= |saved|
        invariant filteredCombinations == Filter(saved[..i], all, true)
        invariant Paired(saved, savedData, filteredCombinations, filteredData)
      {
        var comb := saved[i];
        FilterStep(saved, i, all, true);
        if comb in all {
          var index := FirstIndex(saved, comb);
          if index >= |savedData| {
            RetainedRaises(saved, savedData, all, comb);
            return None;
          }
          PairedSnoc(saved, savedData, filteredCombinations, filteredData, comb);
          filteredCombinations := filteredCombinations + [comb];
          filteredData := filteredData + [savedData[index]];
        }
        i := i + 1;
      }
      assert saved[..i] == saved;
      RetainedSucceeds(saved, savedData, all, filteredData);
      return Some((filteredCombinations, filteredData));
    }

    /** One pass over saved and required combinations. On an exception it
        returns `([], [])` and saves nothing; otherwise it saves the pair it
        returns, whether or not that save succeeds. */
    method ProcessAndSaveCombinations(
      saved: seq<Value>, savedData: seq<D>, required: seq<Value>, context: RunContext, io: SaveOutcome)
      returns (combinations: seq<Value>, data: seq<D>)
      modifies this`store
      ensures var pass := Reconcile(kind, parameterPeriod, engineer, saved, savedData, required, context);
        && (pass.None? ==> combinations == [] && data == [] && store == old(store))
        && (pass.Some? ==> (combinations, data) == pass.value && store == AfterSave(old(store), combinations, data, io))
    {
      var savedCombinations := NormalizeSaved(saved);
      var work := WorkList(required, savedCombinations);
      var added: Option<(seq<Value>, seq<D>)>;
      if IsCacheEmptyBranch(savedCombinations, savedData) {
        var kept := ProcessCombinations(savedCombinations, savedData, required);
        if kept.None? {
          return [], [];
        }
        if kind == NZ {
          added := PerformEngineeringWithParams(work, context);
        } else {
          added := PerformEngineeringWithoutParams(work);
        }
        if added.None? {
          return [], [];
        }
        combinations, data := DeduplicateByKey(kept.value.0 + added.value.0, kept.value.1 + added.value.1);
      } else {
        if kind == NZ {
          added := PerformEngineeringWithParams(work, context);
        } else {
          added := PerformEngineeringWithoutParams(work);
        }
        if added.None? {
          return [], [];
        }
        combinations, data := added.value.0, added.value.1;
      }
      SaveResults(combinations, data, io);
    }
  }

  // ------------------------------------------------------------ properties

  /** Required combinations that are saved already are not engineered
      again; the rest are, in required order, repeats kept. */
  lemma WorkListIsDifference(required: seq<Value>, saved: seq<Value>)
    ensures forall x :: x in WorkList(required, saved) <==> x in required && x !in saved
    ensures forall x :: x !in saved ==> multiset(WorkList(required, saved))[x] == multiset(required)[x]
    ensures |WorkList(required, saved)| == 0 <==> forall i :: 0 <= i < |required| ==> required[i] in saved
  {
    FilterMultiplicity(required, saved, false);
    var w := WorkList(required, saved);
    if |w| > 0 {
      assert w[0] in w;
    } else {
      forall i | 0 <= i < |required| ensures required[i] in saved {
      }
    }
  }

  /** Filtering by the saved list keeps the order of the required list. */
  lemma WorkListAppend(a: seq<Value>, b: seq<Value>, saved: seq<Value>)
    ensures WorkList(a + b, saved) == WorkList(a, saved) + WorkList(b, saved)
  {
    FilterAppend(a, b, saved, false);
  }

  /** The retained pairs fail exactly when some still-required saved
      combination first occurs past the end of the saved datasets. */
  lemma RetainedFails<D>(saved: seq<Value>, savedData: seq<D>, all: seq<Value>)
    ensures Retained(saved, savedData, all).None? <==>
      exists c :: c in saved && c in all && FirstIndex(saved, c) >= |savedData|
    ensures Retained(saved, savedData, all).Some? ==>
      && Retained(saved, savedData, all).value.0 == Filter(saved, all, true)
      && |Retained(saved, savedData, all).value.1| == |Retained(saved, savedData, all).value.0|
  {
    var kept := Filter(saved, all, true);
    if exists c :: c in saved && c in all && FirstIndex(saved, c) >= |savedData| {
      var c :| c in saved && c in all && FirstIndex(saved, c) >= |savedData|;
      assert c in kept;
      var i :| 0 <= i < |kept| && kept[i] == c;
    } else {
      forall i | 0 <= i < |kept| ensures FirstIndex(saved, kept[i]) < |savedData| {
        assert kept[i] in kept;
      }
    }
  }

  /** With nothing saved in the dataset list, a saved combination that is
      still required breaks the pass. */
  lemma RetainedWithoutData<D>(saved: seq<Value>, savedData: seq<D>, all: seq<Value>)
    requires |savedData| == 0
    ensures Retained(saved, savedData, all).None? <==> exists i :: 0 <= i < |saved| && saved[i] in all
    ensures Retained(saved, savedData, all).Some? ==> Retained(saved, savedData, all).value == ([], [])
  {
    RetainedFails(saved, savedData, all);
    var kept := Filter(saved, all, true);
    if exists i :: 0 <= i < |saved| && saved[i] in all {
      var i :| 0 <= i < |saved| && saved[i] in all;
      assert saved[i] in saved;
    } else {
      FilterNone(saved, all, true);
    }
  }

  /** Dictionary semantics: each key once, in first-insertion order, with the
      dataset of its last insertion among the zipped pairs. */
  lemma DeduplicatedSpec<D>(combs: seq<Value>, data: seq<D>)
    ensures var (keys, values) := Deduplicated(combs, data);
      var n := Min(|combs|, |data|);
      && NoDup(keys)
      && |keys| == |values|
      && (forall x :: x in keys <==> exists i :: 0 <= i < n && TupleKey(combs[i]) == x)
      && (forall j :: 0 <= j < |keys| ==>
            exists i ::
              0 <= i < n && TupleKey(combs[i]) == keys[j] && values[j] == data[i] &&
              (forall i' :: i < i' < n ==> TupleKey(combs[i']) != keys[j]))
  {
    var keys := Deduplicated(combs, data).0;
    DeduplicatedKeys(combs, data);
    forall j | 0 <= j < |keys|
      ensures exists i ::
        0 <= i < Min(|combs|, |data|) && TupleKey(combs[i]) == keys[j] &&
        Deduplicated(combs, data).1[j] == data[i] &&
        (forall i' :: i < i' < Min(|combs|, |data|) ==> TupleKey(combs[i']) != keys[j])
    {
      DeduplicatedLastWrite(combs, data, j);
    }
  }

  lemma DeduplicatedKeys<D>(combs: seq<Value>, data: seq<D>)
    ensures forall x :: x in Deduplicated(combs, data).0 <==>
      exists i :: 0 <= i < Min(|combs|, |data|) && TupleKey(combs[i]) == x
  {
    var zipped := ZippedKeys(combs, data);
    var keys := Deduplicated(combs, data).0;
    assert keys == Distinct(zipped);
    forall x | x in keys ensures exists i :: 0 <= i < |zipped| && TupleKey(combs[i]) == x {
      var i :| 0 <= i < |zipped| && zipped[i] == x;
    }
    forall i | 0 <= i < |zipped| ensures TupleKey(combs[i]) in keys {
      assert zipped[i] in zipped;
    }
  }

  lemma DeduplicatedLastWrite<D>(combs: seq<Value>, data: seq<D>, j: nat)
    requires j < |Deduplicated(combs, data).0|
    ensures var keys := Deduplicated(combs, data).0;
      exists i ::
        0 <= i < Min(|combs|, |data|) && TupleKey(combs[i]) == keys[j] &&
        Deduplicated(combs, data).1[j] == data[i] &&
        (forall i' :: i < i' < Min(|combs|, |data|) ==> TupleKey(combs[i']) != keys[j])
  {
    var zipped := ZippedKeys(combs, data);
    var keys := Deduplicated(combs, data).0;
    assert keys == Distinct(zipped);
    var i := LastIndex(zipped, keys[j]);
    assert Deduplicated(combs, data).1[j] == data[i];
    assert forall i' :: i < i' < |zipped| ==> zipped[i'] != keys[j];
  }

  /** The keys keep the order of their first insertion. */
  lemma DeduplicatedOrder<D>(combs: seq<Value>, data: seq<D>)
    ensures var keys := Deduplicated(combs, data).0;
      forall a, b :: 0 <= a < b < |keys| ==>
        FirstIndex(ZippedKeys(combs, data), keys[a]) < FirstIndex(ZippedKeys(combs, data), keys[b])
  {
    DistinctFirstOccurrenceOrder(ZippedKeys(combs, data));
  }

  /** `zip` stops at the shorter list: combinations without a dataset (or
      datasets without a combination) past the common length are dropped. */
  lemma ZipTruncates<D>(combs: seq<Value>, data: seq<D>)
    ensures var n := Min(|combs|, |data|);
      Deduplicated(combs, data) == Deduplicated(combs[..n], data[..n])
  {
    var n := Min(|combs|, |data|);
    var keys := ZippedKeys(combs, data);
    assert ZippedKeys(combs[..n], data[..n]) == keys;
    var order := Distinct(keys);
    var r1 := Deduplicated(combs, data);
    var r2 := Deduplicated(combs[..n], data[..n]);
    assert r1.0 == r2.0;
    forall j | 0 <= j < |order| ensures r1.1[j] == r2.1[j] {
      var k := LastIndex(keys, order[j]);
      assert data[..n][k] == data[k];
    }
    assert r1.1 == r2.1;
  }

  /** The last write wins: a key inserted twice keeps only the second
      dataset. */
  lemma LastWriteWins<D>(c: Value, d1: D, d2: D)
    ensures Deduplicated([c, c], [d1, d2]) == ([TupleKey(c)], [d2])
  {
    var keys := ZippedKeys([c, c], [d1, d2]);
    assert keys == [TupleKey(c), TupleKey(c)];
    assert keys[..1] == [TupleKey(c)];
    assert keys[..1][..0] == [];
    assert Distinct(keys[..1]) == [TupleKey(c)];
    assert Distinct(keys) == [TupleKey(c)];
    assert LastIndex(keys, TupleKey(c)) == 1;
    var r := Deduplicated([c, c], [d1, d2]);
    assert r.0 == [TupleKey(c)];
    assert r.1[0] == d2;
    assert r.1 == [d2];
  }

  /** A string key and the tuple of its characters are one dictionary key. */
  lemma StringKeyMeetsCharacterTuple<D>(d1: D, d2: D)
    ensures Deduplicated([Str("ab"), Tup(["a", "b"])], [d1, d2]) == ([Tup(["a", "b"])], [d2])
  {
    assert TupleKey(Str("ab")).items == ["a", "b"];
    assert ZippedKeys([Str("ab"), Tup(["a", "b"])], [d1, d2]) == ZippedKeys([Tup(["a", "b"]), Tup(["a", "b"])], [d1, d2]);
    LastWriteWins(Tup(["a", "b"]), d1, d2);
  }

  /** With saved datasets present the pass returns exactly the processor's
      output for the work list; nothing saved is merged in. */
  lemma ReplaceBranch<D>(
    kind: ProcessorKind, period: Option<string>, engineer: Adapter<D>,
    saved: seq<Value>, savedData: seq<D>, required: seq<Value>, context: RunContext)
    requires |savedData| > 0
    ensures Reconcile(kind, period, engineer, saved, savedData, required, context) ==
      engineer(Request(kind, period, WorkList(required, NormalizeSaved(saved)), context))
  {
  }

  /** Without saved datasets no saved entry can survive: a saved combination
      that is still required makes the pass raise, and otherwise the result
      is the dictionary built from the processor's output alone. */
  lemma MergeBranch<D>(
    kind: ProcessorKind, period: Option<string>, engineer: Adapter<D>,
    saved: seq<Value>, required: seq<Value>, context: RunContext)
    ensures var norm := NormalizeSaved(saved);
      var out := engineer(Request(kind, period, WorkList(required, norm), context));
      Reconcile(kind, period, engineer, saved, [], required, context) ==
        if exists i :: 0 <= i < |norm| && norm[i] in required then None
        else if out.None? then None
        else Some(Deduplicated(out.value.0, out.value.1))
  {
    var norm := NormalizeSaved(saved);
    var noData: seq<D> := [];
    RetainedWithoutData(norm, noData, required);
    var out := engineer(Request(kind, period, WorkList(required, norm), context));
    if out.Some? {
      assert [] + out.value.0 == out.value.0;
      assert [] + out.value.1 == out.value.1;
    }
  }

  /** A successful merging pass (no saved datasets) returns as many datasets
      as keys, no key twice, and every key a tuple. */
  lemma MergeBranchUnique<D>(
    kind: ProcessorKind, period: Option<string>, engineer: Adapter<D>,
    saved: seq<Value>, required: seq<Value>, context: RunContext)
    requires Reconcile(kind, period, engineer, saved, [], required, context).Some?
    ensures var r := Reconcile(kind, period, engineer, saved, [], required, context).value;
      NoDup(r.0) && |r.0| == |r.1| && forall i :: 0 <= i < |r.0| ==> r.0[i].Tup?
  {
    MergeBranch(kind, period, engineer, saved, required, context);
    var out := engineer(Request(kind, period, WorkList(required, NormalizeSaved(saved)), context)).value;
    DeduplicatedSpec(out.0, out.1);
    var keys := Deduplicated(out.0, out.1).0;
    forall i | 0 <= i < |keys| ensures keys[i].Tup? {
      assert keys[i] in keys;
    }
  }

  /** What the cache buys on the next run: once a merging pass has saved
      datasets covering every required combination, the next pass with the
      same required list has nothing left to engineer, and it returns (and
      so saves over the whole cache) whatever the processor reports for an
      empty request. */
  lemma SecondPass<D>(
    kind: ProcessorKind, period: Option<string>, engineer: Adapter<D>,
    saved: seq<Value>, required: seq<Value>, context: RunContext)
    requires Reconcile(kind, period, engineer, saved, [], required, context).Some?
    requires |Reconcile(kind, period, engineer, saved, [], required, context).value.1| > 0
    requires forall i :: 0 <= i < |required| ==>
      required[i] in Reconcile(kind, period, engineer, saved, [], required, context).value.0
    ensures var r := Reconcile(kind, period, engineer, saved, [], required, context).value;
      && WorkList(required, NormalizeSaved(r.0)) == []
      && Reconcile(kind, period, engineer, r.0, r.1, required, context) == engineer(Request(kind, period, [], context))
  {
    var r := Reconcile(kind, period, engineer, saved, [], required, context).value;
    MergeBranchUnique(kind, period, engineer, saved, required, context);
    NormalizeTuples(r.0);
    WorkListIsDifference(required, r.0);
    ReplaceBranch(kind, period, engineer, r.0, r.1, required, context);
  }

  /** Saved keys that are tuples already are left as they are. */
  lemma NormalizeTuples(saved: seq<Value>)
    requires forall i :: 0 <= i < |saved| ==> saved[i].Tup?
    ensures NormalizeSaved(saved) == saved
  {
    var r := NormalizeSaved(saved);
    assert forall i :: 0 <= i < |r| ==> r[i] == saved[i];
  }

  /** Loading what was written gives it back; a failed write leaves a file
      that loads as empty, a failed open leaves the old file. */
  lemma SaveLoadRoundTrip<D>(s: Snapshot<D>, combinations: seq<Value>, data: seq<D>)
    ensures Loaded(AfterSave(s, combinations, data, Written)) == (combinations, data)
    ensures Loaded(AfterSave(s, combinations, data, WriteFailed)) == ([], [])
    ensures Loaded(AfterSave(s, combinations, data, OpenFailed)) == Loaded(s)
  {
  }
}
