/**
 * The feature-importance table of home_healthcare_quality.py, lines 93-99:
 * built, ranked, and cut to its top ten rows.
 */
module Importances {
  import opened Outcome
  import opened Ranking

  /** One row of the feature-importance table. */
  datatype FeatureImportance = FeatureImportance(feature: string, importance: real)

  /** How many rows the top-features report keeps. */
  const TopFeatures: nat := 10

  function Importance(r: FeatureImportance): real
  {
    r.importance
  }

  /**
   * The feature-importance table built from two columns (lines 93-95): row i
   * pairs the i-th name with the i-th score; pandas refuses columns of different lengths.
   */
  function ImportanceTable(names: seq<string>, importances: seq<real>): (r: Result<seq<FeatureImportance>>)
    ensures r.Failure? <==> |names| != |importances|
    ensures r.Failure? ==> r.error == LengthMismatch
    ensures r.Success? ==> |r.value| == |names|
    ensures r.Success? ==>
      forall i :: 0 <= i < |names| ==> r.value[i] == FeatureImportance(names[i], importances[i])
  {
    if |names| != |importances| then Failure(LengthMismatch)
    else Success(seq(|names|, i requires 0 <= i < |names| => FeatureImportance(names[i], importances[i])))
  }

  /** The same rows, rearranged by descending importance (line 96). */
  function RankImportances(names: seq<string>, importances: seq<real>): (r: Result<seq<FeatureImportance>>)
    ensures r.Failure? <==> |names| != |importances|
    ensures r.Success? ==> SortedDesc(r.value, Importance)
    ensures r.Success? ==> multiset(r.value) == multiset(ImportanceTable(names, importances).value)
  {
    match ImportanceTable(names, importances)
    case Failure(e) => Failure(e)
    case Success(table) => Success(SortDesc(table, Importance))
  }

  /** The first ten rows of the ranked table (line 99). */
  function Top10(names: seq<string>, importances: seq<real>): (r: Result<seq<FeatureImportance>>)
    ensures r.Failure? <==> |names| != |importances|
  {
    match RankImportances(names, importances)
    case Failure(e) => Failure(e)
    case Success(ranked) => Success(Head(ranked, TopFeatures))
  }

  /** The top-features report holds min(10, n) rows, largest importance first. */
  lemma {:induction false} Top10Ranked(names: seq<string>, importances: seq<real>)
    returns (top: seq<FeatureImportance>)
    requires |names| == |importances|
    ensures Top10(names, importances) == Success(top)
    ensures |top| == if |names| < TopFeatures then |names| else TopFeatures
    ensures SortedDesc(top, Importance)
  {
    var table := ImportanceTable(names, importances).value;
    top := TopK(table, Importance, TopFeatures);
    TopKShape(table, Importance, TopFeatures);
  }

  /**
   * Every reported row pairs a feature with its own importance, and every
   * pair left out scores no higher than every pair kept.
   */
  lemma {:induction false} Top10Selects(names: seq<string>, importances: seq<real>, top: seq<FeatureImportance>)
    requires Top10(names, importances) == Success(top)
    ensures multiset(top) <= multiset(ImportanceTable(names, importances).value)
    ensures forall x :: x in top ==>
      exists i :: 0 <= i < |names| && x == FeatureImportance(names[i], importances[i])
    ensures forall i, x :: 0 <= i < |names| && FeatureImportance(names[i], importances[i]) !in top && x in top ==>
      x.importance >= importances[i]
  {
    var table := ImportanceTable(names, importances).value;
    assert top == TopK(table, Importance, TopFeatures);
    assert multiset(top) <= multiset(table) by {
      TopKSelectsLargest(table, Importance, TopFeatures);
    }
    TopKMembers(table, Importance, TopFeatures);
    forall x | x in top
      ensures exists i :: 0 <= i < |names| && x == FeatureImportance(names[i], importances[i])
    {
      var i :| 0 <= i < |table| && table[i] == x;
    }
    forall i, x | 0 <= i < |names| && FeatureImportance(names[i], importances[i]) !in top && x in top
      ensures x.importance >= importances[i]
    {
      assert table[i] == FeatureImportance(names[i], importances[i]);
    }
  }
}
