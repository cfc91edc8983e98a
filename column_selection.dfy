/**
 * Choosing the model's inputs from the loaded table, as home_healthcare_quality.py
 * does at lines 32 and 47-54: the float-typed columns, the target, the leakage
 * columns and the feature columns that remain.
 */
module ColumnSelection {
  import opened Outcome
  import opened Strings

  /** The pandas dtypes the selection distinguishes. */
  datatype DType = Float64 | Int64 | Object

  /** A column header of the loaded table: its name and its dtype. */
  datatype Column = Column(name: string, dtype: DType)

  /** The column the regressor predicts. */
  const TargetColumn: string := "Quality of Patient Care Star Rating"
  /** Leakage columns start with this prefix ... */
  const LeakPrefix: string := "Star Rating"
  /** ... and contain this marker. */
  const LeakMarker: string := "Percentage"

  /** `s` lists the elements of `t` in their order, possibly skipping some. */
  ghost predicate IsSubsequence(s: seq<string>, t: seq<string>)
    decreases |t|
  {
    s == [] ||
    (t != [] && ((s[0] == t[0] && IsSubsequence(s[1..], t[1..])) || IsSubsequence(s, t[1..])))
  }

  /** The names of the columns, in the table's order. */
  function Names(df: seq<Column>): (r: seq<string>)
    ensures |r| == |df|
    ensures forall i :: 0 <= i < |df| ==> r[i] == df[i].name
  {
    if df == [] then [] else [df[0].name] + Names(df[1..])
  }

  /** The names of the float64 columns, in the table's order (line 32). */
  function NumericColumns(df: seq<Column>): (r: seq<string>)
    ensures forall c :: c in r <==> exists i :: 0 <= i < |df| && df[i] == Column(c, Float64)
    ensures IsSubsequence(r, Names(df))
  {
    if df == [] then []
    else
      var rest := NumericColumns(df[1..]);
      assert forall c, i :: 0 <= i < |df| - 1 ==> (df[1..][i] == Column(c, Float64) <==> df[i + 1] == Column(c, Float64));
      if df[0].dtype == Float64 then [df[0].name] + rest else rest
  }

  /** The leakage test applied to one column name. */
  predicate IsLeak(name: string)
  {
    StartsWith(name, LeakPrefix) && Contains(name, LeakMarker)
  }

  /** The leakage columns among all the table's columns, in their order (line 48). */
  function LeakColumns(names: seq<string>): (r: seq<string>)
    ensures forall c :: c in r <==>
      c in names && OccursAt(c, LeakPrefix, 0) && exists i :: OccursAt(c, LeakMarker, i)
    ensures IsSubsequence(r, names)
  {
    if names == [] then []
    else
      var rest := LeakColumns(names[1..]);
      if IsLeak(names[0]) then [names[0]] + rest else rest
  }

  /** The labels of `labels` that are not among `cols`, in order. */
  function Missing(labels: seq<string>, cols: seq<string>): (r: seq<string>)
    ensures forall l :: l in r <==> l in labels && l !in cols
  {
    if labels == [] then []
    else
      var rest := Missing(labels[1..], cols);
      if labels[0] in cols then rest else [labels[0]] + rest
  }

  /** The columns of `cols` that are not in `labels`, in order. */
  function Without(cols: seq<string>, labels: seq<string>): (r: seq<string>)
    ensures forall c :: c in r <==> c in cols && c !in labels
    ensures IsSubsequence(r, cols)
  {
    if cols == [] then []
    else
      var rest := Without(cols[1..], labels);
      if cols[0] in labels then rest else [cols[0]] + rest
  }

  /**
   * Dropping columns by label: pandas refuses the whole call with a KeyError
   * naming every label the frame lacks; otherwise every column whose label is
   * listed goes and the rest keep their order.
   */
  function Drop(cols: seq<string>, labels: seq<string>): (r: Result<seq<string>>)
    ensures r.Failure? <==> exists l :: l in labels && l !in cols
    ensures r.Failure? ==> r.error == NotFound(Missing(labels, cols))
    ensures r.Success? ==> forall c :: c in r.value <==> c in cols && c !in labels
    ensures r.Success? ==> IsSubsequence(r.value, cols)
  {
    var missing := Missing(labels, cols);
    if missing != [] then
      assert missing[0] in missing;
      Failure(NotFound(missing))
    else
      Success(Without(cols, labels))
  }

  /** The float columns with the target and the leakage columns dropped (line 53). */
  function FeatureColumns(df: seq<Column>): (r: Result<seq<string>>)
    ensures r.Success? ==> TargetColumn !in r.value
    ensures r.Success? ==> forall c :: c in r.value ==> c in NumericColumns(df) && !IsLeak(c)
  {
    assert forall c :: IsLeak(c) && c in Names(df) ==> c in LeakColumns(Names(df));
    Drop(NumericColumns(df), [TargetColumn] + LeakColumns(Names(df)))
  }

  /**
   * The feature columns are the float columns without the target and without
   * any leakage column, in their order. The selection fails exactly when the
   * target or some leakage column of the table is not a float column, since
   * the leakage list is drawn from all columns while the drop acts on the
   * float ones only.
   */
  lemma FeatureColumnsPartition(df: seq<Column>)
    ensures FeatureColumns(df).Failure? <==>
      TargetColumn !in NumericColumns(df) ||
      exists c :: c in Names(df) && IsLeak(c) && c !in NumericColumns(df)
    ensures FeatureColumns(df).Success? ==> forall c :: c in FeatureColumns(df).value <==>
      c in NumericColumns(df) && c != TargetColumn && !IsLeak(c)
    ensures FeatureColumns(df).Success? ==> IsSubsequence(FeatureColumns(df).value, NumericColumns(df))
  {
    var leak := LeakColumns(Names(df));
    NumericNamesListed(df);
    assert forall c :: c in [TargetColumn] + leak <==> c == TargetColumn || (c in Names(df) && IsLeak(c));
  }

  /** Every float column of the table is one of its columns. */
  lemma NumericNamesListed(df: seq<Column>)
    ensures forall c :: c in NumericColumns(df) ==> c in Names(df)
  {
  }
}
