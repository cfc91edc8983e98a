/**
 * The what-if scenario of home_healthcare_quality.py, lines 111-131: raise
 * flu-shot compliance by 10 points, capped at 100, on a copy of the feature
 * table, predict again and measure the change.
 */
module WhatIf {
  import opened Outcome
  import ColumnSelection

  /** The indicator the scenario raises. */
  const FluShotColumn: string :=
    "How often the home health team determined " + "whether patients received a flu shot " +
    "for the current flu season"
  /** The raise, in percentage points ... */
  const Raise: real := 10.0
  /** ... and the bound the raised value is clipped to. */
  const Cap: real := 100.0

  /**
   * A table of numeric columns by name, each holding one value per row, as a
   * value: the state of a frame at one moment.
   */
  datatype Table = Table(columns: seq<string>, cells: map<string, seq<real>>, rows: nat) {

    /** Every listed column has a vector of `rows` values, and only those do. */
    ghost predicate WellFormed()
    {
      (forall c :: c in columns <==> c in cells) &&
      (forall c :: c in cells ==> |cells[c]| == rows)
    }

    /**
     * Assigning a column by name: an existing column is overwritten where it
     * stands, a new one is appended; every other column keeps its values.
     */
    function With(name: string, values: seq<real>): (t: Table)
      requires WellFormed() && |values| == rows
      ensures t.WellFormed() && t.rows == rows
      ensures name in columns ==> t.columns == columns
      ensures name !in columns ==> t.columns == columns + [name]
      ensures t.cells[name] == values
      ensures forall c :: c in columns && c != name ==> t.cells[c] == cells[c]
    {
      Table(if name in columns then columns else columns + [name], cells[name := values], rows)
    }
  }

  /** A pandas frame of numeric columns; `X` and its what-if copy are two of them. */
  class Frame {
    var columns: seq<string>
    var cells: map<string, seq<real>>
    var rows: nat

    /** The frame's current contents. */
    function Value(): Table
      reads this
    {
      Table(columns, cells, rows)
    }

    ghost predicate Valid()
      reads this
    {
      Value().WellFormed()
    }

    constructor (t: Table)
      requires t.WellFormed()
      ensures Valid() && Value() == t
    {
      columns, cells, rows := t.columns, t.cells, t.rows;
    }

    /** A copy: a new frame with the same contents. */
    method Copy() returns (c: Frame)
      requires Valid()
      ensures fresh(c) && c.Valid() && c.Value() == Value()
    {
      c := new Frame(Value());
    }

    /** The values of one column, one per row. */
    function Column(name: string): (v: seq<real>)
      reads this
      requires Valid() && name in columns
      ensures |v| == rows
    {
      cells[name]
    }

    /** Assigns a column by name, in place. */
    method SetColumn(name: string, values: seq<real>)
      requires Valid() && |values| == rows
      modifies this
      ensures Valid() && Value() == old(Value()).With(name, values)
    {
      if name !in columns {
        columns := columns + [name];
      }
      cells := cells[name := values];
    }
  }

  /** One value raised by 10 and clipped at 100: the clip law of line 123. */
  function Bump(x: real): (r: real)
    ensures r <= Cap
    ensures x <= Cap - Raise ==> r == x + Raise
    ensures x >= Cap - Raise ==> r == Cap
    ensures x <= Cap ==> x <= r
  {
    if x + Raise < Cap then x + Raise else Cap
  }

  /** The clip law applied to every row of a column. */
  function BumpAll(xs: seq<real>): (r: seq<real>)
    ensures |r| == |xs|
    ensures forall i :: 0 <= i < |xs| ==> r[i] == Bump(xs[i])
  {
    if xs == [] then [] else [Bump(xs[0])] + BumpAll(xs[1..])
  }

  /**
   * The what-if table: the flu-shot column raised and clipped row by row; the
   * other columns, their order and the row count as in `t`.
   */
  function WhatIfTable(t: Table): (w: Table)
    requires t.WellFormed() && FluShotColumn in t.columns
    ensures w.WellFormed() && w.columns == t.columns && w.rows == t.rows
    ensures forall c :: c in t.columns && c != FluShotColumn ==> w.cells[c] == t.cells[c]
    ensures forall i :: 0 <= i < t.rows ==>
      w.cells[FluShotColumn][i] == Bump(t.cells[FluShotColumn][i])
  {
    t.With(FluShotColumn, BumpAll(t.cells[FluShotColumn]))
  }

  /**
   * Lines 122-123: the adjustment is made on a fresh copy, and `x` itself,
   * which the method may not modify, stays as it was.
   */
  method MakeWhatIf(x: Frame) returns (w: Frame)
    requires x.Valid() && FluShotColumn in x.columns
    ensures fresh(w) && w.Valid() && w.Value() == WhatIfTable(x.Value())
  {
    w := x.Copy();
    w.SetColumn(FluShotColumn, BumpAll(w.Column(FluShotColumn)));
  }

  /** The difference of two arrays of equal length, element by element. */
  function Subtract(a: seq<real>, b: seq<real>): (d: seq<real>)
    requires |a| == |b|
    ensures |d| == |a|
    ensures forall i :: 0 <= i < |a| ==> d[i] == a[i] - b[i]
  {
    if a == [] then [] else [a[0] - b[0]] + Subtract(a[1..], b[1..])
  }

  function Sum(xs: seq<real>): real
  {
    if xs == [] then 0.0 else xs[0] + Sum(xs[1..])
  }

  /** The arithmetic mean; numpy gives NaN for an empty array, modelled as None. */
  function Mean(xs: seq<real>): (m: Option<real>)
    ensures m.Some? <==> xs != []
  {
    if xs == [] then None else Some(Sum(xs) / (|xs| as real))
  }

  /** The sum of the differences is the difference of the sums. */
  lemma {:induction false} SumSubtract(a: seq<real>, b: seq<real>)
    requires |a| == |b|
    ensures Sum(Subtract(a, b)) == Sum(a) - Sum(b)
  {
    if a != [] {
      SumSubtract(a[1..], b[1..]);
      assert Subtract(a, b)[1..] == Subtract(a[1..], b[1..]);
    }
  }

  /** The average change is the change of the average prediction. */
  lemma {:induction false} MeanOfDifference(a: seq<real>, b: seq<real>)
    requires |a| == |b| && a != []
    ensures Mean(Subtract(a, b)) == Some(Mean(a).value - Mean(b).value)
  {
    SumSubtract(a, b);
    DivideDifference(Sum(a), Sum(b), |a| as real);
  }

  lemma DivideDifference(x: real, y: real, n: real)
    requires n > 0.0
    ensures (x - y) / n == x / n - y / n
  {
  }

  /** A sum of values inside [lo, hi] lies inside [n * lo, n * hi]. */
  lemma {:induction false} SumBounds(xs: seq<real>, lo: real, hi: real)
    requires forall i :: 0 <= i < |xs| ==> lo <= xs[i] <= hi
    ensures (|xs| as real) * lo <= Sum(xs) <= (|xs| as real) * hi
  {
    if xs != [] {
      SumBounds(xs[1..], lo, hi);
    }
  }

  /** The mean of values inside [lo, hi] lies inside [lo, hi]. */
  lemma {:induction false} MeanBounds(xs: seq<real>, lo: real, hi: real)
    requires xs != []
    requires forall i :: 0 <= i < |xs| ==> lo <= xs[i] <= hi
    ensures lo <= Mean(xs).value <= hi
  {
    SumBounds(xs, lo, hi);
    DivideBounds(Sum(xs), |xs| as real, lo, hi);
  }

  lemma DivideBounds(x: real, n: real, lo: real, hi: real)
    requires n > 0.0 && n * lo <= x <= n * hi
    ensures lo <= x / n <= hi
  {
  }

  /** What the scenario reports: both predictions, their difference and its mean. */
  datatype Scenario = Scenario(baseline: seq<real>, whatIf: seq<real>, delta: seq<real>, avgChange: Option<real>)

  /** The scenario's vectors have one entry per row and `delta` is their difference. */
  ghost predicate Consistent(s: Scenario)
  {
    |s.baseline| == |s.whatIf| == |s.delta| &&
    forall i :: 0 <= i < |s.delta| ==> s.delta[i] == s.whatIf[i] - s.baseline[i]
  }

  /**
   * Scaling followed by the regressor's prediction, both fitted beforehand and
   * never refitted: one prediction per row of any table it is given.
   */
  ghost predicate OnePerRow(predict: Table -> seq<real>)
  {
    forall t: Table :: t.WellFormed() ==> |predict(t)| == t.rows
  }

  /**
   * Lines 115-131: nothing happens unless the flu-shot column is a feature
   * column; otherwise both tables are predicted with the same fitted model,
   * the per-row change is the what-if prediction minus the baseline one, and
   * the average change is its mean.
   */
  method RunWhatIf(x: Frame, predict: Table -> seq<real>) returns (s: Option<Scenario>)
    requires x.Valid() && OnePerRow(predict)
    ensures s.Some? <==> FluShotColumn in x.columns
    ensures s.Some? ==>
      && s.value.baseline == predict(x.Value())
      && s.value.whatIf == predict(WhatIfTable(x.Value()))
      && |s.value.delta| == |s.value.baseline| == |s.value.whatIf| == x.rows
      && (forall i :: 0 <= i < x.rows ==> s.value.delta[i] == s.value.whatIf[i] - s.value.baseline[i])
      && s.value.avgChange == Mean(s.value.delta)
    ensures s.Some? ==> Consistent(s.value)
  {
    if FluShotColumn !in x.columns {
      return None;
    }
    var baseline := predict(x.Value());
    var w := MakeWhatIf(x);
    var whatIf := predict(w.Value());
    var delta := Subtract(whatIf, baseline);
    s := Some(Scenario(baseline, whatIf, delta, Mean(delta)));
  }

  /**
   * The guard of line 115 passes exactly when the flu-shot indicator is a float
   * column of the loaded table: its name is neither the target nor a leakage
   * column, so the selection of line 53 never removes it.
   */
  lemma {:induction false} FluShotColumnIsFeature(df: seq<ColumnSelection.Column>)
    requires ColumnSelection.FeatureColumns(df).Success?
    ensures FluShotColumn in ColumnSelection.FeatureColumns(df).value <==>
      FluShotColumn in ColumnSelection.NumericColumns(df)
  {
    ColumnSelection.FeatureColumnsPartition(df);
    assert FluShotColumn[0] == 'H' && ColumnSelection.LeakPrefix[0] == 'S';
    assert !ColumnSelection.IsLeak(FluShotColumn);
    assert |FluShotColumn| != |ColumnSelection.TargetColumn|;
  }
}
