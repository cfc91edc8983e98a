/**
 * The per-state report of home_healthcare_quality.py, lines 154-162: the
 * states ranked by predicted change, and the top five.
 */
module StateRanking {
  import opened Outcome
  import opened Ranking
  import opened WhatIf

  /** One row of the per-state result table. */
  datatype StateChange = StateChange(state: string, baseline: real, whatIf: real, change: real)

  /** How many rows the report prints. */
  const TopStates: nat := 5

  function Change(r: StateChange): real
  {
    r.change
  }

  /**
   * The per-state result table built from four columns (lines 155-159):
   * row i gathers the i-th entry of every column; pandas refuses columns of
   * different lengths.
   */
  function StateTable(states: seq<string>, s: Scenario): (r: Result<seq<StateChange>>)
    ensures r.Failure? <==> !(|states| == |s.baseline| == |s.whatIf| == |s.delta|)
    ensures r.Failure? ==> r.error == LengthMismatch
    ensures r.Success? ==> |r.value| == |states|
    ensures r.Success? ==> forall i :: 0 <= i < |states| ==>
      r.value[i] == StateChange(states[i], s.baseline[i], s.whatIf[i], s.delta[i])
  {
    if !(|states| == |s.baseline| == |s.whatIf| == |s.delta|) then
      Failure(LengthMismatch)
    else
      Success(seq(|states|, i requires 0 <= i < |states| =>
        StateChange(states[i], s.baseline[i], s.whatIf[i], s.delta[i])))
  }

  /**
   * The state report, lines 154-162 taken on their own. `states` is the
   * "State" column when the table has one; `scenario` is what the what-if step
   * left behind, absent when it was skipped. Without a "State" column nothing
   * is reported; with one, the step reads the what-if variables and fails if
   * they were never assigned. Otherwise it reports the first five rows of the
   * table sorted by change. In the whole script a skipped what-if step fails
   * earlier, at the plot of line 141, which reads `delta`.
   */
  function StateReport(states: Option<seq<string>>, scenario: Option<Scenario>): (r: Result<Option<seq<StateChange>>>)
    ensures states.None? ==> r == Success(None)
    ensures states.Some? && scenario.None? ==> r == Failure(Undefined("baseline_pred"))
    ensures states.Some? && scenario.Some? ==>
      (r.Failure? <==> StateTable(states.value, scenario.value).Failure?)
    ensures r.Success? && r.value.Some? ==> states.Some? && scenario.Some?
  {
    match states
    case None => Success(None)
    case Some(names) =>
      match scenario
      case None => Failure(Undefined("baseline_pred"))
      case Some(s) =>
        match StateTable(names, s)
        case Failure(e) => Failure(e)
        case Success(table) => Success(Some(TopK(table, Change, TopStates)))
  }

  /** A printed report has min(5, n) rows, largest change first. */
  lemma {:induction false} StateReportRanked(states: seq<string>, s: Scenario) returns (top: seq<StateChange>)
    requires |states| == |s.baseline| == |s.whatIf| == |s.delta|
    ensures StateReport(Some(states), Some(s)) == Success(Some(top))
    ensures |top| == if |states| < TopStates then |states| else TopStates
    ensures SortedDesc(top, Change)
  {
    var table := StateTable(states, s).value;
    top := TopK(table, Change, TopStates);
    TopKShape(table, Change, TopStates);
  }

  /**
   * Each reported row is the row of one state, and no state left out has a
   * larger change than one shown.
   */
  lemma {:induction false} StateReportSelects(states: seq<string>, s: Scenario, top: seq<StateChange>)
    requires StateReport(Some(states), Some(s)) == Success(Some(top))
    ensures multiset(top) <= multiset(StateTable(states, s).value)
    ensures forall x :: x in top ==>
      exists i :: 0 <= i < |states| && x == StateChange(states[i], s.baseline[i], s.whatIf[i], s.delta[i])
    ensures forall i, x ::
      0 <= i < |states| && x in top && StateChange(states[i], s.baseline[i], s.whatIf[i], s.delta[i]) !in top
      ==> x.change >= s.delta[i]
  {
    var table := StateTable(states, s).value;
    assert top == TopK(table, Change, TopStates);
    assert multiset(top) <= multiset(table) by {
      TopKSelectsLargest(table, Change, TopStates);
    }
    TopKMembers(table, Change, TopStates);
    forall x | x in top
      ensures exists i :: 0 <= i < |states| && x == StateChange(states[i], s.baseline[i], s.whatIf[i], s.delta[i])
    {
      var i :| 0 <= i < |table| && table[i] == x;
    }
    forall i, x | 0 <= i < |states| && x in top &&
      StateChange(states[i], s.baseline[i], s.whatIf[i], s.delta[i]) !in top
      ensures x.change >= s.delta[i]
    {
      assert table[i] == StateChange(states[i], s.baseline[i], s.whatIf[i], s.delta[i]);
    }
  }

  /**
   * For a scenario whose delta is the difference of its predictions, every
   * reported change is that state's what-if prediction minus its baseline one.
   */
  lemma {:induction false} ReportedChangesAreDifferences(states: seq<string>, s: Scenario, top: seq<StateChange>)
    requires Consistent(s) && |states| == |s.delta|
    requires StateReport(Some(states), Some(s)) == Success(Some(top))
    ensures forall x :: x in top ==> x.change == x.whatIf - x.baseline
  {
    StateReportSelects(states, s, top);
    forall x | x in top ensures x.change == x.whatIf - x.baseline {
      var i :| 0 <= i < |states| && x == StateChange(states[i], s.baseline[i], s.whatIf[i], s.delta[i]);
    }
  }
}
