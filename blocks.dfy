/**
 * The block scan behind detectar_bloques_x, stated on column positions: a row
 * marks some of its date columns, and the scan returns the maximal runs of
 * consecutive marked columns as (first position, last position) pairs.
 */
module Blocks {
  import opened Wrappers

  /** A run of columns, by position: (first, last), both included. */
  type Run = (int, int)

  /** The scan's state after some columns: the runs already closed and the start of the open one. */
  datatype ScanState = ScanState(closed: seq<Run>, active: Option<int>)

  /** One column of the scan: a mark opens a run if none is open, a blank closes the open run. */
  function ScanStep(st: ScanState, i: int, marked: bool): ScanState {
    if marked then
      (if st.active.None? then ScanState(st.closed, Some(i)) else st)
    else if st.active.Some? then ScanState(st.closed + [(st.active.value, i - 1)], None)
    else st
  }

  /** The scan's state after the given columns, one step per column, left to right. */
  function Scan(marks: seq<bool>): ScanState
    decreases |marks|
  {
    if |marks| == 0 then ScanState([], None)
    else ScanStep(Scan(marks[..|marks| - 1]), |marks| - 1, marks[|marks| - 1])
  }

  /** The scan of one more column is one more step. */
  lemma ScanSnoc(marks: seq<bool>, b: bool)
    ensures Scan(marks + [b]) == ScanStep(Scan(marks), |marks|, b)
  {
    assert (marks + [b])[..|marks|] == marks;
  }

  /** The runs of a state at the end of n columns: a run still open is closed at the last column. */
  function Finish(st: ScanState, n: int): seq<Run> {
    if st.active.Some? then st.closed + [(st.active.value, n - 1)] else st.closed
  }

  /** The runs the block scan returns for a row with the given marks. */
  function Runs(marks: seq<bool>): seq<Run> {
    Finish(Scan(marks), |marks|)
  }

  /** The run lies inside the row and every column of it is marked. */
  predicate RunSound(marks: seq<bool>, r: Run) {
    0 <= r.0 <= r.1 < |marks| && forall i :: r.0 <= i <= r.1 ==> marks[i]
  }

  /** The column before the run and the column after it are unmarked or off the row. */
  predicate RunMaximal(marks: seq<bool>, r: Run)
    requires RunSound(marks, r)
  {
    (r.0 == 0 || !marks[r.0 - 1]) && (r.1 == |marks| - 1 || !marks[r.1 + 1])
  }

  /** Runs in left-to-right order with at least one unmarked column between neighbours. */
  predicate Separated(runs: seq<Run>) {
    forall k :: 0 < k < |runs| ==> runs[k - 1].1 + 1 < runs[k].0
  }

  predicate Covered(runs: seq<Run>, i: int) {
    exists k :: 0 <= k < |runs| && runs[k].0 <= i <= runs[k].1
  }

  /** Every closed run is sound and maximal, and ends before the last column seen. */
  predicate ClosedOk(marks: seq<bool>, closed: seq<Run>) {
    forall k :: 0 <= k < |closed| ==>
      RunSound(marks, closed[k]) && RunMaximal(marks, closed[k]) && closed[k].1 + 1 < |marks|
  }

  /** The open run, if any, starts after an unmarked column and is marked up to the last column seen. */
  predicate ActiveOk(marks: seq<bool>, st: ScanState) {
    var n := |marks|;
    (st.active.Some? ==>
      0 <= st.active.value < n
      && (forall i :: st.active.value <= i < n ==> marks[i])
      && (st.active.value == 0 || !marks[st.active.value - 1])
      && (|st.closed| > 0 ==> st.closed[|st.closed| - 1].1 + 1 < st.active.value))
    && (st.active.None? ==> n == 0 || !marks[n - 1])
  }

  /** Every marked column seen lies in a closed run or in the open one. */
  predicate CoverOk(marks: seq<bool>, st: ScanState) {
    forall i :: 0 <= i < |marks| && marks[i] ==>
      Covered(st.closed, i) || (st.active.Some? && st.active.value <= i)
  }

  /** What the scan keeps true after the first |marks| columns. */
  predicate ScanInv(marks: seq<bool>, st: ScanState) {
    ClosedOk(marks, st.closed) && Separated(st.closed) && ActiveOk(marks, st) && CoverOk(marks, st)
  }

  lemma ClosedExtend(marks: seq<bool>, closed: seq<Run>)
    requires |marks| > 0 && ClosedOk(marks[..|marks| - 1], closed)
    ensures ClosedOk(marks, closed)
  {
    var init := marks[..|marks| - 1];
    forall k | 0 <= k < |closed|
      ensures RunSound(marks, closed[k]) && RunMaximal(marks, closed[k])
    {
      assert RunSound(init, closed[k]) && RunMaximal(init, closed[k]);
      forall i | closed[k].0 <= i <= closed[k].1 ensures marks[i] {
        assert init[i];
      }
    }
  }

  lemma StepClosed(marks: seq<bool>, st: ScanState)
    requires |marks| > 0 && ScanInv(marks[..|marks| - 1], st)
    ensures ClosedOk(marks, ScanStep(st, |marks| - 1, marks[|marks| - 1]).closed)
    ensures Separated(ScanStep(st, |marks| - 1, marks[|marks| - 1]).closed)
  {
    var n := |marks|;
    var init := marks[..n - 1];
    ClosedExtend(marks, st.closed);
    if !marks[n - 1] && st.active.Some? {
      var r := (st.active.value, n - 2);
      var closed' := st.closed + [r];
      forall i | r.0 <= i <= r.1 ensures marks[i] {
        assert init[i];
      }
      assert r.0 > 0 ==> init[r.0 - 1] == marks[r.0 - 1];
      assert RunSound(marks, r) && RunMaximal(marks, r);
      forall k | 0 <= k < |closed'|
        ensures RunSound(marks, closed'[k]) && RunMaximal(marks, closed'[k]) && closed'[k].1 + 1 < n
      {
        if k < |st.closed| {
          assert closed'[k] == st.closed[k];
        }
      }
    }
  }

  lemma StepActive(marks: seq<bool>, st: ScanState)
    requires |marks| > 0 && ScanInv(marks[..|marks| - 1], st)
    ensures ActiveOk(marks, ScanStep(st, |marks| - 1, marks[|marks| - 1]))
  {
    var n := |marks|;
    var init := marks[..n - 1];
    if marks[n - 1] && st.active.Some? {
      var a := st.active.value;
      forall i | a <= i < n ensures marks[i] {
        if i < n - 1 {
          assert init[i];
        }
      }
      assert a > 0 ==> init[a - 1] == marks[a - 1];
    }
    if marks[n - 1] && st.active.None? {
      assert n > 1 ==> init[n - 2] == marks[n - 2];
      if |st.closed| > 0 {
        assert st.closed[|st.closed| - 1].1 + 1 < n - 1;
      }
    }
  }

  lemma StepCover(marks: seq<bool>, st: ScanState)
    requires |marks| > 0 && ScanInv(marks[..|marks| - 1], st)
    ensures CoverOk(marks, ScanStep(st, |marks| - 1, marks[|marks| - 1]))
  {
    var n := |marks|;
    var init := marks[..n - 1];
    var st' := ScanStep(st, n - 1, marks[n - 1]);
    forall i | 0 <= i < n && marks[i]
      ensures Covered(st'.closed, i) || (st'.active.Some? && st'.active.value <= i)
    {
      if i < n - 1 {
        assert init[i];
        if Covered(st.closed, i) {
          var k :| 0 <= k < |st.closed| && st.closed[k].0 <= i <= st.closed[k].1;
          assert st'.closed[k] == st.closed[k];
        } else if !marks[n - 1] {
          assert st'.closed[|st.closed|].0 <= i <= st'.closed[|st.closed|].1;
        }
      }
    }
  }

  lemma {:induction false} ScanKeepsInv(marks: seq<bool>)
    ensures ScanInv(marks, Scan(marks))
    decreases |marks|
  {
    var n := |marks|;
    if n > 0 {
      ScanKeepsInv(marks[..n - 1]);
      var st := Scan(marks[..n - 1]);
      StepClosed(marks, st);
      StepActive(marks, st);
      StepCover(marks, st);
    }
  }

  /** The returned runs are sound, maximal and separated, and they cover exactly the marked columns. */
  lemma RunsCorrect(marks: seq<bool>)
    ensures forall k :: 0 <= k < |Runs(marks)| ==>
      RunSound(marks, Runs(marks)[k]) && RunMaximal(marks, Runs(marks)[k])
    ensures Separated(Runs(marks))
    ensures forall i :: 0 <= i < |marks| ==> (marks[i] <==> Covered(Runs(marks), i))
  {
    ScanKeepsInv(marks);
    RunsSoundMaximal(marks);
    RunsCover(marks);
  }

  lemma RunsSoundMaximal(marks: seq<bool>)
    requires ScanInv(marks, Scan(marks))
    ensures forall k :: 0 <= k < |Runs(marks)| ==>
      RunSound(marks, Runs(marks)[k]) && RunMaximal(marks, Runs(marks)[k])
    ensures Separated(Runs(marks))
  {
    var n := |marks|;
    var st := Scan(marks);
    var runs := Runs(marks);
    if st.active.Some? {
      var r := (st.active.value, n - 1);
      assert runs == st.closed + [r];
      assert RunSound(marks, r) && RunMaximal(marks, r);
      forall k | 0 <= k < |st.closed| ensures runs[k] == st.closed[k] { }
    }
  }

  lemma RunsCover(marks: seq<bool>)
    requires ScanInv(marks, Scan(marks))
    requires forall k :: 0 <= k < |Runs(marks)| ==> RunSound(marks, Runs(marks)[k])
    ensures forall i :: 0 <= i < |marks| ==> (marks[i] <==> Covered(Runs(marks), i))
  {
    var n := |marks|;
    var st := Scan(marks);
    var runs := Runs(marks);
    forall i | 0 <= i < n ensures marks[i] <==> Covered(runs, i) {
      if marks[i] {
        if Covered(st.closed, i) {
          var k :| 0 <= k < |st.closed| && st.closed[k].0 <= i <= st.closed[k].1;
          assert runs[k] == st.closed[k];
        } else {
          assert runs[|runs| - 1].0 <= i <= runs[|runs| - 1].1;
        }
      }
      if Covered(runs, i) {
        var k :| 0 <= k < |runs| && runs[k].0 <= i <= runs[k].1;
        assert RunSound(marks, runs[k]);
      }
    }
  }

  /** Every returned run lies inside the row. */
  lemma RunsInRow(marks: seq<bool>)
    ensures forall k :: 0 <= k < |Runs(marks)| ==> 0 <= Runs(marks)[k].0 <= Runs(marks)[k].1 < |marks|
  {
    ScanKeepsInv(marks);
    RunsSoundMaximal(marks);
  }

  /** A row with no mark yields no block. */
  lemma {:induction false} NoMarksNoRuns(marks: seq<bool>)
    requires forall i :: 0 <= i < |marks| ==> !marks[i]
    ensures Scan(marks) == ScanState([], None)
    ensures Runs(marks) == []
    decreases |marks|
  {
    if |marks| > 0 {
      NoMarksNoRuns(marks[..|marks| - 1]);
    }
  }
}
