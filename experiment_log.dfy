/**
 * The session state of app.py: an experiment counter and a results table
 * with columns (no, iterations, mean), and the run handler that bumps the
 * counter, runs the producer and appends one row. The table keeps its row
 * index labels so that the re-indexing after each append can be stated.
 */
module ExperimentLog {
  import opened Wrappers
  import opened CoinToss

  /** One row of the results table. `mean` is None when the run drew no outcome. */
  datatype Record = Record(no: nat, iterations: nat, mean: Option<real>)

  /** A table: one index label per row, and the rows in order. */
  datatype Frame = Frame(index: seq<int>, rows: seq<Record>)

  /** The row index labels are exactly 0, 1, ..., |rows| - 1. */
  predicate RangeIndexed(f: Frame) {
    |f.index| == |f.rows| && forall i :: 0 <= i < |f.index| ==> f.index[i] == i
  }

  /** An empty table with the three columns. */
  function EmptyFrame(): (r: Frame)
    ensures r.rows == [] && RangeIndexed(r)
  {
    Frame([], [])
  }

  /** A table holding one row, labelled 0. */
  function SingleRowFrame(row: Record): (r: Frame)
    ensures r.rows == [row] && RangeIndexed(r)
  {
    Frame([0], [row])
  }

  /** Stacks two tables vertically; each row keeps its label. */
  function Concat(top: Frame, bottom: Frame): (r: Frame)
    ensures |r.rows| == |top.rows| + |bottom.rows| && |r.index| == |top.index| + |bottom.index|
    ensures r.rows[..|top.rows|] == top.rows && r.rows[|top.rows|..] == bottom.rows
    ensures forall i :: 0 <= i < |top.index| ==> r.index[i] == top.index[i]
    ensures forall j :: 0 <= j < |bottom.index| ==> r.index[|top.index| + j] == bottom.index[j]
  {
    Frame(top.index + bottom.index, top.rows + bottom.rows)
  }

  /**
   * Stacking two non-empty, freshly numbered tables repeats the label 0, so
   * the result is not numbered 0 .. len - 1 until its index is reset.
   */
  lemma ConcatRepeatsLabels(top: Frame, bottom: Frame)
    requires RangeIndexed(top) && RangeIndexed(bottom)
    requires |top.rows| > 0 && |bottom.rows| > 0
    ensures !RangeIndexed(Concat(top, bottom))
  {
    var r := Concat(top, bottom);
    assert r.index[|top.index|] == bottom.index[0] == 0;
  }

  /** Discards the labels and numbers the rows 0 .. |rows| - 1, keeping the rows as they are. */
  function ResetIndex(f: Frame): (r: Frame)
    ensures RangeIndexed(r)
    ensures r.rows == f.rows
  {
    Frame(seq(|f.rows|, i => i), f.rows)
  }

  /** The two session keys: the experiment counter and the results table. */
  datatype SessionState = SessionState(experimentNo: nat, results: Frame)

  /** The state a fresh session starts in. */
  function Initial(): (r: SessionState)
    ensures r.experimentNo == 0 && r.results.rows == [] && RangeIndexed(r.results)
  {
    SessionState(0, EmptyFrame())
  }

  /**
   * The session invariant: one row per run so far, the k-th row (0-based)
   * numbered k + 1, and the table labelled 0 .. count - 1.
   */
  predicate Numbered(st: SessionState) {
    && st.experimentNo == |st.results.rows|
    && RangeIndexed(st.results)
    && forall k :: 0 <= k < |st.results.rows| ==> st.results.rows[k].no == k + 1
  }

  /**
   * One press of Run with the given draw: bump the counter, append one row
   * numbered with the bumped counter, re-index. This holds from any state,
   * including one whose counter is ahead of its table.
   */
  function Step(st: SessionState, outcomes: seq<int>): (r: SessionState)
    ensures r.experimentNo == st.experimentNo + 1
    ensures r.results.rows == st.results.rows + [Record(st.experimentNo + 1, |outcomes|, FinalMean(outcomes))]
    ensures RangeIndexed(r.results)
  {
    var no := st.experimentNo + 1;
    var row := Record(no, |outcomes|, FinalMean(outcomes));
    SessionState(no, ResetIndex(Concat(st.results, SingleRowFrame(row))))
  }

  /**
   * A run stopped by a rerun of the script after the counter was bumped and
   * before the row was appended: only the counter has moved.
   */
  function Interrupt(st: SessionState): SessionState {
    SessionState(st.experimentNo + 1, st.results)
  }

  /**
   * After an interrupted run, the next completed run's row skips a number and
   * the counter stays one ahead of the table.
   */
  lemma InterruptedRunSkipsNumber(st: SessionState, outcomes: seq<int>)
    requires Numbered(st)
    ensures Step(Interrupt(st), outcomes).results.rows[|st.results.rows|].no == |st.results.rows| + 2
    ensures Step(Interrupt(st), outcomes).experimentNo == |Step(Interrupt(st), outcomes).results.rows| + 1
    ensures !Numbered(Step(Interrupt(st), outcomes))
  {
  }

  /** The state after one run per draw, in order, from a fresh session. */
  function Replay(runs: seq<seq<int>>): SessionState {
    if runs == [] then Initial() else Step(Replay(runs[..|runs| - 1]), runs[|runs| - 1])
  }

  /** A fresh session satisfies the invariant and has no rows. */
  lemma InitialNumbered()
    ensures Numbered(Initial()) && Initial().results.rows == []
  {
  }

  /**
   * A run appends exactly one row at the end, carrying the next number, the
   * trial count and the producer's result; earlier rows stay as they were,
   * and the invariant is kept.
   */
  lemma StepAppendsOneRow(st: SessionState, outcomes: seq<int>)
    requires Numbered(st)
    ensures Numbered(Step(st, outcomes))
    ensures |Step(st, outcomes).results.rows| == |st.results.rows| + 1
    ensures Step(st, outcomes).results.rows[..|st.results.rows|] == st.results.rows
    ensures Step(st, outcomes).results.rows[|st.results.rows|]
         == Record(|st.results.rows| + 1, |outcomes|, FinalMean(outcomes))
  {
  }

  /**
   * After m runs the counter is m and the table holds m rows, the k-th
   * (0-based) numbered k + 1 with the k-th run's trial count and final mean.
   */
  lemma {:induction false} ReplayLog(runs: seq<seq<int>>)
    ensures Numbered(Replay(runs))
    ensures Replay(runs).experimentNo == |runs|
    ensures |Replay(runs).results.rows| == |runs|
    ensures forall k :: 0 <= k < |runs| ==>
              Replay(runs).results.rows[k] == Record(k + 1, |runs[k]|, FinalMean(runs[k]))
  {
    if runs != [] {
      var earlier := runs[..|runs| - 1];
      ReplayLog(earlier);
      StepAppendsOneRow(Replay(earlier), runs[|runs| - 1]);
      assert forall k :: 0 <= k < |earlier| ==> earlier[k] == runs[k];
    }
  }

  /** Append-only: later runs never change the rows written by earlier ones. */
  lemma ReplayPrefix(runs: seq<seq<int>>, j: nat)
    requires j <= |runs|
    ensures |Replay(runs).results.rows| == |runs|
    ensures Replay(runs[..j]).results.rows == Replay(runs).results.rows[..j]
  {
    ReplayLog(runs);
    ReplayLog(runs[..j]);
  }

  /** The live session: the two session keys as fields the run handler updates. */
  class Session {
    var experimentNo: nat
    var results: Frame

    /** The abstract session state. */
    function State(): SessionState
      reads this
    {
      SessionState(experimentNo, results)
    }

    /** The table as shown to the user: in a numbered session, rows 1 .. counter in order. */
    function Snapshot(): (r: seq<Record>)
      reads this
      ensures Numbered(State()) ==> |r| == experimentNo
      ensures Numbered(State()) ==> forall k :: 0 <= k < |r| ==> r[k].no == k + 1
    {
      results.rows
    }

    /** Session start: counter 0 and an empty table. */
    constructor ()
      ensures State() == Initial()
      ensures Numbered(State())
    {
      experimentNo := 0;
      results := EmptyFrame();
    }

    /**
     * The Run handler: bumps the counter, runs the producer on the draw
     * (returning the chart rows it emitted), appends one row
     * (no, iterations, mean) and re-indexes the table.
     */
    method Run(outcomes: seq<int>) returns (emitted: seq<real>)
      modifies this
      ensures State() == Step(old(State()), outcomes)
      ensures experimentNo == old(experimentNo) + 1
      ensures Snapshot() == old(Snapshot()) + [Record(experimentNo, |outcomes|, FinalMean(outcomes))]
      ensures RangeIndexed(results)
      ensures old(Numbered(State())) ==> Numbered(State())
      ensures emitted == Samples(outcomes)
    {
      experimentNo := experimentNo + 1;
      var experimentMean;
      emitted, experimentMean := TossCoin(outcomes);
      results := Concat(results, SingleRowFrame(Record(experimentNo, |outcomes|, experimentMean)));
      results := ResetIndex(results);
    }
  }

  /** Three runs of 10, 20 and 30 trials on a fresh session give rows numbered 1, 2, 3. */
  method ThreeRuns(a: seq<int>, b: seq<int>, c: seq<int>)
    requires |a| == 10 && |b| == 20 && |c| == 30
  {
    var s := new Session();
    var _ := s.Run(a);
    var _ := s.Run(b);
    var _ := s.Run(c);
    var log := s.Snapshot();
    assert |log| == 3;
    assert log[0].no == 1 && log[1].no == 2 && log[2].no == 3;
    assert log[0].iterations == 10 && log[1].iterations == 20 && log[2].iterations == 30;
  }
}
