/** Where the runs of a column are cut, told from the cells of the columns before it. */
module ColumnRuns {
  import opened Layout
  import opened Columns

  /** In a strict table, and of comments, all cells of a column are one run. */
  lemma {:induction false} OneRun(rows: seq<seq<CellMark>>, pads: seq<seq<nat>>, strict: bool, maxPad: nat,
                                  columns: seq<nat>, runs: seq<seq<nat>>, k: nat, i: nat, j: nat)
    requires Fit(rows, pads) && k < |columns| && k < |runs| && ColumnLinedUp(rows, pads, strict, maxPad, columns, runs, k)
    requires strict || columns[k] == COMMENT
    requires i < j < |Ends(rows, pads, columns[k])|
    ensures var ends := Ends(rows, pads, columns[k]);
      ends[i].end + pads[ends[i].row][ends[i].at] == ends[j].end + pads[ends[j].row][ends[j].at]
  {
    hide Ends, StartsBefore;
    var ends := Ends(rows, pads, columns[k]);
    var moves := Moves(ends, pads);
    AllFirst(ends, moves, runs[k], StartsBefore(rows, columns, runs, k), maxPad, i);
    AllFirst(ends, moves, runs[k], StartsBefore(rows, columns, runs, k), maxPad, j);
    assert moves[i] == pads[ends[i].row][ends[i].at] && moves[j] == pads[ends[j].row][ends[j].at];
  }

  lemma {:induction false} AllFirst(ends: seq<End>, moves: seq<nat>, firsts: seq<nat>, starts: seq<bool>, maxPad: nat, j: nat)
    requires LinedUp(ends, moves, firsts, starts, false, maxPad) && j < |ends|
    ensures |firsts| == |ends| && firsts[j] == 0
  {
    if j > 0 {
      AllFirst(ends, moves, firsts, starts, maxPad, j - 1);
      assert !Breaks(ends, firsts, starts, false, maxPad, j) && !Cut(firsts, j);
    }
  }

  /** In any other, cells take no more than `maxPad`, and the first of those too far apart starts a run. */
  lemma {:induction false} ShortRuns(rows: seq<seq<CellMark>>, pads: seq<seq<nat>>, maxPad: nat, columns: seq<nat>, runs: seq<seq<nat>>,
                                     k: nat, i: nat, j: nat)
    requires Fit(rows, pads) && k < |columns| && k < |runs| && ColumnLinedUp(rows, pads, false, maxPad, columns, runs, k)
    requires columns[k] != COMMENT && i < j < |Ends(rows, pads, columns[k])|
    ensures var ends := Ends(rows, pads, columns[k]);
      && pads[ends[j].row][ends[j].at] <= maxPad && |runs[k]| == |ends|
      && (ends[i].end > ends[j].end + maxPad || ends[j].end > ends[i].end + maxPad ==> runs[k][i] != runs[k][j])
  {
    hide Ends, StartsBefore;
    var ends := Ends(rows, pads, columns[k]);
    var moves := Moves(ends, pads);
    assert moves[j] == pads[ends[j].row][ends[j].at] && moves[i] == pads[ends[i].row][ends[i].at];
    if runs[k][i] == runs[k][j] {
      assert ends[i].end + moves[i] == ends[j].end + moves[j];
    }
  }

  /** A run of the column other than its first begins at the row. */
  predicate BeginsAt(rows: seq<seq<CellMark>>, columns: seq<nat>, runs: seq<seq<nat>>, k: nat, row: nat)
    requires k < |columns| && k < |runs|
  {
    exists i :: 0 <= i < |Having(rows, columns[k], |rows|)| && Having(rows, columns[k], |rows|)[i] == row && Cut(runs[k], i)
  }

  lemma {:induction false} StartsExactly(rows: seq<seq<CellMark>>, columns: seq<nat>, runs: seq<seq<nat>>, count: nat, row: nat)
    requires count <= |columns| && count <= |runs| && row < |rows|
    ensures StartsBefore(rows, columns, runs, count)[row] <==> exists k :: 0 <= k < count && BeginsAt(rows, columns, runs, k, row)
    decreases count
  {
    hide Having, Cut;
    if count > 0 {
      StartsExactly(rows, columns, runs, count - 1, row);
      assert Marked(StartsBefore(rows, columns, runs, count - 1), Having(rows, columns[count - 1], |rows|), runs[count - 1])[row]
        <==> StartsBefore(rows, columns, runs, count - 1)[row] || BeginsAt(rows, columns, runs, count - 1, row);
    }
  }

  /** Some run of an earlier column begins on a row after the one, up to the other. */
  ghost predicate BeginsWithin(rows: seq<seq<CellMark>>, columns: seq<nat>, runs: seq<seq<nat>>, count: nat, after: nat, upto: nat)
    requires count <= |columns| && count <= |runs|
  {
    exists k, row: nat :: 0 <= k < count && after < row <= upto && BeginsAt(rows, columns, runs, k, row)
  }

  /** The cell is farther than `maxPad` from one of the run it would join. */
  ghost predicate TooFar(ends: seq<End>, firsts: seq<nat>, j: nat, maxPad: nat)
    requires 0 < j < |ends| == |firsts|
  {
    exists i :: 0 <= i < j && firsts[i] == firsts[j - 1] && (ends[i].end > ends[j].end + maxPad || ends[j].end > ends[i].end + maxPad)
  }

  /**
   * A column of a table that is not strict, other than of comments, starts a run exactly
   * where one of an earlier column begins since the cell before, or the cell is too far
   * from one of the run above.
   */
  lemma {:induction false} CutsExactly(rows: seq<seq<CellMark>>, pads: seq<seq<nat>>, maxPad: nat, columns: seq<nat>, runs: seq<seq<nat>>,
                                       k: nat, j: nat)
    requires Fit(rows, pads) && k < |columns| && k < |runs| && ColumnLinedUp(rows, pads, false, maxPad, columns, runs, k)
    requires columns[k] != COMMENT && 0 < j < |Ends(rows, pads, columns[k])|
    ensures var ends := Ends(rows, pads, columns[k]);
      && |runs[k]| == |ends|
      && (Cut(runs[k], j) <==>
          BeginsWithin(rows, columns, runs, k, ends[j - 1].row, ends[j].row) || TooFar(ends, runs[k], j, maxPad))
  {
    hide Ends, BeginsAt, BeginsWithin, StartedIn, StartsBefore;
    var ends, starts := Ends(rows, pads, columns[k]), StartsBefore(rows, columns, runs, k);
    assert Cut(runs[k], j) <==> Breaks(ends, runs[k], starts, true, maxPad, j);
    WithinExactly(rows, columns, runs, k, ends[j - 1].row, ends[j].row);
  }

  lemma {:induction false} WithinExactly(rows: seq<seq<CellMark>>, columns: seq<nat>, runs: seq<seq<nat>>, count: nat, after: nat, upto: nat)
    requires count <= |columns| && count <= |runs| && upto < |rows|
    ensures StartedIn(StartsBefore(rows, columns, runs, count), after, upto) <==> BeginsWithin(rows, columns, runs, count, after, upto)
  {
    hide BeginsAt, StartsBefore;
    forall row: nat | row < |rows|
      ensures StartsBefore(rows, columns, runs, count)[row] <==> exists m :: 0 <= m < count && BeginsAt(rows, columns, runs, m, row)
    {
      StartsExactly(rows, columns, runs, count, row);
    }
    var starts := StartsBefore(rows, columns, runs, count);
    if StartedIn(starts, after, upto) {
      var row: nat :| after < row <= upto && starts[row];
      var m :| 0 <= m < count && BeginsAt(rows, columns, runs, m, row);
      assert BeginsWithin(rows, columns, runs, count, after, upto);
    }
    if BeginsWithin(rows, columns, runs, count, after, upto) {
      var m, row: nat :| 0 <= m < count && after < row <= upto && BeginsAt(rows, columns, runs, m, row);
      assert starts[row];
    }
  }
}
