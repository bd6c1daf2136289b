/**
 * Lining up the columns of a table: runs of consecutive rows, column by column from the
 * left, each run padded to where its farthest cell ends.
 */
module Columns {
  import opened Wrappers
  import opened Layout

  /** The column of a comment at the end of a line, after every other. */
  const COMMENT: nat := 0xFFFF_FFFF_FFFF_FFFF

  function Sum(s: seq<nat>): nat {
    if s == [] then 0 else Sum(s[..|s| - 1]) + s[|s| - 1]
  }

  /** A row has cells, of columns from the left. */
  predicate IsRow(row: seq<CellMark>) {
    row != [] && forall i, j :: 0 <= i < j < |row| ==> row[i].index < row[j].index
  }

  predicate AreRows(rows: seq<seq<CellMark>>) {
    forall r :: 0 <= r < |rows| ==> IsRow(rows[r])
  }

  /** A number of padding for each cell of each row. */
  predicate Fit(rows: seq<seq<CellMark>>, pads: seq<seq<nat>>) {
    |pads| == |rows| && forall r :: 0 <= r < |rows| ==> |pads[r]| == |rows[r]|
  }

  /** A row with a cell in the column, which cell it is, and where it ends before its own padding. */
  datatype End = End(row: nat, at: nat, end: nat)

  /** Which cell of `row` is in the column, or their number if none is. */
  function Position(row: seq<CellMark>, index: nat): (at: nat)
    ensures at <= |row| && (at < |row| ==> row[at].index == index)
    ensures forall i :: 0 <= i < at ==> row[i].index != index
  {
    if row == [] || row[0].index == index then 0 else 1 + Position(row[1..], index)
  }

  /** Which of the first `count` rows have a cell in the column. */
  function Having(rows: seq<seq<CellMark>>, index: nat, count: nat): (having: seq<nat>)
    requires count <= |rows|
    ensures forall j :: 0 <= j < |having| ==> having[j] < count && Position(rows[having[j]], index) < |rows[having[j]]|
    ensures forall i, j :: 0 <= i < j < |having| ==> having[i] < having[j]
  {
    if count == 0 then []
    else
      var before := Having(rows, index, count - 1);
      if Position(rows[count - 1], index) == |rows[count - 1]| then before else before + [count - 1]
  }

  /** Where the cells of a column end, the cells before them on their rows padded. */
  function Ends(rows: seq<seq<CellMark>>, pads: seq<seq<nat>>, index: nat): (ends: seq<End>)
    requires Fit(rows, pads)
    ensures forall j :: 0 <= j < |ends| ==> ends[j].row < |rows| && ends[j].at < |rows[ends[j].row]|
  {
    var having := Having(rows, index, |rows|);
    seq(|having|, j requires 0 <= j < |having| =>
      var row := having[j];
      var at := Position(rows[row], index);
      End(row, at, rows[row][at].column + Sum(pads[row][..at])))
  }

  /** Some run started in an earlier column at a row after `after`, up to `row`. */
  predicate StartedIn(starts: seq<bool>, after: nat, row: nat)
    requires row < |starts|
  {
    exists r :: after < r <= row && starts[r]
  }

  predicate Far(a: nat, b: nat, maxPad: nat) {
    a > b + maxPad || b > a + maxPad
  }

  /** The first of `j`'s run starts a run of its own, other than the column's first. */
  predicate Cut(firsts: seq<nat>, j: nat) {
    0 < j < |firsts| && firsts[j] == j
  }

  /** The cells of a run end at the same place after their moves, where one of them already did. */
  ghost predicate Level(ends: seq<End>, moves: seq<nat>, firsts: seq<nat>) {
    && |moves| == |firsts| == |ends|
    && (forall j :: 0 <= j < |ends| ==> firsts[j] <= j && (firsts[j] == j || firsts[j] == firsts[j - 1]))
    && (forall i, j :: 0 <= i < j < |ends| && firsts[i] == firsts[j] ==>
          ends[i].end + moves[i] == ends[j].end + moves[j])
    && (forall j :: 0 <= j < |ends| ==> Unmoved(moves, firsts, firsts[j]))
  }

  /**
   * Where the runs of a column start: in a limited one wherever one did in an earlier
   * column, and before a cell too far from one of the run above it; in another nowhere.
   */
  ghost predicate CutWell(ends: seq<End>, firsts: seq<nat>, starts: seq<bool>, limited: bool, maxPad: nat) {
    && |firsts| == |ends|
    && (forall j :: 0 <= j < |ends| ==> ends[j].row < |starts|)
    && (forall j :: 0 < j < |ends| ==> (Cut(firsts, j) <==> Breaks(ends, firsts, starts, limited, maxPad, j)))
  }

  /** A run cannot go on to the cell at `j`. */
  predicate Breaks(ends: seq<End>, firsts: seq<nat>, starts: seq<bool>, limited: bool, maxPad: nat, j: nat)
    requires 0 < j < |ends| && j <= |firsts|
    requires forall j :: 0 <= j < |ends| ==> ends[j].row < |starts|
  {
    limited && (StartedIn(starts, ends[j - 1].row, ends[j].row) || Apart(ends, firsts, j, maxPad))
  }

  /** `moves` lines one column up, `firsts` saying where the run of each cell starts. */
  ghost predicate LinedUp(ends: seq<End>, moves: seq<nat>, firsts: seq<nat>, starts: seq<bool>, limited: bool, maxPad: nat) {
    && Level(ends, moves, firsts)
    && CutWell(ends, firsts, starts, limited, maxPad)
    && (limited ==> forall j :: 0 <= j < |ends| ==> moves[j] <= maxPad)
  }

  /** Some cell of the run that starts at `first` stays where it was. */
  predicate Unmoved(moves: seq<nat>, firsts: seq<nat>, first: nat) {
    exists i :: 0 <= i < |moves| && i < |firsts| && firsts[i] == first && moves[i] == 0
  }

  /** The cell is too far from one of the run it would join. */
  predicate Apart(ends: seq<End>, firsts: seq<nat>, j: nat, maxPad: nat)
    requires 0 < j < |ends| && j <= |firsts|
  {
    exists i :: 0 <= i < j && firsts[i] == firsts[j - 1] && Far(ends[i].end, ends[j].end, maxPad)
  }

  /** The moves of a column's cells, in the order of its ends. */
  function Moves(ends: seq<End>, pads: seq<seq<nat>>): (moves: seq<nat>)
    requires forall j :: 0 <= j < |ends| ==> ends[j].row < |pads| && ends[j].at < |pads[ends[j].row]|
    ensures |moves| == |ends|
  {
    seq(|ends|, j requires 0 <= j < |ends| => pads[ends[j].row][ends[j].at])
  }

  // ----- one column

  /** The cells that end no more than `maxPad` apart, from `low` to `high` at the farthest, in one run. */
  ghost predicate Near(ends: seq<End>, starts: seq<bool>, limited: bool, maxPad: nat, from: nat, to: nat, low: nat, high: nat)
    requires forall j :: 0 <= j < |ends| ==> ends[j].row < |starts|
  {
    && from <= low < to <= |ends| && from <= high < to
    && (forall j :: from <= j < to ==> ends[low].end <= ends[j].end <= ends[high].end)
    && (limited ==> ends[high].end - ends[low].end <= maxPad)
    && (limited ==> forall j :: from < j < to ==> !StartedIn(starts, ends[j - 1].row, ends[j].row))
  }

  /** A run started in an earlier column, or the cell is too far from the lowest or the highest. */
  predicate Stops(ends: seq<End>, starts: seq<bool>, maxPad: nat, to: nat, low: nat, high: nat)
    requires 0 < to < |ends| && low < to && high < to && ends[to].row < |starts|
  {
    || StartedIn(starts, ends[to - 1].row, ends[to].row)
    || Far(ends[low].end, ends[to].end, maxPad) || Far(ends[high].end, ends[to].end, maxPad)
  }

  /** How far the run that starts at `from` goes, and where its farthest cell ends. */
  method Gather(ends: seq<End>, starts: seq<bool>, limited: bool, maxPad: nat, from: nat)
    returns (to: nat, last: nat, ghost low: nat, ghost high: nat)
    requires forall j :: 0 <= j < |ends| ==> ends[j].row < |starts|
    requires from < |ends|
    ensures Near(ends, starts, limited, maxPad, from, to, low, high) && last == ends[high].end
    ensures to < |ends| ==> limited && Stops(ends, starts, maxPad, to, low, high)
  {
    hide StartedIn;
    var first := ends[from].end;
    last, low, high, to := ends[from].end, from, from, from + 1;
    while to < |ends|
      invariant from < to <= |ends| && Near(ends, starts, limited, maxPad, from, to, low, high)
      invariant first == ends[low].end && last == ends[high].end
    {
      var end := ends[to].end;
      var most, least := if last > end then last else end, if first < end then first else end;
      if limited && (StartedIn(starts, ends[to - 1].row, ends[to].row) || most - least > maxPad) {
        break;
      }
      if end < first { low := to; }
      if end > last { high := to; }
      first, last := least, most;
      to := to + 1;
    }
  }

  /** The runs of a column and what lines each up. */
  method LineUp(ends: seq<End>, starts: seq<bool>, limited: bool, maxPad: nat)
    returns (moves: seq<nat>, firsts: seq<nat>)
    requires forall j :: 0 <= j < |ends| ==> ends[j].row < |starts|
    ensures LinedUp(ends, moves, firsts, starts, limited, maxPad)
  {
    hide StartedIn, Apart, Far;
    moves, firsts := [], [];
    var from := 0;
    while from < |ends|
      invariant |moves| == |firsts| == from <= |ends|
      invariant LinedUp(ends[..from], moves, firsts, starts, limited, maxPad)
      invariant 0 < from < |ends| ==> Breaks(ends, firsts, starts, limited, maxPad, from)
    {
      hide LinedUp, Breaks;
      var to, last, low, high := Gather(ends, starts, limited, maxPad, from);
      ghost var before, placed := moves, firsts;
      for j := from to to
        invariant |moves| == |firsts| == j && moves[..from] == before && firsts[..from] == placed
        invariant forall i :: from <= i < j ==> moves[i] == last - ends[i].end && firsts[i] == from
      {
        moves, firsts := moves + [last - ends[j].end], firsts + [from];
      }
      RunAdded(ends, before, placed, moves, firsts, starts, limited, maxPad, from, to, low, high);
      if to < |ends| {
        RunEnds(ends, firsts, starts, limited, maxPad, from, to, low, high);
      }
      from := to;
    }
    assert ends[..from] == ends;
  }

  lemma RunEnds(ends: seq<End>, firsts: seq<nat>, starts: seq<bool>, limited: bool, maxPad: nat,
                from: nat, to: nat, low: nat, high: nat)
    requires from < to < |ends| && |firsts| == to
    requires forall j :: 0 <= j < |ends| ==> ends[j].row < |starts|
    requires limited && Near(ends, starts, limited, maxPad, from, to, low, high)
    requires Stops(ends, starts, maxPad, to, low, high)
    requires forall i :: from <= i < to ==> firsts[i] == from
    ensures Breaks(ends, firsts, starts, limited, maxPad, to)
  {
    assert firsts[low] == firsts[high] == firsts[to - 1];
  }

  /** One run more, lined up where its farthest cell ends. */
  ghost predicate Added(ends: seq<End>, before: seq<nat>, placed: seq<nat>, moves: seq<nat>, firsts: seq<nat>,
                        from: nat, to: nat, last: nat) {
    && from < to <= |ends| && |before| == |placed| == from && |moves| == |firsts| == to
    && moves[..from] == before && firsts[..from] == placed
    && (forall i :: from <= i < to ==> moves[i] == last - ends[i].end && firsts[i] == from)
  }

  lemma {:induction false} RunAdded(ends: seq<End>, before: seq<nat>, placed: seq<nat>, moves: seq<nat>, firsts: seq<nat>,
                                    starts: seq<bool>, limited: bool, maxPad: nat, from: nat, to: nat, low: nat, high: nat)
    requires forall j :: 0 <= j < |ends| ==> ends[j].row < |starts|
    requires Near(ends, starts, limited, maxPad, from, to, low, high)
    requires Added(ends, before, placed, moves, firsts, from, to, ends[high].end)
    requires LinedUp(ends[..from], before, placed, starts, limited, maxPad)
    requires 0 < from ==> Breaks(ends, placed, starts, limited, maxPad, from)
    ensures LinedUp(ends[..to], moves, firsts, starts, limited, maxPad)
  {
    RunLevel(ends, before, placed, moves, firsts, from, to, high);
    RunCut(ends, before, placed, moves, firsts, starts, limited, maxPad, from, to, low, high);
    assert forall j :: 0 <= j < from ==> moves[j] == before[j];
  }

  lemma {:induction false} RunLevel(ends: seq<End>, before: seq<nat>, placed: seq<nat>, moves: seq<nat>, firsts: seq<nat>,
                                    from: nat, to: nat, high: nat)
    requires from <= high < to <= |ends|
    requires Added(ends, before, placed, moves, firsts, from, to, ends[high].end)
    requires Level(ends[..from], before, placed)
    ensures Level(ends[..to], moves, firsts)
  {
    hide Unmoved, Far;
    var less, more := ends[..from], ends[..to];
    assert forall j :: 0 <= j < from ==> more[j] == less[j] && moves[j] == before[j] && firsts[j] == placed[j] < from;
    forall j | 0 <= j < to ensures Unmoved(moves, firsts, firsts[j]) {
      if j < from {
        StillUnmoved(before, placed, moves, firsts, from, placed[j]);
      } else {
        UnmovedAt(moves, firsts, high);
      }
    }
  }

  lemma StillUnmoved(before: seq<nat>, placed: seq<nat>, moves: seq<nat>, firsts: seq<nat>, from: nat, first: nat)
    requires |before| == from && from <= |moves| && |placed| == from && from <= |firsts| && Unmoved(before, placed, first)
    requires forall j :: 0 <= j < from ==> moves[j] == before[j] && firsts[j] == placed[j]
    ensures Unmoved(moves, firsts, first)
  {
    var i :| 0 <= i < from && placed[i] == first && before[i] == 0;
    assert firsts[i] == first && moves[i] == 0;
  }

  lemma UnmovedAt(moves: seq<nat>, firsts: seq<nat>, i: nat)
    requires i < |moves| && i < |firsts| && moves[i] == 0
    ensures Unmoved(moves, firsts, firsts[i])
  {
  }

  lemma {:induction false} RunCut(ends: seq<End>, before: seq<nat>, placed: seq<nat>, moves: seq<nat>, firsts: seq<nat>,
                                  starts: seq<bool>, limited: bool, maxPad: nat, from: nat, to: nat, low: nat, high: nat)
    requires forall j :: 0 <= j < |ends| ==> ends[j].row < |starts|
    requires Near(ends, starts, limited, maxPad, from, to, low, high)
    requires Added(ends, before, placed, moves, firsts, from, to, ends[high].end)
    requires Level(ends[..from], before, placed) && CutWell(ends[..from], placed, starts, limited, maxPad)
    requires 0 < from ==> Breaks(ends, placed, starts, limited, maxPad, from)
    ensures CutWell(ends[..to], firsts, starts, limited, maxPad)
  {
    hide CutWell, StartedIn;
    var less, more := ends[..from], ends[..to];
    assert forall j :: 0 <= j < from ==> more[j] == less[j] && firsts[j] == placed[j] < from;
    CutWell2(less, placed, starts, limited, maxPad);
    forall j | 0 < j < to
      ensures Cut(firsts, j) <==> Breaks(more, firsts, starts, limited, maxPad, j)
    {
      if j < from {
        assert Cut(firsts, j) == Cut(placed, j);
        ApartSame(less, more, placed, firsts, j, maxPad);
      } else if j == from {
        ApartSame(ends, more, placed, firsts, j, maxPad);
      } else if limited {
        forall i | 0 <= i < j && firsts[i] == firsts[j - 1] ensures !Far(more[i].end, more[j].end, maxPad) {
          assert i >= from;
        }
      }
    }
    CutWell1(more, firsts, starts, limited, maxPad);
  }

  lemma CutWell1(ends: seq<End>, firsts: seq<nat>, starts: seq<bool>, limited: bool, maxPad: nat)
    requires |firsts| == |ends| && forall j :: 0 <= j < |ends| ==> ends[j].row < |starts|
    requires forall j :: 0 < j < |ends| ==> (Cut(firsts, j) <==> Breaks(ends, firsts, starts, limited, maxPad, j))
    ensures CutWell(ends, firsts, starts, limited, maxPad)
  {
  }

  lemma CutWell2(ends: seq<End>, firsts: seq<nat>, starts: seq<bool>, limited: bool, maxPad: nat)
    requires CutWell(ends, firsts, starts, limited, maxPad)
    ensures |firsts| == |ends| && forall j :: 0 <= j < |ends| ==> ends[j].row < |starts|
    ensures forall j :: 0 < j < |ends| ==> (Cut(firsts, j) <==> Breaks(ends, firsts, starts, limited, maxPad, j))
  {
  }

  lemma {:induction false} ApartSame(less: seq<End>, more: seq<End>, placed: seq<nat>, firsts: seq<nat>, j: nat, maxPad: nat)
    requires 0 < j < |less| && j < |more| && j <= |placed| && j <= |firsts|
    requires forall i :: 0 <= i <= j ==> more[i] == less[i]
    requires forall i :: 0 <= i < j ==> firsts[i] == placed[i]
    ensures Apart(less, placed, j, maxPad) == Apart(more, firsts, j, maxPad)
  {
    assert firsts[j - 1] == placed[j - 1];
  }

  // ----- every column

  predicate Increasing(columns: seq<nat>) {
    forall i, j :: 0 <= i < j < |columns| ==> columns[i] < columns[j]
  }

  function Insert(columns: seq<nat>, index: nat): (r: seq<nat>)
    requires Increasing(columns)
    ensures Increasing(r) && forall c :: c in r <==> c in columns || c == index
  {
    if columns == [] || index < columns[0] then [index] + columns
    else if index == columns[0] then columns
    else
      var rest := Insert(columns[1..], index);
      assert columns == [columns[0]] + columns[1..];
      var r := [columns[0]] + rest;
      assert forall j :: 0 < j < |r| ==> r[j] == rest[j - 1] && r[j] in rest;
      r
  }

  predicate RowHas(row: seq<CellMark>, index: nat) {
    exists i :: 0 <= i < |row| && row[i].index == index
  }

  predicate HasColumn(rows: seq<seq<CellMark>>, index: nat) {
    exists r :: 0 <= r < |rows| && RowHas(rows[r], index)
  }

  /** The columns some row has a cell in, from the left. */
  function ColumnsOf(rows: seq<seq<CellMark>>): (columns: seq<nat>)
    ensures Increasing(columns) && forall c :: c in columns <==> HasColumn(rows, c)
  {
    if rows == [] then []
    else
      var row := rows[|rows| - 1];
      var columns := InsertAll(ColumnsOf(rows[..|rows| - 1]), row, |row|);
      assert row[..|row|] == row;
      assert forall c :: HasColumn(rows, c) <==> HasColumn(rows[..|rows| - 1], c) || RowHas(row, c) by {
        forall c ensures HasColumn(rows, c) <==> HasColumn(rows[..|rows| - 1], c) || RowHas(row, c) {
          LastHas(rows, c);
        }
      }
      columns
  }

  lemma LastHas(rows: seq<seq<CellMark>>, index: nat)
    requires rows != []
    ensures HasColumn(rows, index) <==> HasColumn(rows[..|rows| - 1], index) || RowHas(rows[|rows| - 1], index)
  {
    hide RowHas;
    var less := rows[..|rows| - 1];
    assert rows == less + [rows[|rows| - 1]];
    assert forall r :: 0 <= r < |less| ==> rows[r] == less[r];
  }

  function InsertAll(columns: seq<nat>, row: seq<CellMark>, count: nat): (r: seq<nat>)
    requires Increasing(columns) && count <= |row|
    ensures Increasing(r) && forall c :: c in r <==> c in columns || RowHas(row[..count], c)
  {
    assert row[..|row|] == row;
    if count == 0 then columns
    else
      assert row[..count] == row[..count - 1] + [row[count - 1]];
      Insert(InsertAll(columns, row, count - 1), row[count - 1].index)
  }

  /** `starts`, and the rows the runs of one column start at but its first. */
  function Marked(starts: seq<bool>, having: seq<nat>, firsts: seq<nat>): (r: seq<bool>)
    ensures |r| == |starts|
  {
    seq(|starts|, r requires 0 <= r < |starts| =>
      starts[r] || exists j :: 0 <= j < |having| && having[j] == r && Cut(firsts, j))
  }

  /** The rows some run starts at in the first `count` columns. */
  function StartsBefore(rows: seq<seq<CellMark>>, columns: seq<nat>, runs: seq<seq<nat>>, count: nat): (starts: seq<bool>)
    requires count <= |columns| && count <= |runs|
    ensures |starts| == |rows|
  {
    if count == 0 then seq(|rows|, _ => false)
    else Marked(StartsBefore(rows, columns, runs, count - 1), Having(rows, columns[count - 1], |rows|), runs[count - 1])
  }

  predicate Limited(index: nat, strict: bool) {
    !strict && index != COMMENT
  }

  /** The cells of the column are lined up in the runs `runs[k]` gives. */
  ghost predicate ColumnLinedUp(rows: seq<seq<CellMark>>, pads: seq<seq<nat>>, strict: bool, maxPad: nat,
                                columns: seq<nat>, runs: seq<seq<nat>>, k: nat)
    requires Fit(rows, pads) && k < |columns| && k < |runs|
  {
    var ends := Ends(rows, pads, columns[k]);
    LinedUp(ends, Moves(ends, pads), runs[k], StartsBefore(rows, columns, runs, k), Limited(columns[k], strict), maxPad)
  }

  /** Every column is lined up in runs, which only start more often from left to right. */
  ghost predicate AllLinedUp(rows: seq<seq<CellMark>>, pads: seq<seq<nat>>, strict: bool, maxPad: nat, runs: seq<seq<nat>>)
    requires Fit(rows, pads)
  {
    var columns := ColumnsOf(rows);
    |runs| == |columns| && forall k :: 0 <= k < |columns| ==> ColumnLinedUp(rows, pads, strict, maxPad, columns, runs, k)
  }

  /** Nothing pads the cells of the columns from `from` on. */
  predicate Untouched(rows: seq<seq<CellMark>>, pads: seq<seq<nat>>, from: nat)
    requires Fit(rows, pads)
  {
    forall r, i :: 0 <= r < |rows| && 0 <= i < |rows[r]| && from <= rows[r][i].index ==> pads[r][i] == 0
  }

  /** How far each row has moved. */
  predicate Shifted(pads: seq<seq<nat>>, shifts: seq<nat>) {
    |shifts| == |pads| && forall r :: 0 <= r < |pads| ==> shifts[r] == Sum(pads[r])
  }

  /** `after` differs from `pads` only in the cells of the column. */
  predicate OnlyColumn(rows: seq<seq<CellMark>>, pads: seq<seq<nat>>, after: seq<seq<nat>>, index: nat)
    requires Fit(rows, pads) && Fit(rows, after)
  {
    forall r :: 0 <= r < |rows| ==>
      var at := Position(rows[r], index);
      after[r] == if at < |rows[r]| then pads[r][at := after[r][at]] else pads[r]
  }

  lemma {:induction false} SumTail(pads: seq<nat>, at: nat)
    requires at <= |pads| && forall i :: at <= i < |pads| ==> pads[i] == 0
    ensures Sum(pads) == Sum(pads[..at])
    decreases |pads|
  {
    if at == |pads| {
      assert pads[..at] == pads;
    } else {
      SumTail(pads[..|pads| - 1], at);
      assert pads[..|pads| - 1][..at] == pads[..at];
    }
  }

  lemma {:induction false} SumUpdate(pads: seq<nat>, at: nat, pad: nat)
    requires at < |pads|
    ensures Sum(pads[at := pad]) == Sum(pads) - pads[at] + pad
    decreases |pads|
  {
    var n := |pads| - 1;
    var after := pads[at := pad];
    if at == n {
      assert after[..n] == pads[..n];
    } else {
      SumUpdate(pads[..n], at, pad);
      assert after[..n] == pads[..n][at := pad];
    }
  }

  /** Padding a column moves no cell of it or of one before it. */
  lemma {:induction false} EndsKept(rows: seq<seq<CellMark>>, pads: seq<seq<nat>>, after: seq<seq<nat>>, index: nat, before: nat)
    requires AreRows(rows) && Fit(rows, pads) && Fit(rows, after) && OnlyColumn(rows, pads, after, index)
    requires before <= index
    ensures Ends(rows, after, before) == Ends(rows, pads, before)
    ensures before < index ==> Moves(Ends(rows, after, before), after) == Moves(Ends(rows, pads, before), pads)
  {
    var having := Having(rows, before, |rows|);
    var was, now := Ends(rows, pads, before), Ends(rows, after, before);
    forall j | 0 <= j < |having|
      ensures now[j] == was[j] && (before < index ==> after[now[j].row][now[j].at] == pads[was[j].row][was[j].at])
    {
      var r := having[j];
      var at, changed := Position(rows[r], before), Position(rows[r], index);
      assert at <= changed && (before < index ==> at < changed) by {
        assert forall i :: 0 <= i < at ==> rows[r][i].index < rows[r][at].index;
      }
      assert after[r][..at] == pads[r][..at];
    }
  }

  lemma {:induction false} FewHaving(rows: seq<seq<CellMark>>, index: nat, count: nat)
    requires count <= |rows|
    ensures |Having(rows, index, count)| <= count
  {
    if count > 0 {
      FewHaving(rows, index, count - 1);
    }
  }

  /** A lone row takes no padding. */
  predicate Alone(rows: seq<seq<CellMark>>, pads: seq<seq<nat>>)
    requires Fit(rows, pads)
  {
    |rows| <= 1 ==> forall r, i :: 0 <= r < |rows| && 0 <= i < |rows[r]| ==> pads[r][i] == 0
  }

  /** Each end is of a cell of a row. */
  predicate Placed(rows: seq<seq<CellMark>>, ends: seq<End>) {
    forall j :: 0 <= j < |ends| ==> ends[j].row < |rows| && ends[j].at < |rows[ends[j].row]|
  }

  /** What holds of the paddings before a column is lined up, where rows have their cells in order. */
  ghost predicate Ready(rows: seq<seq<CellMark>>, pads: seq<seq<nat>>, shifts: seq<nat>, index: nat) {
    AreRows(rows) && Fit(rows, pads) && Shifted(pads, shifts) && Untouched(rows, pads, index)
  }

  lemma EndsOf(rows: seq<seq<CellMark>>, pads: seq<seq<nat>>, shifts: seq<nat>, index: nat)
    requires Ready(rows, pads, shifts, index)
    ensures Fit(rows, pads) && |Ends(rows, pads, index)| == |Having(rows, index, |rows|)|
  {
  }

  lemma EndHere(rows: seq<seq<CellMark>>, pads: seq<seq<nat>>, shifts: seq<nat>, index: nat, j: nat)
    requires Ready(rows, pads, shifts, index) && j < |Having(rows, index, |rows|)|
    ensures Fit(rows, pads) && |shifts| == |rows|
    ensures var row := Having(rows, index, |rows|)[j];
      var at := Position(rows[row], index);
      Ends(rows, pads, index)[j] == End(row, at, rows[row][at].column + shifts[row])
  {
    var row := Having(rows, index, |rows|)[j];
    var at := Position(rows[row], index);
    assert forall i :: at <= i < |rows[row]| ==> pads[row][i] == 0;
    SumTail(pads[row], at);
  }

  /** Where the cells of a column end, from how far each row has moved so far. */
  method Collect(rows: seq<seq<CellMark>>, ghost pads: seq<seq<nat>>, shifts: seq<nat>, index: nat) returns (ends: seq<End>)
    requires |shifts| == |rows|
    ensures Placed(rows, ends) && |ends| <= |rows|
    ensures Ready(rows, pads, shifts, index) ==> ends == Ends(rows, pads, index)
  {
    hide Ready, Ends;
    ends := [];
    var having := Having(rows, index, |rows|);
    if Ready(rows, pads, shifts, index) {
      EndsOf(rows, pads, shifts, index);
    }
    FewHaving(rows, index, |rows|);
    for j := 0 to |having|
      invariant |ends| == j && Placed(rows, ends)
      invariant Ready(rows, pads, shifts, index) ==> ends == Ends(rows, pads, index)[..j]
    {
      var row := having[j];
      var at := Position(rows[row], index);
      if Ready(rows, pads, shifts, index) {
        EndHere(rows, pads, shifts, index, j);
      }
      ends := ends + [End(row, at, rows[row][at].column + shifts[row])];
    }
  }

  /** A column's cells are padded by `moves`, and nothing else changed. */
  ghost predicate Padded(rows: seq<seq<CellMark>>, pads: seq<seq<nat>>, after: seq<seq<nat>>, moved: seq<nat>,
                         index: nat, moves: seq<nat>) {
    && Fit(rows, pads) && Fit(rows, after) && Shifted(after, moved) && OnlyColumn(rows, pads, after, index)
    && Moves(Ends(rows, after, index), after) == moves
  }

  /** Pads the cells of a column by `moves`. */
  method Pad(rows: seq<seq<CellMark>>, pads: seq<seq<nat>>, shifts: seq<nat>, index: nat, ends: seq<End>, moves: seq<nat>)
    returns (after: seq<seq<nat>>, moved: seq<nat>)
    requires Fit(rows, pads) && |shifts| == |rows| && Placed(rows, ends) && |moves| == |ends|
    ensures Fit(rows, after) && |moved| == |rows|
    ensures Alone(rows, pads) && (forall j :: 0 <= j < |moves| ==> |rows| <= 1 ==> moves[j] == 0) ==> Alone(rows, after)
    ensures Ready(rows, pads, shifts, index) && ends == Ends(rows, pads, index) ==> Padded(rows, pads, after, moved, index, moves)
  {
    hide OnlyColumn, Sum, Untouched, Ends, AreRows;
    after, moved := pads, shifts;
    Unpadded(rows, pads, index);
    ghost var ready := Ready(rows, pads, shifts, index) && ends == Ends(rows, pads, index);
    for j := 0 to |ends|
      invariant Fit(rows, after) && |moved| == |rows|
      invariant Alone(rows, pads) && (forall j :: 0 <= j < |moves| ==> |rows| <= 1 ==> moves[j] == 0) ==> Alone(rows, after)
      invariant ready ==> Shifted(after, moved) && OnlyColumn(rows, pads, after, index) && PaddedTo(rows, pads, after, ends, moves, j)
    {
      var row, at := ends[j].row, ends[j].at;
      if ready {
        PadOne(rows, pads, after, moved, index, ends, moves, j);
      }
      after, moved := after[row := after[row][at := moves[j]]], moved[row := moved[row] + moves[j]];
    }
    if ready {
      EndsKept(rows, pads, after, index, index);
    }
  }

  /** The first `count` cells of a column are padded, and no other. */
  predicate PaddedTo(rows: seq<seq<CellMark>>, pads: seq<seq<nat>>, after: seq<seq<nat>>, ends: seq<End>, moves: seq<nat>, count: nat)
    requires Fit(rows, pads) && Fit(rows, after) && count <= |ends| == |moves|
    requires forall j :: 0 <= j < |ends| ==> ends[j].row < |rows| && ends[j].at < |rows[ends[j].row]|
  {
    && (forall i :: 0 <= i < count ==> after[ends[i].row][ends[i].at] == moves[i])
    && (forall i :: count <= i < |ends| ==> after[ends[i].row] == pads[ends[i].row])
  }

  lemma Unpadded(rows: seq<seq<CellMark>>, pads: seq<seq<nat>>, index: nat)
    requires Fit(rows, pads)
    ensures OnlyColumn(rows, pads, pads, index)
  {
  }

  lemma {:induction false} PadOne(rows: seq<seq<CellMark>>, pads: seq<seq<nat>>, after: seq<seq<nat>>, moved: seq<nat>,
                                  index: nat, ends: seq<End>, moves: seq<nat>, j: nat)
    requires Fit(rows, pads) && Untouched(rows, pads, index)
    requires ends == Ends(rows, pads, index) && |moves| == |ends| && j < |ends|
    requires Fit(rows, after) && Shifted(after, moved) && OnlyColumn(rows, pads, after, index)
    requires PaddedTo(rows, pads, after, ends, moves, j)
    ensures var row, at := ends[j].row, ends[j].at;
      var more, farther := after[row := after[row][at := moves[j]]], moved[row := moved[row] + moves[j]];
      && Fit(rows, more) && Shifted(more, farther) && OnlyColumn(rows, pads, more, index)
      && PaddedTo(rows, pads, more, ends, moves, j + 1)
  {
    hide Sum, Position, Having;
    var row, at := ends[j].row, ends[j].at;
    var having := Having(rows, index, |rows|);
    assert forall i :: 0 <= i < |ends| ==> ends[i].row == having[i];
    assert at == Position(rows[row], index) && at < |rows[row]|;
    assert rows[row][at].index == index && pads[row][at] == 0;
    assert forall i :: 0 <= i < |ends| && i != j ==> ends[i].row != row;
    hide Ends, Untouched;
    SumUpdate(after[row], at, moves[j]);
  }

  lemma {:induction false} StartsKept(rows: seq<seq<CellMark>>, columns: seq<nat>, runs: seq<seq<nat>>, more: seq<seq<nat>>, count: nat)
    requires count <= |columns| && count <= |runs| <= |more| && forall j :: 0 <= j < count ==> more[j] == runs[j]
    ensures StartsBefore(rows, columns, more, count) == StartsBefore(rows, columns, runs, count)
  {
    hide Marked, Having;
    if count > 0 {
      StartsKept(rows, columns, runs, more, count - 1);
      assert more[count - 1] == runs[count - 1];
    }
  }

  /** One column more is lined up, and the ones before it still are. */
  lemma {:induction false} ColumnDone(rows: seq<seq<CellMark>>, pads: seq<seq<nat>>, after: seq<seq<nat>>, strict: bool, maxPad: nat,
                                      columns: seq<nat>, runs: seq<seq<nat>>, k: nat, moves: seq<nat>, firsts: seq<nat>)
    requires AreRows(rows) && Fit(rows, pads) && Fit(rows, after) && Increasing(columns) && k < |columns| && |runs| == k
    requires OnlyColumn(rows, pads, after, columns[k]) && Untouched(rows, pads, columns[k])
    requires Moves(Ends(rows, after, columns[k]), after) == moves
    requires LinedUp(Ends(rows, pads, columns[k]), moves, firsts, StartsBefore(rows, columns, runs, k), Limited(columns[k], strict), maxPad)
    requires forall j :: 0 <= j < k ==> ColumnLinedUp(rows, pads, strict, maxPad, columns, runs, j)
    ensures k + 1 < |columns| ==> Untouched(rows, after, columns[k + 1])
    ensures forall j :: 0 <= j <= k ==> ColumnLinedUp(rows, after, strict, maxPad, columns, runs + [firsts], j)
    ensures StartsBefore(rows, columns, runs + [firsts], k + 1)
      == Marked(StartsBefore(rows, columns, runs, k), Having(rows, columns[k], |rows|), firsts)
  {
    hide LinedUp;
    var more := runs + [firsts];
    StartsKept(rows, columns, runs, more, k);
    forall j | 0 <= j <= k ensures ColumnLinedUp(rows, after, strict, maxPad, columns, more, j) {
      StartsKept(rows, columns, runs, more, j);
      EndsKept(rows, pads, after, columns[k], columns[j]);
      if j < k {
        assert ColumnLinedUp(rows, pads, strict, maxPad, columns, runs, j);
      }
    }
    if k + 1 < |columns| {
      StillUntouched(rows, pads, after, columns[k], columns[k + 1]);
    }
  }

  lemma {:induction false} StillUntouched(rows: seq<seq<CellMark>>, pads: seq<seq<nat>>, after: seq<seq<nat>>, index: nat, next: nat)
    requires Fit(rows, pads) && Fit(rows, after) && OnlyColumn(rows, pads, after, index)
    requires Untouched(rows, pads, index) && index < next
    ensures Untouched(rows, after, next)
  {
    forall r, i | 0 <= r < |rows| && 0 <= i < |rows[r]| && next <= rows[r][i].index ensures after[r][i] == 0 {
      assert i != Position(rows[r], index);
    }
  }

  /** A column of one cell stays where it is. */
  lemma LoneMoves(ends: seq<End>, moves: seq<nat>, firsts: seq<nat>, starts: seq<bool>, limited: bool, maxPad: nat)
    requires LinedUp(ends, moves, firsts, starts, limited, maxPad) && |ends| <= 1
    ensures forall j :: 0 <= j < |moves| ==> moves[j] == 0
  {
    if |ends| == 1 {
      assert Unmoved(moves, firsts, firsts[0]);
    }
  }

  /** The padding of each cell of each row that lines its columns up, taken left to right. */
  method Targets(rows: seq<seq<CellMark>>, maxPad: nat) returns (pads: seq<seq<nat>>, ghost runs: seq<seq<nat>>)
    requires forall r :: 0 <= r < |rows| ==> rows[r] != []
    ensures Fit(rows, pads) && Alone(rows, pads)
    ensures AreRows(rows) ==> AllLinedUp(rows, pads, rows != [] && rows[0][0].strict, maxPad, runs)
  {
    var columns := ColumnsOf(rows);
    var strict := rows != [] && rows[0][0].strict;
    pads := seq(|rows|, r requires 0 <= r < |rows| => seq(|rows[r]|, _ => 0));
    var shifts, starts := seq(|rows|, _ => 0), seq(|rows|, _ => false);
    runs := [];
    forall r | 0 <= r < |rows| ensures Sum(pads[r]) == 0 {
      SumTail(pads[r], 0);
    }
    for k := 0 to |columns|
      invariant Fit(rows, pads) && |shifts| == |starts| == |rows| && |runs| == k && Alone(rows, pads)
      invariant AreRows(rows) ==> Shifted(pads, shifts) && starts == StartsBefore(rows, columns, runs, k)
      invariant AreRows(rows) && k < |columns| ==> Untouched(rows, pads, columns[k])
      invariant AreRows(rows) ==> forall j :: 0 <= j < k ==> ColumnLinedUp(rows, pads, strict, maxPad, columns, runs, j)
    {
      hide ColumnLinedUp, LinedUp, Shifted, Untouched, OnlyColumn, AreRows, StartsBefore, Alone;
      var ends := Collect(rows, pads, shifts, columns[k]);
      var moves, firsts := LineUp(ends, starts, Limited(columns[k], strict), maxPad);
      if |rows| <= 1 {
        LoneMoves(ends, moves, firsts, starts, Limited(columns[k], strict), maxPad);
      }
      var after, moved := Pad(rows, pads, shifts, columns[k], ends, moves);
      if AreRows(rows) {
        EndsKept(rows, pads, after, columns[k], columns[k]);
        ColumnDone(rows, pads, after, strict, maxPad, columns, runs, k, moves, firsts);
      }
      var having := Having(rows, columns[k], |rows|);
      starts := Marked(starts, having, firsts);
      pads, shifts, runs := after, moved, runs + [firsts];
    }
  }

  /**
   * A run that starts in a column, at the row of its cell `i`, starts one in every later
   * limited column: no run of that column goes on across the row.
   */
  lemma {:induction false} NoRunCrosses(rows: seq<seq<CellMark>>, pads: seq<seq<nat>>, strict: bool, maxPad: nat,
                                        runs: seq<seq<nat>>, earlier: nat, i: nat, later: nat, j: nat)
    requires Fit(rows, pads) && AllLinedUp(rows, pads, strict, maxPad, runs)
    requires earlier < later < |ColumnsOf(rows)| && Limited(ColumnsOf(rows)[later], strict)
    requires i < |Ends(rows, pads, ColumnsOf(rows)[earlier])| && Cut(runs[earlier], i)
    requires 0 < j < |Ends(rows, pads, ColumnsOf(rows)[later])|
    requires var here := Ends(rows, pads, ColumnsOf(rows)[later]);
      here[j - 1].row < Ends(rows, pads, ColumnsOf(rows)[earlier])[i].row <= here[j].row
    ensures Cut(runs[later], j)
  {
    var columns := ColumnsOf(rows);
    assert ColumnLinedUp(rows, pads, strict, maxPad, columns, runs, later);
    var row := Ends(rows, pads, columns[earlier])[i].row;
    RunStarts(rows, columns, runs, earlier, later, i);
    assert StartsBefore(rows, columns, runs, later)[row];
  }

  lemma {:induction false} RunStarts(rows: seq<seq<CellMark>>, columns: seq<nat>, runs: seq<seq<nat>>,
                                     earlier: nat, later: nat, i: nat)
    requires earlier < later <= |columns| && later <= |runs|
    requires i < |Having(rows, columns[earlier], |rows|)| && Cut(runs[earlier], i)
    ensures StartsBefore(rows, columns, runs, later)[Having(rows, columns[earlier], |rows|)[i]]
    decreases later
  {
    if earlier < later - 1 {
      RunStarts(rows, columns, runs, earlier, later - 1, i);
    }
  }
}
