/**
 * Tabular alignment: cells padded to line up, as far as their lines stay within the width,
 * and comments at the ends of lines after them.
 */
module Alignment {
  import opened Wrappers
  import opened Layout
  import opened Columns
  import opened LayoutSpacing
  import P = Padding

  /** What the rows of a table are padded within; `comments` are where those at line ends start, in order. */
  datatype Page = Page(out: string, continuations: seq<Continuation>, comments: seq<nat>, width: nat, maxPad: nat)

  function Min(a: nat, b: nat): nat { if a < b then a else b }

  function Max(a: nat, b: nat): nat { if a > b then a else b }

  /** The columns from `offset` to the end of its line. */
  function LineWidth(out: string, offset: nat): nat
    decreases |out| - offset
  {
    if offset >= |out| || IsNewline(out[offset]) then 0 else 1 + LineWidth(out, offset + 1)
  }

  function FirstFrom(comments: seq<nat>, offset: nat): (r: Option<nat>)
    ensures r.Some? ==> r.value >= offset
  {
    if comments == [] then None
    else if comments[0] >= offset then Some(comments[0])
    else FirstFrom(comments[1..], offset)
  }

  /** The columns from `offset` to the end of its line or the comment that ends it. */
  function CodeWidth(page: Page, offset: nat): nat {
    var line := LineWidth(page.out, offset);
    match FirstFrom(page.comments, offset)
    case None => line
    case Some(comment) => Min(line, comment - offset)
  }

  function PlacedBy(continuations: seq<Continuation>, line: nat): (placed: seq<Continuation>)
    ensures forall it :: it in placed <==> it in continuations && it.line == line
  {
    if continuations == [] then []
    else
      var rest := PlacedBy(continuations[1..], line);
      assert continuations == [continuations[0]] + continuations[1..];
      if continuations[0].line == line then [continuations[0]] + rest else rest
  }

  /** The later lines placed by the line `row` is on. */
  function Later(page: Page, row: seq<CellMark>): seq<Continuation>
    requires row != []
  {
    PlacedBy(page.continuations, row[0].line)
  }

  /** How far text that starts at `offset` moves when the first `cells` of `row` are padded. */
  function Move(row: seq<CellMark>, pads: seq<nat>, cells: nat, offset: nat): nat
    requires |pads| == |row|
  {
    if cells == 0 || row == [] || row[0].offset > offset then 0
    else pads[0] + Move(row[1..], pads[1..], cells - 1, offset)
  }

  function Least(move: nat, limit: Option<nat>): nat {
    if limit.Some? then Min(move, limit.value) else move
  }

  /** How far a later line moves with the row it is placed by. */
  function Carried(row: seq<CellMark>, pads: seq<nat>, cells: nat, it: Continuation): nat
    requires |pads| == |row|
  {
    Least(Move(row, pads, cells, it.start), it.limit)
  }

  /** The cells before a row's comment. */
  function Code(row: seq<CellMark>): (code: nat)
    ensures code <= |row|
  {
    Position(row, COMMENT)
  }

  /** A later line placed by the row's code, rather than by its comment. */
  predicate ByCode(row: seq<CellMark>, it: Continuation) {
    Code(row) < |row| ==> it.start < row[Code(row)].offset
  }

  /** Every line of the row's code is within the width with its first `cells` padded. */
  predicate CodeFits(page: Page, row: seq<CellMark>, pads: seq<nat>, cells: nat)
    requires row != [] && |pads| == |row| && cells <= |row|
  {
    && row[0].column + CodeWidth(page, row[0].offset) + Sum(pads[..cells]) <= page.width
    && forall it :: it in Later(page, row) && ByCode(row, it) ==>
        CodeWidth(page, it.offset) + Carried(row, pads, cells, it) <= page.width
  }

  /** How many of the row's cells, from the left, can take their padding. */
  function Fitting(page: Page, row: seq<CellMark>, pads: seq<nat>, cells: nat): (fits: nat)
    requires row != [] && |pads| == |row| && cells <= |row|
    ensures fits <= cells && (fits == 0 || CodeFits(page, row, pads, fits))
    ensures forall more :: fits < more <= cells ==> !CodeFits(page, row, pads, more)
  {
    if CodeFits(page, row, pads, cells) then cells
    else if cells == 0 then 0
    else Fitting(page, row, pads, cells - 1)
  }

  // ----- comments at the ends of lines

  /** The column the cell at `at` ends at with those before it padded. */
  function EndAt(row: seq<CellMark>, pads: seq<nat>, at: nat): nat
    requires at < |row| == |pads|
  {
    row[at].column + Sum(pads[..at])
  }

  /** The farthest column a line of the comment at `at` ends at, the cells before it padded. */
  function Reach(page: Page, row: seq<CellMark>, pads: seq<nat>, at: nat, later: seq<Continuation>): (reach: nat)
    requires at < |row| == |pads|
    ensures row[0].column + LineWidth(page.out, row[0].offset) + Sum(pads[..at]) <= reach
    ensures forall it :: it in later && it.start >= row[at].offset ==>
      LineWidth(page.out, it.offset) + Carried(row, pads, at, it) <= reach
  {
    if later == [] then row[0].column + LineWidth(page.out, row[0].offset) + Sum(pads[..at])
    else
      var rest := Reach(page, row, pads, at, later[1..]);
      assert later == [later[0]] + later[1..];
      if later[0].start >= row[at].offset
      then Max(rest, LineWidth(page.out, later[0].offset) + Carried(row, pads, at, later[0]))
      else rest
  }

  /** How far right the comment can move, if it fits at all. */
  function Room(page: Page, row: seq<CellMark>, pads: seq<nat>, at: nat): Option<nat>
    requires at < |row| == |pads|
  {
    var reach := Reach(page, row, pads, at, Later(page, row));
    if reach > page.width then None else Some(page.width - reach)
  }

  /** Every line of the row's comment is within the width once it is padded too. */
  predicate CommentFits(page: Page, row: seq<CellMark>, pads: seq<nat>, at: nat)
    requires at < |row| == |pads|
  {
    && row[0].column + LineWidth(page.out, row[0].offset) + Sum(pads[..at + 1]) <= page.width
    && forall it :: it in Later(page, row) && it.start >= row[at].offset ==>
        LineWidth(page.out, it.offset) + Carried(row, pads, at + 1, it) <= page.width
  }

  lemma {:induction false} MoveOneMore(row: seq<CellMark>, pads: seq<nat>, at: nat, offset: nat)
    requires at < |row| == |pads|
    ensures Move(row, pads, at + 1, offset) <= Move(row, pads, at, offset) + pads[at]
  {
    if at > 0 && row[0].offset <= offset {
      MoveOneMore(row[1..], pads[1..], at - 1, offset);
    }
  }

  lemma {:induction false} MoveFirst(row: seq<CellMark>, pads: seq<nat>, after: seq<nat>, cells: nat, offset: nat)
    requires cells <= |row| == |pads| == |after| && pads[..cells] == after[..cells]
    ensures Move(row, pads, cells, offset) == Move(row, after, cells, offset)
  {
    if cells > 0 {
      assert pads[0] == pads[..cells][0] == after[..cells][0];
      assert pads[1..][..cells - 1] == pads[..cells][1..] && after[1..][..cells - 1] == after[..cells][1..];
      MoveFirst(row[1..], pads[1..], after[1..], cells - 1, offset);
    }
  }

  /** A comment that moves no farther than its room stays within the width. */
  lemma {:induction false} WithinRoom(page: Page, row: seq<CellMark>, pads: seq<nat>, at: nat, pad: nat)
    requires at < |row| == |pads| && Room(page, row, pads, at).Some? && pad <= Room(page, row, pads, at).value
    ensures CommentFits(page, row, pads[at := pad], at)
  {
    var after := pads[at := pad];
    assert after[..at] == pads[..at] && after[..at + 1][..at] == pads[..at];
    forall it | it in Later(page, row) && it.start >= row[at].offset
      ensures LineWidth(page.out, it.offset) + Carried(row, after, at + 1, it) <= page.width
    {
      MoveOneMore(row, after, at, it.start);
      MoveFirst(row, pads, after, at, it.start);
    }
  }

  /** A row's comment: where it starts, and how far right it fits, if at all. */
  datatype Item = Item(row: nat, at: nat, end: nat, limit: Option<nat>)

  /** How far right the comment of a row fits: not at all unless all cells before it are padded. */
  function Limit(page: Page, row: seq<CellMark>, pads: seq<nat>, kept: nat): Option<nat>
    requires Code(row) < |row| == |pads|
  {
    if kept != Code(row) || Room(page, row, pads, Code(row)).None? then None
    else Some(EndAt(row, pads, Code(row)) + Room(page, row, pads, Code(row)).value)
  }

  /** The comments of the first `count` rows. */
  function Items(page: Page, rows: seq<seq<CellMark>>, rowPads: seq<seq<nat>>, kept: seq<nat>, count: nat): (items: seq<Item>)
    requires Fit(rows, rowPads) && |kept| == |rows| && count <= |rows|
    ensures forall j :: 0 <= j < |items| ==> IsItem(page, rows, rowPads, kept, items[j]) && items[j].row < count
    ensures forall i, j :: 0 <= i < j < |items| ==> items[i].row < items[j].row
  {
    if count == 0 then []
    else
      var before, row, pads := Items(page, rows, rowPads, kept, count - 1), rows[count - 1], rowPads[count - 1];
      if Code(row) == |row| then before
      else before + [Item(count - 1, Code(row), EndAt(row, pads, Code(row)), Limit(page, row, pads, kept[count - 1]))]
  }

  predicate IsItem(page: Page, rows: seq<seq<CellMark>>, rowPads: seq<seq<nat>>, kept: seq<nat>, item: Item)
    requires Fit(rows, rowPads) && |kept| == |rows|
  {
    && item.row < |rows| && item.at == Code(rows[item.row]) < |rows[item.row]|
    && item.end == EndAt(rows[item.row], rowPads[item.row], item.at)
    && item.limit == Limit(page, rows[item.row], rowPads[item.row], kept[item.row])
  }

  /** Comments that line up together, from `first` up to `to`: the column they start at, and the farthest all fit. */
  datatype Run = Run(first: nat, to: nat, column: nat, limit: nat)

  /** The run's column is where its farthest comment starts, its limit what its nearest allows. */
  ghost predicate IsRun(items: seq<Item>, run: Run) {
    && run.first < run.to <= |items| && run.column <= run.limit
    && (forall j :: run.first <= j < run.to ==>
          items[j].limit.Some? && items[j].end <= run.column && run.limit <= items[j].limit.value)
    && (exists j :: run.first <= j < run.to && items[j].end == run.column)
    && (exists j :: run.first <= j < run.to && items[j].limit == Some(run.limit))
  }

  /** The comment fits in the run at the column the run would then have. */
  predicate Joins(run: Run, item: Item) {
    item.limit.Some? && Max(item.end, run.column) <= Min(run.limit, item.limit.value)
  }

  /** It does exactly if there is a column at which it and all in the run do. */
  lemma {:induction false} JoinsExactly(items: seq<Item>, run: Run, item: Item)
    requires IsRun(items, run)
    ensures Joins(run, item) <==> exists column: nat :: FitsAt(item, column) && AllFitAt(items, run, column)
  {
    if Joins(run, item) {
      var column := Max(item.end, run.column);
      assert FitsAt(item, column) && AllFitAt(items, run, column);
    }
  }

  predicate AllFitAt(items: seq<Item>, run: Run, column: nat)
    requires run.to <= |items|
  {
    forall j :: run.first <= j < run.to ==> FitsAt(items[j], column)
  }

  /** The comment can start at the column: not left of its code, and within its limit. */
  predicate FitsAt(item: Item, column: nat) {
    item.limit.Some? && item.end <= column <= item.limit.value
  }

  /** The first `count` comments are in runs, in order, each as long as it can be; those in none do not fit. */
  ghost predicate InRuns(items: seq<Item>, runs: seq<Run>, count: nat) {
    && count <= |items|
    && (forall g :: 0 <= g < |runs| ==> IsRun(items, runs[g]) && runs[g].to <= count)
    && (forall g, h :: 0 <= g < h < |runs| && h == g + 1 ==> AfterRun(items, runs[g], runs[h]))
    && (forall j :: 0 <= j < count && items[j].limit.Some? ==> Holding(runs, j))
  }

  /** One run is after another, and starts right after it only where that one could not go on. */
  ghost predicate AfterRun(items: seq<Item>, run: Run, next: Run) {
    run.to <= next.first && (run.to == next.first < |items| ==> !Joins(run, items[next.first]))
  }

  predicate Holding(runs: seq<Run>, j: nat) {
    exists g :: 0 <= g < |runs| && runs[g].first <= j < runs[g].to
  }

  lemma {:induction false} LongerRun(items: seq<Item>, run: Run)
    requires IsRun(items, run) && run.to < |items| && Joins(run, items[run.to])
    ensures IsRun(items, Run(run.first, run.to + 1, Max(run.column, items[run.to].end), Min(run.limit, items[run.to].limit.value)))
  {
    var item := items[run.to];
    var a :| run.first <= a < run.to && items[a].end == run.column;
    var b :| run.first <= b < run.to && items[b].limit == Some(run.limit);
    var far, near := if run.column > item.end then a else run.to, if run.limit < item.limit.value then b else run.to;
    assert items[far].end == Max(run.column, item.end);
    assert items[near].limit == Some(Min(run.limit, item.limit.value));
  }

  /** What runs hold, others hold that hold at least as much. */
  lemma {:induction false} StillHolding(runs: seq<Run>, after: seq<Run>, j: nat)
    requires |runs| <= |after| && Holding(runs, j)
    requires forall g :: 0 <= g < |runs| ==> after[g].first <= runs[g].first && runs[g].to <= after[g].to
    ensures Holding(after, j)
  {
    var g :| 0 <= g < |runs| && runs[g].first <= j < runs[g].to;
    assert after[g].first <= j < after[g].to;
  }

  lemma {:induction false} RunJoined(items: seq<Item>, runs: seq<Run>, count: nat)
    requires InRuns(items, runs, count) && count < |items| && runs != [] && runs[|runs| - 1].to == count
    requires Joins(runs[|runs| - 1], items[count])
    ensures var run, item := runs[|runs| - 1], items[count];
      InRuns(items, runs[|runs| - 1 := Run(run.first, count + 1, Max(run.column, item.end), Min(run.limit, item.limit.value))], count + 1)
  {
    hide IsRun, Holding;
    var n := |runs| - 1;
    var run, item := runs[n], items[count];
    var longer := Run(run.first, count + 1, Max(run.column, item.end), Min(run.limit, item.limit.value));
    var after := runs[n := longer];
    LongerRun(items, run);
    RunStarts(items, run);
    hide Joins;
    forall g, h | 0 <= g < h < |after| && h == g + 1 ensures AfterRun(items, after[g], after[h]) {
      assert AfterRun(items, runs[g], runs[h]);
    }
    forall j | 0 <= j < count + 1 && items[j].limit.Some? ensures Holding(after, j) {
      if j < count {
        StillHolding(runs, after, j);
      } else {
        HoldingAt(after, n, j);
      }
    }
  }

  lemma HoldingAt(runs: seq<Run>, g: nat, j: nat)
    requires g < |runs| && runs[g].first <= j < runs[g].to
    ensures Holding(runs, j)
  {
  }

  lemma RunStarts(items: seq<Item>, run: Run)
    requires IsRun(items, run)
    ensures run.first < run.to
  {
  }

  lemma {:induction false} RunBegun(items: seq<Item>, runs: seq<Run>, count: nat)
    requires InRuns(items, runs, count) && count < |items| && items[count].limit.Some? && items[count].end <= items[count].limit.value
    requires runs != [] && runs[|runs| - 1].to == count ==> !Joins(runs[|runs| - 1], items[count])
    ensures InRuns(items, runs + [Run(count, count + 1, items[count].end, items[count].limit.value)], count + 1)
  {
    hide Holding, Joins;
    var run := Run(count, count + 1, items[count].end, items[count].limit.value);
    var after := runs + [run];
    assert IsRun(items, run) by {
      assert items[count].end == run.column;
    }
    hide IsRun;
    forall g, h | 0 <= g < h < |after| && h == g + 1 ensures AfterRun(items, after[g], after[h]) {
      if h < |runs| {
        assert AfterRun(items, runs[g], runs[h]);
      }
    }
    forall j | 0 <= j < count + 1 && items[j].limit.Some? ensures Holding(after, j) {
      if j < count {
        StillHolding(runs, after, j);
      } else {
        HoldingAt(after, |runs|, j);
      }
    }
  }

  lemma RunSkipped(items: seq<Item>, runs: seq<Run>, count: nat)
    requires InRuns(items, runs, count) && count < |items| && items[count].limit.None?
    ensures InRuns(items, runs, count + 1)
  {
    hide IsRun, Joins, Holding;
  }

  /** The runs comments line up in: each joins the one above it if all in it then fit. */
  method CommentRuns(items: seq<Item>) returns (runs: seq<Run>)
    requires forall j :: 0 <= j < |items| && items[j].limit.Some? ==> items[j].end <= items[j].limit.value
    ensures InRuns(items, runs, |items|)
  {
    hide *;
    NoRuns(items);
    runs := [];
    var isOpen := false;
    for j := 0 to |items|
      invariant InRuns(items, runs, j)
      invariant isOpen <==> runs != [] && runs[|runs| - 1].to == j
    {
      var item := items[j];
      if item.limit.None? {
        RunSkipped(items, runs, j);
        RunsEnd(items, runs, j);
        isOpen := false;
      } else {
        RunsEnd(items, runs, j);
        if isOpen && Joins(runs[|runs| - 1], item) {
          RunJoined(items, runs, j);
          var run := runs[|runs| - 1];
          runs := runs[|runs| - 1 := Run(run.first, j + 1, Max(run.column, item.end), Min(run.limit, item.limit.value))];
        } else {
          RunBegun(items, runs, j);
          runs := runs + [Run(j, j + 1, item.end, item.limit.value)];
        }
        isOpen := true;
      }
    }
  }

  lemma NoRuns(items: seq<Item>)
    ensures InRuns(items, [], 0)
  {
  }

  lemma RunsEnd(items: seq<Item>, runs: seq<Run>, count: nat)
    requires InRuns(items, runs, count)
    ensures runs != [] ==> runs[|runs| - 1].to <= count
  {
  }

  lemma {:induction false} RunsApart(items: seq<Item>, runs: seq<Run>, count: nat, g: nat, h: nat)
    requires InRuns(items, runs, count) && g < h < |runs|
    ensures runs[g].to <= runs[h].first
    decreases h
  {
    hide Joins, Holding;
    assert AfterRun(items, runs[h - 1], runs[h]);
    if g < h - 1 {
      RunsApart(items, runs, count, g, h - 1);
      RunStarts(items, runs[h - 1]);
    }
  }

  /** The comment is padded to where its run starts. */
  predicate Lined(rowPads: seq<seq<nat>>, after: seq<seq<nat>>, keptAfter: seq<nat>, item: Item, run: Run) {
    && item.row < |rowPads| && |after| == |keptAfter| == |rowPads| && item.at < |rowPads[item.row]| && item.end <= run.column
    && after[item.row] == rowPads[item.row][item.at := run.column - item.end]
    && keptAfter[item.row] == item.at + 1
  }

  /** Comments are padded in their runs, and nothing else is changed. */
  ghost predicate CommentsLined(rows: seq<seq<CellMark>>, rowPads: seq<seq<nat>>, kept: seq<nat>, after: seq<seq<nat>>,
                                keptAfter: seq<nat>, items: seq<Item>, runs: seq<Run>) {
    && Fit(rows, rowPads) && Fit(rows, after) && |kept| == |keptAfter| == |rows|
    && InRuns(items, runs, |items|)
    && (forall g, j :: 0 <= g < |runs| && runs[g].first <= j < runs[g].to && j < |items| ==>
          Lined(rowPads, after, keptAfter, items[j], runs[g]))
    && (forall r :: 0 <= r < |rows| && !FreeRow(items, r) ==> after[r] == rowPads[r] && keptAfter[r] == kept[r])
  }

  /** The row has a comment that fits. */
  predicate FreeRow(items: seq<Item>, row: nat) {
    exists j :: 0 <= j < |items| && items[j].row == row && items[j].limit.Some?
  }

  /** The row's comment is in the run. */
  predicate RowIn(items: seq<Item>, run: Run, row: nat) {
    exists j :: run.first <= j < run.to && j < |items| && items[j].row == row
  }

  predicate Increases(items: seq<Item>) {
    forall i, j :: 0 <= i < j < |items| ==> items[i].row < items[j].row
  }

  predicate Inside(rowPads: seq<seq<nat>>, item: Item) {
    item.row < |rowPads| && item.at < |rowPads[item.row]|
  }

  /** Pads the comments of one run. */
  method PadRun(rowPads: seq<seq<nat>>, kept: seq<nat>, items: seq<Item>, run: Run) returns (after: seq<seq<nat>>, keptAfter: seq<nat>)
    requires |kept| == |rowPads| && Increases(items) && run.first < run.to <= |items|
    requires forall j :: run.first <= j < run.to ==> Inside(rowPads, items[j]) && items[j].end <= run.column
    ensures |after| == |keptAfter| == |rowPads| && forall r :: 0 <= r < |after| ==> |after[r]| == |rowPads[r]|
    ensures forall j :: run.first <= j < run.to ==> Lined(rowPads, after, keptAfter, items[j], run)
    ensures forall r :: 0 <= r < |after| && !RowIn(items, run, r) ==> after[r] == rowPads[r] && keptAfter[r] == kept[r]
  {
    after, keptAfter := rowPads, kept;
    for j := run.first to run.to
      invariant |after| == |keptAfter| == |rowPads| && forall r :: 0 <= r < |after| ==> |after[r]| == |rowPads[r]|
      invariant forall k :: run.first <= k < j ==> Lined(rowPads, after, keptAfter, items[k], run)
      invariant forall k :: j <= k < run.to ==> after[items[k].row] == rowPads[items[k].row]
      invariant forall r :: 0 <= r < |after| && !RowIn(items, run, r) ==> after[r] == rowPads[r] && keptAfter[r] == kept[r]
    {
      var item := items[j];
      assert Inside(rowPads, item) && RowIn(items, run, item.row);
      var pad: nat := run.column - item.end;
      var padded: seq<nat> := rowPads[item.row][item.at := pad];
      after, keptAfter := after[item.row := padded], keptAfter[item.row := item.at + 1];
    }
  }

  /** Some run before `count` holds the row's comment. */
  ghost predicate RowInAny(items: seq<Item>, runs: seq<Run>, count: nat, row: nat) {
    exists g :: 0 <= g < count && g < |runs| && RowIn(items, runs[g], row)
  }

  /** The runs before `count` are padded, and no other row is. */
  ghost predicate PaddedRuns(rowPads: seq<seq<nat>>, kept: seq<nat>, after: seq<seq<nat>>, keptAfter: seq<nat>,
                             items: seq<Item>, runs: seq<Run>, count: nat) {
    && |after| == |keptAfter| == |rowPads| == |kept| && (forall r :: 0 <= r < |after| ==> |after[r]| == |rowPads[r]|)
    && (forall g, j :: 0 <= g < count && g < |runs| && runs[g].first <= j < runs[g].to && j < |items| ==>
          Lined(rowPads, after, keptAfter, items[j], runs[g]))
    && (forall r :: 0 <= r < |after| && !RowInAny(items, runs, count, r) ==> after[r] == rowPads[r] && keptAfter[r] == kept[r])
  }

  lemma {:induction false} OneRunMore(rowPads: seq<seq<nat>>, kept: seq<nat>, before: seq<seq<nat>>, keptBefore: seq<nat>,
                                      after: seq<seq<nat>>, keptAfter: seq<nat>, items: seq<Item>, runs: seq<Run>, g: nat)
    requires InRuns(items, runs, |items|) && g < |runs| && Increases(items)
    requires PaddedRuns(rowPads, kept, before, keptBefore, items, runs, g)
    requires |after| == |keptAfter| == |before| && forall r :: 0 <= r < |after| ==> |after[r]| == |before[r]|
    requires forall j :: runs[g].first <= j < runs[g].to && j < |items| ==> Lined(before, after, keptAfter, items[j], runs[g])
    requires forall r :: 0 <= r < |after| && !RowIn(items, runs[g], r) ==> after[r] == before[r] && keptAfter[r] == keptBefore[r]
    ensures PaddedRuns(rowPads, kept, after, keptAfter, items, runs, g + 1)
  {
    hide InRuns, Increases, RowIn, RowInAny;
    forall h, j | 0 <= h < g + 1 && h < |runs| && runs[h].first <= j < runs[h].to && j < |items|
      ensures Lined(rowPads, after, keptAfter, items[j], runs[h])
    {
      if h < g {
        RunsApart(items, runs, |items|, h, g);
        assert Lined(rowPads, before, keptBefore, items[j], runs[h]);
        OtherRow(items, runs[g], j);
      } else {
        NotYet(items, runs, g, j);
        assert before[items[j].row] == rowPads[items[j].row];
      }
    }
    hide Lined;
    forall r | 0 <= r < |after| && !RowInAny(items, runs, g + 1, r) ensures after[r] == rowPads[r] && keptAfter[r] == kept[r] {
      InOneMore(items, runs, g, r);
    }
  }

  lemma InOneMore(items: seq<Item>, runs: seq<Run>, g: nat, row: nat)
    requires g < |runs| && !RowInAny(items, runs, g + 1, row)
    ensures !RowInAny(items, runs, g, row) && !RowIn(items, runs[g], row)
  {
  }

  lemma OtherRow(items: seq<Item>, run: Run, j: nat)
    requires Increases(items) && j < |items| && j < run.first
    ensures !RowIn(items, run, items[j].row)
  {
  }

  lemma NotYet(items: seq<Item>, runs: seq<Run>, g: nat, j: nat)
    requires InRuns(items, runs, |items|) && g < |runs| && Increases(items) && runs[g].first <= j < runs[g].to && j < |items|
    ensures !RowInAny(items, runs, g, items[j].row)
  {
    forall h | 0 <= h < g ensures !RowIn(items, runs[h], items[j].row) {
      RunsApart(items, runs, |items|, h, g);
    }
  }

  /** Lines up the comments of rows whose other cells have taken their padding. */
  method Comments(page: Page, rows: seq<seq<CellMark>>, rowPads: seq<seq<nat>>, kept: seq<nat>)
    returns (after: seq<seq<nat>>, keptAfter: seq<nat>, ghost runs: seq<Run>)
    requires Fit(rows, rowPads) && |kept| == |rows|
    ensures CommentsLined(rows, rowPads, kept, after, keptAfter, Items(page, rows, rowPads, kept, |rows|), runs)
  {
    hide *;
    var items := Items(page, rows, rowPads, kept, |rows|);
    ItemsFit(page, rows, rowPads, kept);
    var found := CommentRuns(items);
    runs := found;
    after, keptAfter := rowPads, kept;
    NonePadded(rowPads, kept, items, found);
    for g := 0 to |found|
      invariant PaddedRuns(rowPads, kept, after, keptAfter, items, found, g)
    {
      RunItems(items, found, g);
      RunInside(rowPads, kept, after, keptAfter, items, found, g);
      ghost var was, keptWas := after, keptAfter;
      after, keptAfter := PadRun(after, keptAfter, items, found[g]);
      OneRunMore(rowPads, kept, was, keptWas, after, keptAfter, items, found, g);
    }
    AllPadded(rows, rowPads, kept, after, keptAfter, items, found);
  }

  lemma ItemsFit(page: Page, rows: seq<seq<CellMark>>, rowPads: seq<seq<nat>>, kept: seq<nat>)
    requires Fit(rows, rowPads) && |kept| == |rows|
    ensures var items := Items(page, rows, rowPads, kept, |rows|);
      && Increases(items) && |kept| == |rowPads|
      && (forall j :: 0 <= j < |items| ==> Inside(rowPads, items[j]))
      && (forall j :: 0 <= j < |items| && items[j].limit.Some? ==> items[j].end <= items[j].limit.value)
  {
    hide Room, Items, Position, Sum;
    var items := Items(page, rows, rowPads, kept, |rows|);
    assert forall j :: 0 <= j < |items| ==> IsItem(page, rows, rowPads, kept, items[j]);
  }

  lemma NonePadded(rowPads: seq<seq<nat>>, kept: seq<nat>, items: seq<Item>, runs: seq<Run>)
    requires |kept| == |rowPads|
    ensures PaddedRuns(rowPads, kept, rowPads, kept, items, runs, 0)
  {
  }

  lemma RunInside(rowPads: seq<seq<nat>>, kept: seq<nat>, after: seq<seq<nat>>, keptAfter: seq<nat>, items: seq<Item>,
                  runs: seq<Run>, g: nat)
    requires PaddedRuns(rowPads, kept, after, keptAfter, items, runs, g)
    requires g < |runs| && runs[g].to <= |items| && forall j :: 0 <= j < |items| ==> Inside(rowPads, items[j])
    ensures |after| == |keptAfter| == |rowPads| && forall j :: runs[g].first <= j < runs[g].to ==> Inside(after, items[j])
  {
    hide Lined, RowInAny;
    assert forall j :: runs[g].first <= j < runs[g].to ==> Inside(rowPads, items[j]);
  }

  lemma AllPadded(rows: seq<seq<CellMark>>, rowPads: seq<seq<nat>>, kept: seq<nat>, after: seq<seq<nat>>, keptAfter: seq<nat>,
                  items: seq<Item>, runs: seq<Run>)
    requires Fit(rows, rowPads) && |kept| == |rows| && InRuns(items, runs, |items|)
    requires PaddedRuns(rowPads, kept, after, keptAfter, items, runs, |runs|)
    ensures CommentsLined(rows, rowPads, kept, after, keptAfter, items, runs)
  {
    hide Lined;
    forall r | 0 <= r < |rows| && !FreeRow(items, r) ensures !RowInAny(items, runs, |runs|, r) {
      forall g | 0 <= g < |runs| ensures !RowIn(items, runs[g], r) {
        RunItems(items, runs, g);
      }
    }
  }

  lemma RunItems(items: seq<Item>, runs: seq<Run>, g: nat)
    requires InRuns(items, runs, |items|) && g < |runs|
    ensures runs[g].first < runs[g].to <= |items|
    ensures forall j :: runs[g].first <= j < runs[g].to ==> items[j].end <= runs[g].column && FreeRow(items, items[j].row)
  {
    assert IsRun(items, runs[g]);
  }

  // ----- a table

  /** How many of a row's cells are not its comment. */
  function CodeCells(row: seq<CellMark>): nat {
    if row == [] then 0 else (if row[0].index != COMMENT then 1 else 0) + CodeCells(row[1..])
  }

  /** The row's cells before its comment can all be padded. */
  predicate Whole(row: seq<CellMark>, kept: nat) {
    kept >= CodeCells(row)
  }

  /**
   * A row takes no padding, or all the lines of its code stay within the width, and those
   * of its comment do if that is padded too.
   */
  ghost predicate RowWithin(page: Page, row: seq<CellMark>, pads: seq<nat>, kept: nat) {
    && row != [] && |pads| == |row| && kept <= |row| && kept <= Code(row) + 1
    && (Min(kept, Code(row)) == 0 || CodeFits(page, row, pads, Min(kept, Code(row))))
    && (kept > Code(row) ==> CommentFits(page, row, pads, Code(row)))
  }

  lemma {:induction false} CodeFitsSame(page: Page, row: seq<CellMark>, pads: seq<nat>, after: seq<nat>, cells: nat)
    requires row != [] && cells <= |row| == |pads| == |after| && pads[..cells] == after[..cells]
    requires CodeFits(page, row, pads, cells)
    ensures CodeFits(page, row, after, cells)
  {
    forall it | it in Later(page, row) && ByCode(row, it)
      ensures CodeWidth(page, it.offset) + Carried(row, after, cells, it) <= page.width
    {
      MoveFirst(row, pads, after, cells, it.start);
    }
  }

  /** Some rows lined up together: their targets, what each can take, and their comments. */
  ghost predicate LinedUpTogether(page: Page, rows: seq<seq<CellMark>>, rowPads: seq<seq<nat>>, kept: seq<nat>) {
    && Fit(rows, rowPads) && |kept| == |rows| && (forall r :: 0 <= r < |rows| ==> rows[r] != [])
    && exists targets, fits, columns, runs :: Together(page, rows, targets, fits, columns, rowPads, kept, runs)
  }

  ghost predicate Together(page: Page, rows: seq<seq<CellMark>>, targets: seq<seq<nat>>, fits: seq<nat>, columns: seq<seq<nat>>,
                           rowPads: seq<seq<nat>>, kept: seq<nat>, runs: seq<Run>)
    requires forall r :: 0 <= r < |rows| ==> rows[r] != []
  {
    && Fit(rows, targets) && |fits| == |rows| && Alone(rows, targets)
    && (AreRows(rows) ==> AllLinedUp(rows, targets, rows != [] && rows[0][0].strict, page.maxPad, columns))
    && (forall r :: 0 <= r < |rows| ==> fits[r] == Fitting(page, rows[r], targets[r], Code(rows[r])))
    && ((forall r :: 0 <= r < |rows| ==> Whole(rows[r], fits[r])) || (forall r :: 0 <= r < |rows| ==> !Whole(rows[r], fits[r])))
    && CommentsLined(rows, targets, fits, rowPads, kept, Items(page, rows, targets, fits, |rows|), runs)
  }

  lemma {:induction false} AllWithin(page: Page, rows: seq<seq<CellMark>>, rowPads: seq<seq<nat>>, kept: seq<nat>, r: nat)
    requires LinedUpTogether(page, rows, rowPads, kept) && r < |rows|
    ensures RowWithin(page, rows[r], rowPads[r], kept[r])
  {
    var targets, fits, columns, runs :| Together(page, rows, targets, fits, columns, rowPads, kept, runs);
    hide AllLinedUp, AreRows, Whole;
    var items := Items(page, rows, targets, fits, |rows|);
    if FreeRow(items, r) {
      FreeWithin(page, rows, targets, fits, rowPads, kept, runs, r);
    }
  }

  lemma {:induction false} FreeWithin(page: Page, rows: seq<seq<CellMark>>, targets: seq<seq<nat>>, fits: seq<nat>,
                                      rowPads: seq<seq<nat>>, kept: seq<nat>, runs: seq<Run>, r: nat)
    requires Fit(rows, targets) && |fits| == |rows| && (forall r :: 0 <= r < |rows| ==> rows[r] != [])
    requires forall r :: 0 <= r < |rows| ==> fits[r] == Fitting(page, rows[r], targets[r], Code(rows[r]))
    requires CommentsLined(rows, targets, fits, rowPads, kept, Items(page, rows, targets, fits, |rows|), runs)
    requires r < |rows| && FreeRow(Items(page, rows, targets, fits, |rows|), r)
    ensures RowWithin(page, rows[r], rowPads[r], kept[r])
  {
    hide *;
    var items := Items(page, rows, targets, fits, |rows|);
    var g, j := RunOfRow(rows, targets, fits, rowPads, kept, items, runs, r);
    var item := items[j];
    ItemMeans(page, rows, targets, fits, j);
    CommentWithin(page, rows[r], targets[r], item.at, runs[g].column - item.end);
  }

  /** The run that holds a row's comment, which is padded to its column. */
  lemma {:induction false} RunOfRow(rows: seq<seq<CellMark>>, targets: seq<seq<nat>>, fits: seq<nat>, rowPads: seq<seq<nat>>,
                                    kept: seq<nat>, items: seq<Item>, runs: seq<Run>, r: nat) returns (g: nat, j: nat)
    requires CommentsLined(rows, targets, fits, rowPads, kept, items, runs) && FreeRow(items, r) && r < |rows|
    ensures g < |runs| && j < |items| && items[j].row == r && items[j].limit.Some? && runs[g].first <= j < runs[g].to
    ensures |targets| == |rowPads| == |kept| == |rows|
    ensures items[j].end <= runs[g].column <= items[j].limit.value && items[j].at < |targets[r]|
    ensures rowPads[r] == targets[r][items[j].at := runs[g].column - items[j].end] && kept[r] == items[j].at + 1
  {
    hide InRuns;
    j :| 0 <= j < |items| && items[j].row == r && items[j].limit.Some?;
    g := RunOf(items, runs, j);
    assert Lined(targets, rowPads, kept, items[j], runs[g]);
  }

  lemma RunOf(items: seq<Item>, runs: seq<Run>, j: nat) returns (g: nat)
    requires InRuns(items, runs, |items|) && j < |items| && items[j].limit.Some?
    ensures g < |runs| && runs[g].first <= j < runs[g].to && runs[g].column <= items[j].limit.value
  {
    hide Joins;
    assert Holding(runs, j);
    g :| 0 <= g < |runs| && runs[g].first <= j < runs[g].to;
    assert IsRun(items, runs[g]);
  }

  lemma ItemMeans(page: Page, rows: seq<seq<CellMark>>, targets: seq<seq<nat>>, fits: seq<nat>, j: nat)
    requires Fit(rows, targets) && |fits| == |rows|
    requires var items := Items(page, rows, targets, fits, |rows|); j < |items| && items[j].limit.Some?
    ensures var item := Items(page, rows, targets, fits, |rows|)[j];
      && item.row < |rows| && item.at == Code(rows[item.row]) == fits[item.row] < |rows[item.row]| == |targets[item.row]|
      && Room(page, rows[item.row], targets[item.row], item.at).Some?
      && item.limit.value == item.end + Room(page, rows[item.row], targets[item.row], item.at).value
  {
    hide Items, Room, Sum, Position;
    assert IsItem(page, rows, targets, fits, Items(page, rows, targets, fits, |rows|)[j]);
  }

  lemma {:induction false} CommentWithin(page: Page, row: seq<CellMark>, pads: seq<nat>, at: nat, pad: nat)
    requires at == Code(row) < |row| == |pads| && at == Fitting(page, row, pads, at)
    requires Room(page, row, pads, at).Some? && pad <= Room(page, row, pads, at).value
    ensures RowWithin(page, row, pads[at := pad], at + 1)
  {
    hide CodeFits, CommentFits, Room, Position;
    WithinRoom(page, row, pads, at, pad);
    if at > 0 {
      assert pads[at := pad][..at] == pads[..at];
      CodeFitsSame(page, row, pads, pads[at := pad], at);
    }
  }

  /** The spaces before a row's later lines, as far as it carries them. */
  function CarryPads(page: Page, row: seq<CellMark>, pads: seq<nat>, kept: nat): seq<P.Pad>
    requires row != [] && |pads| == |row| && kept <= |row|
  {
    var later := Later(page, row);
    seq(|later|, i requires 0 <= i < |later| => P.Pad(later[i].offset, Carried(row, pads, kept, later[i])))
  }

  /** The spaces before the cells of a row. */
  function CellPads(row: seq<CellMark>, pads: seq<nat>, kept: nat): seq<P.Pad>
    requires |pads| == |row| && kept <= |row|
  {
    seq(kept, i requires 0 <= i < kept => P.Pad(row[i].offset, pads[i]))
  }

  /** Where the padding of a row goes. */
  function RowInserts(page: Page, row: seq<CellMark>, pads: seq<nat>, kept: nat): seq<P.Pad>
    requires row != [] && |pads| == |row| && kept <= |row|
  {
    CarryPads(page, row, pads, kept) + CellPads(row, pads, kept)
  }

  function Inserts(page: Page, rows: seq<seq<CellMark>>, rowPads: seq<seq<nat>>, kept: seq<nat>, count: nat): seq<P.Pad>
    requires Fit(rows, rowPads) && |kept| == |rows| && count <= |rows|
    requires forall r :: 0 <= r < |rows| ==> rows[r] != [] && kept[r] <= |rows[r]|
  {
    if count == 0 then []
    else Inserts(page, rows, rowPads, kept, count - 1) + RowInserts(page, rows[count - 1], rowPads[count - 1], kept[count - 1])
  }

  /** The rows are split into groups, each lined up together. */
  ghost predicate Grouped(page: Page, rows: seq<seq<CellMark>>, rowPads: seq<seq<nat>>, kept: seq<nat>, cuts: seq<nat>) {
    && Fit(rows, rowPads) && |kept| == |rows| && cuts != [] && cuts[0] == 0 && cuts[|cuts| - 1] == |rows|
    && (forall g, h :: 0 <= g < h < |cuts| ==> cuts[g] < cuts[h])
    && (forall g, h :: 0 <= g < h < |cuts| && h == g + 1 ==> Group(page, rows, rowPads, kept, cuts[g], cuts[h]))
  }

  ghost predicate Group(page: Page, rows: seq<seq<CellMark>>, rowPads: seq<seq<nat>>, kept: seq<nat>, from: nat, to: nat) {
    from <= to <= |rows| == |rowPads| == |kept| && LinedUpTogether(page, rows[from..to], rowPads[from..to], kept[from..to])
  }

  predicate NoneEmpty(rows: seq<seq<CellMark>>) {
    forall r :: 0 <= r < |rows| ==> rows[r] != []
  }

  // ----- how a table is split

  /** What lines the rows up, column by column. */
  ghost predicate Targeted(page: Page, rows: seq<seq<CellMark>>, targets: seq<seq<nat>>, columns: seq<seq<nat>>) {
    && Fit(rows, targets) && Alone(rows, targets)
    && (AreRows(rows) ==> AllLinedUp(rows, targets, rows != [] && rows[0][0].strict, page.maxPad, columns))
  }

  /** Which rows can take that before their comments. */
  function WholeRows(page: Page, rows: seq<seq<CellMark>>, targets: seq<seq<nat>>): seq<bool>
    requires Fit(rows, targets) && NoneEmpty(rows)
  {
    seq(|rows|, r requires 0 <= r < |rows| => Whole(rows[r], Fitting(page, rows[r], targets[r], Code(rows[r]))))
  }

  predicate Mixed(whole: seq<bool>) {
    (exists r :: 0 <= r < |whole| && whole[r]) && (exists r :: 0 <= r < |whole| && !whole[r])
  }

  /** Rows from `from` up to `to` are alike, and no longer ones. */
  predicate AlikeTo(whole: seq<bool>, from: nat, to: nat) {
    && from < to <= |whole| && (forall r :: from <= r < to ==> whole[r] == whole[from])
    && (to < |whole| ==> whole[to] != whole[from])
  }

  /**
   * Rows that can all take their padding, or all cannot, are lined up together; otherwise
   * those next to each other that are alike are split in turn.
   */
  ghost predicate Splits(page: Page, rows: seq<seq<CellMark>>, cuts: seq<nat>)
    decreases |rows|, 1, 0
  {
    NoneEmpty(rows) && exists targets, columns ::
      && Targeted(page, rows, targets, columns)
      && if Mixed(WholeRows(page, rows, targets)) then SplitsTo(page, rows, WholeRows(page, rows, targets), |rows|, cuts)
         else cuts == (if rows == [] then [0] else [0, |rows|])
  }

  /** So are the first `at` rows. */
  ghost predicate SplitsTo(page: Page, rows: seq<seq<CellMark>>, whole: seq<bool>, at: nat, cuts: seq<nat>)
    requires |whole| == |rows| && at <= |rows|
    decreases |rows|, 0, at
  {
    if at == 0 then cuts == [0]
    else exists from: nat, before, last ::
      && AlikeTo(whole, from, at) && at - from < |rows| && last != []
      && SplitsTo(page, rows, whole, from, before) && Splits(page, rows[from..at], last)
      && cuts == before + Shift(last, from)[1..]
  }

  /** What padding rows comes to: its groups, rows within the width, and where the spaces go. */
  ghost predicate Arranged(page: Page, rows: seq<seq<CellMark>>, rowPads: seq<seq<nat>>, kept: seq<nat>, cuts: seq<nat>,
                           inserts: seq<P.Pad>) {
    && Grouped(page, rows, rowPads, kept, cuts)
    && (forall r :: 0 <= r < |rows| ==> RowWithin(page, rows[r], rowPads[r], kept[r]))
    && inserts == Inserts(page, rows, rowPads, kept, |rows|)
  }

  /** A table padded, in the groups it is to be split into. */
  ghost predicate Tabled(page: Page, rows: seq<seq<CellMark>>, rowPads: seq<seq<nat>>, kept: seq<nat>, cuts: seq<nat>,
                         inserts: seq<P.Pad>) {
    Arranged(page, rows, rowPads, kept, cuts, inserts) && Splits(page, rows, cuts)
  }

  ghost predicate IsTabled(page: Page, rows: seq<seq<CellMark>>, inserts: seq<P.Pad>) {
    exists rowPads, kept, cuts :: Tabled(page, rows, rowPads, kept, cuts, inserts)
  }

  function Shift(cuts: seq<nat>, places: nat): seq<nat> {
    seq(|cuts|, i requires 0 <= i < |cuts| => cuts[i] + places)
  }

  lemma {:induction false} InsertsAppend(page: Page, rows: seq<seq<CellMark>>, rowPads: seq<seq<nat>>, kept: seq<nat>,
                                         more: seq<seq<CellMark>>, morePads: seq<seq<nat>>, moreKept: seq<nat>, count: nat)
    requires Fit(rows, rowPads) && |kept| == |rows| && Fit(more, morePads) && |moreKept| == |more| && count <= |more|
    requires forall r :: 0 <= r < |rows| ==> rows[r] != [] && kept[r] <= |rows[r]|
    requires forall r :: 0 <= r < |more| ==> more[r] != [] && moreKept[r] <= |more[r]|
    ensures Inserts(page, rows + more, rowPads + morePads, kept + moreKept, |rows| + count)
      == Inserts(page, rows, rowPads, kept, |rows|) + Inserts(page, more, morePads, moreKept, count)
  {
    hide RowInserts;
    if count == 0 {
      InsertsPrefix(page, rows, rowPads, kept, more, morePads, moreKept, |rows|);
    } else {
      InsertsAppend(page, rows, rowPads, kept, more, morePads, moreKept, count - 1);
      assert (rows + more)[|rows| + count - 1] == more[count - 1];
      var a, b := Inserts(page, rows, rowPads, kept, |rows|), Inserts(page, more, morePads, moreKept, count - 1);
      var c := RowInserts(page, more[count - 1], morePads[count - 1], moreKept[count - 1]);
      assert a + b + c == a + (b + c);
    }
  }

  lemma {:induction false} InsertsPrefix(page: Page, rows: seq<seq<CellMark>>, rowPads: seq<seq<nat>>, kept: seq<nat>,
                                         more: seq<seq<CellMark>>, morePads: seq<seq<nat>>, moreKept: seq<nat>, count: nat)
    requires Fit(rows, rowPads) && |kept| == |rows| && Fit(more, morePads) && |moreKept| == |more| && count <= |rows|
    requires forall r :: 0 <= r < |rows| ==> rows[r] != [] && kept[r] <= |rows[r]|
    requires forall r :: 0 <= r < |more| ==> more[r] != [] && moreKept[r] <= |more[r]|
    ensures Inserts(page, rows + more, rowPads + morePads, kept + moreKept, count) == Inserts(page, rows, rowPads, kept, count)
  {
    hide RowInserts;
    if count > 0 {
      InsertsPrefix(page, rows, rowPads, kept, more, morePads, moreKept, count - 1);
    }
  }

  lemma {:induction false} TabledAppend(page: Page, rows: seq<seq<CellMark>>, rowPads: seq<seq<nat>>, kept: seq<nat>, cuts: seq<nat>,
                                        inserts: seq<P.Pad>, more: seq<seq<CellMark>>, morePads: seq<seq<nat>>, moreKept: seq<nat>,
                                        moreCuts: seq<nat>, moreInserts: seq<P.Pad>)
    requires Arranged(page, rows, rowPads, kept, cuts, inserts) && Arranged(page, more, morePads, moreKept, moreCuts, moreInserts)
    ensures Arranged(page, rows + more, rowPads + morePads, kept + moreKept, cuts + Shift(moreCuts, |rows|)[1..], inserts + moreInserts)
  {
    hide RowWithin, Group, Inserts;
    TabledShape(page, rows, rowPads, kept, cuts, inserts);
    TabledShape(page, more, morePads, moreKept, moreCuts, moreInserts);
    InsertsAppend(page, rows, rowPads, kept, more, morePads, moreKept, |more|);
    assert forall r :: 0 <= r < |rows + more| ==> (rows + more)[r] == if r < |rows| then rows[r] else more[r - |rows|];
    GroupedAppend(page, rows, rowPads, kept, cuts, more, morePads, moreKept, moreCuts);
  }

  lemma TabledShape(page: Page, rows: seq<seq<CellMark>>, rowPads: seq<seq<nat>>, kept: seq<nat>, cuts: seq<nat>, inserts: seq<P.Pad>)
    requires Arranged(page, rows, rowPads, kept, cuts, inserts)
    ensures Fit(rows, rowPads) && |kept| == |rows|
    ensures forall r :: 0 <= r < |rows| ==> rows[r] != [] && kept[r] <= |rows[r]|
  {
    hide Group, CodeFits, CommentFits, Inserts;
    assert forall r :: 0 <= r < |rows| ==> RowWithin(page, rows[r], rowPads[r], kept[r]);
  }

  lemma {:induction false} GroupedAppend(page: Page, rows: seq<seq<CellMark>>, rowPads: seq<seq<nat>>, kept: seq<nat>, cuts: seq<nat>,
                                         more: seq<seq<CellMark>>, morePads: seq<seq<nat>>, moreKept: seq<nat>, moreCuts: seq<nat>)
    requires Grouped(page, rows, rowPads, kept, cuts) && Grouped(page, more, morePads, moreKept, moreCuts)
    ensures Grouped(page, rows + more, rowPads + morePads, kept + moreKept, cuts + Shift(moreCuts, |rows|)[1..])
  {
    var all := cuts + Shift(moreCuts, |rows|)[1..];
    CutsAppend(cuts, moreCuts, |rows|, |more|);
    hide Group, Shift;
    forall g, h | 0 <= g < h < |all| && h == g + 1
      ensures Group(page, rows + more, rowPads + morePads, kept + moreKept, all[g], all[h])
    {
      GroupPair(page, rows, rowPads, kept, cuts, more, morePads, moreKept, moreCuts, all, g, h);
    }
  }

  lemma {:induction false} GroupPair(page: Page, rows: seq<seq<CellMark>>, rowPads: seq<seq<nat>>, kept: seq<nat>, cuts: seq<nat>,
                                     more: seq<seq<CellMark>>, morePads: seq<seq<nat>>, moreKept: seq<nat>, moreCuts: seq<nat>,
                                     all: seq<nat>, g: nat, h: nat)
    requires Grouped(page, rows, rowPads, kept, cuts) && Grouped(page, more, morePads, moreKept, moreCuts)
    requires |all| == |cuts| - 1 + |moreCuts| && g < h < |all| && h == g + 1
    requires forall i :: 0 <= i <= |cuts| - 1 ==> all[i] == cuts[i]
    requires forall i :: |cuts| - 1 <= i < |all| ==> all[i] == moreCuts[i - (|cuts| - 1)] + |rows|
    ensures Group(page, rows + more, rowPads + morePads, kept + moreKept, all[g], all[h])
  {
    hide Group;
    var last := |cuts| - 1;
    if h <= last {
      assert Group(page, rows, rowPads, kept, cuts[g], cuts[h]);
      GroupFirst(page, rows, rowPads, kept, more, morePads, moreKept, cuts[g], cuts[h]);
    } else {
      assert Group(page, more, morePads, moreKept, moreCuts[g - last], moreCuts[h - last]);
      GroupSecond(page, rows, rowPads, kept, more, morePads, moreKept, moreCuts[g - last], moreCuts[h - last]);
    }
  }

  lemma {:induction false} CutsAppend(cuts: seq<nat>, moreCuts: seq<nat>, n: nat, m: nat)
    requires cuts != [] && cuts[0] == 0 && cuts[|cuts| - 1] == n && forall g, h :: 0 <= g < h < |cuts| ==> cuts[g] < cuts[h]
    requires moreCuts != [] && moreCuts[0] == 0 && moreCuts[|moreCuts| - 1] == m
    requires forall g, h :: 0 <= g < h < |moreCuts| ==> moreCuts[g] < moreCuts[h]
    ensures var all, last := cuts + Shift(moreCuts, n)[1..], |cuts| - 1;
      && all[0] == 0 && all[|all| - 1] == n + m && |all| == last + |moreCuts|
      && (forall g, h :: 0 <= g < h < |all| ==> all[g] < all[h])
      && (forall g :: 0 <= g <= last ==> all[g] == cuts[g])
      && (forall g :: last <= g < |all| ==> all[g] == moreCuts[g - last] + n)
  {
    var all, last := cuts + Shift(moreCuts, n)[1..], |cuts| - 1;
    assert forall g :: last <= g < |all| ==> all[g] == moreCuts[g - last] + n;
    forall g, h | 0 <= g < h < |all| ensures all[g] < all[h] {
      if g < last < h {
        assert cuts[g] < cuts[last] && moreCuts[0] < moreCuts[h - last];
      }
    }
  }

  lemma GroupFirst(page: Page, rows: seq<seq<CellMark>>, rowPads: seq<seq<nat>>, kept: seq<nat>, more: seq<seq<CellMark>>,
                   morePads: seq<seq<nat>>, moreKept: seq<nat>, from: nat, to: nat)
    requires Fit(rows, rowPads) && |kept| == |rows| && Fit(more, morePads) && |moreKept| == |more|
    requires Group(page, rows, rowPads, kept, from, to)
    ensures Group(page, rows + more, rowPads + morePads, kept + moreKept, from, to)
  {
    hide LinedUpTogether;
    assert (rows + more)[from..to] == rows[from..to] && (rowPads + morePads)[from..to] == rowPads[from..to];
    assert (kept + moreKept)[from..to] == kept[from..to];
  }

  lemma GroupSecond(page: Page, rows: seq<seq<CellMark>>, rowPads: seq<seq<nat>>, kept: seq<nat>, more: seq<seq<CellMark>>,
                    morePads: seq<seq<nat>>, moreKept: seq<nat>, from: nat, to: nat)
    requires Fit(rows, rowPads) && |kept| == |rows| && Fit(more, morePads) && |moreKept| == |more|
    requires Group(page, more, morePads, moreKept, from, to)
    ensures Group(page, rows + more, rowPads + morePads, kept + moreKept, from + |rows|, to + |rows|)
  {
    hide LinedUpTogether;
    var n := |rows|;
    assert (rows + more)[from + n..to + n] == more[from..to] && (rowPads + morePads)[from + n..to + n] == morePads[from..to];
    assert (kept + moreKept)[from + n..to + n] == moreKept[from..to];
  }

  lemma {:induction false} OneGroup(page: Page, rows: seq<seq<CellMark>>, rowPads: seq<seq<nat>>, kept: seq<nat>)
    requires LinedUpTogether(page, rows, rowPads, kept)
    ensures forall r :: 0 <= r < |rows| ==> RowWithin(page, rows[r], rowPads[r], kept[r])
    ensures Grouped(page, rows, rowPads, kept, if rows == [] then [0] else [0, |rows|])
  {
    forall r | 0 <= r < |rows| ensures RowWithin(page, rows[r], rowPads[r], kept[r]) {
      AllWithin(page, rows, rowPads, kept, r);
    }
    hide LinedUpTogether, RowWithin;
    assert rows[0..|rows|] == rows && rowPads[0..|rows|] == rowPads && kept[0..|rows|] == kept by {
      Sizes(page, rows, rowPads, kept);
    }
  }

  lemma Sizes(page: Page, rows: seq<seq<CellMark>>, rowPads: seq<seq<nat>>, kept: seq<nat>)
    requires LinedUpTogether(page, rows, rowPads, kept)
    ensures Fit(rows, rowPads) && |kept| == |rows|
  {
  }

  /** Where the group of rows alike that starts at `from` ends. */
  method Alike(whole: seq<bool>, from: nat) returns (to: nat)
    requires from < |whole|
    ensures AlikeTo(whole, from, to)
  {
    to := from + 1;
    while to < |whole| && whole[to] == whole[from]
      invariant from < to <= |whole| && forall r :: from <= r < to ==> whole[r] == whole[from]
    {
      to := to + 1;
    }
  }

  /**
   * Lines `rows` up. One whose cells before its comment cannot all be padded within the
   * width splits the table, the rows on either side of it lined up among themselves.
   */
  method Table(page: Page, rows: seq<seq<CellMark>>)
    returns (inserts: seq<P.Pad>, ghost rowPads: seq<seq<nat>>, ghost kept: seq<nat>, ghost cuts: seq<nat>)
    requires NoneEmpty(rows)
    ensures Tabled(page, rows, rowPads, kept, cuts, inserts)
    ensures IsTabled(page, rows, inserts)
    decreases |rows|
  {
    ghost var columns;
    var targets;
    targets, columns := Targets(rows, page.maxPad);
    var fits := seq(|rows|, r requires 0 <= r < |rows| => Fitting(page, rows[r], targets[r], Code(rows[r])));
    var whole := seq(|rows|, r requires 0 <= r < |rows| => Whole(rows[r], fits[r]));
    hide *;
    SplitsSo(page, rows, targets, columns, whole);
    if Mixed(whole) {
      inserts, rowPads, kept, cuts := Groups(page, rows, whole);
    } else {
      var after, keptAfter;
      ghost var runs;
      after, keptAfter, runs := Comments(page, rows, targets, fits);
      OneTable(page, rows, targets, fits, columns, whole, after, keptAfter, runs);
      TogetherShape(page, rows, after, keptAfter);
      rowPads, kept, cuts := after, keptAfter, if rows == [] then [0] else [0, |rows|];
      inserts := Inserts(page, rows, after, keptAfter, |rows|);
      OnlyGroup(page, rows, after, keptAfter, inserts);
    }
    SomeTabled(page, rows, rowPads, kept, cuts, inserts);
  }

  lemma SomeTabled(page: Page, rows: seq<seq<CellMark>>, rowPads: seq<seq<nat>>, kept: seq<nat>, cuts: seq<nat>, inserts: seq<P.Pad>)
    requires Arranged(page, rows, rowPads, kept, cuts, inserts) && Splits(page, rows, cuts)
    ensures Tabled(page, rows, rowPads, kept, cuts, inserts) && IsTabled(page, rows, inserts)
  {
    hide Arranged, Splits;
  }

  lemma {:induction false} SplitsSo(page: Page, rows: seq<seq<CellMark>>, targets: seq<seq<nat>>, columns: seq<seq<nat>>, whole: seq<bool>)
    requires NoneEmpty(rows) && Fit(rows, targets) && |whole| == |rows| && Alone(rows, targets)
    requires AreRows(rows) ==> AllLinedUp(rows, targets, rows != [] && rows[0][0].strict, page.maxPad, columns)
    requires forall r :: 0 <= r < |rows| ==> whole[r] == Whole(rows[r], Fitting(page, rows[r], targets[r], Code(rows[r])))
    ensures !Mixed(whole) ==> Splits(page, rows, if rows == [] then [0] else [0, |rows|])
    ensures Mixed(whole) ==> forall cuts :: SplitsTo(page, rows, whole, |rows|, cuts) ==> Splits(page, rows, cuts)
  {
    hide AllLinedUp, AreRows, Whole, Fitting, Mixed, SplitsTo;
    assert whole == WholeRows(page, rows, targets);
    assert Targeted(page, rows, targets, columns);
  }

  lemma {:induction false} OneTable(page: Page, rows: seq<seq<CellMark>>, targets: seq<seq<nat>>, fits: seq<nat>, columns: seq<seq<nat>>,
                                    whole: seq<bool>, rowPads: seq<seq<nat>>, kept: seq<nat>, runs: seq<Run>)
    requires NoneEmpty(rows) && Fit(rows, targets) && |fits| == |whole| == |rows| && !Mixed(whole) && Alone(rows, targets)
    requires AreRows(rows) ==> AllLinedUp(rows, targets, rows != [] && rows[0][0].strict, page.maxPad, columns)
    requires forall r :: 0 <= r < |rows| ==> fits[r] == Fitting(page, rows[r], targets[r], Code(rows[r]))
    requires forall r :: 0 <= r < |rows| ==> whole[r] == Whole(rows[r], fits[r])
    requires CommentsLined(rows, targets, fits, rowPads, kept, Items(page, rows, targets, fits, |rows|), runs)
    ensures LinedUpTogether(page, rows, rowPads, kept)
  {
    hide AllLinedUp, AreRows, Whole, CommentsLined, Fitting, Items, Inserts;
    AllOrNone(rows, fits, whole);
    LinedShape(rows, targets, fits, rowPads, kept, Items(page, rows, targets, fits, |rows|), runs);
    assert Together(page, rows, targets, fits, columns, rowPads, kept, runs);
  }

  lemma TogetherShape(page: Page, rows: seq<seq<CellMark>>, rowPads: seq<seq<nat>>, kept: seq<nat>)
    requires LinedUpTogether(page, rows, rowPads, kept)
    ensures Fit(rows, rowPads) && |kept| == |rows| && forall r :: 0 <= r < |rows| ==> rows[r] != [] && kept[r] <= |rows[r]|
  {
    hide LinedUpTogether;
    OneGroup(page, rows, rowPads, kept);
    assert forall r :: 0 <= r < |rows| ==> RowWithin(page, rows[r], rowPads[r], kept[r]);
  }

  lemma OnlyGroup(page: Page, rows: seq<seq<CellMark>>, rowPads: seq<seq<nat>>, kept: seq<nat>, inserts: seq<P.Pad>)
    requires LinedUpTogether(page, rows, rowPads, kept)
    requires Fit(rows, rowPads) && |kept| == |rows| && forall r :: 0 <= r < |rows| ==> rows[r] != [] && kept[r] <= |rows[r]|
    requires inserts == Inserts(page, rows, rowPads, kept, |rows|)
    ensures Arranged(page, rows, rowPads, kept, if rows == [] then [0] else [0, |rows|], inserts)
  {
    hide LinedUpTogether, Grouped, Inserts;
    OneGroup(page, rows, rowPads, kept);
  }

  lemma AllOrNone(rows: seq<seq<CellMark>>, fits: seq<nat>, whole: seq<bool>)
    requires |fits| == |whole| == |rows| && !Mixed(whole)
    requires forall r :: 0 <= r < |rows| ==> whole[r] == Whole(rows[r], fits[r])
    ensures (forall r :: 0 <= r < |rows| ==> Whole(rows[r], fits[r])) || (forall r :: 0 <= r < |rows| ==> !Whole(rows[r], fits[r]))
  {
    hide Whole;
    if r :| 0 <= r < |rows| && whole[r] {
      assert forall s :: 0 <= s < |rows| ==> whole[s];
      assert forall s :: 0 <= s < |rows| ==> Whole(rows[s], fits[s]);
    } else {
      assert forall s :: 0 <= s < |rows| ==> !Whole(rows[s], fits[s]);
    }
  }

  lemma LinedShape(rows: seq<seq<CellMark>>, rowPads: seq<seq<nat>>, kept: seq<nat>, after: seq<seq<nat>>,
                   keptAfter: seq<nat>, items: seq<Item>, runs: seq<Run>)
    requires CommentsLined(rows, rowPads, kept, after, keptAfter, items, runs)
    ensures Fit(rows, after) && |keptAfter| == |rows|
  {
    hide Lined, InRuns, FreeRow;
  }

  /** Lines each group of rows alike up on its own. */
  method Groups(page: Page, rows: seq<seq<CellMark>>, whole: seq<bool>)
    returns (inserts: seq<P.Pad>, ghost rowPads: seq<seq<nat>>, ghost kept: seq<nat>, ghost cuts: seq<nat>)
    requires NoneEmpty(rows) && |whole| == |rows|
    requires Mixed(whole)
    ensures Arranged(page, rows, rowPads, kept, cuts, inserts) && SplitsTo(page, rows, whole, |rows|, cuts)
    decreases |rows|, 0
  {
    hide Tabled, Arranged, Splits, SplitsTo;
    var at := 0;
    inserts, rowPads, kept, cuts := [], [], [], [0];
    NoTable(page);
    NoSplit(page, rows, whole);
    while at < |rows|
      invariant at <= |rows|
      invariant Arranged(page, rows[..at], rowPads, kept, cuts, inserts) && SplitsTo(page, rows, whole, at, cuts)
    {
      var to := Alike(whole, at);
      assert rows[..to] == rows[..at] + rows[at..to];
      ghost var morePads, moreKept, moreCuts;
      var more;
      more, morePads, moreKept, moreCuts := Table(page, rows[at..to]);
      TabledIs(page, rows[at..to], morePads, moreKept, moreCuts, more);
      TabledCuts(page, rows[at..to], morePads, moreKept, moreCuts, more);
      TabledAppend(page, rows[..at], rowPads, kept, cuts, inserts, rows[at..to], morePads, moreKept, moreCuts, more);
      OneSplitMore(page, rows, whole, at, to, cuts, moreCuts);
      inserts, rowPads, kept, cuts := inserts + more, rowPads + morePads, kept + moreKept, cuts + Shift(moreCuts, at)[1..];
      at := to;
    }
    assert rows[..at] == rows;
  }

  lemma TabledIs(page: Page, rows: seq<seq<CellMark>>, rowPads: seq<seq<nat>>, kept: seq<nat>, cuts: seq<nat>, inserts: seq<P.Pad>)
    requires Tabled(page, rows, rowPads, kept, cuts, inserts)
    ensures Arranged(page, rows, rowPads, kept, cuts, inserts) && Splits(page, rows, cuts)
  {
    hide Arranged, Splits;
  }

  lemma NoSplit(page: Page, rows: seq<seq<CellMark>>, whole: seq<bool>)
    requires |whole| == |rows|
    ensures SplitsTo(page, rows, whole, 0, [0])
  {
  }

  lemma {:induction false} OneSplitMore(page: Page, rows: seq<seq<CellMark>>, whole: seq<bool>, at: nat, to: nat, cuts: seq<nat>, moreCuts: seq<nat>)
    requires |whole| == |rows| && AlikeTo(whole, at, to) && Mixed(whole) && moreCuts != []
    requires SplitsTo(page, rows, whole, at, cuts) && Splits(page, rows[at..to], moreCuts)
    ensures SplitsTo(page, rows, whole, to, cuts + Shift(moreCuts, at)[1..])
  {
    hide Splits, Shift;
  }

  lemma TabledCuts(page: Page, rows: seq<seq<CellMark>>, rowPads: seq<seq<nat>>, kept: seq<nat>, cuts: seq<nat>, inserts: seq<P.Pad>)
    requires Arranged(page, rows, rowPads, kept, cuts, inserts)
    ensures cuts != []
  {
  }

  lemma NoTable(page: Page)
    ensures Arranged(page, [], [], [], [0], [])
  {
  }

  // ----- a lone row

  /** A lone row takes no padding, its comment included. */
  lemma {:induction false} LoneTogether(page: Page, rows: seq<seq<CellMark>>, rowPads: seq<seq<nat>>, kept: seq<nat>)
    requires LinedUpTogether(page, rows, rowPads, kept)
    ensures Alone(rows, rowPads)
  {
    hide AllLinedUp, AreRows, Whole, Fitting, InRuns, Lined;
    if |rows| == 1 {
      var targets, fits, columns, runs :| Together(page, rows, targets, fits, columns, rowPads, kept, runs);
      var items := Items(page, rows, targets, fits, |rows|);
      if FreeRow(items, 0) {
        var g, j := RunOfRow(rows, targets, fits, rowPads, kept, items, runs, 0);
        LoneRun(page, rows, targets, fits, items, runs, g, j);
      }
    }
  }

  lemma {:induction false} LoneRun(page: Page, rows: seq<seq<CellMark>>, targets: seq<seq<nat>>, fits: seq<nat>, items: seq<Item>,
                                   runs: seq<Run>, g: nat, j: nat)
    requires Fit(rows, targets) && |fits| == |rows| == 1 && items == Items(page, rows, targets, fits, |rows|)
    requires InRuns(items, runs, |items|) && g < |runs| && j < |items|
    ensures runs[g].column == items[j].end
  {
    hide Joins, Holding, IsItem;
    assert IsRun(items, runs[g]);
    FewItems(page, rows, targets, fits, |rows|);
  }

  lemma {:induction false} FewItems(page: Page, rows: seq<seq<CellMark>>, rowPads: seq<seq<nat>>, kept: seq<nat>, count: nat)
    requires Fit(rows, rowPads) && |kept| == |rows| && count <= |rows|
    ensures |Items(page, rows, rowPads, kept, count)| <= count
  {
    if count > 0 {
      FewItems(page, rows, rowPads, kept, count - 1);
    }
  }

  lemma {:induction false} LoneTable(page: Page, rows: seq<seq<CellMark>>, rowPads: seq<seq<nat>>, kept: seq<nat>, cuts: seq<nat>,
                                     inserts: seq<P.Pad>)
    requires Arranged(page, rows, rowPads, kept, cuts, inserts) && |rows| <= 1 && page.continuations == []
    ensures forall p :: p in inserts ==> p.count == 0
  {
    hide RowWithin;
    TabledShape(page, rows, rowPads, kept, cuts, inserts);
    if |rows| == 1 {
      hide Group, Inserts;
      OneStep(cuts);
      assert Group(page, rows, rowPads, kept, cuts[0], cuts[1]);
      LoneGroup(page, rows, rowPads, kept);
      LoneInserts(page, rows, rowPads, kept);
    }
  }

  lemma {:induction false} OneStep(cuts: seq<nat>)
    requires cuts != [] && cuts[0] == 0 && cuts[|cuts| - 1] == 1 && forall g, h :: 0 <= g < h < |cuts| ==> cuts[g] < cuts[h]
    ensures |cuts| == 2
  {
    Climbs(cuts, |cuts| - 1);
  }

  lemma {:induction false} Climbs(cuts: seq<nat>, g: nat)
    requires g < |cuts| && forall g, h :: 0 <= g < h < |cuts| ==> cuts[g] < cuts[h]
    ensures cuts[g] >= g
  {
    if g > 0 {
      Climbs(cuts, g - 1);
      assert cuts[g - 1] < cuts[g];
    }
  }

  lemma LoneGroup(page: Page, rows: seq<seq<CellMark>>, rowPads: seq<seq<nat>>, kept: seq<nat>)
    requires Group(page, rows, rowPads, kept, 0, 1) && |rows| == 1 && Fit(rows, rowPads)
    ensures Alone(rows, rowPads)
  {
    hide LinedUpTogether;
    assert rows[0..1] == rows && rowPads[0..1] == rowPads && kept[0..1] == kept;
    LoneTogether(page, rows, rowPads, kept);
  }

  lemma LoneInserts(page: Page, rows: seq<seq<CellMark>>, rowPads: seq<seq<nat>>, kept: seq<nat>)
    requires Fit(rows, rowPads) && |kept| == |rows| == 1 && rows[0] != [] && kept[0] <= |rows[0]|
    requires Alone(rows, rowPads) && page.continuations == []
    ensures forall p :: p in Inserts(page, rows, rowPads, kept, 1) ==> p.count == 0
  {
    var inserts := RowInserts(page, rows[0], rowPads[0], kept[0]);
    assert Later(page, rows[0]) == [];
    assert forall i :: 0 <= i < |inserts| ==> inserts[i].count == rowPads[0][i] == 0;
    assert Inserts(page, rows, rowPads, kept, 1) == Inserts(page, rows, rowPads, kept, 0) + inserts;
  }
}
