/**
 * Where lined up comments do not line up: a comment on a line that is carried along is in
 * the run of those around it as if it were not.
 */
module CarriedComment {
  import opened Wrappers
  import opened Layout
  import opened Columns
  import opened LayoutSpacing
  import opened LayoutColumns
  import opened LayoutMarks
  import opened LineSpaces
  import opened AlignedText
  import A = Alignment
  import P = Padding
  import T = Tables

  // Text under text: the second `b` is placed by the first, and followed by a comment.
  const OUT: string := "a b\n  b c\ncc d\n"
  const AFTER_A: CellMark := CellMark(1, false, 0, 0, 0, 1, 1)
  const AFTER_B: CellMark := CellMark(1, false, COMMENT, 0, 1, 7, 3)
  const AFTER_CC: CellMark := CellMark(1, false, 0, 0, 2, 12, 2)
  const CELLS: seq<CellMark> := [AFTER_A, AFTER_B, AFTER_CC]
  const UNDER: Continuation := Continuation(0, 2, 4, None)
  const ROWS: seq<seq<CellMark>> := [[AFTER_A], [AFTER_B], [AFTER_CC]]

  function PAGE(): A.Page {
    T.PageOf(OUT, CELLS, [UNDER], 5, 8)
  }

  lemma Chars()
    ensures |OUT| == 15 && OUT[1] == OUT[7] == OUT[12] == ' '
    ensures forall k :: 0 <= k < |OUT| ==> (IsNewline(OUT[k]) <==> k == 3 || k == 9 || k == 14) && OUT[k] != '\r'
  {
    assert OUT == ['a', ' ', 'b', '\n', ' ', ' ', 'b', ' ', 'c', '\n', 'c', 'c', ' ', 'd', '\n'];
  }

  lemma {:induction false} WidthIs(out: string, offset: nat, n: nat)
    requires offset + n < |out| && IsNewline(out[offset + n]) && forall k :: offset <= k < offset + n ==> !IsNewline(out[k])
    ensures A.LineWidth(out, offset) == n
    decreases n
  {
    if n > 0 {
      WidthIs(out, offset + 1, n - 1);
    }
  }

  lemma PageIs()
    ensures T.Retained(OUT, CELLS) == CELLS && T.SortCells(CELLS) == CELLS
    ensures PAGE() == A.Page(OUT, [UNDER], [7], 5, 8)
  {
    Chars();
    assert CELLS[1..] == [AFTER_B, AFTER_CC] && CELLS[2..] == [AFTER_CC] && CELLS[3..] == [];
    assert [AFTER_B, AFTER_CC][1..] == [AFTER_CC] && [AFTER_CC][1..] == [];
    assert T.Retained(OUT, [AFTER_CC]) == [AFTER_CC];
    assert T.Retained(OUT, [AFTER_B, AFTER_CC]) == [AFTER_B, AFTER_CC];
    assert T.SortCells([AFTER_CC]) == [AFTER_CC];
    assert T.SortCells([AFTER_B, AFTER_CC]) == [AFTER_B, AFTER_CC];
    assert T.CommentOffsets([AFTER_CC]) == [];
    assert T.CommentOffsets([AFTER_B, AFTER_CC]) == [7];
  }

  lemma Widths()
    ensures A.LineWidth(OUT, 1) == 2 && A.LineWidth(OUT, 4) == 5 && A.LineWidth(OUT, 7) == 2 && A.LineWidth(OUT, 12) == 2
    ensures A.CodeWidth(PAGE(), 1) == 2 && A.CodeWidth(PAGE(), 4) == 3 && A.CodeWidth(PAGE(), 12) == 2
  {
    Chars();
    PageIs();
    WidthIs(OUT, 1, 2);
    WidthIs(OUT, 4, 5);
    WidthIs(OUT, 7, 2);
    WidthIs(OUT, 12, 2);
  }

  // ----- the one table

  lemma {:induction false} OneTableOnly(page: A.Page, tables: seq<T.Done>)
    requires T.AreTables(page, tables) && T.AllCells(tables) != []
    requires forall a, b :: a in T.AllCells(tables) && b in T.AllCells(tables) ==> T.SameTable(a, b)
    ensures |tables| == 1 && T.AllCells(tables) == T.Joined(tables[0].rows)
  {
    hide A.Tabled, T.Joined, T.SameTable;
    if |tables| > 1 {
      TwoTables(page, tables);
    }
    assert tables[..0] == [];
  }

  lemma {:induction false} TwoTables(page: A.Page, tables: seq<T.Done>)
    requires T.AreTables(page, tables) && |tables| > 1
    ensures exists a, b :: a in T.AllCells(tables) && b in T.AllCells(tables) && !T.SameTable(a, b)
  {
    hide A.Tabled, T.Joined, T.SameTable;
    var n := |tables|;
    var s, t := tables[n - 2], tables[n - 1];
    assert T.OtherTable(s, t) && T.IsTable(page, s) && T.IsTable(page, t);
    SomeCell(page, s);
    SomeCell(page, t);
    var a :| a in T.Joined(s.rows);
    var b :| b in T.Joined(t.rows);
    assert tables[..n - 1][n - 2] == s && tables[..n - 1][..n - 2] == tables[..n - 2];
    assert T.AllCells(tables[..n - 1]) == T.AllCells(tables[..n - 2]) + T.Joined(s.rows);
    assert a in T.AllCells(tables) && b in T.AllCells(tables);
  }

  lemma SomeCell(page: A.Page, t: T.Done)
    requires T.IsTable(page, t)
    ensures exists c :: c in T.Joined(t.rows)
  {
    hide A.Tabled;
    assert T.Joined(t.rows) == T.Joined(t.rows[..|t.rows| - 1]) + t.rows[|t.rows| - 1];
    assert t.rows[|t.rows| - 1][0] in T.Joined(t.rows);
  }

  /** Cells all on different lines are rows of one each. */
  lemma {:induction false} SingleRows(cells: seq<CellMark>, rows: seq<seq<CellMark>>)
    requires T.Chunked(cells, rows) && forall i, j :: 0 <= i < j < |cells| ==> cells[i].line != cells[j].line
    ensures |rows| == |cells| && forall i :: 0 <= i < |rows| ==> rows[i] == [cells[i]]
    decreases |rows|
  {
    if rows != [] {
      var n := |rows| - 1;
      var last, before := rows[n], T.Joined(rows[..n]);
      assert cells == before + last;
      assert last[0] == cells[|before|] && last[|last| - 1] == cells[|cells| - 1];
      assert last[|last| - 1].line == last[0].line;
      assert forall i :: 0 <= i < |before| ==> before[i] == cells[i];
      assert forall r :: 0 <= r < n ==> rows[..n][r] == rows[r];
      SingleRows(before, rows[..n]);
    }
  }

  // ----- what lines the rows up

  lemma ColumnsAre()
    ensures ColumnsOf(ROWS) == [0, COMMENT] && AreRows(ROWS)
  {
    var columns := ColumnsOf(ROWS);
    assert RowHas(ROWS[0], 0) && RowHas(ROWS[1], COMMENT) by {
      assert ROWS[0][0].index == 0 && ROWS[1][0].index == COMMENT;
    }
    assert HasColumn(ROWS, 0) && HasColumn(ROWS, COMMENT);
    assert 0 in columns && COMMENT in columns;
    forall i | 0 <= i < |columns| ensures columns[i] == 0 || columns[i] == COMMENT {
      assert columns[i] in columns && HasColumn(ROWS, columns[i]);
    }
    var i :| 0 <= i < |columns| && columns[i] == 0;
    var j :| 0 <= j < |columns| && columns[j] == COMMENT;
    assert i < j && columns[0] <= columns[i] && columns[|columns| - 1] >= columns[j];
    forall k | 0 <= k < |columns| ensures columns[k] in columns && (k == i || k == j) {
      assert columns[k] == columns[i] || columns[k] == columns[j];
    }
    assert columns[0] == columns[i] && columns[1] == columns[j] && columns[|columns| - 1] == columns[j];
  }

  /** The first and the last row line up, and the comment, on its own, stays. */
  lemma {:induction false} TargetsAre(targets: seq<seq<nat>>, columns: seq<seq<nat>>)
    requires Fit(ROWS, targets) && AllLinedUp(ROWS, targets, false, 8, columns)
    ensures targets == [[1], [0], [0]]
  {
    ColumnsAre();
    assert |ROWS| == 3 && |ROWS[0]| == |ROWS[1]| == |ROWS[2]| == 1;
    FirstColumn(targets, columns);
    CommentColumn(targets, columns);
    assert targets[0] == [1] && targets[1] == [0] && targets[2] == [0];
  }

  lemma HavingAre()
    ensures Having(ROWS, 0, 3) == [0, 2] && Having(ROWS, COMMENT, 3) == [1]
    ensures Position(ROWS[0], 0) == Position(ROWS[2], 0) == Position(ROWS[1], COMMENT) == 0
    ensures A.Code(ROWS[0]) == A.Code(ROWS[2]) == 1 && A.Code(ROWS[1]) == 0
  {
    assert Position([], 0) == Position([], COMMENT) == 0;
    assert ROWS[0] == [AFTER_A] && ROWS[1] == [AFTER_B] && ROWS[2] == [AFTER_CC];
    assert ROWS[0][1..] == ROWS[1][1..] == ROWS[2][1..] == [];
    assert Position(ROWS[0], 0) == 0 && Position(ROWS[1], 0) == 1 && Position(ROWS[2], 0) == 0;
    assert Position(ROWS[0], COMMENT) == 1 && Position(ROWS[1], COMMENT) == 0 && Position(ROWS[2], COMMENT) == 1;
    assert Having(ROWS, 0, 0) == [] && Having(ROWS, 0, 1) == [0] && Having(ROWS, 0, 2) == [0];
    assert Having(ROWS, COMMENT, 0) == [] && Having(ROWS, COMMENT, 1) == [] && Having(ROWS, COMMENT, 2) == [1];
  }

  lemma {:induction false} FirstColumn(targets: seq<seq<nat>>, columns: seq<seq<nat>>)
    requires Fit(ROWS, targets) && AllLinedUp(ROWS, targets, false, 8, columns)
    ensures targets[0][0] == 1 && targets[2][0] == 0
  {
    hide Ends, Moves, LinedUp;
    ColumnsAre();
    assert ColumnLinedUp(ROWS, targets, false, 8, ColumnsOf(ROWS), columns, 0);
    EndsAre(targets);
    TwoLevel([targets[0][0], targets[2][0]], columns[0], StartsBefore(ROWS, ColumnsOf(ROWS), columns, 0));
  }

  lemma EndsAre(targets: seq<seq<nat>>)
    requires Fit(ROWS, targets)
    ensures |ROWS[0]| == |ROWS[2]| == 1 && Ends(ROWS, targets, 0) == [End(0, 0, 1), End(2, 0, 2)]
    ensures Moves(Ends(ROWS, targets, 0), targets) == [targets[0][0], targets[2][0]]
  {
    HavingAre();
    assert Ends(ROWS, targets, 0) == [End(0, 0, 1), End(2, 0, 2)];
  }

  lemma {:induction false} TwoLevel(moves: seq<nat>, firsts: seq<nat>, starts: seq<bool>)
    requires |moves| == 2 && starts == [false, false, false]
    requires LinedUp([End(0, 0, 1), End(2, 0, 2)], moves, firsts, starts, true, 8)
    ensures moves == [1, 0]
  {
    var ends := [End(0, 0, 1), End(2, 0, 2)];
    assert !StartedIn(starts, 0, 2);
    assert !Breaks(ends, firsts, starts, true, 8, 1);
    assert !Cut(firsts, 1) && firsts[0] == firsts[1] == 0;
    assert ends[0].end + moves[0] == ends[1].end + moves[1];
    assert Unmoved(moves, firsts, 0);
  }

  lemma {:induction false} CommentColumn(targets: seq<seq<nat>>, columns: seq<seq<nat>>)
    requires Fit(ROWS, targets) && AllLinedUp(ROWS, targets, false, 8, columns)
    ensures targets[1][0] == 0
  {
    ColumnsAre();
    HavingAre();
    assert ColumnLinedUp(ROWS, targets, false, 8, ColumnsOf(ROWS), columns, 1);
    var moves := Moves(Ends(ROWS, targets, COMMENT), targets);
    assert moves == [targets[1][0]];
    assert Unmoved(moves, columns[1], columns[1][0]);
  }

  // ----- what the width allows

  const TARGETS: seq<seq<nat>> := [[1], [0], [0]]

  lemma FitsAre()
    ensures A.Fitting(PAGE(), ROWS[0], [1], 1) == 1 && A.Fitting(PAGE(), ROWS[1], [0], 0) == 0
    ensures A.Fitting(PAGE(), ROWS[2], [0], 1) == 1
    ensures A.Carried(ROWS[0], [1], 1, UNDER) == 1 && A.Later(PAGE(), ROWS[0]) == [UNDER]
    ensures A.Later(PAGE(), ROWS[1]) == A.Later(PAGE(), ROWS[2]) == []
  {
    PageIs();
    Widths();
    HavingAre();
    LaterAre();
    assert ROWS[0] == [AFTER_A] && ROWS[1] == [AFTER_B] && ROWS[2] == [AFTER_CC];
    assert Sum([1][..1]) == 1 && Sum([0][..1]) == 0 by {
      assert [1][..1] == [1] && [0][..1] == [0] && [1][..0] == [0][..0] == [];
    }
    assert A.CodeFits(PAGE(), ROWS[0], [1], 1);
    assert A.CodeFits(PAGE(), ROWS[2], [0], 1);
  }

  lemma LaterAre()
    ensures A.Later(PAGE(), ROWS[0]) == [UNDER] && A.Later(PAGE(), ROWS[1]) == A.Later(PAGE(), ROWS[2]) == []
    ensures A.Carried(ROWS[0], [1], 1, UNDER) == 1
  {
    PageIs();
    assert [UNDER][1..] == [];
    assert A.PlacedBy([UNDER], 0) == [UNDER] && A.PlacedBy([UNDER], 1) == [] && A.PlacedBy([UNDER], 2) == [];
    assert ROWS[0][1..] == [] && [1][1..] == [];
    assert A.Move(ROWS[0], [1], 1, 2) == 1 + A.Move([], [], 0, 2);
  }

  /** All rows can take their padding, so none splits the table. */
  lemma {:induction false} NotSplit(cuts: seq<nat>)
    requires A.Splits(PAGE(), ROWS, cuts)
    ensures cuts == [0, 3]
  {
    hide AllLinedUp, AreRows, A.Fitting, A.SplitsTo, A.Whole, A.Code, Alone, T.PageOf;
    ColumnsAre();
    MaxPadIs();
    var targets, columns :| A.Targeted(PAGE(), ROWS, targets, columns)
      && if A.Mixed(A.WholeRows(PAGE(), ROWS, targets)) then A.SplitsTo(PAGE(), ROWS, A.WholeRows(PAGE(), ROWS, targets), |ROWS|, cuts)
         else cuts == (if ROWS == [] then [0] else [0, |ROWS|]);
    TargetsAre(targets, columns);
    AllWhole();
    assert forall r :: 0 <= r < 3 ==> A.WholeRows(PAGE(), ROWS, TARGETS)[r];
  }

  lemma AllWhole()
    ensures A.NoneEmpty(ROWS) && Fit(ROWS, TARGETS) && A.WholeRows(PAGE(), ROWS, TARGETS) == [true, true, true]
  {
    hide A.Fitting;
    HavingAre();
    FitsAre();
    assert ROWS[0][1..] == ROWS[1][1..] == ROWS[2][1..] == [] && A.CodeCells([]) == 0;
    assert A.CodeCells(ROWS[0]) == A.CodeCells(ROWS[2]) == 1 && A.CodeCells(ROWS[1]) == 0;
  }

  lemma RoomIs()
    ensures A.Room(PAGE(), ROWS[1], [0], 0) == Some(0) && A.EndAt(ROWS[1], [0], 0) == 3
  {
    hide A.LineWidth, A.Later, A.Fitting, A.Code;
    PageIs();
    Widths();
    FitsAre();
    assert [0][..0] == [] && Sum([]) == 0;
    assert A.Reach(PAGE(), ROWS[1], [0], 0, []) == 5;
  }

  lemma ItemsAre()
    ensures Fit(ROWS, TARGETS) && A.Items(PAGE(), ROWS, TARGETS, [1, 0, 1], 3) == [A.Item(1, 0, 3, Some(3))]
  {
    hide A.Fitting, A.LineWidth, A.Room, A.EndAt, A.Code, PAGE;
    HavingAre();
    RoomIs();
    assert A.Limit(PAGE(), ROWS[1], TARGETS[1], 0) == Some(3);
    hide A.Limit;
    assert A.Items(PAGE(), ROWS, TARGETS, [1, 0, 1], 0) == [];
    assert A.Items(PAGE(), ROWS, TARGETS, [1, 0, 1], 1) == [];
    assert A.Items(PAGE(), ROWS, TARGETS, [1, 0, 1], 2) == [A.Item(1, 0, 3, Some(3))];
  }

  /** What the rows are lined up by, and the one run, of the one comment. */
  ghost predicate LinesUp(targets: seq<seq<nat>>, fits: seq<nat>, columns: seq<seq<nat>>, rowPads: seq<seq<nat>>, kept: seq<nat>,
                          runs: seq<A.Run>, g: nat) {
    && targets == rowPads == TARGETS && fits == [1, 0, 1] && kept == [1, 1, 1]
    && A.Together(PAGE(), ROWS, targets, fits, columns, rowPads, kept, runs)
    && g < |runs| && runs[g].first <= 0 < runs[g].to && runs[g].column == 3
  }

  lemma {:induction false} PaddingIs(rowPads: seq<seq<nat>>, kept: seq<nat>)
    returns (targets: seq<seq<nat>>, fits: seq<nat>, columns: seq<seq<nat>>, runs: seq<A.Run>, g: nat)
    requires A.LinedUpTogether(PAGE(), ROWS, rowPads, kept)
    ensures LinesUp(targets, fits, columns, rowPads, kept, runs, g)
  {
    hide A.Together, AllLinedUp, PAGE;
    targets, fits, columns, runs :| A.Together(PAGE(), ROWS, targets, fits, columns, rowPads, kept, runs);
    WitnessesAre(targets, fits, columns, rowPads, kept, runs);
    g := CommentStays(rowPads, kept, runs);
  }

  lemma {:induction false} WitnessesAre(targets: seq<seq<nat>>, fits: seq<nat>, columns: seq<seq<nat>>,
                                        rowPads: seq<seq<nat>>, kept: seq<nat>, runs: seq<A.Run>)
    requires (forall r :: 0 <= r < |ROWS| ==> ROWS[r] != []) && A.Together(PAGE(), ROWS, targets, fits, columns, rowPads, kept, runs)
    ensures Fit(ROWS, TARGETS) && A.CommentsLined(ROWS, TARGETS, [1, 0, 1], rowPads, kept, A.Items(PAGE(), ROWS, TARGETS, [1, 0, 1], 3), runs)
    ensures targets == TARGETS && fits == [1, 0, 1]
  {
    hide AllLinedUp, AreRows, A.Fitting, A.Items, A.CommentsLined, A.Whole, A.Code, Alone, T.PageOf;
    ColumnsAre();
    HavingAre();
    FitsAre();
    MaxPadIs();
    TargetsAre(targets, columns);
    assert fits[0] == 1 && fits[1] == 0 && fits[2] == 1;
    assert fits == [1, 0, 1];
  }

  lemma MaxPadIs()
    ensures PAGE().maxPad == 8 && ROWS != [] && !ROWS[0][0].strict
  {
  }

  lemma {:induction false} CommentStays(rowPads: seq<seq<nat>>, kept: seq<nat>, runs: seq<A.Run>) returns (g: nat)
    requires Fit(ROWS, TARGETS) && Fit(ROWS, rowPads) && |kept| == 3
    requires A.CommentsLined(ROWS, TARGETS, [1, 0, 1], rowPads, kept, A.Items(PAGE(), ROWS, TARGETS, [1, 0, 1], 3), runs)
    ensures rowPads == TARGETS && kept == [1, 1, 1]
    ensures g < |runs| && runs[g].first <= 0 < runs[g].to && runs[g].column == 3
  {
    hide A.Items, A.InRuns, A.Lined;
    ItemsAre();
    var items := A.Items(PAGE(), ROWS, TARGETS, [1, 0, 1], 3);
    assert items[0].row == 1 && !A.FreeRow(items, 0) && !A.FreeRow(items, 2) && A.FreeRow(items, 1);
    var j;
    g, j := A.RunOfRow(ROWS, TARGETS, [1, 0, 1], rowPads, kept, items, runs, 1);
    assert runs[g].column == 3 && rowPads[1] == [0][0 := 0] == [0];
    assert rowPads[0] == [1] && rowPads[2] == [0];
  }

  // ----- what comes out

  const PADDED: string := "a  b\n   b c\ncc d\n"

  lemma {:induction false} InsertsAre(t: T.Done)
    returns (targets: seq<seq<nat>>, fits: seq<nat>, columns: seq<seq<nat>>, runs: seq<A.Run>, g: nat)
    requires T.IsTable(PAGE(), t) && t.rows == ROWS
    ensures t.inserts == [P.Pad(4, 1), P.Pad(1, 1), P.Pad(7, 0), P.Pad(12, 0)]
    ensures LinesUp(targets, fits, columns, t.rowPads, t.kept, runs, g)
  {
    hide A.Splits, A.Group, A.RowWithin, A.Inserts, A.Carried, A.Later;
    NotSplit(t.cuts);
    assert A.Group(PAGE(), t.rows, t.rowPads, t.kept, t.cuts[0], t.cuts[1]);
    WholeGroup(t);
    targets, fits, columns, runs, g := PaddingIs(t.rowPads, t.kept);
    RowInsertsAre();
  }

  lemma WholeGroup(t: T.Done)
    requires A.Group(PAGE(), t.rows, t.rowPads, t.kept, 0, 3) && |t.rows| == |t.rowPads| == |t.kept| == 3
    ensures A.LinedUpTogether(PAGE(), t.rows, t.rowPads, t.kept)
  {
    hide A.LinedUpTogether;
    assert t.rows[0..3] == t.rows && t.rowPads[0..3] == t.rowPads && t.kept[0..3] == t.kept;
  }

  lemma RowInsertsAre()
    ensures Fit(ROWS, TARGETS) && (forall r :: 0 <= r < 3 ==> ROWS[r] != [] && [1, 1, 1][r] <= |ROWS[r]|)
    ensures A.Inserts(PAGE(), ROWS, TARGETS, [1, 1, 1], 3) == [P.Pad(4, 1), P.Pad(1, 1), P.Pad(7, 0), P.Pad(12, 0)]
  {
    hide A.Fitting, A.Carried, A.Later;
    FitsAre();
    assert A.RowInserts(PAGE(), ROWS[0], [1], 1) == [P.Pad(4, 1), P.Pad(1, 1)];
    assert A.RowInserts(PAGE(), ROWS[1], [0], 1) == [P.Pad(7, 0)];
    assert A.RowInserts(PAGE(), ROWS[2], [0], 1) == [P.Pad(12, 0)];
    assert A.Inserts(PAGE(), ROWS, TARGETS, [1, 1, 1], 0) == [];
    assert A.Inserts(PAGE(), ROWS, TARGETS, [1, 1, 1], 1) == [P.Pad(4, 1), P.Pad(1, 1)];
    assert A.Inserts(PAGE(), ROWS, TARGETS, [1, 1, 1], 2) == [P.Pad(4, 1), P.Pad(1, 1), P.Pad(7, 0)];
  }

  lemma SortIs()
    ensures T.SortPads([P.Pad(4, 1), P.Pad(1, 1), P.Pad(7, 0), P.Pad(12, 0)]) == [P.Pad(1, 1), P.Pad(4, 1)]
  {
    var a, b, c, d := P.Pad(4, 1), P.Pad(1, 1), P.Pad(7, 0), P.Pad(12, 0);
    assert [a, b, c, d][1..] == [b, c, d] && [b, c, d][1..] == [c, d] && [c, d][1..] == [d] && [d][1..] == [];
    assert T.SortPads([c, d]) == [] && T.SortPads([b, c, d]) == [b] + [];
    assert [b][1..] == [] && T.InsertPad(a, [b]) == [b] + T.InsertPad(a, []) == [b, a];
  }

  lemma InsertIs()
    ensures P.Sorted([P.Pad(1, 1), P.Pad(4, 1)]) && P.Fitting([P.Pad(1, 1), P.Pad(4, 1)], OUT, 0)
    ensures P.Inserted(OUT, [P.Pad(1, 1), P.Pad(4, 1)], 0) == OUT[0..1] + " " + (OUT[1..4] + " " + OUT[4..])
  {
    hide OUT;
    Chars();
    var a, b := P.Pad(4, 1), P.Pad(1, 1);
    assert LayoutSpacing.Spaces(1) == " " by {
      assert Repeated(" ", 0) == "";
    }
    assert [b, a][1..] == [a] && [a][1..] == [];
    assert P.Inserted(OUT, [], 4) == OUT[4..];
    assert P.Inserted(OUT, [a], 1) == OUT[1..4] + " " + OUT[4..];
  }

  lemma TextIs()
    ensures OUT[0..1] + " " + (OUT[1..4] + " " + OUT[4..]) == PADDED
  {
    assert OUT == ['a', ' ', 'b', '\n', ' ', ' ', 'b', ' ', 'c', '\n', 'c', 'c', ' ', 'd', '\n'];
    assert OUT[0..1] == ['a'] && OUT[1..4] == [' ', 'b', '\n'];
    assert OUT[4..] == [' ', ' ', 'b', ' ', 'c', '\n', 'c', 'c', ' ', 'd', '\n'];
  }

  /** The text these cells and this continuation are noted in, aligned within a width of 5. */
  ghost predicate IsThis(a: Aligned) {
    && a == Aligned(OUT, CELLS, [UNDER], 5, 8, a.tables, a.padded)
    && IsAligned(a)
  }

  /** Whatever tables it is padded by, the text comes out so. */
  lemma {:induction false} ComesOut(a: Aligned)
    returns (targets: seq<seq<nat>>, fits: seq<nat>, columns: seq<seq<nat>>, runs: seq<A.Run>, g: nat)
    requires IsThis(a)
    ensures a.padded == PADDED && Pads(a) == [P.Pad(1, 1), P.Pad(4, 1)]
    ensures |a.tables| == 1 && a.tables[0].rows == ROWS
    ensures LinesUp(targets, fits, columns, a.tables[0].rowPads, a.tables[0].kept, runs, g)
  {
    hide *;
    ThisIs(a);
    PaddedIs(a.tables, a.padded);
    PageIs();
    AllOne();
    OneTableOnly(PAGE(), a.tables);
    IsTheTable(a.tables);
    SingleRows(CELLS, a.tables[0].rows);
    RowsAre(a.tables[0].rows);
    targets, fits, columns, runs, g := InsertsAre(a.tables[0]);
    OneInsert(a.tables);
    SortIs();
    InsertIs();
    TextIs();
    PadsIs(a);
  }

  lemma ThisIs(a: Aligned)
    requires IsThis(a)
    ensures T.PaddedBy(OUT, CELLS, [UNDER], 5, 8, a.tables, a.padded) && AllShaped(a.tables) && Page(a) == PAGE()
    ensures a.out == OUT && a.cells == CELLS && a.continuations == [UNDER] && a.width == 5
  {
    hide T.PaddedBy, Noted, OUT, CELLS;
  }

  lemma PadsIs(a: Aligned)
    ensures Pads(a) == T.SortPads(T.AllInserts(a.tables))
  {
  }

  /** The comment is the one after the second `b`. */
  predicate IsAfterB(a: Aligned, u: Lineup, j: nat)
    requires InTable(a, u) && j < |ItemsOf(a, u)|
  {
    var item := ItemsOf(a, u)[j];
    LinedRows(a, u)[item.row][item.at] == AFTER_B
  }

  /**
   * The second `b`'s comment, the only one of its run, is lined up at the third column and
   * comes out at the fourth; and its line, which had all the room there is, a column too
   * wide.
   */
  lemma {:induction false} CarriedPastTheWidth(a: Aligned) returns (u: Lineup, g: nat, j: nat)
    requires IsThis(a)
    ensures Lined(a, u) && g < |u.runs| && u.runs[g].first <= j < u.runs[g].to && j < |ItemsOf(a, u)|
    ensures IsAfterB(a, u, j) && u.runs[g].column == 3 && GoesTo(a, 7, 4)
    ensures a.padded == PADDED && A.LineWidth(PADDED, 5) > a.width
  {
    hide *;
    var targets, fits, columns, runs;
    targets, fits, columns, runs, g := ComesOut(a);
    ThisIs(a);
    TextIs();
    u := Lineup(0, 0, 3, targets, fits, columns, runs);
    j := 0;
    LineupIs(a, u, g);
    GoesToFourth(a);
    SixWide();
  }

  lemma LineupIs(a: Aligned, u: Lineup, g: nat)
    requires Page(a) == PAGE() && AllShaped(a.tables) && |a.tables| == 1 && a.tables[0].rows == ROWS
    requires u.t == u.from == 0 && u.to == 3
    requires LinesUp(u.targets, u.fits, u.columns, a.tables[0].rowPads, a.tables[0].kept, u.runs, g)
    ensures Lined(a, u) && g < |u.runs| && u.runs[g].first <= 0 < u.runs[g].to && 0 < |ItemsOf(a, u)|
    ensures IsAfterB(a, u, 0) && u.runs[g].column == 3
  {
    hide A.Together, PAGE, Page, A.Items;
    var t := a.tables[0];
    assert Shaped(t);
    assert t.rows[0..3] == t.rows && t.rowPads[0..3] == t.rowPads && t.kept[0..3] == t.kept;
    ItemsAre();
    assert ROWS[1] == [AFTER_B];
  }

  lemma SixWide()
    ensures A.LineWidth(PADDED, 5) == 6
  {
    assert PADDED == ['a', ' ', ' ', 'b', '\n', ' ', ' ', ' ', 'b', ' ', 'c', '\n', 'c', 'c', ' ', 'd', '\n'];
    WidthIs(PADDED, 5, 6);
  }

  lemma GoesToFourth(a: Aligned)
    requires a.padded == PADDED && Pads(a) == [P.Pad(1, 1), P.Pad(4, 1)]
    ensures GoesTo(a, 7, 4)
  {
    assert PADDED == ['a', ' ', ' ', 'b', '\n', ' ', ' ', ' ', 'b', ' ', 'c', '\n', 'c', 'c', ' ', 'd', '\n'];
    var pads := Pads(a);
    assert pads[1..] == [P.Pad(4, 1)] && pads[1..][1..] == [];
    assert P.Upto([P.Pad(4, 1)], 7) == 1 && P.Upto(pads, 7) == 2;
    OnLine(PADDED, 5, 9);
  }

  /** What was noted of the text is as the printer notes it, on lines with cells of one table. */
  lemma NotedAsPrinted()
    ensures Noted(OUT, CELLS, [UNDER]) && forall line :: OneTableOn(OUT, CELLS, line)
  {
    hide *;
    NotedHere();
    AllOne();
  }

  /** Aligning it does come to this. */
  method Carried() returns (padded: string)
    ensures padded == PADDED && exists a :: IsThis(a) && a.padded == padded
  {
    hide *;
    CellsInText();
    padded := T.Align(OUT, CELLS, [UNDER], 5, 8);
    ghost var tables :| T.PaddedBy(OUT, CELLS, [UNDER], 5, 8, tables, padded);
    PaddedIs(tables, padded);
    Shapes(PAGE(), tables);
    NotedAsPrinted();
    ghost var a := Aligned(OUT, CELLS, [UNDER], 5, 8, tables, padded);
    IsThisOne(a);
    var _, _, _, _, _ := ComesOut(a);
  }

  lemma CellsInText()
    ensures T.InText(OUT, CELLS, [UNDER])
  {
    Chars();
  }

  lemma IsThisOne(a: Aligned)
    requires a == Aligned(OUT, CELLS, [UNDER], 5, 8, a.tables, a.padded) && Noted(OUT, CELLS, [UNDER])
    requires T.PaddedBy(OUT, CELLS, [UNDER], 5, 8, a.tables, a.padded) && AllShaped(a.tables)
    ensures IsThis(a)
  {
    hide T.PaddedBy, Noted, OUT, CELLS;
  }

  lemma PaddedIs(tables: seq<T.Done>, padded: string)
    requires T.PaddedBy(OUT, CELLS, [UNDER], 5, 8, tables, padded)
    ensures T.AreTables(PAGE(), tables) && T.AllCells(tables) == T.SortCells(T.Retained(OUT, CELLS))
    ensures var pads := T.SortPads(T.AllInserts(tables));
      P.Sorted(pads) && P.Fitting(pads, OUT, 0) && padded == P.Inserted(OUT, pads, 0)
  {
    hide T.AreTables, T.SortCells, T.Retained, T.AllCells, T.SortPads, T.AllInserts, P.Fitting, P.Inserted, OUT, CELLS;
  }

  lemma AllOne()
    ensures CELLS != [] && forall a, b :: a in CELLS && b in CELLS ==> T.SameTable(a, b)
    ensures forall i, j :: 0 <= i < j < |CELLS| ==> CELLS[i].line != CELLS[j].line
    ensures forall line :: OneTableOn(OUT, CELLS, line)
  {
    hide OUT;
  }

  lemma RowsAre(rows: seq<seq<CellMark>>)
    requires |rows| == |CELLS| && forall i :: 0 <= i < |rows| ==> rows[i] == [CELLS[i]]
    ensures rows == ROWS
  {
  }

  lemma IsTheTable(tables: seq<T.Done>)
    requires T.AreTables(PAGE(), tables) && |tables| == 1
    ensures T.IsTable(PAGE(), tables[0]) && T.Chunked(T.Joined(tables[0].rows), tables[0].rows)
  {
    hide A.Tabled;
    assert T.IsTable(PAGE(), tables[0]);
  }

  lemma OneInsert(tables: seq<T.Done>)
    requires |tables| == 1
    ensures T.AllInserts(tables) == tables[0].inserts
  {
    assert tables[..0] == [];
  }

  lemma NotedHere()
    ensures Noted(OUT, CELLS, [UNDER])
  {
    Chars();
    OnLine(OUT, 0, 1);
    LineEnds();
    OnLine(OUT, 4, 7);
    OnLine(OUT, 10, 12);
  }

  lemma LineEnds()
    ensures ColumnAt(OUT, 0) == 0 && LineAt(OUT, 0) == 0
    ensures ColumnAt(OUT, 4) == 0 && LineAt(OUT, 4) == 1 && ColumnAt(OUT, 10) == 0 && LineAt(OUT, 10) == 2
  {
    Chars();
    assert OUT[3] == OUT[9] == '\n';
    OnLine(OUT, 0, 3);
    OnLine(OUT, 4, 9);
  }
}
