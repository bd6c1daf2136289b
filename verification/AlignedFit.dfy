/**
 * How much padding rows take: every row as many of its cells as leave its code within the
 * width, its comment not counted, and every comment with room for it a place in a run.
 */
module AlignedFit {
  import opened Layout
  import opened Columns
  import opened LayoutSpacing
  import opened LayoutColumns
  import opened LayoutMarks
  import opened LineSpaces
  import opened AlignedText
  import opened AlignedWidth
  import A = Alignment
  import T = Tables

  // ----- where lines end

  /** The line goes on from `offset` to `end`. */
  predicate LineEnds(out: string, offset: nat, end: nat) {
    && offset <= end <= |out| && (forall k :: offset <= k < end ==> !IsNewline(out[k]))
    && (end < |out| ==> IsNewline(out[end]))
  }

  /** Its code does, to the end of the line or the comment that ends it. */
  predicate CodeEnds(page: A.Page, offset: nat, end: nat) {
    && offset <= end <= |page.out| && (forall k :: offset <= k < end ==> !IsNewline(page.out[k]) && k !in page.comments)
    && (end < |page.out| ==> IsNewline(page.out[end]) || end in page.comments)
  }

  lemma {:induction false} LineTo(out: string, offset: nat, end: nat)
    requires LineEnds(out, offset, end)
    ensures A.LineWidth(out, offset) == end - offset && ColumnAt(out, end) == ColumnAt(out, offset) + end - offset
    decreases end - offset
  {
    if offset < end {
      LineTo(out, offset + 1, end);
    }
    OnLine(out, offset, end);
  }

  lemma {:induction false} LineEnd(out: string, offset: nat) returns (end: nat)
    requires offset <= |out|
    ensures LineEnds(out, offset, end)
    decreases |out| - offset
  {
    if offset == |out| || IsNewline(out[offset]) {
      end := offset;
    } else {
      end := LineEnd(out, offset + 1);
    }
  }

  lemma {:induction false} FirstIs(comments: seq<nat>, offset: nat)
    ensures A.FirstFrom(comments, offset).Some? ==> A.FirstFrom(comments, offset).value in comments
    ensures A.FirstFrom(comments, offset).None? ==> forall c :: c in comments ==> c < offset
  {
    if comments != [] {
      assert comments == [comments[0]] + comments[1..];
      FirstIs(comments[1..], offset);
    }
  }

  lemma {:induction false} CodeTo(page: A.Page, offset: nat, end: nat)
    requires Sorted(page.comments) && CodeEnds(page, offset, end)
    ensures A.CodeWidth(page, offset) == end - offset && ColumnAt(page.out, end) == ColumnAt(page.out, offset) + end - offset
  {
    hide Sorted, A.FirstFrom, A.LineWidth;
    var line := LineEnd(page.out, offset);
    LineTo(page.out, offset, line);
    FirstIs(page.comments, offset);
    var first := A.FirstFrom(page.comments, offset);
    assert end <= line;
    if end in page.comments {
      FirstOf(page.comments, offset, end);
    }
    OnLine(page.out, offset, end);
  }

  lemma {:induction false} CodeEnd(page: A.Page, offset: nat) returns (end: nat)
    requires offset <= |page.out|
    ensures CodeEnds(page, offset, end)
    decreases |page.out| - offset
  {
    if offset == |page.out| || IsNewline(page.out[offset]) || offset in page.comments {
      end := offset;
    } else {
      end := CodeEnd(page, offset + 1);
    }
  }

  // ----- the code of a row

  /** What the results are about: a row as it stands in the text, comments in order, placed lines where lines start. */
  ghost predicate Stood(page: A.Page, row: seq<CellMark>) {
    && InPlace(page.out, row) && row != [] && Sorted(page.comments)
    && forall it :: it in page.continuations ==> it.offset < |page.out| && ColumnAt(page.out, it.offset) == 0
  }

  /** The row places the line before its comment. */
  predicate PlacesIt(row: seq<CellMark>, it: Continuation)
    requires row != []
  {
    it.line == row[0].line && (A.Code(row) < |row| ==> it.start < row[A.Code(row)].offset)
  }

  /**
   * With the first `cells` of the row padded, its code ends within the width, and so does
   * the code of each line it places, moved as far as that is carried.
   */
  ghost predicate CodeInside(page: A.Page, row: seq<CellMark>, pads: seq<nat>, cells: nat)
    requires row != [] && |pads| == |row| && cells <= |row|
  {
    && (forall end: nat :: CodeEnds(page, row[0].offset, end) ==> ColumnAt(page.out, end) + Sum(pads[..cells]) <= page.width)
    && (forall it, end: nat :: it in page.continuations && PlacesIt(row, it) && CodeEnds(page, it.offset, end) ==>
          ColumnAt(page.out, end) + A.Carried(row, pads, cells, it) <= page.width)
  }

  lemma {:induction false} FitsExactly(page: A.Page, row: seq<CellMark>, pads: seq<nat>, cells: nat)
    requires Stood(page, row) && |pads| == |row| && cells <= |row|
    ensures A.CodeFits(page, row, pads, cells) <==> CodeInside(page, row, pads, cells)
  {
    assert forall offset: nat, end: nat :: CodeEnds(page, offset, end) ==> end <= |page.out|;
    hide Sorted, CodeEnds, ColumnAt, LineAt, A.CodeWidth, A.Carried, Sum;
    assert Stands(page.out, row[0].offset, row[0].column, row[0].line);
    var first := CodeEnd(page, row[0].offset);
    CodeTo(page, row[0].offset, first);
    forall end: nat | CodeEnds(page, row[0].offset, end)
      ensures ColumnAt(page.out, end) == row[0].column + A.CodeWidth(page, row[0].offset)
    {
      CodeTo(page, row[0].offset, end);
    }
    forall it, end: nat | it in page.continuations && CodeEnds(page, it.offset, end)
      ensures ColumnAt(page.out, end) == A.CodeWidth(page, it.offset)
    {
      CodeTo(page, it.offset, end);
    }
    if CodeInside(page, row, pads, cells) {
      forall it | it in A.Later(page, row) && A.ByCode(row, it)
        ensures A.CodeWidth(page, it.offset) + A.Carried(row, pads, cells, it) <= page.width
      {
        var end := CodeEnd(page, it.offset);
        CodeTo(page, it.offset, end);
        assert PlacesIt(row, it) && ColumnAt(page.out, end) + A.Carried(row, pads, cells, it) <= page.width;
      }
    }
  }

  /** A row takes the padding of the most cells that leave its code within the width. */
  lemma {:induction false} FittingIsMost(page: A.Page, row: seq<CellMark>, pads: seq<nat>)
    requires Stood(page, row) && |pads| == |row|
    ensures var fits := A.Fitting(page, row, pads, A.Code(row));
      && fits <= A.Code(row) && (fits > 0 ==> CodeInside(page, row, pads, fits))
      && forall cells: nat :: cells <= A.Code(row) && CodeInside(page, row, pads, cells) ==> cells <= fits
  {
    hide CodeInside, A.CodeFits, A.Code, InPlace, Sorted;
    var fits := A.Fitting(page, row, pads, A.Code(row));
    FitsExactly(page, row, pads, fits);
    forall cells: nat | cells <= A.Code(row) && CodeInside(page, row, pads, cells) ensures cells <= fits {
      FitsExactly(page, row, pads, cells);
    }
  }

  lemma {:induction false} CodeIsCells(row: seq<CellMark>)
    requires forall i :: 0 <= i < |row| - 1 ==> row[i].index != COMMENT
    ensures A.CodeCells(row) == A.Code(row)
  {
    if row != [] {
      forall i | 0 <= i < |row[1..]| - 1 ensures row[1..][i].index != COMMENT {
        assert row[i + 1].index != COMMENT;
      }
      CodeIsCells(row[1..]);
      if row[0].index == COMMENT {
        assert row[1..] == [];
      }
    }
  }

  /** A row splits its table exactly if its code, with all its cells padded, is not within the width. */
  lemma {:induction false} WholeExactly(page: A.Page, row: seq<CellMark>, pads: seq<nat>)
    requires Stood(page, row) && |pads| == |row| && forall i :: 0 <= i < |row| - 1 ==> row[i].index != COMMENT
    ensures A.Whole(row, A.Fitting(page, row, pads, A.Code(row))) <==> A.Code(row) == 0 || CodeInside(page, row, pads, A.Code(row))
  {
    hide Stood, CodeInside, A.CodeFits, A.Code, A.CodeCells;
    CodeIsCells(row);
    FittingIsMost(page, row, pads);
  }

  // ----- its comment

  /** The comment moved by `more`, its line ends within the width, and so does each line it places, moved by as much. */
  ghost predicate CommentInside(page: A.Page, row: seq<CellMark>, pads: seq<nat>, more: nat)
    requires |pads| == |row| && A.Code(row) < |row|
  {
    var at := A.Code(row);
    && (forall end: nat :: LineEnds(page.out, row[0].offset, end) ==> ColumnAt(page.out, end) + Sum(pads[..at]) + more <= page.width)
    && (forall it, end: nat :: it in page.continuations && it.line == row[0].line && !PlacesIt(row, it) && LineEnds(page.out, it.offset, end) ==>
          ColumnAt(page.out, end) + A.Carried(row, pads, at, it) + more <= page.width)
  }

  lemma {:induction false} ReachWithin(page: A.Page, row: seq<CellMark>, pads: seq<nat>, at: nat, later: seq<Continuation>, most: nat)
    requires at < |row| == |pads| && row[0].column + A.LineWidth(page.out, row[0].offset) + Sum(pads[..at]) <= most
    requires forall it :: it in later && it.start >= row[at].offset ==>
      A.LineWidth(page.out, it.offset) + A.Carried(row, pads, at, it) <= most
    ensures A.Reach(page, row, pads, at, later) <= most
  {
    if later != [] {
      assert later == [later[0]] + later[1..];
      ReachWithin(page, row, pads, at, later[1..], most);
    }
  }

  /** A comment has room to move exactly as far as that leaves its lines within the width. */
  lemma {:induction false} RoomExactly(page: A.Page, row: seq<CellMark>, pads: seq<nat>, more: nat)
    requires Stood(page, row) && |pads| == |row| && A.Code(row) < |row|
    ensures var room := A.Room(page, row, pads, A.Code(row));
      room.Some? && more <= room.value <==> CommentInside(page, row, pads, more)
  {
    assert forall offset: nat, end: nat :: LineEnds(page.out, offset, end) ==> end <= |page.out|;
    hide Sorted, LineEnds, ColumnAt, LineAt, A.LineWidth, A.Carried, Sum, A.Code, A.Reach;
    var at, later := A.Code(row), A.Later(page, row);
    assert Stands(page.out, row[0].offset, row[0].column, row[0].line);
    var first := LineEnd(page.out, row[0].offset);
    forall end: nat | LineEnds(page.out, row[0].offset, end)
      ensures ColumnAt(page.out, end) == row[0].column + A.LineWidth(page.out, row[0].offset)
    {
      LineTo(page.out, row[0].offset, end);
    }
    forall it, end: nat | it in page.continuations && LineEnds(page.out, it.offset, end)
      ensures ColumnAt(page.out, end) == A.LineWidth(page.out, it.offset)
    {
      LineTo(page.out, it.offset, end);
    }
    ReachBounds(page, row, pads, at, later);
    if CommentInside(page, row, pads, more) {
      assert ColumnAt(page.out, first) + Sum(pads[..at]) + more <= page.width;
      forall it | it in later && it.start >= row[at].offset
        ensures A.LineWidth(page.out, it.offset) + A.Carried(row, pads, at, it) <= page.width - more
      {
        var end := LineEnd(page.out, it.offset);
        LineTo(page.out, it.offset, end);
        assert !PlacesIt(row, it) && ColumnAt(page.out, end) + A.Carried(row, pads, at, it) + more <= page.width;
      }
      ReachWithin(page, row, pads, at, later, page.width - more);
    }
  }

  lemma ReachBounds(page: A.Page, row: seq<CellMark>, pads: seq<nat>, at: nat, later: seq<Continuation>)
    requires at < |row| == |pads|
    ensures row[0].column + A.LineWidth(page.out, row[0].offset) + Sum(pads[..at]) <= A.Reach(page, row, pads, at, later)
    ensures forall it :: it in later && it.start >= row[at].offset ==>
      A.LineWidth(page.out, it.offset) + A.Carried(row, pads, at, it) <= A.Reach(page, row, pads, at, later)
  {
  }

  // ----- what the rows of aligned text take

  lemma {:induction false} RowStood(a: Aligned, u: Lineup, r: nat)
    requires IsAligned(a) && Lined(a, u) && r < u.to - u.from
    ensures InTable(a, u) && r < |LinedRows(a, u)| && Stood(Page(a), LinedRows(a, u)[r])
  {
    hide *;
    IsTable(a, u);
    RowIs(a, u, r);
    AlignedMeans(a);
    NotedMeans(a.out, a.cells, a.continuations);
    RowPlaced(a, u.t, u.from + r);
    OffsetsSorted(T.Retained(a.out, a.cells));
    PageSorted(a);
    StoodIs(Page(a), LinedRows(a, u)[r]);
  }

  lemma PageSorted(a: Aligned)
    ensures Page(a).comments == T.CommentOffsets(T.Retained(a.out, a.cells))
  {
  }

  lemma StoodIs(page: A.Page, row: seq<CellMark>)
    requires InPlace(page.out, row) && row != [] && Sorted(page.comments)
    requires forall it :: it in page.continuations ==> it.offset < |page.out| && ColumnAt(page.out, it.offset) == 0
    ensures Stood(page, row)
  {
  }

  lemma {:induction false} HasItem(page: A.Page, rows: seq<seq<CellMark>>, targets: seq<seq<nat>>, fits: seq<nat>, count: nat, r: nat)
    returns (j: nat)
    requires Fit(rows, targets) && |fits| == |rows| && r < count <= |rows| && A.Code(rows[r]) < |rows[r]|
    ensures var items := A.Items(page, rows, targets, fits, count);
      j < |items| && items[j].row == r && items[j].limit == A.Limit(page, rows[r], targets[r], fits[r])
    decreases count
  {
    hide A.Limit, A.EndAt, Position;
    var items := A.Items(page, rows, targets, fits, count);
    if r < count - 1 {
      j := HasItem(page, rows, targets, fits, count - 1, r);
      assert items[j] == A.Items(page, rows, targets, fits, count - 1)[j];
    } else {
      j := |items| - 1;
    }
  }

  lemma {:induction false} FreeIfRoom(page: A.Page, rows: seq<seq<CellMark>>, targets: seq<seq<nat>>, fits: seq<nat>, r: nat)
    requires Fit(rows, targets) && |fits| == |rows| && r < |rows| && A.Code(rows[r]) < |rows[r]|
    requires fits[r] == A.Code(rows[r]) && A.Room(page, rows[r], targets[r], A.Code(rows[r])).Some?
    ensures A.FreeRow(A.Items(page, rows, targets, fits, |rows|), r)
  {
    hide A.Items, A.Room;
    var j := HasItem(page, rows, targets, fits, |rows|, r);
  }

  /** What lining rows up together does to one: it takes what fits, and its comment if that has room. */
  lemma {:induction false} RowKeeps(page: A.Page, rows: seq<seq<CellMark>>, targets: seq<seq<nat>>, fits: seq<nat>, columns: seq<seq<nat>>,
                                    rowPads: seq<seq<nat>>, kept: seq<nat>, runs: seq<A.Run>, r: nat)
    requires (forall r :: 0 <= r < |rows| ==> rows[r] != []) && A.Together(page, rows, targets, fits, columns, rowPads, kept, runs)
    requires |rowPads| == |kept| == |rows| && r < |rows|
    ensures |targets| == |fits| == |rows| && |targets[r]| == |rowPads[r]| == |rows[r]|
    ensures fits[r] == A.Fitting(page, rows[r], targets[r], A.Code(rows[r])) <= kept[r]
    ensures kept[r] == fits[r] || kept[r] == A.Code(rows[r]) + 1
    ensures forall i :: 0 <= i < fits[r] ==> rowPads[r][i] == targets[r][i]
    ensures A.Code(rows[r]) < |rows[r]| && fits[r] == A.Code(rows[r]) && A.Room(page, rows[r], targets[r], A.Code(rows[r])).Some?
      ==> kept[r] == A.Code(rows[r]) + 1
  {
    hide AllLinedUp, AreRows, A.Whole, A.InRuns, A.Lined, A.Room, A.Fitting, A.Code, A.Items, A.FreeRow;
    var items := A.Items(page, rows, targets, fits, |rows|);
    if A.Code(rows[r]) < |rows[r]| && fits[r] == A.Code(rows[r]) && A.Room(page, rows[r], targets[r], A.Code(rows[r])).Some? {
      FreeIfRoom(page, rows, targets, fits, r);
    }
    if A.FreeRow(items, r) {
      var g, j := A.RunOfRow(rows, targets, fits, rowPads, kept, items, runs, r);
      A.ItemMeans(page, rows, targets, fits, j);
    }
  }

  /**
   * In aligned text a row takes at least the padding of any number of its cells that leave
   * its code within the width, however long its comment is.
   */
  lemma {:induction false} TakesWhatFits(a: Aligned, u: Lineup, r: nat, cells: nat)
    requires IsAligned(a) && Lined(a, u) && r < u.to - u.from
    requires cells <= A.Code(LinedRows(a, u)[r]) && CodeInside(Page(a), LinedRows(a, u)[r], u.targets[r], cells)
    ensures var done := a.tables[u.t];
      && |done.rows| == |done.rowPads| == |done.kept| && u.to <= |done.rows|
      && |done.rowPads[u.from + r]| == |u.targets[r]| && cells <= done.kept[u.from + r] && cells <= |u.targets[r]|
      && forall i :: 0 <= i < cells ==> done.rowPads[u.from + r][i] == u.targets[r][i]
  {
    hide IsAligned, A.Fitting, CodeInside, A.Code, A.Room, A.Together, Stood;
    RowStood(a, u, r);
    RowIs(a, u, r);
    var done := a.tables[u.t];
    RowKeeps(Page(a), LinedRows(a, u), u.targets, u.fits, u.columns, done.rowPads[u.from..u.to], done.kept[u.from..u.to], u.runs, r);
    FittingIsMost(Page(a), LinedRows(a, u)[r], u.targets[r]);
    assert done.rowPads[u.from..u.to][r] == done.rowPads[u.from + r] && done.kept[u.from..u.to][r] == done.kept[u.from + r];
  }

  /** And where all its cells before the comment leave it there and the comment's lines are too, the comment is in a run. */
  lemma {:induction false} TakesItsComment(a: Aligned, u: Lineup, r: nat)
    requires IsAligned(a) && Lined(a, u) && r < u.to - u.from && A.Code(LinedRows(a, u)[r]) < |LinedRows(a, u)[r]|
    requires CodeInside(Page(a), LinedRows(a, u)[r], u.targets[r], A.Code(LinedRows(a, u)[r]))
    requires CommentInside(Page(a), LinedRows(a, u)[r], u.targets[r], 0)
    ensures var done := a.tables[u.t];
      |done.rows| == |done.kept| && u.to <= |done.rows| && done.kept[u.from + r] == A.Code(LinedRows(a, u)[r]) + 1
  {
    hide IsAligned, A.Fitting, CodeInside, CommentInside, A.Code, A.Room, A.Together, Stood;
    RowStood(a, u, r);
    RowIs(a, u, r);
    var done := a.tables[u.t];
    RowKeeps(Page(a), LinedRows(a, u), u.targets, u.fits, u.columns, done.rowPads[u.from..u.to], done.kept[u.from..u.to], u.runs, r);
    FittingIsMost(Page(a), LinedRows(a, u)[r], u.targets[r]);
    RoomExactly(Page(a), LinedRows(a, u)[r], u.targets[r], 0);
    assert done.kept[u.from..u.to][r] == done.kept[u.from + r];
  }
}
