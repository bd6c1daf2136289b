/**
 * How far lines reach once aligned: the lines of a padded row stay within the width but for
 * what carries the row itself, and a line placed by text on an earlier one moves with it.
 */
module AlignedWidth {
  import opened Layout
  import opened Columns
  import opened LayoutSpacing
  import opened LayoutColumns
  import opened LayoutMarks
  import opened LineSpaces
  import opened AlignedText
  import A = Alignment
  import P = Padding
  import T = Tables

  // ----- lines

  /** A line has no line end before its width. */
  lemma {:induction false} OnTheLine(out: string, offset: nat, k: nat)
    requires offset <= k < offset + A.LineWidth(out, offset)
    ensures k < |out| && !IsNewline(out[k]) && ColumnAt(out, k) == ColumnAt(out, offset) + k - offset
    ensures LineAt(out, k) == LineAt(out, offset)
    decreases k - offset
  {
    if offset < k {
      OnTheLine(out, offset + 1, k);
    }
  }

  lemma {:induction false} UpToItsEnd(out: string, offset: nat, k: nat)
    requires offset <= k < |out| && forall m :: offset <= m <= k ==> !IsNewline(out[m])
    ensures k < offset + A.LineWidth(out, offset)
    decreases k - offset
  {
    if offset < k {
      UpToItsEnd(out, offset + 1, k);
    }
  }

  /** A place on a line is before the end of the line, as far along as it is from any other. */
  lemma {:induction false} AlongLine(out: string, offset: nat, k: nat)
    requires WholeEnds(out) && offset < |out| && !IsNewline(out[offset]) && k < |out| && !IsNewline(out[k])
    requires LineAt(out, k) == LineAt(out, offset)
    ensures ColumnAt(out, k) - ColumnAt(out, offset) == k - offset && k < offset + A.LineWidth(out, offset)
  {
    ColumnWithin(out, k);
    ColumnWithin(out, offset);
    SameStart(out, k, offset);
    if offset <= k {
      forall m | offset <= m <= k ensures !IsNewline(out[m]) {
        if m < k {
          NoEndBetween(out, k, m);
        }
      }
      UpToItsEnd(out, offset, k);
    }
  }

  /** Among the cells from `cells` on none ends at `offset` or before. */
  lemma {:induction false} UptoMost(row: seq<CellMark>, rowPads: seq<nat>, kept: nat, offset: nat, cells: nat)
    requires cells <= kept <= |row| == |rowPads|
    requires forall i :: cells <= i < kept ==> offset < row[i].offset
    ensures P.Upto(A.CellPads(row, rowPads, kept), offset) <= Sum(rowPads[..cells])
    decreases |row|
  {
    var pads := A.CellPads(row, rowPads, kept);
    if cells == 0 {
      P.NoneUpto(pads, offset);
    } else {
      assert pads[1..] == A.CellPads(row[1..], rowPads[1..], kept - 1);
      UptoMost(row[1..], rowPads[1..], kept - 1, offset, cells - 1);
      assert rowPads[..cells] == [rowPads[0]] + rowPads[1..][..cells - 1];
      SumFirst(rowPads[0], rowPads[1..][..cells - 1]);
    }
  }

  // ----- the row's own line

  /** The row `r` of the table `t`, which is the only one on its line. */
  ghost predicate IsOnly(a: Aligned, t: nat, r: nat) {
    && IsAligned(a) && t < |a.tables| && r < |a.tables[t].rows| && a.tables[t].rows[r] != [] && Single(a, a.tables[t].rows[r])
    && |a.tables[t].rowPads| == |a.tables[t].kept| == |a.tables[t].rows|
    && |a.tables[t].rowPads[r]| == |a.tables[t].rows[r]| && a.tables[t].kept[r] <= |a.tables[t].rows[r]|
  }

  predicate OnRow(a: Aligned, row: seq<CellMark>, k: nat)
    requires row != []
  {
    k < |a.out| && !IsNewline(a.out[k]) && LineAt(a.out, k) == row[0].line
  }

  lemma RowMeans(a: Aligned, t: nat, r: nat)
    requires IsOnly(a, t, r)
    ensures WholeEnds(a.out) && InPlace(a.out, a.tables[t].rows[r]) && AllShaped(a.tables)
    ensures A.RowWithin(Page(a), a.tables[t].rows[r], a.tables[t].rowPads[r], a.tables[t].kept[r])
  {
    hide *;
    RowAligned(a, t, r);
    AlignedMeans(a);
    RowsIn(a);
    RowPlaced(a, t, r);
    WithinIs(Page(a), a.tables, t, r);
  }

  lemma RowAligned(a: Aligned, t: nat, r: nat)
    requires IsOnly(a, t, r)
    ensures IsAligned(a) && t < |a.tables| && r < |a.tables[t].rows| && a.tables[t].rows[r] != [] && Single(a, a.tables[t].rows[r])
  {
    hide IsAligned, Single;
  }

  lemma WithinIs(page: A.Page, tables: seq<T.Done>, t: nat, r: nat)
    requires T.AreTables(page, tables) && t < |tables| && r < |tables[t].rows|
    ensures |tables[t].rowPads| == |tables[t].kept| == |tables[t].rows|
    ensures A.RowWithin(page, tables[t].rows[r], tables[t].rowPads[r], tables[t].kept[r])
  {
    hide A.Group, A.RowWithin, A.Inserts, T.Chunked, T.OtherTable;
    assert T.IsTable(page, tables[t]);
  }

  /** On a row's line a character moves no farther than all the row's padding, and after its last padded cell just as far. */
  lemma {:induction false} RowMoves(a: Aligned, t: nat, r: nat, k: nat, cells: nat) returns (moved: nat)
    requires IsOnly(a, t, r) && OnRow(a, a.tables[t].rows[r], k) && cells <= a.tables[t].kept[r]
    requires forall i :: cells <= i < a.tables[t].kept[r] ==> k < a.tables[t].rows[r][i].offset
    ensures AllShaped(a.tables)
    ensures var row, own := a.tables[t].rows[r], a.tables[t].rowPads[r];
      && GoesWith(a, k, ColumnAt(a.out, k) + moved) && moved <= Sum(own[..cells])
      && ((forall i :: 0 <= i < cells ==> row[i].offset <= k) ==> moved == Sum(own[..cells]))
  {
    hide IsAligned, Single, GoesTo, CarryAt, Sum, P.Upto, A.CellPads;
    var row, own, kept := a.tables[t].rows[r], a.tables[t].rowPads[r], a.tables[t].kept[r];
    RowShape(a, t, r);
    MovesOnRow(a, t, r, k);
    UptoMost(row, own, kept, k, cells);
    if forall i :: 0 <= i < cells ==> row[i].offset <= k {
      UptoCell(row, own, kept, k, cells);
    }
    moved := P.Upto(A.CellPads(row, own, kept), k);
  }

  /** The line of a row ends as far along as its padding and what carries it take it. */
  function EndOf(a: Aligned, t: nat, r: nat): nat
    requires t < |a.tables| && r < |a.tables[t].rows| && a.tables[t].rows[r] != []
    requires |a.tables[t].rowPads| == |a.tables[t].kept| == |a.tables[t].rows| && a.tables[t].kept[r] <= |a.tables[t].rowPads[r]|
  {
    var row := a.tables[t].rows[r];
    row[0].column + A.LineWidth(a.out, row[0].offset) + Sum(a.tables[t].rowPads[r][..a.tables[t].kept[r]])
  }

  /** The character at `k` is within the width in the output. */
  ghost predicate Within(a: Aligned, k: nat) {
    exists column: nat :: GoesTo(a, k, column) && column < a.width
  }

  /** The whole line of a row is within the width exactly when its padding and what carries it leave it there. */
  lemma {:induction false} LineWithinExactly(a: Aligned, t: nat, r: nat)
    requires IsOnly(a, t, r) && AllShaped(a.tables) && a.tables[t].rows[r][0].offset <= |a.out|
    ensures (forall k: nat :: OnRow(a, a.tables[t].rows[r], k) ==> Within(a, k)) <==>
      EndOf(a, t, r) + CarryAt(a, a.tables[t].rows[r][0].offset) <= a.width
  {
    hide IsAligned, Single, GoesTo, CarryAt, A.RowWithin, Sum, InPlace, EndOf, OnRow;
    var row := a.tables[t].rows[r];
    forall k: nat | OnRow(a, row, k) && EndOf(a, t, r) + CarryAt(a, row[0].offset) <= a.width ensures Within(a, k) {
      var column := LineReaches(a, t, r, k);
    }
    var last := LastReaches(a, t, r);
    if Within(a, last) {
      var column: nat :| GoesTo(a, last, column) && column < a.width;
      OneColumn(a, last, column, EndOf(a, t, r) + CarryAt(a, row[0].offset) - 1);
    }
  }

  lemma OneColumn(a: Aligned, k: nat, c: int, d: int)
    requires GoesTo(a, k, c) && GoesTo(a, k, d)
    ensures c == d
  {
  }

  lemma SameCarry(a: Aligned, t: nat, r: nat, k: nat)
    requires IsOnly(a, t, r) && OnRow(a, a.tables[t].rows[r], k)
    ensures AllShaped(a.tables) && a.tables[t].rows[r][0].offset < |a.out|
    ensures CarryAt(a, k) == CarryAt(a, a.tables[t].rows[r][0].offset)
    ensures ColumnAt(a.out, k) - a.tables[t].rows[r][0].column == k - a.tables[t].rows[r][0].offset
    ensures k < a.tables[t].rows[r][0].offset + A.LineWidth(a.out, a.tables[t].rows[r][0].offset)
    ensures forall i :: 0 <= i < |a.tables[t].rows[r]| ==>
      && OnRow(a, a.tables[t].rows[r], a.tables[t].rows[r][i].offset)
      && a.tables[t].rows[r][0].offset <= a.tables[t].rows[r][i].offset
  {
    hide IsAligned, Single, A.RowWithin, LineCarry, Page, AllLines, P.LineStart, A.LineWidth;
    RowMeans(a, t, r);
    var row := a.tables[t].rows[r];
    assert forall i :: 0 <= i < |row| ==> Stands(a.out, row[i].offset, row[i].column, row[0].line);
    SameStart(a.out, k, row[0].offset);
    AlongLine(a.out, row[0].offset, k);
  }

  lemma {:induction false} LineReaches(a: Aligned, t: nat, r: nat, k: nat) returns (column: nat)
    requires IsOnly(a, t, r) && AllShaped(a.tables) && OnRow(a, a.tables[t].rows[r], k) && a.tables[t].rows[r][0].offset <= |a.out|
    ensures GoesTo(a, k, column) && column < EndOf(a, t, r) + CarryAt(a, a.tables[t].rows[r][0].offset)
  {
    hide GoesTo, CarryAt, Sum, IsAligned, Single, ColumnAt, LineAt, A.LineWidth;
    var row, own, kept := a.tables[t].rows[r], a.tables[t].rowPads[r], a.tables[t].kept[r];
    SameCarry(a, t, r, k);
    var moved := RowMoves(a, t, r, k, kept);
    column := ColumnAt(a.out, k) + moved + CarryAt(a, k);
  }

  lemma {:induction false} LastReaches(a: Aligned, t: nat, r: nat) returns (k: nat)
    requires IsOnly(a, t, r) && AllShaped(a.tables) && a.tables[t].rows[r][0].offset <= |a.out|
    ensures OnRow(a, a.tables[t].rows[r], k)
    ensures GoesTo(a, k, EndOf(a, t, r) + CarryAt(a, a.tables[t].rows[r][0].offset) - 1)
  {
    hide GoesTo, CarryAt, Sum, IsAligned, Single, LineAt, A.RowWithin;
    var row, own, kept := a.tables[t].rows[r], a.tables[t].rowPads[r], a.tables[t].kept[r];
    RowMeans(a, t, r);
    var first := row[0].offset;
    assert Stands(a.out, first, row[0].column, row[0].line);
    assert A.LineWidth(a.out, first) > 0;
    k := first + A.LineWidth(a.out, first) - 1;
    hide A.LineWidth, ColumnAt;
    OnTheLine(a.out, first, k);
    SameCarry(a, t, r, k);
    forall i | 0 <= i < kept ensures row[i].offset <= k {
      SameCarry(a, t, r, row[i].offset);
    }
    var moved := RowMoves(a, t, r, k, kept);
  }

  // ----- what the width bounds

  predicate Sorted(offsets: seq<nat>) {
    forall i, j :: 0 <= i < j < |offsets| ==> offsets[i] <= offsets[j]
  }

  lemma {:induction false} OffsetsSorted(cells: seq<CellMark>)
    ensures Sorted(T.CommentOffsets(cells))
  {
    hide Sorted;
    if cells == [] {
      NoneSorted();
    } else {
      OffsetsSorted(cells[1..]);
      InsertSorted(cells[0].offset, T.CommentOffsets(cells[1..]));
    }
  }

  lemma NoneSorted()
    ensures Sorted([])
  {
  }

  lemma {:induction false} InsertSorted(offset: nat, offsets: seq<nat>)
    requires Sorted(offsets)
    ensures Sorted(T.InsertOffset(offset, offsets))
  {
    if offsets != [] && offset > offsets[0] {
      InsertSorted(offset, offsets[1..]);
      var rest := T.InsertOffset(offset, offsets[1..]);
      forall j | 0 <= j < |rest| ensures offsets[0] <= rest[j] {
        assert rest[j] in rest;
        if rest[j] != offset {
          assert rest[j] in offsets[1..];
        }
      }
      assert T.InsertOffset(offset, offsets) == [offsets[0]] + rest;
    }
  }

  lemma {:induction false} FirstOf(comments: seq<nat>, offset: nat, comment: nat)
    requires Sorted(comments) && comment in comments && comment >= offset
    ensures A.FirstFrom(comments, offset).Some? && A.FirstFrom(comments, offset).value <= comment
  {
    if comments[0] < offset {
      assert comment in comments[1..];
      FirstOf(comments[1..], offset, comment);
    }
  }

  /** The code of a row ends at its comment. */
  lemma {:induction false} CodeEnds(a: Aligned, t: nat, r: nat, offset: nat)
    requires IsOnly(a, t, r)
    ensures var row := a.tables[t].rows[r];
      A.Code(row) < |row| && offset <= row[A.Code(row)].offset ==> offset + A.CodeWidth(Page(a), offset) <= row[A.Code(row)].offset
  {
    hide *;
    RowAligned(a, t, r);
    var row := a.tables[t].rows[r];
    if A.Code(row) < |row| && offset <= row[A.Code(row)].offset {
      CellKept(a, t, r, A.Code(row));
      OffsetsSorted(T.Retained(a.out, a.cells));
      CommentIs(a, row);
      FirstOf(T.CommentOffsets(T.Retained(a.out, a.cells)), offset, row[A.Code(row)].offset);
      CodeUpTo(Page(a), offset, row[A.Code(row)].offset);
    }
  }

  lemma CellKept(a: Aligned, t: nat, r: nat, i: nat)
    requires IsAligned(a) && t < |a.tables| && r < |a.tables[t].rows| && i < |a.tables[t].rows[r]|
    ensures a.tables[t].rows[r][i] in T.Retained(a.out, a.cells)
  {
    hide IsAligned, AllLines, T.Retained, InPlace;
    RowShape(a, t, r);
    RowsIn(a);
    LineIs(a.tables, t, r);
    assert a.tables[t].rows[r][i] in AllLines(a.tables)[Index(a.tables, t, r)].row;
  }

  lemma CommentIs(a: Aligned, row: seq<CellMark>)
    requires A.Code(row) < |row| && row[A.Code(row)] in T.Retained(a.out, a.cells)
    ensures row[A.Code(row)].offset in T.CommentOffsets(T.Retained(a.out, a.cells))
    ensures Page(a).comments == T.CommentOffsets(T.Retained(a.out, a.cells))
  {
    hide T.Retained, T.CommentOffsets;
  }

  lemma CodeUpTo(page: A.Page, offset: nat, comment: nat)
    requires A.FirstFrom(page.comments, offset).Some? && A.FirstFrom(page.comments, offset).value <= comment
    ensures offset + A.CodeWidth(page, offset) <= comment
  {
  }

  /** Where a row's code is padded, each character of it on the row's line is within the width but for what carries the line. */
  lemma {:induction false} CodeStaysWithin(a: Aligned, t: nat, r: nat, k: nat) returns (column: nat)
    requires IsOnly(a, t, r) && OnRow(a, a.tables[t].rows[r], k) && a.tables[t].kept[r] > 0 && A.Code(a.tables[t].rows[r]) > 0
    requires k < a.tables[t].rows[r][0].offset + A.CodeWidth(Page(a), a.tables[t].rows[r][0].offset)
    ensures AllShaped(a.tables) && GoesWith(a, k, column) && column < a.width
  {
    hide GoesWith, Sum, IsAligned, Single, ColumnAt, LineAt, A.LineWidth, A.CodeWidth, A.Code, A.Later, A.Carried, A.CommentFits, InPlace;
    var row, own, kept := a.tables[t].rows[r], a.tables[t].rowPads[r], a.tables[t].kept[r];
    RowMeans(a, t, r);
    SameCarry(a, t, r, k);
    PageWidth(a);
    var cells := A.Min(kept, A.Code(row));
    assert A.CodeFits(Page(a), row, own, cells);
    CodeEnds(a, t, r, row[0].offset);
    var moved := RowMoves(a, t, r, k, cells);
    column := ColumnAt(a.out, k) + moved;
  }

  lemma PageWidth(a: Aligned)
    ensures Page(a).width == a.width && Page(a).out == a.out && Page(a).continuations == a.continuations
  {
  }

  /** Where its comment is padded, so is each character of the line. */
  lemma {:induction false} CommentStaysWithin(a: Aligned, t: nat, r: nat, k: nat) returns (column: nat)
    requires IsOnly(a, t, r) && OnRow(a, a.tables[t].rows[r], k) && a.tables[t].kept[r] > A.Code(a.tables[t].rows[r])
    ensures AllShaped(a.tables) && GoesWith(a, k, column) && column < a.width
  {
    hide GoesWith, Sum, IsAligned, Single, ColumnAt, LineAt, A.LineWidth, A.Code, A.Later, A.Carried, A.CodeFits, InPlace;
    var row, own, kept := a.tables[t].rows[r], a.tables[t].rowPads[r], a.tables[t].kept[r];
    RowMeans(a, t, r);
    SameCarry(a, t, r, k);
    PageWidth(a);
    assert A.CommentFits(Page(a), row, own, A.Code(row));
    var moved := RowMoves(a, t, r, k, kept);
    column := ColumnAt(a.out, k) + moved;
  }

  // ----- lines placed by text on earlier ones

  /** No cell with something after it ends on the line of `k`, at it or before. */
  ghost predicate BeforeCells(a: Aligned, k: nat)
    requires k <= |a.out|
  {
    forall c :: c in T.Retained(a.out, a.cells) && c.line == LineAt(a.out, k) ==> k < c.offset
  }

  lemma {:induction false} NoneYet(a: Aligned, lines: seq<Laid>, k: nat)
    requires AreLaid(lines) && Rows(a.out, a.cells, lines) && k < |a.out| && BeforeCells(a, k)
    ensures Own(lines, P.LineStart(a.out, k), k) == 0
  {
    hide Rows, LineAt, P.LineStart, P.Among, ColumnAt, T.Retained;
    forall j | 0 <= j < |lines|
      ensures P.Among(A.CellPads(lines[j].row, lines[j].pads, lines[j].kept), P.LineStart(a.out, k), k) == 0
    {
      if lines[j].row[0].line == LineAt(a.out, k) {
        var pads := A.CellPads(lines[j].row, lines[j].pads, lines[j].kept);
        forall x | 0 <= x < |pads| ensures pads[x].offset > k {
          RowKept(a, lines, j, x);
        }
        P.NoneAmong(pads, P.LineStart(a.out, k), k);
      } else {
        OtherLine(a.out, a.cells, lines, j, k);
      }
    }
    OwnOne(lines, |lines|, P.LineStart(a.out, k), k);
  }

  lemma {:induction false} RowKept(a: Aligned, lines: seq<Laid>, j: nat, x: nat)
    requires AreLaid(lines) && Rows(a.out, a.cells, lines) && j < |lines| && x < |lines[j].row|
    ensures lines[j].row[x] in T.Retained(a.out, a.cells) && lines[j].row[x].line == lines[j].row[0].line
  {
    hide T.Retained, LineAt, ColumnAt;
    assert lines[j].row[x] in lines[j].row && lines[j].row[0] in lines[j].row;
    InPlaceAt(a.out, a.cells, lines, j);
  }

  /** The start of a line placed by `it`. */
  predicate StartsAt(a: Aligned, it: Continuation, k: nat) {
    it in a.continuations && k < |a.out| && P.LineStart(a.out, k) == it.offset
  }

  /** A line placed moves as far as its continuation is carried by the row on the line it is placed by. */
  lemma {:induction false} LaterMoves(a: Aligned, t: nat, r: nat, it: Continuation, k: nat)
    requires IsOnly(a, t, r) && it.line == a.tables[t].rows[r][0].line && StartsAt(a, it, k) && BeforeCells(a, k)
    ensures GoesTo(a, k, ColumnAt(a.out, k) + A.Carried(a.tables[t].rows[r], a.tables[t].rowPads[r], a.tables[t].kept[r], it))
  {
    hide *;
    RowAligned(a, t, r);
    RowShape(a, t, r);
    OnlyIs(a, t, r);
    AlignedMeans(a);
    RowsIn(a);
    LineIs(a.tables, t, r);
    StartIs(a, it, k);
    SingleIs(a, a.tables[t].rows[r]);
    MovesBy(a, k);
    NoneYet(a, AllLines(a.tables), k);
    IsCarry(a, k);
    CarriedBy(a.out, a.cells, Page(a), AllLines(a.tables), it, Index(a.tables, t, r));
  }

  lemma OnlyIs(a: Aligned, t: nat, r: nat)
    requires IsOnly(a, t, r)
    ensures |a.tables[t].rowPads| == |a.tables[t].kept| == |a.tables[t].rows| && a.tables[t].kept[r] <= |a.tables[t].rows[r]|
    ensures |a.tables[t].rowPads[r]| == |a.tables[t].rows[r]|
  {
  }

  lemma StartIs(a: Aligned, it: Continuation, k: nat)
    requires StartsAt(a, it, k)
    ensures it in a.continuations && k < |a.out| && P.LineStart(a.out, k) == it.offset
  {
  }

  lemma {:induction false} MoveStops(row: seq<CellMark>, pads: seq<nat>, at: nat, offset: nat)
    requires at < |row| == |pads| && offset < row[at].offset
    ensures A.Move(row, pads, at + 1, offset) == A.Move(row, pads, at, offset)
  {
    if at > 0 {
      MoveStops(row[1..], pads[1..], at - 1, offset);
    }
  }

  /** Where a row's code is padded, so is each line placed by it, up to its first cell and its comment. */
  lemma {:induction false} LaterStaysWithin(a: Aligned, t: nat, r: nat, it: Continuation, k: nat) returns (column: nat)
    requires IsOnly(a, t, r) && it.line == a.tables[t].rows[r][0].line && StartsAt(a, it, k) && BeforeCells(a, k)
    requires A.ByCode(a.tables[t].rows[r], it) && a.tables[t].kept[r] > 0 && A.Code(a.tables[t].rows[r]) > 0
    requires k < it.offset + A.CodeWidth(Page(a), it.offset)
    ensures GoesTo(a, k, column) && column < a.width
  {
    hide GoesTo, Sum, IsAligned, Single, LineAt, A.CodeWidth, A.Code, A.Later, A.Move, A.CommentFits, BeforeCells;
    var row, own, kept := a.tables[t].rows[r], a.tables[t].rowPads[r], a.tables[t].kept[r];
    RowMeans(a, t, r);
    PageWidth(a);
    InLater(a, row, it);
    var cells := A.Min(kept, A.Code(row));
    assert A.CodeFits(Page(a), row, own, cells);
    if kept > A.Code(row) {
      MoveStops(row, own, A.Code(row), it.start);
    }
    LaterMoves(a, t, r, it, k);
    column := ColumnAt(a.out, k) + A.Carried(row, own, kept, it);
  }

  lemma InLater(a: Aligned, row: seq<CellMark>, it: Continuation)
    requires row != [] && it in a.continuations && it.line == row[0].line
    ensures it in A.Later(Page(a), row)
  {
    PageWidth(a);
  }

  /** Where its comment is padded, so is each line placed by the comment, up to its first cell. */
  lemma {:induction false} CommentsLaterWithin(a: Aligned, t: nat, r: nat, it: Continuation, k: nat) returns (column: nat)
    requires IsOnly(a, t, r) && it.line == a.tables[t].rows[r][0].line && StartsAt(a, it, k) && BeforeCells(a, k)
    requires a.tables[t].kept[r] > A.Code(a.tables[t].rows[r]) && !A.ByCode(a.tables[t].rows[r], it)
    requires k < it.offset + A.LineWidth(a.out, it.offset)
    ensures GoesTo(a, k, column) && column < a.width
  {
    hide GoesTo, Sum, IsAligned, Single, LineAt, A.LineWidth, A.Code, A.Later, A.Move, A.CodeFits, BeforeCells;
    var row, own, kept := a.tables[t].rows[r], a.tables[t].rowPads[r], a.tables[t].kept[r];
    RowMeans(a, t, r);
    PageWidth(a);
    InLater(a, row, it);
    assert A.CommentFits(Page(a), row, own, A.Code(row));
    LaterMoves(a, t, r, it, k);
    column := ColumnAt(a.out, k) + A.Carried(row, own, kept, it);
  }

  lemma {:induction false} MoveAsFar(row: seq<CellMark>, pads: seq<nat>, kept: nat, start: nat)
    requires |pads| == |row| && kept <= |row|
    requires forall i, j :: 0 <= i < j < |row| ==> row[i].offset <= row[j].offset
    ensures A.Move(row, pads, kept, start) == P.Upto(A.CellPads(row, pads, kept), start)
    decreases |row|
  {
    var cells := A.CellPads(row, pads, kept);
    if kept > 0 {
      assert cells[1..] == A.CellPads(row[1..], pads[1..], kept - 1);
      if row[0].offset <= start {
        MoveAsFar(row[1..], pads[1..], kept - 1, start);
      } else {
        assert forall i :: 0 <= i < kept ==> cells[i].offset >= row[0].offset;
        P.NoneUpto(cells, start);
      }
    }
  }

  /** A later line is carried as far as the spaces of its row, at or before the text it is placed by, move it, up to its limit. */
  lemma {:induction false} CarriedAsFar(row: seq<CellMark>, pads: seq<nat>, kept: nat, it: Continuation)
    requires |pads| == |row| && kept <= |row|
    requires forall i, j :: 0 <= i < j < |row| ==> row[i].offset <= row[j].offset
    ensures var moved := P.Upto(A.CellPads(row, pads, kept), it.start);
      && (it.limit.None? || moved <= it.limit.value ==> A.Carried(row, pads, kept, it) == moved)
      && (it.limit.Some? && it.limit.value < moved ==> A.Carried(row, pads, kept, it) == it.limit.value)
  {
    hide P.Upto, A.CellPads, A.Move;
    MoveAsFar(row, pads, kept, it.start);
  }

  /** The text a line is placed by, on the line it names. */
  ghost predicate Places(a: Aligned, it: Continuation) {
    && it in a.continuations && it.start < |a.out| && !IsNewline(a.out[it.start]) && LineAt(a.out, it.start) == it.line
    && OneTableOn(a.out, a.cells, it.line)
  }

  /**
   * In the output a line placed by text on an earlier one, up to its own first cell, has
   * moved as far as that text has, apart from what carries the line the text is on.
   */
  lemma {:induction false} MovesAlong(a: Aligned, it: Continuation, k: nat) returns (moved: nat)
    requires IsAligned(a) && Places(a, it) && it.limit.None? && StartsAt(a, it, k) && BeforeCells(a, k)
    ensures GoesWith(a, it.start, ColumnAt(a.out, it.start) + moved) && GoesTo(a, k, ColumnAt(a.out, k) + moved)
  {
    hide *;
    AlignedMeans(a);
    var lines := AllLines(a.tables);
    if i: nat :| HasRow(lines, i, it.line) {
      moved := AlongRow(a, it, k, i);
    } else {
      moved := 0;
      AlongNone(a, it, k);
    }
  }

  /** The row is on the line. */
  predicate HasRow(lines: seq<Laid>, i: nat, line: nat) {
    i < |lines| && IsLaid(lines[i]) && lines[i].row[0].line == line
  }

  lemma HasRowIs(lines: seq<Laid>, i: nat, line: nat)
    requires HasRow(lines, i, line)
    ensures i < |lines| && lines[i].row != [] && lines[i].row[0].line == line
  {
  }

  lemma NoneHave(lines: seq<Laid>, line: nat)
    requires AreLaid(lines) && forall i: nat :: !HasRow(lines, i, line)
    ensures forall i :: 0 <= i < |lines| ==> lines[i].row[0].line != line
  {
    forall i | 0 <= i < |lines| ensures lines[i].row[0].line != line {
      assert !HasRow(lines, i, line);
    }
  }

  lemma {:induction false} AlongRow(a: Aligned, it: Continuation, k: nat, i: nat) returns (moved: nat)
    requires IsAligned(a) && Places(a, it) && it.limit.None? && StartsAt(a, it, k) && BeforeCells(a, k)
    requires AllShaped(a.tables) && HasRow(AllLines(a.tables), i, it.line)
    ensures GoesWith(a, it.start, ColumnAt(a.out, it.start) + moved) && GoesTo(a, k, ColumnAt(a.out, k) + moved)
  {
    hide *;
    AlignedMeans(a);
    RowsIn(a);
    StartIs(a, it, k);
    PlacesIs(a, it);
    var lines := AllLines(a.tables);
    HasRowIs(lines, i, it.line);
    LaidIs(lines, i);
    MovesBy(a, it.start);
    OwnOnLine(a.out, a.cells, lines, i, it.start);
    MovesBy(a, k);
    NoneYet(a, lines, k);
    IsCarry(a, k);
    CarriedBy(a.out, a.cells, Page(a), lines, it, i);
    InPlaceAt(a.out, a.cells, lines, i);
    InOrderIs(a.out, lines[i].row);
    CarriedAsFar(lines[i].row, lines[i].pads, lines[i].kept, it);
    moved := P.Upto(A.CellPads(lines[i].row, lines[i].pads, lines[i].kept), it.start);
    Along(a, it.start, moved);
  }

  lemma Along(a: Aligned, k: nat, moved: nat)
    requires AllShaped(a.tables) && k < |a.out| && GoesTo(a, k, ColumnAt(a.out, k) + moved + CarryAt(a, k))
    ensures GoesWith(a, k, ColumnAt(a.out, k) + moved)
  {
  }

  lemma LaidIs(lines: seq<Laid>, i: nat)
    requires AreLaid(lines) && i < |lines|
    ensures |lines[i].pads| == |lines[i].row| && lines[i].kept <= |lines[i].row|
  {
  }

  lemma InOrderIs(out: string, row: seq<CellMark>)
    requires InPlace(out, row)
    ensures forall i, j :: 0 <= i < j < |row| ==> row[i].offset <= row[j].offset
  {
  }

  lemma PlacesIs(a: Aligned, it: Continuation)
    requires Places(a, it)
    ensures it in a.continuations && it.start < |a.out| && !IsNewline(a.out[it.start]) && LineAt(a.out, it.start) == it.line
    ensures OneTableOn(a.out, a.cells, it.line)
  {
  }

  /** Where nothing places the line that text is on, they move the same. */
  lemma {:induction false} MovesTogether(a: Aligned, it: Continuation, k: nat) returns (moved: nat)
    requires IsAligned(a) && Places(a, it) && it.limit.None? && StartsAt(a, it, k) && BeforeCells(a, k)
    requires Unplaced(a.out, a.continuations, it.line)
    ensures GoesTo(a, it.start, ColumnAt(a.out, it.start) + moved) && GoesTo(a, k, ColumnAt(a.out, k) + moved)
  {
    hide IsAligned, GoesTo, ColumnAt, LineAt, BeforeCells, P.LineStart, Unplaced, CarryAt, OneTableOn;
    moved := MovesAlong(a, it, k);
    NothingCarries(a, it.start);
  }

  lemma {:induction false} AlongNone(a: Aligned, it: Continuation, k: nat)
    requires IsAligned(a) && Places(a, it) && StartsAt(a, it, k) && BeforeCells(a, k)
    requires AllShaped(a.tables) && forall i: nat :: !HasRow(AllLines(a.tables), i, it.line)
    ensures GoesWith(a, it.start, ColumnAt(a.out, it.start)) && GoesTo(a, k, ColumnAt(a.out, k))
  {
    hide *;
    AlignedMeans(a);
    RowsIn(a);
    StartIs(a, it, k);
    PlacesIs(a, it);
    var lines := AllLines(a.tables);
    NoneHave(lines, it.line);
    MovesBy(a, it.start);
    NoneOnLine(a.out, a.cells, lines, it.start);
    MovesBy(a, k);
    NoneYet(a, lines, k);
    IsCarry(a, k);
    NoRowCarries(Page(a), lines, it);
    Along(a, it.start, 0);
  }

  lemma {:induction false} NoRowCarries(page: A.Page, lines: seq<Laid>, it: Continuation)
    requires AreLaid(lines) && NonePlacedTwice(page.continuations) && it in page.continuations
    requires forall i :: 0 <= i < |lines| ==> lines[i].row[0].line != it.line
    ensures LineCarry(page, lines, it.offset) == 0
  {
    hide P.Among, A.CarryPads;
    forall j | 0 <= j < |lines|
      ensures P.Among(A.CarryPads(page, lines[j].row, lines[j].pads, lines[j].kept), it.offset, it.offset) == 0
    {
      forall other | other in page.continuations && other.line == lines[j].row[0].line ensures other.offset != it.offset {
        if other.offset == it.offset {
          SamePlace(page.continuations, it, other);
        }
      }
      NoneFor(page, lines[j], it.offset);
    }
    CarryOne(page, lines, |lines|, it.offset, it.offset);
  }
}
