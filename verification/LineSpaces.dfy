/**
 * Which spaces aligning inserts on one line of the text: those of the row on it, and those
 * that carry it along with the text it is placed by.
 */
module LineSpaces {
  import opened Layout
  import opened Columns
  import opened LayoutSpacing
  import opened LayoutColumns
  import opened LayoutMarks
  import A = Alignment
  import P = Padding
  import T = Tables

  // ----- the rows of all tables

  /** A row as it was padded: the padding of each cell, and how many took theirs. */
  datatype Laid = Laid(row: seq<CellMark>, pads: seq<nat>, kept: nat)

  predicate IsLaid(line: Laid) {
    line.row != [] && |line.pads| == |line.row| && line.kept <= |line.row|
  }

  predicate AreLaid(lines: seq<Laid>) {
    forall i :: 0 <= i < |lines| ==> IsLaid(lines[i])
  }

  predicate Shaped(t: T.Done) {
    && Fit(t.rows, t.rowPads) && |t.kept| == |t.rows|
    && forall r :: 0 <= r < |t.rows| ==> t.rows[r] != [] && t.kept[r] <= |t.rows[r]|
  }

  predicate AllShaped(tables: seq<T.Done>) {
    forall t :: 0 <= t < |tables| ==> Shaped(tables[t])
  }

  function LinesOf(t: T.Done, count: nat): (lines: seq<Laid>)
    requires Shaped(t) && count <= |t.rows|
    ensures AreLaid(lines)
  {
    seq(count, r requires 0 <= r < count => Laid(t.rows[r], t.rowPads[r], t.kept[r]))
  }

  function AllLines(tables: seq<T.Done>): (lines: seq<Laid>)
    requires AllShaped(tables)
    ensures AreLaid(lines)
  {
    if tables == [] then []
    else
      var n := |tables| - 1;
      AllLines(tables[..n]) + LinesOf(tables[n], |tables[n].rows|)
  }

  function Cells(lines: seq<Laid>): seq<CellMark> {
    if lines == [] then [] else Cells(lines[..|lines| - 1]) + lines[|lines| - 1].row
  }

  function Spaces(page: A.Page, lines: seq<Laid>): seq<P.Pad>
    requires AreLaid(lines)
  {
    if lines == [] then []
    else
      var last := lines[|lines| - 1];
      Spaces(page, lines[..|lines| - 1]) + A.RowInserts(page, last.row, last.pads, last.kept)
  }

  lemma {:induction false} CellsAppend(a: seq<Laid>, b: seq<Laid>)
    ensures Cells(a + b) == Cells(a) + Cells(b)
    decreases |b|
  {
    if b == [] {
      assert a + b == a;
    } else {
      var n := |b| - 1;
      assert (a + b)[..|a| + n] == a + b[..n] && (a + b)[|a| + n] == b[n];
      CellsAppend(a, b[..n]);
      assert Cells(a) + (Cells(b[..n]) + b[n].row) == Cells(a) + Cells(b[..n]) + b[n].row;
    }
  }

  lemma {:induction false} SpacesAppend(page: A.Page, a: seq<Laid>, b: seq<Laid>)
    requires AreLaid(a) && AreLaid(b)
    ensures Spaces(page, a + b) == Spaces(page, a) + Spaces(page, b)
    decreases |b|
  {
    hide A.RowInserts;
    if b == [] {
      assert a + b == a;
    } else {
      var n := |b| - 1;
      assert (a + b)[..|a| + n] == a + b[..n] && (a + b)[|a| + n] == b[n];
      SpacesAppend(page, a, b[..n]);
      var last := A.RowInserts(page, b[n].row, b[n].pads, b[n].kept);
      assert Spaces(page, a) + (Spaces(page, b[..n]) + last) == Spaces(page, a) + Spaces(page, b[..n]) + last;
    }
  }

  lemma {:induction false} OneTable(page: A.Page, t: T.Done, count: nat)
    requires Shaped(t) && count <= |t.rows|
    ensures A.Inserts(page, t.rows, t.rowPads, t.kept, count) == Spaces(page, LinesOf(t, count))
    ensures T.Joined(t.rows[..count]) == Cells(LinesOf(t, count))
  {
    hide A.RowInserts;
    if count > 0 {
      OneTable(page, t, count - 1);
      assert LinesOf(t, count)[..count - 1] == LinesOf(t, count - 1);
      assert t.rows[..count][..count - 1] == t.rows[..count - 1];
    }
  }

  lemma {:induction false} Shapes(page: A.Page, tables: seq<T.Done>)
    requires T.AreTables(page, tables)
    ensures AllShaped(tables)
  {
    hide A.Tabled, T.Chunked;
    forall t | 0 <= t < |tables| ensures Shaped(tables[t]) {
      assert T.IsTable(page, tables[t]);
      T.TableInserts(page, tables[t]);
    }
  }

  lemma {:induction false} AllAre(page: A.Page, tables: seq<T.Done>)
    requires T.AreTables(page, tables) && AllShaped(tables)
    ensures T.AllInserts(tables) == Spaces(page, AllLines(tables)) && T.AllCells(tables) == Cells(AllLines(tables))
    decreases |tables|
  {
    hide A.Tabled, T.Chunked, A.RowInserts, A.Inserts, T.OtherTable;
    if tables != [] {
      var n := |tables| - 1;
      var t := tables[n];
      AllAre(page, tables[..n]);
      assert T.IsTable(page, t);
      T.TableInserts(page, t);
      OneTable(page, t, |t.rows|);
      assert t.rows[..|t.rows|] == t.rows;
      CellsAppend(AllLines(tables[..n]), LinesOf(t, |t.rows|));
      SpacesAppend(page, AllLines(tables[..n]), LinesOf(t, |t.rows|));
    }
  }

  // ----- whose spaces they are

  /** The spaces of cells at the places from `from` to `to`. */
  function Own(lines: seq<Laid>, from: nat, to: nat): nat
    requires AreLaid(lines)
  {
    if lines == [] then 0
    else
      var last := lines[|lines| - 1];
      Own(lines[..|lines| - 1], from, to) + P.Among(A.CellPads(last.row, last.pads, last.kept), from, to)
  }

  /** The spaces there that carry lines along. */
  function Carry(page: A.Page, lines: seq<Laid>, from: nat, to: nat): nat
    requires AreLaid(lines)
  {
    if lines == [] then 0
    else
      var last := lines[|lines| - 1];
      Carry(page, lines[..|lines| - 1], from, to) + P.Among(A.CarryPads(page, last.row, last.pads, last.kept), from, to)
  }

  lemma {:induction false} OwnOrCarry(page: A.Page, lines: seq<Laid>, from: nat, to: nat)
    requires AreLaid(lines)
    ensures P.Among(Spaces(page, lines), from, to) == Own(lines, from, to) + Carry(page, lines, from, to)
    decreases |lines|
  {
    hide A.CarryPads, A.CellPads, P.Among;
    if lines == [] {
      P.NoneAmong([], from, to);
    } else {
      var n := |lines| - 1;
      var last := lines[n];
      var carry, own := A.CarryPads(page, last.row, last.pads, last.kept), A.CellPads(last.row, last.pads, last.kept);
      OwnOrCarry(page, lines[..n], from, to);
      P.AmongAppend(carry, own, from, to);
      P.AmongAppend(Spaces(page, lines[..n]), carry + own, from, to);
    }
  }

  lemma {:induction false} OwnOne(lines: seq<Laid>, i: nat, from: nat, to: nat)
    requires AreLaid(lines)
    requires forall j :: 0 <= j < |lines| && j != i ==> P.Among(A.CellPads(lines[j].row, lines[j].pads, lines[j].kept), from, to) == 0
    ensures Own(lines, from, to) ==
      if i < |lines| then P.Among(A.CellPads(lines[i].row, lines[i].pads, lines[i].kept), from, to) else 0
    decreases |lines|
  {
    hide A.CellPads, P.Among;
    if lines != [] {
      var n := |lines| - 1;
      assert forall j :: 0 <= j < n ==> lines[..n][j] == lines[j];
      OwnOne(lines[..n], i, from, to);
    }
  }

  lemma {:induction false} CarryOne(page: A.Page, lines: seq<Laid>, i: nat, from: nat, to: nat)
    requires AreLaid(lines)
    requires forall j :: 0 <= j < |lines| && j != i ==>
      P.Among(A.CarryPads(page, lines[j].row, lines[j].pads, lines[j].kept), from, to) == 0
    ensures Carry(page, lines, from, to) ==
      if i < |lines| then P.Among(A.CarryPads(page, lines[i].row, lines[i].pads, lines[i].kept), from, to) else 0
    decreases |lines|
  {
    hide A.CarryPads, P.Among;
    if lines != [] {
      var n := |lines| - 1;
      assert forall j :: 0 <= j < n ==> lines[..n][j] == lines[j];
      CarryOne(page, lines[..n], i, from, to);
    }
  }

  // ----- which row is on a line

  /** What the printer makes sure of: cells and lines placed are where they say, in the order printed. */
  ghost predicate Noted(out: string, cells: seq<CellMark>, continuations: seq<Continuation>) {
    && WholeEnds(out) && InOrder(cells) && NonePlacedTwice(continuations)
    && (forall c :: c in cells ==> c.offset < |out| && Stands(out, c.offset, c.column, c.line))
    && (forall it :: it in continuations ==> it.offset < |out| && ColumnAt(out, it.offset) == 0)
  }

  /** The cells of `row` are where they say, in order, with something after each on their line. */
  ghost predicate InPlace(out: string, row: seq<CellMark>) {
    && row != []
    && (forall i :: 0 <= i < |row| ==>
          && row[i].offset < |out| && !IsNewline(out[row[i].offset])
          && row[i].line == row[0].line && Stands(out, row[i].offset, row[i].column, row[i].line))
    && (forall i, j :: 0 <= i < j < |row| ==> row[i].offset <= row[j].offset)
  }

  /** Each table's cells in the order printed. */
  ghost predicate TablesInOrder(cells: seq<CellMark>) {
    forall i, j :: 0 <= i < j < |cells| && T.SameTable(cells[i], cells[j]) ==> cells[i].offset <= cells[j].offset
  }

  lemma {:induction false} RetainedInOrder(out: string, cells: seq<CellMark>)
    requires InOrder(cells)
    ensures InOrder(T.Retained(out, cells))
  {
    if cells != [] {
      RetainedInOrder(out, cells[1..]);
      var rest := T.Retained(out, cells[1..]);
      forall c | c in rest ensures cells[0].offset <= c.offset {
        assert c in cells[1..];
      }
      assert forall j :: 0 <= j < |rest| ==> rest[j] in rest;
    }
  }

  lemma {:induction false} InsertInOrder(cell: CellMark, cells: seq<CellMark>)
    requires T.ByTable(cells) && TablesInOrder(cells) && forall c :: c in cells ==> cell.offset <= c.offset
    ensures TablesInOrder(T.InsertCell(cell, cells))
    decreases |cells|
  {
    var r := T.InsertCell(cell, cells);
    if cells == [] || T.AtOrBefore(cell, cells[0]) {
      assert forall j :: 0 < j < |r| ==> r[j] == cells[j - 1] && r[j] in cells;
    } else {
      var rest := T.InsertCell(cell, cells[1..]);
      InsertInOrder(cell, cells[1..]);
      assert r == [cells[0]] + rest;
      forall j | 0 < j < |r| && T.SameTable(cells[0], r[j]) ensures cells[0].offset <= r[j].offset {
        assert r[j] in rest && r[j] != cell;
        assert r[j] in cells[1..];
        var k :| 0 <= k < |cells[1..]| && cells[1..][k] == r[j];
        assert cells[k + 1] == r[j];
      }
    }
  }

  lemma {:induction false} SortInOrder(cells: seq<CellMark>)
    requires InOrder(cells)
    ensures TablesInOrder(T.SortCells(cells))
  {
    if cells != [] {
      assert forall i :: 0 <= i < |cells[1..]| ==> cells[1..][i] == cells[i + 1];
      SortInOrder(cells[1..]);
      InsertInOrder(cells[0], T.SortCells(cells[1..]));
    }
  }

  /** A row's cells are next to each other among all of them, after those of the rows before. */
  lemma {:induction false} RowAt(lines: seq<Laid>, i: nat)
    requires i < |lines|
    ensures var base, row := |Cells(lines[..i])|, lines[i].row;
      base + |row| <= |Cells(lines)| && Cells(lines)[base..base + |row|] == row && Cells(lines)[..base] == Cells(lines[..i])
    decreases |lines|
  {
    var n := |lines| - 1;
    if i < n {
      RowAt(lines[..n], i);
      assert lines[..n][..i] == lines[..i];
    }
  }

  lemma {:induction false} RowBefore(lines: seq<Laid>, i: nat, j: nat)
    requires i < j < |lines|
    ensures |Cells(lines[..i])| + |lines[i].row| <= |Cells(lines[..j])|
  {
    RowAt(lines[..j], i);
    assert lines[..j][..i] == lines[..i];
  }

  /** A row's cells are of one table and on one line. */
  predicate Alike(row: seq<CellMark>) {
    forall i :: 0 <= i < |row| ==> T.SameTable(row[i], row[0]) && row[i].line == row[0].line
  }

  predicate Changes(a: Laid, b: Laid)
    requires a.row != [] && b.row != []
  {
    !T.SameTable(a.row[0], b.row[0]) || a.row[0].line != b.row[0].line
  }

  /** Rows of cells alike, each of another table or line than the one before. */
  ghost predicate AreRowsOf(lines: seq<Laid>)
    requires AreLaid(lines)
  {
    && (forall i :: 0 <= i < |lines| ==> Alike(lines[i].row))
    && (forall i, j :: 0 <= i < j < |lines| && j == i + 1 ==> Changes(lines[i], lines[j]))
  }

  lemma {:induction false} TableRows(page: A.Page, t: T.Done)
    requires T.IsTable(page, t) && Shaped(t)
    ensures AreRowsOf(LinesOf(t, |t.rows|))
    ensures forall r :: 0 <= r < |t.rows| ==> t.rows[r][0] in T.Joined(t.rows)
  {
    hide A.Tabled, T.Joined;
    forall r | 0 <= r < |t.rows| ensures Alike(t.rows[r]) && t.rows[r][0] in T.Joined(t.rows) {
      InJoined(t.rows, r);
      assert forall i :: 0 <= i < |t.rows[r]| ==> t.rows[r][i] in t.rows[r];
    }
  }

  lemma {:induction false} InJoined(rows: seq<seq<CellMark>>, r: nat)
    requires r < |rows|
    ensures forall c :: c in rows[r] ==> c in T.Joined(rows)
    decreases |rows|
  {
    if r < |rows| - 1 {
      InJoined(rows[..|rows| - 1], r);
    }
  }

  lemma {:induction false} AllRows(page: A.Page, tables: seq<T.Done>)
    requires T.AreTables(page, tables) && AllShaped(tables)
    ensures AreRowsOf(AllLines(tables))
    ensures tables != [] ==> AllLines(tables) != []
    ensures tables != [] ==>
      var last := AllLines(tables)[|AllLines(tables)| - 1]; IsLaid(last) && last.row[0] in T.Joined(tables[|tables| - 1].rows)
    decreases |tables|
  {
    hide T.IsTable, T.Joined, Alike, T.SameTable;
    if tables != [] {
      var n := |tables| - 1;
      var t := tables[n];
      AllRows(page, tables[..n]);
      TableRows(page, t);
      SomeRow(page, t);
      var before, more := AllLines(tables[..n]), LinesOf(t, |t.rows|);
      var all := before + more;
      assert all == AllLines(tables);
      if n > 0 {
        assert T.OtherTable(tables[n - 1], t);
        assert tables[..n][n - 1] == tables[n - 1];
        assert !T.SameTable(before[|before| - 1].row[0], more[0].row[0]);
      }
      forall i, j | 0 <= i < j < |all| && j == i + 1 ensures Changes(all[i], all[j]) {
        if j < |before| {
          assert Changes(before[i], before[j]);
        } else if i >= |before| {
          assert Changes(more[i - |before|], more[j - |before|]);
        }
      }
    }
  }

  lemma SomeRow(page: A.Page, t: T.Done)
    requires T.IsTable(page, t)
    ensures t.rows != []
  {
  }

  /** In the order of the tables, and in a table of the lines. */
  predicate Before(a: CellMark, b: CellMark) {
    T.AtOrBefore(a, b) && (T.SameTable(a, b) ==> a.line < b.line)
  }

  lemma {:induction false} NextBefore(out: string, lines: seq<Laid>, i: nat, j: nat)
    requires AreLaid(lines) && AreRowsOf(lines) && i < j < |lines| && j == i + 1
    requires T.ByTable(Cells(lines)) && TablesInOrder(Cells(lines))
    requires forall c :: c in Cells(lines) ==> Stands(out, c.offset, c.column, c.line)
    ensures Before(lines[i].row[0], lines[j].row[0])
  {
    hide Cells, Alike;
    RowAt(lines, i);
    RowAt(lines, j);
    RowBefore(lines, i, j);
    var p, q := |Cells(lines[..i])|, |Cells(lines[..j])|;
    var a, b := lines[i].row[0], lines[j].row[0];
    assert Cells(lines)[p] == Cells(lines)[p..p + |lines[i].row|][0] == a;
    assert Cells(lines)[q] == Cells(lines)[q..q + |lines[j].row|][0] == b;
    assert Changes(lines[i], lines[j]);
    assert Stands(out, a.offset, a.column, a.line) && Stands(out, b.offset, b.column, b.line);
    if T.SameTable(a, b) {
      LineGrows(out, a.offset, b.offset);
    }
  }

  lemma {:induction false} AllBefore(out: string, lines: seq<Laid>, i: nat, j: nat)
    requires AreLaid(lines) && AreRowsOf(lines) && i < j < |lines|
    requires T.ByTable(Cells(lines)) && TablesInOrder(Cells(lines))
    requires forall c :: c in Cells(lines) ==> Stands(out, c.offset, c.column, c.line)
    ensures Before(lines[i].row[0], lines[j].row[0])
    decreases j
  {
    hide Cells, AreRowsOf, Stands, T.ByTable, TablesInOrder;
    NextBefore(out, lines, j - 1, j);
    if i < j - 1 {
      AllBefore(out, lines, i, j - 1);
    }
  }

  lemma {:induction false} RowInPlace(out: string, lines: seq<Laid>, i: nat)
    requires AreLaid(lines) && i < |lines| && Alike(lines[i].row) && TablesInOrder(Cells(lines))
    requires forall c :: c in Cells(lines) ==> c.offset < |out| && !IsNewline(out[c.offset]) && Stands(out, c.offset, c.column, c.line)
    ensures InPlace(out, lines[i].row)
  {
    hide Cells, Stands;
    RowAt(lines, i);
    var base, row := |Cells(lines[..i])|, lines[i].row;
    assert forall x :: 0 <= x < |row| ==>
      row[x] == Cells(lines)[base..base + |row|][x] == Cells(lines)[base + x] && row[x] in Cells(lines);
    forall x, y | 0 <= x < y < |row| ensures row[x].offset <= row[y].offset {
      assert T.SameTable(row[x], row[0]) && T.SameTable(row[y], row[0]);
      assert T.SameTable(Cells(lines)[base + x], Cells(lines)[base + y]);
    }
  }

  /** The rows aligned: each in place, and of two on one line the cells are of different tables. */
  ghost predicate Rows(out: string, cells: seq<CellMark>, lines: seq<Laid>)
    requires AreLaid(lines)
  {
    && (forall i :: 0 <= i < |lines| ==> InPlace(out, lines[i].row))
    && (forall i, c :: 0 <= i < |lines| && c in lines[i].row ==> c in T.Retained(out, cells))
    && (forall i, j :: 0 <= i < j < |lines| ==>
          lines[i].row[0].line != lines[j].row[0].line || !T.SameTable(lines[i].row[0], lines[j].row[0]))
  }

  lemma {:induction false} RowsOf(out: string, cells: seq<CellMark>, continuations: seq<Continuation>, page: A.Page, tables: seq<T.Done>)
    requires Noted(out, cells, continuations) && T.AreTables(page, tables) && AllShaped(tables)
    requires T.AllCells(tables) == T.SortCells(T.Retained(out, cells))
    ensures Rows(out, cells, AllLines(tables))
  {
    hide T.AreTables, Cells, AllLines, T.AllCells, T.Retained, T.SortCells, Alike, Stands, InPlace;
    var lines := AllLines(tables);
    AllAre(page, tables);
    AllRows(page, tables);
    RetainedInOrder(out, cells);
    SortInOrder(T.Retained(out, cells));
    forall i | 0 <= i < |lines| ensures InPlace(out, lines[i].row) {
      RowInPlace(out, lines, i);
    }
    forall i, c | 0 <= i < |lines| && c in lines[i].row ensures c in T.Retained(out, cells) {
      RowAt(lines, i);
      var x :| 0 <= x < |lines[i].row| && lines[i].row[x] == c;
      assert Cells(lines)[|Cells(lines[..i])| + x] == c;
    }
    forall i, j | 0 <= i < j < |lines|
      ensures lines[i].row[0].line != lines[j].row[0].line || !T.SameTable(lines[i].row[0], lines[j].row[0])
    {
      AllBefore(out, lines, i, j);
    }
  }

  // ----- the spaces on one line

  /** The cells on the line that have something after them are of one table. */
  ghost predicate OneTableOn(out: string, cells: seq<CellMark>, line: nat) {
    forall a, b :: a in T.Retained(out, cells) && b in T.Retained(out, cells) && a.line == b.line == line ==> T.SameTable(a, b)
  }

  lemma OnlyRow(out: string, cells: seq<CellMark>, lines: seq<Laid>, i: nat, j: nat)
    requires AreLaid(lines) && Rows(out, cells, lines) && i < |lines| && j < |lines|
    requires lines[i].row[0].line == lines[j].row[0].line && OneTableOn(out, cells, lines[i].row[0].line)
    ensures i == j
  {
    hide InPlace, T.Retained, T.SameTable;
    assert lines[i].row[0] in lines[i].row && lines[j].row[0] in lines[j].row;
  }

  lemma {:induction false} NoEndBetween(out: string, k: nat, m: nat)
    requires k <= |out| && P.LineStart(out, k) <= m < k
    ensures !IsNewline(out[m])
    decreases k
  {
    if m < k - 1 {
      NoEndBetween(out, k - 1, m);
    }
  }

  /** From the start of a line on, a place is on it, as far along as it is from there. */
  lemma {:induction false} OnSameLine(out: string, k: nat, m: nat)
    requires k <= |out| && P.LineStart(out, k) <= m <= k
    ensures LineAt(out, m) == LineAt(out, k) && ColumnAt(out, m) == m - P.LineStart(out, k)
  {
    ColumnWithin(out, k);
    forall j | m <= j < k ensures !IsNewline(out[j]) {
      NoEndBetween(out, k, j);
    }
    OnLine(out, m, k);
  }

  /** A place on the line is not before its start. */
  lemma {:induction false} NotBefore(out: string, m: nat, k: nat)
    requires WholeEnds(out) && m <= |out| && k < |out| && !IsNewline(out[k]) && LineAt(out, m) == LineAt(out, k)
    ensures P.LineStart(out, k) <= m
  {
    var start := P.LineStart(out, k);
    ColumnWithin(out, k);
    if m < start {
      OnSameLine(out, k, start);
      LineGrows(out, m, start - 1);
      assert IsNewline(out[start - 1]);
      if out[start - 1] == '\r' {
        assert out[start] == '\n';
        if start < k {
          NoEndBetween(out, k, start);
        }
      }
      assert false;
    }
  }

  lemma {:induction false} SameStart(out: string, m: nat, k: nat)
    requires WholeEnds(out) && m < |out| && k < |out| && !IsNewline(out[k]) && !IsNewline(out[m]) && LineAt(out, m) == LineAt(out, k)
    ensures P.LineStart(out, k) == P.LineStart(out, m)
  {
    if m <= k {
      NotBefore(out, m, k);
      OnSameLine(out, k, m);
    } else {
      NotBefore(out, k, m);
      OnSameLine(out, m, k);
    }
  }

  lemma {:induction false} AllFrom(pads: seq<P.Pad>, from: nat, to: nat)
    requires forall i :: 0 <= i < |pads| ==> from <= pads[i].offset
    ensures P.Among(pads, from, to) == P.Upto(pads, to)
  {
    if pads != [] {
      AllFrom(pads[1..], from, to);
    }
  }

  lemma {:induction false} NoneBetween(pads: seq<P.Pad>, from: nat, to: nat)
    requires from <= to && forall i :: 0 <= i < |pads| ==> !(from < pads[i].offset <= to)
    ensures P.Among(pads, from, to) == P.Among(pads, from, from)
  {
    if pads != [] {
      NoneBetween(pads[1..], from, to);
    }
  }

  lemma {:induction false} OneThere(pads: seq<P.Pad>, x: nat, at: nat)
    requires forall i :: 0 <= i < |pads| ==> (pads[i].offset == at <==> i == x)
    ensures P.Among(pads, at, at) == if x < |pads| then pads[x].count else 0
  {
    if pads != [] {
      if x == 0 {
        P.NoneAmong(pads[1..], at, at);
      } else {
        OneThere(pads[1..], x - 1, at);
      }
    }
  }

  lemma {:induction false} SortedAmong(pads: seq<P.Pad>, from: nat, to: nat)
    requires from <= to
    ensures P.Among(T.SortPads(pads), from, to) == P.Among(pads, from, to)
  {
    hide P.Among, P.Upto, T.SortPads;
    P.AmongUpto(pads, from, to);
    P.AmongUpto(T.SortPads(pads), from, to);
    T.SortUpto(pads, to);
    if from > 0 {
      T.SortUpto(pads, from - 1);
    }
  }

  /** What carries the line that starts at `start`. */
  function LineCarry(page: A.Page, lines: seq<Laid>, start: nat): nat
    requires AreLaid(lines)
  {
    Carry(page, lines, start, start)
  }

  lemma {:induction false} CarryAtStart(page: A.Page, lines: seq<Laid>, k: nat)
    requires AreLaid(lines) && k <= |page.out|
    requires forall it :: it in page.continuations ==> it.offset < |page.out| && ColumnAt(page.out, it.offset) == 0
    ensures Carry(page, lines, P.LineStart(page.out, k), k) == LineCarry(page, lines, P.LineStart(page.out, k))
    decreases |lines|
  {
    hide ColumnAt, LineAt, P.LineStart, A.Carried, P.Among;
    if lines != [] {
      var last, start := lines[|lines| - 1], P.LineStart(page.out, k);
      CarryAtStart(page, lines[..|lines| - 1], k);
      StartBefore(page.out, k);
      var pads := A.CarryPads(page, last.row, last.pads, last.kept);
      forall i | 0 <= i < |pads| ensures !(start < pads[i].offset <= k) {
        var it := A.Later(page, last.row)[i];
        assert it in A.Later(page, last.row) && it in page.continuations;
        if start < it.offset <= k {
          OnSameLine(page.out, k, it.offset);
        }
      }
      NoneBetween(pads, start, k);
    }
  }

  lemma StartBefore(out: string, k: nat)
    requires k <= |out|
    ensures P.LineStart(out, k) <= k
  {
  }

  /** The row on a line has its own spaces there, and no other row has. */
  lemma {:induction false} OwnOnLine(out: string, cells: seq<CellMark>, lines: seq<Laid>, i: nat, k: nat)
    requires AreLaid(lines) && Rows(out, cells, lines) && WholeEnds(out) && k < |out| && !IsNewline(out[k])
    requires i < |lines| && lines[i].row[0].line == LineAt(out, k) && OneTableOn(out, cells, LineAt(out, k))
    ensures Own(lines, P.LineStart(out, k), k) == P.Upto(A.CellPads(lines[i].row, lines[i].pads, lines[i].kept), k)
  {
    hide ColumnAt, LineAt, P.LineStart, P.Among, P.Upto, Rows, OneTableOn, T.Retained;
    var start := P.LineStart(out, k);
    forall j | 0 <= j < |lines| && j != i ensures P.Among(A.CellPads(lines[j].row, lines[j].pads, lines[j].kept), start, k) == 0 {
      if lines[j].row[0].line == LineAt(out, k) {
        OnlyRow(out, cells, lines, i, j);
      }
      OtherLine(out, cells, lines, j, k);
    }
    OwnOne(lines, i, start, k);
    var pads := A.CellPads(lines[i].row, lines[i].pads, lines[i].kept);
    InPlaceAt(out, cells, lines, i);
    forall x | 0 <= x < |pads| ensures start <= pads[x].offset {
      assert Stands(out, lines[i].row[x].offset, lines[i].row[x].column, lines[i].row[0].line);
      NotBefore(out, pads[x].offset, k);
    }
    AllFrom(pads, start, k);
  }

  lemma InPlaceAt(out: string, cells: seq<CellMark>, lines: seq<Laid>, i: nat)
    requires AreLaid(lines) && Rows(out, cells, lines) && i < |lines|
    ensures InPlace(out, lines[i].row)
  {
  }

  lemma {:induction false} OtherLine(out: string, cells: seq<CellMark>, lines: seq<Laid>, j: nat, k: nat)
    requires AreLaid(lines) && Rows(out, cells, lines) && j < |lines| && k < |out| && lines[j].row[0].line != LineAt(out, k)
    ensures P.Among(A.CellPads(lines[j].row, lines[j].pads, lines[j].kept), P.LineStart(out, k), k) == 0
  {
    hide ColumnAt, LineAt, P.LineStart, P.Among, Rows;
    var start := P.LineStart(out, k);
    var pads := A.CellPads(lines[j].row, lines[j].pads, lines[j].kept);
    InPlaceAt(out, cells, lines, j);
    forall x | 0 <= x < |pads| ensures !(start <= pads[x].offset <= k) {
      assert Stands(out, lines[j].row[x].offset, lines[j].row[x].column, lines[j].row[0].line);
      if start <= pads[x].offset <= k {
        OnSameLine(out, k, pads[x].offset);
      }
    }
    P.NoneAmong(pads, start, k);
  }

  /** A line no row is on has no spaces of cells. */
  lemma {:induction false} NoneOnLine(out: string, cells: seq<CellMark>, lines: seq<Laid>, k: nat)
    requires AreLaid(lines) && Rows(out, cells, lines) && k < |out|
    requires forall i :: 0 <= i < |lines| ==> lines[i].row[0].line != LineAt(out, k)
    ensures Own(lines, P.LineStart(out, k), k) == 0
  {
    hide Rows, LineAt, P.LineStart, P.Among, A.CellPads;
    forall j | 0 <= j < |lines| ensures P.Among(A.CellPads(lines[j].row, lines[j].pads, lines[j].kept), P.LineStart(out, k), k) == 0 {
      OtherLine(out, cells, lines, j, k);
    }
    OwnOne(lines, |lines|, P.LineStart(out, k), k);
  }

  // ----- what carries a line

  lemma {:induction false} PlacedOnce(continuations: seq<Continuation>, line: nat)
    requires NonePlacedTwice(continuations)
    ensures NonePlacedTwice(A.PlacedBy(continuations, line))
  {
    if continuations != [] {
      assert forall i :: 0 <= i < |continuations[1..]| ==> continuations[1..][i] == continuations[i + 1];
      PlacedOnce(continuations[1..], line);
      var rest := A.PlacedBy(continuations[1..], line);
      forall j | 0 <= j < |rest| ensures rest[j].offset != continuations[0].offset {
        assert rest[j] in rest && rest[j] in continuations[1..];
      }
    }
  }

  /** A line nothing places is carried nowhere. */
  lemma {:induction false} NotCarried(page: A.Page, lines: seq<Laid>, start: nat)
    requires AreLaid(lines) && forall it :: it in page.continuations ==> it.offset != start
    ensures LineCarry(page, lines, start) == 0
  {
    forall j | 0 <= j < |lines|
      ensures P.Among(A.CarryPads(page, lines[j].row, lines[j].pads, lines[j].kept), start, start) == 0
    {
      NoneFor(page, lines[j], start);
    }
    CarryOne(page, lines, |lines|, start, start);
  }

  lemma NoneFor(page: A.Page, laid: Laid, start: nat)
    requires IsLaid(laid) && forall it :: it in page.continuations && it.line == laid.row[0].line ==> it.offset != start
    ensures P.Among(A.CarryPads(page, laid.row, laid.pads, laid.kept), start, start) == 0
  {
    hide A.Carried, P.Among;
    var pads := A.CarryPads(page, laid.row, laid.pads, laid.kept);
    forall i | 0 <= i < |pads| ensures !(start <= pads[i].offset <= start) {
      assert A.Later(page, laid.row)[i] in A.Later(page, laid.row);
    }
    P.NoneAmong(pads, start, start);
  }

  /** A line is carried as far as the row on the line it is placed by moves it. */
  lemma {:induction false} CarriedBy(out: string, cells: seq<CellMark>, page: A.Page, lines: seq<Laid>, it: Continuation, i: nat)
    requires AreLaid(lines) && Rows(out, cells, lines) && NonePlacedTwice(page.continuations) && it in page.continuations
    requires i < |lines| && lines[i].row[0].line == it.line && OneTableOn(out, cells, it.line)
    ensures LineCarry(page, lines, it.offset) == A.Carried(lines[i].row, lines[i].pads, lines[i].kept, it)
  {
    hide Rows, OneTableOn, P.Among, A.Carried;
    forall j | 0 <= j < |lines| && j != i
      ensures P.Among(A.CarryPads(page, lines[j].row, lines[j].pads, lines[j].kept), it.offset, it.offset) == 0
    {
      if lines[j].row[0].line == it.line {
        OnlyRow(out, cells, lines, i, j);
      }
      forall other | other in page.continuations && other.line == lines[j].row[0].line ensures other.offset != it.offset {
        if other.offset == it.offset {
          SamePlace(page.continuations, it, other);
        }
      }
      NoneFor(page, lines[j], it.offset);
    }
    CarryOne(page, lines, i, it.offset, it.offset);
    CarriedOnce(page, lines[i], it);
  }

  lemma SamePlace(continuations: seq<Continuation>, a: Continuation, b: Continuation)
    requires NonePlacedTwice(continuations) && a in continuations && b in continuations && a.offset == b.offset
    ensures a == b
  {
  }

  lemma {:induction false} CarriedOnce(page: A.Page, laid: Laid, it: Continuation)
    requires IsLaid(laid) && NonePlacedTwice(page.continuations) && it in page.continuations && it.line == laid.row[0].line
    ensures P.Among(A.CarryPads(page, laid.row, laid.pads, laid.kept), it.offset, it.offset) ==
      A.Carried(laid.row, laid.pads, laid.kept, it)
  {
    hide A.Carried, P.Among;
    var later := A.Later(page, laid.row);
    PlacedOnce(page.continuations, laid.row[0].line);
    assert it in later;
    var x :| 0 <= x < |later| && later[x] == it;
    OneThere(A.CarryPads(page, laid.row, laid.pads, laid.kept), x, it.offset);
  }
}
