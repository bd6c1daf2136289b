/**
 * What aligning comes to in its output: the cells of a run end in one column and the
 * comments of a run start in one, and padded lines stay within the width, each but for
 * what carries its own line along with the text it is placed by.
 */
module AlignedText {
  import opened Layout
  import opened Columns
  import opened LayoutSpacing
  import opened LayoutColumns
  import opened LayoutMarks
  import opened LineSpaces
  import A = Alignment
  import P = Padding
  import T = Tables

  /** Text aligned: what was printed, how its tables were padded, and what came of it. */
  datatype Aligned = Aligned(
    out: string, cells: seq<CellMark>, continuations: seq<Continuation>, width: nat, maxPad: nat,
    tables: seq<T.Done>, padded: string)

  ghost predicate IsAligned(a: Aligned) {
    && Noted(a.out, a.cells, a.continuations) && AllShaped(a.tables)
    && T.PaddedBy(a.out, a.cells, a.continuations, a.width, a.maxPad, a.tables, a.padded)
  }

  function Page(a: Aligned): A.Page {
    T.PageOf(a.out, a.cells, a.continuations, a.width, a.maxPad)
  }

  function Pads(a: Aligned): seq<P.Pad> {
    T.SortPads(T.AllInserts(a.tables))
  }

  /** The character at `k` is in the column, in the output. */
  predicate GoesTo(a: Aligned, k: nat, column: int) {
    P.Moved(Pads(a), k) < |a.padded| && ColumnAt(a.padded, P.Moved(Pads(a), k)) == column
  }

  /** What carries the line of `k`. */
  function CarryAt(a: Aligned, k: nat): nat
    requires AllShaped(a.tables) && k <= |a.out|
  {
    LineCarry(Page(a), AllLines(a.tables), P.LineStart(a.out, k))
  }

  /** The row on a line is the only one there with cells that have something after them. */
  ghost predicate Single(a: Aligned, row: seq<CellMark>)
    requires row != []
  {
    OneTableOn(a.out, a.cells, row[0].line)
  }

  lemma AlignedMeans(a: Aligned)
    requires IsAligned(a)
    ensures AllShaped(a.tables) && Noted(a.out, a.cells, a.continuations)
    ensures var page := Page(a);
      && page.out == a.out && page.continuations == a.continuations && page.width == a.width && page.maxPad == a.maxPad
      && T.AreTables(page, a.tables) && T.AllCells(a.tables) == T.SortCells(T.Retained(a.out, a.cells))
      && P.Fitting(Pads(a), a.out, 0) && a.padded == P.Inserted(a.out, Pads(a), 0)
  {
    hide T.AreTables, P.Fitting, P.Inserted, T.SortCells, T.Retained, T.AllCells, T.SortPads, T.AllInserts;
  }

  lemma {:induction false} RowsIn(a: Aligned)
    requires IsAligned(a)
    ensures Rows(a.out, a.cells, AllLines(a.tables)) && P.Widened(a.out, Pads(a), 0, a.padded)
    ensures WholeEnds(a.out) && NonePlacedTwice(a.continuations)
    ensures forall it :: it in a.continuations ==> it.offset < |a.out| && ColumnAt(a.out, it.offset) == 0
  {
    hide *;
    AlignedMeans(a);
    NotedMeans(a.out, a.cells, a.continuations);
    RowsOf(a.out, a.cells, a.continuations, Page(a), a.tables);
    Sorts(a);
    P.Widens(a.out, Pads(a), 0);
  }

  lemma NotedMeans(out: string, cells: seq<CellMark>, continuations: seq<Continuation>)
    requires Noted(out, cells, continuations)
    ensures WholeEnds(out) && NonePlacedTwice(continuations)
    ensures forall it :: it in continuations ==> it.offset < |out| && ColumnAt(out, it.offset) == 0
  {
  }

  lemma Sorts(a: Aligned)
    ensures P.Sorted(Pads(a))
  {
  }

  // ----- how far a character moves along its line

  /** A character moves along its line by the spaces of cells there up to it, and by what carries the line. */
  lemma {:induction false} MovesBy(a: Aligned, k: nat)
    requires IsAligned(a) && k < |a.out|
    ensures GoesTo(a, k, ColumnAt(a.out, k) + Own(AllLines(a.tables), P.LineStart(a.out, k), k) + CarryAt(a, k))
  {
    hide *;
    AlignedMeans(a);
    RowsIn(a);
    var lines, start := AllLines(a.tables), P.LineStart(a.out, k);
    AllAre(Page(a), a.tables);
    P.PaddedColumn(a.out, Pads(a), a.padded, k);
    StartBefore(a.out, k);
    Inserted(a, k);
    OwnOrCarry(Page(a), lines, start, k);
    CarryAtStart(Page(a), lines, k);
    Goes(a, k, ColumnAt(a.out, k) + P.OnItsLine(a.out, Pads(a), k));
    IsCarry(a, k);
  }

  lemma Inserted(a: Aligned, k: nat)
    requires k <= |a.out|
    ensures P.OnItsLine(a.out, Pads(a), k) == P.Among(T.AllInserts(a.tables), P.LineStart(a.out, k), k)
  {
    hide ColumnAt, P.LineStart, P.Among, T.SortPads;
    StartBefore(a.out, k);
    SortedAmong(T.AllInserts(a.tables), P.LineStart(a.out, k), k);
  }

  lemma Goes(a: Aligned, k: nat, column: int)
    requires P.Moved(Pads(a), k) < |a.padded| && ColumnAt(a.padded, P.Moved(Pads(a), k)) == column
    ensures GoesTo(a, k, column)
  {
  }

  lemma IsCarry(a: Aligned, k: nat)
    requires AllShaped(a.tables) && k <= |a.out|
    ensures CarryAt(a, k) == LineCarry(Page(a), AllLines(a.tables), P.LineStart(a.out, k))
  {
  }

  /** Where the row of a table is among all. */
  function Index(tables: seq<T.Done>, t: nat, r: nat): nat
    requires AllShaped(tables) && t < |tables|
  {
    |AllLines(tables[..t])| + r
  }

  lemma {:induction false} LineIs(tables: seq<T.Done>, t: nat, r: nat)
    requires AllShaped(tables) && t < |tables| && r < |tables[t].rows|
    ensures var i := Index(tables, t, r);
      i < |AllLines(tables)| && AllLines(tables)[i] == Laid(tables[t].rows[r], tables[t].rowPads[r], tables[t].kept[r])
    decreases |tables|
  {
    var n := |tables| - 1;
    if t < n {
      LineIs(tables[..n], t, r);
      assert tables[..n][..t] == tables[..t];
    }
  }

  /** On the line of a row a character moves by the row's spaces up to it, and by what carries the line. */
  lemma {:induction false} MovesOnRow(a: Aligned, t: nat, r: nat, k: nat)
    requires IsAligned(a) && t < |a.tables| && r < |a.tables[t].rows|
    requires Single(a, a.tables[t].rows[r]) && k < |a.out| && !IsNewline(a.out[k])
    requires LineAt(a.out, k) == a.tables[t].rows[r][0].line
    ensures var t := a.tables[t];
      GoesTo(a, k, ColumnAt(a.out, k) + P.Upto(A.CellPads(t.rows[r], t.rowPads[r], t.kept[r]), k) + CarryAt(a, k))
  {
    hide *;
    RowShape(a, t, r);
    SingleIs(a, a.tables[t].rows[r]);
    RowsIn(a);
    LineIs(a.tables, t, r);
    MovesBy(a, k);
    OwnOnLine(a.out, a.cells, AllLines(a.tables), Index(a.tables, t, r), k);
  }

  lemma RowShape(a: Aligned, t: nat, r: nat)
    requires IsAligned(a) && t < |a.tables| && r < |a.tables[t].rows|
    ensures AllShaped(a.tables)
    ensures var t := a.tables[t];
      |t.rowPads| == |t.kept| == |t.rows| && t.rows[r] != [] && |t.rowPads[r]| == |t.rows[r]| && t.kept[r] <= |t.rows[r]|
  {
    hide T.PaddedBy, Noted;
    assert Shaped(a.tables[t]);
  }

  lemma SingleIs(a: Aligned, row: seq<CellMark>)
    requires row != [] && Single(a, row)
    ensures OneTableOn(a.out, a.cells, row[0].line)
  {
  }

  lemma {:induction false} RowPlaced(a: Aligned, t: nat, r: nat)
    requires IsAligned(a) && t < |a.tables| && r < |a.tables[t].rows|
    ensures InPlace(a.out, a.tables[t].rows[r])
  {
    hide *;
    RowShape(a, t, r);
    RowsIn(a);
    LineIs(a.tables, t, r);
    InPlaceAt(a.out, a.cells, AllLines(a.tables), Index(a.tables, t, r));
  }

  // ----- cells

  /** Up to a cell are the spaces before it and its own. */
  lemma {:induction false} UptoCell(row: seq<CellMark>, rowPads: seq<nat>, kept: nat, offset: nat, cells: nat)
    requires cells <= kept <= |row| == |rowPads|
    requires forall i :: 0 <= i < cells ==> row[i].offset <= offset
    requires forall i :: cells <= i < kept ==> offset < row[i].offset
    ensures P.Upto(A.CellPads(row, rowPads, kept), offset) == Sum(rowPads[..cells])
    decreases |row|
  {
    var pads := A.CellPads(row, rowPads, kept);
    if cells == 0 {
      P.NoneUpto(pads, offset);
    } else {
      assert pads[1..] == A.CellPads(row[1..], rowPads[1..], kept - 1);
      UptoCell(row[1..], rowPads[1..], kept - 1, offset, cells - 1);
      assert rowPads[..cells] == [rowPads[0]] + rowPads[1..][..cells - 1];
      SumFirst(rowPads[0], rowPads[1..][..cells - 1]);
    }
  }

  lemma {:induction false} SumFirst(first: nat, rest: seq<nat>)
    ensures Sum([first] + rest) == first + Sum(rest)
  {
    if rest == [] {
      assert [first] + rest == [first] && [first][..0] == [];
    } else {
      var n := |rest| - 1;
      SumFirst(first, rest[..n]);
      assert ([first] + rest)[..n + 1] == [first] + rest[..n];
    }
  }

  /** There is something between the cell and the next that is padded. */
  predicate Followed(row: seq<CellMark>, kept: nat, i: nat) {
    i < kept <= |row| && (i + 1 < kept ==> row[i].offset < row[i + 1].offset)
  }

  /** After its padding a cell ends where it did, moved by the padding of its row up to it and with its line. */
  lemma {:induction false} CellGoesTo(a: Aligned, t: nat, r: nat, i: nat)
    requires IsAligned(a) && t < |a.tables| && r < |a.tables[t].rows|
    requires Single(a, a.tables[t].rows[r]) && Followed(a.tables[t].rows[r], a.tables[t].kept[r], i)
    requires a.tables[t].rows[r][i].offset <= |a.out|
    ensures var cell := a.tables[t].rows[r][i];
      GoesTo(a, cell.offset, cell.column + Sum(a.tables[t].rowPads[r][..i + 1]) + CarryAt(a, cell.offset))
  {
    hide IsAligned, Single, GoesTo, CarryAt, ColumnAt, LineAt, P.Upto, Sum;
    var row := a.tables[t].rows[r];
    RowShape(a, t, r);
    RowPlaced(a, t, r);
    assert Stands(a.out, row[i].offset, row[i].column, row[0].line);
    MovesOnRow(a, t, r, row[i].offset);
    UptoCell(row, a.tables[t].rowPads[r], a.tables[t].kept[r], row[i].offset, i + 1);
  }

  // ----- tables

  lemma {:induction false} InAllCells(tables: seq<T.Done>, t: nat, c: CellMark)
    requires t < |tables| && c in T.Joined(tables[t].rows)
    ensures c in T.AllCells(tables)
    decreases |tables|
  {
    hide T.Joined;
    var n := |tables| - 1;
    if t < n {
      InAllCells(tables[..n], t, c);
    }
  }

  lemma {:induction false} TablesInOrder(tables: seq<T.Done>, s: nat, t: nat, c: CellMark, d: CellMark)
    requires T.ByTable(T.AllCells(tables)) && s < t < |tables| && c in T.Joined(tables[s].rows) && d in T.Joined(tables[t].rows)
    ensures T.AtOrBefore(c, d)
    decreases |tables|
  {
    hide T.Joined, T.AtOrBefore;
    var n := |tables| - 1;
    var before, last := T.AllCells(tables[..n]), T.Joined(tables[n].rows);
    assert T.AllCells(tables) == before + last;
    if t < n {
      assert T.ByTable(before) by {
        assert forall i :: 0 <= i < |before| ==> before[i] == T.AllCells(tables)[i];
      }
      TablesInOrder(tables[..n], s, t, c, d);
    } else {
      InAllCells(tables[..n], s, c);
      var i :| 0 <= i < |before| && before[i] == c;
      var j :| 0 <= j < |last| && last[j] == d;
      assert T.AllCells(tables)[i] == c && T.AllCells(tables)[|before| + j] == d;
    }
  }

  /** Two cells are lined up in one table exactly if they are of one, with no empty line between. */
  lemma {:induction false} TablesExactly(a: Aligned, s: nat, t: nat, c: CellMark, d: CellMark)
    requires IsAligned(a) && s <= t < |a.tables| && c in T.Joined(a.tables[s].rows) && d in T.Joined(a.tables[t].rows)
    ensures s == t <==> c.table == d.table && c.block == d.block
  {
    hide *;
    AlignedMeans(a);
    TablesAre(Page(a), a.tables, s, t, c, d);
    if s < t {
      ByTables(a);
      TablesInOrder(a.tables, s, t, c, d);
      var e := OneIn(Page(a), a.tables, s + 1);
      TablesAre(Page(a), a.tables, s, s + 1, c, e);
      TablesInOrder(a.tables, s, s + 1, c, e);
      if s + 1 < t {
        TablesInOrder(a.tables, s + 1, t, e, d);
      } else {
        TablesAre(Page(a), a.tables, s, t, c, d);
      }
      NotSame(c, e, d, s + 1 < t);
    }
  }

  lemma ByTables(a: Aligned)
    requires IsAligned(a)
    ensures T.ByTable(T.AllCells(a.tables))
  {
    hide T.AreTables, P.Fitting, P.Inserted, T.Retained, T.AllCells, T.SortPads, T.AllInserts, Noted;
    SortedByTable(T.Retained(a.out, a.cells));
  }

  lemma SortedByTable(cells: seq<CellMark>)
    ensures T.ByTable(T.SortCells(cells))
  {
    var sorted := T.SortCells(cells);
  }

  lemma OneIn(page: A.Page, tables: seq<T.Done>, t: nat) returns (c: CellMark)
    requires T.AreTables(page, tables) && t < |tables|
    ensures c in T.Joined(tables[t].rows)
  {
    hide A.Tabled, T.Joined;
    assert T.IsTable(page, tables[t]);
    InJoined(tables[t].rows, 0);
    c := tables[t].rows[0][0];
  }

  lemma TablesAre(page: A.Page, tables: seq<T.Done>, s: nat, t: nat, c: CellMark, d: CellMark)
    requires T.AreTables(page, tables) && s <= t < |tables| && c in T.Joined(tables[s].rows) && d in T.Joined(tables[t].rows)
    ensures s == t ==> c.table == d.table && c.block == d.block
    ensures t == s + 1 ==> c.table != d.table || c.block != d.block
  {
    hide A.Tabled, T.Joined;
    assert T.IsTable(page, tables[s]);
    if t == s + 1 {
      assert T.OtherTable(tables[s], tables[t]);
    }
  }

  lemma NotSame(c: CellMark, e: CellMark, d: CellMark, between: bool)
    requires T.AtOrBefore(c, e) && (c.table != e.table || c.block != e.block) && (between ==> T.AtOrBefore(e, d))
    ensures between ==> c.table != d.table || c.block != d.block
  {
  }

  // ----- rows lined up together

  /** Some rows of a table lined up together: what lines them up, what each can take, and by which runs. */
  datatype Lineup = Lineup(
    t: nat, from: nat, to: nat, targets: seq<seq<nat>>, fits: seq<nat>, columns: seq<seq<nat>>, runs: seq<A.Run>)

  predicate InTable(a: Aligned, u: Lineup) {
    && u.t < |a.tables| && Shaped(a.tables[u.t]) && u.from <= u.to <= |a.tables[u.t].rows|
    && Fit(a.tables[u.t].rows[u.from..u.to], u.targets) && |u.fits| == u.to - u.from
  }

  ghost predicate Lined(a: Aligned, u: Lineup) {
    && InTable(a, u)
    && var t := a.tables[u.t];
       A.Together(Page(a), t.rows[u.from..u.to], u.targets, u.fits, u.columns, t.rowPads[u.from..u.to], t.kept[u.from..u.to], u.runs)
  }

  function LinedRows(a: Aligned, u: Lineup): seq<seq<CellMark>>
    requires InTable(a, u)
  {
    a.tables[u.t].rows[u.from..u.to]
  }

  /** Where the cells of the `k`th column end. */
  function EndsOf(a: Aligned, u: Lineup, k: nat): (ends: seq<End>)
    requires InTable(a, u) && k < |ColumnsOf(LinedRows(a, u))|
    ensures forall i :: 0 <= i < |ends| ==> ends[i].row < u.to - u.from && ends[i].at < |LinedRows(a, u)[ends[i].row]|
  {
    Ends(LinedRows(a, u), u.targets, ColumnsOf(LinedRows(a, u))[k])
  }

  /** How far each of them moves. */
  function MovesOf(a: Aligned, u: Lineup, k: nat): (moves: seq<nat>)
    requires InTable(a, u) && k < |ColumnsOf(LinedRows(a, u))|
    ensures |moves| == |EndsOf(a, u, k)|
  {
    Moves(EndsOf(a, u, k), u.targets)
  }

  /** The rows of a table are in groups next to each other, each lined up together. */
  lemma {:induction false} InGroups(a: Aligned, t: nat)
    requires IsAligned(a) && t < |a.tables|
    ensures var cuts := a.tables[t].cuts;
      && cuts != [] && cuts[0] == 0 && cuts[|cuts| - 1] == |a.tables[t].rows|
      && (forall g, h :: 0 <= g < h < |cuts| && h == g + 1 ==> IsGroup(a, t, cuts[g], cuts[h]))
  {
    hide *;
    AlignedMeans(a);
    var cuts := a.tables[t].cuts;
    CutsAre(Page(a), a.tables, t);
    forall g, h | 0 <= g < h < |cuts| && h == g + 1
      ensures IsGroup(a, t, cuts[g], cuts[h])
    {
      GroupIs(a, t, cuts[g], cuts[h]);
    }
  }

  lemma CutsAre(page: A.Page, tables: seq<T.Done>, t: nat)
    requires T.AreTables(page, tables) && t < |tables|
    ensures tables[t].cuts != [] && tables[t].cuts[0] == 0 && tables[t].cuts[|tables[t].cuts| - 1] == |tables[t].rows|
    ensures forall g, h :: 0 <= g < h < |tables[t].cuts| && h == g + 1 ==>
      A.Group(page, tables[t].rows, tables[t].rowPads, tables[t].kept, tables[t].cuts[g], tables[t].cuts[h])
  {
    hide A.Group, A.Tabled, T.Chunked, T.OtherTable;
    assert T.IsTable(page, tables[t]);
    TabledCuts(page, tables[t]);
  }

  lemma TabledCuts(page: A.Page, done: T.Done)
    requires A.Tabled(page, done.rows, done.rowPads, done.kept, done.cuts, done.inserts)
    ensures done.cuts != [] && done.cuts[0] == 0 && done.cuts[|done.cuts| - 1] == |done.rows|
    ensures forall g, h :: 0 <= g < h < |done.cuts| && h == g + 1 ==>
      A.Group(page, done.rows, done.rowPads, done.kept, done.cuts[g], done.cuts[h])
  {
    hide A.Group, A.RowWithin;
  }

  ghost predicate IsGroup(a: Aligned, t: nat, from: nat, to: nat) {
    exists u :: Lined(a, u) && u.t == t && u.from == from && u.to == to
  }

  lemma GroupIs(a: Aligned, t: nat, from: nat, to: nat)
    requires AllShaped(a.tables) && t < |a.tables|
    requires A.Group(Page(a), a.tables[t].rows, a.tables[t].rowPads, a.tables[t].kept, from, to)
    ensures IsGroup(a, t, from, to)
  {
    hide Page, A.Together;
    var done := a.tables[t];
    assert Shaped(done);
    var rows, rowPads, kept := done.rows[from..to], done.rowPads[from..to], done.kept[from..to];
    var targets, fits, columns, runs :| A.Together(Page(a), rows, targets, fits, columns, rowPads, kept, runs);
    TogetherFits(Page(a), rows, targets, fits, columns, rowPads, kept, runs);
    assert Lined(a, Lineup(t, from, to, targets, fits, columns, runs));
  }

  lemma TogetherFits(page: A.Page, rows: seq<seq<CellMark>>, targets: seq<seq<nat>>, fits: seq<nat>, columns: seq<seq<nat>>,
                     rowPads: seq<seq<nat>>, kept: seq<nat>, runs: seq<A.Run>)
    requires (forall r :: 0 <= r < |rows| ==> rows[r] != []) && A.Together(page, rows, targets, fits, columns, rowPads, kept, runs)
    ensures Fit(rows, targets) && |fits| == |rows|
  {
    hide AllLinedUp, AreRows, A.Whole, A.CommentsLined;
  }

  /** A cell that is padded, other than the comment, is before it, and takes what lines it up. */
  lemma {:induction false} BeforeComment(page: A.Page, rows: seq<seq<CellMark>>, targets: seq<seq<nat>>, fits: seq<nat>,
                                         columns: seq<seq<nat>>, rowPads: seq<seq<nat>>, kept: seq<nat>, runs: seq<A.Run>, r: nat, at: nat)
    requires (forall r :: 0 <= r < |rows| ==> rows[r] != []) && A.Together(page, rows, targets, fits, columns, rowPads, kept, runs)
    requires |rowPads| == |kept| == |rows| && r < |rows| && at < kept[r] <= |rows[r]| && at != A.Code(rows[r])
    ensures |targets| == |rows| && |targets[r]| == |rowPads[r]| == |rows[r]| && rowPads[r][..at + 1] == targets[r][..at + 1]
  {
    hide AllLinedUp, AreRows, A.Whole, A.InRuns, A.Lined;
    var items := A.Items(page, rows, targets, fits, |rows|);
    if A.FreeRow(items, r) {
      var g, j := A.RunOfRow(rows, targets, fits, rowPads, kept, items, runs, r);
      A.ItemMeans(page, rows, targets, fits, j);
    }
  }

  lemma OffsetWithin(a: Aligned, t: nat, r: nat, i: nat)
    requires IsAligned(a) && t < |a.tables| && r < |a.tables[t].rows| && i < |a.tables[t].rows[r]|
    ensures a.tables[t].rows[r][i].offset < |a.out| && !IsNewline(a.out[a.tables[t].rows[r][i].offset])
    ensures a.tables[t].rows[r] != []
    ensures Stands(a.out, a.tables[t].rows[r][i].offset, a.tables[t].rows[r][i].column, a.tables[t].rows[r][0].line)
  {
    hide IsAligned;
    RowPlaced(a, t, r);
  }

  /** The character at `k` is in the column, in the output, but for what carries its line. */
  ghost predicate GoesWith(a: Aligned, k: nat, column: int)
    requires AllShaped(a.tables)
  {
    k < |a.out| && GoesTo(a, k, column + CarryAt(a, k))
  }

  /** The cell is padded, with something after it on a line with no cells of other tables. */
  ghost predicate IsPadded(a: Aligned, t: nat, r: nat, i: nat) {
    && t < |a.tables| && r < |a.tables[t].rows| && a.tables[t].rows[r] != [] && r < |a.tables[t].kept|
    && Single(a, a.tables[t].rows[r]) && Followed(a.tables[t].rows[r], a.tables[t].kept[r], i)
  }

  lemma {:induction false} CellGoesWith(a: Aligned, t: nat, r: nat, i: nat)
    requires IsAligned(a) && IsPadded(a, t, r, i) && r < |a.tables[t].rowPads| && i < |a.tables[t].rowPads[r]|
    ensures GoesWith(a, a.tables[t].rows[r][i].offset, a.tables[t].rows[r][i].column + Sum(a.tables[t].rowPads[r][..i + 1]))
  {
    hide IsAligned, Single, GoesTo, CarryAt, Sum, Stands;
    OffsetWithin(a, t, r, i);
    CellGoesTo(a, t, r, i);
  }

  /** One cell of a column, padded: it ends where its column is lined up. */
  lemma {:induction false} EndGoesTo(a: Aligned, u: Lineup, k: nat, i: nat)
    requires IsAligned(a) && Lined(a, u) && k < |ColumnsOf(LinedRows(a, u))| && ColumnsOf(LinedRows(a, u))[k] != COMMENT
    requires i < |EndsOf(a, u, k)| && IsPadded(a, u.t, u.from + EndsOf(a, u, k)[i].row, EndsOf(a, u, k)[i].at)
    ensures var end := EndsOf(a, u, k)[i];
      GoesWith(a, LinedRows(a, u)[end.row][end.at].offset, end.end + MovesOf(a, u, k)[i])
  {
    hide IsAligned, GoesWith, A.Together, Single, ColumnsOf, Sum;
    var done, index := a.tables[u.t], ColumnsOf(LinedRows(a, u))[k];
    var rows: seq<seq<CellMark>> := LinedRows(a, u);
    var r, at := EndsOf(a, u, k)[i].row, EndsOf(a, u, k)[i].at;
    assert rows[r] == done.rows[u.from + r] && done.rowPads[u.from..u.to][r] == done.rowPads[u.from + r];
    assert done.kept[u.from..u.to][r] == done.kept[u.from + r] && rows[r][at].index == index;
    BeforeComment(Page(a), rows, u.targets, u.fits, u.columns, done.rowPads[u.from..u.to], done.kept[u.from..u.to], u.runs, r, at);
    CellGoesWith(a, u.t, u.from + r, at);
    LastSum(u.targets[r], at);
  }

  lemma LastSum(pads: seq<nat>, at: nat)
    requires at < |pads|
    ensures Sum(pads[..at + 1]) == Sum(pads[..at]) + pads[at]
  {
    assert pads[..at + 1][..at] == pads[..at];
  }

  /**
   * The cells of one column in one run, those that are padded with something after them,
   * end in one column of the output, but for what carries their lines.
   */
  lemma {:induction false} CellsOfRun(a: Aligned, u: Lineup, k: nat, i: nat, j: nat)
    requires IsAligned(a) && Lined(a, u) && AreRows(LinedRows(a, u))
    requires k < |u.columns| && k < |ColumnsOf(LinedRows(a, u))| && ColumnsOf(LinedRows(a, u))[k] != COMMENT
    requires i < j < |EndsOf(a, u, k)| && j < |u.columns[k]| && u.columns[k][i] == u.columns[k][j]
    requires IsPadded(a, u.t, u.from + EndsOf(a, u, k)[i].row, EndsOf(a, u, k)[i].at)
    requires IsPadded(a, u.t, u.from + EndsOf(a, u, k)[j].row, EndsOf(a, u, k)[j].at)
    ensures var c, d := EndsOf(a, u, k)[i], EndsOf(a, u, k)[j];
      var column := c.end + MovesOf(a, u, k)[i];
      && GoesWith(a, LinedRows(a, u)[c.row][c.at].offset, column)
      && GoesWith(a, LinedRows(a, u)[d.row][d.at].offset, column)
  {
    hide *;
    ColumnLevel(a, u, k);
    IsTable(a, u);
    EndGoesTo(a, u, k, i);
    EndGoesTo(a, u, k, j);
    LevelIs(EndsOf(a, u, k), MovesOf(a, u, k), u.columns[k], i, j);
  }

  lemma LevelIs(ends: seq<End>, moves: seq<nat>, firsts: seq<nat>, i: nat, j: nat)
    requires Level(ends, moves, firsts) && i < j < |ends| && j < |firsts| && firsts[i] == firsts[j]
    ensures |moves| == |ends| && ends[i].end + moves[i] == ends[j].end + moves[j]
  {
  }

  lemma IsTable(a: Aligned, u: Lineup)
    requires Lined(a, u)
    ensures InTable(a, u) && u.t < |a.tables| && Shaped(a.tables[u.t])
  {
  }

  lemma {:induction false} ColumnLevel(a: Aligned, u: Lineup, k: nat)
    requires Lined(a, u) && AreRows(LinedRows(a, u)) && k < |u.columns| && k < |ColumnsOf(LinedRows(a, u))|
    ensures Level(EndsOf(a, u, k), MovesOf(a, u, k), u.columns[k])
  {
    hide ColumnsOf, Level, CutWell, A.CommentsLined, A.Whole, Ends;
    var rows: seq<seq<CellMark>> := LinedRows(a, u);
    assert ColumnLinedUp(rows, u.targets, rows != [] && rows[0][0].strict, Page(a).maxPad, ColumnsOf(rows), u.columns, k);
  }

  // ----- comments

  function ItemsOf(a: Aligned, u: Lineup): (items: seq<A.Item>)
    requires InTable(a, u)
    ensures forall j :: 0 <= j < |items| ==> items[j].row < u.to - u.from && items[j].at < |LinedRows(a, u)[items[j].row]|
  {
    A.Items(Page(a), LinedRows(a, u), u.targets, u.fits, u.to - u.from)
  }

  /** Each comment of a run starts, in the output, at the run's column, but for what carries its line. */
  lemma {:induction false} CommentOfRun(a: Aligned, u: Lineup, g: nat, j: nat)
    requires IsAligned(a) && Lined(a, u) && g < |u.runs| && u.runs[g].first <= j < u.runs[g].to && j < |ItemsOf(a, u)|
    requires Single(a, LinedRows(a, u)[ItemsOf(a, u)[j].row])
    ensures var item := ItemsOf(a, u)[j];
      GoesWith(a, LinedRows(a, u)[item.row][item.at].offset, u.runs[g].column)
  {
    hide *;
    IsTable(a, u);
    var item := ItemsOf(a, u)[j];
    RowIs(a, u, item.row);
    CommentIn(a, u, g, j);
    CommentAlone(a, u.t, u.from + item.row, item.at);
    CellGoesWith(a, u.t, u.from + item.row, item.at);
    LastSum(a.tables[u.t].rowPads[u.from + item.row], item.at);
  }

  lemma CommentAlone(a: Aligned, t: nat, r: nat, at: nat)
    requires t < |a.tables| && r < |a.tables[t].rows| && a.tables[t].rows[r] != [] && r < |a.tables[t].kept|
    requires Single(a, a.tables[t].rows[r]) && a.tables[t].kept[r] == at + 1 <= |a.tables[t].rows[r]|
    ensures IsPadded(a, t, r, at)
  {
    hide Single;
  }

  lemma RowIs(a: Aligned, u: Lineup, r: nat)
    requires InTable(a, u) && r < u.to - u.from
    ensures var done := a.tables[u.t];
      && |done.rows| == |done.rowPads| == |done.kept| && u.to <= |done.rows| && |LinedRows(a, u)| == u.to - u.from
      && LinedRows(a, u)[r] == done.rows[u.from + r] && |done.rowPads[u.from + r]| == |done.rows[u.from + r]|
      && done.rows[u.from + r] != []
  {
  }

  /** What `CommentPadded` says of the rows lined up. */
  lemma CommentIn(a: Aligned, u: Lineup, g: nat, j: nat)
    requires Lined(a, u) && g < |u.runs| && u.runs[g].first <= j < u.runs[g].to && j < |ItemsOf(a, u)|
    ensures var item, done := ItemsOf(a, u)[j], a.tables[u.t];
      && |done.rows| == |done.rowPads| == |done.kept| && u.to <= |done.rows| && item.row < u.to - u.from
      && var row, own := done.rows[u.from + item.row], done.rowPads[u.from + item.row];
         && item.at < |row| == |own| && done.kept[u.from + item.row] == item.at + 1
         && row[item.at].column + Sum(own[..item.at]) + own[item.at] == u.runs[g].column
  {
    hide A.Together, A.Items, Page, Sum, Fit;
    var done, item := a.tables[u.t], ItemsOf(a, u)[j];
    assert Shaped(done);
    RowIs(a, u, item.row);
    var rows, rowPads, kept := LinedRows(a, u), done.rowPads[u.from..u.to], done.kept[u.from..u.to];
    FitSlice(done.rows, done.rowPads, u.from, u.to);
    CommentPadded(Page(a), rows, u.targets, u.fits, u.columns, rowPads, kept, u.runs, g, j);
    assert rows[item.row] == done.rows[u.from + item.row] && rowPads[item.row] == done.rowPads[u.from + item.row];
    assert kept[item.row] == done.kept[u.from + item.row];
  }

  lemma FitSlice(rows: seq<seq<CellMark>>, pads: seq<seq<nat>>, from: nat, to: nat)
    requires Fit(rows, pads) && from <= to <= |rows|
    ensures |pads| == |rows| && forall r :: 0 <= r < to - from ==> |pads[from..to][r]| == |rows[from..to][r]|
  {
  }

  lemma {:induction false} CommentPadded(page: A.Page, rows: seq<seq<CellMark>>, targets: seq<seq<nat>>, fits: seq<nat>,
                                         columns: seq<seq<nat>>, rowPads: seq<seq<nat>>, kept: seq<nat>, runs: seq<A.Run>, g: nat, j: nat)
    requires (forall r :: 0 <= r < |rows| ==> rows[r] != []) && A.Together(page, rows, targets, fits, columns, rowPads, kept, runs)
    requires Fit(rows, targets) && |fits| == |rows| && g < |runs| && runs[g].first <= j < runs[g].to
    requires |rowPads| == |kept| == |rows| && forall r :: 0 <= r < |rows| ==> |rowPads[r]| == |rows[r]|
    requires j < |A.Items(page, rows, targets, fits, |rows|)|
    ensures var item := A.Items(page, rows, targets, fits, |rows|)[j];
      && item.row < |rows| && item.at < |rows[item.row]| && kept[item.row] == item.at + 1
      && rows[item.row][item.at].column + Sum(rowPads[item.row][..item.at]) + rowPads[item.row][item.at] == runs[g].column
  {
    hide AllLinedUp, AreRows, A.Whole, A.InRuns, A.Items, A.Limit, Sum;
    var item := A.Items(page, rows, targets, fits, |rows|)[j];
    assert A.IsItem(page, rows, targets, fits, item);
    assert A.Lined(targets, rowPads, kept, item, runs[g]);
    assert rowPads[item.row][..item.at] == targets[item.row][..item.at];
  }

  /** It is there exactly when its line is not carried. */
  lemma {:induction false} AtRunsColumn(a: Aligned, u: Lineup, g: nat, j: nat)
    requires IsAligned(a) && Lined(a, u) && g < |u.runs| && u.runs[g].first <= j < u.runs[g].to && j < |ItemsOf(a, u)|
    requires Single(a, LinedRows(a, u)[ItemsOf(a, u)[j].row])
    ensures var comment := LinedRows(a, u)[ItemsOf(a, u)[j].row][ItemsOf(a, u)[j].at];
      && comment.offset <= |a.out|
      && (GoesTo(a, comment.offset, u.runs[g].column) <==> CarryAt(a, comment.offset) == 0)
  {
    hide IsAligned, Single, CarryAt, Lined, A.Items, Page;
    CommentOfRun(a, u, g, j);
  }

  /** A line that nothing places is not carried. */
  lemma {:induction false} NothingCarries(a: Aligned, k: nat)
    requires IsAligned(a) && k <= |a.out| && Unplaced(a.out, a.continuations, LineAt(a.out, k))
    ensures CarryAt(a, k) == 0
  {
    hide IsAligned, Page, ColumnAt, LineAt, P.LineStart;
    AlignedMeans(a);
    RowsIn(a);
    StartBefore(a.out, k);
    OnSameLine(a.out, k, P.LineStart(a.out, k));
    NotCarried(Page(a), AllLines(a.tables), P.LineStart(a.out, k));
  }
}
