/**
 * The pass over the printed text that pads its tables: it only inserts spaces, none of
 * them before a line end.
 */
module Tables {
  import opened Wrappers
  import opened Layout
  import opened LayoutSpacing
  import opened Alignment
  import C = Columns
  import P = Padding

  // ----- which cells line up with each other

  /** A cell with nothing after it on its line is left alone. */
  predicate EndsLine(out: string, cell: CellMark) {
    cell.offset < |out| && IsNewline(out[cell.offset])
  }

  function Retained(out: string, cells: seq<CellMark>): (kept: seq<CellMark>)
    ensures forall c :: c in kept <==> c in cells && !EndsLine(out, c)
  {
    if cells == [] then []
    else
      assert cells == [cells[0]] + cells[1..];
      var rest := Retained(out, cells[1..]);
      if EndsLine(out, cells[0]) then rest else [cells[0]] + rest
  }

  predicate SameTable(a: CellMark, b: CellMark) {
    a.table == b.table && a.block == b.block
  }

  predicate AtOrBefore(a: CellMark, b: CellMark) {
    a.table < b.table || (a.table == b.table && a.block <= b.block)
  }

  predicate ByTable(cells: seq<CellMark>) {
    forall i, j :: 0 <= i < j < |cells| ==> AtOrBefore(cells[i], cells[j])
  }

  /** The cells of one table, in order. */
  function Of(cells: seq<CellMark>, key: CellMark): seq<CellMark> {
    if cells == [] then [] else (if SameTable(cells[0], key) then [cells[0]] else []) + Of(cells[1..], key)
  }

  /** Before the first cell of this table or a later one. */
  function InsertCell(cell: CellMark, cells: seq<CellMark>): (r: seq<CellMark>)
    requires ByTable(cells)
    ensures ByTable(r) && forall c :: c in r <==> c == cell || c in cells
    ensures |r| == |cells| + 1
  {
    if cells == [] || AtOrBefore(cell, cells[0]) then [cell] + cells
    else
      assert cells == [cells[0]] + cells[1..];
      var rest := InsertCell(cell, cells[1..]);
      var r := [cells[0]] + rest;
      assert forall j :: 0 < j < |r| ==> r[j] in rest;
      r
  }

  /** Stable: the cells of each table stay in the order they were printed. */
  function SortCells(cells: seq<CellMark>): (r: seq<CellMark>)
    ensures ByTable(r) && (forall c :: c in r <==> c in cells) && |r| == |cells|
  {
    if cells == [] then []
    else
      assert cells == [cells[0]] + cells[1..];
      InsertCell(cells[0], SortCells(cells[1..]))
  }

  lemma {:induction false} InsertKeeps(cell: CellMark, cells: seq<CellMark>, key: CellMark)
    requires ByTable(cells)
    ensures Of(InsertCell(cell, cells), key) == (if SameTable(cell, key) then [cell] else []) + Of(cells, key)
    decreases |cells|
  {
    var r := InsertCell(cell, cells);
    if cells == [] || AtOrBefore(cell, cells[0]) {
      assert r[1..] == cells;
    } else {
      assert r[1..] == InsertCell(cell, cells[1..]);
      InsertKeeps(cell, cells[1..], key);
      assert !(SameTable(cell, key) && SameTable(cells[0], key));
    }
  }

  /** Sorting keeps each table's cells in the order they were printed. */
  lemma {:induction false} SortKeeps(cells: seq<CellMark>, key: CellMark)
    ensures Of(SortCells(cells), key) == Of(cells, key)
    decreases |cells|
  {
    if cells != [] {
      SortKeeps(cells[1..], key);
      InsertKeeps(cells[0], SortCells(cells[1..]), key);
    }
  }

  function Joined(rows: seq<seq<CellMark>>): seq<CellMark> {
    if rows == [] then [] else Joined(rows[..|rows| - 1]) + rows[|rows| - 1]
  }

  /** `cells` as rows: each the cells of one line, and of another line than the row before. */
  ghost predicate Chunked(cells: seq<CellMark>, rows: seq<seq<CellMark>>) {
    && Joined(rows) == cells && NoneEmpty(rows)
    && (forall r, i :: 0 <= r < |rows| && 0 <= i < |rows[r]| ==> rows[r][i].line == rows[r][0].line)
    && (forall r, s :: 0 <= r < s < |rows| && s == r + 1 ==> rows[r][0].line != rows[s][0].line)
  }

  /** The rows of a table's cells. */
  method Rows(cells: seq<CellMark>) returns (rows: seq<seq<CellMark>>)
    ensures Chunked(cells, rows)
  {
    rows := [];
    var at := 0;
    while at < |cells|
      invariant at <= |cells| && Chunked(cells[..at], rows)
      invariant rows != [] && at < |cells| ==> rows[|rows| - 1][0].line != cells[at].line
    {
      var to := at + 1;
      while to < |cells| && cells[to].line == cells[at].line
        invariant at < to <= |cells| && forall i :: at <= i < to ==> cells[i].line == cells[at].line
      {
        to := to + 1;
      }
      RowAdded(cells, at, to, rows);
      rows := rows + [cells[at..to]];
      at := to;
    }
    assert cells[..at] == cells;
  }

  lemma {:induction false} RowAdded(cells: seq<CellMark>, at: nat, to: nat, rows: seq<seq<CellMark>>)
    requires at < to <= |cells| && Chunked(cells[..at], rows)
    requires forall i :: at <= i < to ==> cells[i].line == cells[at].line
    requires rows != [] ==> rows[|rows| - 1][0].line != cells[at].line
    ensures Chunked(cells[..to], rows + [cells[at..to]])
  {
    var row := cells[at..to];
    var more := rows + [row];
    assert more[..|rows|] == rows && cells[..to] == cells[..at] + row;
    assert forall i :: 0 <= i < |row| ==> row[i] == cells[at + i] && row[i].line == cells[at].line;
    assert Joined(more) == cells[..to];
  }

  // ----- the spaces inserted

  function InsertPad(pad: P.Pad, pads: seq<P.Pad>): (r: seq<P.Pad>)
    requires P.Sorted(pads)
    ensures P.Sorted(r) && forall p :: p in r <==> p == pad || p in pads
  {
    if pads == [] || pad.offset <= pads[0].offset then [pad] + pads
    else
      assert pads == [pads[0]] + pads[1..];
      var rest := InsertPad(pad, pads[1..]);
      var r := [pads[0]] + rest;
      assert forall j :: 0 < j < |r| ==> r[j] in rest;
      r
  }

  /** The pads that insert anything, in the order of where they go. */
  function SortPads(pads: seq<P.Pad>): (r: seq<P.Pad>)
    ensures P.Sorted(r) && forall p :: p in r <==> p in pads && p.count > 0
  {
    if pads == [] then []
    else
      assert pads == [pads[0]] + pads[1..];
      var rest := SortPads(pads[1..]);
      if pads[0].count > 0 then InsertPad(pads[0], rest) else rest
  }

  lemma {:induction false} InsertUpto(pad: P.Pad, pads: seq<P.Pad>, offset: nat)
    requires P.Sorted(pads)
    ensures P.Upto(InsertPad(pad, pads), offset) == (if pad.offset <= offset then pad.count else 0) + P.Upto(pads, offset)
    decreases |pads|
  {
    var r := InsertPad(pad, pads);
    if pads == [] || pad.offset <= pads[0].offset {
      assert r[1..] == pads;
    } else {
      assert r[1..] == InsertPad(pad, pads[1..]);
      InsertUpto(pad, pads[1..], offset);
    }
  }

  /** Sorting them moves nothing elsewhere. */
  lemma {:induction false} SortUpto(pads: seq<P.Pad>, offset: nat)
    ensures P.Upto(SortPads(pads), offset) == P.Upto(pads, offset)
    decreases |pads|
  {
    if pads != [] {
      SortUpto(pads[1..], offset);
      InsertUpto(pads[0], SortPads(pads[1..]), offset);
    }
  }

  // ----- the pass

  function CommentOffsets(cells: seq<CellMark>): (offsets: seq<nat>)
    ensures forall o :: o in offsets <==> exists c :: c in cells && c.index == C.COMMENT && c.offset == o
  {
    if cells == [] then []
    else
      assert cells == [cells[0]] + cells[1..];
      var rest := CommentOffsets(cells[1..]);
      if cells[0].index == C.COMMENT then InsertOffset(cells[0].offset, rest) else rest
  }

  function InsertOffset(offset: nat, offsets: seq<nat>): (r: seq<nat>)
    ensures forall o :: o in r <==> o == offset || o in offsets
  {
    if offsets == [] || offset <= offsets[0] then [offset] + offsets
    else
      assert offsets == [offsets[0]] + offsets[1..];
      [offsets[0]] + InsertOffset(offset, offsets[1..])
  }

  /** A table padded: its rows, their paddings, how many cells of each took theirs, and where the spaces go. */
  datatype Done = Done(rows: seq<seq<CellMark>>, rowPads: seq<seq<nat>>, kept: seq<nat>, cuts: seq<nat>, inserts: seq<P.Pad>)

  function AllInserts(tables: seq<Done>): seq<P.Pad> {
    if tables == [] then [] else AllInserts(tables[..|tables| - 1]) + tables[|tables| - 1].inserts
  }

  function AllCells(tables: seq<Done>): seq<CellMark> {
    if tables == [] then [] else AllCells(tables[..|tables| - 1]) + Joined(tables[|tables| - 1].rows)
  }

  /** The cells are of one table, and it is lined up. */
  ghost predicate IsTable(page: Page, t: Done) {
    && Tabled(page, t.rows, t.rowPads, t.kept, t.cuts, t.inserts)
    && t.rows != [] && Chunked(Joined(t.rows), t.rows)
    && forall a, b :: a in Joined(t.rows) && b in Joined(t.rows) ==> SameTable(a, b)
  }

  /** Lined up tables, each the cells of another table than the one before. */
  ghost predicate AreTables(page: Page, tables: seq<Done>) {
    && (forall t :: 0 <= t < |tables| ==> IsTable(page, tables[t]))
    && (forall s, t :: 0 <= s < t < |tables| && t == s + 1 ==> OtherTable(tables[s], tables[t]))
  }

  ghost predicate OtherTable(s: Done, t: Done) {
    forall a, b :: a in Joined(s.rows) && b in Joined(t.rows) ==> !SameTable(a, b)
  }

  predicate InText(out: string, cells: seq<CellMark>, continuations: seq<Continuation>) {
    && (forall c :: c in cells ==> c.offset <= |out|)
    && (forall it :: it in continuations ==> it.offset <= |out|)
  }

  function PageOf(out: string, cells: seq<CellMark>, continuations: seq<Continuation>, width: nat, maxPad: nat): Page {
    Page(out, continuations, CommentOffsets(Retained(out, cells)), width, maxPad)
  }

  /** Where the cells of the table that starts at `from` end. */
  method TableEnd(cells: seq<CellMark>, from: nat) returns (to: nat)
    requires from < |cells|
    ensures from < to <= |cells| && forall i :: from <= i < to ==> SameTable(cells[i], cells[from])
    ensures to < |cells| ==> !SameTable(cells[to], cells[from])
  {
    to := from + 1;
    while to < |cells| && SameTable(cells[to], cells[from])
      invariant from < to <= |cells| && forall i :: from <= i < to ==> SameTable(cells[i], cells[from])
    {
      to := to + 1;
    }
  }

  /** `padded` is `out` with the spaces in it that line `tables` up, which are those of its cells. */
  ghost predicate PaddedBy(out: string, cells: seq<CellMark>, continuations: seq<Continuation>, width: nat, maxPad: nat,
                           tables: seq<Done>, padded: string) {
    && AreTables(PageOf(out, cells, continuations, width, maxPad), tables)
    && AllCells(tables) == SortCells(Retained(out, cells))
    && P.Fitting(SortPads(AllInserts(tables)), out, 0) && padded == P.Inserted(out, SortPads(AllInserts(tables)), 0)
  }

  /** `out` with its cells padded to line up: spaces inserted where its tables want them, and nothing else. */
  method Align(out: string, cells: seq<CellMark>, continuations: seq<Continuation>, width: nat, maxPad: nat)
    returns (padded: string)
    requires InText(out, cells, continuations)
    ensures exists tables :: PaddedBy(out, cells, continuations, width, maxPad, tables, padded)
  {
    hide *;
    ghost var tables: seq<Done>;
    var sorted := SortCells(Retained(out, cells));
    var page := PageOf(out, cells, continuations, width, maxPad);
    PageIs(out, cells, continuations, width, maxPad);
    var inserts: seq<P.Pad> := [];
    tables := [];
    var at := 0;
    NoTables(page);
    while at < |sorted|
      invariant at <= |sorted| && AreTables(page, tables)
      invariant AllCells(tables) == sorted[..at] && AllInserts(tables) == inserts
      invariant 0 < at < |sorted| ==> !SameTable(sorted[at - 1], sorted[at])
    {
      var to := TableEnd(sorted, at);
      var rows := Rows(sorted[at..to]);
      ghost var rowPads, kept, cuts;
      var more;
      RowsNonEmpty(sorted[at..to], rows);
      more, rowPads, kept, cuts := Alignment.Table(page, rows);
      TableDone(page, sorted, at, to, tables, Done(rows, rowPads, kept, cuts, more));
      tables, inserts := tables + [Done(rows, rowPads, kept, cuts, more)], inserts + more;
      Switched(sorted, at, to);
      at := to;
    }
    assert sorted[..at] == sorted;
    WithinText(out, cells, continuations, page, tables);
    padded := P.Inserted(out, SortPads(inserts), 0);
    IsPaddedBy(out, cells, continuations, width, maxPad, tables, padded);
  }

  lemma IsPaddedBy(out: string, cells: seq<CellMark>, continuations: seq<Continuation>, width: nat, maxPad: nat,
                   tables: seq<Done>, padded: string)
    requires AreTables(PageOf(out, cells, continuations, width, maxPad), tables)
    requires AllCells(tables) == SortCells(Retained(out, cells))
    requires P.Fitting(SortPads(AllInserts(tables)), out, 0) && padded == P.Inserted(out, SortPads(AllInserts(tables)), 0)
    ensures PaddedBy(out, cells, continuations, width, maxPad, tables, padded)
  {
  }

  lemma PageIs(out: string, cells: seq<CellMark>, continuations: seq<Continuation>, width: nat, maxPad: nat)
    ensures var page := PageOf(out, cells, continuations, width, maxPad); page.out == out && page.continuations == continuations
  {
  }

  lemma NoTables(page: Page)
    ensures AreTables(page, []) && AllCells([]) == [] && AllInserts([]) == []
  {
  }

  lemma RowsNonEmpty(cells: seq<CellMark>, rows: seq<seq<CellMark>>)
    requires Chunked(cells, rows)
    ensures NoneEmpty(rows)
  {
  }

  lemma {:induction false} TableDone(page: Page, sorted: seq<CellMark>, at: nat, to: nat, tables: seq<Done>, t: Done)
    requires at < to <= |sorted| && AreTables(page, tables) && AllCells(tables) == sorted[..at]
    requires forall i :: at <= i < to ==> SameTable(sorted[i], sorted[at])
    requires Chunked(sorted[at..to], t.rows) && Tabled(page, t.rows, t.rowPads, t.kept, t.cuts, t.inserts)
    requires at > 0 ==> !SameTable(sorted[at - 1], sorted[at])
    ensures AreTables(page, tables + [t]) && AllCells(tables + [t]) == sorted[..to]
    ensures AllInserts(tables + [t]) == AllInserts(tables) + t.inserts
  {
    hide Tabled;
    var more := tables + [t];
    assert more[..|tables|] == tables;
    assert sorted[..to] == sorted[..at] + sorted[at..to];
    assert t.rows != [];
    assert forall a :: a in sorted[at..to] ==> SameTable(a, sorted[at]);
    assert IsTable(page, t);
    if tables != [] {
      LastCell(page, tables, sorted[..at]);
      assert sorted[..at][at - 1] == sorted[at - 1];
      assert OtherTable(tables[|tables| - 1], t);
    }
  }

  lemma Switched(cells: seq<CellMark>, at: nat, to: nat)
    requires at < to <= |cells| && forall i :: at <= i < to ==> SameTable(cells[i], cells[at])
    requires to < |cells| ==> !SameTable(cells[to], cells[at])
    ensures to < |cells| ==> !SameTable(cells[to - 1], cells[to])
  {
    assert SameTable(cells[to - 1], cells[at]);
  }

  /** The last cell is of the last table. */
  lemma LastCell(page: Page, tables: seq<Done>, cells: seq<CellMark>)
    requires AreTables(page, tables) && tables != [] && AllCells(tables) == cells
    ensures var last := tables[|tables| - 1];
      cells != [] && forall a :: a in Joined(last.rows) ==> SameTable(a, cells[|cells| - 1])
  {
    hide Tabled;
    var t := tables[|tables| - 1];
    assert IsTable(page, t);
    var n := |t.rows| - 1;
    assert Joined(t.rows) == Joined(t.rows[..n]) + t.rows[n] && t.rows[n] != [];
    assert cells[|cells| - 1] in Joined(t.rows);
  }

  // ----- what it inserts

  /** Every pad goes before a cell's end or a line placed by an earlier one. */
  predicate PadFrom(page: Page, cells: seq<CellMark>, pad: P.Pad) {
    (exists c :: c in cells && c.offset == pad.offset) || (exists it :: it in page.continuations && it.offset == pad.offset)
  }

  lemma {:induction false} RowPadFrom(page: Page, rows: seq<seq<CellMark>>, rowPads: seq<seq<nat>>, kept: seq<nat>, count: nat)
    requires C.Fit(rows, rowPads) && |kept| == |rows| && count <= |rows|
    requires forall r :: 0 <= r < |rows| ==> rows[r] != [] && kept[r] <= |rows[r]|
    ensures forall p :: p in Inserts(page, rows, rowPads, kept, count) ==> PadFrom(page, Joined(rows[..count]), p)
  {
    if count > 0 {
      RowPadFrom(page, rows, rowPads, kept, count - 1);
      assert rows[..count][..count - 1] == rows[..count - 1] && rows[..count][count - 1] == rows[count - 1];
      var row := rows[count - 1];
      var inserts := RowInserts(page, row, rowPads[count - 1], kept[count - 1]);
      var later := Later(page, row);
      forall p | p in inserts ensures PadFrom(page, Joined(rows[..count]), p) {
        var i :| 0 <= i < |inserts| && inserts[i] == p;
        if i < |later| {
          assert later[i] in page.continuations && later[i].offset == p.offset;
        } else {
          assert row[i - |later|] in row && row[i - |later|].offset == p.offset;
        }
      }
    }
  }

  lemma {:induction false} PadsFrom(page: Page, tables: seq<Done>)
    requires AreTables(page, tables)
    ensures forall p :: p in AllInserts(tables) ==> PadFrom(page, AllCells(tables), p)
    decreases |tables|
  {
    hide Tabled, Chunked, Inserts, Joined;
    if tables != [] {
      var n := |tables| - 1;
      var t := tables[n];
      PadsFrom(page, tables[..n]);
      assert IsTable(page, t);
      TableInserts(page, t);
      RowPadFrom(page, t.rows, t.rowPads, t.kept, |t.rows|);
      assert t.rows[..|t.rows|] == t.rows;
    }
  }

  lemma TableInserts(page: Page, t: Done)
    requires Tabled(page, t.rows, t.rowPads, t.kept, t.cuts, t.inserts)
    ensures C.Fit(t.rows, t.rowPads) && |t.kept| == |t.rows|
    ensures forall r :: 0 <= r < |t.rows| ==> t.rows[r] != [] && t.kept[r] <= |t.rows[r]|
    ensures t.inserts == Inserts(page, t.rows, t.rowPads, t.kept, |t.rows|)
  {
    hide Alignment.Group, CodeFits, CommentFits, Inserts;
    TabledShape(page, t.rows, t.rowPads, t.kept, t.cuts, t.inserts);
  }

  lemma {:induction false} WithinText(out: string, cells: seq<CellMark>, continuations: seq<Continuation>, page: Page, tables: seq<Done>)
    requires InText(out, cells, continuations) && AreTables(page, tables) && page.continuations == continuations
    requires AllCells(tables) == SortCells(Retained(out, cells))
    ensures P.Fitting(SortPads(AllInserts(tables)), out, 0) && P.Sorted(SortPads(AllInserts(tables)))
  {
    hide IsTable;
    PadsFrom(page, tables);
    var pads := SortPads(AllInserts(tables));
    forall i | 0 <= i < |pads| ensures pads[i].offset <= |out| {
      assert pads[i] in pads && PadFrom(page, AllCells(tables), pads[i]);
    }
  }

  /** Nothing is inserted before a line end, where no line placed by an earlier one starts with one. */
  lemma {:induction false} NoneBeforeLineEnds(out: string, cells: seq<CellMark>, continuations: seq<Continuation>, page: Page, tables: seq<Done>)
    requires AreTables(page, tables) && page.continuations == continuations
    requires AllCells(tables) == SortCells(Retained(out, cells))
    requires forall c :: c in cells ==> c.offset < |out|
    requires forall it :: it in continuations ==> it.offset < |out| && !IsNewline(out[it.offset])
    ensures P.OffLineEnds(SortPads(AllInserts(tables)), out)
  {
    hide IsTable;
    PadsFrom(page, tables);
    var pads := SortPads(AllInserts(tables));
    forall i | 0 <= i < |pads| ensures pads[i].offset < |out| && !IsNewline(out[pads[i].offset]) {
      assert pads[i] in pads && PadFrom(page, AllCells(tables), pads[i]);
    }
  }
}
