/**
 * Printing a document: laid out, ended in one line end, and its tables aligned. Only
 * whitespace is added.
 */
module Print {
  import opened Wrappers
  import opened Layout
  import opened LayoutSpacing
  import LayoutPrinter
  import LayoutColumns
  import LayoutMarks
  import LineSpaces
  import LayoutItems
  import LayoutIndent
  import LayoutLays
  import AlignedText
  import A = Alignment
  import Tables
  import P = Padding

  /**
   * `out` is the texts in order with only blanks between them: no line ends in a space, no
   * two empty lines are next to each other, and one line end ends it unless it is empty.
   */
  ghost predicate IsPrinted(out: string, texts: seq<string>, newline: string) {
    && (exists starts :: Located(out, texts, starts))
    && NoTrailingSpace(out) && NoDoubleBlank(out, newline)
    && (out == "" || EndsOnce(out, newline))
    && (texts == [] ==> out == "")
  }

  predicate EndsOnce(out: string, newline: string) {
    && |newline| < |out| && out[|out| - |newline|..] == newline
    && !IsBlank(out[|out| - |newline| - 1])
  }

  // ----- the line end after the last text

  lemma {:induction false} Ended(p: State, texts: seq<string>, starts: seq<nat>)
    requires LayoutSpacing.Spaced(p, texts, starts) && p.out != ""
    ensures var out := p.out + p.knobs.newline;
      Located(out, texts, starts) && NoTrailingSpace(out) && NoDoubleBlank(out, p.knobs.newline) && EndsOnce(out, p.knobs.newline)
  {
    hide *;
    SpacedMeans(p, texts, starts);
    LastIsText(p.out, texts, starts);
    StillLocated(p.out, p.knobs.newline, texts, starts);
    EndedSpacing(p.out, p.knobs.newline);
  }

  lemma SpacedMeans(p: State, texts: seq<string>, starts: seq<nat>)
    requires LayoutSpacing.Spaced(p, texts, starts)
    ensures IsLineEnd(p.knobs.newline) && forall i :: 0 <= i < |texts| ==> Clean(texts[i])
    ensures Located(p.out, texts, starts) && |p.out| == EndBefore(texts, starts, |texts|)
    ensures NoTrailingSpace(p.out) && NoDoubleBlank(p.out, p.knobs.newline)
  {
    hide Located, NoTrailingSpace, NoDoubleBlank, Clean, IsLineEnd, EndBefore, Between;
  }

  /** A line end after everything leaves each text where it was. */
  lemma {:induction false} StillLocated(out: string, newline: string, texts: seq<string>, starts: seq<nat>)
    requires Located(out, texts, starts) && IsLineEnd(newline)
    ensures Located(out + newline, texts, starts)
  {
    var ended := out + newline;
    forall i | 0 <= i < |texts|
      ensures texts[i] != "" && EndBefore(texts, starts, i) <= starts[i] && Holds(ended, starts[i], texts[i])
    {
      hide Covered;
      HoldsMore(out, newline, starts[i], texts[i]);
    }
    hide Holds, EndBefore;
    forall k | 0 <= k < |ended| && !IsBlank(ended[k]) ensures Covered(texts, starts, k) {
      assert k < |out| && ended[k] == out[k];
    }
  }

  lemma {:induction false} EndedSpacing(out: string, newline: string)
    requires IsLineEnd(newline) && out != "" && !IsBlank(out[|out| - 1])
    requires NoTrailingSpace(out) && NoDoubleBlank(out, newline)
    ensures NoTrailingSpace(out + newline) && NoDoubleBlank(out + newline, newline) && EndsOnce(out + newline, newline)
  {
    var ended := out + newline;
    forall k | 0 <= k < |ended| - 1 && ended[k] == ' ' ensures !IsNewline(ended[k + 1]) {
      assert k < |out| - 1;
    }
    forall k | Holds(ended, k, newline + newline + newline) ensures Holds(out, k, newline + newline + newline) {
      HeldBefore(out, newline, k);
    }
  }

  /** Three line ends in a row are all before the last text. */
  lemma HeldBefore(out: string, newline: string, k: int)
    requires IsLineEnd(newline) && out != "" && !IsBlank(out[|out| - 1])
    requires Holds(out + newline, k, newline + newline + newline)
    ensures Holds(out, k, newline + newline + newline)
  {
    var ended := out + newline;
    LineEndsOnly(ended, newline, k);
    assert ended[|out| - 1] == out[|out| - 1];
    assert k + 3 * |newline| <= |out|;
    assert out[k..k + 3 * |newline|] == ended[k..k + 3 * |newline|];
  }

  // ----- printing

  /** Lines placed by earlier ones, in the order of those, and otherwise as printed. */
  function ByLine(continuations: seq<Continuation>): (r: seq<Continuation>)
    ensures forall it :: it in r <==> it in continuations
    ensures forall i, j :: 0 <= i < j < |r| ==> r[i].line <= r[j].line
  {
    if continuations == [] then []
    else
      assert continuations == [continuations[0]] + continuations[1..];
      Place(continuations[0], ByLine(continuations[1..]))
  }

  function Place(it: Continuation, sorted: seq<Continuation>): (r: seq<Continuation>)
    requires forall i, j :: 0 <= i < j < |sorted| ==> sorted[i].line <= sorted[j].line
    ensures forall c :: c in r <==> c == it || c in sorted
    ensures forall i, j :: 0 <= i < j < |r| ==> r[i].line <= r[j].line
  {
    if sorted == [] || it.line <= sorted[0].line then [it] + sorted
    else
      assert sorted == [sorted[0]] + sorted[1..];
      var rest := Place(it, sorted[1..]);
      var r := [sorted[0]] + rest;
      assert forall j :: 0 < j < |r| ==> r[j] in rest;
      r
  }

  const BROKEN := Command(0, None, Break, None, Parts([]))

  lemma {:induction false} Laid(doc: Doc, knobs: Knobs)
    requires CleanDoc(doc) && IsLineEnd(knobs.newline)
    ensures Printed(Layout.Run(Fresh(knobs, 0), [Inner(BROKEN, Break, doc)], 0), Texts(doc))
  {
    hide Layout.Run, CleanDoc, Texts;
    var start, command := Fresh(knobs, 0), Inner(BROKEN, Break, doc);
    NothingPrinted(start);
    OneText(command);
    RunPrints(start, [command], []);
    assert [] + Texts(doc) == Texts(doc);
  }

  lemma NothingPrinted(p: State)
    requires p.out == "" && p.cells == [] && p.continuations == [] && p.gap.NoGap? && IsLineEnd(p.knobs.newline)
    ensures Printed(p, [])
  {
    assert forall k :: !Holds(p.out, k, p.knobs.newline + p.knobs.newline + p.knobs.newline);
    assert LayoutSpacing.Spaced(p, [], []);
  }

  /** Aligning what was laid out keeps what was true of it. */
  lemma {:induction false} Aligned(p: State, texts: seq<string>, starts: seq<nat>, out: string, continuations: seq<Continuation>,
                                   tables: seq<Tables.Done>, padded: string)
    requires LayoutSpacing.Spaced(p, texts, starts) && p.out != "" && out == p.out + p.knobs.newline
    requires forall it :: it in continuations <==> it in p.continuations
    requires Tables.PaddedBy(out, p.cells, continuations, p.knobs.width, p.knobs.maxPad, tables, padded)
    ensures IsPrinted(padded, texts, p.knobs.newline)
  {
    hide *;
    PaddedMeans(p, out, continuations, tables, padded);
    var page := Tables.PageOf(out, p.cells, continuations, p.knobs.width, p.knobs.maxPad);
    var pads := Tables.SortPads(Tables.AllInserts(tables));
    Tables.PageIs(out, p.cells, continuations, p.knobs.width, p.knobs.maxPad);
    Ended(p, texts, starts);
    Bounds(p, texts, starts, out, continuations);
    Tables.NoneBeforeLineEnds(out, p.cells, continuations, page, tables);
    OffTexts(p, texts, starts, out, continuations, page, tables);
    P.Widens(out, pads, 0);
    P.TextsStay(out, pads, padded, texts, starts);
    P.StillNoTrailing(out, pads, padded);
    P.StillNoDouble(out, pads, padded, p.knobs.newline);
    StillEnds(p.out, p.knobs.newline, pads, padded);
    AllPrinted(padded, texts, P.MovedAll(pads, starts), p.knobs.newline);
  }

  lemma PaddedMeans(p: State, out: string, continuations: seq<Continuation>, tables: seq<Tables.Done>, padded: string)
    requires Tables.PaddedBy(out, p.cells, continuations, p.knobs.width, p.knobs.maxPad, tables, padded)
    ensures Tables.AreTables(Tables.PageOf(out, p.cells, continuations, p.knobs.width, p.knobs.maxPad), tables)
    ensures Tables.AllCells(tables) == Tables.SortCells(Tables.Retained(out, p.cells))
    ensures var pads := Tables.SortPads(Tables.AllInserts(tables));
      P.Fitting(pads, out, 0) && padded == P.Inserted(out, pads, 0)
  {
  }

  lemma AllPrinted(out: string, texts: seq<string>, starts: seq<nat>, newline: string)
    requires Located(out, texts, starts) && NoTrailingSpace(out) && NoDoubleBlank(out, newline) && EndsOnce(out, newline) && texts != []
    ensures IsPrinted(out, texts, newline)
  {
  }

  lemma Bounds(p: State, texts: seq<string>, starts: seq<nat>, out: string, continuations: seq<Continuation>)
    requires LayoutSpacing.Spaced(p, texts, starts) && p.out != "" && out == p.out + p.knobs.newline
    requires forall it :: it in continuations <==> it in p.continuations
    ensures forall c :: c in p.cells ==> c.offset < |out|
    ensures forall it :: it in continuations ==> it.offset < |out| && !IsNewline(out[it.offset])
    ensures Tables.InText(out, p.cells, continuations)
    ensures IsLineEnd(p.knobs.newline) && !IsBlank(p.out[|p.out| - 1]) && texts != []
  {
    LastIsText(p.out, texts, starts);
    hide Located, NoTrailingSpace, NoDoubleBlank, Between;
  }

  lemma {:induction false} OffTexts(p: State, texts: seq<string>, starts: seq<nat>, out: string, continuations: seq<Continuation>,
                                    page: A.Page, tables: seq<Tables.Done>)
    requires LayoutSpacing.Spaced(p, texts, starts)
    requires page.continuations == continuations && forall it :: it in continuations <==> it in p.continuations
    requires Tables.AreTables(page, tables) && Tables.AllCells(tables) == Tables.SortCells(Tables.Retained(out, p.cells))
    ensures P.OffTexts(Tables.SortPads(Tables.AllInserts(tables)), texts, starts)
  {
    hide Tables.IsTable, Located, NoTrailingSpace, NoDoubleBlank, Between;
    Tables.PadsFrom(page, tables);
    var pads := Tables.SortPads(Tables.AllInserts(tables));
    forall i | 0 <= i < |pads| ensures Between(texts, starts, pads[i].offset) {
      assert pads[i] in pads && Tables.PadFrom(page, Tables.AllCells(tables), pads[i]);
    }
  }

  /** The last line end still is, right after the last text. */
  lemma {:induction false} StillEnds(out: string, newline: string, pads: seq<P.Pad>, padded: string)
    requires IsLineEnd(newline) && out != "" && !IsBlank(out[|out| - 1])
    requires P.Widened(out + newline, pads, 0, padded) && P.OffLineEnds(pads, out + newline)
    ensures EndsOnce(padded, newline)
  {
    var ended := out + newline;
    var last := |out| - 1;
    var at := P.Moved(pads, last);
    LastMoves(out, newline, pads, |newline|);
    PadsEnd(out, newline, pads);
    assert |padded| == at + 1 + |newline|;
    assert P.At(padded, P.Moved(pads, last), ended[last]);
    var end := padded[at + 1..];
    forall j | 0 <= j < |newline| ensures end[j] == newline[j] {
      LastMoves(out, newline, pads, j + 1);
      assert P.At(padded, P.Moved(pads, last + 1 + j), ended[last + 1 + j]);
    }
    assert padded[|padded| - |newline|..] == end == newline;
  }

  /** The last line end moves as the character before it does. */
  lemma LastMoves(out: string, newline: string, pads: seq<P.Pad>, j: nat)
    requires IsLineEnd(newline) && out != "" && j <= |newline| && P.OffLineEnds(pads, out + newline)
    ensures P.Moved(pads, |out| - 1 + j) == P.Moved(pads, |out| - 1) + j
  {
    NoneAtEnd(out, newline, pads);
    P.SameUpto(pads, |out| - 1, |out| - 1 + j);
  }

  lemma PadsEnd(out: string, newline: string, pads: seq<P.Pad>)
    requires IsLineEnd(newline) && out != "" && P.OffLineEnds(pads, out + newline)
    ensures P.Upto(pads, |out + newline|) == P.Upto(pads, |out| - 1)
  {
    NoneAtEnd(out, newline, pads);
    P.SameUpto(pads, |out| - 1, |out + newline|);
  }

  lemma NoneAtEnd(out: string, newline: string, pads: seq<P.Pad>)
    requires IsLineEnd(newline) && out != "" && P.OffLineEnds(pads, out + newline)
    ensures forall i :: 0 <= i < |pads| && pads[i].count > 0 ==> pads[i].offset < |out|
  {
    var ended := out + newline;
    assert forall k :: |out| <= k < |ended| ==> IsNewline(ended[k]);
  }

  /** A document without text prints nothing, whatever cells it has. */
  lemma {:induction false} NothingAligned(p: State, texts: seq<string>, starts: seq<nat>, continuations: seq<Continuation>,
                                          tables: seq<Tables.Done>, padded: string)
    requires LayoutSpacing.Spaced(p, texts, starts) && p.out == ""
    requires forall it :: it in continuations <==> it in p.continuations
    requires Tables.PaddedBy("", p.cells, continuations, p.knobs.width, p.knobs.maxPad, tables, padded)
    ensures IsPrinted(padded, texts, p.knobs.newline)
  {
    hide Tables.AreTables, Tables.PageOf;
    LastIsText(p.out, texts, starts);
    FirstIn(continuations);
    var page := Tables.PageOf("", p.cells, continuations, p.knobs.width, p.knobs.maxPad);
    PageBare(p.cells, continuations, p.knobs.width, p.knobs.maxPad);
    LoneTables(page, tables, p.line);
    var pads := Tables.SortPads(Tables.AllInserts(tables));
    FirstIn(pads);
    assert Located("", [], []);
    assert forall k :: !Holds("", k, p.knobs.newline + p.knobs.newline + p.knobs.newline);
  }

  lemma FirstIn<T>(s: seq<T>)
    ensures s != [] ==> s[0] in s
  {
  }

  lemma PageBare(cells: seq<CellMark>, continuations: seq<Continuation>, width: nat, maxPad: nat)
    ensures Tables.PageOf("", cells, continuations, width, maxPad).continuations == continuations
  {
  }

  /** Tables whose cells are all on one line insert nothing. */
  lemma {:induction false} LoneTables(page: A.Page, tables: seq<Tables.Done>, line: nat)
    requires Tables.AreTables(page, tables) && page.continuations == []
    requires forall c :: c in Tables.AllCells(tables) ==> c.line == line
    ensures forall p :: p in Tables.AllInserts(tables) ==> p.count == 0
    decreases |tables|
  {
    hide A.Tabled;
    if tables != [] {
      var n := |tables| - 1;
      var t := tables[n];
      LoneTables(page, tables[..n], line);
      assert Tables.IsTable(page, t);
      OneLine(t.rows, line);
      A.TabledIs(page, t.rows, t.rowPads, t.kept, t.cuts, t.inserts);
      A.LoneTable(page, t.rows, t.rowPads, t.kept, t.cuts, t.inserts);
    }
  }

  lemma {:induction false} OneLine(rows: seq<seq<CellMark>>, line: nat)
    requires Tables.Chunked(Tables.Joined(rows), rows) && forall c :: c in Tables.Joined(rows) ==> c.line == line
    ensures |rows| <= 1
  {
    if |rows| > 1 {
      TwoLines(rows);
    }
  }

  lemma TwoLines(rows: seq<seq<CellMark>>)
    requires Tables.Chunked(Tables.Joined(rows), rows) && |rows| > 1
    ensures exists a, b :: a in Tables.Joined(rows) && b in Tables.Joined(rows) && a.line != b.line
  {
    InJoined(rows, 0);
    InJoined(rows, 1);
    assert rows[0][0] in rows[0] && rows[1][0] in rows[1] && rows[0][0].line != rows[1][0].line;
  }

  lemma {:induction false} InJoined(rows: seq<seq<CellMark>>, r: nat)
    requires r < |rows|
    ensures forall c :: c in rows[r] ==> c in Tables.Joined(rows)
    decreases |rows|
  {
    if r < |rows| - 1 {
      InJoined(rows[..|rows| - 1], r);
    }
  }

  lemma Starting(knobs: Knobs)
    ensures Fresh(knobs, 0).(indent := 0, trial := false) == Fresh(knobs, 0) && Fresh(knobs, 0).knobs == knobs
  {
  }

  lemma StateIs(printer: LayoutPrinter.Printer)
    ensures var p := printer.State();
      p.knobs == printer.knobs && p.out == printer.out && p.cells == printer.cells && p.continuations == printer.continuations
  {
  }

  lemma HasStarts(p: State, texts: seq<string>) returns (starts: seq<nat>)
    requires Printed(p, texts)
    ensures LayoutSpacing.Spaced(p, texts, starts)
  {
    hide LayoutSpacing.Spaced;
    starts :| LayoutSpacing.Spaced(p, texts, starts);
  }

  lemma InTextEither(p: State, texts: seq<string>, starts: seq<nat>, out: string, continuations: seq<Continuation>)
    requires LayoutSpacing.Spaced(p, texts, starts) && out == if p.out == "" then "" else p.out + p.knobs.newline
    requires forall it :: it in continuations <==> it in p.continuations
    ensures Tables.InText(out, p.cells, continuations)
  {
    hide Located, NoTrailingSpace, NoDoubleBlank, Between;
  }

  // ----- what is aligned

  /** The printer once it has laid `doc` out. */
  function Ran(doc: Doc, knobs: Knobs): State {
    Layout.Run(Fresh(knobs, 0), [Inner(BROKEN, Break, doc)], 0)
  }

  function EndedText(p: State): string {
    if p.out == "" then "" else p.out + p.knobs.newline
  }

  /** What was laid out, with its tables padded as `tables` says. */
  function AlignedBy(p: State, tables: seq<Tables.Done>, padded: string): AlignedText.Aligned {
    AlignedText.Aligned(EndedText(p), p.cells, ByLine(p.continuations), p.knobs.width, p.knobs.maxPad, tables, padded)
  }

  ghost predicate IsPaddedText(p: State, tables: seq<Tables.Done>, padded: string) {
    Tables.PaddedBy(EndedText(p), p.cells, ByLine(p.continuations), p.knobs.width, p.knobs.maxPad, tables, padded)
  }

  /** The text of `doc` as laid out, with its tables aligned. */
  ghost predicate IsAlignedText(doc: Doc, knobs: Knobs, padded: string) {
    exists tables :: IsPaddedText(Ran(doc, knobs), tables, padded)
  }

  /**
   * `out` is the layout of `doc`: each of its words at the line and column that the items
   * before it say, with only blanks between; its cells are where those end them, and its
   * lines placed by earlier text as they say.
   */
  ghost predicate IsLaidOut(doc: Doc, knobs: Knobs, out: string, cells: seq<CellMark>, continuations: seq<Continuation>) {
    var items := LayoutLays.LayoutOf(knobs, doc);
    exists starts ::
      && Located(out, LayoutItems.Words(items), starts) && LayoutIndent.StandAt(out, items, knobs.indent, starts)
      && cells == LayoutItems.CellsOf(items, knobs.indent, starts)
      && continuations == LayoutItems.PlacedOf(items, knobs.indent, starts)
  }

  lemma {:induction false} RanIsLaidOut(doc: Doc, knobs: Knobs)
    requires CleanDoc(doc) && IsLineEnd(knobs.newline)
    ensures IsLaidOut(doc, knobs, EndedText(Ran(doc, knobs)), Ran(doc, knobs).cells, Ran(doc, knobs).continuations)
  {
    hide *;
    var p, command := Fresh(knobs, 0), Inner(BROKEN, Break, doc);
    FreshKnobs(knobs);
    CommandIs(doc);
    RanIs(doc, knobs);
    var q, starts := LayoutLays.DocLays(p, command, doc);
    var items := LayoutLays.LayoutOf(knobs, doc);
    LayoutIndent.LaidMeans(q, items, starts, true);
    LayoutIndent.WrittenMeans(q, items, starts);
    EndedLaid(q, items, starts);
    IsLaid(doc, knobs, q, starts);
  }

  lemma FreshKnobs(knobs: Knobs)
    ensures Fresh(knobs, 0).knobs == knobs
  {
  }

  lemma CommandIs(doc: Doc)
    ensures Inner(BROKEN, Break, doc) == Command(0, None, Break, None, One(doc))
  {
  }

  lemma {:induction false} EndedLaid(p: State, items: seq<LayoutItems.Item>, starts: seq<nat>)
    requires LayoutSpacing.Spaced(p, LayoutItems.Words(items), starts) && LayoutIndent.StandAt(p.out, items, p.knobs.indent, starts)
    ensures Located(EndedText(p), LayoutItems.Words(items), starts)
    ensures LayoutIndent.StandAt(EndedText(p), items, p.knobs.indent, starts)
  {
    hide LayoutItems.Words, LayoutIndent.StandAt, NoTrailingSpace, NoDoubleBlank, Between, Located;
    if p.out != "" {
      StillLocated(p.out, p.knobs.newline, LayoutItems.Words(items), starts);
      LayoutIndent.StandMore(p.out, p.knobs.newline, items, p.knobs.indent, starts, []);
      assert starts + [] == starts;
    }
  }

  lemma IsLaid(doc: Doc, knobs: Knobs, p: State, starts: seq<nat>)
    requires p.knobs == knobs
    requires var items := LayoutLays.LayoutOf(knobs, doc);
      && Located(EndedText(p), LayoutItems.Words(items), starts) && LayoutIndent.StandAt(EndedText(p), items, knobs.indent, starts)
      && p.cells == LayoutItems.CellsOf(items, knobs.indent, starts)
      && p.continuations == LayoutItems.PlacedOf(items, knobs.indent, starts)
    ensures IsLaidOut(doc, knobs, EndedText(p), p.cells, p.continuations)
  {
    hide LayoutLays.LayoutOf, Located, LayoutIndent.StandAt, LayoutItems.CellsOf, LayoutItems.PlacedOf, EndedText;
  }

  lemma {:induction false} StillPlacedOnce(it: Continuation, sorted: seq<Continuation>)
    requires forall i, j :: 0 <= i < j < |sorted| ==> sorted[i].line <= sorted[j].line
    requires LayoutMarks.NonePlacedTwice(sorted) && forall c :: c in sorted ==> c.offset != it.offset
    ensures LayoutMarks.NonePlacedTwice(Place(it, sorted))
    decreases |sorted|
  {
    if sorted != [] && it.line > sorted[0].line {
      assert forall i :: 0 <= i < |sorted[1..]| ==> sorted[1..][i] == sorted[i + 1];
      StillPlacedOnce(it, sorted[1..]);
      var rest := Place(it, sorted[1..]);
      forall j | 0 <= j < |rest| ensures rest[j].offset != sorted[0].offset {
        assert rest[j] in rest && (rest[j] == it || rest[j] in sorted[1..]);
      }
      assert Place(it, sorted) == [sorted[0]] + rest;
    } else {
      forall j | 0 <= j < |sorted| ensures sorted[j].offset != it.offset {
        assert sorted[j] in sorted;
      }
      assert Place(it, sorted) == [it] + sorted;
    }
  }

  lemma {:induction false} ByLineOnce(continuations: seq<Continuation>)
    requires LayoutMarks.NonePlacedTwice(continuations)
    ensures LayoutMarks.NonePlacedTwice(ByLine(continuations))
  {
    if continuations != [] {
      assert forall i :: 0 <= i < |continuations[1..]| ==> continuations[1..][i] == continuations[i + 1];
      ByLineOnce(continuations[1..]);
      StillPlacedOnce(continuations[0], ByLine(continuations[1..]));
    }
  }

  /** What the printer notes is so of its text, once that is ended. */
  lemma {:induction false} EndNoted(p: State)
    requires LayoutColumns.Tracked(p) && LayoutMarks.Marked(p) && IsLineEnd(p.knobs.newline) && p.out != ""
    ensures LineSpaces.Noted(p.out + p.knobs.newline, p.cells, ByLine(p.continuations))
    ensures forall it :: it in p.continuations ==>
      LayoutMarks.Unplaced(p.out + p.knobs.newline, ByLine(p.continuations), it.line)
  {
    hide LayoutColumns.ColumnAt, LayoutColumns.LineAt, LayoutMarks.NonePlacedTwice, LayoutMarks.WholeEnds, ByLine;
    var out := p.out + p.knobs.newline;
    ByLineOnce(p.continuations);
    LayoutMarks.WholeMore(p.out, p.knobs.newline, 1, "");
    OneEnd(p.out, p.knobs.newline);
    forall c | c in p.cells ensures c.offset < |out| && LayoutColumns.Stands(out, c.offset, c.column, c.line) {
      LayoutColumns.StandsMore(p.out, p.knobs.newline, c.offset);
    }
    forall it | it in p.continuations
      ensures it.offset < |out| && LayoutColumns.ColumnAt(out, it.offset) == 0
      ensures LayoutColumns.LineAt(out, it.offset) == LayoutColumns.LineAt(p.out, it.offset)
    {
      LayoutColumns.StandsMore(p.out, p.knobs.newline, it.offset);
    }
    forall it | it in p.continuations ensures LayoutMarks.Unplaced(out, ByLine(p.continuations), it.line) {
      assert LayoutMarks.Free(p, Some(Anchor(it.line, it.start)));
    }
  }

  lemma OneEnd(out: string, newline: string)
    ensures out + Repeated(newline, 1) + "" == out + newline
  {
    assert Repeated(newline, 1) == newline + Repeated(newline, 0) == newline;
  }

  lemma {:induction false} RanNotes(doc: Doc, knobs: Knobs)
    requires CleanDoc(doc) && IsLineEnd(knobs.newline)
    ensures LayoutColumns.Tracked(Ran(doc, knobs)) && LayoutMarks.Marked(Ran(doc, knobs))
  {
    hide *;
    var start, command := Fresh(knobs, 0), Inner(BROKEN, Break, doc);
    FreshIs(knobs, doc);
    NothingPrinted(start);
    LayoutMarks.FreshMarks(knobs);
    LayoutMarks.RunMarks(start, [command], []);
    RanIs(doc, knobs);
  }

  lemma RanIs(doc: Doc, knobs: Knobs)
    ensures Ran(doc, knobs) == Layout.Run(Fresh(knobs, 0), [Inner(BROKEN, Break, doc)], 0)
  {
  }

  lemma FreshIs(knobs: Knobs, doc: Doc)
    requires CleanDoc(doc)
    ensures var p := Fresh(knobs, 0);
      p.out == "" && p.cells == [] && p.continuations == [] && p.gap.NoGap? && p.knobs == knobs
    ensures CleanStack([Inner(BROKEN, Break, doc)]) && Inner(BROKEN, Break, doc).anchor.None?
  {
    hide CleanDoc;
    OneText(Inner(BROKEN, Break, doc));
    assert [Inner(BROKEN, Break, doc)][..0] == [];
  }

  /**
   * Printed text that is not empty is aligned: what aligning comes to in its output is so
   * of it. And the text a line is placed by is on a line that is not placed itself.
   */
  lemma {:induction false} PrintedIsAligned(doc: Doc, knobs: Knobs, tables: seq<Tables.Done>, padded: string)
    requires CleanDoc(doc) && IsLineEnd(knobs.newline) && Ran(doc, knobs).out != ""
    requires IsPaddedText(Ran(doc, knobs), tables, padded)
    ensures AlignedText.IsAligned(AlignedBy(Ran(doc, knobs), tables, padded))
    ensures var a := AlignedBy(Ran(doc, knobs), tables, padded);
      forall it :: it in a.continuations ==> LayoutMarks.Unplaced(a.out, a.continuations, it.line)
  {
    hide *;
    var p := Ran(doc, knobs);
    Laid(doc, knobs);
    RanIs(doc, knobs);
    KnobsKept(p, Texts(doc));
    RanNotes(doc, knobs);
    EndNoted(p);
    AlignedIs(p, tables, padded);
  }

  lemma KnobsKept(p: State, texts: seq<string>)
    requires Printed(p, texts)
    ensures IsLineEnd(p.knobs.newline)
  {
  }

  lemma AlignedIs(p: State, tables: seq<Tables.Done>, padded: string)
    requires p.out != "" && LineSpaces.Noted(p.out + p.knobs.newline, p.cells, ByLine(p.continuations))
    requires IsPaddedText(p, tables, padded)
    ensures AlignedText.IsAligned(AlignedBy(p, tables, padded))
    ensures AlignedBy(p, tables, padded).out == p.out + p.knobs.newline
    ensures AlignedBy(p, tables, padded).continuations == ByLine(p.continuations)
    ensures forall it :: it in ByLine(p.continuations) <==> it in p.continuations
  {
    hide LineSpaces.Noted, Tables.AreTables, Tables.SortCells, Tables.Retained, P.Fitting, P.Inserted;
    LineSpaces.Shapes(Tables.PageOf(EndedText(p), p.cells, ByLine(p.continuations), p.knobs.width, p.knobs.maxPad), tables);
  }

  lemma PadsIts(doc: Doc, knobs: Knobs, p: State, out: string, continuations: seq<Continuation>, tables: seq<Tables.Done>,
                padded: string)
    requires p == Layout.Run(Fresh(knobs, 0), [Inner(BROKEN, Break, doc)], 0)
    requires out == (if p.out == "" then "" else p.out + p.knobs.newline) && continuations == ByLine(p.continuations)
    requires Tables.PaddedBy(out, p.cells, continuations, p.knobs.width, p.knobs.maxPad, tables, padded)
    ensures IsAlignedText(doc, knobs, padded)
  {
    hide Tables.PaddedBy, Layout.Run, ByLine;
    assert IsPaddedText(Ran(doc, knobs), tables, padded);
  }

  /** Lays `doc` out, ending in exactly one line end unless it is empty. */
  method Print(doc: Doc, knobs: Knobs) returns (padded: string)
    requires CleanDoc(doc) && IsLineEnd(knobs.newline)
    ensures IsPrinted(padded, Texts(doc), knobs.newline)
    ensures IsLaidOut(doc, knobs, EndedText(Ran(doc, knobs)), Ran(doc, knobs).cells, Ran(doc, knobs).continuations) && IsAlignedText(doc, knobs, padded)
  {
    hide *;
    RanIsLaidOut(doc, knobs);
    var command := Inner(BROKEN, Break, doc);
    var printer := new LayoutPrinter.Printer(knobs, 0, 0, false);
    Starting(knobs);
    StateIs(printer);
    printer.Run([command], 0);
    ghost var p := printer.State();
    StateIs(printer);
    Laid(doc, knobs);
    ghost var starts := HasStarts(p, Texts(doc));
    var out := printer.out;
    if out != "" {
      out := out + knobs.newline;
    }
    var continuations := ByLine(printer.continuations);
    InTextEither(p, Texts(doc), starts, out, continuations);
    padded := Tables.Align(out, printer.cells, continuations, knobs.width, knobs.maxPad);
    ghost var tables :| Tables.PaddedBy(out, printer.cells, continuations, knobs.width, knobs.maxPad, tables, padded);
    PadsIts(doc, knobs, p, out, continuations, tables, padded);
    if printer.out != "" {
      Aligned(p, Texts(doc), starts, out, continuations, tables, padded);
    } else {
      NothingAligned(p, Texts(doc), starts, continuations, tables, padded);
    }
  }
}
