/**
 * What the printer notes for aligning: cells in the order they were printed, and lines
 * placed by text on lines that are not themselves placed.
 */
module LayoutMarks {
  import opened Wrappers
  import opened Layout
  import opened LayoutSpacing
  import opened LayoutColumns

  /** A carriage return only stands before a line feed. */
  predicate WholeEnds(out: string) {
    forall k :: 0 <= k < |out| && out[k] == '\r' ==> k + 1 < |out| && out[k + 1] == '\n'
  }

  predicate InOrder(cells: seq<CellMark>) {
    forall i, j :: 0 <= i < j < |cells| ==> cells[i].offset <= cells[j].offset
  }

  predicate NonePlacedTwice(continuations: seq<Continuation>) {
    forall i, j :: 0 <= i < j < |continuations| ==> continuations[i].offset != continuations[j].offset
  }

  /** The line is placed by `it`. */
  predicate Places(out: string, it: Continuation, line: nat) {
    it.offset <= |out| && LineAt(out, it.offset) == line
  }

  ghost predicate Unplaced(out: string, continuations: seq<Continuation>, line: nat) {
    forall it :: it in continuations ==> !Places(out, it, line)
  }

  /** Text to place lines by is on a line that is not placed itself. */
  ghost predicate Free(p: State, anchor: Option<Anchor>) {
    anchor.Some? ==> anchor.value.line <= p.line && Unplaced(p.out, p.continuations, anchor.value.line)
  }

  ghost predicate Marked(p: State) {
    && WholeEnds(p.out) && InOrder(p.cells) && NonePlacedTwice(p.continuations)
    && (forall it :: it in p.continuations ==>
          0 < it.offset <= |p.out| && Free(p, Some(Anchor(it.line, it.start))))
    && Free(p, p.anchor) && (p.gap.LinesGap? ==> Free(p, p.gap.anchor))
    && (p.anchor.None? ==> Unplaced(p.out, p.continuations, p.line))
  }

  ghost predicate StackFree(p: State, stack: seq<Command>) {
    forall i :: 0 <= i < |stack| ==> Free(p, stack[i].anchor)
  }

  lemma {:induction false} LineGrows(out: string, a: nat, b: nat)
    requires a <= b <= |out|
    ensures LineAt(out, a) <= LineAt(out, b)
  {
    if a < b {
      LineGrows(out, a, b - 1);
    }
  }

  lemma {:induction false} WholeMore(out: string, newline: string, count: nat, text: string)
    requires WholeEnds(out) && IsLineEnd(newline) && forall k :: 0 <= k < |text| ==> text[k] != '\r'
    ensures WholeEnds(out + Repeated(newline, count) + text)
    decreases count
  {
    if count == 0 {
      assert out + Repeated(newline, count) == out;
      var more := out + text;
      forall k | 0 <= k < |more| && more[k] == '\r' ensures k + 1 < |more| && more[k + 1] == '\n' {
        assert k < |out| && out[k] == '\r';
      }
    } else {
      var more := out + newline;
      forall k | 0 <= k < |more| && more[k] == '\r' ensures k + 1 < |more| && more[k + 1] == '\n' {
        if k < |out| {
          assert out[k] == '\r';
        }
      }
      WholeMore(more, newline, count - 1, text);
      assert out + Repeated(newline, count) == more + Repeated(newline, count - 1);
    }
  }

  // ----- writing

  /** Nothing is noted but text added at the end. */
  lemma {:induction false} FreeLonger(p: State, q: State, more: string, anchor: Option<Anchor>)
    requires Free(p, anchor) && forall it :: it in p.continuations ==> it.offset <= |p.out|
    requires q.out == p.out + more && q.continuations == p.continuations && q.line >= p.line
    ensures Free(q, anchor)
  {
    forall it | it in q.continuations ensures LineAt(q.out, it.offset) == LineAt(p.out, it.offset) {
      StandsMore(p.out, more, it.offset);
    }
  }

  lemma {:induction false} TextMarks(p: State, q: State, more: string)
    requires Marked(p) && q.out == p.out + more && (forall k :: 0 <= k < |more| ==> more[k] != '\r')
    requires IsLineEnd(p.knobs.newline)
    requires q.cells == p.cells && q.continuations == p.continuations && q.line == p.line && q.anchor == p.anchor && q.gap.NoGap?
    ensures Marked(q)
    ensures forall anchor :: Free(p, anchor) ==> Free(q, anchor)
  {
    hide WholeEnds;
    WholeMore(p.out, p.knobs.newline, 0, more);
    assert p.out + Repeated(p.knobs.newline, 0) + more == q.out;
    forall anchor | Free(p, anchor) ensures Free(q, anchor) {
      FreeLonger(p, q, more, anchor);
    }
    if p.anchor.None? {
      FreeLonger(p, q, more, Some(Anchor(p.line, 0)));
    }
  }

  lemma {:induction false} FlushMarks(p: State)
    requires Marked(p) && Tracked(p) && IsLineEnd(p.knobs.newline) && (p.gap.LinesGap? ==> p.gap.count > 0)
    ensures Marked(Flush(p))
    ensures forall anchor :: Free(p, anchor) ==> Free(Flush(p), anchor)
  {
    hide Tracked, Marked, Free;
    match p.gap
    case NoGap =>
    case SpaceGap =>
      assert p.out + "" == p.out;
      TextMarks(p, Flush(p), if WritesSpace(p) then " " else "");
    case LinesGap(count, indent, anchor) =>
      if p.out == "" {
        FirstMarks(p, count, indent, anchor);
      } else {
        LinesMark(p, count, indent, anchor);
      }
  }

  lemma {:induction false} FirstMarks(p: State, count: nat, indent: nat, anchor: Option<Anchor>)
    requires Marked(p) && Tracked(p) && IsLineEnd(p.knobs.newline) && p.gap == LinesGap(count, indent, anchor) && p.out == ""
    ensures Marked(Flush(p))
    ensures forall anchor :: Free(p, anchor) ==> Free(Flush(p), anchor)
  {
    var q := Flush(p);
    SpacesAre(indent);
    assert q.out == p.out + Spaces(indent);
    WholeMore(p.out, p.knobs.newline, 0, Spaces(indent));
    assert p.out + Repeated(p.knobs.newline, 0) + Spaces(indent) == q.out;
    assert forall it :: it !in p.continuations;
  }

  lemma {:induction false} LinesMark(p: State, count: nat, indent: nat, anchor: Option<Anchor>)
    requires Marked(p) && Tracked(p) && IsLineEnd(p.knobs.newline) && p.gap == LinesGap(count, indent, anchor)
    requires p.out != "" && count > 0
    ensures Marked(Flush(p))
    ensures forall anchor :: Free(p, anchor) ==> Free(Flush(p), anchor)
  {
    hide Repeated, ColumnAt, LineAt, WholeEnds;
    var q, ends, spaces := Flush(p), Repeated(p.knobs.newline, count), Spaces(indent);
    var ended := p.out + ends;
    SpacesAre(indent);
    WholeMore(p.out, p.knobs.newline, count, spaces);
    LineEndsAfter(p.out, p.knobs.newline, count);
    assert q.out == ended + spaces;
    StandsMore(ended, spaces, |ended|);
    EndsGrow(p.knobs.newline, count);
    forall it | it in p.continuations ensures LineAt(q.out, it.offset) == LineAt(p.out, it.offset) <= p.line {
      LineGrows(p.out, it.offset, |p.out|);
      StandsMore(p.out, ends, it.offset);
      StandsMore(ended, spaces, it.offset);
    }
    LinesFree(p, q, |ended|, anchor);
  }

  lemma EndsGrow(newline: string, count: nat)
    requires IsLineEnd(newline) && count > 0
    ensures |Repeated(newline, count)| > 0
  {
  }

  /** What is noted after a line end, given which lines are placed. */
  lemma {:induction false} LinesFree(p: State, q: State, at: nat, anchor: Option<Anchor>)
    requires Marked(p) && WholeEnds(q.out) && |p.out| < at <= |q.out| && p.line < q.line && q.cells == p.cells
    requires p.gap.LinesGap? && anchor == p.gap.anchor == q.anchor && q.gap.NoGap?
    requires q.continuations == p.continuations +
      (if anchor.None? then [] else [Continuation(anchor.value.line, anchor.value.start, at, None)])
    requires LineAt(q.out, at) == q.line
    requires forall it :: it in p.continuations ==>
      it.offset <= |p.out| && LineAt(q.out, it.offset) == LineAt(p.out, it.offset) <= p.line
    ensures Marked(q)
    ensures forall anchor :: Free(p, anchor) ==> Free(q, anchor)
  {
    hide LineAt, WholeEnds;
    forall a | Free(p, a) ensures Free(q, a) {
      if a.Some? {
        assert Unplaced(p.out, p.continuations, a.value.line);
        forall it | it in q.continuations ensures !Places(q.out, it, a.value.line) {
          if it in p.continuations {
            assert !Places(p.out, it, a.value.line);
          }
        }
      }
    }
    forall it | it in q.continuations ensures 0 < it.offset <= |q.out| && Free(q, Some(Anchor(it.line, it.start))) {
      if it in p.continuations {
        assert Free(p, Some(Anchor(it.line, it.start)));
      } else {
        assert Free(p, anchor);
      }
    }
  }

  lemma {:induction false} WriteMarks(p: State, texts: seq<string>, text: string)
    requires Printed(p, texts) && Tracked(p) && Marked(p) && Clean(text)
    ensures Marked(Write(p, text))
    ensures forall anchor :: Free(p, anchor) ==> Free(Write(p, text), anchor)
  {
    hide Flush, Tracked, Printed, Marked, Free;
    if text != "" {
      PrintedMeans(p, texts);
      FlushMarks(p);
      FlushKnobs(p);
      TextMarks(Flush(p), Write(p, text), text);
    }
  }

  lemma FlushKnobs(p: State)
    ensures Flush(p).knobs == p.knobs && Flush(p).gap.NoGap?
  {
  }

  // ----- what each turn keeps

  lemma SameFree(p: State, q: State, anchor: Option<Anchor>)
    requires q.out == p.out && q.continuations == p.continuations && q.line == p.line
    ensures Free(q, anchor) <==> Free(p, anchor)
  {
  }

  /** Asking for separation notes nothing; the line asked for is placed by text on a free one. */
  lemma {:induction false} AsksMarks(p: State, q: State)
    requires Marked(p) && q.out == p.out && q.cells == p.cells && q.continuations == p.continuations
    requires q.line == p.line && q.anchor == p.anchor
    requires q.gap.LinesGap? ==> Free(p, q.gap.anchor)
    ensures Marked(q)
  {
  }

  lemma {:induction false} CellMarks(p: State, texts: seq<string>, table: Option<(nat, bool)>, index: nat)
    requires Printed(p, texts) && Tracked(p) && Marked(p)
    ensures Marked(NoteCell(p, table, index))
  {
    hide Printed, ColumnAt, LineAt;
    PrintedMeans(p, texts);
  }

  /** The text an aligned group is placed by is on a free line. */
  lemma AlignsFree(p: State)
    requires Marked(p)
    ensures Free(p, Layout.Alignment(p).1)
  {
  }

  /** Documents queued are placed as the command that holds them. */
  lemma {:induction false} QueuedFree(p: State, command: Command, mode: Mode, docs: seq<Doc>)
    requires Free(p, command.anchor)
    ensures StackFree(p, Queued(command, mode, docs))
  {
    hide Free, StackSize, Sizes, Size;
    if docs != [] {
      QueuedFree(p, command, mode, docs[1..]);
      OneFree(p, Queued(command, mode, docs[1..]), Inner(command, mode, docs[0]));
    }
  }

  lemma FillFree(p: State, command: Command, parts: seq<Doc>, rest: seq<Command>)
    requires Free(p, command.anchor) && StackFree(p, rest)
    ensures StackFree(p, PushFill(p, command, parts, rest))
  {
    hide Fits, Starts, Queued, Free, StackSize, Sizes, Size;
    QueuedFree(p, command, Flat, parts);
  }

  lemma StackFreeMore(p: State, q: State, stack: seq<Command>)
    requires StackFree(p, stack) && forall anchor :: Free(p, anchor) ==> Free(q, anchor)
    ensures StackFree(q, stack)
  {
  }

  lemma RestFree(p: State, stack: seq<Command>)
    requires StackFree(p, stack) && stack != []
    ensures StackFree(p, stack[..|stack| - 1]) && Free(p, stack[|stack| - 1].anchor)
  {
  }

  lemma OneFree(p: State, rest: seq<Command>, command: Command)
    requires StackFree(p, rest) && Free(p, command.anchor)
    ensures StackFree(p, rest + [command])
  {
  }

  /** One turn leaves what is noted, and what is to be, so placed. */
  lemma {:induction false} StepMarks(p: State, stack: seq<Command>, texts: seq<string>)
    requires stack != [] && Printed(p, texts) && Tracked(p) && Marked(p) && StackFree(p, stack) && CleanStack(stack)
    ensures var (q, left) := Step(p, stack); Marked(q) && StackFree(q, left)
    ensures forall anchor :: Free(p, anchor) ==> Free(Step(p, stack).0, anchor)
    decreases StackSize(stack), 0, 1
  {
    hide *;
    var command, rest := stack[|stack| - 1], stack[..|stack| - 1];
    RestFree(p, stack);
    match command.work
    case Parts(_) => ShapeMarks(p, stack);
    case One(doc) =>
      match doc
      case Text(text) =>
        TextStep(p, stack);
        OneClean(stack);
        WriteMarks(p, texts, text);
        StackFreeMore(p, Write(p, text), rest);
      case Cell(index) =>
        CellStep(p, stack);
        CellMarks(p, texts, command.table, index);
        forall anchor ensures Free(p, anchor) ==> Free(NoteCell(p, command.table, index), anchor) {
          CellSame(p, command.table, index);
          SameFree(p, NoteCell(p, command.table, index), anchor);
        }
        StackFreeMore(p, NoteCell(p, command.table, index), rest);
      case Trailing(_) => TrailingMarks(p, stack, texts);
      case _ => ShapeMarks(p, stack);
  }

  lemma TextStep(p: State, stack: seq<Command>)
    requires stack != []
    ensures var work := stack[|stack| - 1].work;
      work.One? && work.doc.Text? ==> Step(p, stack) == (Write(p, work.doc.text), stack[..|stack| - 1])
  {
  }

  lemma CellStep(p: State, stack: seq<Command>)
    requires stack != []
    ensures var top := stack[|stack| - 1];
      top.work.One? && top.work.doc.Cell? ==> Step(p, stack) == (NoteCell(p, top.table, top.work.doc.index), stack[..|stack| - 1])
  {
  }

  lemma CellSame(p: State, table: Option<(nat, bool)>, index: nat)
    ensures var q := NoteCell(p, table, index); q.out == p.out && q.continuations == p.continuations && q.line == p.line
  {
  }

  lemma OneClean(stack: seq<Command>)
    requires stack != [] && CleanStack(stack)
    ensures var work := stack[|stack| - 1].work; work.One? && work.doc.Text? ==> Clean(work.doc.text)
  {
  }

  /** What prints nothing is replaced by what it holds, or asks for a line where it is to be. */
  lemma {:induction false} ShapeMarks(p: State, stack: seq<Command>)
    requires stack != [] && Marked(p) && StackFree(p, stack)
    requires var work := stack[|stack| - 1].work; work.One? ==> !work.doc.Text? && !work.doc.Cell? && !work.doc.Trailing?
    ensures var (q, left) := Step(p, stack); Marked(q) && StackFree(q, left)
    ensures forall anchor :: Free(p, anchor) ==> Free(Step(p, stack).0, anchor)
  {
    hide Marked, Free, StackFree, PushFill, Fits, FitsPrinted, StackSize, Size, Sizes, Queued, Layout.Alignment;
    var command, rest := stack[|stack| - 1], stack[..|stack| - 1];
    var q := Step(p, stack).0;
    RestFree(p, stack);
    GapFree(p);
    AsksMarks(p, q);
    forall anchor ensures Free(p, anchor) ==> Free(q, anchor) {
      SameFree(p, q, anchor);
    }
    StackFreeMore(p, q, rest);
    match command.work
    case Parts(parts) => FillFree(p, command, parts, rest);
    case One(doc) =>
      match doc
      case Fill(parts) => FillFree(p, command, parts, rest);
      case Concat(docs) =>
        QueuedFree(p, command, command.mode, docs);
        BothFree(p, rest, Queued(command, command.mode, docs));
      case Align(_) =>
        AlignsFree(p);
        OneFree(q, rest, Step(p, stack).1[|rest|]);
      case Margin(_) =>
        NoneFree(q);
        OneFree(q, rest, Step(p, stack).1[|rest|]);
      case Group(_) => OneFree(q, rest, Step(p, stack).1[|rest|]);
      case Indent(_) => OneFree(q, rest, Step(p, stack).1[|rest|]);
      case Prefer(_, _) => OneFree(q, rest, Step(p, stack).1[|rest|]);
      case Table(_, _) => OneFree(q, rest, Step(p, stack).1[|rest|]);
      case _ =>
  }

  lemma GapFree(p: State)
    requires Marked(p)
    ensures p.gap.LinesGap? ==> Free(p, p.gap.anchor)
  {
  }

  lemma NoneFree(p: State)
    ensures Free(p, None)
  {
  }

  lemma BothFree(p: State, a: seq<Command>, b: seq<Command>)
    requires StackFree(p, a) && StackFree(p, b)
    ensures StackFree(p, a + b)
  {
  }

  lemma {:induction false} TrailingMarks(p: State, stack: seq<Command>, texts: seq<string>)
    requires stack != [] && Printed(p, texts) && Tracked(p) && Marked(p) && StackFree(p, stack) && CleanStack(stack)
    requires var work := stack[|stack| - 1].work; work.One? && work.doc.Trailing?
    ensures var (q, left) := Step(p, stack); Marked(q) && StackFree(q, left)
    ensures forall anchor :: Free(p, anchor) ==> Free(Step(p, stack).0, anchor)
    decreases StackSize(stack), 0, 0
  {
    hide *;
    var command, rest := stack[|stack| - 1], stack[..|stack| - 1];
    var only := Inner(command, command.mode, command.work.doc.doc);
    TrailingSize(stack);
    TrailingStep(p, stack, texts);
    RestFree(p, stack);
    NothingFree(p);
    InnerAnchor(command, command.mode, command.work.doc.doc);
    OneFree(p, [], only);
    assert [] + [only] == [only];
    RunMarks(p, [only], texts);
    var ran, q := Run(p, [only], 0), Step(p, stack).0;
    GapFree(ran);
    AsksMarks(ran, q);
    forall anchor ensures Free(ran, anchor) ==> Free(q, anchor) {
      SameFree(ran, q, anchor);
    }
    TrailingLeft(p, stack);
    StackFreeMore(p, q, rest);
  }

  lemma NothingFree(p: State)
    ensures StackFree(p, [])
  {
  }

  lemma InnerAnchor(command: Command, mode: Mode, doc: Doc)
    ensures Inner(command, mode, doc).anchor == command.anchor
  {
  }

  lemma TrailingLeft(p: State, stack: seq<Command>)
    requires stack != []
    requires var work := stack[|stack| - 1].work; work.One? && work.doc.Trailing?
    ensures Step(p, stack).1 == stack[..|stack| - 1]
  {
    hide Run;
  }

  lemma {:induction false} RunMarks(p: State, stack: seq<Command>, texts: seq<string>)
    requires Printed(p, texts) && Tracked(p) && Marked(p) && StackFree(p, stack) && CleanStack(stack)
    ensures Marked(Run(p, stack, 0)) && Tracked(Run(p, stack, 0))
    ensures forall anchor :: Free(p, anchor) ==> Free(Run(p, stack, 0), anchor)
    decreases StackSize(stack), 1
  {
    hide Printed, Tracked, Marked, Free, StackFree, CleanStack, Step;
    if stack != [] {
      var (q, left) := Step(p, stack);
      var done := StepPrints(p, stack, texts);
      StepTracks(p, stack, texts);
      StepMarks(p, stack, texts);
      RunMarks(q, left, texts + done);
    }
  }

  /** A printer that has written nothing has noted nothing. */
  lemma FreshMarks(knobs: Knobs)
    ensures Marked(Fresh(knobs, 0)) && Tracked(Fresh(knobs, 0))
    ensures forall command: Command :: command.anchor.None? ==> StackFree(Fresh(knobs, 0), [command])
  {
  }
}
