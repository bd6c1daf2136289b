/**
 * What the printer remembers of its output is so: the column and the line it is at, and
 * those of each cell, are the ones in the text it has written.
 */
module LayoutColumns {
  import opened Wrappers
  import opened Layout
  import opened LayoutSpacing
  import LayoutWidth

  /** How far into its line the place `k` is. */
  function ColumnAt(out: string, k: nat): nat
    requires k <= |out|
  {
    if k == 0 || IsNewline(out[k - 1]) then 0 else ColumnAt(out, k - 1) + 1
  }

  /** How many lines end before it. */
  function LineAt(out: string, k: nat): nat
    requires k <= |out|
  {
    if k == 0 then 0 else LineAt(out, k - 1) + (if out[k - 1] == '\n' then 1 else 0)
  }

  lemma {:induction false} ColumnWithin(out: string, k: nat)
    requires k <= |out|
    ensures ColumnAt(out, k) <= k
  {
    if k > 0 {
      ColumnWithin(out, k - 1);
    }
  }

  ghost predicate Stands(out: string, k: nat, column: nat, line: nat) {
    k <= |out| && ColumnAt(out, k) == column && LineAt(out, k) == line
  }

  /** Cells are where they say, and lines placed by earlier ones start lines. */
  ghost predicate Tracked(p: State) {
    && Stands(p.out, |p.out|, p.column, p.line)
    && (forall c :: c in p.cells ==> Stands(p.out, c.offset, c.column, c.line))
    && (forall it :: it in p.continuations ==> it.offset <= |p.out| && ColumnAt(p.out, it.offset) == 0)
  }

  // ----- text added at the end

  lemma {:induction false} StandsMore(out: string, more: string, k: nat)
    requires k <= |out|
    ensures ColumnAt(out + more, k) == ColumnAt(out, k) && LineAt(out + more, k) == LineAt(out, k)
  {
    if k > 0 {
      StandsMore(out, more, k - 1);
      assert (out + more)[k - 1] == out[k - 1];
    }
  }

  /** Within a line each character is a column. */
  lemma {:induction false} OnLine(out: string, a: nat, b: nat)
    requires a <= b <= |out| && forall k :: a <= k < b ==> !IsNewline(out[k])
    ensures ColumnAt(out, b) == ColumnAt(out, a) + b - a && LineAt(out, b) == LineAt(out, a)
  {
    if a < b {
      OnLine(out, a, b - 1);
    }
  }

  lemma {:induction false} TextAfter(out: string, text: string)
    requires forall k :: 0 <= k < |text| ==> !IsNewline(text[k])
    ensures ColumnAt(out + text, |out + text|) == ColumnAt(out, |out|) + |text|
    ensures LineAt(out + text, |out + text|) == LineAt(out, |out|)
  {
    var more := out + text;
    forall k | |out| <= k < |more| ensures !IsNewline(more[k]) {
      assert more[k] == text[k - |out|];
    }
    OnLine(more, |out|, |more|);
    StandsMore(out, text, |out|);
  }

  lemma {:induction false} LineEndAfter(out: string, newline: string)
    requires IsLineEnd(newline)
    ensures ColumnAt(out + newline, |out + newline|) == 0
    ensures LineAt(out + newline, |out + newline|) == LineAt(out, |out|) + 1
  {
    var more := out + newline;
    StandsMore(out, newline, |out|);
    assert more[|more| - 1] == '\n';
    if newline == "\r\n" {
      assert more[|out|] == '\r';
    }
  }

  lemma {:induction false} LineEndsAfter(out: string, newline: string, count: nat)
    requires IsLineEnd(newline)
    ensures var more := out + Repeated(newline, count);
      && (count > 0 ==> ColumnAt(more, |more|) == 0) && LineAt(more, |more|) == LineAt(out, |out|) + count
    decreases count
  {
    if count == 0 {
      assert out + Repeated(newline, 0) == out;
    } else {
      LineEndAfter(out, newline);
      LineEndsAfter(out + newline, newline, count - 1);
      assert out + Repeated(newline, count) == (out + newline) + Repeated(newline, count - 1);
      assert count == 1 ==> (out + newline) + Repeated(newline, 0) == out + newline;
    }
  }

  // ----- what each turn keeps

  lemma {:induction false} Longer(p: State, q: State, more: string)
    requires Tracked(p) && q.out == p.out + more && q.cells == p.cells
    requires Stands(q.out, |q.out|, q.column, q.line)
    requires forall it :: it in q.continuations ==>
      it in p.continuations || (it.offset <= |q.out| && ColumnAt(q.out, it.offset) == 0)
    ensures Tracked(q)
  {
    forall c | c in q.cells ensures Stands(q.out, c.offset, c.column, c.line) {
      StandsMore(p.out, more, c.offset);
    }
    forall it | it in q.continuations ensures it.offset <= |q.out| && ColumnAt(q.out, it.offset) == 0 {
      if it in p.continuations {
        StandsMore(p.out, more, it.offset);
      }
    }
  }

  /** The separation a text waits for, written. */
  lemma {:induction false} FlushTracks(p: State)
    requires Tracked(p) && IsLineEnd(p.knobs.newline) && (p.gap.LinesGap? ==> p.gap.count > 0)
    requires p.out == "" ==> p.column == 0
    ensures Tracked(Flush(p))
  {
    hide Tracked;
    match p.gap
    case NoGap =>
    case SpaceGap =>
      if WritesSpace(p) {
        TrackedMeans(p);
        TextAfter(p.out, " ");
        Longer(p, Flush(p), " ");
      } else {
        SameTracks(p, Flush(p));
      }
    case LinesGap(count, indent, anchor) =>
      LinesTrack(p, count, indent, anchor);
  }

  lemma TrackedMeans(p: State)
    requires Tracked(p)
    ensures ColumnAt(p.out, |p.out|) == p.column && LineAt(p.out, |p.out|) == p.line
  {
  }

  lemma SameTracks(p: State, q: State)
    requires Tracked(p) && q.out == p.out && q.cells == p.cells && q.continuations == p.continuations
    requires q.column == p.column && q.line == p.line
    ensures Tracked(q)
  {
  }

  lemma {:induction false} LinesTrack(p: State, count: nat, indent: nat, anchor: Option<Anchor>)
    requires Tracked(p) && IsLineEnd(p.knobs.newline) && p.gap == LinesGap(count, indent, anchor) && count > 0
    requires p.out == "" ==> p.column == 0
    ensures Tracked(Flush(p))
  {
    hide Tracked, Repeated, ColumnAt, LineAt;
    var q, ends, spaces := Flush(p), Repeated(p.knobs.newline, if p.out == "" then 0 else count), Spaces(indent);
    TrackedMeans(p);
    LineEndsAfter(p.out, p.knobs.newline, if p.out == "" then 0 else count);
    NoneRepeated(p.knobs.newline);
    SpacesAre(indent);
    TextAfter(p.out + ends, spaces);
    assert q.out == p.out + ends + spaces == p.out + (ends + spaces);
    StandsMore(p.out + ends, spaces, |p.out + ends|);
    Longer(p, q, ends + spaces);
  }

  lemma NoneRepeated(s: string)
    ensures Repeated(s, 0) == ""
  {
  }

  lemma {:induction false} WriteTracks(p: State, texts: seq<string>, text: string)
    requires Printed(p, texts) && Tracked(p) && Clean(text)
    ensures Tracked(Write(p, text))
  {
    hide Flush, Tracked, Printed, ColumnAt, LineAt;
    if text != "" {
      PrintedMeans(p, texts);
      TrackedMeans(p);
      AtStart();
      FlushTracks(p);
      TrackedMeans(Flush(p));
      TextAfter(Flush(p).out, text);
      Longer(Flush(p), Write(p, text), text);
    }
  }

  lemma AtStart()
    ensures ColumnAt("", 0) == 0 && LineAt("", 0) == 0
  {
  }

  lemma {:induction false} PrintedMeans(p: State, texts: seq<string>)
    requires Printed(p, texts)
    ensures IsLineEnd(p.knobs.newline) && (p.gap.LinesGap? ==> p.gap.count > 0)
    ensures p.out != "" ==> !IsBlank(p.out[|p.out| - 1])
  {
    hide Located, NoTrailingSpace, NoDoubleBlank, Between;
    var starts :| LayoutSpacing.Spaced(p, texts, starts);
    LastIsText(p.out, texts, starts);
  }

  lemma {:induction false} CellTracks(p: State, texts: seq<string>, table: Option<(nat, bool)>, index: nat)
    requires Printed(p, texts) && Tracked(p)
    ensures Tracked(NoteCell(p, table, index))
  {
    hide Printed;
    PrintedMeans(p, texts);
  }

  /** One turn keeps what the printer remembers true. */
  lemma {:induction false} StepTracks(p: State, stack: seq<Command>, texts: seq<string>)
    requires stack != [] && Printed(p, texts) && Tracked(p) && CleanStack(stack)
    ensures Tracked(Step(p, stack).0)
    decreases StackSize(stack), 0, 1
  {
    hide Printed, Tracked, PushFill, Fits, FitsPrinted, StackSize, Size, Sizes, Queued, Flush, Write, NoteCell;
    var command := stack[|stack| - 1];
    match command.work
    case Parts(_) =>
    case One(doc) =>
      match doc
      case Text(text) => WriteTracks(p, texts, text);
      case Cell(index) => CellTracks(p, texts, command.table, index);
      case Trailing(_) => TrailingTracks(p, stack, texts);
      case _ => SameTracks(p, Step(p, stack).0);
  }

  lemma {:induction false} TrailingTracks(p: State, stack: seq<Command>, texts: seq<string>)
    requires stack != [] && Printed(p, texts) && Tracked(p) && CleanStack(stack)
    requires var work := stack[|stack| - 1].work; work.One? && work.doc.Trailing?
    ensures Tracked(Step(p, stack).0)
    decreases StackSize(stack), 0, 0
  {
    hide *;
    var command := stack[|stack| - 1];
    var only := Inner(command, command.mode, command.work.doc.doc);
    TrailingSize(stack);
    TrailingStep(p, stack, texts);
    RunTracks(p, [only], texts);
    SameTracks(Run(p, [only], 0), Step(p, stack).0);
  }

  /** So does a whole run. */
  lemma {:induction false} RunTracks(p: State, stack: seq<Command>, texts: seq<string>)
    requires Printed(p, texts) && Tracked(p) && CleanStack(stack)
    ensures Tracked(Run(p, stack, 0))
    decreases StackSize(stack), 1
  {
    hide Printed, Tracked, Step;
    if stack != [] {
      var (q, left) := Step(p, stack);
      var done := StepPrints(p, stack, texts);
      StepTracks(p, stack, texts);
      RunTracks(q, left, texts + done);
    }
  }

  // ----- the width, in the text

  /** Each text printed from here up to the next line break ends, in the output, within the width. */
  ghost predicate LineFitsInText(p: State, stack: seq<Command>)
    decreases StackSize(stack)
  {
    stack == [] || LayoutWidth.Breaks(stack[|stack| - 1])
    || var (q, left) := Step(p, stack);
       && (q.out != p.out ==> ColumnAt(q.out, |q.out|) <= q.knobs.width)
       && LineFitsInText(q, left)
  }

  lemma {:induction false} FitsInText(p: State, stack: seq<Command>, texts: seq<string>)
    requires Printed(p, texts) && Tracked(p) && CleanStack(stack) && LayoutWidth.LineFits(p, stack)
    ensures LineFitsInText(p, stack)
    decreases StackSize(stack)
  {
    hide Printed, Tracked, Step, CleanStack;
    if stack != [] && !LayoutWidth.Breaks(stack[|stack| - 1]) {
      var (q, left) := Step(p, stack);
      var done := StepPrints(p, stack, texts);
      StepTracks(p, stack, texts);
      TrackedMeans(q);
      FitsInText(q, left, texts + done);
    }
  }

  /** A group laid flat because it fits: the output shows it does, up to the next line break. */
  lemma {:induction false} GroupFitsInText(p: State, command: Command, doc: Doc, rest: seq<Command>, texts: seq<string>)
    requires Printed(p, texts) && Tracked(p) && CleanStack(rest) && CleanDoc(doc)
    requires LayoutWidth.PlainStack(rest) && LayoutWidth.Plain(doc) && Fits(p, [doc], rest)
    ensures LineFitsInText(p, rest + [Inner(command, Flat, doc)])
  {
    hide *;
    var inner := Inner(command, Flat, doc);
    IsClean(command, doc);
    OnTop(rest, inner);
    LayoutWidth.FlatGroupFits(p, command, doc, rest);
    FitsInText(p, rest + [inner], texts);
  }

  lemma IsClean(command: Command, doc: Doc)
    requires CleanDoc(doc)
    ensures CleanWork(Inner(command, Flat, doc).work)
  {
  }
}
