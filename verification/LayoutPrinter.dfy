/**
 * The printer itself: an object whose fields are what has been laid out so far, driven by
 * a loop over a stack of commands. Each method leaves it in the state the layout describes.
 */
module LayoutPrinter {
  import opened Wrappers
  import opened Layout

  /** Documents in reverse, each in the same mode: the first is taken first. */
  function Flipped(mode: Mode, docs: seq<Doc>): (r: seq<(Mode, Doc)>)
    ensures |r| == |docs|
  {
    if docs == [] then [] else Flipped(mode, docs[1..]) + [(mode, docs[0])]
  }

  /** What is left to measure stands for commands on top of `rest`. */
  ghost predicate Stands(todo: seq<(Mode, Doc)>, rest: seq<Command>, stack: seq<Command>) {
    && |stack| == |rest| + |todo| && stack[..|rest|] == rest
    && forall i :: 0 <= i < |todo| ==> stack[|rest| + i].mode == todo[i].0 && stack[|rest| + i].work == One(todo[i].1)
  }

  lemma {:induction false} QueuedStands(command: Command, mode: Mode, docs: seq<Doc>)
    ensures Stands(Flipped(mode, docs), [], Queued(command, mode, docs))
  {
    hide StackSize;
    if docs != [] {
      QueuedStands(command, mode, docs[1..]);
    }
  }

  lemma {:induction false} StandsMore(todo: seq<(Mode, Doc)>, rest: seq<Command>, stack: seq<Command>,
                                      more: seq<(Mode, Doc)>, held: seq<Command>)
    requires Stands(todo, rest, stack) && Stands(more, [], held)
    ensures Stands(todo + more, rest, stack + held)
  {
    var both, all := todo + more, stack + held;
    assert all[..|rest|] == rest;
    forall i | 0 <= i < |both| ensures all[|rest| + i].mode == both[i].0 && all[|rest| + i].work == One(both[i].1) {
      if i >= |todo| {
        assert all[|rest| + i] == held[i - |todo|];
      }
    }
  }

  /** What a document other than text and space is measured as. */
  function Held(mode: Mode, doc: Doc): seq<(Mode, Doc)> {
    match doc
    case Concat(docs) => Flipped(mode, docs)
    case Fill(parts) => Flipped(mode, parts)
    case Group(inner) => [(mode, inner)]
    case Indent(inner) => [(mode, inner)]
    case Margin(inner) => [(mode, inner)]
    case Align(inner) => [(mode, inner)]
    case Table(inner, _) => [(mode, inner)]
    case Prefer(inner, _) => [(mode, inner)]
    case _ => []
  }

  lemma {:induction false} HeldStands(command: Command, doc: Doc, gap: Gap, left: int, firstLine: bool)
    requires command.work == One(doc)
    ensures var turn := Turned(command, gap, left, firstLine);
      turn.On? ==> Stands(Held(command.mode, doc), [], turn.held)
  {
    hide StackSize, Size, Sizes, Queued, Flipped;
    match doc
    case Concat(docs) => QueuedStands(command, command.mode, docs);
    case Fill(parts) => QueuedStands(command, command.mode, parts);
    case _ =>
  }

  /** One command measured, the rest of the stack after it. */
  lemma {:induction false} MeasuredOne(stack: seq<Command>, gap: Gap, left: int, firstLine: bool)
    requires stack != []
    ensures var top, rest := stack[|stack| - 1], stack[..|stack| - 1];
      match Turned(top, gap, left, firstLine)
      case Settled(fits) => Measured(stack, gap, left, firstLine) == Settled(fits)
      case On(held, after, room) =>
        && Measured(stack, gap, left, firstLine) == Measured(rest + held, after, room, firstLine)
        && StackSize(rest + held) < StackSize(stack)
  {
    var top, rest := stack[|stack| - 1], stack[..|stack| - 1];
    var turn := Turned(top, gap, left, firstLine);
    TurnedShrinks(top, gap, left, firstLine);
    if turn.On? {
      StackSizeAppend(rest, turn.held);
    }
  }

  /** The line ended and `count` begun, the last placed by `anchor`. */
  function Ended(p: State, count: nat, anchor: Option<Anchor>): State {
    var out := p.out + Repeated(p.knobs.newline, count);
    var placed := if anchor.None? then [] else [Continuation(anchor.value.line, anchor.value.start, |out|, None)];
    p.(out := out, line := p.line + count, block := p.block + (if count > 1 then 1 else 0),
       continuations := p.continuations + placed)
  }

  class Printer {
    const knobs: Knobs
    var out: string
    var column: nat
    var gap: Gap
    var line: nat
    var indent: nat
    var block: nat
    var tables: nat
    var anchor: Option<Anchor>
    var cramped: bool
    var cells: seq<CellMark>
    var continuations: seq<Continuation>
    const trial: bool

    function State(): State
      reads this
    {
      Layout.State(knobs, out, column, gap, line, indent, block, tables, anchor, cramped, cells, continuations, trial)
    }

    /** A printer with nothing written, whose first text starts at `column`. */
    constructor (knobs: Knobs, column: nat, indent: nat, trial: bool)
      ensures State() == Fresh(knobs, column).(indent := indent, trial := trial)
    {
      this.knobs, this.column, this.indent, this.trial := knobs, column, indent, trial;
      out, gap, line, block, tables, anchor, cramped := "", NoGap, 0, 0, 0, None, false;
      cells, continuations := [], [];
    }

    method Space()
      modifies this
      ensures State() == AskSpace(old(State()))
    {
      if gap.NoGap? {
        gap := SpaceGap;
      }
    }

    method Lines(count: nat, indent: nat, anchor: Option<Anchor>)
      modifies this
      ensures State() == AskLines(old(State()), count, indent, anchor)
    {
      var most := if gap.LinesGap? && gap.count > count then gap.count else count;
      gap := LinesGap(most, indent, anchor);
    }

    method Newlines(count: nat)
      modifies this`out
      ensures out == old(out) + Repeated(knobs.newline, count)
    {
      for i := 0 to count
        invariant out + Repeated(knobs.newline, count - i) == old(out) + Repeated(knobs.newline, count)
      {
        assert Repeated(knobs.newline, count - i) == knobs.newline + Repeated(knobs.newline, count - i - 1);
        assert out + (knobs.newline + Repeated(knobs.newline, count - i - 1)) == out + knobs.newline + Repeated(knobs.newline, count - i - 1);
        out := out + knobs.newline;
      }
    }

    /** Ends the line, and remembers what the next is placed by. */
    method EndLine(count: nat, anchor: Option<Anchor>)
      modifies this`out, this`line, this`block, this`continuations
      ensures State() == Ended(old(State()), count, anchor)
    {
      hide Repeated;
      Newlines(count);
      var placed := if anchor.None? then [] else [Continuation(anchor.value.line, anchor.value.start, |out|, None)];
      line, block, continuations := line + count, block + (if count > 1 then 1 else 0), continuations + placed;
    }

    /** Breaks the line, unless nothing is written yet, and indents. */
    method BreakLine(count: nat, indent: nat, anchor: Option<Anchor>)
      modifies this
      ensures State() == Flush(old(State()).(gap := LinesGap(count, indent, anchor)))
    {
      hide Repeated;
      gap := NoGap;
      if out != "" {
        EndLine(count, anchor);
      }
      var isCramped := anchor.Some? && indent > knobs.width / 2;
      this.anchor, cramped, out := anchor, cramped || isCramped, out + Repeated(" ", indent);
      column, this.indent := indent, indent;
    }

    /** Writes the separation asked for. None goes before the first text. */
    method FlushGap()
      modifies this
      ensures State() == Flush(old(State()))
    {
      hide Repeated;
      var space := WritesSpace(State());
      var was := gap;
      gap := NoGap;
      match was
      case NoGap =>
      case SpaceGap =>
        if space {
          out := out + " ";
          column := column + 1;
        }
      case LinesGap(count, indent, anchor) =>
        assert State().(gap := LinesGap(count, indent, anchor)) == old(State());
        BreakLine(count, indent, anchor);
    }

    method Text(text: string)
      modifies this
      ensures State() == Write(old(State()), text)
    {
      if text == "" {
        return;
      }
      FlushGap();
      out := out + text;
      column := column + |text|;
      cramped := cramped || column > knobs.width;
    }

    /** Notes where a cell of the innermost table ends: after the last text, before any separation pending. */
    method Cell(table: Option<(nat, bool)>, index: nat)
      modifies this
      ensures State() == NoteCell(old(State()), table, index)
    {
      if table.None? || gap.LinesGap? {
        return;
      }
      var space := if out != "" && out[|out| - 1] == ' ' then 1 else 0;
      var end := if space <= column then column - space else 0;
      cells := cells + [CellMark(table.value.0, table.value.1, index, block, line, |out| - space, end)];
    }

    /** Whether `docs`, flat, fit on the line with what follows; `firstLine` up to their first break if they have one. */
    method MeasureDocs(docs: seq<Doc>, rest: seq<Command>, firstLine: bool) returns (fits: bool)
      ensures fits == Measure(PushAll(rest, PLAIN, Flat, docs), gap, knobs.width - StartColumn(State()), firstLine)
    {
      var start := if gap.LinesGap? then gap.indent else column;
      fits := MeasureFrom(docs, rest, firstLine, gap, knobs.width - start);
    }

    /** Queues the first of a fill's `parts`, flat if it fits, the separator after it, and the rest. */
    method Fill(command: Command, parts: seq<Doc>, stack: seq<Command>) returns (left: seq<Command>)
      ensures left == PushFill(State(), command, parts, stack)
    {
      hide Measure, StackSize, Queued, Size, Sizes;
      if command.mode == Flat {
        return PushAll(stack, command, Flat, parts);
      }
      if parts == [] {
        return stack;
      }
      if |parts| == 1 {
        var flat := MeasureDocs(parts[..1], stack, false);
        assert parts[..1] == parts;
        return Push(stack, Inner(command, ModeOf(flat), parts[0]));
      }
      var flat := MeasureDocs(parts[..1], [], false);
      var both := flat;
      if |parts| > 2 {
        both := MeasureDocs(parts[..3], if |parts| == 3 then stack else [], true);
      }
      left := stack;
      if |parts| > 2 {
        left := Push(left, command.(work := Parts(parts[2..])));
      }
      left := Push(left, Inner(command, ModeOf(both), parts[1]));
      left := Push(left, Inner(command, ModeOf(flat), parts[0]));
    }

    /** Whether `command`, printed from here, keeps every line within the width: another printer tries it. */
    method FitsPrinted(command: Command, rest: seq<Command>) returns (fits: bool)
      ensures fits == Layout.FitsPrinted(State(), command, rest)
      decreases StackSize(Push(rest, command)), 2
    {
      hide Measure, StackSize, Queued, Size, Sizes, Step;
      if trial {
        return false;
      }
      var start := match gap
        case LinesGap(_, indent, _) => indent
        case _ => column + (if WritesSpace(State()) then 1 else 0);
      var other := new Printer(knobs, start, indent, true);
      other.Run(Push(rest, command), |rest|);
      if other.cramped {
        return false;
      }
      fits := other.MeasureDocs([], rest, false);
    }

    /** Prints the commands on `stack` until only `until` of them are left. */
    method Run(stack: seq<Command>, until: nat)
      modifies this
      ensures State() == Layout.Run(old(State()), stack, until)
      decreases StackSize(stack), 1
    {
      var left := stack;
      while |left| > until
        invariant Layout.Run(State(), left, until) == Layout.Run(old(State()), stack, until)
        invariant StackSize(left) <= StackSize(stack)
        decreases StackSize(left)
      {
        hide Step, StackSize;
        left := Turn(left);
      }
    }

    /** One turn of the loop: the command on top is printed or replaced by what it holds. */
    method Turn(stack: seq<Command>) returns (left: seq<Command>)
      requires stack != []
      modifies this
      ensures (State(), left) == Step(old(State()), stack)
      decreases StackSize(stack), 0
    {
      hide StackSize, Queued, Flush, Write, NoteCell, Layout.FitsPrinted, PushFill, Measure, Layout.Run, PushAll, Sizes;
      var command, rest := stack[|stack| - 1], stack[..|stack| - 1];
      var mode := command.mode;
      TopSize(stack);
      left := rest;
      match command.work
      case Parts(parts) => left := Fill(command, parts, rest);
      case One(doc) =>
        match doc
        case Text(text) => Text(text);
        case Space => Space();
        case Line => if mode == Flat { Space(); } else { Lines(1, command.indent, command.anchor); }
        case SoftLine => if mode != Flat { Lines(1, command.indent, command.anchor); }
        case HardLine => Lines(1, command.indent, command.anchor);
        case BlankLine => Lines(2, command.indent, command.anchor);
        case Group(inner) =>
          var flat := mode == Flat;
          if !flat {
            flat := MeasureDocs([inner], rest, false);
          }
          left := Push(rest, Inner(command, ModeOf(flat), inner));
        case Indent(inner) => left := Push(rest, Inner(command, mode, inner).(indent := command.indent + knobs.indent));
        case Margin(inner) => left := Push(rest, Inner(command, mode, inner).(indent := 0, anchor := None));
        case Align(inner) =>
          var (indent, anchor) := Alignment(State());
          left := Push(rest, Inner(command, mode, inner).(indent := indent, anchor := anchor));
        case Fill(parts) => left := Fill(command, parts, rest);
        case Prefer(first, otherwise) =>
          var kept := mode == Flat;
          if !kept {
            kept := FitsPrinted(Inner(command, mode, first), rest);
          }
          left := Push(rest, Inner(command, mode, if kept then first else otherwise));
        case Table(inner, strict) =>
          tables := tables + 1;
          left := Push(rest, Inner(command, mode, inner).(table := Some((tables, strict))));
        case Cell(index) => Cell(command.table, index);
        case Trailing(inner) =>
          var was := cramped;
          Run(Push([], Inner(command, mode, inner)), 0);
          cramped := was;
        case Concat(docs) => left := PushAll(rest, command, mode, docs);
    }
  }

  lemma TopSize(stack: seq<Command>)
    requires stack != []
    ensures StackSize(stack) == StackSize(stack[..|stack| - 1]) + WorkSize(stack[|stack| - 1].work)
    ensures StackSize([]) == 0
  {
  }

  /** What measuring one document comes to: an answer, or the separation and the room left. */
  method MeasureOne(mode: Mode, doc: Doc, gap: Gap, left: int, firstLine: bool, ghost command: Command)
    returns (settled: Option<bool>, after: Gap, room: int)
    requires command.mode == mode && command.work == One(doc)
    ensures var turn := Turned(command, gap, left, firstLine);
      if settled.Some? then turn == Settled(settled.value) else turn.On? && turn.gap == after && turn.left == room
  {
    hide Only, Queued, Size;
    settled, after, room := None, gap, left;
    match doc
    case Text(text) =>
      if text != "" {
        room := room - |text| - Spaced(gap);
        after := NoGap;
      }
      if room < 0 {
        settled := Some(false);
      }
    case HardLine => settled := Some(mode == Break || firstLine);
    case BlankLine => settled := Some(mode == Break || firstLine);
    case _ =>
      if (doc.Line? || doc.SoftLine?) && mode == Break {
        settled := Some(true);
      } else if (doc.Space? || doc.Line?) && gap.NoGap? {
        after := SpaceGap;
      }
  }

  /** Measures `docs` and then `rest`, what is to do kept apart from the commands below it. */
  method MeasureFrom(docs: seq<Doc>, rest: seq<Command>, firstLine: bool, gap: Gap, room: int) returns (fits: bool)
    ensures fits == Measure(PushAll(rest, PLAIN, Flat, docs), gap, room, firstLine)
  {
    hide *;
    var pending, left := gap, room;
    var todo, below := Flipped(Flat, docs), |rest|;
    ghost var stack := PushAll(rest, PLAIN, Flat, docs);
    ghost var answer := Measured(stack, pending, left, firstLine);
    Begun(docs, rest, gap, room, firstLine);
    assert rest[..below] == rest;
    while true
      invariant below <= |rest| && Stands(todo, rest[..below], stack)
      invariant Measured(stack, pending, left, firstLine) == answer
      decreases StackSize(stack), below
    {
      if todo == [] {
        if below == 0 {
          NothingLeft(stack, rest[..below], pending, left, firstLine);
          return true;
        }
        below := below - 1;
        assert rest[..below + 1][..below] == rest[..below];
        NextBelow(rest[..below + 1], stack, pending, left, firstLine);
        match rest[below].work
        case One(doc) =>
          todo := [(rest[below].mode, doc)];
        case Parts(parts) =>
          todo := Flipped(rest[below].mode, parts);
          stack := stack[..|stack| - 1] + Queued(rest[below], rest[below].mode, parts);
      } else {
        var (mode, doc) := todo[|todo| - 1];
        TopStands(todo, rest[..below], stack);
        ghost var top := stack[|stack| - 1];
        MeasuredOne(stack, pending, left, firstLine);
        var settled, after, narrower := MeasureOne(mode, doc, pending, left, firstLine, top);
        if settled.Some? {
          IsMeasured(docs, rest, gap, room, firstLine, answer);
          return settled.value;
        }
        ghost var held := Turned(top, pending, left, firstLine).held;
        HeldStands(top, doc, pending, left, firstLine);
        StandsMore(todo[..|todo| - 1], rest[..below], stack[..|stack| - 1], Held(mode, doc), held);
        todo := todo[..|todo| - 1] + Held(mode, doc);
        stack := stack[..|stack| - 1] + held;
        pending, left := after, narrower;
      }
    }
  }

  lemma Begun(docs: seq<Doc>, rest: seq<Command>, gap: Gap, left: int, firstLine: bool)
    ensures Stands(Flipped(Flat, docs), rest, PushAll(rest, PLAIN, Flat, docs))
    ensures var r := Measured(PushAll(rest, PLAIN, Flat, docs), gap, left, firstLine);
      Measure(PushAll(rest, PLAIN, Flat, docs), gap, left, firstLine) == (r.On? || r.fits)
  {
    hide Measured, StackSize, Queued, Flipped;
    QueuedStands(PLAIN, Flat, docs);
    StandsMore([], rest, rest, Flipped(Flat, docs), Queued(PLAIN, Flat, docs));
    assert [] + Flipped(Flat, docs) == Flipped(Flat, docs);
  }

  lemma NothingLeft(stack: seq<Command>, rest: seq<Command>, gap: Gap, left: int, firstLine: bool)
    requires Stands([], rest, stack) && rest == []
    ensures Measured(stack, gap, left, firstLine) == On([], gap, left)
  {
    assert stack == [];
  }

  lemma IsMeasured(docs: seq<Doc>, rest: seq<Command>, gap: Gap, left: int, firstLine: bool, answer: Turn)
    requires Measured(PushAll(rest, PLAIN, Flat, docs), gap, left, firstLine) == answer
    ensures Measure(PushAll(rest, PLAIN, Flat, docs), gap, left, firstLine) == (answer.On? || answer.fits)
  {
    hide Measured;
  }

  lemma TopStands(todo: seq<(Mode, Doc)>, rest: seq<Command>, stack: seq<Command>)
    requires Stands(todo, rest, stack) && todo != []
    ensures stack != [] && stack[|stack| - 1].mode == todo[|todo| - 1].0 && stack[|stack| - 1].work == One(todo[|todo| - 1].1)
    ensures Stands(todo[..|todo| - 1], rest, stack[..|stack| - 1])
  {
  }

  /** The next command below is taken: a document as it is, a fill by its parts. */
  lemma {:induction false} NextBelow(rest: seq<Command>, stack: seq<Command>, gap: Gap, left: int, firstLine: bool)
    requires Stands([], rest, stack) && rest != []
    ensures var top, under := rest[|rest| - 1], rest[..|rest| - 1];
      match top.work
      case One(doc) => Stands([(top.mode, doc)], under, stack)
      case Parts(parts) =>
        var more := stack[..|stack| - 1] + Queued(top, top.mode, parts);
        && stack != [] && Stands(Flipped(top.mode, parts), under, more)
        && Measured(more, gap, left, firstLine) == Measured(stack, gap, left, firstLine)
        && StackSize(more) < StackSize(stack)
  {
    hide Measured, StackSize, Queued, Flipped, Sizes, Size;
    var top, under := rest[|rest| - 1], rest[..|rest| - 1];
    assert stack == rest;
    if top.work.Parts? {
      MeasuredOne(stack, gap, left, firstLine);
      QueuedStands(top, top.mode, top.work.parts);
      StandsMore([], under, under, Flipped(top.mode, top.work.parts), Queued(top, top.mode, top.work.parts));
      assert [] + Flipped(top.mode, top.work.parts) == Flipped(top.mode, top.work.parts);
    }
  }
}
