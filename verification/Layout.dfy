/**
 * Laying a document out: a stack machine whose separation waits for the next text, and
 * the measure that decides which groups stay on one line.
 *
 * Characters stand for both columns and bytes.
 */
module Layout {
  import opened Wrappers

  datatype Doc =
    | Text(text: string)
    | Space
    | Line
    | SoftLine
    | HardLine
    | BlankLine
    | Group(doc: Doc)
    | Indent(doc: Doc)
    | Margin(doc: Doc)
    | Align(doc: Doc)
    | Prefer(first: Doc, otherwise: Doc)
    | Fill(parts: seq<Doc>)
    | Table(doc: Doc, strict: bool)
    | Cell(index: nat)
    | Trailing(doc: Doc)
    | Concat(docs: seq<Doc>)

  /** What the printer is told: `newline` ends each line it breaks. */
  datatype Knobs = Knobs(width: nat, indent: nat, maxPad: nat, newline: string)

  datatype Mode = Flat | Break

  /** The text an aligned line is placed under: its line, and where it starts. */
  datatype Anchor = Anchor(line: nat, start: nat)

  /** The separation asked for since the last text. */
  datatype Gap = NoGap | SpaceGap | LinesGap(count: nat, indent: nat, anchor: Option<Anchor>)

  /** Where a cell of a table ended. */
  datatype CellMark = CellMark(table: nat, strict: bool, index: nat, block: nat, line: nat, offset: nat, column: nat)

  /** A line placed relative to text on an earlier one. */
  datatype Continuation = Continuation(line: nat, start: nat, offset: nat, limit: Option<nat>)

  datatype Work = One(doc: Doc) | Parts(parts: seq<Doc>)

  /** A document still to print, and what it inherits from around it. */
  datatype Command = Command(
    indent: nat, anchor: Option<Anchor>, mode: Mode, table: Option<(nat, bool)>, work: Work)

  datatype State = State(
    knobs: Knobs, out: string, column: nat, gap: Gap, line: nat, indent: nat, block: nat, tables: nat,
    anchor: Option<Anchor>, cramped: bool, cells: seq<CellMark>, continuations: seq<Continuation>, trial: bool)

  function Fresh(knobs: Knobs, column: nat): State {
    State(knobs, "", column, NoGap, 0, 0, 0, 0, None, false, [], [], false)
  }

  function Inner(command: Command, mode: Mode, doc: Doc): Command {
    command.(mode := mode, work := One(doc))
  }

  // ----- how much work is left

  function Size(doc: Doc): (size: nat)
    ensures size > 0
    decreases doc, 1
  {
    match doc
    case Group(doc) => 1 + Size(doc)
    case Indent(doc) => 1 + Size(doc)
    case Margin(doc) => 1 + Size(doc)
    case Align(doc) => 1 + Size(doc)
    case Prefer(first, otherwise) => 1 + Size(first) + Size(otherwise)
    case Fill(parts) => 1 + Sizes(parts)
    case Table(doc, _) => 1 + Size(doc)
    case Trailing(doc) => 1 + Size(doc)
    case Concat(docs) => 1 + Sizes(docs)
    case _ => 1
  }

  function Sizes(docs: seq<Doc>): nat
    decreases docs, 0
  {
    if docs == [] then 0 else 1 + Size(docs[0]) + Sizes(docs[1..])
  }

  function WorkSize(work: Work): nat {
    match work
    case One(doc) => Size(doc)
    case Parts(parts) => 1 + Sizes(parts)
  }

  function StackSize(stack: seq<Command>): nat {
    if stack == [] then 0 else StackSize(stack[..|stack| - 1]) + WorkSize(stack[|stack| - 1].work)
  }

  lemma {:induction false} StackSizeAppend(a: seq<Command>, b: seq<Command>)
    ensures StackSize(a + b) == StackSize(a) + StackSize(b)
    decreases |b|
  {
    if b == [] {
      assert a + b == a;
    } else {
      var n := |b| - 1;
      StackSizeAppend(a, b[..n]);
      assert (a + b)[..|a| + n] == a + b[..n] && (a + b)[|a| + n] == b[n];
    }
  }

  /** `docs` as commands, the first on top. */
  function Queued(command: Command, mode: Mode, docs: seq<Doc>): (r: seq<Command>)
    ensures StackSize(r) + |docs| == Sizes(docs) && |r| == |docs|
  {
    if docs == [] then []
    else
      var r := Queued(command, mode, docs[1..]) + [Inner(command, mode, docs[0])];
      assert r[..|r| - 1] == Queued(command, mode, docs[1..]);
      r
  }

  lemma {:induction false} OneSize(command: Command)
    ensures StackSize([command]) == WorkSize(command.work)
  {
    assert [command][..0] == [];
  }

  /** `doc` on its own, inheriting what `command` does. */
  function Only(command: Command, mode: Mode, doc: Doc): (r: seq<Command>)
    ensures StackSize(r) == Size(doc)
  {
    OneSize(Inner(command, mode, doc));
    [Inner(command, mode, doc)]
  }

  function Push(stack: seq<Command>, command: Command): (r: seq<Command>)
    ensures StackSize(r) == StackSize(stack) + WorkSize(command.work)
    ensures r == stack + [command]
  {
    StackSizeAppend(stack, [command]);
    OneSize(command);
    stack + [command]
  }

  /** `stack` with `docs` on it, the first on top. */
  function PushAll(stack: seq<Command>, command: Command, mode: Mode, docs: seq<Doc>): (r: seq<Command>)
    ensures StackSize(r) + |docs| == StackSize(stack) + Sizes(docs)
    ensures r == stack + Queued(command, mode, docs)
  {
    StackSizeAppend(stack, Queued(command, mode, docs));
    stack + Queued(command, mode, docs)
  }

  // ----- separation

  /** Whether a space asked for now would be written. */
  predicate WritesSpace(p: State) {
    p.gap.SpaceGap? && p.out != "" && p.out[|p.out| - 1] != ' '
  }

  function AskSpace(p: State): State {
    if p.gap.NoGap? then p.(gap := SpaceGap) else p
  }

  function AskLines(p: State, count: nat, indent: nat, anchor: Option<Anchor>): State {
    var most := if p.gap.LinesGap? && p.gap.count > count then p.gap.count else count;
    p.(gap := LinesGap(most, indent, anchor))
  }

  function Repeated(s: string, count: nat): string {
    if count == 0 then "" else s + Repeated(s, count - 1)
  }

  /** Writes the separation asked for; none goes before the first text. */
  function Flush(p: State): State {
    match p.gap
    case NoGap => p
    case SpaceGap =>
      if WritesSpace(p) then p.(out := p.out + " ", column := p.column + 1, gap := NoGap) else p.(gap := NoGap)
    case LinesGap(count, indent, anchor) =>
      var q :=
        if p.out == "" then p
        else
          var out := p.out + Repeated(p.knobs.newline, count);
          var placed := if anchor.None? then []
                        else [Continuation(anchor.value.line, anchor.value.start, |out|, None)];
          p.(out := out, line := p.line + count, block := p.block + (if count > 1 then 1 else 0),
             continuations := p.continuations + placed);
      q.(anchor := anchor, cramped := q.cramped || (anchor.Some? && indent > q.knobs.width / 2),
         out := q.out + Repeated(" ", indent), column := indent, indent := indent, gap := NoGap)
  }

  function Write(p: State, text: string): State {
    if text == "" then p
    else
      var q := Flush(p);
      var column := q.column + |text|;
      q.(out := q.out + text, column := column, cramped := q.cramped || column > q.knobs.width)
  }

  /** Where lines broken in an aligned group start: the column the next text does. */
  function Alignment(p: State): (nat, Option<Anchor>) {
    match p.gap
    case LinesGap(_, indent, anchor) => (indent, anchor)
    case _ =>
      var space := if WritesSpace(p) then 1 else 0;
      (p.column + space, if p.anchor.Some? then p.anchor else Some(Anchor(p.line, |p.out| + space)))
  }

  /** Notes the end of a cell, after the last text; one at the start of a line is nothing. */
  function NoteCell(p: State, table: Option<(nat, bool)>, index: nat): State {
    if table.None? || p.gap.LinesGap? then p
    else
      var space := if p.out != "" && p.out[|p.out| - 1] == ' ' then 1 else 0;
      var column := if space <= p.column then p.column - space else 0;
      p.(cells := p.cells + [CellMark(table.value.0, table.value.1, index, p.block, p.line, |p.out| - space, column)])
  }

  // ----- measuring

  /** The columns a pending gap adds in front of text on the same line. */
  function Spaced(gap: Gap): nat {
    if gap.SpaceGap? then 1 else 0
  }

  /** The column the next text on this line starts at, short of a space before it. */
  function StartColumn(p: State): nat {
    if p.gap.LinesGap? then p.gap.indent else p.column
  }

  /** What a document that only wraps another is measured as: a choice, as its first. */
  function Inside(doc: Doc): (inside: Doc)
    requires doc.Group? || doc.Indent? || doc.Margin? || doc.Align? || doc.Table? || doc.Prefer?
    ensures Size(inside) < Size(doc)
  {
    if doc.Prefer? then doc.first else doc.doc
  }

  /** What measuring one command comes to: an answer, or what it holds and the room left. */
  datatype Turn = Settled(fits: bool) | On(held: seq<Command>, gap: Gap, left: int)

  function Turned(command: Command, gap: Gap, left: int, firstLine: bool): Turn {
    var mode := command.mode;
    match command.work
    case Parts(parts) => On(Queued(command, mode, parts), gap, left)
    case One(doc) =>
      match doc
      case Text(text) =>
        var after := if text == "" then left else left - |text| - Spaced(gap);
        if after < 0 then Settled(false) else On([], if text == "" then gap else NoGap, after)
      case Space => On([], if gap.NoGap? then SpaceGap else gap, left)
      case Line => if mode == Break then Settled(true) else On([], if gap.NoGap? then SpaceGap else gap, left)
      case SoftLine => if mode == Break then Settled(true) else On([], gap, left)
      case HardLine => Settled(mode == Break || firstLine)
      case BlankLine => Settled(mode == Break || firstLine)
      case Cell(_) => On([], gap, left)
      case Trailing(_) => On([], gap, left)
      case Concat(docs) => On(Queued(command, mode, docs), gap, left)
      case Fill(parts) => On(Queued(command, mode, parts), gap, left)
      case _ => On(Only(command, mode, Inside(doc)), gap, left)
  }

  lemma TurnedShrinks(command: Command, gap: Gap, left: int, firstLine: bool)
    ensures var turn := Turned(command, gap, left, firstLine);
      turn.On? ==> StackSize(turn.held) < WorkSize(command.work)
  {
    hide Queued, Only, Inside, StackSize, Sizes;
    assert StackSize([]) == 0 by {
      NoSize();
    }
  }

  lemma NoSize()
    ensures StackSize([]) == 0
  {
  }

  /**
   * Measures the commands on `stack` from the top: an answer at a line break or past the
   * room there is, or what is left after the last of them.
   */
  function Measured(stack: seq<Command>, gap: Gap, left: int, firstLine: bool): (r: Turn)
    ensures r.On? ==> r.held == []
    decreases StackSize(stack)
  {
    if stack == [] then On([], gap, left)
    else
      var rest := stack[..|stack| - 1];
      match Turned(stack[|stack| - 1], gap, left, firstLine)
      case Settled(fits) => Settled(fits)
      case On(held, after, room) =>
        TurnedShrinks(stack[|stack| - 1], gap, left, firstLine);
        StackSizeAppend(rest, held);
        Measured(rest + held, after, room, firstLine)
  }

  /** Whether the commands on `stack` fit in `left` columns up to the next line break. */
  predicate Measure(stack: seq<Command>, gap: Gap, left: int, firstLine: bool) {
    var r := Measured(stack, gap, left, firstLine);
    r.On? || r.fits
  }

  const PLAIN := Command(0, None, Flat, None, Parts([]))

  /** Whether `docs`, flat, fit on the line with whatever follows them up to its end. */
  predicate Fits(p: State, docs: seq<Doc>, rest: seq<Command>) {
    Measure(PushAll(rest, PLAIN, Flat, docs), p.gap, p.knobs.width - StartColumn(p), false)
  }

  /** Whether a fill's next part can start on this line. */
  predicate Starts(p: State, docs: seq<Doc>, rest: seq<Command>) {
    Measure(PushAll(rest, PLAIN, Flat, docs), p.gap, p.knobs.width - StartColumn(p), true)
  }

  // ----- printing

  function ModeOf(flat: bool): Mode { if flat then Flat else Break }

  /** Queues the first part of a fill, the separator after it, and the rest of the fill. */
  function PushFill(p: State, command: Command, parts: seq<Doc>, stack: seq<Command>): (r: seq<Command>)
    ensures StackSize(r) < StackSize(stack) + 1 + Sizes(parts) && |r| >= |stack|
  {
    if command.mode == Flat then PushAll(stack, command, Flat, parts)
    else if parts == [] then stack
    else if |parts| == 1 then
      Push(stack, Inner(command, ModeOf(Fits(p, parts, stack)), parts[0]))
    else
      var flat := Fits(p, parts[..1], []);
      var both := if |parts| == 2 then flat else Starts(p, parts[..3], if |parts| == 3 then stack else []);
      var left := if |parts| == 2 then stack else Push(stack, command.(work := Parts(parts[2..])));
      assert Sizes(parts) == 1 + Size(parts[0]) + (1 + Size(parts[1]) + Sizes(parts[2..])) by {
        assert parts[1..][1..] == parts[2..];
      }
      Push(Push(left, Inner(command, ModeOf(both), parts[1])), Inner(command, ModeOf(flat), parts[0]))
  }

  /** One turn of the loop: the command on top is printed or replaced by what it holds. */
  function Step(p: State, stack: seq<Command>): (r: (State, seq<Command>))
    requires stack != []
    ensures StackSize(r.1) < StackSize(stack) && |r.1| >= |stack| - 1
    decreases StackSize(stack), 0
  {
    var command, rest := stack[|stack| - 1], stack[..|stack| - 1];
    var mode := command.mode;
    match command.work
    case Parts(parts) => (p, PushFill(p, command, parts, rest))
    case One(doc) =>
      match doc
      case Text(text) => (Write(p, text), rest)
      case Space => (AskSpace(p), rest)
      case Line =>
        (if mode == Flat then AskSpace(p) else AskLines(p, 1, command.indent, command.anchor), rest)
      case SoftLine => (if mode == Flat then p else AskLines(p, 1, command.indent, command.anchor), rest)
      case HardLine => (AskLines(p, 1, command.indent, command.anchor), rest)
      case BlankLine => (AskLines(p, 2, command.indent, command.anchor), rest)
      case Group(doc) =>
        (p, Push(rest, Inner(command, ModeOf(mode == Flat || Fits(p, [doc], rest)), doc)))
      case Indent(doc) =>
        (p, Push(rest, Inner(command, mode, doc).(indent := command.indent + p.knobs.indent)))
      case Margin(doc) => (p, Push(rest, Inner(command, mode, doc).(indent := 0, anchor := None)))
      case Align(doc) =>
        var (indent, anchor) := Alignment(p);
        (p, Push(rest, Inner(command, mode, doc).(indent := indent, anchor := anchor)))
      case Fill(parts) => (p, PushFill(p, command, parts, rest))
      case Prefer(first, otherwise) =>
        var kept := mode == Flat || FitsPrinted(p, Inner(command, mode, first), rest);
        (p, Push(rest, Inner(command, mode, if kept then first else otherwise)))
      case Table(doc, strict) =>
        var q := p.(tables := p.tables + 1);
        (q, Push(rest, Inner(command, mode, doc).(table := Some((q.tables, strict)))))
      case Cell(index) => (NoteCell(p, command.table, index), rest)
      case Trailing(doc) =>
        assert StackSize(Push([], Inner(command, mode, doc))) < StackSize(stack);
        var q := Run(p, Push([], Inner(command, mode, doc)), 0);
        (q.(cramped := p.cramped), rest)
      case Concat(docs) => (p, PushAll(rest, command, mode, docs))
  }

  /**
   * Whether `command`, printed from here, keeps every line within the width and aligns
   * none past half of it. A trial runs no trials of its own.
   */
  predicate FitsPrinted(p: State, command: Command, rest: seq<Command>)
    decreases StackSize(Push(rest, command)), 2
  {
    if p.trial then false
    else
      var column := match p.gap
        case LinesGap(_, indent, _) => indent
        case _ => p.column + (if WritesSpace(p) then 1 else 0);
      var trial := Fresh(p.knobs, column).(indent := p.indent, trial := true);
      var ran := Run(trial, Push(rest, command), |rest|);
      !ran.cramped && Fits(ran, [], rest)
  }

  /** Prints the commands on `stack` until only `until` of them are left. */
  function Run(p: State, stack: seq<Command>, until: nat): State
    decreases StackSize(stack), 1
  {
    if |stack| <= until then p
    else
      var (q, left) := Step(p, stack);
      Run(q, left, until)
  }
}
