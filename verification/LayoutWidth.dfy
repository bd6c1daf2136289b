/**
 * Measuring predicts printing: what the measure lets onto a line ends within the width,
 * all the way to the next line break, whatever the groups and fills still to come decide
 * for themselves.
 */
module LayoutWidth {
  import opened Wrappers
  import opened Layout

  /**
   * Documents the measure and the printer read alike. Left out are the two layouts of a
   * `Prefer`, of which the measure only sees the first, and trailing comments, which it
   * does not see at all. A fill alternates parts and lines.
   */
  predicate Plain(doc: Doc)
    decreases doc, 1
  {
    match doc
    case Group(doc) => Plain(doc)
    case Indent(doc) => Plain(doc)
    case Margin(doc) => Plain(doc)
    case Align(doc) => Plain(doc)
    case Table(doc, _) => Plain(doc)
    case Concat(docs) => AllPlain(docs)
    case Fill(parts) => AllPlain(parts) && (parts == [] || Alternates(parts))
    case Prefer(_, _) => false
    case Trailing(_) => false
    case _ => true
  }

  predicate AllPlain(docs: seq<Doc>)
    decreases docs, 0
  {
    docs == [] || (Plain(docs[0]) && AllPlain(docs[1..]))
  }

  /** Parts with a line between each and the next. */
  predicate Alternates(parts: seq<Doc>) {
    |parts| == 1 || (|parts| > 2 && parts[1] == Line && Alternates(parts[2..]))
  }

  predicate PlainWork(work: Work) {
    match work
    case One(doc) => Plain(doc)
    case Parts(parts) => AllPlain(parts) && (parts == [] || Alternates(parts))
  }

  predicate PlainStack(stack: seq<Command>) {
    forall i :: 0 <= i < |stack| ==> PlainWork(stack[i].work)
  }

  /** The command asks for a line break. */
  predicate Breaks(command: Command) {
    match command.work
    case Parts(_) => false
    case One(doc) =>
      match doc
      case Line => command.mode == Break
      case SoftLine => command.mode == Break
      case HardLine => true
      case BlankLine => true
      case _ => false
  }

  /** Each text printed from here up to the next line break ends within the width. */
  predicate LineFits(p: State, stack: seq<Command>)
    decreases StackSize(stack)
  {
    stack == [] || Breaks(stack[|stack| - 1])
    || var (q, left) := Step(p, stack);
       && (q.out != p.out ==> q.column <= q.knobs.width)
       && LineFits(q, left)
  }

  /** What is left of the line once the pending separation is written. */
  function Left(p: State): int {
    p.knobs.width - StartColumn(p)
  }

  // ----- one turn of the measure

  /** With more room a turn comes to the same, with as much more of it left. */
  lemma TurnedMore(command: Command, gap: Gap, left: int, more: int, firstLine: bool)
    requires left <= more
    ensures match Turned(command, gap, left, firstLine)
      case Settled(fits) => fits ==> Turned(command, gap, more, firstLine) == Settled(true)
      case On(held, after, room) => Turned(command, gap, more, firstLine) == On(held, after, room + more - left)
  {
    hide Queued, Only, Inside, StackSize, Size, Sizes;
  }

  lemma TurnedFirst(command: Command, gap: Gap, left: int)
    ensures var whole, first := Turned(command, gap, left, false), Turned(command, gap, left, true);
      first == whole || (whole == Settled(false) && first == Settled(true) && command.mode == Flat)
  {
    hide Queued, Only, Inside, StackSize, Size, Sizes;
  }

  /** The documents queued, from the last to the first. */
  lemma {:induction false} QueuedAt(command: Command, mode: Mode, docs: seq<Doc>)
    ensures forall i :: 0 <= i < |docs| ==>
      Queued(command, mode, docs)[i] == Inner(command, mode, docs[|docs| - 1 - i])
    decreases docs
  {
    hide StackSize, Sizes, Size;
    if docs != [] {
      QueuedAt(command, mode, docs[1..]);
    }
  }

  lemma {:induction false} QueuedAlike(a: Command, b: Command, aMode: Mode, bMode: Mode, docs: seq<Doc>)
    ensures Alike(Queued(a, aMode, docs), Queued(b, bMode, docs))
    ensures AllIn(aMode, Queued(a, aMode, docs)) && AllIn(bMode, Queued(b, bMode, docs))
  {
    hide Queued, StackSize, Sizes, Size;
    QueuedAt(a, aMode, docs);
    QueuedAt(b, bMode, docs);
  }

  predicate AllIn(mode: Mode, stack: seq<Command>) {
    forall i :: 0 <= i < |stack| ==> stack[i].mode == mode
  }

  /** The same documents, whatever else their commands inherit. */
  predicate Alike(a: seq<Command>, b: seq<Command>) {
    |a| == |b| && forall i :: 0 <= i < |a| ==> a[i].work == b[i].work
  }

  /** Two turns on one document go alike, unless one breaks where the other does not. */
  lemma TurnedAlike(a: Command, b: Command, gap: Gap, left: int, firstLine: bool)
    requires a.work == b.work && (a.mode == b.mode || (a.mode == Flat && firstLine))
    ensures var f, s := Turned(a, gap, left, firstLine), Turned(b, gap, left, firstLine);
      match f
      case Settled(fits) => fits || a.mode == b.mode ==> s == f
      case On(held, after, room) =>
        || (s == Settled(true) && a.mode != b.mode)
        || (s.On? && Alike(held, s.held) && AllIn(a.mode, held) && AllIn(b.mode, s.held)
            && s.gap == after && s.left == room)
  {
    hide Queued, Inside, StackSize, Size, Sizes;
    match a.work
    case Parts(parts) => QueuedAlike(a, b, a.mode, b.mode, parts);
    case One(doc) =>
      match doc
      case Concat(docs) => QueuedAlike(a, b, a.mode, b.mode, docs);
      case Fill(parts) => QueuedAlike(a, b, a.mode, b.mode, parts);
      case _ =>
  }

  // ----- the measure, one part of a stack at a time

  /** What is on top is measured first, and what is under it with the room that leaves. */
  lemma {:induction false} MeasuredOver(under: seq<Command>, top: seq<Command>, gap: Gap, left: int, firstLine: bool)
    ensures Measured(under + top, gap, left, firstLine) == (
      match Measured(top, gap, left, firstLine)
      case Settled(fits) => Settled(fits)
      case On(_, after, room) => Measured(under, after, room, firstLine))
    decreases StackSize(top)
  {
    hide Turned;
    if top == [] {
      assert under + top == under;
    } else {
      var n := |top| - 1;
      assert (under + top)[..|under| + n] == under + top[..n] && (under + top)[|under| + n] == top[n];
      match Turned(top[n], gap, left, firstLine)
      case Settled(_) =>
      case On(held, after, room) =>
        TurnedShrinks(top[n], gap, left, firstLine);
        StackSizeAppend(top[..n], held);
        assert under + top[..n] + held == under + (top[..n] + held);
        MeasuredOver(under, top[..n] + held, after, room, firstLine);
    }
  }

  /** With more room the same is measured, with as much more of it left. */
  lemma {:induction false} MoreRoom(stack: seq<Command>, gap: Gap, left: int, more: int, firstLine: bool)
    requires left <= more && Measure(stack, gap, left, firstLine)
    ensures Measure(stack, gap, more, firstLine)
    ensures var less, r := Measured(stack, gap, left, firstLine), Measured(stack, gap, more, firstLine);
      less.On? ==> r == On([], less.gap, less.left + more - left)
    decreases StackSize(stack)
  {
    hide Turned;
    if stack != [] {
      var n := |stack| - 1;
      TurnedMore(stack[n], gap, left, more, firstLine);
      TurnedShrinks(stack[n], gap, left, firstLine);
      match Turned(stack[n], gap, left, firstLine)
      case Settled(_) =>
      case On(held, after, room) =>
        StackSizeAppend(stack[..n], held);
        MoreRoom(stack[..n] + held, after, room, room + more - left, firstLine);
    }
  }

  /** What can start the line needs no more than what is flat on it. */
  lemma {:induction false} FirstLineFits(stack: seq<Command>, gap: Gap, left: int)
    requires Measure(stack, gap, left, false)
    ensures Measure(stack, gap, left, true)
    ensures Measured(stack, gap, left, false).On? ==> Measured(stack, gap, left, true) == Measured(stack, gap, left, false)
    decreases StackSize(stack)
  {
    hide Turned;
    if stack != [] {
      var n := |stack| - 1;
      TurnedFirst(stack[n], gap, left);
      TurnedShrinks(stack[n], gap, left, false);
      TurnedShrinks(stack[n], gap, left, true);
      match Turned(stack[n], gap, left, false)
      case Settled(_) =>
      case On(held, after, room) =>
        StackSizeAppend(stack[..n], held);
        FirstLineFits(stack[..n] + held, after, room);
    }
  }

  /** Flat, only what breaks or does not fit settles the measure, and only for the worse. */
  lemma {:induction false} FlatUnsettled(stack: seq<Command>, gap: Gap, left: int)
    requires AllIn(Flat, stack) && Measured(stack, gap, left, true).On?
    ensures Measured(stack, gap, left, false) == Measured(stack, gap, left, true)
    decreases StackSize(stack)
  {
    hide Turned;
    if stack != [] {
      var n := |stack| - 1;
      TurnedFirst(stack[n], gap, left);
      TurnedShrinks(stack[n], gap, left, false);
      TurnedShrinks(stack[n], gap, left, true);
      TurnedAlike(stack[n], stack[n], gap, left, true);
      var turn := Turned(stack[n], gap, left, true);
      StackSizeAppend(stack[..n], turn.held);
      FlatUnsettled(stack[..n] + turn.held, turn.gap, turn.left);
    }
  }

  /** Turning from flat to broken settles the measure sooner, and then for the better. */
  lemma {:induction false} BrokenFits(flat: seq<Command>, broken: seq<Command>, gap: Gap, left: int)
    requires Alike(flat, broken) && AllIn(Flat, flat) && AllIn(Break, broken)
    requires Measure(flat, gap, left, true)
    ensures var f, b := Measured(flat, gap, left, true), Measured(broken, gap, left, true);
      b == Settled(true) || (b == f && f.On?)
    decreases StackSize(flat)
  {
    hide Turned;
    if flat != [] {
      var n := |flat| - 1;
      TurnedAlike(flat[n], broken[n], gap, left, true);
      TurnedShrinks(flat[n], gap, left, true);
      var turn, other := Turned(flat[n], gap, left, true), Turned(broken[n], gap, left, true);
      if turn.On? && other.On? {
        StackSizeAppend(flat[..n], turn.held);
        BrokenFits(flat[..n] + turn.held, broken[..n] + other.held, turn.gap, turn.left);
      }
    }
  }

  /** The measure reads nothing of a command but its document and its mode. */
  lemma {:induction false} SameMeasure(a: seq<Command>, b: seq<Command>, gap: Gap, left: int, firstLine: bool)
    requires Alike(a, b) && forall i :: 0 <= i < |a| ==> a[i].mode == b[i].mode
    ensures Measured(a, gap, left, firstLine) == Measured(b, gap, left, firstLine)
    decreases StackSize(a)
  {
    hide Turned;
    if a != [] {
      var n := |a| - 1;
      TurnedAlike(a[n], b[n], gap, left, firstLine);
      TurnedShrinks(a[n], gap, left, firstLine);
      var turn, other := Turned(a[n], gap, left, firstLine), Turned(b[n], gap, left, firstLine);
      if turn.On? {
        StackSizeAppend(a[..n], turn.held);
        SameMeasure(a[..n] + turn.held, b[..n] + other.held, turn.gap, turn.left, firstLine);
      }
    }
  }


  // ----- a fill decides part by part

  lemma {:induction false} QueuedFirst(command: Command, mode: Mode, docs: seq<Doc>)
    requires docs != []
    ensures Queued(command, mode, docs) == Queued(command, mode, docs[1..]) + [Inner(command, mode, docs[0])]
  {
  }

  /** On top of anything, one command is measured first. */
  lemma {:induction false} TopFirst(under: seq<Command>, top: Command, gap: Gap, left: int, firstLine: bool)
    ensures var alone := Measured([top], gap, left, firstLine);
      Measure(under + [top], gap, left, firstLine) ==
        if alone.Settled? then alone.fits else Measure(under, alone.gap, alone.left, firstLine)
  {
    MeasuredOver(under, [top], gap, left, firstLine);
  }

  lemma {:induction false} TurnedAlone(top: Command, gap: Gap, left: int, firstLine: bool)
    ensures match Turned(top, gap, left, firstLine)
      case Settled(fits) => Measured([top], gap, left, firstLine) == Settled(fits)
      case On(held, after, room) => Measured([top], gap, left, firstLine) == Measured(held, after, room, firstLine)
  {
    hide Turned;
    assert [top][..0] == [];
    var turn := Turned(top, gap, left, firstLine);
    if turn.On? {
      assert [] + turn.held == turn.held;
    }
  }

  /** What a fill queues fits if the fill itself, broken, was measured to. */
  lemma {:induction false} FillKeeps(p: State, command: Command, parts: seq<Doc>, rest: seq<Command>)
    requires PlainWork(Parts(parts)) && command.mode == Break
    requires Measure(rest + Queued(command, Break, parts), p.gap, Left(p), true)
    ensures Measure(PushFill(p, command, parts, rest), p.gap, Left(p), true)
  {
    hide Measured, Turned;
    if parts == [] {
      assert rest + Queued(command, Break, parts) == rest;
    } else if |parts| == 1 {
      QueuedFirst(command, Break, parts);
      assert Queued(command, Break, parts) == [Inner(command, Break, parts[0])];
      if Fits(p, parts, rest) {
        FlatOnTop(p, command, parts[0], rest);
      }
    } else {
      FillKeepsMore(p, command, parts, rest);
    }
  }

  /** A document that fits flat on top of `rest` can be put there flat. */
  lemma {:induction false} FlatOnTop(p: State, command: Command, doc: Doc, rest: seq<Command>)
    requires Fits(p, [doc], rest)
    ensures Measure(rest + [Inner(command, Flat, doc)], p.gap, Left(p), true)
  {
    hide Measured, Turned;
    QueuedFirst(PLAIN, Flat, [doc]);
    var plain, mine := rest + [Inner(PLAIN, Flat, doc)], rest + [Inner(command, Flat, doc)];
    assert rest + Queued(PLAIN, Flat, [doc]) == plain;
    SameMeasure(plain, mine, p.gap, Left(p), false);
    FirstLineFits(mine, p.gap, Left(p));
  }

  lemma {:induction false} FillKeepsMore(p: State, command: Command, parts: seq<Doc>, rest: seq<Command>)
    requires PlainWork(Parts(parts)) && command.mode == Break && |parts| > 1
    requires Measure(rest + Queued(command, Break, parts), p.gap, Left(p), true)
    ensures Measure(PushFill(p, command, parts, rest), p.gap, Left(p), true)
  {
    hide Measured, Turned;
    var flat, both := Fits(p, parts[..1], []), Starts(p, parts[..3], if |parts| == 3 then rest else []);
    var top := Inner(command, ModeOf(flat), parts[0]);
    var separator := Inner(command, ModeOf(both), Line);
    var later := rest + [command.(work := Parts(parts[2..]))];
    assert PushFill(p, command, parts, rest) == later + [separator] + [top];
    TopFirst(later + [separator], top, p.gap, Left(p), true);
    var alone := Measured([top], p.gap, Left(p), true);
    PartFits(p, command, parts, rest);
    if alone.On? {
      TopFirst(later, separator, alone.gap, alone.left, true);
      LineAlone(separator, alone.gap, alone.left);
      if both {
        NextFits(p, command, parts, rest);
      }
    }
  }

  lemma {:induction false} LineAlone(line: Command, gap: Gap, left: int)
    requires line.work == One(Line)
    ensures Measured([line], gap, left, true) ==
      if line.mode == Break then Settled(true) else On([], if gap.NoGap? then SpaceGap else gap, left)
  {
    TurnedAlone(line, gap, left, true);
  }

  /** The first part fits as it was queued, and passes flat whenever the separator is. */
  lemma {:induction false} PartFits(p: State, command: Command, parts: seq<Doc>, rest: seq<Command>)
    requires PlainWork(Parts(parts)) && command.mode == Break && |parts| > 1
    requires Measure(rest + Queued(command, Break, parts), p.gap, Left(p), true)
    ensures var flat, both := Fits(p, parts[..1], []), Starts(p, parts[..3], if |parts| == 3 then rest else []);
      var alone := Measured([Inner(command, ModeOf(flat), parts[0])], p.gap, Left(p), true);
      (alone.Settled? ==> alone.fits) && (alone.On? && both ==> flat)
  {
    hide Measured, Turned, Fits, Starts, Queued;
    if Fits(p, parts[..1], []) {
      PartFlat(p, command, parts);
    } else {
      PartBroken(p, command, parts, rest);
      if Starts(p, parts[..3], if |parts| == 3 then rest else []) {
        PartStarts(p, command, parts, rest);
        PartUnfit(p, command, parts);
      }
    }
  }

  lemma {:induction false} PartFlat(p: State, command: Command, parts: seq<Doc>)
    requires |parts| > 1 && Fits(p, parts[..1], [])
    ensures Measure([Inner(command, Flat, parts[0])], p.gap, Left(p), true)
  {
    hide Measured, Turned, Fits, Queued;
    assert parts[..1] == [parts[0]];
    FlatOnTop(p, command, parts[0], []);
    assert [] + [Inner(command, Flat, parts[0])] == [Inner(command, Flat, parts[0])];
  }

  lemma {:induction false} PartBroken(p: State, command: Command, parts: seq<Doc>, rest: seq<Command>)
    requires |parts| > 1 && Measure(rest + Queued(command, Break, parts), p.gap, Left(p), true)
    ensures Measure([Inner(command, Break, parts[0])], p.gap, Left(p), true)
  {
    hide Measured, Turned, Queued;
    QueuedFirst(command, Break, parts);
    var under, part := rest + Queued(command, Break, parts[1..]), Inner(command, Break, parts[0]);
    assert rest + Queued(command, Break, parts) == under + [part];
    TopFirst(under, part, p.gap, Left(p), true);
  }

  /** A part that starts the line but does not fit flat settles the measure broken. */
  lemma {:induction false} PartUnfit(p: State, command: Command, parts: seq<Doc>)
    requires |parts| > 1 && !Fits(p, parts[..1], [])
    requires Measure([Inner(command, Flat, parts[0])], p.gap, Left(p), true)
    ensures Measured([Inner(command, Break, parts[0])], p.gap, Left(p), true).Settled?
  {
    hide Measured, Turned, StackSize, Size, Sizes, Queued;
    var gap, left, part := p.gap, Left(p), parts[0];
    var inFlat, inBreak := Inner(command, Flat, part), Inner(command, Break, part);
    BrokenFits([inFlat], [inBreak], gap, left);
    if Measured([inFlat], gap, left, true).On? {
      FlatUnsettled([inFlat], gap, left);
      QueuedFirst(PLAIN, Flat, [part]);
      assert parts[..1] == [part] && [] + Queued(PLAIN, Flat, [part]) == [Inner(PLAIN, Flat, part)];
      SameMeasure([Inner(PLAIN, Flat, part)], [inFlat], gap, left, false);
      assert false;
    }
  }

  /** What `Starts` measures, part by part. */
  lemma {:induction false} PartStarts(p: State, command: Command, parts: seq<Doc>, rest: seq<Command>)
    requires PlainWork(Parts(parts)) && |parts| > 1
    requires Starts(p, parts[..3], if |parts| == 3 then rest else [])
    ensures Measure([Inner(command, Flat, parts[0])], p.gap, Left(p), true)
    ensures var alone := Measured([Inner(command, Flat, parts[0])], p.gap, Left(p), true);
      alone.On? ==>
        var under := if |parts| == 3 then rest else [];
        Measure(under + [Inner(command, Flat, parts[2])], if alone.gap.NoGap? then SpaceGap else alone.gap, alone.left, true)
  {
    hide Measured, Turned, Queued, AllPlain;
    var gap, left, under := p.gap, Left(p), if |parts| == 3 then rest else [];
    var three := parts[..3];
    var first, line, next := Inner(command, Flat, parts[0]), Inner(command, Flat, Line), Inner(command, Flat, parts[2]);
    QueuedFirst(PLAIN, Flat, three);
    QueuedFirst(PLAIN, Flat, three[1..]);
    QueuedFirst(PLAIN, Flat, three[2..]);
    assert three[1..][1..] == three[2..] && three[2..][1..] == [];
    QueuedAlike(PLAIN, command, Flat, Flat, three);
    var mine := under + [next] + [line] + [first];
    SameMeasure(under + Queued(PLAIN, Flat, three), mine, gap, left, true);
    TopFirst(under + [next] + [line], first, gap, left, true);
    var alone := Measured([first], gap, left, true);
    if alone.On? {
      TopFirst(under + [next], line, alone.gap, alone.left, true);
      LineAlone(line, alone.gap, alone.left);
    }
  }

  /** With the separator flat, the next part fits after it however it is queued itself. */
  lemma {:induction false} NextFits(p: State, command: Command, parts: seq<Doc>, rest: seq<Command>)
    requires PlainWork(Parts(parts)) && command.mode == Break && |parts| > 1
    requires Starts(p, parts[..3], if |parts| == 3 then rest else [])
    requires Measured([Inner(command, Flat, parts[0])], p.gap, Left(p), true).On?
    ensures var alone := Measured([Inner(command, Flat, parts[0])], p.gap, Left(p), true);
      Measure(rest + [command.(work := Parts(parts[2..]))],
              if alone.gap.NoGap? then SpaceGap else alone.gap, alone.left, true)
  {
    hide Measured, Turned, Fits, Starts, Queued, AllPlain;
    var alone := Measured([Inner(command, Flat, parts[0])], p.gap, Left(p), true);
    var gap, left := if alone.gap.NoGap? then SpaceGap else alone.gap, alone.left;
    PartStarts(p, command, parts, rest);
    var tail := parts[2..];
    assert Alternates(parts) && Alternates(tail);
    NextOver(command, tail, rest, gap, left);
  }

  /** A fill goes on over `rest` if its first part fits flat up to where it next breaks. */
  lemma {:induction false} NextOver(command: Command, parts: seq<Doc>, rest: seq<Command>, gap: Gap, left: int)
    requires command.mode == Break && parts != [] && (|parts| == 1 || parts[1] == Line)
    requires Measure((if |parts| == 1 then rest else []) + [Inner(command, Flat, parts[0])], gap, left, true)
    ensures Measure(rest + [command.(work := Parts(parts))], gap, left, true)
  {
    hide Measured, Turned, Queued;
    var fill := command.(work := Parts(parts));
    var inFlat, next := Inner(command, Flat, parts[0]), Inner(fill, Break, parts[0]);
    TopFirst(if |parts| == 1 then rest else [], inFlat, gap, left, true);
    BrokenFits([inFlat], [next], gap, left);
    var after := Measured([next], gap, left, true);
    TopFirst(rest, fill, gap, left, true);
    TurnedAlone(fill, gap, left, true);
    TurnedFill(fill, gap, left);
    QueuedFirst(fill, Break, parts);
    var more := Queued(fill, Break, parts[1..]);
    MeasuredOver(more, [next], gap, left, true);
    if after.On? {
      if |parts| == 1 {
        QueuedNone(fill);
        MeasuredNone(after.gap, after.left);
      } else {
        QueuedFirst(fill, Break, parts[1..]);
        var line := Inner(fill, Break, Line);
        MeasuredOver(Queued(fill, Break, parts[1..][1..]), [line], after.gap, after.left, true);
        LineAlone(line, after.gap, after.left);
      }
    }
  }

  lemma QueuedNone(command: Command)
    ensures Queued(command, Break, []) == []
  {
  }

  lemma TurnedFill(fill: Command, gap: Gap, left: int)
    requires fill.work.Parts?
    ensures Turned(fill, gap, left, true) == On(Queued(fill, fill.mode, fill.work.parts), gap, left)
  {
  }

  lemma MeasuredNone(gap: Gap, left: int)
    ensures Measured([], gap, left, true) == On([], gap, left)
  {
  }

  // ----- the whole line

  lemma {:induction false} PlainAppend(a: seq<Command>, b: seq<Command>)
    requires PlainStack(a) && PlainStack(b)
    ensures PlainStack(a + b)
  {
  }

  lemma {:induction false} QueuedPlain(command: Command, mode: Mode, docs: seq<Doc>)
    requires AllPlain(docs)
    ensures PlainStack(Queued(command, mode, docs))
    decreases docs
  {
    if docs != [] {
      QueuedPlain(command, mode, docs[1..]);
    }
  }

  lemma {:induction false} FillPlain(p: State, command: Command, parts: seq<Doc>, rest: seq<Command>)
    requires PlainStack(rest) && PlainWork(Parts(parts))
    ensures PlainStack(PushFill(p, command, parts, rest))
  {
    hide Fits, Starts, Queued, StackSize, Sizes;
    QueuedPlain(command, Flat, parts);
    if |parts| > 1 {
      var tail := parts[1..];
      assert AllPlain(tail) && tail[0] == parts[1] && tail[1..] == parts[2..];
    }
  }

  /** Writing text takes no more of the line than the measure counts. */
  lemma {:induction false} WriteCounts(p: State, text: string)
    requires text != ""
    ensures Left(p) - |text| - Spaced(p.gap) <= Left(Write(p, text)) == p.knobs.width - Write(p, text).column
    ensures Write(p, text).gap == NoGap && Write(p, text).knobs == p.knobs
  {
  }

  /**
   * What a measured line promises of the rest of the run: each text up to the next line
   * break ends within the width.
   */
  lemma {:induction false} MeasuredLineFits(p: State, stack: seq<Command>)
    requires PlainStack(stack) && Measure(stack, p.gap, Left(p), true)
    ensures LineFits(p, stack)
    decreases StackSize(stack)
  {
    if stack != [] && !Breaks(stack[|stack| - 1]) {
      var command, rest := stack[|stack| - 1], stack[..|stack| - 1];
      assert stack == rest + [command];
      TopFirst(rest, command, p.gap, Left(p), true);
      TurnedAlone(command, p.gap, Left(p), true);
      var (q, left) := Step(p, stack);
      StepKeeps(p, stack);
      MeasuredLineFits(q, left);
    }
  }

  /** One turn of the printer keeps what is measured, and passes no text over the width. */
  lemma {:induction false} StepKeeps(p: State, stack: seq<Command>)
    requires stack != [] && !Breaks(stack[|stack| - 1])
    requires PlainStack(stack) && Measure(stack, p.gap, Left(p), true)
    ensures var (q, left) := Step(p, stack);
      && PlainStack(left) && Measure(left, q.gap, Left(q), true)
      && (q.out != p.out ==> q.column <= q.knobs.width)
  {
    hide Measured, Turned, Fits, Starts, PushFill, Queued, Flush;
    var command, rest := stack[|stack| - 1], stack[..|stack| - 1];
    assert stack == rest + [command];
    OneTurn(rest, command, p.gap, Left(p));
    if command.work.Parts? || command.work.doc.Fill? {
      StepKeepsFill(p, command, rest);
    } else {
      StepKeepsOne(p, command, rest);
    }
  }

  lemma {:induction false} OneTurn(rest: seq<Command>, command: Command, gap: Gap, left: int)
    ensures Measure(rest + [command], gap, left, true) == (
      match Turned(command, gap, left, true)
      case Settled(fits) => fits
      case On(held, after, room) => Measure(rest + held, after, room, true))
  {
    hide Turned;
    assert (rest + [command])[..|rest|] == rest;
  }

  lemma {:induction false} StepKeepsFill(p: State, command: Command, rest: seq<Command>)
    requires PlainStack(rest) && PlainWork(command.work)
    requires command.work.Parts? || command.work.doc.Fill?
    requires Measure(rest + [command], p.gap, Left(p), true)
    ensures var parts := if command.work.Parts? then command.work.parts else command.work.doc.parts;
      var left := PushFill(p, command, parts, rest);
      PlainStack(left) && Measure(left, p.gap, Left(p), true)
  {
    hide Measured;
    var parts := if command.work.Parts? then command.work.parts else command.work.doc.parts;
    OneTurn(rest, command, p.gap, Left(p));
    FillPlain(p, command, parts, rest);
    if command.mode == Break {
      FillKeeps(p, command, parts, rest);
    }
  }

  lemma {:induction false} StepKeepsOne(p: State, command: Command, rest: seq<Command>)
    requires PlainStack(rest) && PlainWork(command.work) && !Breaks(command)
    requires command.work.One? && !command.work.doc.Fill?
    requires Measure(rest + [command], p.gap, Left(p), true)
    ensures var (q, left) := Step(p, rest + [command]);
      && PlainStack(left) && Measure(left, q.gap, Left(q), true)
      && (q.out != p.out ==> q.column <= q.knobs.width)
  {
    hide Measured, Fits, Starts, PushFill, Queued, Flush;
    assert (rest + [command])[..|rest|] == rest;
    OneTurn(rest, command, p.gap, Left(p));
    assert rest + [] == rest;
    var mode, doc := command.mode, command.work.doc;
    match doc
    case Text(text) =>
      if text != "" {
        WriteCounts(p, text);
        MoreRoom(rest, NoGap, Left(p) - |text| - Spaced(p.gap), Left(Write(p, text)), true);
      }
    case Group(inner) =>
      if mode == Break && Fits(p, [inner], rest) {
        FlatOnTop(p, command, inner, rest);
      }
    case Indent(inner) => Inherits(p, rest, Inner(command, mode, inner), command.indent + p.knobs.indent, command.anchor, command.table);
    case Margin(inner) => Inherits(p, rest, Inner(command, mode, inner), 0, None, command.table);
    case Align(inner) => Inherits(p, rest, Inner(command, mode, inner), Alignment(p).0, Alignment(p).1, command.table);
    case Table(inner, strict) =>
      Inherits(p, rest, Inner(command, mode, inner), command.indent, command.anchor, Some((p.tables + 1, strict)));
    case Concat(docs) => QueuedPlain(command, mode, docs);
    case _ =>
  }

  /** What a command inherits apart from its mode makes no difference to the measure. */
  lemma {:induction false} Inherits(p: State, rest: seq<Command>, inner: Command, indent: nat, anchor: Option<Anchor>, table: Option<(nat, bool)>)
    requires Measure(rest + [inner], p.gap, Left(p), true)
    ensures Measure(rest + [inner.(indent := indent, anchor := anchor, table := table)], p.gap, Left(p), true)
  {
    hide Measured;
    SameMeasure(rest + [inner], rest + [inner.(indent := indent, anchor := anchor, table := table)], p.gap, Left(p), true);
  }

  /** A group laid flat because it fits: so does each text from there to the next line break. */
  lemma {:induction false} FlatGroupFits(p: State, command: Command, doc: Doc, rest: seq<Command>)
    requires PlainStack(rest) && Plain(doc) && Fits(p, [doc], rest)
    ensures LineFits(p, rest + [Inner(command, Flat, doc)])
  {
    FlatOnTop(p, command, doc, rest);
    assert PlainWork(Inner(command, Flat, doc).work);
    MeasuredLineFits(p, rest + [Inner(command, Flat, doc)]);
  }
}
