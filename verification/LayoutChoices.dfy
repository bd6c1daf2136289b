/**
 * When a group stays on its line: exactly when its text does, flat, with whatever follows
 * up to the next place a line breaks, all of it read off the documents.
 */
module LayoutChoices {
  import opened Wrappers
  import opened Layout
  import opened LayoutSpacing
  import opened LayoutColumns
  import opened LayoutItems
  import opened LayoutIndent

  function WorkAhead(work: Work, flat: bool): Ahead {
    match work
    case One(doc) => AheadOf(doc, flat)
    case Parts(parts) => AllAhead(parts, flat)
  }

  /** Of the commands on a stack, the one on top first. */
  function StackAhead(stack: seq<Command>): Ahead {
    if stack == [] then NOTHING_AHEAD
    else Then(WorkAhead(stack[|stack| - 1].work, stack[|stack| - 1].mode == Flat), StackAhead(stack[..|stack| - 1]))
  }

  /** What a separation asked for is since the last word. */
  function SinceGap(gap: Gap): Since {
    match gap
    case NoGap => Nothing
    case SpaceGap => ABlank
    case LinesGap(_, _, _) => ALine
  }

  // ----- the measure

  lemma ThenThen(a: Ahead, b: Ahead, c: Ahead)
    ensures Then(Then(a, b), c) == Then(a, Then(b, c))
  {
    assert a.items + b.items + c.items == a.items + (b.items + c.items);
  }

  lemma ThenNothing(a: Ahead)
    ensures Then(NOTHING_AHEAD, a) == a && Then(a, NOTHING_AHEAD) == a
  {
    assert [] + a.items == a.items && a.items + [] == a.items;
  }

  lemma {:induction false} AheadOver(under: seq<Command>, top: seq<Command>)
    ensures StackAhead(under + top) == Then(StackAhead(top), StackAhead(under))
    decreases |top|
  {
    hide WorkAhead, Then;
    if top == [] {
      assert under + top == under;
      ThenNothing(StackAhead(under));
    } else {
      var n := |top| - 1;
      assert (under + top)[..|under| + n] == under + top[..n] && (under + top)[|under| + n] == top[n];
      AheadOver(under, top[..n]);
      ThenThen(WorkAhead(top[n].work, top[n].mode == Flat), StackAhead(top[..n]), StackAhead(under));
    }
  }

  lemma OneAhead(command: Command)
    ensures StackAhead([command]) == WorkAhead(command.work, command.mode == Flat)
  {
    assert [command][..0] == [];
    ThenNothing(WorkAhead(command.work, command.mode == Flat));
  }

  lemma {:induction false} QueuedAhead(command: Command, mode: Mode, docs: seq<Doc>)
    ensures StackAhead(Queued(command, mode, docs)) == AllAhead(docs, mode == Flat)
    decreases docs
  {
    hide AheadOf, Then;
    if docs != [] {
      QueuedAhead(command, mode, docs[1..]);
      var top := Inner(command, mode, docs[0]);
      AheadOver(Queued(command, mode, docs[1..]), [top]);
      OneAhead(top);
    }
  }

  lemma {:induction false} NoWords(items: seq<Item>, since: Since)
    requires !HasWord(items)
    ensures Width(items, since) == 0
  {
    if items != [] {
      assert !items[0].Word?;
      forall i | 0 <= i < |items[1..]| ensures !items[1..][i].Word? {
        assert !items[i + 1].Word?;
      }
      NoWords(items[1..], if items[0].Blank? && since.Nothing? then ABlank else since);
    }
  }

  lemma {:induction false} WordFits(text: string, rest: Ahead, since: Since, left: int, firstLine: bool)
    ensures var all, taken := Then(Ahead([Word(text, false)], Open), rest), |text| + (if text != "" && since.ABlank? then 1 else 0);
      FitsIn(all, since, left, firstLine) <==> taken <= left && FitsIn(rest, if text == "" then since else Nothing, left - taken, firstLine)
  {
    hide HasWord;
    var all := [Word(text, false)] + rest.items;
    assert all[1..] == rest.items;
    FirstWord(text, rest.items);
    if !HasWord(rest.items) {
      NoWords(rest.items, if text == "" then since else Nothing);
    }
  }

  lemma FirstWord(text: string, items: seq<Item>)
    ensures HasWord([Word(text, false)] + items)
  {
    assert ([Word(text, false)] + items)[0].Word?;
  }

  lemma {:induction false} BlankFits(rest: Ahead, since: Since, left: int, firstLine: bool)
    ensures FitsIn(Then(Ahead([Blank], Open), rest), since, left, firstLine)
      <==> FitsIn(rest, if since.Nothing? then ABlank else since, left, firstLine)
  {
    var all := [Blank] + rest.items;
    assert all[1..] == rest.items;
    assert HasWord(all) <==> HasWord(rest.items) by {
      if i :| 0 <= i < |all| && all[i].Word? {
        assert rest.items[i - 1].Word?;
      }
      if i :| 0 <= i < |rest.items| && rest.items[i].Word? {
        assert all[i + 1].Word?;
      }
    }
  }

  /** Measuring one command settles whether all fits, or leaves it to what is left to measure. */
  lemma {:induction false} TurnedFits(command: Command, gap: Gap, left: int, firstLine: bool, rest: Ahead)
    ensures var all := Then(WorkAhead(command.work, command.mode == Flat), rest);
      match Turned(command, gap, left, firstLine)
      case Settled(fits) => fits == FitsIn(all, SinceGap(gap), left, firstLine)
      case On(held, after, room) => FitsIn(all, SinceGap(gap), left, firstLine) == FitsIn(Then(StackAhead(held), rest), SinceGap(after), room, firstLine)
  {
    hide Queued, Only, Width, Then, StackAhead, AllAhead, FitsIn;
    NothingOn();
    ThenNothing(rest);
    match command.work
    case Parts(parts) => QueuedAhead(command, command.mode, parts);
    case One(doc) =>
      WordFits(if doc.Text? then doc.text else "", rest, SinceGap(gap), left, firstLine);
      BlankFits(rest, SinceGap(gap), left, firstLine);
      EndFits(rest, SinceGap(gap), left, firstLine);
      if doc.Concat? {
        QueuedAhead(command, command.mode, doc.docs);
      } else if doc.Fill? {
        QueuedAhead(command, command.mode, doc.parts);
      } else if doc.Group? || doc.Indent? || doc.Margin? || doc.Align? || doc.Table? || doc.Prefer? {
        OneAhead(Inner(command, command.mode, Inside(doc)));
        OnlyIs(command, command.mode, Inside(doc));
      }
  }

  lemma NothingOn()
    ensures StackAhead([]) == NOTHING_AHEAD
  {
  }

  lemma EndFits(rest: Ahead, since: Since, left: int, firstLine: bool)
    ensures FitsIn(Then(Ahead([], Broken), rest), since, left, firstLine)
    ensures FitsIn(Then(Ahead([], Never), rest), since, left, firstLine) <==> firstLine
  {
  }

  lemma OnlyIs(command: Command, mode: Mode, doc: Doc)
    ensures Only(command, mode, doc) == [Inner(command, mode, doc)]
  {
  }

  /** The measure of what is on a stack says exactly whether it fits up to the next line break. */
  lemma {:induction false} MeasureExactly(stack: seq<Command>, gap: Gap, left: int, firstLine: bool)
    ensures Measure(stack, gap, left, firstLine) <==> FitsIn(StackAhead(stack), SinceGap(gap), left, firstLine)
    decreases StackSize(stack)
  {
    hide Turned, FitsIn, WorkAhead, Then, StackSize;
    if stack == [] {
      NothingFits(SinceGap(gap), left, firstLine);
    } else {
      var n := |stack| - 1;
      var command, rest := stack[n], stack[..n];
      TurnedFits(command, gap, left, firstLine, StackAhead(rest));
      match Turned(command, gap, left, firstLine)
      case Settled(_) =>
      case On(held, after, room) =>
        Shrinks(stack, gap, left, firstLine);
        AheadOver(rest, held);
        MeasureExactly(rest + held, after, room, firstLine);
    }
  }

  lemma NothingFits(since: Since, left: int, firstLine: bool)
    ensures FitsIn(NOTHING_AHEAD, since, left, firstLine)
  {
  }

  lemma Shrinks(stack: seq<Command>, gap: Gap, left: int, firstLine: bool)
    requires stack != []
    ensures var turn := Turned(stack[|stack| - 1], gap, left, firstLine);
      turn.On? ==> StackSize(stack[..|stack| - 1] + turn.held) < StackSize(stack)
  {
    hide Turned;
    var turn := Turned(stack[|stack| - 1], gap, left, firstLine);
    if turn.On? {
      TurnedShrinks(stack[|stack| - 1], gap, left, firstLine);
      StackSizeAppend(stack[..|stack| - 1], turn.held);
    }
  }

  // ----- what the printer decides by it

  lemma GapSince(p: State, items: seq<Item>)
    requires GapIs(p, items)
    ensures SinceGap(p.gap) == SinceWord(items)
    ensures p.column == EndColumn(items, p.knobs.indent) ==>
      StartColumn(p) == if Pending(items).Some? then Start(items, p.knobs.indent) else EndColumn(items, p.knobs.indent)
  {
    hide Start, EndColumn, Blanked, Pending;
  }

  lemma {:induction false} QueuedMeasure(p: State, items: seq<Item>, docs: seq<Doc>, rest: seq<Command>, firstLine: bool)
    requires Followed(p, items)
    ensures Measure(PushAll(rest, PLAIN, Flat, docs), p.gap, p.knobs.width - StartColumn(p), firstLine)
      <==> FitsAfter(p.knobs, items, Then(AllAhead(docs, true), StackAhead(rest)), firstLine)
  {
    hide *;
    FollowedMeans(p, items);
    GapSince(p, items);
    Pushed(docs, rest);
    AfterIs(p.knobs, items, Then(AllAhead(docs, true), StackAhead(rest)), firstLine);
    AheadOver(rest, Queued(PLAIN, Flat, docs));
    QueuedAhead(PLAIN, Flat, docs);
    MeasureExactly(rest + Queued(PLAIN, Flat, docs), p.gap, p.knobs.width - StartColumn(p), firstLine);
  }

  lemma Pushed(docs: seq<Doc>, rest: seq<Command>)
    ensures PushAll(rest, PLAIN, Flat, docs) == rest + Queued(PLAIN, Flat, docs)
  {
  }

  lemma AfterIs(knobs: Knobs, items: seq<Item>, ahead: Ahead, firstLine: bool)
    ensures var column := if Pending(items).Some? then Start(items, knobs.indent) else EndColumn(items, knobs.indent);
      FitsAfter(knobs, items, ahead, firstLine) == FitsIn(ahead, SinceWord(items), knobs.width - column, firstLine)
  {
  }

  /** Documents fit, flat, exactly when what they have ahead does, with what follows. */
  lemma {:induction false} FitsExactly(p: State, items: seq<Item>, docs: seq<Doc>, rest: seq<Command>)
    requires Followed(p, items)
    ensures Fits(p, docs, rest) <==> FitsAfter(p.knobs, items, Then(AllAhead(docs, true), StackAhead(rest)), false)
    ensures Starts(p, docs, rest) <==> FitsAfter(p.knobs, items, Then(AllAhead(docs, true), StackAhead(rest)), true)
  {
    hide Followed, FitsAfter, StackAhead, AllAhead, Then, Measure, StartColumn, PushAll;
    QueuedMeasure(p, items, docs, rest, false);
    QueuedMeasure(p, items, docs, rest, true);
  }
}
