/**
 * What the printer remembers and has written is what the items laid out say: the column,
 * the separation asked for, where every word is and where every cell ends.
 */
module LayoutIndent {
  import opened Wrappers
  import opened Layout
  import opened LayoutSpacing
  import opened LayoutColumns
  import opened LayoutItems

  /** Each word starts in the output at the line and column the items before it say. */
  ghost predicate StandAt(out: string, items: seq<Item>, indent: nat, starts: seq<nat>) {
    forall i :: 0 <= i < |items| && items[i].Word? ==> WordAt(out, items, indent, starts, i)
  }

  ghost predicate WordAt(out: string, items: seq<Item>, indent: nat, starts: seq<nat>, i: nat)
    requires i < |items|
  {
    var n, before := |Words(items[..i])|, items[..i];
    && n < |starts| && starts[n] <= |out|
    && ColumnAt(out, starts[n]) == Start(before, indent)
    && LineAt(out, starts[n]) == RowOf(before) + Ends(before)
  }

  /** The separation asked for is what there is since the last word. */
  ghost predicate GapIs(p: State, items: seq<Item>) {
    match p.gap
    case NoGap => Pending(items).None? && !Blanked(items)
    case SpaceGap => Pending(items).None? && Blanked(items)
    case LinesGap(count, indent, anchor) =>
      && Pending(items).Some? && count == Pending(items).value.0 && indent == Start(items, p.knobs.indent)
      && var base := Pending(items).value.1;
         (base.under.Some? ==> base.under.value < |items|) && (anchor.Some? <==> base.aligned)
  }

  /** What the printer remembers, in a trial too. */
  ghost predicate Followed(p: State, items: seq<Item>) {
    && IsLineEnd(p.knobs.newline) && (p.out == "" <==> Words(items) == [])
    && (p.out != "" ==> !IsBlank(p.out[|p.out| - 1]))
    && (p.gap.LinesGap? ==> 1 <= p.gap.count <= 2)
    && p.column == EndColumn(items, p.knobs.indent) && p.line == RowOf(items)
    && p.block == Blocks(items) && p.tables == Tables(items)
    && GapIs(p, items)
  }

  /** What it has written, if this is no trial. */
  ghost predicate Written(p: State, items: seq<Item>, starts: seq<nat>) {
    && LayoutSpacing.Spaced(p, Words(items), starts) && Tracked(p)
    && p.cells == CellsOf(items, p.knobs.indent, starts) && StandAt(p.out, items, p.knobs.indent, starts)
    && p.continuations == PlacedOf(items, p.knobs.indent, starts) && AnchorsAre(p, items, starts)
  }

  /** What the line written and the line asked for are placed under. */
  ghost predicate AnchorsAre(p: State, items: seq<Item>, starts: seq<nat>) {
    && p.anchor == LineAnchor(items, starts)
    && (p.gap.LinesGap? && Pending(items).Some? ==> p.gap.anchor == AnchorOf(items, Pending(items).value.1, starts))
  }

  /** What has been laid out; whether it is cramped is counted but in what trails a line. */
  ghost predicate LaidOut(p: State, items: seq<Item>, starts: seq<nat>, counted: bool) {
    && Followed(p, items) && (!p.trial ==> Written(p, items, starts))
    && (counted ==> (p.cramped <==> Cramped(p.knobs, items)))
  }

  // ----- one item more

  lemma OneMore(items: seq<Item>, item: Item)
    ensures (items + [item])[..|items|] == items && (items + [item])[|items|] == item
  {
  }

  lemma WordMore(items: seq<Item>, text: string, trailing: bool)
    ensures var more := items + [Word(text, trailing)];
      && Words(more) == Words(items) + [text] && Pending(more).None? && !Blanked(more)
      && (forall indent :: EndColumn(more, indent) == Start(items, indent) + |text|)
      && RowOf(more) == RowOf(items) + Ends(items)
      && Blocks(more) == Blocks(items) + (if Ends(items) > 1 then 1 else 0)
      && Tables(more) == Tables(items)
      && (forall indent, starts :: CellsOf(more, indent, starts) == CellsOf(items, indent, starts))
      && (forall knobs :: Cramped(knobs, more) <==> Cramped(knobs, items) || (!trailing && Cramps(knobs, items, text)))
  {
    OneMore(items, Word(text, trailing));
  }

  /** What is not a word leaves all of this as it is, but for the separation. */
  lemma OtherMore(items: seq<Item>, item: Item)
    requires !item.Word? && !item.At?
    ensures var more := items + [item];
      && Words(more) == Words(items) && RowOf(more) == RowOf(items) && Blocks(more) == Blocks(items)
      && Tables(more) == Tables(items) + (if item.Enter? then 1 else 0)
      && (forall indent :: EndColumn(more, indent) == EndColumn(items, indent))
      && Blanked(more) == (item.Blank? || Blanked(items))
      && (!item.LineBreak? ==> Pending(more) == Pending(items))
      && (!item.CellEnd? ==> forall indent, starts :: CellsOf(more, indent, starts) == CellsOf(items, indent, starts))
      && (forall knobs :: Cramped(knobs, more) <==> Cramped(knobs, items))
  {
    OneMore(items, item);
  }

  lemma BreakMore(items: seq<Item>, lines: nat, base: Base, indent: nat)
    requires base.under.Some? ==> base.under.value <= |items|
    ensures var more := items + [LineBreak(lines, base)];
      && Pending(more).Some? && Start(more, indent) == ColumnOf(items, base, indent) && Pending(more).value.1 == base
      && Pending(more).value.0 == (if Pending(items).Some? && Pending(items).value.0 > lines then Pending(items).value.0 else lines)
  {
    OneMore(items, LineBreak(lines, base));
    if base.under.Some? {
      assert (items + [LineBreak(lines, base)])[..base.under.value] == items[..base.under.value];
    }
  }

  /** What is laid out later leaves where the lines of a place start. */
  lemma ColumnSame(items: seq<Item>, more: seq<Item>, base: Base, indent: nat)
    requires base.under.Some? ==> base.under.value <= |items|
    ensures ColumnOf(items + more, base, indent) == ColumnOf(items, base, indent)
  {
    if base.under.Some? {
      assert (items + more)[..base.under.value] == items[..base.under.value];
    }
  }

  lemma {:induction false} WordsGrow(items: seq<Item>, i: nat)
    requires i <= |items|
    ensures |Words(items[..i])| <= |Words(items)|
    ensures i < |items| && items[i].Word? ==> |Words(items[..i])| < |Words(items)|
    decreases |items|
  {
    if i < |items| {
      var before := items[..|items| - 1];
      assert i <= |before| && before[..i] == items[..i];
      WordsGrow(before, i);
    } else {
      assert items[..i] == items;
    }
  }

  lemma {:induction false} CellsSame(items: seq<Item>, indent: nat, starts: seq<nat>, more: seq<nat>)
    requires |Words(items)| <= |starts|
    ensures CellsOf(items, indent, starts + more) == CellsOf(items, indent, starts)
  {
    hide Pending, EndColumn, RowOf, Blocks;
    if items != [] {
      WordsGrow(items, |items| - 1);
      CellsSame(items[..|items| - 1], indent, starts, more);
    }
  }

  lemma {:induction false} AnchorsSame(items: seq<Item>, starts: seq<nat>, more: seq<nat>)
    requires |Words(items)| <= |starts|
    ensures LineAnchor(items, starts + more) == LineAnchor(items, starts)
    ensures AnchorUnder(items, starts + more) == AnchorUnder(items, starts)
    decreases |items|
  {
    hide Pending, RowOf, Blanked;
    if items != [] {
      var n := |items| - 1;
      WordsGrow(items, n);
      AnchorsSame(items[..n], starts, more);
      if Pending(items[..n]).Some? {
        EarlierSame(items[..n], Pending(items[..n]).value.1, starts, more);
      }
    }
    if Pending(items).Some? {
      EarlierSame(items, Pending(items).value.1, starts, more);
    }
  }

  /** Of items before the last, too. */
  lemma {:induction false} EarlierSame(items: seq<Item>, base: Base, starts: seq<nat>, more: seq<nat>)
    requires |Words(items)| <= |starts|
    ensures base.under.Some? && base.under.value < |items| ==>
      AnchorUnder(items[..base.under.value], starts + more) == AnchorUnder(items[..base.under.value], starts)
    decreases |items|, 0
  {
    if base.under.Some? && base.under.value < |items| {
      WordsGrow(items, base.under.value);
      AnchorsSame(items[..base.under.value], starts, more);
    }
  }

  lemma {:induction false} AnchorOfSame(items: seq<Item>, later: seq<Item>, base: Base, starts: seq<nat>, more: seq<nat>)
    requires |Words(items)| <= |starts| && (base.under.Some? ==> base.under.value <= |items|)
    ensures AnchorOf(items + later, base, starts + more) == AnchorOf(items, base, starts)
  {
    if base.under.Some? {
      var k := base.under.value;
      assert (items + later)[..k] == items[..k];
      WordsGrow(items, k);
      AnchorsSame(items[..k], starts, more);
    }
  }

  lemma {:induction false} PlacedSame(items: seq<Item>, indent: nat, starts: seq<nat>, more: seq<nat>)
    requires |Words(items)| <= |starts|
    ensures PlacedOf(items, indent, starts + more) == PlacedOf(items, indent, starts)
    decreases |items|
  {
    hide Pending, Start, AnchorOf;
    if items != [] {
      var before := items[..|items| - 1];
      WordsGrow(items, |items| - 1);
      PlacedSame(before, indent, starts, more);
      if Pending(before).Some? {
        AnchorOfAny(before, Pending(before).value.1, starts, more);
      }
    }
  }

  lemma {:induction false} AnchorOfAny(items: seq<Item>, base: Base, starts: seq<nat>, more: seq<nat>)
    requires |Words(items)| <= |starts|
    ensures AnchorOf(items, base, starts + more) == AnchorOf(items, base, starts)
  {
    if base.under.Some? && base.under.value <= |items| {
      WordsGrow(items, base.under.value);
      AnchorsSame(items[..base.under.value], starts, more);
    }
  }

  /** Words stay where they are when more is written. */
  lemma {:induction false} StandMore(out: string, more: string, items: seq<Item>, indent: nat, starts: seq<nat>, later: seq<nat>)
    requires StandAt(out, items, indent, starts)
    ensures StandAt(out + more, items, indent, starts + later)
  {
    hide ColumnAt, LineAt, Start, RowOf, Ends, Words;
    forall i | 0 <= i < |items| && items[i].Word? ensures WordAt(out + more, items, indent, starts + later, i) {
      assert WordAt(out, items, indent, starts, i);
      StandsMore(out, more, starts[|Words(items[..i])|]);
    }
  }

  lemma {:induction false} StandItem(out: string, items: seq<Item>, item: Item, indent: nat, starts: seq<nat>)
    requires StandAt(out, items, indent, starts)
    requires item.Word? ==>
      && |Words(items)| < |starts| && starts[|Words(items)|] <= |out|
      && ColumnAt(out, starts[|Words(items)|]) == Start(items, indent) && LineAt(out, starts[|Words(items)|]) == RowOf(items) + Ends(items)
    ensures StandAt(out, items + [item], indent, starts)
  {
    hide ColumnAt, LineAt, Start, RowOf, Ends, Words;
    var more := items + [item];
    forall i | 0 <= i < |more| && more[i].Word? ensures WordAt(out, more, indent, starts, i) {
      if i < |items| {
        assert more[..i] == items[..i];
        assert WordAt(out, items, indent, starts, i);
      } else {
        assert more[..i] == items;
      }
    }
  }

  // ----- what the printer writes and remembers

  lemma SpacedMeans(p: State, texts: seq<string>, starts: seq<nat>)
    requires LayoutSpacing.Spaced(p, texts, starts)
    ensures IsLineEnd(p.knobs.newline) && |starts| == |texts| && |p.out| == EndBefore(texts, starts, |texts|)
    ensures p.out == "" <==> texts == []
    ensures p.out != "" ==> !IsBlank(p.out[|p.out| - 1])
    ensures p.gap.LinesGap? ==> 1 <= p.gap.count <= 2
    ensures Printed(p, texts)
  {
    LastIsText(p.out, texts, starts);
  }

  /** Where the separation asked for puts the next word. */
  lemma {:induction false} FlushLays(p: State, items: seq<Item>)
    requires Followed(p, items)
    ensures var q := Flush(p);
      && q.column == Start(items, p.knobs.indent) && q.line == RowOf(items) + Ends(items) && q.gap.NoGap?
      && q.block == Blocks(items) + (if Ends(items) > 1 then 1 else 0)
      && q.tables == p.tables && q.cells == p.cells && q.knobs == p.knobs && q.trial == p.trial
      && q.cramped == (p.cramped
                       || (Pending(items).Some? && Pending(items).value.1.aligned && Start(items, p.knobs.indent) > p.knobs.width / 2))
  {
    hide EndColumn, Words, Pending, Blanked, RowOf, Blocks, Repeated, Tables;
  }

  lemma WriteIs(p: State, text: string)
    requires text != ""
    ensures var q, flushed := Write(p, text), Flush(p);
      && q.column == flushed.column + |text| && q.line == flushed.line && q.block == flushed.block && q.tables == flushed.tables
      && q.cells == flushed.cells && q.knobs == flushed.knobs && q.gap == flushed.gap && q.out == flushed.out + text
      && q.trial == flushed.trial && (q.cramped <==> flushed.cramped || q.column > q.knobs.width)
  {
    hide Flush;
  }

  lemma {:induction false} WordFollowed(p: State, items: seq<Item>, text: string, trailing: bool)
    requires Followed(p, items) && Clean(text) && text != ""
    ensures var q := Write(p, text);
      && Followed(q, items + [Word(text, trailing)]) && q.knobs == p.knobs && q.trial == p.trial && q.cells == p.cells
      && (q.cramped <==> p.cramped || Cramps(p.knobs, items, text))
  {
    hide Flush, Write, Start, RowOf, Ends, Blocks, Tables, CellsOf, Words, EndColumn, Blanked, Pending;
    FlushLays(p, items);
    WriteIs(p, text);
    WordMore(items, text, trailing);
    var q := Write(p, text);
    assert q.out[|q.out| - 1] == text[|text| - 1];
  }

  lemma {:induction false} TextLaid(p: State, items: seq<Item>, starts: seq<nat>, text: string, trailing: bool, counted: bool)
    returns (after: seq<nat>)
    requires LaidOut(p, items, starts, counted) && Clean(text) && text != "" && (counted ==> !trailing)
    ensures LaidOut(Write(p, text), items + [Word(text, trailing)], after, counted) && starts <= after
  {
    hide *;
    LaidMeans(p, items, starts, counted);
    WordFollowed(p, items, text, trailing);
    WordMore(items, text, trailing);
    after := starts;
    if !p.trial {
      after := TextWritten(p, items, starts, text, trailing);
    }
    AreLaid(Write(p, text), items + [Word(text, trailing)], after, counted);
  }

  lemma {:induction false} TextWritten(p: State, items: seq<Item>, starts: seq<nat>, text: string, trailing: bool) returns (after: seq<nat>)
    requires Followed(p, items) && Written(p, items, starts) && Clean(text) && text != ""
    ensures Written(Write(p, text), items + [Word(text, trailing)], after) && starts <= after
  {
    hide *;
    var q := Write(p, text);
    WrittenMeans(p, items, starts);
    SpacedMeans(p, Words(items), starts);
    FlushLays(p, items);
    WriteIs(p, text);
    var at := WordWritten(p, items, starts, text);
    after := starts + [at];
    WriteTracks(p, Words(items), text);
    WordMore(items, text, trailing);
    CellsSame(items, p.knobs.indent, starts, [at]);
    StandMore(p.out, q.out[|p.out|..], items, p.knobs.indent, starts, [at]);
    assert p.out + q.out[|p.out|..] == q.out;
    StandItem(q.out, items, Word(text, trailing), p.knobs.indent, after);
    WordAnchors(p, items, starts, text, trailing, at);
    AreWritten(q, items + [Word(text, trailing)], after);
  }

  /** A word on a line broken is placed under what the break says. */
  lemma {:induction false} WordAnchors(p: State, items: seq<Item>, starts: seq<nat>, text: string, trailing: bool, at: nat)
    requires Followed(p, items) && text != "" && |starts| == |Words(items)|
    requires p.continuations == PlacedOf(items, p.knobs.indent, starts) && AnchorsAre(p, items, starts)
    requires at == |Flush(p).out|
    ensures var q, more := Write(p, text), items + [Word(text, trailing)];
      q.continuations == PlacedOf(more, p.knobs.indent, starts + [at]) && AnchorsAre(q, more, starts + [at])
  {
    hide Start, RowOf, Blocks, Tables, EndColumn, Blanked, PlacedOf, LineAnchor, AnchorOf, Repeated, Pending, Words, Ends;
    var more, after := items + [Word(text, trailing)], starts + [at];
    WordMore(items, text, trailing);
    AnchorsSame(items, starts, [at]);
    PlacedSame(items, p.knobs.indent, starts, [at]);
    LineMore(items, Word(text, trailing), p.knobs.indent, after);
    if Pending(items).Some? {
      AnchorOfAny(items, Pending(items).value.1, starts, [at]);
    }
    SpacesAre(Start(items, p.knobs.indent));
  }

  /** What one item more adds to the lines placed. */
  lemma LineMore(items: seq<Item>, item: Item, indent: nat, starts: seq<nat>)
    ensures var more := items + [item];
      && PlacedOf(more, indent, starts) == PlacedOf(items, indent, starts)
         + (if item.Word? && |Words(items)| < |starts| then LinePlaced(items, indent, starts, starts[|Words(items)|]) else [])
      && (!item.Word? || Pending(items).None? ==> LineAnchor(more, starts) == LineAnchor(items, starts))
      && (item.Word? && Pending(items).Some? && StartsBefore(items, Pending(items).value.1) ==>
            LineAnchor(more, starts) == AnchorOf(items, Pending(items).value.1, starts))
  {
    OneMore(items, item);
  }

  predicate StartsBefore(items: seq<Item>, base: Base) {
    base.under.Some? ==> base.under.value < |items|
  }

  /** What is neither a word nor a line break leaves what lines are placed under. */
  lemma {:induction false} KeepsAnchors(p: State, q: State, items: seq<Item>, item: Item, starts: seq<nat>)
    requires GapIs(p, items) && AnchorsAre(p, items, starts) && (item.Blank? || item.Enter? || item.CellEnd?)
    requires q.anchor == p.anchor && (q.gap == p.gap || !q.gap.LinesGap?)
    ensures AnchorsAre(q, items + [item], starts) && PlacedOf(items + [item], p.knobs.indent, starts) == PlacedOf(items, p.knobs.indent, starts)
  {
    hide LineAnchor, Start, RowOf, PlacedOf, AnchorUnder, Blanked;
    OtherMore(items, item);
    LineMore(items, item, p.knobs.indent, starts);
    if Pending(items).Some? && StartsBefore(items, Pending(items).value.1) {
      LaterAnchor(items, item, Pending(items).value.1, starts);
    }
  }

  lemma LaterAnchor(items: seq<Item>, item: Item, base: Base, starts: seq<nat>)
    requires base.under.Some? ==> base.under.value <= |items|
    ensures AnchorOf(items + [item], base, starts) == AnchorOf(items, base, starts)
  {
    if base.under.Some? {
      assert (items + [item])[..base.under.value] == items[..base.under.value];
    }
  }

  /** A line break places the next line where it says. */
  lemma {:induction false} BreakAnchors(p: State, items: seq<Item>, lines: nat, base: Base, indent: nat, anchor: Option<Anchor>, starts: seq<nat>)
    requires AnchorsAre(p, items, starts) && anchor == AnchorOf(items, base, starts) && (base.under.Some? ==> base.under.value <= |items|)
    ensures var more := items + [LineBreak(lines, base)];
      && AnchorsAre(AskLines(p, lines, indent, anchor), more, starts)
      && PlacedOf(more, p.knobs.indent, starts) == PlacedOf(items, p.knobs.indent, starts)
  {
    hide LineAnchor, Start, RowOf, PlacedOf, AnchorUnder, Blanked;
    var item := LineBreak(lines, base);
    BreakMore(items, lines, base, p.knobs.indent);
    LineMore(items, item, p.knobs.indent, starts);
    LaterAnchor(items, item, base, starts);
  }

  lemma LaidMeans(p: State, items: seq<Item>, starts: seq<nat>, counted: bool)
    requires LaidOut(p, items, starts, counted)
    ensures Followed(p, items) && (!p.trial ==> Written(p, items, starts))
    ensures counted ==> (p.cramped <==> Cramped(p.knobs, items))
  {
  }

  lemma AreLaid(p: State, items: seq<Item>, starts: seq<nat>, counted: bool)
    requires Followed(p, items) && (!p.trial ==> Written(p, items, starts))
    requires counted ==> (p.cramped <==> Cramped(p.knobs, items))
    ensures LaidOut(p, items, starts, counted)
  {
  }

  lemma FollowedMeans(p: State, items: seq<Item>)
    requires Followed(p, items)
    ensures IsLineEnd(p.knobs.newline) && (p.out == "" <==> Words(items) == []) && (p.gap.LinesGap? ==> 1 <= p.gap.count <= 2)
    ensures p.out != "" ==> !IsBlank(p.out[|p.out| - 1])
    ensures p.column == EndColumn(items, p.knobs.indent) && p.line == RowOf(items)
    ensures p.block == Blocks(items) && p.tables == Tables(items) && GapIs(p, items)
  {
  }

  lemma AreFollowed(p: State, items: seq<Item>)
    requires IsLineEnd(p.knobs.newline) && (p.out == "" <==> Words(items) == []) && (p.gap.LinesGap? ==> 1 <= p.gap.count <= 2)
    requires p.out != "" ==> !IsBlank(p.out[|p.out| - 1])
    requires p.column == EndColumn(items, p.knobs.indent) && p.line == RowOf(items)
    requires p.block == Blocks(items) && p.tables == Tables(items) && GapIs(p, items)
    ensures Followed(p, items)
  {
  }

  lemma WrittenMeans(p: State, items: seq<Item>, starts: seq<nat>)
    requires Written(p, items, starts)
    ensures LayoutSpacing.Spaced(p, Words(items), starts) && Tracked(p) && StandAt(p.out, items, p.knobs.indent, starts)
    ensures p.cells == CellsOf(items, p.knobs.indent, starts)
    ensures p.continuations == PlacedOf(items, p.knobs.indent, starts) && AnchorsAre(p, items, starts)
  {
  }

  lemma AreWritten(p: State, items: seq<Item>, starts: seq<nat>)
    requires LayoutSpacing.Spaced(p, Words(items), starts) && Tracked(p) && StandAt(p.out, items, p.knobs.indent, starts)
    requires p.cells == CellsOf(items, p.knobs.indent, starts)
    requires p.continuations == PlacedOf(items, p.knobs.indent, starts) && AnchorsAre(p, items, starts)
    ensures Written(p, items, starts)
  {
  }

  /** The word written is right after its separation, at the line and column that leaves. */
  lemma {:induction false} WordWritten(p: State, items: seq<Item>, starts: seq<nat>, text: string) returns (at: nat)
    requires LayoutSpacing.Spaced(p, Words(items), starts) && Tracked(p) && Clean(text) && text != ""
    ensures var q, flushed := Write(p, text), Flush(p);
      && LayoutSpacing.Spaced(q, Words(items) + [text], starts + [at]) && p.out <= q.out && at <= |q.out|
      && ColumnAt(q.out, at) == flushed.column && LineAt(q.out, at) == flushed.line && at == |flushed.out|
  {
    hide *;
    SpacedMeans(p, Words(items), starts);
    WriteSpaced(p, Words(items), starts, text);
    var (lines, spaces) := Separation(p);
    var separator := Separator(p.knobs.newline, lines, spaces);
    at := |p.out| + |separator|;
    FlushSeparates(p);
    TrackedMeans(p);
    AtStart();
    FlushTracks(p);
    TrackedMeans(Flush(p));
    WriteIs(p, text);
    StandsMore(Flush(p).out, text, at);
  }

  /** An item that writes nothing. */
  lemma {:induction false} OtherLaid(p: State, q: State, items: seq<Item>, item: Item, starts: seq<nat>, counted: bool)
    requires LaidOut(p, items, starts, counted) && (item.Blank? || item.LineBreak? || item.Enter?)
    requires q == p.(gap := q.gap, tables := q.tables) && q.tables == p.tables + (if item.Enter? then 1 else 0)
    requires (q.gap.LinesGap? ==> 1 <= q.gap.count <= 2) && GapIs(q, items + [item])
    requires !p.trial ==> AnchorsAre(q, items + [item], starts)
    requires !p.trial ==> PlacedOf(items + [item], p.knobs.indent, starts) == PlacedOf(items, p.knobs.indent, starts)
    ensures LaidOut(q, items + [item], starts, counted)
  {
    hide *;
    LaidMeans(p, items, starts, counted);
    FollowedMeans(p, items);
    OtherMore(items, item);
    AreFollowed(q, items + [item]);
    if !p.trial {
      WrittenMeans(p, items, starts);
      StandItem(p.out, items, item, p.knobs.indent, starts);
      StillSpaced(p, q, Words(items), starts);
      SameTracks(p, q);
      AreWritten(q, items + [item], starts);
    }
    AreLaid(q, items + [item], starts, counted);
  }

  lemma CellsMore(items: seq<Item>, item: Item, indent: nat, starts: seq<nat>)
    ensures CellsOf(items + [item], indent, starts) ==
      CellsOf(items, indent, starts) + (if item.CellEnd? then CellOf(items, item.table, item.index, indent, starts) else [])
  {
    OneMore(items, item);
  }

  lemma StillSpaced(p: State, q: State, texts: seq<string>, starts: seq<nat>)
    requires LayoutSpacing.Spaced(p, texts, starts)
    requires q.knobs == p.knobs && q.out == p.out && q.line == p.line && q.continuations == p.continuations
    requires q.cells == p.cells
    requires q.gap.LinesGap? ==> 1 <= q.gap.count <= 2
    ensures LayoutSpacing.Spaced(q, texts, starts)
  {
  }

  lemma {:induction false} BlankLaid(p: State, items: seq<Item>, starts: seq<nat>, counted: bool)
    requires LaidOut(p, items, starts, counted)
    ensures LaidOut(AskSpace(p), items + [Blank], starts, counted)
  {
    hide *;
    LaidMeans(p, items, starts, counted);
    FollowedMeans(p, items);
    BlankGap(p, items);
    if !p.trial {
      WrittenMeans(p, items, starts);
      KeepsAnchors(p, AskSpace(p), items, Blank, starts);
    }
    OtherLaid(p, AskSpace(p), items, Blank, starts, counted);
  }

  lemma BlankGap(p: State, items: seq<Item>)
    requires GapIs(p, items)
    ensures var q := AskSpace(p);
      && GapIs(q, items + [Blank]) && q == p.(gap := q.gap) && (q.gap.LinesGap? ==> q.gap == p.gap)
      && (q.gap == p.gap || !q.gap.LinesGap?)
  {
    OneMore(items, Blank);
    OtherMore(items, Blank);
    if p.gap.LinesGap? {
      PendingStart(items, Blank, p.knobs.indent);
    }
  }

  /** A line broken stays where it is to start whatever else is asked for. */
  lemma PendingStart(items: seq<Item>, item: Item, indent: nat)
    requires !item.Word? && !item.LineBreak? && Pending(items).Some?
    requires var under := Pending(items).value.1.under; under.Some? ==> under.value < |items|
    ensures Start(items + [item], indent) == Start(items, indent)
  {
    OneMore(items, item);
    var under := Pending(items).value.1.under;
    if under.Some? {
      assert (items + [item])[..under.value] == items[..under.value];
    }
  }

  /** A gap is as it was after what is neither a word, a blank nor a line break. */
  lemma MarkGap(p: State, q: State, items: seq<Item>, item: Item)
    requires GapIs(p, items) && q.gap == p.gap && q.knobs == p.knobs && (item.Enter? || item.CellEnd?)
    ensures GapIs(q, items + [item])
  {
    OtherMore(items, item);
    if p.gap.LinesGap? {
      PendingStart(items, item, p.knobs.indent);
    }
  }

  lemma {:induction false} BreakLaid(p: State, items: seq<Item>, starts: seq<nat>, lines: nat, base: Base, indent: nat,
                                     anchor: Option<Anchor>, counted: bool)
    requires LaidOut(p, items, starts, counted) && 1 <= lines <= 2 && (anchor.Some? <==> base.aligned)
    requires !p.trial ==> anchor == AnchorOf(items, base, starts)
    requires indent == ColumnOf(items, base, p.knobs.indent) && (base.under.Some? ==> base.under.value <= |items|)
    ensures LaidOut(AskLines(p, lines, indent, anchor), items + [LineBreak(lines, base)], starts, counted)
  {
    hide *;
    LaidMeans(p, items, starts, counted);
    FollowedMeans(p, items);
    BreakGap(p, items, lines, base, indent, anchor);
    if !p.trial {
      WrittenMeans(p, items, starts);
      BreakAnchors(p, items, lines, base, indent, anchor, starts);
    }
    OtherLaid(p, AskLines(p, lines, indent, anchor), items, LineBreak(lines, base), starts, counted);
  }

  lemma BreakGap(p: State, items: seq<Item>, lines: nat, base: Base, indent: nat, anchor: Option<Anchor>)
    requires GapIs(p, items) && 1 <= lines <= 2 && (p.gap.LinesGap? ==> 1 <= p.gap.count <= 2) && (anchor.Some? <==> base.aligned)
    requires indent == ColumnOf(items, base, p.knobs.indent) && (base.under.Some? ==> base.under.value <= |items|)
    ensures var q := AskLines(p, lines, indent, anchor);
      GapIs(q, items + [LineBreak(lines, base)]) && q == p.(gap := q.gap) && q.gap.LinesGap? && 1 <= q.gap.count <= 2
  {
    BreakMore(items, lines, base, p.knobs.indent);
    OneMore(items, LineBreak(lines, base));
  }

  lemma {:induction false} CellLaid(p: State, items: seq<Item>, starts: seq<nat>, table: Option<(nat, bool)>, index: nat, counted: bool)
    requires LaidOut(p, items, starts, counted)
    ensures LaidOut(NoteCell(p, table, index), items + [CellEnd(table, index)], starts, counted)
  {
    hide *;
    var item, q := CellEnd(table, index), NoteCell(p, table, index);
    LaidMeans(p, items, starts, counted);
    FollowedMeans(p, items);
    NoteIs(p, table, index);
    OtherMore(items, item);
    MarkGap(p, q, items, item);
    AreFollowed(q, items + [item]);
    if !p.trial {
      WrittenMeans(p, items, starts);
      SpacedMeans(p, Words(items), starts);
      CellIs(p, items, starts, table, index);
      CellsMore(items, item, p.knobs.indent, starts);
      StandItem(p.out, items, item, p.knobs.indent, starts);
      CellTracks(p, Words(items), table, index);
      CellSpaced(p, Words(items), starts, table, index);
      KeepsAnchors(p, q, items, item, starts);
      AreWritten(q, items + [item], starts);
    }
    AreLaid(q, items + [item], starts, counted);
  }

  lemma NoteIs(p: State, table: Option<(nat, bool)>, index: nat)
    ensures NoteCell(p, table, index) == p.(cells := NoteCell(p, table, index).cells)
  {
  }

  lemma CellIs(p: State, items: seq<Item>, starts: seq<nat>, table: Option<(nat, bool)>, index: nat)
    requires GapIs(p, items) && p.block == Blocks(items) && p.line == RowOf(items) && p.column == EndColumn(items, p.knobs.indent)
    requires |starts| == |Words(items)| && |p.out| == EndBefore(Words(items), starts, |starts|)
    requires p.out != "" ==> !IsBlank(p.out[|p.out| - 1])
    ensures NoteCell(p, table, index).cells == p.cells + CellOf(items, table, index, p.knobs.indent, starts)
  {
    hide EndColumn, Words, Pending, Blanked, RowOf, Blocks, Start;
  }

  lemma CellSpaced(p: State, texts: seq<string>, starts: seq<nat>, table: Option<(nat, bool)>, index: nat)
    requires LayoutSpacing.Spaced(p, texts, starts)
    ensures LayoutSpacing.Spaced(NoteCell(p, table, index), texts, starts)
  {
    hide Located, NoTrailingSpace, NoDoubleBlank, Between;
    LastIsText(p.out, texts, starts);
    BetweenPast(p.out, texts, starts, |p.out|);
    var q := NoteCell(p, table, index);
    forall c | c in q.cells ensures c.offset <= |q.out| && Between(texts, starts, c.offset) {
      assert c in p.cells || c.offset == |p.out|;
    }
  }

  lemma {:induction false} EnterLaid(p: State, items: seq<Item>, starts: seq<nat>, strict: bool, counted: bool)
    requires LaidOut(p, items, starts, counted)
    ensures LaidOut(p.(tables := p.tables + 1), items + [Enter(strict)], starts, counted)
  {
    hide *;
    LaidMeans(p, items, starts, counted);
    FollowedMeans(p, items);
    MarkGap(p, p.(tables := p.tables + 1), items, Enter(strict));
    if !p.trial {
      WrittenMeans(p, items, starts);
      KeepsAnchors(p, p.(tables := p.tables + 1), items, Enter(strict), starts);
    }
    OtherLaid(p, p.(tables := p.tables + 1), items, Enter(strict), starts, counted);
  }

  /** Whether anything was cramped is forgotten after what trails a line. */
  lemma {:induction false} SameLaid(p: State, items: seq<Item>, starts: seq<nat>, cramped: bool, counted: bool)
    requires LaidOut(p, items, starts, false) && (counted ==> (cramped <==> Cramped(p.knobs, items)))
    ensures LaidOut(p.(cramped := cramped), items, starts, counted)
  {
    hide *;
    var q := p.(cramped := cramped);
    LaidMeans(p, items, starts, false);
    FollowedMeans(p, items);
    SameGap(p, q, items);
    AreFollowed(q, items);
    if !p.trial {
      WrittenMeans(p, items, starts);
      StillSpaced(p, q, Words(items), starts);
      SameTracks(p, q);
      SameAnchors(p, q, items, starts);
      AreWritten(q, items, starts);
    }
    AreLaid(q, items, starts, counted);
  }

  lemma SameAnchors(p: State, q: State, items: seq<Item>, starts: seq<nat>)
    requires AnchorsAre(p, items, starts) && q.gap == p.gap && q.anchor == p.anchor
    ensures AnchorsAre(q, items, starts)
  {
  }

  lemma SameGap(p: State, q: State, items: seq<Item>)
    requires GapIs(p, items) && q.gap == p.gap && q.knobs == p.knobs
    ensures GapIs(q, items)
  {
  }
}
