/**
 * The layout of a document, read off the document: its words, the blanks and line breaks
 * between them, which groups stay on a line, and how far in each line broken starts. This
 * is a function of the document; no printer, stack or output is involved.
 */
module LayoutItems {
  import opened Wrappers
  import opened Layout
  import opened LayoutSpacing

  /**
   * Where lines broken at some place start: so many levels in from the left edge, or from
   * where a word after the first `under` items would start; and whether that is under text.
   */
  datatype Base = Base(under: Option<nat>, levels: nat, aligned: bool)

  const LEFT := Base(None, 0, false)

  /** A place in a document: where lines broken there start, its table, and whether it trails a line. */
  datatype Place = Place(base: Base, table: Option<(nat, bool)>, trailing: bool)

  /** What a document comes to. `At` stands for all that was laid out up to a column. */
  datatype Item =
    | Word(text: string, trailing: bool)
    | Blank
    | LineBreak(lines: nat, base: Base)
    | Enter(strict: bool)
    | CellEnd(table: Option<(nat, bool)>, index: nat)
    | At(column: nat)

  // ----- lines and columns

  function Words(items: seq<Item>): seq<string> {
    if items == [] then []
    else Words(items[..|items| - 1]) + (if items[|items| - 1].Word? then [items[|items| - 1].text] else [])
  }

  function Tables(items: seq<Item>): nat {
    if items == [] then 0
    else Tables(items[..|items| - 1]) + (if items[|items| - 1].Enter? then 1 else 0)
  }

  /** The lines broken since the last word: the most asked for, and where the last one asked starts. */
  function Pending(items: seq<Item>): Option<(nat, Base)> {
    if items == [] || items[|items| - 1].Word? then None
    else
      var last, earlier := items[|items| - 1], Pending(items[..|items| - 1]);
      if !last.LineBreak? then earlier
      else Some((if earlier.Some? && earlier.value.0 > last.lines then earlier.value.0 else last.lines, last.base))
  }

  /** There is a blank since the last word. */
  predicate Blanked(items: seq<Item>) {
    items != [] && !items[|items| - 1].Word? && (items[|items| - 1].Blank? || Blanked(items[..|items| - 1]))
  }

  /** The column the last word ends at. */
  function EndColumn(items: seq<Item>, indent: nat): nat
    decreases |items|, 0
  {
    if items == [] then 0
    else
      var before, last := items[..|items| - 1], items[|items| - 1];
      match last
      case Word(text, _) => Start(before, indent) + |text|
      case At(column) => column
      case _ => EndColumn(before, indent)
  }

  /**
   * The column a word after the items starts at: where the line broken last does, or where
   * the word before ends, past a blank if there is one.
   */
  function Start(items: seq<Item>, indent: nat): nat
    decreases |items|, 1
  {
    match Pending(items)
    case None => EndColumn(items, indent) + (if Blanked(items) && Words(items) != [] then 1 else 0)
    case Some((_, base)) =>
      base.levels * indent
      + (if base.under.Some? && base.under.value < |items| then Start(items[..base.under.value], indent) else 0)
  }

  /** The column lines start at that are broken at a place. */
  function ColumnOf(items: seq<Item>, base: Base, indent: nat): nat {
    base.levels * indent
    + (if base.under.Some? && base.under.value <= |items| then Start(items[..base.under.value], indent) else 0)
  }

  /** The line the last word is on; those broken before the first are not written. */
  function RowOf(items: seq<Item>): nat {
    if items == [] then 0
    else
      var before, last := items[..|items| - 1], items[|items| - 1];
      RowOf(before) + (if last.Word? then Ends(before) else 0)
  }

  /** How many line ends come before the next word. */
  function Ends(items: seq<Item>): nat {
    if Words(items) == [] || Pending(items).None? then 0 else Pending(items).value.0
  }

  /** How many words come after an empty line. */
  function Blocks(items: seq<Item>): nat {
    if items == [] then 0
    else
      var before, last := items[..|items| - 1], items[|items| - 1];
      Blocks(before) + (if last.Word? && Ends(before) > 1 then 1 else 0)
  }

  /** The cells, each where the last word ends; one after a line break is none. */
  function CellsOf(items: seq<Item>, indent: nat, starts: seq<nat>): seq<CellMark> {
    if items == [] then []
    else
      var before, last := items[..|items| - 1], items[|items| - 1];
      CellsOf(before, indent, starts) + (if last.CellEnd? then CellOf(before, last.table, last.index, indent, starts) else [])
  }

  function CellOf(before: seq<Item>, table: Option<(nat, bool)>, index: nat, indent: nat, starts: seq<nat>): seq<CellMark> {
    if table.None? || Pending(before).Some? then []
    else
      [CellMark(table.value.0, table.value.1, index, Blocks(before), RowOf(before), EndOf(Words(before), starts), EndColumn(before, indent))]
  }

  /** Where the last of the texts ends. */
  function EndOf(texts: seq<string>, starts: seq<nat>): nat {
    if texts == [] || |texts| > |starts| then 0 else starts[|texts| - 1] + |texts[|texts| - 1]|
  }

  // ----- what lines are placed by

  /** The text the line of the last word is placed under, if it is. */
  function LineAnchor(items: seq<Item>, starts: seq<nat>): Option<Anchor>
    decreases |items|, 0
  {
    if items == [] then None
    else
      var before, last := items[..|items| - 1], items[|items| - 1];
      if last.Word? && Pending(before).Some? then
        var under := Pending(before).value.1.under;
        if under.Some? && under.value < |before| then AnchorUnder(before[..under.value], starts) else None
      else LineAnchor(before, starts)
  }

  /**
   * The text that lines aligned after the items are placed under: what the line they are on
   * is, or else the next word.
   */
  function AnchorUnder(items: seq<Item>, starts: seq<nat>): Option<Anchor>
    decreases |items|, 1
  {
    match Pending(items)
    case Some((_, base)) =>
      if base.under.Some? && base.under.value < |items| then AnchorUnder(items[..base.under.value], starts) else None
    case None =>
      var anchor := LineAnchor(items, starts);
      if anchor.Some? then anchor
      else Some(Anchor(RowOf(items), EndOf(Words(items), starts) + (if Blanked(items) && Words(items) != [] then 1 else 0)))
  }

  function AnchorOf(items: seq<Item>, base: Base, starts: seq<nat>): Option<Anchor> {
    if base.under.Some? && base.under.value <= |items| then AnchorUnder(items[..base.under.value], starts) else None
  }

  /** The lines placed by text on an earlier one, each where its indentation starts. */
  function PlacedOf(items: seq<Item>, indent: nat, starts: seq<nat>): seq<Continuation> {
    if items == [] then []
    else
      var before, last := items[..|items| - 1], items[|items| - 1];
      PlacedOf(before, indent, starts)
      + (if last.Word? && |Words(before)| < |starts| then LinePlaced(before, indent, starts, starts[|Words(before)|]) else [])
  }

  function LinePlaced(before: seq<Item>, indent: nat, starts: seq<nat>, start: nat): seq<Continuation> {
    if Words(before) == [] || Pending(before).None? then []
    else
      var anchor, column := AnchorOf(before, Pending(before).value.1, starts), Start(before, indent);
      if anchor.None? || start < column then []
      else [Continuation(anchor.value.line, anchor.value.start, start - column, None)]
  }

  /** A word passes the width, or a line is aligned past half of it, other than by what trails a line. */
  predicate Cramped(knobs: Knobs, items: seq<Item>) {
    items != []
    && (Cramped(knobs, items[..|items| - 1])
        || (items[|items| - 1].Word? && !items[|items| - 1].trailing
            && Cramps(knobs, items[..|items| - 1], items[|items| - 1].text)))
  }

  predicate Cramps(knobs: Knobs, before: seq<Item>, text: string) {
    var start := Start(before, knobs.indent);
    || start + |text| > knobs.width
    || (Pending(before).Some? && Pending(before).value.1.aligned && start > knobs.width / 2)
  }

  // ----- what comes next on a line

  /** How what comes next ends: it goes on, a line breaks, or one does that no group is flat around. */
  datatype End = Open | Broken | Never

  /** What comes up to the next line break: words and blanks. */
  datatype Ahead = Ahead(items: seq<Item>, end: End)

  const NOTHING_AHEAD := Ahead([], Open)

  function Then(first: Ahead, next: Ahead): Ahead {
    if first.end == Open then Ahead(first.items + next.items, next.end) else first
  }

  /** Of a document, each group in it as flat as it is; comments that trail are not counted. */
  function AheadOf(doc: Doc, flat: bool): Ahead
    decreases doc, 1
  {
    match doc
    case Text(text) => Ahead([Word(text, false)], Open)
    case Space => Ahead([Blank], Open)
    case Line => if flat then Ahead([Blank], Open) else Ahead([], Broken)
    case SoftLine => if flat then NOTHING_AHEAD else Ahead([], Broken)
    case HardLine => Ahead([], if flat then Never else Broken)
    case BlankLine => Ahead([], if flat then Never else Broken)
    case Group(doc) => AheadOf(doc, flat)
    case Indent(doc) => AheadOf(doc, flat)
    case Margin(doc) => AheadOf(doc, flat)
    case Align(doc) => AheadOf(doc, flat)
    case Prefer(first, _) => AheadOf(first, flat)
    case Fill(parts) => AllAhead(parts, flat)
    case Table(doc, _) => AheadOf(doc, flat)
    case Cell(_) => NOTHING_AHEAD
    case Trailing(_) => NOTHING_AHEAD
    case Concat(docs) => AllAhead(docs, flat)
  }

  function AllAhead(docs: seq<Doc>, flat: bool): Ahead
    decreases docs, 0
  {
    if docs == [] then NOTHING_AHEAD else Then(AheadOf(docs[0], flat), AllAhead(docs[1..], flat))
  }

  predicate HasWord(items: seq<Item>) {
    exists i :: 0 <= i < |items| && items[i].Word?
  }

  /** What there is since the last word. */
  datatype Since = Nothing | ABlank | ALine

  function SinceWord(items: seq<Item>): Since {
    if Pending(items).Some? then ALine else if Blanked(items) then ABlank else Nothing
  }

  /** The columns words take: a blank between two counts once, and not at all after a line break. */
  function Width(items: seq<Item>, since: Since): nat {
    if items == [] then 0
    else match items[0]
      case Word("", _) => Width(items[1..], since)
      case Word(text, _) => |text| + (if since.ABlank? then 1 else 0) + Width(items[1..], Nothing)
      case Blank => Width(items[1..], if since.Nothing? then ABlank else since)
      case _ => Width(items[1..], since)
  }

  /** What is ahead fits in the columns left, up to its end or, on the first line, whatever that is. */
  predicate FitsIn(ahead: Ahead, since: Since, left: int, firstLine: bool) {
    (HasWord(ahead.items) ==> Width(ahead.items, since) <= left) && (ahead.end == Never ==> firstLine)
  }

  /** It fits after `before`. */
  predicate FitsAfter(knobs: Knobs, before: seq<Item>, ahead: Ahead, firstLine: bool) {
    var column := if Pending(before).Some? then Start(before, knobs.indent) else EndColumn(before, knobs.indent);
    FitsIn(ahead, SinceWord(before), knobs.width - column, firstLine)
  }

  // ----- from documents to items

  /** What a layout is told: a trial one tries no choices of its own. */
  datatype How = How(knobs: Knobs, trial: bool)

  /**
   * What the document comes to after `before`, with `after` following on its last line:
   * flat, it has no line to break but those that no group is flat around; a group is flat
   * exactly when it is in a flat one or fits.
   */
  function Laid(how: How, doc: Doc, flat: bool, place: Place, before: seq<Item>, after: Ahead): seq<Item>
    decreases doc, 2
  {
    match doc
    case Text(text) => if text == "" then [] else [Word(text, place.trailing)]
    case Space => [Blank]
    case Line => [if flat then Blank else LineBreak(1, place.base)]
    case SoftLine => if flat then [] else [LineBreak(1, place.base)]
    case HardLine => [LineBreak(1, place.base)]
    case BlankLine => [LineBreak(2, place.base)]
    case Group(doc) =>
      Laid(how, doc, flat || FitsAfter(how.knobs, before, Then(AheadOf(doc, true), after), false), place, before, after)
    case Indent(doc) => Laid(how, doc, flat, place.(base := place.base.(levels := place.base.levels + 1)), before, after)
    case Margin(doc) => Laid(how, doc, flat, place.(base := LEFT), before, after)
    case Align(doc) => Laid(how, doc, flat, place.(base := Under(before)), before, after)
    case Prefer(first, otherwise) =>
      if flat || (!how.trial && Kept(how.knobs, first, place, before, after)) then Laid(how, first, flat, place, before, after)
      else Laid(how, otherwise, flat, place, before, after)
    case Fill(parts) =>
      if flat then LaidAll(how, parts, true, place, before, after) else LaidParts(how, parts, place, before, after)
    case Table(doc, strict) =>
      var entered := [Enter(strict)];
      entered + Laid(how, doc, flat, place.(table := Some((Tables(before) + 1, strict))), before + entered, after)
    case Cell(index) => [CellEnd(place.table, index)]
    case Trailing(doc) => Laid(how, doc, flat, place.(trailing := true), before, NOTHING_AHEAD)
    case Concat(docs) => LaidAll(how, docs, flat, place, before, after)
  }

  /** Lines aligned after `before` start where the next word would, under it or what its line is under. */
  function Under(before: seq<Item>): Base {
    Base(Some(|before|), 0, Pending(before).Some? ==> Pending(before).value.1.aligned)
  }

  function LaidAll(how: How, docs: seq<Doc>, flat: bool, place: Place, before: seq<Item>, after: Ahead): seq<Item>
    decreases docs, 1
  {
    if docs == [] then []
    else
      var first := Laid(how, docs[0], flat, place, before, Then(AllAhead(docs[1..], flat), after));
      first + LaidAll(how, docs[1..], flat, place, before + first, after)
  }

  /** All that was laid out, but for its last column and the one lines broken at the place start at. */
  function Forgotten(knobs: Knobs, place: Place, before: seq<Item>): seq<Item> {
    [At(ColumnOf(before, place.base, knobs.indent)), At(Start(before, knobs.indent))]
  }

  function PlaceThere(place: Place): Place {
    Place(Base(Some(1), 0, place.base.aligned), place.table, false)
  }

  /**
   * The first of two layouts is kept if, tried without any choice in it, it cramps nothing
   * and what follows fits after it.
   */
  predicate Kept(knobs: Knobs, first: Doc, place: Place, before: seq<Item>, after: Ahead)
    decreases first, 3
  {
    var there := Forgotten(knobs, place, before);
    var tried := there + Laid(How(knobs, true), first, false, PlaceThere(place), there, after);
    !Cramped(knobs, tried) && FitsAfter(knobs, tried, after, false)
  }

  /** The first part of a fill is flat if it fits, the last with what follows it. */
  predicate FirstFlat(knobs: Knobs, parts: seq<Doc>, before: seq<Item>, after: Ahead)
    requires parts != []
  {
    FitsAfter(knobs, before, Then(AllAhead(parts[..1], true), if |parts| == 1 then after else NOTHING_AHEAD), false)
  }

  /** The separator after it is, if the part after that can start on the line too. */
  predicate SecondFlat(knobs: Knobs, parts: seq<Doc>, before: seq<Item>, after: Ahead)
    requires |parts| > 1
  {
    if |parts| == 2 then FirstFlat(knobs, parts, before, after)
    else FitsAfter(knobs, before, Then(AllAhead(parts[..3], true), if |parts| == 3 then after else NOTHING_AHEAD), true)
  }

  /** The parts of a fill that is not flat, and the separators between them. */
  function LaidParts(how: How, parts: seq<Doc>, place: Place, before: seq<Item>, after: Ahead): seq<Item>
    decreases parts, 1
  {
    if parts == [] then []
    else if |parts| == 1 then Laid(how, parts[0], FirstFlat(how.knobs, parts, before, after), place, before, after)
    else
      var both, rest := SecondFlat(how.knobs, parts, before, after), Then(AllAhead(parts[2..], false), after);
      var one := Laid(how, parts[0], FirstFlat(how.knobs, parts, before, after), place, before, Then(AheadOf(parts[1], both), rest));
      var two := Laid(how, parts[1], both, place, before + one, rest);
      one + two + LaidParts(how, parts[2..], place, before + one + two, after)
  }
}
