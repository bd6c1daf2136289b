/**
 * Printing adds only blanks: the texts of the document are in the output, in order and
 * whole, no line ends in a space, and no two empty lines are next to each other.
 */
module LayoutSpacing {
  import opened Wrappers
  import opened Layout

  predicate IsNewline(c: char) { c == '\n' || c == '\r' }

  predicate IsBlank(c: char) { c == ' ' || IsNewline(c) }

  /** Text on one line with no space at either end. */
  predicate Clean(text: string) {
    && (forall i :: 0 <= i < |text| ==> !IsNewline(text[i]))
    && (text != "" ==> text[0] != ' ' && text[|text| - 1] != ' ')
  }

  /** What ends a line: a line feed, with a carriage return before it or not. */
  predicate IsLineEnd(newline: string) {
    newline == "\n" || newline == "\r\n"
  }

  /** The texts of a document that are not empty, in order. */
  function Texts(doc: Doc): seq<string>
    decreases doc, 1
  {
    match doc
    case Text(text) => if text == "" then [] else [text]
    case Group(doc) => Texts(doc)
    case Indent(doc) => Texts(doc)
    case Margin(doc) => Texts(doc)
    case Align(doc) => Texts(doc)
    case Prefer(first, _) => Texts(first)
    case Fill(parts) => AllTexts(parts)
    case Table(doc, _) => Texts(doc)
    case Trailing(doc) => Texts(doc)
    case Concat(docs) => AllTexts(docs)
    case _ => []
  }

  function AllTexts(docs: seq<Doc>): seq<string>
    decreases docs, 0
  {
    if docs == [] then [] else Texts(docs[0]) + AllTexts(docs[1..])
  }

  /** Every text is clean, and the two layouts of each choice hold the same texts. */
  predicate CleanDoc(doc: Doc)
    decreases doc, 1
  {
    match doc
    case Text(text) => Clean(text)
    case Group(doc) => CleanDoc(doc)
    case Indent(doc) => CleanDoc(doc)
    case Margin(doc) => CleanDoc(doc)
    case Align(doc) => CleanDoc(doc)
    case Prefer(first, otherwise) =>
      CleanDoc(first) && CleanDoc(otherwise) && Texts(first) == Texts(otherwise)
    case Fill(parts) => AllClean(parts)
    case Table(doc, _) => CleanDoc(doc)
    case Trailing(doc) => CleanDoc(doc)
    case Concat(docs) => AllClean(docs)
    case _ => true
  }

  predicate AllClean(docs: seq<Doc>)
    decreases docs, 0
  {
    docs == [] || (CleanDoc(docs[0]) && AllClean(docs[1..]))
  }

  function WorkTexts(work: Work): seq<string> {
    match work
    case One(doc) => Texts(doc)
    case Parts(parts) => AllTexts(parts)
  }

  predicate CleanWork(work: Work) {
    match work
    case One(doc) => CleanDoc(doc)
    case Parts(parts) => AllClean(parts)
  }

  /** The texts still to print, from the top. */
  function StackTexts(stack: seq<Command>): seq<string> {
    if stack == [] then [] else WorkTexts(stack[|stack| - 1].work) + StackTexts(stack[..|stack| - 1])
  }

  predicate CleanStack(stack: seq<Command>) {
    forall i :: 0 <= i < |stack| ==> CleanWork(stack[i].work)
  }

  // ----- where the texts are

  /** The end of the text before the `i`th, or of none. */
  function EndBefore(texts: seq<string>, starts: seq<nat>, i: nat): nat
    requires i <= |texts| == |starts|
  {
    if i == 0 then 0 else starts[i - 1] + |texts[i - 1]|
  }

  /** Each of `texts` starts where `starts` says, in order and apart, and all else is blank. */
  predicate Located(out: string, texts: seq<string>, starts: seq<nat>) {
    && |starts| == |texts|
    && (forall i :: 0 <= i < |texts| ==>
          && texts[i] != "" && EndBefore(texts, starts, i) <= starts[i]
          && Holds(out, starts[i], texts[i]))
    && (forall k :: 0 <= k < |out| && !IsBlank(out[k]) ==> Covered(texts, starts, k))
  }

  predicate Covered(texts: seq<string>, starts: seq<nat>, k: int)
    requires |starts| == |texts|
  {
    exists i :: 0 <= i < |texts| && starts[i] <= k < starts[i] + |texts[i]|
  }

  /** A place between texts, or at an end of one. */
  predicate Between(texts: seq<string>, starts: seq<nat>, at: nat)
    requires |starts| == |texts|
  {
    forall i :: 0 <= i < |texts| ==> !(starts[i] < at < starts[i] + |texts[i]|)
  }

  predicate NoTrailingSpace(out: string) {
    forall k :: 0 <= k < |out| - 1 && out[k] == ' ' ==> !IsNewline(out[k + 1])
  }

  /** No two empty lines next to each other: never three line ends in a row. */
  ghost predicate NoDoubleBlank(out: string, newline: string) {
    forall k :: !Holds(out, k, newline + newline + newline)
  }

  predicate Holds(out: string, k: int, s: string) {
    0 <= k && k + |s| <= |out| && out[k..k + |s|] == s
  }

  /** The output so far: the texts printed, nothing after the last of them. */
  ghost predicate Spaced(p: State, texts: seq<string>, starts: seq<nat>) {
    && IsLineEnd(p.knobs.newline) && |starts| == |texts|
    && (forall i :: 0 <= i < |texts| ==> Clean(texts[i]))
    && Located(p.out, texts, starts) && |p.out| == EndBefore(texts, starts, |texts|)
    && NoTrailingSpace(p.out) && NoDoubleBlank(p.out, p.knobs.newline)
    && (p.gap.LinesGap? ==> 1 <= p.gap.count <= 2)
    && (forall c :: c in p.cells ==> c.offset <= |p.out| && Between(texts, starts, c.offset))
    && (forall c :: c in p.continuations ==>
          c.offset < |p.out| && !IsNewline(p.out[c.offset]) && Between(texts, starts, c.offset))
    && (texts == [] ==> forall c :: c in p.cells ==> c.line == p.line)
  }

  // ----- writing one text

  function Spaces(count: nat): string {
    Repeated(" ", count)
  }

  lemma {:induction false} SpacesAre(count: nat)
    ensures |Spaces(count)| == count && forall i :: 0 <= i < count ==> Spaces(count)[i] == ' '
  {
    if count > 0 {
      SpacesAre(count - 1);
    }
  }

  /** What is written before a text: line ends, then spaces. */
  function Separator(newline: string, lines: nat, spaces: nat): string {
    Repeated(newline, lines) + Spaces(spaces)
  }

  lemma {:induction false} SeparatorIs(newline: string, lines: nat, spaces: nat)
    requires IsLineEnd(newline) && lines <= 2
    ensures var s, n := Separator(newline, lines, spaces), lines * |newline|;
      && |s| == n + spaces
      && (forall i :: 0 <= i < n ==> IsNewline(s[i])) && (forall i :: n <= i < n + spaces ==> s[i] == ' ')
  {
    SpacesAre(spaces);
    assert Repeated(newline, 1) == newline + Repeated(newline, 0) == newline;
    assert Repeated(newline, 2) == newline + Repeated(newline, 1);
  }

  /** One text more, a separator before it. */
  lemma {:induction false} LocatedMore(out: string, texts: seq<string>, starts: seq<nat>, separator: string, text: string)
    requires Located(out, texts, starts) && |out| == EndBefore(texts, starts, |texts|) && text != ""
    requires forall i :: 0 <= i < |separator| ==> IsBlank(separator[i])
    ensures Located(out + separator + text, texts + [text], starts + [|out| + |separator|])
  {
    hide Covered, Holds, IsBlank;
    var more, texts', starts' := out + separator + text, texts + [text], starts + [|out| + |separator|];
    assert more == out + (separator + text);
    TextHere(out + separator, text);
    forall i | 0 <= i < |texts'|
      ensures texts'[i] != "" && EndBefore(texts', starts', i) <= starts'[i] && Holds(more, starts'[i], texts'[i])
    {
      if i < |texts| {
        assert EndBefore(texts', starts', i) == EndBefore(texts, starts, i);
        HoldsMore(out, separator + text, starts[i], texts[i]);
      } else {
        assert EndBefore(texts', starts', i) == EndBefore(texts, starts, i);
      }
    }
    forall k | 0 <= k < |more| && !IsBlank(more[k]) ensures Covered(texts', starts', k) {
      CoveredMore(out, texts, starts, separator, text, k);
    }
  }

  lemma TextHere(before: string, text: string)
    ensures Holds(before + text, |before|, text)
  {
  }

  lemma {:induction false} CoveredMore(out: string, texts: seq<string>, starts: seq<nat>, separator: string, text: string, k: nat)
    requires Located(out, texts, starts) && forall i :: 0 <= i < |separator| ==> IsBlank(separator[i])
    requires var more := out + separator + text; k < |more| && !IsBlank(more[k])
    ensures Covered(texts + [text], starts + [|out| + |separator|], k)
  {
    hide Holds;
    var more, texts', starts' := out + separator + text, texts + [text], starts + [|out| + |separator|];
    forall j | |out| <= j < |out| + |separator| ensures IsBlank(more[j]) {
      assert more[j] == separator[j - |out|];
    }
    hide IsBlank;
    if k < |out| {
      assert more[k] == out[k] && Covered(texts, starts, k);
      var i :| 0 <= i < |texts| && starts[i] <= k < starts[i] + |texts[i]|;
      assert texts'[i] == texts[i] && starts'[i] == starts[i];
    } else {
      assert texts'[|texts|] == text && starts'[|texts|] == |out| + |separator|;
    }
  }

  lemma {:induction false} HoldsMore(out: string, more: string, k: int, s: string)
    requires Holds(out, k, s)
    ensures Holds(out + more, k, s)
  {
    assert (out + more)[k..k + |s|] == out[k..k + |s|];
  }

  lemma {:induction false} BetweenMore(texts: seq<string>, starts: seq<nat>, text: string, start: nat, at: nat)
    requires |starts| == |texts| && Between(texts, starts, at) && at <= start
    ensures Between(texts + [text], starts + [start], at)
  {
  }

  /** Past every text. */
  lemma {:induction false} BetweenPast(out: string, texts: seq<string>, starts: seq<nat>, at: nat)
    requires Located(out, texts, starts) && |out| == EndBefore(texts, starts, |texts|) && |out| <= at
    ensures Between(texts, starts, at)
  {
  }

  lemma {:induction false} HoldsLast(out: string, k: int, s: string)
    requires Holds(out, k, s) && k + |s| == |out| && s != ""
    ensures out != "" && out[|out| - 1] == s[|s| - 1]
  {
    assert out[k..k + |s|][|s| - 1] == s[|s| - 1];
  }

  /** The last character printed is neither a space nor a line end. */
  lemma {:induction false} LastIsText(out: string, texts: seq<string>, starts: seq<nat>)
    requires Located(out, texts, starts) && |out| == EndBefore(texts, starts, |texts|)
    requires forall i :: 0 <= i < |texts| ==> Clean(texts[i])
    ensures out != "" ==> !IsBlank(out[|out| - 1])
    ensures out == "" <==> texts == []
  {
    if texts != [] {
      var n := |texts| - 1;
      var last := texts[n];
      assert Holds(out, starts[n], last) && last != "" && Clean(last) && starts[n] + |last| == |out|;
      HoldsLast(out, starts[n], last);
    }
  }

  lemma {:induction false} NoTrailingMore(out: string, newline: string, lines: nat, spaces: nat, text: string)
    requires NoTrailingSpace(out) && (out != "" ==> !IsBlank(out[|out| - 1]))
    requires IsLineEnd(newline) && lines <= 2 && Clean(text) && text != ""
    ensures NoTrailingSpace(out + Separator(newline, lines, spaces) + text)
  {
    SeparatorIs(newline, lines, spaces);
    var separator := Separator(newline, lines, spaces);
    var more := out + separator + text;
    assert out != "" ==> more[|out| - 1] == out[|out| - 1];
    forall k | 0 <= k < |more| - 1 && more[k] == ' ' ensures !IsNewline(more[k + 1]) {
      if k + 1 < |out| {
        assert more[k] == out[k] && more[k + 1] == out[k + 1];
      } else if k + 1 < |out| + |separator| {
        assert more[k] == separator[k - |out|] && more[k + 1] == separator[k + 1 - |out|];
      } else {
        assert more[k + 1] == text[k + 1 - |out| - |separator|];
      }
    }
  }

  lemma {:induction false} NoDoubleMore(out: string, newline: string, lines: nat, spaces: nat, text: string)
    requires NoDoubleBlank(out, newline) && (out != "" ==> !IsBlank(out[|out| - 1]))
    requires IsLineEnd(newline) && lines <= 2 && Clean(text) && text != ""
    ensures NoDoubleBlank(out + Separator(newline, lines, spaces) + text, newline)
  {
    SeparatorIs(newline, lines, spaces);
    var separator := Separator(newline, lines, spaces);
    var more, three := out + separator + text, newline + newline + newline;
    var room := lines * |newline|;
    assert more == out + (separator + text);
    assert out != "" ==> more[|out| - 1] == out[|out| - 1];
    forall i | |out| + room <= i < |more| ensures !IsNewline(more[i]) {
      if i < |out| + |separator| {
        assert more[i] == separator[i - |out|];
      } else {
        assert more[i] == text[i - |out| - |separator|];
      }
    }
    assert room <= 2 * |newline| && |three| == 3 * |newline|;
    forall k ensures !Holds(more, k, three) {
      if Holds(more, k, three) {
        LineEndsOnly(more, newline, k);
        assert IsNewline(more[k + |three| - 1]);
        if k + |three| <= |out| {
          HoldsLess(out, separator + text, k, three);
        }
      }
    }
  }

  lemma {:induction false} HoldsLess(out: string, more: string, k: int, s: string)
    requires k + |s| <= |out| && Holds(out + more, k, s)
    ensures Holds(out, k, s)
  {
    assert (out + more)[k..k + |s|] == out[k..k + |s|];
  }

  lemma {:induction false} LineEndsOnly(out: string, newline: string, k: int)
    requires IsLineEnd(newline) && Holds(out, k, newline + newline + newline)
    ensures forall i :: k <= i < k + 3 * |newline| ==> IsNewline(out[i])
  {
    var three := newline + newline + newline;
    forall i | k <= i < k + |three| ensures IsNewline(out[i]) {
      assert out[i] == out[k..k + |three|][i - k] == three[i - k];
    }
  }

  // ----- a run

  lemma {:induction false} StackTextsOver(under: seq<Command>, top: seq<Command>)
    ensures StackTexts(under + top) == StackTexts(top) + StackTexts(under)
    decreases |top|
  {
    hide WorkTexts;
    if top == [] {
      assert under + top == under;
    } else {
      var n := |top| - 1;
      assert (under + top)[..|under| + n] == under + top[..n] && (under + top)[|under| + n] == top[n];
      StackTextsOver(under, top[..n]);
      var first := WorkTexts(top[n].work);
      var middle, last := StackTexts(top[..n]), StackTexts(under);
      assert first + (middle + last) == first + middle + last;
    }
  }

  lemma {:induction false} OneText(command: Command)
    ensures StackTexts([command]) == WorkTexts(command.work)
  {
    assert [command][..0] == [];
  }

  lemma {:induction false} QueuedTexts(command: Command, mode: Mode, docs: seq<Doc>)
    requires AllClean(docs)
    ensures StackTexts(Queued(command, mode, docs)) == AllTexts(docs)
    ensures CleanStack(Queued(command, mode, docs))
    decreases docs
  {
    hide StackSize, Sizes, Size;
    if docs != [] {
      QueuedTexts(command, mode, docs[1..]);
      var top := Inner(command, mode, docs[0]);
      StackTextsOver(Queued(command, mode, docs[1..]), [top]);
      OneText(top);
    }
  }

  /** The text on top is the next, and what is under it comes after. */
  lemma {:induction false} OnTop(under: seq<Command>, top: Command)
    ensures StackTexts(under + [top]) == WorkTexts(top.work) + StackTexts(under)
    ensures CleanStack(under) && CleanWork(top.work) ==> CleanStack(under + [top])
  {
    StackTextsOver(under, [top]);
    OneText(top);
  }

  lemma {:induction false} FillTexts(p: State, command: Command, parts: seq<Doc>, rest: seq<Command>)
    requires CleanStack(rest) && AllClean(parts)
    ensures StackTexts(PushFill(p, command, parts, rest)) == AllTexts(parts) + StackTexts(rest)
    ensures CleanStack(PushFill(p, command, parts, rest))
  {
    hide Fits, Starts, StackSize, Sizes, Size, Queued;
    if command.mode == Flat {
      QueuedTexts(command, Flat, parts);
      StackTextsOver(rest, Queued(command, Flat, parts));
    } else if parts == [] {
    } else if |parts| == 1 {
      OnTop(rest, Inner(command, ModeOf(Fits(p, parts, rest)), parts[0]));
      assert AllTexts(parts) == Texts(parts[0]) + AllTexts(parts[1..]) == Texts(parts[0]);
    } else {
      FillTextsMore(p, command, parts, rest);
    }
  }

  lemma PartsTexts(parts: seq<Doc>)
    ensures WorkTexts(Parts(parts)) == AllTexts(parts)
  {
  }

  lemma DocTexts(doc: Doc)
    ensures WorkTexts(One(doc)) == Texts(doc)
  {
  }

  lemma {:induction false} FillTextsMore(p: State, command: Command, parts: seq<Doc>, rest: seq<Command>)
    requires CleanStack(rest) && AllClean(parts) && |parts| > 1 && command.mode == Break
    ensures StackTexts(PushFill(p, command, parts, rest)) == AllTexts(parts) + StackTexts(rest)
    ensures CleanStack(PushFill(p, command, parts, rest))
  {
    hide Fits, Starts, StackSize, Sizes, Size, Queued, CleanDoc, StackTexts, Texts, WorkTexts;
    PartsTexts(parts[2..]);
    DocTexts(parts[0]);
    DocTexts(parts[1]);
    var flat := Fits(p, parts[..1], []);
    var both := if |parts| == 2 then flat else Starts(p, parts[..3], if |parts| == 3 then rest else []);
    var tail, more := parts[1..], parts[2..];
    assert tail[1..] == more && AllClean(tail) && AllClean(more);
    var fill := command.(work := Parts(more));
    var left := if |parts| == 2 then rest else rest + [fill];
    OnTop(rest, fill);
    assert StackTexts(left) == AllTexts(more) + StackTexts(rest) by {
      if |parts| == 2 {
        assert more == [] && AllTexts(more) + StackTexts(rest) == StackTexts(rest);
      }
    }
    var second, first := Inner(command, ModeOf(both), parts[1]), Inner(command, ModeOf(flat), parts[0]);
    OnTop(left, second);
    OnTop(left + [second], first);
    assert PushFill(p, command, parts, rest) == left + [second] + [first];
    var a, b, c, d := Texts(parts[0]), Texts(parts[1]), AllTexts(more), StackTexts(rest);
    assert AllTexts(parts) == a + AllTexts(tail) && AllTexts(tail) == b + c;
    assert a + (b + (c + d)) == a + (b + c) + d;
  }

  /** How many line ends and spaces a pending separation writes. */
  function Separation(p: State): (nat, nat) {
    match p.gap
    case NoGap => (0, 0)
    case SpaceGap => (0, if WritesSpace(p) then 1 else 0)
    case LinesGap(count, indent, _) => (if p.out == "" then 0 else count, indent)
  }

  lemma {:induction false} FlushSeparates(p: State)
    ensures var (lines, spaces) := Separation(p);
      && Flush(p).out == p.out + Separator(p.knobs.newline, lines, spaces)
      && Flush(p).gap == NoGap && Flush(p).knobs == p.knobs && Flush(p).cells == p.cells
      && (forall c :: c in Flush(p).continuations ==>
            c in p.continuations || c.offset == |p.out| + |Repeated(p.knobs.newline, lines)|)
  {
    var newline := p.knobs.newline;
    var (lines, spaces) := Separation(p);
    assert Repeated(" ", 1) == " " + Repeated(" ", 0) == " ";
    assert Repeated(newline, 0) == "" && Repeated(" ", 0) == "";
    assert p.out + Separator(newline, lines, spaces) == p.out + Repeated(newline, lines) + Spaces(spaces);
  }

  lemma {:induction false} WriteSpaced(p: State, texts: seq<string>, starts: seq<nat>, text: string)
    requires Spaced(p, texts, starts) && Clean(text) && text != ""
    ensures var (lines, spaces) := Separation(p);
      Spaced(Write(p, text), texts + [text], starts + [|p.out| + |Separator(p.knobs.newline, lines, spaces)|])
  {
    hide Flush, Repeated, NoTrailingSpace, NoDoubleBlank, Holds, Covered, Between, Separator;
    var q := Write(p, text);
    var (lines, spaces) := Separation(p);
    var newline := p.knobs.newline;
    var separator := Separator(newline, lines, spaces);
    var start := |p.out| + |separator|;
    FlushSeparates(p);
    SeparatorIs(newline, lines, spaces);
    LastIsText(p.out, texts, starts);
    assert q.out == p.out + separator + text;
    LocatedMore(p.out, texts, starts, separator, text);
    NoTrailingMore(p.out, newline, lines, spaces, text);
    NoDoubleMore(p.out, newline, lines, spaces, text);
    CellsMore(p, texts, starts, text, start);
    ContinuationsMore(p, texts, starts, text, start);
    hide Located, Separator;
  }

  lemma {:induction false} ContinuationsMore(p: State, texts: seq<string>, starts: seq<nat>, text: string, start: nat)
    requires Spaced(p, texts, starts) && Clean(text) && text != ""
    requires var (lines, spaces) := Separation(p); start == |p.out| + |Separator(p.knobs.newline, lines, spaces)|
    requires p.out <= Write(p, text).out
    ensures var q := Write(p, text);
      forall c :: c in q.continuations ==>
        c.offset < |q.out| && !IsNewline(q.out[c.offset]) && Between(texts + [text], starts + [start], c.offset)
  {
    hide Flush, Write, Repeated, NoTrailingSpace, NoDoubleBlank, Located, Between, Separator;
    var q := Write(p, text);
    forall c | c in q.continuations
      ensures c.offset < |q.out| && !IsNewline(q.out[c.offset]) && Between(texts + [text], starts + [start], c.offset)
    {
      if c in p.continuations {
        assert q.out[c.offset] == p.out[c.offset];
      } else {
        NewContinuation(p, texts, starts, text, c);
      }
      BetweenMore(texts, starts, text, start, c.offset);
    }
  }

  lemma {:induction false} CellsMore(p: State, texts: seq<string>, starts: seq<nat>, text: string, start: nat)
    requires Spaced(p, texts, starts) && |p.out| <= start
    ensures forall c :: c in p.cells ==> Between(texts + [text], starts + [start], c.offset)
  {
    hide Located, NoTrailingSpace, NoDoubleBlank;
    forall c | c in p.cells ensures Between(texts + [text], starts + [start], c.offset) {
      BetweenMore(texts, starts, text, start, c.offset);
    }
  }

  /** A line placed by an earlier one starts with its indentation or its text. */
  lemma {:induction false} NewContinuation(p: State, texts: seq<string>, starts: seq<nat>, text: string, c: Continuation)
    requires Spaced(p, texts, starts) && Clean(text) && text != ""
    requires c in Write(p, text).continuations && c !in p.continuations
    ensures var (lines, spaces) := Separation(p);
      && c.offset <= |p.out| + |Separator(p.knobs.newline, lines, spaces)|
      && c.offset < |Write(p, text).out| && !IsNewline(Write(p, text).out[c.offset])
      && Between(texts, starts, c.offset)
  {
    hide Flush, NoTrailingSpace, NoDoubleBlank, Between, Covered, Holds, IsBlank;
    FlushSeparates(p);
    var q := Write(p, text);
    var (lines, spaces) := Separation(p);
    var separator := Separator(p.knobs.newline, lines, spaces);
    SeparatorIs(p.knobs.newline, lines, spaces);
    SeparatorIs(p.knobs.newline, lines, 0);
    assert |Repeated(p.knobs.newline, lines)| == lines * |p.knobs.newline|;
    var at := c.offset - |p.out|;
    assert q.out == p.out + separator + text && at <= |separator|;
    assert q.out[c.offset] == (separator + text)[at];
    hide Located, Separator, Repeated;
    BetweenPast(p.out, texts, starts, c.offset);
  }

  /** What a run has printed, spaced. */
  ghost predicate Printed(p: State, texts: seq<string>) {
    exists starts :: Spaced(p, texts, starts)
  }

  lemma {:induction false} WritePrinted(p: State, texts: seq<string>, text: string)
    requires Printed(p, texts) && Clean(text)
    ensures Printed(Write(p, text), if text == "" then texts else texts + [text])
  {
    hide Spaced, Flush;
    if text != "" {
      var starts :| Spaced(p, texts, starts);
      WriteSpaced(p, texts, starts, text);
    }
  }

  /** A cell noted is at the end of the output, which is between texts. */
  lemma {:induction false} CellPrinted(p: State, texts: seq<string>, table: Option<(nat, bool)>, index: nat)
    requires Printed(p, texts)
    ensures Printed(NoteCell(p, table, index), texts)
  {
    hide Located, NoTrailingSpace, NoDoubleBlank, Between;
    var starts :| Spaced(p, texts, starts);
    LastIsText(p.out, texts, starts);
    BetweenPast(p.out, texts, starts, |p.out|);
    var q := NoteCell(p, table, index);
    forall c | c in q.cells ensures c.offset <= |q.out| && Between(texts, starts, c.offset) {
      assert c in p.cells || c.offset == |p.out|;
    }
    assert Spaced(q, texts, starts);
  }

  /** Asking for separation, and what only the layout remembers, print nothing. */
  lemma {:induction false} AsksPrinted(p: State, q: State, texts: seq<string>)
    requires Printed(p, texts)
    requires q.knobs == p.knobs && q.out == p.out && q.cells == p.cells && q.continuations == p.continuations
    requires q.line == p.line
    requires q.gap.LinesGap? ==> 1 <= q.gap.count <= 2
    ensures Printed(q, texts)
  {
    var starts :| Spaced(p, texts, starts);
    assert Spaced(q, texts, starts);
  }

  /** A run to the bottom of its stack prints the texts on it, in order, and nothing else but blanks. */
  lemma {:induction false} RunPrints(p: State, stack: seq<Command>, texts: seq<string>)
    requires Printed(p, texts) && CleanStack(stack)
    ensures Printed(Run(p, stack, 0), texts + StackTexts(stack))
    decreases StackSize(stack), 1
  {
    hide Printed, Step;
    if stack == [] {
      assert texts + [] == texts;
    } else {
      var (q, left) := Step(p, stack);
      var done := StepPrints(p, stack, texts);
      RunPrints(q, left, texts + done);
      assert texts + done + StackTexts(left) == texts + (done + StackTexts(left));
    }
  }

  /** One turn prints the texts it takes off the stack. */
  lemma {:induction false} StepPrints(p: State, stack: seq<Command>, texts: seq<string>) returns (done: seq<string>)
    requires stack != [] && Printed(p, texts) && CleanStack(stack)
    ensures var (q, left) := Step(p, stack);
      Printed(q, texts + done) && CleanStack(left) && StackTexts(stack) == done + StackTexts(left)
    decreases StackSize(stack), 0, 1
  {
    hide Printed, PushFill, Fits, FitsPrinted, StackSize, Size, Sizes, Queued, Flush, Write;
    var command, rest := stack[|stack| - 1], stack[..|stack| - 1];
    done := [];
    assert texts + done == texts;
    AskedLines(p, texts);
    match command.work
    case Parts(parts) => FillTexts(p, command, parts, rest);
    case One(doc) =>
      match doc
      case Text(text) =>
        WritePrinted(p, texts, text);
        done := Texts(doc);
      case Space => AsksPrinted(p, AskSpace(p), texts);
      case Line => BreakPrints(p, stack, texts);
      case SoftLine => BreakPrints(p, stack, texts);
      case HardLine => BreakPrints(p, stack, texts);
      case BlankLine => BreakPrints(p, stack, texts);
      case Cell(index) => CellPrinted(p, texts, command.table, index);
      case Fill(parts) => FillTexts(p, command, parts, rest);
      case Concat(docs) =>
        QueuedTexts(command, command.mode, docs);
        StackTextsOver(rest, Queued(command, command.mode, docs));
      case Trailing(inner) =>
        done := Texts(inner);
        TrailingPrints(p, stack, texts);
      case Group(_) => WrapperPrints(p, stack, texts);
      case Indent(_) => WrapperPrints(p, stack, texts);
      case Margin(_) => WrapperPrints(p, stack, texts);
      case Align(_) => WrapperPrints(p, stack, texts);
      case Table(_, _) => WrapperPrints(p, stack, texts);
      case Prefer(_, _) => WrapperPrints(p, stack, texts);
  }

  lemma {:induction false} BreakPrints(p: State, stack: seq<Command>, texts: seq<string>)
    requires stack != [] && Printed(p, texts) && CleanStack(stack)
    requires var work := stack[|stack| - 1].work;
      work.One? && (work.doc.Line? || work.doc.SoftLine? || work.doc.HardLine? || work.doc.BlankLine?)
    ensures var (q, left) := Step(p, stack); Printed(q, texts) && CleanStack(left) && StackTexts(stack) == StackTexts(left)
  {
    hide Printed, StackSize;
    AskedLines(p, texts);
    AsksPrinted(p, Step(p, stack).0, texts);
  }

  /** A trailing comment is printed on its own, and does not cramp what it is in. */
  lemma {:induction false} TrailingPrints(p: State, stack: seq<Command>, texts: seq<string>)
    requires stack != [] && Printed(p, texts) && CleanStack(stack)
    requires var work := stack[|stack| - 1].work; work.One? && work.doc.Trailing?
    ensures Printed(Step(p, stack).0, texts + Texts(stack[|stack| - 1].work.doc))
    decreases StackSize(stack), 0, 0
  {
    hide *;
    var command := stack[|stack| - 1];
    var only := Inner(command, command.mode, command.work.doc.doc);
    TrailingSize(stack);
    TrailingStep(p, stack, texts);
    RunPrints(p, [only], texts);
    var ran := Run(p, [only], 0);
    AskedLines(ran, texts + StackTexts([only]));
    AsksPrinted(ran, ran.(cramped := p.cramped), texts + StackTexts([only]));
  }

  lemma TrailingStep(p: State, stack: seq<Command>, texts: seq<string>)
    requires stack != [] && CleanStack(stack)
    requires var work := stack[|stack| - 1].work; work.One? && work.doc.Trailing?
    ensures var command := stack[|stack| - 1];
      var only := Inner(command, command.mode, command.work.doc.doc);
      && CleanStack([only]) && StackTexts([only]) == Texts(command.work.doc)
      && Step(p, stack).0 == Run(p, [only], 0).(cramped := p.cramped)
  {
    hide Run, StackSize, Size, Queued;
    var command := stack[|stack| - 1];
    var only := Inner(command, command.mode, command.work.doc.doc);
    OneText(only);
    assert [] + [only] == [only];
  }

  lemma {:induction false} TrailingSize(stack: seq<Command>)
    requires stack != []
    requires var work := stack[|stack| - 1].work; work.One? && work.doc.Trailing?
    ensures var command := stack[|stack| - 1];
      StackSize([Inner(command, command.mode, command.work.doc.doc)]) < StackSize(stack)
  {
    var command := stack[|stack| - 1];
    OneSize(Inner(command, command.mode, command.work.doc.doc));
  }

  lemma {:induction false} WrapperPrints(p: State, stack: seq<Command>, texts: seq<string>)
    requires stack != [] && Printed(p, texts) && CleanStack(stack)
    requires var work := stack[|stack| - 1].work;
      work.One? && var doc := work.doc;
        doc.Group? || doc.Indent? || doc.Margin? || doc.Align? || doc.Table? || doc.Prefer?
    ensures var (q, left) := Step(p, stack);
      Printed(q, texts) && CleanStack(left) && StackTexts(stack) == StackTexts(left)
  {
    hide Printed, Fits, FitsPrinted, StackSize, Size, Sizes, Queued;
    var rest := stack[..|stack| - 1];
    var (q, left) := Step(p, stack);
    assert left == rest + [left[|rest|]];
    OnTop(rest, left[|rest|]);
    AskedLines(p, texts);
    AsksPrinted(p, q, texts);
  }

  lemma AskedLines(p: State, texts: seq<string>)
    requires Printed(p, texts)
    ensures p.gap.LinesGap? ==> 1 <= p.gap.count <= 2
  {
  }
}
