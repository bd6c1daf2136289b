/**
 * The printer computes the layout of its document: a run over a stack of commands lays out
 * what their documents come to, item by item, and a trial run what they would.
 */
module LayoutLays {
  import opened Wrappers
  import opened Layout
  import opened LayoutSpacing
  import opened LayoutColumns
  import opened LayoutItems
  import opened LayoutIndent
  import opened LayoutChoices
  import LayoutMarks

  function WorkLaid(how: How, work: Work, flat: bool, place: Place, before: seq<Item>, after: Ahead): seq<Item> {
    match work
    case One(doc) => Laid(how, doc, flat, place, before, after)
    case Parts(parts) => if flat then LaidAll(how, parts, true, place, before, after) else LaidParts(how, parts, place, before, after)
  }

  /** What the commands on a stack come to, the one on top first, with `bottom` under them. */
  function StackLaid(how: How, bottom: seq<Command>, stack: seq<Command>, places: seq<Place>, before: seq<Item>): seq<Item>
    requires |places| == |stack|
    decreases |stack|
  {
    if stack == [] then []
    else
      var n := |stack| - 1;
      var top := WorkLaid(how, stack[n].work, stack[n].mode == Flat, places[n], before, StackAhead(bottom + stack[..n]));
      top + StackLaid(how, bottom, stack[..n], places[..n], before + top)
  }

  /** Where a run is: its indentation, whether it counts what is cramped, and where its words are, if it is no trial. */
  datatype Here = Here(indent: nat, counted: bool, trial: bool, starts: seq<nat>)

  function HereOf(p: State, starts: seq<nat>, counted: bool): Here {
    Here(p.knobs.indent, counted, p.trial, starts)
  }

  /** A command inherits what its place in the document says. */
  predicate Inherits(command: Command, place: Place, items: seq<Item>, here: Here) {
    && (place.base.under.Some? ==> place.base.under.value <= |items|)
    && command.indent == ColumnOf(items, place.base, here.indent) && (command.anchor.Some? <==> place.base.aligned)
    && (!here.trial ==> command.anchor == AnchorOf(items, place.base, here.starts))
    && command.table == place.table && (here.counted ==> !place.trailing)
  }

  predicate AllInherit(stack: seq<Command>, places: seq<Place>, items: seq<Item>, here: Here) {
    |places| == |stack| && forall i :: 0 <= i < |stack| ==> Inherits(stack[i], places[i], items, here)
  }

  // ----- stacks

  /** Later words leave what commands inherit. */
  lemma {:induction false} InheritMore(stack: seq<Command>, places: seq<Place>, items: seq<Item>, more: seq<Item>, here: Here, after: seq<nat>)
    requires AllInherit(stack, places, items, here)
    requires here.starts <= after && (!here.trial ==> |Words(items)| <= |here.starts|)
    ensures AllInherit(stack, places, items + more, here.(starts := after))
  {
    hide ColumnOf, AnchorOf;
    forall i | 0 <= i < |stack| ensures Inherits(stack[i], places[i], items + more, here.(starts := after)) {
      assert Inherits(stack[i], places[i], items, here);
      ColumnSame(items, more, places[i].base, here.indent);
      if !here.trial {
        assert here.starts + after[|here.starts|..] == after;
        AnchorOfSame(items, more, places[i].base, here.starts, after[|here.starts|..]);
      }
    }
  }

  lemma AndInherits(stack: seq<Command>, places: seq<Place>, command: Command, place: Place, items: seq<Item>, here: Here)
    requires AllInherit(stack, places, items, here) && Inherits(command, place, items, here)
    ensures AllInherit(stack + [command], places + [place], items, here)
  {
    hide Inherits;
  }

  lemma TopInherits(stack: seq<Command>, places: seq<Place>, items: seq<Item>, here: Here)
    requires stack != [] && AllInherit(stack, places, items, here)
    ensures |places| == |stack| && Inherits(stack[|stack| - 1], places[|stack| - 1], items, here)
    ensures AllInherit(stack[..|stack| - 1], places[..|stack| - 1], items, here)
  {
    hide Inherits;
  }

  lemma BothInherit(a: seq<Command>, b: seq<Command>, x: seq<Place>, y: seq<Place>, items: seq<Item>, here: Here)
    requires AllInherit(a, x, items, here) && AllInherit(b, y, items, here)
    ensures AllInherit(a + b, x + y, items, here)
  {
    hide Inherits;
  }

  lemma AreInherited(stack: seq<Command>, places: seq<Place>, items: seq<Item>, here: Here)
    requires AllInherit(stack, places, items, here)
    ensures |places| == |stack|
  {
  }

  /** What is on top comes first. */
  lemma {:induction false} TopLaid(how: How, bottom: seq<Command>, rest: seq<Command>, places: seq<Place>, command: Command, place: Place,
                                   before: seq<Item>)
    requires |places| == |rest|
    ensures var top := WorkLaid(how, command.work, command.mode == Flat, place, before, StackAhead(bottom + rest));
      StackLaid(how, bottom, rest + [command], places + [place], before) == top + StackLaid(how, bottom, rest, places, before + top)
  {
    hide WorkLaid, StackAhead;
    var stack, all := rest + [command], places + [place];
    var n := |rest|;
    assert stack[..n] == rest && all[..n] == places && stack[n] == command && all[n] == place;
  }

  // ----- documents queued

  function Places(place: Place, count: nat): (places: seq<Place>)
    ensures |places| == count
  {
    seq(count, _ => place)
  }

  lemma {:induction false} QueuedInherit(command: Command, mode: Mode, docs: seq<Doc>, place: Place, items: seq<Item>, here: Here)
    requires Inherits(command, place, items, here)
    ensures AllInherit(Queued(command, mode, docs), Places(place, |docs|), items, here)
    decreases docs
  {
    if docs != [] {
      QueuedInherit(command, mode, docs[1..], place, items, here);
      assert Places(place, |docs|) == Places(place, |docs| - 1) + [place];
      AndInherits(Queued(command, mode, docs[1..]), Places(place, |docs| - 1), Inner(command, mode, docs[0]), place, items, here);
    }
  }

  /** Documents queued come to what they do one after another. */
  lemma {:induction false} QueuedLaid(how: How, bottom: seq<Command>, rest: seq<Command>, places: seq<Place>, command: Command, mode: Mode,
                                      docs: seq<Doc>, place: Place, before: seq<Item>)
    requires |places| == |rest|
    ensures var all := LaidAll(how, docs, mode == Flat, place, before, StackAhead(bottom + rest));
      StackLaid(how, bottom, rest + Queued(command, mode, docs), places + Places(place, |docs|), before) ==
        all + StackLaid(how, bottom, rest, places, before + all)
    decreases |docs|
  {
    hide Laid, StackLaid, StackAhead, AllAhead, Then;
    if docs == [] {
      assert rest + [] == rest && places + Places(place, 0) == places && before + [] == before;
    } else {
      var more := Queued(command, mode, docs[1..]);
      var stack, all := rest + more, places + Places(place, |docs| - 1);
      assert rest + Queued(command, mode, docs) == stack + [Inner(command, mode, docs[0])];
      assert places + Places(place, |docs|) == all + [place];
      TopLaid(how, bottom, stack, all, Inner(command, mode, docs[0]), place, before);
      AheadOver(bottom + rest, more);
      assert bottom + rest + more == bottom + stack;
      QueuedAhead(command, mode, docs[1..]);
      var first := Laid(how, docs[0], mode == Flat, place, before, Then(AllAhead(docs[1..], mode == Flat), StackAhead(bottom + rest)));
      QueuedLaid(how, bottom, rest, places, command, mode, docs[1..], place, before + first);
      var later := LaidAll(how, docs[1..], mode == Flat, place, before + first, StackAhead(bottom + rest));
      Regroup(before, first, later, StackLaid(how, bottom, rest, places, before + first + later));
    }
  }

  lemma Regroup(before: seq<Item>, first: seq<Item>, later: seq<Item>, last: seq<Item>)
    ensures before + first + later == before + (first + later) && first + (later + last) == first + later + last
  {
  }

  // ----- fills

  lemma InnerInherits(command: Command, inner: Command, place: Place, items: seq<Item>, here: Here)
    requires Inherits(command, place, items, here)
    requires inner.indent == command.indent && inner.table == command.table && inner.anchor == command.anchor
    ensures Inherits(inner, place, items, here)
  {
  }

  lemma {:induction false} FirstIsFlat(p: State, before: seq<Item>, parts: seq<Doc>, rest: seq<Command>)
    requires Followed(p, before) && parts != []
    ensures FirstFlat(p.knobs, parts, before, StackAhead(rest)) <==> Fits(p, parts[..1], if |parts| == 1 then rest else [])
    ensures |parts| == 1 ==> parts[..1] == parts
  {
    hide Followed, FitsAfter, AllAhead, Then, Fits;
    FitsExactly(p, before, parts[..1], if |parts| == 1 then rest else []);
    NothingOn();
  }

  lemma {:induction false} SecondIsFlat(p: State, before: seq<Item>, parts: seq<Doc>, rest: seq<Command>)
    requires Followed(p, before) && |parts| > 1
    ensures SecondFlat(p.knobs, parts, before, StackAhead(rest)) <==>
      if |parts| == 2 then Fits(p, parts[..1], []) else Starts(p, parts[..3], if |parts| == 3 then rest else [])
  {
    hide Followed, FitsAfter, AllAhead, Then, Fits, Starts, FirstFlat;
    FirstIsFlat(p, before, parts, rest);
    if |parts| > 2 {
      FitsExactly(p, before, parts[..3], if |parts| == 3 then rest else []);
      NothingOn();
    }
  }

  /** A fill, or what is left of one, is replaced by commands that come to the same. */
  lemma {:induction false} FillLaid(p: State, bottom: seq<Command>, rest: seq<Command>, places: seq<Place>, command: Command, place: Place,
                                    before: seq<Item>, parts: seq<Doc>, here: Here)
    returns (left: seq<Command>, leftPlaces: seq<Place>)
    requires |places| == |rest| && (command.work == Parts(parts) || command.work == One(Fill(parts))) && Followed(p, before)
    requires AllInherit(rest, places, before, here) && Inherits(command, place, before, here)
    ensures |leftPlaces| == |left| && PushFill(p, command, parts, bottom + rest) == bottom + left
    ensures AllInherit(left, leftPlaces, before, here)
    ensures var how := How(p.knobs, p.trial);
      StackLaid(how, bottom, rest + [command], places + [place], before) == StackLaid(how, bottom, left, leftPlaces, before)
  {
    hide WorkLaid, StackLaid, LaidAll, LaidParts, Fits, Starts, Inherits, AllInherit, Queued, Laid, Followed, StackAhead, FirstFlat;
    var how, after := How(p.knobs, p.trial), StackAhead(bottom + rest);
    TopLaid(how, bottom, rest, places, command, place, before);
    FillWork(how, command, place, before, after, parts);
    if command.mode == Flat {
      left, leftPlaces := rest + Queued(command, Flat, parts), places + Places(place, |parts|);
      assert bottom + rest + Queued(command, Flat, parts) == bottom + left;
      QueuedInherit(command, Flat, parts, place, before, here);
      BothInherit(rest, Queued(command, Flat, parts), places, Places(place, |parts|), before, here);
      QueuedLaid(how, bottom, rest, places, command, Flat, parts, place, before);
    } else if parts == [] {
      left, leftPlaces := rest, places;
      NoParts(how, place, before, after);
    } else if |parts| == 1 {
      var inner := Inner(command, ModeOf(Fits(p, parts, bottom + rest)), parts[0]);
      left, leftPlaces := rest + [inner], places + [place];
      assert bottom + rest + [inner] == bottom + left;
      InnerInherits(command, inner, place, before, here);
      AndInherits(rest, places, inner, place, before, here);
      FirstIsFlat(p, before, parts, bottom + rest);
      TopLaid(how, bottom, rest, places, inner, place, before);
      OneWork(how, parts[0], inner.mode == Flat, place, before, after);
      LastPart(how, parts, place, before, after);
    } else {
      left, leftPlaces := FillMore(p, bottom, rest, places, command, place, before, parts, here);
    }
  }

  lemma FillWork(how: How, command: Command, place: Place, before: seq<Item>, after: Ahead, parts: seq<Doc>)
    requires command.work == Parts(parts) || command.work == One(Fill(parts))
    ensures WorkLaid(how, command.work, command.mode == Flat, place, before, after) ==
      if command.mode == Flat then LaidAll(how, parts, true, place, before, after) else LaidParts(how, parts, place, before, after)
  {
    hide LaidAll, LaidParts;
  }

  lemma OneWork(how: How, doc: Doc, flat: bool, place: Place, before: seq<Item>, after: Ahead)
    ensures WorkLaid(how, One(doc), flat, place, before, after) == Laid(how, doc, flat, place, before, after)
  {
    hide Laid;
  }

  lemma PartsWork(how: How, parts: seq<Doc>, place: Place, before: seq<Item>, after: Ahead)
    ensures WorkLaid(how, Parts(parts), false, place, before, after) == LaidParts(how, parts, place, before, after)
  {
    hide LaidParts;
  }

  lemma NoParts(how: How, place: Place, before: seq<Item>, after: Ahead)
    ensures LaidParts(how, [], place, before, after) == [] && before + [] == before
  {
  }

  lemma LastPart(how: How, parts: seq<Doc>, place: Place, before: seq<Item>, after: Ahead)
    requires |parts| == 1
    ensures LaidParts(how, parts, place, before, after) ==
      Laid(how, parts[0], FirstFlat(how.knobs, parts, before, after), place, before, after)
  {
    hide Laid, FirstFlat;
  }

  lemma MoreParts(how: How, parts: seq<Doc>, place: Place, before: seq<Item>, after: Ahead)
    requires |parts| > 1
    ensures var both, rest := SecondFlat(how.knobs, parts, before, after), Then(AllAhead(parts[2..], false), after);
      var one := Laid(how, parts[0], FirstFlat(how.knobs, parts, before, after), place, before, Then(AheadOf(parts[1], both), rest));
      var two := Laid(how, parts[1], both, place, before + one, rest);
      LaidParts(how, parts, place, before, after) == one + two + LaidParts(how, parts[2..], place, before + one + two, after)
  {
    hide Laid, FirstFlat, SecondFlat, AheadOf, AllAhead, Then;
  }

  /** A part, its separator, and the rest of the fill. */
  lemma {:induction false} FillMore(p: State, bottom: seq<Command>, rest: seq<Command>, places: seq<Place>, command: Command, place: Place,
                                    before: seq<Item>, parts: seq<Doc>, here: Here)
    returns (all: seq<Command>, allPlaces: seq<Place>)
    requires |places| == |rest| && (command.work == Parts(parts) || command.work == One(Fill(parts))) && Followed(p, before)
    requires AllInherit(rest, places, before, here) && Inherits(command, place, before, here)
    requires |parts| > 1 && command.mode == Break
    ensures |allPlaces| == |all| && PushFill(p, command, parts, bottom + rest) == bottom + all
    ensures AllInherit(all, allPlaces, before, here)
    ensures var how := How(p.knobs, p.trial);
      StackLaid(how, bottom, rest + [command], places + [place], before) == StackLaid(how, bottom, all, allPlaces, before)
  {
    hide WorkLaid, StackLaid, LaidAll, LaidParts, Fits, Starts, Inherits, AllInherit, Queued, Laid, Followed, StackAhead, FirstFlat, SecondFlat;
    var under := bottom + rest;
    var flat := Fits(p, parts[..1], []);
    var both := if |parts| == 2 then flat else Starts(p, parts[..3], if |parts| == 3 then under else []);
    var first, second := Inner(command, ModeOf(flat), parts[0]), Inner(command, ModeOf(both), parts[1]);
    var more := command.(work := Parts(parts[2..]));
    var left, leftPlaces := if |parts| == 2 then rest else rest + [more], if |parts| == 2 then places else places + [place];
    all, allPlaces := left + [second] + [first], leftPlaces + [place] + [place];
    InnerInherits(command, more, place, before, here);
    InnerInherits(command, first, place, before, here);
    InnerInherits(command, second, place, before, here);
    AndInherits(rest, places, more, place, before, here);
    AndInherits(left, leftPlaces, second, place, before, here);
    AndInherits(left + [second], leftPlaces + [place], first, place, before, here);
    assert PushFill(p, command, parts, under) == (if |parts| == 2 then under else under + [more]) + [second] + [first];
    assert bottom + all == (if |parts| == 2 then under else under + [more]) + [second] + [first];
    FirstIsFlat(p, before, parts, under);
    SecondIsFlat(p, before, parts, under);
    FillSplits(How(p.knobs, p.trial), bottom, rest, places, command, place, before, parts, first, second);
  }

  lemma {:induction false} FillSplits(how: How, bottom: seq<Command>, rest: seq<Command>, places: seq<Place>, command: Command, place: Place,
                                      before: seq<Item>, parts: seq<Doc>, first: Command, second: Command)
    requires |places| == |rest| && (command.work == Parts(parts) || command.work == One(Fill(parts)))
    requires |parts| > 1 && command.mode == Break && first.work == One(parts[0]) && second.work == One(parts[1])
    requires (first.mode == Flat) == FirstFlat(how.knobs, parts, before, StackAhead(bottom + rest))
    requires (second.mode == Flat) == SecondFlat(how.knobs, parts, before, StackAhead(bottom + rest))
    ensures var left := if |parts| == 2 then rest else rest + [command.(work := Parts(parts[2..]))];
      var leftPlaces := if |parts| == 2 then places else places + [place];
      StackLaid(how, bottom, rest + [command], places + [place], before) ==
        StackLaid(how, bottom, left + [second] + [first], leftPlaces + [place] + [place], before)
  {
    hide *;
    var after := StackAhead(bottom + rest);
    var more := command.(work := Parts(parts[2..]));
    var left, leftPlaces := if |parts| == 2 then rest else rest + [more], if |parts| == 2 then places else places + [place];
    LeftAhead(bottom, rest, left, more, second, parts);
    TopLaid(how, bottom, rest, places, command, place, before);
    FillWork(how, command, place, before, after, parts);
    MoreParts(how, parts, place, before, after);
    var ahead := Then(AllAhead(parts[2..], false), after);
    var one := Laid(how, parts[0], first.mode == Flat, place, before, Then(AheadOf(parts[1], second.mode == Flat), ahead));
    var two := Laid(how, parts[1], second.mode == Flat, place, before + one, ahead);
    TwoLaid(how, bottom, left, leftPlaces, first, second, place, before, parts, one, two);
    var there := before + one + two;
    LeftLaid(how, bottom, rest, places, command, place, there, parts);
    FourParts(before, one, two, LaidParts(how, parts[2..], place, there, after),
              StackLaid(how, bottom, rest, places, there + LaidParts(how, parts[2..], place, there, after)));
  }

  lemma FourParts(before: seq<Item>, one: seq<Item>, two: seq<Item>, three: seq<Item>, last: seq<Item>)
    ensures one + two + three + last == one + (two + (three + last))
    ensures before + (one + two + three) == before + one + two + three
  {
  }

  /** A part and its separator, on top. */
  lemma {:induction false} TwoLaid(how: How, bottom: seq<Command>, left: seq<Command>, leftPlaces: seq<Place>, first: Command,
                                   second: Command, place: Place, before: seq<Item>, parts: seq<Doc>, one: seq<Item>, two: seq<Item>)
    requires |leftPlaces| == |left| && |parts| > 1 && first.work == One(parts[0]) && second.work == One(parts[1])
    requires one == Laid(how, parts[0], first.mode == Flat, place, before, StackAhead(bottom + (left + [second])))
    requires two == Laid(how, parts[1], second.mode == Flat, place, before + one, StackAhead(bottom + left))
    ensures StackLaid(how, bottom, left + [second] + [first], leftPlaces + [place] + [place], before) ==
      one + (two + StackLaid(how, bottom, left, leftPlaces, before + one + two))
  {
    hide *;
    TopLaid(how, bottom, left + [second], leftPlaces + [place], first, place, before);
    OneWork(how, parts[0], first.mode == Flat, place, before, StackAhead(bottom + (left + [second])));
    TopLaid(how, bottom, left, leftPlaces, second, place, before + one);
    OneWork(how, parts[1], second.mode == Flat, place, before + one, StackAhead(bottom + left));
  }

  /** The rest of the fill, under them. */
  lemma {:induction false} LeftLaid(how: How, bottom: seq<Command>, rest: seq<Command>, places: seq<Place>, command: Command, place: Place,
                                    there: seq<Item>, parts: seq<Doc>)
    requires |places| == |rest| && |parts| > 1 && command.mode == Break
    ensures var left := if |parts| == 2 then rest else rest + [command.(work := Parts(parts[2..]))];
      var leftPlaces := if |parts| == 2 then places else places + [place];
      var three := LaidParts(how, parts[2..], place, there, StackAhead(bottom + rest));
      StackLaid(how, bottom, left, leftPlaces, there) == three + StackLaid(how, bottom, rest, places, there + three)
  {
    hide *;
    if |parts| == 2 {
      assert parts[2..] == [];
      NoParts(how, place, there, StackAhead(bottom + rest));
      assert [] + StackLaid(how, bottom, rest, places, there) == StackLaid(how, bottom, rest, places, there);
    } else {
      TopLaid(how, bottom, rest, places, command.(work := Parts(parts[2..])), place, there);
      PartsWork(how, parts[2..], place, there, StackAhead(bottom + rest));
    }
  }

  /** What follows the first part, and its separator. */
  lemma {:induction false} LeftAhead(bottom: seq<Command>, rest: seq<Command>, left: seq<Command>, more: Command, second: Command, parts: seq<Doc>)
    requires |parts| > 1 && left == (if |parts| == 2 then rest else rest + [more]) && more.mode == Break
    requires more.work == Parts(parts[2..]) && second.work == One(parts[1])
    ensures StackAhead(bottom + left) == Then(AllAhead(parts[2..], false), StackAhead(bottom + rest))
    ensures StackAhead(bottom + (left + [second])) ==
      Then(AheadOf(parts[1], second.mode == Flat), Then(AllAhead(parts[2..], false), StackAhead(bottom + rest)))
  {
    hide StackAhead, AheadOf, Then;
    assert bottom + (left + [second]) == bottom + left + [second];
    AheadOver(bottom + left, [second]);
    OneAhead(second);
    if |parts| == 2 {
      assert parts[2..] == [];
      ThenNothing(StackAhead(bottom + rest));
    } else {
      assert bottom + left == bottom + rest + [more];
      AheadOver(bottom + rest, [more]);
      OneAhead(more);
    }
  }

  // ----- one turn

  /** What one turn comes to: `more`, and what is left on the stack. */
  ghost predicate Turns(p: State, bottom: seq<Command>, stack: seq<Command>, places: seq<Place>, before: seq<Item>, left: seq<Command>,
                        leftPlaces: seq<Place>, more: seq<Item>, starts: seq<nat>, counted: bool)
    requires stack != []
  {
    && |places| == |stack| && |leftPlaces| == |left|
    && var (q, all), how := Step(p, bottom + stack), How(p.knobs, p.trial);
       && all == bottom + left && q.knobs == p.knobs && q.trial == p.trial
       && LaidOut(q, before + more, starts, counted)
       && AllInherit(left, leftPlaces, before + more, HereOf(p, starts, counted))
       && StackLaid(how, bottom, stack, places, before) == more + StackLaid(how, bottom, left, leftPlaces, before + more)
  }

  lemma TurnsSo(p: State, bottom: seq<Command>, stack: seq<Command>, places: seq<Place>, before: seq<Item>, q: State, left: seq<Command>,
                leftPlaces: seq<Place>, more: seq<Item>, starts: seq<nat>, counted: bool)
    requires stack != [] && |places| == |stack| && |leftPlaces| == |left| && Step(p, bottom + stack) == (q, bottom + left)
    requires q.knobs == p.knobs && q.trial == p.trial && LaidOut(q, before + more, starts, counted)
    requires AllInherit(left, leftPlaces, before + more, HereOf(p, starts, counted))
    requires var how := How(p.knobs, p.trial);
      StackLaid(how, bottom, stack, places, before) == more + StackLaid(how, bottom, left, leftPlaces, before + more)
    ensures Turns(p, bottom, stack, places, before, left, leftPlaces, more, starts, counted)
  {
    hide LaidOut, AllInherit, StackLaid, Step;
  }

  /** A command that is done in one turn. */
  lemma {:induction false} DoneTurns(p: State, q: State, bottom: seq<Command>, rest: seq<Command>, places: seq<Place>, command: Command,
                                     place: Place, before: seq<Item>, was: seq<nat>, more: seq<Item>, starts: seq<nat>, counted: bool)
    requires AllInherit(rest, places, before, HereOf(p, was, counted)) && q.knobs == p.knobs && q.trial == p.trial
    requires was <= starts && (!p.trial ==> |Words(before)| <= |was|)
    requires LaidOut(q, before + more, starts, counted) && Step(p, bottom + (rest + [command])) == (q, bottom + rest)
    requires WorkLaid(How(p.knobs, p.trial), command.work, command.mode == Flat, place, before, StackAhead(bottom + rest)) == more
    ensures Turns(p, bottom, rest + [command], places + [place], before, rest, places, more, starts, counted)
  {
    hide *;
    AreInherited(rest, places, before, HereOf(p, was, counted));
    HereIs(p, was, starts, counted);
    InheritMore(rest, places, before, more, HereOf(p, was, counted), starts);
    TopLaid(How(p.knobs, p.trial), bottom, rest, places, command, place, before);
    TurnsSo(p, bottom, rest + [command], places + [place], before, q, rest, places, more, starts, counted);
  }

  lemma HereIs(p: State, was: seq<nat>, starts: seq<nat>, counted: bool)
    ensures HereOf(p, was, counted).(starts := starts) == HereOf(p, starts, counted)
    ensures HereOf(p, was, counted).starts == was && HereOf(p, was, counted).trial == p.trial
    ensures HereOf(p, was, counted).indent == p.knobs.indent && HereOf(p, was, counted).counted == counted
  {
  }

  /** Each word laid out has its start, if this is no trial. */
  lemma WordsStart(p: State, before: seq<Item>, starts: seq<nat>, counted: bool)
    requires LaidOut(p, before, starts, counted)
    ensures !p.trial ==> |Words(before)| == |starts|
  {
    hide Followed, Cramped;
    if !p.trial {
      WrittenMeans(p, before, starts);
      SpacedMeans(p, Words(before), starts);
    }
  }

  /** A command replaced by the one it holds. */
  lemma {:induction false} HeldTurns(p: State, q: State, bottom: seq<Command>, rest: seq<Command>, places: seq<Place>, command: Command,
                                     place: Place, before: seq<Item>, inner: Command, innerPlace: Place, more: seq<Item>,
                                     starts: seq<nat>, counted: bool)
    requires AllInherit(rest, places, before, HereOf(p, starts, counted)) && q.knobs == p.knobs && q.trial == p.trial
    requires LaidOut(q, before + more, starts, counted) && Step(p, bottom + (rest + [command])) == (q, bottom + (rest + [inner]))
    requires Inherits(inner, innerPlace, before + more, HereOf(p, starts, counted))
    requires var how, after := How(p.knobs, p.trial), StackAhead(bottom + rest);
      WorkLaid(how, command.work, command.mode == Flat, place, before, after) ==
        more + WorkLaid(how, inner.work, inner.mode == Flat, innerPlace, before + more, after)
    ensures Turns(p, bottom, rest + [command], places + [place], before, rest + [inner], places + [innerPlace], more, starts, counted)
  {
    hide *;
    var how, after := How(p.knobs, p.trial), StackAhead(bottom + rest);
    AreInherited(rest, places, before, HereOf(p, starts, counted));
    HereIs(p, starts, starts, counted);
    WordsStart(q, before + more, starts, counted);
    WordsGrow(before + more, |before|);
    assert (before + more)[..|before|] == before;
    InheritMore(rest, places, before, more, HereOf(p, starts, counted), starts);
    AndInherits(rest, places, inner, innerPlace, before + more, HereOf(p, starts, counted));
    TopLaid(how, bottom, rest, places, command, place, before);
    TopLaid(how, bottom, rest, places, inner, innerPlace, before + more);
    var held := WorkLaid(how, inner.work, inner.mode == Flat, innerPlace, before + more, after);
    Regroup(before, more, held, StackLaid(how, bottom, rest, places, before + more + held));
    TurnsSo(p, bottom, rest + [command], places + [place], before, q, rest + [inner], places + [innerPlace], more, starts, counted);
  }

  lemma OnBottom(bottom: seq<Command>, rest: seq<Command>, command: Command)
    ensures var stack := bottom + (rest + [command]);
      stack != [] && stack[|stack| - 1] == command && stack[..|stack| - 1] == bottom + rest && bottom + rest + [command] == stack
  {
  }

  // ----- each kind of document

  predicate IsBreak(doc: Doc) { doc.Line? || doc.SoftLine? || doc.HardLine? || doc.BlankLine? }

  predicate IsLeaf(doc: Doc) { IsBreak(doc) || doc.Space? || doc.Cell? }

  predicate IsWrapper(doc: Doc) {
    doc.Group? || doc.Indent? || doc.Margin? || doc.Align?
  }

  function LeafState(p: State, command: Command, doc: Doc): State
    requires IsLeaf(doc)
  {
    match doc
    case Space => AskSpace(p)
    case Line => if command.mode == Flat then AskSpace(p) else AskLines(p, 1, command.indent, command.anchor)
    case SoftLine => if command.mode == Flat then p else AskLines(p, 1, command.indent, command.anchor)
    case HardLine => AskLines(p, 1, command.indent, command.anchor)
    case BlankLine => AskLines(p, 2, command.indent, command.anchor)
    case Cell(index) => NoteCell(p, command.table, index)
  }

  lemma {:induction false} LeafTurns(p: State, bottom: seq<Command>, rest: seq<Command>, places: seq<Place>, command: Command, place: Place,
                                     before: seq<Item>, starts: seq<nat>, doc: Doc, counted: bool) returns (more: seq<Item>)
    requires AllInherit(rest, places, before, HereOf(p, starts, counted)) && Inherits(command, place, before, HereOf(p, starts, counted))
    requires LaidOut(p, before, starts, counted) && command.work == One(doc) && IsLeaf(doc)
    ensures Turns(p, bottom, rest + [command], places + [place], before, rest, places, more, starts, counted)
  {
    hide LaidOut, AllInherit, Turns, NoteCell, ColumnOf, AskSpace, AskLines, Step, StackAhead, WorkLaid;
    var flat := command.mode == Flat;
    more := WorkLaid(How(p.knobs, p.trial), command.work, flat, place, before, StackAhead(bottom + rest));
    LeafLaid(How(p.knobs, p.trial), doc, flat, place, before, StackAhead(bottom + rest));
    LeafStep(p, bottom, rest, command, doc);
    if doc.Cell? {
      CellLaid(p, before, starts, command.table, doc.index, counted);
    } else if doc.Space? || (flat && doc.Line?) {
      BlankLaid(p, before, starts, counted);
    } else if flat && doc.SoftLine? {
      assert before + [] == before;
    } else {
      BreakLaid(p, before, starts, if doc.BlankLine? then 2 else 1, place.base, command.indent, command.anchor, counted);
    }
    WordsStart(p, before, starts, counted);
    DoneTurns(p, LeafState(p, command, doc), bottom, rest, places, command, place, before, starts, more, starts, counted);
  }

  lemma LeafLaid(how: How, doc: Doc, flat: bool, place: Place, before: seq<Item>, after: Ahead)
    requires IsLeaf(doc)
    ensures WorkLaid(how, One(doc), flat, place, before, after) ==
      if doc.Cell? then [CellEnd(place.table, doc.index)]
      else if doc.Space? || (flat && doc.Line?) then [Blank]
      else if flat && doc.SoftLine? then []
      else [LineBreak(if doc.BlankLine? then 2 else 1, place.base)]
  {
  }

  lemma LeafStep(p: State, bottom: seq<Command>, rest: seq<Command>, command: Command, doc: Doc)
    requires command.work == One(doc) && IsLeaf(doc)
    ensures Step(p, bottom + (rest + [command])) == (LeafState(p, command, doc), bottom + rest)
    ensures LeafState(p, command, doc).knobs == p.knobs && LeafState(p, command, doc).trial == p.trial
  {
    OnBottom(bottom, rest, command);
  }

  lemma {:induction false} WordTurns(p: State, bottom: seq<Command>, rest: seq<Command>, places: seq<Place>, command: Command, place: Place,
                                     before: seq<Item>, starts: seq<nat>, text: string, counted: bool)
    returns (more: seq<Item>, after: seq<nat>)
    requires AllInherit(rest, places, before, HereOf(p, starts, counted)) && LaidOut(p, before, starts, counted) && Clean(text)
    requires Inherits(command, place, before, HereOf(p, starts, counted)) && command.work == One(Text(text))
    ensures Turns(p, bottom, rest + [command], places + [place], before, rest, places, more, after, counted) && starts <= after
  {
    hide LaidOut, AllInherit, Turns, Flush, Clean, Step, StackAhead, WorkLaid, ColumnOf;
    WordStep(p, bottom, rest, command, text);
    WordLaid(How(p.knobs, p.trial), text, command.mode == Flat, place, before, StackAhead(bottom + rest));
    if text == "" {
      more, after := [], starts;
      assert before + [] == before;
    } else {
      more := [Word(text, place.trailing)];
      after := TextLaid(p, before, starts, text, place.trailing, counted);
    }
    WordsStart(p, before, starts, counted);
    DoneTurns(p, Write(p, text), bottom, rest, places, command, place, before, starts, more, after, counted);
  }

  lemma WordStep(p: State, bottom: seq<Command>, rest: seq<Command>, command: Command, text: string)
    requires command.work == One(Text(text))
    ensures Step(p, bottom + (rest + [command])) == (Write(p, text), bottom + rest)
    ensures Write(p, text).knobs == p.knobs && Write(p, text).trial == p.trial
  {
    OnBottom(bottom, rest, command);
  }

  lemma WordLaid(how: How, text: string, flat: bool, place: Place, before: seq<Item>, after: Ahead)
    ensures WorkLaid(how, One(Text(text)), flat, place, before, after) == if text == "" then [] else [Word(text, place.trailing)]
  {
  }

  /** Where what a wrapper holds is in the document. */
  function InnerPlace(doc: Doc, place: Place, before: seq<Item>): Place {
    match doc
    case Indent(_) => place.(base := place.base.(levels := place.base.levels + 1))
    case Margin(_) => place.(base := LEFT)
    case Align(_) => place.(base := Under(before))
    case _ => place
  }

  function WrapperInner(p: State, command: Command, doc: Doc, under: seq<Command>): Command
    requires IsWrapper(doc)
  {
    match doc
    case Group(doc) => Inner(command, ModeOf(command.mode == Flat || Fits(p, [doc], under)), doc)
    case Indent(doc) => Inner(command, command.mode, doc).(indent := command.indent + p.knobs.indent)
    case Margin(doc) => Inner(command, command.mode, doc).(indent := 0, anchor := None)
    case Align(doc) =>
      Inner(command, command.mode, doc).(indent := Layout.Alignment(p).0, anchor := Layout.Alignment(p).1)
  }

  lemma {:induction false} WrapperTurns(p: State, bottom: seq<Command>, rest: seq<Command>, places: seq<Place>, command: Command, place: Place,
                                        before: seq<Item>, starts: seq<nat>, doc: Doc, counted: bool) returns (inner: Command)
    requires AllInherit(rest, places, before, HereOf(p, starts, counted)) && Inherits(command, place, before, HereOf(p, starts, counted))
    requires LaidOut(p, before, starts, counted) && command.work == One(doc) && IsWrapper(doc)
    ensures Turns(p, bottom, rest + [command], places + [place], before, rest + [inner], places + [InnerPlace(doc, place, before)], [],
                  starts, counted)
  {
    hide *;
    LaidMeans(p, before, starts, counted);
    inner := WrapperInner(p, command, doc, bottom + rest);
    WrapperStep(p, bottom, rest, command, doc);
    InnerIs(p, command, inner, place, before, starts, doc, bottom + rest, counted);
    GroupFits(p, before, doc, bottom + rest);
    WrapperLaid(p, command, inner, place, before, StackAhead(bottom + rest), doc, bottom + rest);
    assert before + [] == before;
    HeldTurns(p, p, bottom, rest, places, command, place, before, inner, InnerPlace(doc, place, before), [], starts, counted);
  }

  lemma WrapperStep(p: State, bottom: seq<Command>, rest: seq<Command>, command: Command, doc: Doc)
    requires command.work == One(doc) && IsWrapper(doc)
    ensures Step(p, bottom + (rest + [command])) == (p, bottom + (rest + [WrapperInner(p, command, doc, bottom + rest)]))
  {
    hide Fits, Layout.Alignment;
    OnBottom(bottom, rest, command);
    OnBottom(bottom, rest, WrapperInner(p, command, doc, bottom + rest));
  }

  lemma {:induction false} GroupFits(p: State, before: seq<Item>, doc: Doc, under: seq<Command>)
    requires Followed(p, before)
    ensures doc.Group? ==>
      (Fits(p, [doc.doc], under) <==> FitsAfter(p.knobs, before, Then(AheadOf(doc.doc, true), StackAhead(under)), false))
  {
    hide Followed, FitsAfter, Then, Fits, StackAhead, AheadOf;
    if doc.Group? {
      FitsExactly(p, before, [doc.doc], under);
      assert [doc.doc][1..] == [];
      ThenNothing(AheadOf(doc.doc, true));
    }
  }

  lemma WrapperLaid(p: State, command: Command, inner: Command, place: Place, before: seq<Item>, after: Ahead, doc: Doc, under: seq<Command>)
    requires IsWrapper(doc) && command.work == One(doc) && inner == WrapperInner(p, command, doc, under)
    requires doc.Group? ==> (Fits(p, [doc.doc], under) <==> FitsAfter(p.knobs, before, Then(AheadOf(doc.doc, true), after), false))
    ensures var how := How(p.knobs, p.trial);
      WorkLaid(how, command.work, command.mode == Flat, place, before, after) ==
        [] + WorkLaid(how, inner.work, inner.mode == Flat, InnerPlace(doc, place, before), before, after)
    ensures before + [] == before
  {
    hide Fits, FitsAfter, Layout.Alignment, Then, AheadOf;
  }

  /** What a wrapper holds starts its lines where its place says. */
  lemma {:induction false} InnerIs(p: State, command: Command, inner: Command, place: Place, before: seq<Item>,
                                   starts: seq<nat>, doc: Doc, under: seq<Command>, counted: bool)
    requires Inherits(command, place, before, HereOf(p, starts, counted)) && LaidOut(p, before, starts, counted) && IsWrapper(doc)
    requires inner == WrapperInner(p, command, doc, under)
    ensures Inherits(inner, InnerPlace(doc, place, before), before + [], HereOf(p, starts, counted))
  {
    hide LaidOut, Followed, Alignment, Start, Fits, AnchorUnder;
    assert before + [] == before;
    match doc
    case Indent(_) => DeeperColumn(before, place.base, p.knobs.indent);
    case Align(_) =>
      LaidMeans(p, before, starts, counted);
      FollowedMeans(p, before);
      AlignmentIs(p, before);
      if !p.trial {
        WrittenMeans(p, before, starts);
        SpacedMeans(p, Words(before), starts);
        AnchorIs(p, before, starts);
      }
      assert before[..|before|] == before;
    case Group(_) =>
    case Margin(_) =>
  }

  lemma DeeperColumn(items: seq<Item>, base: Base, indent: nat)
    ensures ColumnOf(items, base.(levels := base.levels + 1), indent) == ColumnOf(items, base, indent) + indent
  {
    hide Start;
    assert (base.levels + 1) * indent == base.levels * indent + indent;
  }

  /** Lines broken under a place start where the next word would. */
  lemma AlignmentIs(p: State, items: seq<Item>)
    requires GapIs(p, items) && p.column == EndColumn(items, p.knobs.indent)
    requires p.out == "" <==> Words(items) == []
    requires p.out != "" ==> !IsBlank(p.out[|p.out| - 1])
    ensures Layout.Alignment(p).0 == Start(items, p.knobs.indent)
    ensures Layout.Alignment(p).1.Some? <==> Under(items).aligned
  {
    hide EndColumn, Words, Pending, Blanked;
  }

  /** And are placed under what the next word is, or its line. */
  lemma AnchorIs(p: State, items: seq<Item>, starts: seq<nat>)
    requires GapIs(p, items) && AnchorsAre(p, items, starts) && p.line == RowOf(items)
    requires |starts| == |Words(items)| && |p.out| == EndBefore(Words(items), starts, |starts|) && (p.out == "" <==> Words(items) == [])
    requires p.out != "" ==> !IsBlank(p.out[|p.out| - 1])
    ensures Layout.Alignment(p).1 == AnchorUnder(items, starts)
  {
    hide LineAnchor, Words, Pending, Blanked, RowOf;
    UnderIs(items, starts);
  }

  lemma UnderIs(items: seq<Item>, starts: seq<nat>)
    ensures Pending(items).Some? && StartsBefore(items, Pending(items).value.1) ==>
      AnchorUnder(items, starts) == AnchorOf(items, Pending(items).value.1, starts)
  {
    hide LineAnchor, Pending;
  }

  lemma {:induction false} TableTurns(p: State, bottom: seq<Command>, rest: seq<Command>, places: seq<Place>, command: Command, place: Place,
                                      before: seq<Item>, starts: seq<nat>, doc: Doc, strict: bool, counted: bool) returns (inner: Command)
    requires AllInherit(rest, places, before, HereOf(p, starts, counted)) && Inherits(command, place, before, HereOf(p, starts, counted))
    requires LaidOut(p, before, starts, counted) && command.work == One(Table(doc, strict))
    ensures Turns(p, bottom, rest + [command], places + [place], before, rest + [inner],
                  places + [place.(table := Some((Tables(before) + 1, strict)))], [Enter(strict)], starts, counted)
  {
    hide *;
    var innerPlace := place.(table := Some((Tables(before) + 1, strict)));
    LaidMeans(p, before, starts, counted);
    FollowedMeans(p, before);
    inner := TableStep(p, bottom, rest, command, doc, strict);
    EnterLaid(p, before, starts, strict, counted);
    TableInherits(command, inner, place, before, HereOf(p, starts, counted), Enter(strict), innerPlace);
    TableLaid(How(p.knobs, p.trial), command.mode == Flat, place, before, StackAhead(bottom + rest), doc, strict);
    HeldTurns(p, p.(tables := p.tables + 1), bottom, rest, places, command, place, before, inner, innerPlace, [Enter(strict)], starts, counted);
  }

  lemma TableStep(p: State, bottom: seq<Command>, rest: seq<Command>, command: Command, doc: Doc, strict: bool) returns (inner: Command)
    requires command.work == One(Table(doc, strict))
    ensures Step(p, bottom + (rest + [command])) == (p.(tables := p.tables + 1), bottom + (rest + [inner]))
    ensures inner.table == Some((p.tables + 1, strict)) && inner.work == One(doc) && inner.mode == command.mode
    ensures inner.indent == command.indent && inner.anchor == command.anchor
  {
    inner := Inner(command, command.mode, doc).(table := Some((p.tables + 1, strict)));
    OnBottom(bottom, rest, command);
    OnBottom(bottom, rest, inner);
  }

  lemma TableLaid(how: How, flat: bool, place: Place, before: seq<Item>, after: Ahead, doc: Doc, strict: bool)
    ensures WorkLaid(how, One(Table(doc, strict)), flat, place, before, after) ==
      [Enter(strict)] + WorkLaid(how, One(doc), flat, place.(table := Some((Tables(before) + 1, strict))), before + [Enter(strict)], after)
  {
    hide Tables;
  }

  lemma TableInherits(command: Command, inner: Command, place: Place, before: seq<Item>, here: Here, item: Item, innerPlace: Place)
    requires Inherits(command, place, before, here) && inner.indent == command.indent && inner.anchor == command.anchor
    requires innerPlace == place.(table := inner.table)
    ensures Inherits(inner, innerPlace, before + [item], here)
  {
    hide ColumnOf, AnchorOf;
    ColumnSame(before, [item], place.base, here.indent);
    LaterAnchor(before, item, place.base, here.starts);
  }

  lemma {:induction false} ConcatTurns(p: State, bottom: seq<Command>, rest: seq<Command>, places: seq<Place>, command: Command, place: Place,
                                       before: seq<Item>, starts: seq<nat>, docs: seq<Doc>, counted: bool)
    returns (left: seq<Command>, leftPlaces: seq<Place>)
    requires AllInherit(rest, places, before, HereOf(p, starts, counted)) && Inherits(command, place, before, HereOf(p, starts, counted))
    requires LaidOut(p, before, starts, counted) && command.work == One(Concat(docs))
    ensures Turns(p, bottom, rest + [command], places + [place], before, left, leftPlaces, [], starts, counted)
  {
    hide *;
    var how, queued := How(p.knobs, p.trial), Queued(command, command.mode, docs);
    left, leftPlaces := rest + queued, places + Places(place, |docs|);
    AreInherited(rest, places, before, HereOf(p, starts, counted));
    QueuedInherit(command, command.mode, docs, place, before, HereOf(p, starts, counted));
    BothInherit(rest, queued, places, Places(place, |docs|), before, HereOf(p, starts, counted));
    AreInherited(left, leftPlaces, before, HereOf(p, starts, counted));
    TopLaid(how, bottom, rest, places, command, place, before);
    ConcatWork(how, docs, command.mode == Flat, place, before, StackAhead(bottom + rest));
    QueuedLaid(how, bottom, rest, places, command, command.mode, docs, place, before);
    ConcatStep(p, bottom, rest, command, docs);
    assert before + [] == before && [] + StackLaid(how, bottom, left, leftPlaces, before) == StackLaid(how, bottom, left, leftPlaces, before);
    TurnsSo(p, bottom, rest + [command], places + [place], before, p, left, leftPlaces, [], starts, counted);
  }

  lemma ConcatWork(how: How, docs: seq<Doc>, flat: bool, place: Place, before: seq<Item>, after: Ahead)
    ensures WorkLaid(how, One(Concat(docs)), flat, place, before, after) == LaidAll(how, docs, flat, place, before, after)
  {
    hide LaidAll;
  }

  lemma ConcatStep(p: State, bottom: seq<Command>, rest: seq<Command>, command: Command, docs: seq<Doc>)
    requires command.work == One(Concat(docs))
    ensures Step(p, bottom + (rest + [command])) == (p, bottom + (rest + Queued(command, command.mode, docs)))
  {
    hide Queued;
    OnBottom(bottom, rest, command);
    assert bottom + rest + Queued(command, command.mode, docs) == bottom + (rest + Queued(command, command.mode, docs));
  }

  lemma {:induction false} FillTurns(p: State, bottom: seq<Command>, rest: seq<Command>, places: seq<Place>, command: Command, place: Place,
                                     before: seq<Item>, starts: seq<nat>, parts: seq<Doc>, counted: bool)
    returns (left: seq<Command>, leftPlaces: seq<Place>)
    requires AllInherit(rest, places, before, HereOf(p, starts, counted)) && Inherits(command, place, before, HereOf(p, starts, counted))
    requires LaidOut(p, before, starts, counted) && (command.work == Parts(parts) || command.work == One(Fill(parts)))
    ensures Turns(p, bottom, rest + [command], places + [place], before, left, leftPlaces, [], starts, counted)
  {
    hide *;
    LaidMeans(p, before, starts, counted);
    AreInherited(rest, places, before, HereOf(p, starts, counted));
    left, leftPlaces := FillLaid(p, bottom, rest, places, command, place, before, parts, HereOf(p, starts, counted));
    FillStep(p, bottom, rest, command, parts);
    var how := How(p.knobs, p.trial);
    assert before + [] == before && [] + StackLaid(how, bottom, left, leftPlaces, before) == StackLaid(how, bottom, left, leftPlaces, before);
    TurnsSo(p, bottom, rest + [command], places + [place], before, p, left, leftPlaces, [], starts, counted);
  }

  lemma FillStep(p: State, bottom: seq<Command>, rest: seq<Command>, command: Command, parts: seq<Doc>)
    requires command.work == Parts(parts) || command.work == One(Fill(parts))
    ensures Step(p, bottom + (rest + [command])) == (p, PushFill(p, command, parts, bottom + rest))
  {
    hide PushFill;
    OnBottom(bottom, rest, command);
  }

  // ----- a choice of two layouts

  /** The choice taken: the first if it is flat or kept. */
  lemma {:induction false} PreferTurns(p: State, bottom: seq<Command>, rest: seq<Command>, places: seq<Place>, command: Command, place: Place,
                                       before: seq<Item>, starts: seq<nat>, first: Doc, otherwise: Doc, counted: bool) returns (inner: Command)
    requires AllInherit(rest, places, before, HereOf(p, starts, counted)) && Inherits(command, place, before, HereOf(p, starts, counted))
    requires LaidOut(p, before, starts, counted) && command.work == One(Prefer(first, otherwise)) && CleanStack(bottom + (rest + [command]))
    ensures Turns(p, bottom, rest + [command], places + [place], before, rest + [inner], places + [place], [], starts, counted)
    decreases StackSize(bottom + (rest + [command])), 0, 0
  {
    hide *;
    LaidMeans(p, before, starts, counted);
    var after := StackAhead(bottom + rest);
    var kept := command.mode == Flat || FitsPrinted(p, Inner(command, command.mode, first), bottom + rest);
    inner := Inner(command, command.mode, if kept then first else otherwise);
    InnerKeeps(command, inner, if kept then first else otherwise);
    PreferStep(p, bottom, rest, command, first, otherwise);
    if command.mode != Flat {
      if p.trial {
        NoTrials(p, Inner(command, command.mode, first), bottom + rest);
      } else {
        PreferClean(p, bottom, rest, command, first, otherwise);
        KeptExactly(p, bottom + rest, command, place, before, starts, first, counted);
      }
    }
    PreferLaid(How(p.knobs, p.trial), first, otherwise, command.mode == Flat, place, before, after, kept);
    InnerInherits(command, inner, place, before, HereOf(p, starts, counted));
    assert before + [] == before;
    var held := WorkLaid(How(p.knobs, p.trial), inner.work, inner.mode == Flat, place, before, after);
    assert [] + held == held;
    HeldTurns(p, p, bottom, rest, places, command, place, before, inner, place, [], starts, counted);
  }

  lemma InnerKeeps(command: Command, inner: Command, doc: Doc)
    requires inner == Inner(command, command.mode, doc)
    ensures inner.indent == command.indent && inner.table == command.table && inner.anchor == command.anchor
    ensures inner.work == One(doc) && inner.mode == command.mode
  {
  }

  lemma NoTrials(p: State, command: Command, rest: seq<Command>)
    requires p.trial
    ensures !FitsPrinted(p, command, rest)
  {
  }

  lemma PreferStep(p: State, bottom: seq<Command>, rest: seq<Command>, command: Command, first: Doc, otherwise: Doc)
    requires command.work == One(Prefer(first, otherwise))
    ensures var kept := command.mode == Flat || FitsPrinted(p, Inner(command, command.mode, first), bottom + rest);
      var inner := Inner(command, command.mode, if kept then first else otherwise);
      Step(p, bottom + (rest + [command])) == (p, bottom + (rest + [inner]))
  {
    hide FitsPrinted;
    OnBottom(bottom, rest, command);
    OnBottom(bottom, rest, Inner(command, command.mode, first));
    OnBottom(bottom, rest, Inner(command, command.mode, otherwise));
  }

  lemma PreferLaid(how: How, first: Doc, otherwise: Doc, flat: bool, place: Place, before: seq<Item>, after: Ahead, kept: bool)
    requires kept <==> flat || (!how.trial && Kept(how.knobs, first, place, before, after))
    ensures WorkLaid(how, One(Prefer(first, otherwise)), flat, place, before, after) ==
      WorkLaid(how, One(if kept then first else otherwise), flat, place, before, after)
  {
    hide Kept;
  }

  lemma {:induction false} PreferClean(p: State, bottom: seq<Command>, rest: seq<Command>, command: Command, first: Doc, otherwise: Doc)
    requires command.work == One(Prefer(first, otherwise)) && CleanStack(bottom + (rest + [command]))
    ensures var inner := Inner(command, command.mode, first);
      CleanStack(bottom + rest + [inner]) && StackSize(bottom + rest + [inner]) < StackSize(bottom + (rest + [command]))
  {
    hide StackSize, CleanDoc, StackTexts;
    OnBottom(bottom, rest, command);
    var stack, inner := bottom + (rest + [command]), Inner(command, command.mode, first);
    assert CleanWork(stack[|stack| - 1].work);
    PreferIsClean(first, otherwise);
    assert CleanStack(bottom + rest) by {
      assert forall i :: 0 <= i < |bottom + rest| ==> (bottom + rest)[i] == stack[i];
    }
    OnTop(bottom + rest, inner);
    StackSizeAppend(bottom + rest, [inner]);
    StackSizeAppend(bottom + rest, [command]);
    OneSize(inner);
    OneSize(command);
  }

  lemma PreferIsClean(first: Doc, otherwise: Doc)
    ensures CleanDoc(Prefer(first, otherwise)) ==> CleanDoc(first)
  {
  }

  /** The trial decides as the document says: it lays the first layout out as it would be, but for the choices in it. */
  lemma {:induction false} KeptExactly(p: State, under: seq<Command>, command: Command, place: Place, before: seq<Item>, starts: seq<nat>,
                                       first: Doc, counted: bool)
    requires Followed(p, before) && Inherits(command, place, before, HereOf(p, starts, counted)) && !p.trial && command.mode == Break
    requires CleanStack(under + [Inner(command, command.mode, first)])
    ensures FitsPrinted(p, Inner(command, command.mode, first), under) <==> Kept(p.knobs, first, place, before, StackAhead(under))
    decreases StackSize(under + [Inner(command, command.mode, first)]), 2
  {
    hide *;
    var inner, there := Inner(command, command.mode, first), Forgotten(p.knobs, place, before);
    FollowedMeans(p, before);
    InnerKeeps(command, inner, first);
    var trial := TrialIs(p, before, inner, under);
    TrialLaid(p, trial, place, before);
    HereIs(p, starts, starts, counted);
    HereIs(trial, [], [], true);
    TrialInherits(command, inner, place, before, p, HereOf(p, starts, counted), HereOf(trial, [], true));
    var ran, tried := RunLays(trial, under, [inner], [PlaceThere(place)], there, [], true);
    var items := StackLaid(How(p.knobs, true), under, [inner], [PlaceThere(place)], there);
    LaidMeans(ran, there + items, tried, true);
    FitsExactly(ran, there + items, [], under);
    NothingFollows(under);
    OnlyLaid(How(p.knobs, true), under, inner, PlaceThere(place), there, first);
    KeptIs(p.knobs, first, place, before, StackAhead(under), there + items);
  }

  lemma KeptIs(knobs: Knobs, first: Doc, place: Place, before: seq<Item>, after: Ahead, tried: seq<Item>)
    requires var there := Forgotten(knobs, place, before);
      tried == there + Laid(How(knobs, true), first, false, PlaceThere(place), there, after)
    ensures Kept(knobs, first, place, before, after) <==> !Cramped(knobs, tried) && FitsAfter(knobs, tried, after, false)
  {
    hide Cramped, FitsAfter, Forgotten, Laid, PlaceThere;
  }

  lemma NothingFollows(under: seq<Command>)
    ensures Then(AllAhead([], true), StackAhead(under)) == StackAhead(under)
  {
    ThenNothing(StackAhead(under));
  }

  lemma OnlyLaid(how: How, bottom: seq<Command>, only: Command, place: Place, before: seq<Item>, doc: Doc)
    requires only.work == One(doc)
    ensures StackLaid(how, bottom, [only], [place], before) == Laid(how, doc, only.mode == Flat, place, before, StackAhead(bottom))
  {
    hide Laid, StackAhead;
    TopLaid(how, bottom, [], [], only, place, before);
    assert [] + [only] == [only] && [] + [place] == [place] && bottom + [] == bottom;
    var top := Laid(how, doc, only.mode == Flat, place, before, StackAhead(bottom));
    assert top + [] == top;
  }

  /** What is tried is printed from where the next word would start. */
  lemma TrialIs(p: State, before: seq<Item>, inner: Command, under: seq<Command>) returns (trial: State)
    requires GapIs(p, before) && p.column == EndColumn(before, p.knobs.indent) && !p.trial
    requires p.out == "" <==> Words(before) == []
    requires p.out != "" ==> !IsBlank(p.out[|p.out| - 1])
    ensures trial == Fresh(p.knobs, Start(before, p.knobs.indent)).(indent := p.indent, trial := true)
    ensures trial.knobs == p.knobs && trial.trial
    ensures var ran := Run(trial, under + [inner], |under|);
      FitsPrinted(p, inner, under) <==> !ran.cramped && Fits(ran, [], under)
  {
    hide EndColumn, Words, Pending, Blanked, Run, Fits;
    trial := Fresh(p.knobs, Start(before, p.knobs.indent)).(indent := p.indent, trial := true);
  }

  lemma {:induction false} TrialLaid(p: State, trial: State, place: Place, before: seq<Item>)
    requires IsLineEnd(p.knobs.newline) && trial == Fresh(p.knobs, Start(before, p.knobs.indent)).(indent := p.indent, trial := true)
    ensures LaidOut(trial, Forgotten(p.knobs, place, before), [], true)
  {
    hide Start, ColumnOf;
    var a, b := At(ColumnOf(before, place.base, p.knobs.indent)), At(Start(before, p.knobs.indent));
    var there := [a, b];
    assert there[..1] == [a] && [a][..0] == [];
    assert Words([a]) == [] && Words(there) == [] && Pending([a]).None? && Pending(there).None? && !Blanked([a]) && !Blanked(there);
    assert RowOf([a]) == 0 && RowOf(there) == 0 && Blocks([a]) == 0 && Blocks(there) == 0 && Tables([a]) == 0 && Tables(there) == 0;
    assert EndColumn(there, p.knobs.indent) == Start(before, p.knobs.indent);
    assert !Cramped(p.knobs, [a]) && !Cramped(p.knobs, there);
  }

  lemma TrialInherits(command: Command, inner: Command, place: Place, before: seq<Item>, p: State, here: Here, trial: Here)
    requires Inherits(command, place, before, here) && here.indent == trial.indent == p.knobs.indent && trial.trial
    requires inner.indent == command.indent && inner.table == command.table && inner.anchor == command.anchor
    ensures AllInherit([inner], [PlaceThere(place)], Forgotten(p.knobs, place, before), trial)
  {
    hide ColumnOf, AnchorOf;
    var there := Forgotten(p.knobs, place, before);
    TrialColumn(there[0].column, there[1].column, place.base.aligned, here.indent);
    assert there == [At(there[0].column), At(there[1].column)];
  }

  lemma TrialColumn(a: nat, b: nat, aligned: bool, indent: nat)
    ensures ColumnOf([At(a), At(b)], Base(Some(1), 0, aligned), indent) == a
  {
    assert [At(a), At(b)][..1] == [At(a)] && [At(a)][..0] == [];
    assert Pending([At(a)]).None? && Words([At(a)]) == [] && EndColumn([At(a)], indent) == a;
  }

  // ----- a run

  lemma {:induction false} StepLays(p: State, bottom: seq<Command>, rest: seq<Command>, places: seq<Place>, command: Command, place: Place,
                                    before: seq<Item>, starts: seq<nat>, counted: bool)
    returns (left: seq<Command>, leftPlaces: seq<Place>, more: seq<Item>, after: seq<nat>)
    requires AllInherit(rest, places, before, HereOf(p, starts, counted)) && Inherits(command, place, before, HereOf(p, starts, counted))
    requires LaidOut(p, before, starts, counted) && CleanStack(bottom + (rest + [command]))
    ensures Turns(p, bottom, rest + [command], places + [place], before, left, leftPlaces, more, after, counted) && starts <= after
    decreases StackSize(bottom + (rest + [command])), 0, 1
  {
    hide *;
    left, leftPlaces, more, after := rest, places, [], starts;
    var inner;
    match command.work
    case Parts(parts) => left, leftPlaces := FillTurns(p, bottom, rest, places, command, place, before, starts, parts, counted);
    case One(doc) =>
      Kinds(doc);
      if doc.Text? {
        TextIsClean(bottom, rest, command, doc.text);
        more, after := WordTurns(p, bottom, rest, places, command, place, before, starts, doc.text, counted);
      } else if doc.Fill? {
        left, leftPlaces := FillTurns(p, bottom, rest, places, command, place, before, starts, doc.parts, counted);
      } else if doc.Concat? {
        left, leftPlaces := ConcatTurns(p, bottom, rest, places, command, place, before, starts, doc.docs, counted);
      } else if doc.Table? {
        inner := TableTurns(p, bottom, rest, places, command, place, before, starts, doc.doc, doc.strict, counted);
        left, leftPlaces, more := rest + [inner], places + [place.(table := Some((Tables(before) + 1, doc.strict)))], [Enter(doc.strict)];
      } else if doc.Trailing? {
        more, after := TrailingTurns(p, bottom, rest, places, command, place, before, starts, doc.doc, counted);
      } else if doc.Prefer? {
        inner := PreferTurns(p, bottom, rest, places, command, place, before, starts, doc.first, doc.otherwise, counted);
        left, leftPlaces := rest + [inner], places + [place];
      } else if IsWrapper(doc) {
        inner := WrapperTurns(p, bottom, rest, places, command, place, before, starts, doc, counted);
        left, leftPlaces := rest + [inner], places + [InnerPlace(doc, place, before)];
      } else {
        more := LeafTurns(p, bottom, rest, places, command, place, before, starts, doc, counted);
      }
  }

  lemma Kinds(doc: Doc)
    ensures doc.Text? || doc.Fill? || doc.Concat? || doc.Table? || doc.Trailing? || doc.Prefer? || IsWrapper(doc) || IsLeaf(doc)
  {
  }

  lemma TextIsClean(bottom: seq<Command>, rest: seq<Command>, command: Command, text: string)
    requires CleanStack(bottom + (rest + [command])) && command.work == One(Text(text))
    ensures Clean(text)
  {
    OnBottom(bottom, rest, command);
    var stack := bottom + (rest + [command]);
    assert CleanWork(stack[|stack| - 1].work);
  }

  /** What trails a line is laid out by a run of its own. */
  lemma {:induction false} TrailingTurns(p: State, bottom: seq<Command>, rest: seq<Command>, places: seq<Place>, command: Command, place: Place,
                                         before: seq<Item>, starts: seq<nat>, doc: Doc, counted: bool)
    returns (more: seq<Item>, after: seq<nat>)
    requires AllInherit(rest, places, before, HereOf(p, starts, counted)) && Inherits(command, place, before, HereOf(p, starts, counted))
    requires LaidOut(p, before, starts, counted) && CleanStack(bottom + (rest + [command])) && command.work == One(Trailing(doc))
    ensures Turns(p, bottom, rest + [command], places + [place], before, rest, places, more, after, counted) && starts <= after
    decreases StackSize(bottom + (rest + [command])), 0, 0
  {
    hide *;
    var how, stack, only := How(p.knobs, p.trial), bottom + (rest + [command]), Inner(command, command.mode, doc);
    var trailing := place.(trailing := true);
    OnBottom(bottom, rest, command);
    InnerKeeps(command, only, doc);
    TrailingSize(stack);
    TrailingStep(p, stack, []);
    LayoutMarks.TrailingLeft(p, stack);
    OnlyInherits(command, only, place, trailing, before, HereOf(p, starts, counted));
    HereIs(p, starts, starts, counted);
    HereIs(p, starts, starts, false);
    Uncounting(p, starts, counted);
    Uncounted(p, before, starts, counted);
    assert [] + [only] == [only];
    var ran;
    ran, after := RunLays(p, [], [only], [trailing], before, starts, false);
    NothingOn();
    OnlyLaid(how, [], only, trailing, before, doc);
    more := Laid(how, doc, command.mode == Flat, trailing, before, NOTHING_AHEAD);
    TrailingLaid(how, doc, command.mode == Flat, place, before, StackAhead(bottom + rest));
    LaidMeans(p, before, starts, counted);
    TrailingCramps(how, p.knobs, doc, command.mode == Flat, place, before);
    SameLaid(ran, before + more, after, p.cramped, counted);
    WordsStart(p, before, starts, counted);
    DoneTurns(p, ran.(cramped := p.cramped), bottom, rest, places, command, place, before, starts, more, after, counted);
  }

  lemma Uncounted(p: State, items: seq<Item>, starts: seq<nat>, counted: bool)
    requires LaidOut(p, items, starts, counted)
    ensures LaidOut(p, items, starts, false)
  {
    hide Followed, Written, Cramped;
  }

  lemma OnlyInherits(command: Command, only: Command, place: Place, trailing: Place, before: seq<Item>, here: Here)
    requires Inherits(command, place, before, here) && trailing == place.(trailing := true)
    requires only.indent == command.indent && only.table == command.table && only.anchor == command.anchor
    ensures AllInherit([only], [trailing], before, here.(counted := false))
  {
    hide ColumnOf, AnchorOf;
  }

  lemma Uncounting(p: State, starts: seq<nat>, counted: bool)
    ensures HereOf(p, starts, counted).(counted := false) == HereOf(p, starts, false)
  {
  }

  lemma TrailingLaid(how: How, doc: Doc, flat: bool, place: Place, before: seq<Item>, after: Ahead)
    ensures WorkLaid(how, One(Trailing(doc)), flat, place, before, after) ==
      Laid(how, doc, flat, place.(trailing := true), before, NOTHING_AHEAD)
  {
  }
  // ----- what trails a line

  predicate AllTrailing(items: seq<Item>) {
    forall i :: 0 <= i < |items| && items[i].Word? ==> items[i].trailing
  }

  lemma BothTrailing(a: seq<Item>, b: seq<Item>)
    requires AllTrailing(a) && AllTrailing(b)
    ensures AllTrailing(a + b)
  {
  }

  lemma {:induction false} TrailingWords(how: How, doc: Doc, flat: bool, place: Place, before: seq<Item>, after: Ahead)
    requires place.trailing
    ensures AllTrailing(Laid(how, doc, flat, place, before, after))
    decreases doc, 1
  {
    hide FitsAfter, Kept, AheadOf, Then, Under, Tables;
    match doc
    case Group(inner) =>
      TrailingWords(how, inner, flat || FitsAfter(how.knobs, before, Then(AheadOf(inner, true), after), false), place, before, after);
    case Indent(inner) => TrailingWords(how, inner, flat, place.(base := place.base.(levels := place.base.levels + 1)), before, after);
    case Margin(inner) => TrailingWords(how, inner, flat, place.(base := LEFT), before, after);
    case Align(inner) => TrailingWords(how, inner, flat, place.(base := Under(before)), before, after);
    case Prefer(first, otherwise) =>
      TrailingWords(how, first, flat, place, before, after);
      TrailingWords(how, otherwise, flat, place, before, after);
    case Fill(parts) =>
      if flat {
        AllTrailingWords(how, parts, true, place, before, after);
      } else {
        PartsTrailing(how, parts, place, before, after);
      }
    case Table(inner, strict) =>
      TrailingWords(how, inner, flat, place.(table := Some((Tables(before) + 1, strict))), before + [Enter(strict)], after);
      BothTrailing([Enter(strict)], Laid(how, inner, flat, place.(table := Some((Tables(before) + 1, strict))), before + [Enter(strict)], after));
    case Trailing(inner) => TrailingWords(how, inner, flat, place.(trailing := true), before, NOTHING_AHEAD);
    case Concat(docs) => AllTrailingWords(how, docs, flat, place, before, after);
    case _ =>
  }

  lemma {:induction false} AllTrailingWords(how: How, docs: seq<Doc>, flat: bool, place: Place, before: seq<Item>, after: Ahead)
    requires place.trailing
    ensures AllTrailing(LaidAll(how, docs, flat, place, before, after))
    decreases docs, 0
  {
    hide AllTrailing, AheadOf, AllAhead, Then, Laid;
    if docs != [] {
      var next := Then(AllAhead(docs[1..], flat), after);
      var first := Laid(how, docs[0], flat, place, before, next);
      TrailingWords(how, docs[0], flat, place, before, next);
      AllTrailingWords(how, docs[1..], flat, place, before + first, after);
      BothTrailing(first, LaidAll(how, docs[1..], flat, place, before + first, after));
    } else {
      NoneTrailing();
    }
  }

  lemma NoneTrailing()
    ensures AllTrailing([])
  {
  }

  lemma {:induction false} PartsTrailing(how: How, parts: seq<Doc>, place: Place, before: seq<Item>, after: Ahead)
    requires place.trailing
    ensures AllTrailing(LaidParts(how, parts, place, before, after))
    decreases parts, 0
  {
    hide *;
    if |parts| == 1 {
      LastPart(how, parts, place, before, after);
      TrailingWords(how, parts[0], FirstFlat(how.knobs, parts, before, after), place, before, after);
    } else if |parts| > 1 {
      var both, rest := SecondFlat(how.knobs, parts, before, after), Then(AllAhead(parts[2..], false), after);
      var next := Then(AheadOf(parts[1], both), rest);
      var one := Laid(how, parts[0], FirstFlat(how.knobs, parts, before, after), place, before, next);
      var two := Laid(how, parts[1], both, place, before + one, rest);
      MoreParts(how, parts, place, before, after);
      TrailingWords(how, parts[0], FirstFlat(how.knobs, parts, before, after), place, before, next);
      TrailingWords(how, parts[1], both, place, before + one, rest);
      PartsTrailing(how, parts[2..], place, before + one + two, after);
      BothTrailing(one, two);
      BothTrailing(one + two, LaidParts(how, parts[2..], place, before + one + two, after));
    } else {
      NoParts(how, place, before, after);
      NoneTrailing();
    }
  }

  lemma {:induction false} NoneCramps(knobs: Knobs, before: seq<Item>, items: seq<Item>)
    requires AllTrailing(items)
    ensures Cramped(knobs, before + items) <==> Cramped(knobs, before)
    decreases |items|
  {
    hide Cramps;
    if items == [] {
      assert before + items == before;
    } else {
      var n := |items| - 1;
      assert (before + items)[..|before| + n] == before + items[..n] && (before + items)[|before| + n] == items[n];
      NoneCramps(knobs, before, items[..n]);
    }
  }

  lemma {:induction false} TrailingCramps(how: How, knobs: Knobs, doc: Doc, flat: bool, place: Place, before: seq<Item>)
    ensures var items := Laid(how, doc, flat, place.(trailing := true), before, NOTHING_AHEAD);
      Cramped(knobs, before + items) <==> Cramped(knobs, before)
  {
    hide Laid, AllTrailing, Cramped;
    TrailingWords(how, doc, flat, place.(trailing := true), before, NOTHING_AHEAD);
    NoneCramps(knobs, before, Laid(how, doc, flat, place.(trailing := true), before, NOTHING_AHEAD));
  }

  // ----- a whole run

  /** A run down to `bottom` lays out what the commands above it come to. */
  lemma {:induction false} RunLays(p: State, bottom: seq<Command>, stack: seq<Command>, places: seq<Place>, before: seq<Item>,
                                   starts: seq<nat>, counted: bool) returns (ran: State, after: seq<nat>)
    requires AllInherit(stack, places, before, HereOf(p, starts, counted)) && LaidOut(p, before, starts, counted)
    requires CleanStack(bottom + stack)
    ensures |places| == |stack| && ran == Run(p, bottom + stack, |bottom|) && ran.knobs == p.knobs && ran.trial == p.trial && starts <= after
    ensures LaidOut(ran, before + StackLaid(How(p.knobs, p.trial), bottom, stack, places, before), after, counted)
    decreases StackSize(bottom + stack), 1
  {
    hide *;
    AreInherited(stack, places, before, HereOf(p, starts, counted));
    ran := Run(p, bottom + stack, |bottom|);
    if stack == [] {
      after := starts;
      assert bottom + stack == bottom;
      NothingRuns(p, bottom, places, before);
    } else {
      var n := |stack| - 1;
      TopInherits(stack, places, before, HereOf(p, starts, counted));
      assert stack == stack[..n] + [stack[n]] && places == places[..n] + [places[n]];
      var left, leftPlaces, more, turned := StepLays(p, bottom, stack[..n], places[..n], stack[n], places[n], before, starts, counted);
      TurnsMean(p, bottom, stack, places, before, left, leftPlaces, more, turned, counted);
      StepShrinks(p, bottom + stack);
      StepClean(p, bottom + stack);
      RunOn(p, bottom, stack);
      SameHere(p, Step(p, bottom + stack).0, turned, counted);
      ran, after := RunLays(Step(p, bottom + stack).0, bottom, left, leftPlaces, before + more, turned, counted);
      var later := StackLaid(How(p.knobs, p.trial), bottom, left, leftPlaces, before + more);
      assert before + more + later == before + (more + later);
    }
  }

  lemma SameHere(p: State, q: State, starts: seq<nat>, counted: bool)
    requires q.knobs == p.knobs && q.trial == p.trial
    ensures HereOf(q, starts, counted) == HereOf(p, starts, counted)
  {
  }

  lemma StepShrinks(p: State, stack: seq<Command>)
    requires stack != []
    ensures StackSize(Step(p, stack).1) < StackSize(stack)
  {
    hide StackSize;
  }

  lemma RunOn(p: State, bottom: seq<Command>, stack: seq<Command>)
    requires stack != []
    ensures Run(p, bottom + stack, |bottom|) == Run(Step(p, bottom + stack).0, Step(p, bottom + stack).1, |bottom|)
  {
    hide Step;
  }

  lemma NothingRuns(p: State, bottom: seq<Command>, places: seq<Place>, before: seq<Item>)
    requires places == []
    ensures Run(p, bottom, |bottom|) == p && StackLaid(How(p.knobs, p.trial), bottom, [], places, before) == [] && before + [] == before
  {
  }

  lemma TurnsMean(p: State, bottom: seq<Command>, stack: seq<Command>, places: seq<Place>, before: seq<Item>, left: seq<Command>,
                  leftPlaces: seq<Place>, more: seq<Item>, starts: seq<nat>, counted: bool)
    requires stack != [] && Turns(p, bottom, stack, places, before, left, leftPlaces, more, starts, counted)
    ensures |places| == |stack| && |leftPlaces| == |left|
    ensures var (q, all) := Step(p, bottom + stack);
      && all == bottom + left && q.knobs == p.knobs && q.trial == p.trial
      && LaidOut(q, before + more, starts, counted) && AllInherit(left, leftPlaces, before + more, HereOf(p, starts, counted))
    ensures var how := How(p.knobs, p.trial);
      StackLaid(how, bottom, stack, places, before) == more + StackLaid(how, bottom, left, leftPlaces, before + more)
  {
    hide LaidOut, AllInherit, StackLaid, Step;
  }

  /** Clean texts stay clean texts. */
  lemma {:induction false} StepClean(p: State, stack: seq<Command>)
    requires stack != [] && CleanStack(stack)
    ensures CleanStack(Step(p, stack).1)
  {
    hide PushFill, Fits, FitsPrinted, StackSize, Size, Sizes, Queued, StackTexts, Texts, AllTexts, Run, Layout.Alignment;
    var command, rest := stack[|stack| - 1], stack[..|stack| - 1];
    match command.work
    case Parts(parts) => FillTexts(p, command, parts, rest);
    case One(doc) =>
      if doc.Fill? {
        FillTexts(p, command, doc.parts, rest);
      } else if doc.Concat? {
        QueuedTexts(command, command.mode, doc.docs);
      } else if doc.Group? || doc.Indent? || doc.Margin? || doc.Align? || doc.Table? || doc.Prefer? {
        OnTop(rest, Step(p, stack).1[|rest|]);
      }
  }

  // ----- a document on its own

  /** A printer that has written nothing has laid out nothing. */
  lemma {:induction false} NothingLaid(p: State)
    requires p == Fresh(p.knobs, 0) && IsLineEnd(p.knobs.newline)
    ensures LaidOut(p, [], [], true)
  {
    assert p.out == "";
    assert Words([]) == [];
    assert Located("", [], []);
    assert LayoutSpacing.Spaced(p, [], []);
  }

  /** What a document comes to on its own. */
  function LayoutOf(knobs: Knobs, doc: Doc): seq<Item> {
    Laid(How(knobs, false), doc, false, Place(LEFT, None, false), [], NOTHING_AHEAD)
  }

  /** A fresh printer lays its document out as the document says. */
  lemma {:induction false} DocLays(p: State, command: Command, doc: Doc) returns (ran: State, starts: seq<nat>)
    requires p == Fresh(p.knobs, 0) && IsLineEnd(p.knobs.newline) && CleanDoc(doc)
    requires command == Command(0, None, Break, None, One(doc))
    ensures ran == Run(p, [command], 0) && ran.knobs == p.knobs && !ran.trial
    ensures LaidOut(ran, LayoutOf(p.knobs, doc), starts, true)
  {
    hide *;
    NothingLaid(p);
    FirstCommand(p, command, doc);
    assert [] + [command] == [command];
    var place := Place(LEFT, None, false);
    ran, starts := RunLays(p, [], [command], [place], [], [], true);
    NothingOn();
    OnlyLaid(How(p.knobs, false), [], command, place, [], doc);
    IsLayout(p.knobs, doc);
    assert [] + LayoutOf(p.knobs, doc) == LayoutOf(p.knobs, doc);
  }

  lemma IsLayout(knobs: Knobs, doc: Doc)
    ensures LayoutOf(knobs, doc) == Laid(How(knobs, false), doc, false, Place(LEFT, None, false), [], NOTHING_AHEAD)
  {
  }

  lemma FirstCommand(p: State, command: Command, doc: Doc)
    requires CleanDoc(doc) && command == Command(0, None, Break, None, One(doc)) && p == Fresh(p.knobs, 0)
    ensures CleanStack([command]) && AllInherit([command], [Place(LEFT, None, false)], [], HereOf(p, [], true))
    ensures !p.trial && command.mode == Break && command.work == One(doc)
  {
    hide CleanDoc;
  }
}
