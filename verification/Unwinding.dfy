/**
 * What resolving forward parents means for a flat list of events: each opening event
 * is written with the position it came from, the chain of forward parents that starts
 * at it written outermost first, and every link of the chain skipped where it stands.
 *
 * The lemmas say how the written list changes when the events do, which is all the
 * operations of the event buffer ever rely on.
 */
module Unwinding {
  import opened Wrappers
  import opened Syntax

  /** An event as written, an opening one remembering which position it came from. */
  datatype Symbol = Open(kind: Kind, at: nat) | Read(kind: Kind) | Close

  function PlainEvent(symbol: Symbol): Event {
    match symbol
    case Open(kind, _) => Start(kind, None)
    case Read(kind) => Token(kind)
    case Close => Finish
  }

  function Plain(symbols: seq<Symbol>): seq<Event> {
    seq(|symbols|, i requires 0 <= i < |symbols| => PlainEvent(symbols[i]))
  }

  lemma {:induction false} PlainAppend(a: seq<Symbol>, b: seq<Symbol>)
    ensures Plain(a + b) == Plain(a) + Plain(b)
  {
  }

  /**
   * The chain of forward parents from `link`, outermost first, and the events with
   * each link of it cleared. A pointer that leads nowhere ends the chain.
   */
  function Follow(events: seq<Event>, link: nat, base: nat): (r: (seq<Symbol>, seq<Event>))
    requires link < |events| && events[link].Start?
    ensures |r.1| == |events|
    decreases |events| - link
  {
    var here := [Open(events[link].kind, base + link)];
    var rest := events[link := Tombstone];
    match events[link].forward
    case None => (here, rest)
    case Some(distance) =>
      if Leads(events, link) then
        var (outer, left) := Follow(rest, link + distance, base);
        (outer + here, left)
      else
        (here, rest)
  }

  /** The event at `link` has a forward parent, further on, that opens a node. */
  predicate Leads(events: seq<Event>, link: nat)
    requires link < |events|
  {
    && events[link].Start? && events[link].forward.Some?
    && events[link].forward.value > 0
    && link + events[link].forward.value < |events|
    && events[link + events[link].forward.value].Start?
  }

  function Unwind(events: seq<Event>, base: nat): seq<Symbol>
    decreases |events|
  {
    if events == [] then []
    else match events[0]
      case Tombstone => Unwind(events[1..], base + 1)
      case Token(kind) => [Read(kind)] + Unwind(events[1..], base + 1)
      case Finish => [Close] + Unwind(events[1..], base + 1)
      case Start(_, _) =>
        var (chain, left) := Follow(events, 0, base);
        chain + Unwind(left[1..], base + 1)
  }

  ghost predicate PointsTo(events: seq<Event>, from: int, to: int) {
    && 0 <= from < |events|
    && events[from].Start? && events[from].forward.Some?
    && from + events[from].forward.value == to
  }

  predicate Linked(events: seq<Event>, from: nat) {
    from < |events| && events[from].Start? && events[from].forward.Some? ==> Leads(events, from)
  }

  /** Every pointer leads ahead to an opening event, and no two to the same one. */
  ghost predicate WellLinked(events: seq<Event>) {
    && (forall from: nat :: Linked(events, from))
    && (forall a, b, to :: PointsTo(events, a, to) && PointsTo(events, b, to) ==> a == b)
  }

  ghost predicate Unpointed(events: seq<Event>, to: int) {
    forall from :: !PointsTo(events, from, to)
  }

  predicate Mentions(symbols: seq<Symbol>, at: nat) {
    exists i :: 0 <= i < |symbols| && symbols[i].Open? && symbols[i].at == at
  }

  predicate Distinct(symbols: seq<Symbol>) {
    forall i, j :: 0 <= i < j < |symbols| && symbols[i].Open? && symbols[j].Open? ==>
      symbols[i].at != symbols[j].at
  }

  // ----- how one chain is followed

  lemma {:induction false} ClearKeepsLinks(events: seq<Event>, link: nat)
    requires WellLinked(events) && link < |events| && Unpointed(events, link)
    ensures WellLinked(events[link := Tombstone])
    ensures Leads(events, link) ==>
      Unpointed(events[link := Tombstone], link + events[link].forward.value)
  {
    var rest := events[link := Tombstone];
    forall from: nat
      ensures Linked(rest, from)
    {
      assert Linked(events, from);
      if from < |rest| && rest[from].Start? && rest[from].forward.Some? {
        assert PointsTo(events, from, from + events[from].forward.value);
      }
    }
    forall a, to | PointsTo(rest, a, to)
      ensures PointsTo(events, a, to) && a != link
    {
    }
    if Leads(events, link) {
      assert PointsTo(events, link, link + events[link].forward.value);
    }
  }

  /** The chain holds opening events only, all at or after `link`, and clears each. */
  lemma {:induction false} FollowClears(events: seq<Event>, link: nat, base: nat)
    requires link < |events| && events[link].Start?
    ensures var (chain, left) := Follow(events, link, base);
      && left[link] == Tombstone
      && (forall i: nat :: i < |events| ==> left[i] == events[i] || left[i] == Tombstone)
      && (forall i: nat :: i < link ==> left[i] == events[i])
      && (forall i: nat :: i < |chain| ==>
            && chain[i].Open? && base + link <= chain[i].at < base + |events|
            && left[chain[i].at - base] == Tombstone && events[chain[i].at - base].Start?)
      && Distinct(chain)
      && |chain| > 0 && chain[|chain| - 1] == Open(events[link].kind, base + link)
    decreases |events| - link
  {
    if Leads(events, link) {
      var rest := events[link := Tombstone];
      FollowClears(rest, link + events[link].forward.value, base);
    }
  }

  lemma {:induction false} FollowKeepsLinks(events: seq<Event>, link: nat, base: nat)
    requires link < |events| && events[link].Start?
    requires WellLinked(events) && Unpointed(events, link)
    ensures WellLinked(Follow(events, link, base).1)
    decreases |events| - link
  {
    ClearKeepsLinks(events, link);
    if Leads(events, link) {
      FollowKeepsLinks(events[link := Tombstone], link + events[link].forward.value, base);
    }
  }

  lemma {:induction false} TailKeepsLinks(events: seq<Event>)
    requires WellLinked(events) && events != [] && !events[0].Start?
    ensures WellLinked(events[1..])
  {
    var tail := events[1..];
    forall from: nat
      ensures Linked(tail, from)
    {
      assert Linked(events, from + 1);
    }
    forall a, b, to | PointsTo(tail, a, to) && PointsTo(tail, b, to)
      ensures a == b
    {
      assert PointsTo(events, a + 1, to + 1) && PointsTo(events, b + 1, to + 1);
    }
  }

  /** After the chain that starts a list of events, the rest is as well linked as it was. */
  lemma {:induction false} RestKeepsLinks(events: seq<Event>, base: nat)
    requires WellLinked(events) && events != [] && events[0].Start?
    ensures var (chain, left) := Follow(events, 0, base); WellLinked(left[1..])
  {
    NothingPointsBack(events);
    FollowKeepsLinks(events, 0, base);
    FollowClears(events, 0, base);
    TailKeepsLinks(Follow(events, 0, base).1);
  }

  // ----- what is written, and from where

  /** Every opening symbol is where one of `events` from `from` on opens a node. */
  predicate Within(symbols: seq<Symbol>, events: seq<Event>, base: nat, from: nat) {
    forall i :: 0 <= i < |symbols| && symbols[i].Open? ==>
      base + from <= symbols[i].at < base + |events| && events[symbols[i].at - base].Start?
  }

  lemma {:induction false} UnwindWithin(events: seq<Event>, base: nat)
    ensures Distinct(Unwind(events, base)) && Within(Unwind(events, base), events, base, 0)
    decreases |events|
  {
    if events != [] {
      UnwindWithinStep(events, base);
    }
  }

  lemma {:induction false} UnwindWithinStep(events: seq<Event>, base: nat)
    requires events != []
    ensures Distinct(Unwind(events, base)) && Within(Unwind(events, base), events, base, 0)
    decreases |events|, 0
  {
    hide Follow, Distinct, Within;
    var tail := if events[0].Start? then Follow(events, 0, base).1[1..] else events[1..];
    UnwindWithin(tail, base + 1);
    if events[0].Start? {
      FollowClears(events, 0, base);
      WithinJoin(Follow(events, 0, base).0, Unwind(tail, base + 1), events, Follow(events, 0, base).1, base);
    } else {
      WithinTail(events, Unwind(tail, base + 1), base);
      OneMore(events, base);
    }
  }

  lemma OneMore(events: seq<Event>, base: nat)
    requires events != [] && !events[0].Start?
    requires var later := Unwind(events[1..], base + 1); Distinct(later) && Within(later, events, base, 0)
    ensures Distinct(Unwind(events, base)) && Within(Unwind(events, base), events, base, 0)
  {
    hide Follow;
  }

  lemma WithinTail(events: seq<Event>, later: seq<Symbol>, base: nat)
    requires events != [] && Within(later, events[1..], base + 1, 0)
    ensures Within(later, events, base, 0)
  {
  }

  lemma {:induction false} WithinJoin(chain: seq<Symbol>, later: seq<Symbol>, events: seq<Event>, left: seq<Event>, base: nat)
    requires events != [] && |left| == |events| && Distinct(chain) && Distinct(later)
    requires forall i :: 0 <= i < |chain| ==>
      && chain[i].Open? && base <= chain[i].at < base + |events|
      && left[chain[i].at - base] == Tombstone && events[chain[i].at - base].Start?
    requires Within(later, left[1..], base + 1, 0)
    requires forall i :: 0 <= i < |events| ==> left[i] == events[i] || left[i] == Tombstone
    ensures Distinct(chain + later) && Within(chain + later, events, base, 0)
  {
    forall j | 0 <= j < |later| && later[j].Open?
      ensures base + 1 <= later[j].at < base + |events| && left[later[j].at - base].Start?
    {
      assert left[1..][later[j].at - base - 1] == left[later[j].at - base];
    }
  }

  /** Each position is written at most once, and only if an opening event stands there. */
  lemma {:induction false} UnwindPositions(events: seq<Event>, base: nat)
    ensures Distinct(Unwind(events, base))
    ensures forall at: nat :: Mentions(Unwind(events, base), at) ==>
      base <= at < base + |events| && events[at - base].Start?
  {
    UnwindWithin(events, base);
  }

  // ----- an event appended

  function Appended(event: Event, at: nat): seq<Symbol> {
    match event
    case Start(kind, _) => [Open(kind, at)]
    case Tombstone => []
    case Token(kind) => [Read(kind)]
    case Finish => [Close]
  }

  lemma {:induction false} FollowAppend(events: seq<Event>, event: Event, link: nat, base: nat)
    requires link < |events| && events[link].Start?
    requires WellLinked(events) && Unpointed(events, link)
    ensures Follow(events + [event], link, base) ==
      (Follow(events, link, base).0, Follow(events, link, base).1 + [event])
    decreases |events| - link
  {
    ClearKeepsLinks(events, link);
    assert (events + [event])[link := Tombstone] == events[link := Tombstone] + [event];
    if events[link].forward.Some? {
      assert Linked(events, link);
      FollowAppend(events[link := Tombstone], event, link + events[link].forward.value, base);
    }
  }

  lemma UnwindOne(event: Event, base: nat)
    requires event.Start? ==> event.forward.None?
    ensures Unwind([event], base) == Unwind([], base) + Appended(event, base)
  {
    assert [event][1..] == [];
    if event.Start? {
      assert Unwind([event], base) == [Open(event.kind, base)] + Unwind([Tombstone][1..], base + 1);
    }
  }

  /** What is written first, and what from the rest. */
  lemma UnwindNext(events: seq<Event>, base: nat)
    requires events != []
    ensures Unwind(events, base) ==
      if events[0].Start? then Follow(events, 0, base).0 + Unwind(Follow(events, 0, base).1[1..], base + 1)
      else Appended(events[0], base) + Unwind(events[1..], base + 1)
  {
    hide Follow;
  }

  lemma {:induction false} UnwindAppend(events: seq<Event>, event: Event, base: nat)
    requires WellLinked(events)
    requires event.Start? ==> event.forward.None?
    ensures Unwind(events + [event], base) == Unwind(events, base) + Appended(event, base + |events|)
    decreases |events|
  {
    if events == [] {
      assert events + [event] == [event];
      UnwindOne(event, base);
    } else {
      UnwindAppendMore(events, event, base);
    }
  }

  lemma {:induction false} UnwindAppendMore(events: seq<Event>, event: Event, base: nat)
    requires WellLinked(events) && events != []
    requires event.Start? ==> event.forward.None?
    ensures Unwind(events + [event], base) == Unwind(events, base) + Appended(event, base + |events|)
    decreases |events|, 0
  {
    hide *;
    UnwindNext(events, base);
    UnwindNext(events + [event], base);
    if events[0].Start? {
      NothingPointsBack(events);
      FollowAppend(events, event, 0, base);
      RestKeepsLinks(events, base);
      var left := Follow(events, 0, base).1;
      assert (left + [event])[1..] == left[1..] + [event];
      UnwindAppend(left[1..], event, base + 1);
    } else {
      TailKeepsLinks(events);
      assert (events + [event])[1..] == events[1..] + [event];
      UnwindAppend(events[1..], event, base + 1);
    }
  }

  lemma {:induction false} NothingPointsBack(events: seq<Event>)
    requires WellLinked(events) && events != []
    ensures Unpointed(events, 0)
  {
    forall from: nat | from < |events| && events[from].Start? && events[from].forward.Some?
      ensures events[from].forward.value > 0
    {
      assert Linked(events, from);
    }
  }

  // ----- a node wrapped by a forward parent

  /** `symbols` with `before` written in front of what opens at `at`. */
  function InsertBefore(symbols: seq<Symbol>, at: nat, before: Symbol): seq<Symbol> {
    if symbols == [] then
      []
    else
      var inserted := if symbols[0].Open? && symbols[0].at == at then [before] else [];
      inserted + [symbols[0]] + InsertBefore(symbols[1..], at, before)
  }

  lemma {:induction false} InsertBeforeAppend(a: seq<Symbol>, b: seq<Symbol>, at: nat, before: Symbol)
    ensures InsertBefore(a + b, at, before) == InsertBefore(a, at, before) + InsertBefore(b, at, before)
    decreases a
  {
    if a == [] {
      assert a + b == b;
    } else {
      assert (a + b)[1..] == a[1..] + b;
      InsertBeforeAppend(a[1..], b, at, before);
    }
  }

  lemma {:induction false} InsertBeforeAbsent(symbols: seq<Symbol>, at: nat, before: Symbol)
    requires !Mentions(symbols, at)
    ensures InsertBefore(symbols, at, before) == symbols
    decreases symbols
  {
    if symbols != [] {
      forall i | 0 <= i < |symbols[1..]| && symbols[1..][i].Open? ensures symbols[1..][i].at != at {
        assert symbols[i + 1].Open?;
      }
      InsertBeforeAbsent(symbols[1..], at, before);
    }
  }

  /** `events` with a forward parent for `at` recorded and its slot opened at the end. */
  function Wrapped(events: seq<Event>, at: nat, kind: Kind): seq<Event>
    requires at < |events| && events[at].Start?
  {
    events[at := events[at].(forward := Some(|events| - at))] + [Start(kind, None)]
  }

  lemma {:induction false} WrappedKeepsLinks(events: seq<Event>, at: nat, kind: Kind)
    requires WellLinked(events) && at < |events| && events[at].Start? && events[at].forward.None?
    ensures WellLinked(Wrapped(events, at, kind))
  {
    var after := Wrapped(events, at, kind);
    forall from: nat
      ensures Linked(after, from)
    {
      if from != at {
        assert Linked(events, from);
      }
    }
    forall a, b, to | PointsTo(after, a, to) && PointsTo(after, b, to)
      ensures a == b
    {
      if a != at {
        assert Linked(events, a) && PointsTo(events, a, to);
      }
      if b != at {
        assert Linked(events, b) && PointsTo(events, b, to);
      }
    }
  }

  /** What a chain leaves of `Wrapped`, given what it leaves of the events wrapped. */
  function WrappedRest(left: seq<Event>, at: nat, kind: Kind): seq<Event>
    requires at < |left|
  {
    if left[at].Start? then Wrapped(left, at, kind) else left + [Tombstone]
  }

  lemma {:induction false} FollowWrapped(events: seq<Event>, at: nat, kind: Kind, link: nat, base: nat)
    requires link < |events| && events[link].Start?
    requires WellLinked(events) && Unpointed(events, link)
    requires at < |events| && events[at].Start? && events[at].forward.None?
    ensures Follow(Wrapped(events, at, kind), link, base).0 ==
      InsertBefore(Follow(events, link, base).0, base + at, Open(kind, base + |events|))
    ensures Follow(Wrapped(events, at, kind), link, base).1 ==
      WrappedRest(Follow(events, link, base).1, at, kind)
    decreases |events| - link
  {
    var after := Wrapped(events, at, kind);
    var cleared := events[link := Tombstone];
    var before := Open(kind, base + |events|);
    var here := Open(events[link].kind, base + link);
    if link == at {
      FollowWrappedHere(events, at, kind, base);
    } else {
      assert after[link := Tombstone] == Wrapped(cleared, at, kind);
      assert !Mentions([here], base + at);
      InsertBeforeAbsent([here], base + at, before);
      if events[link].forward.Some? {
        assert Linked(events, link) && Leads(after, link);
        FollowWrappedOn(events, at, kind, link, base);
      }
    }
  }

  lemma {:induction false} FollowWrappedOn(events: seq<Event>, at: nat, kind: Kind, link: nat, base: nat)
    requires link < |events| && Leads(events, link) && link != at
    requires WellLinked(events) && Unpointed(events, link)
    requires at < |events| && events[at].Start? && events[at].forward.None?
    ensures var here := Open(events[link].kind, base + link);
      var cleared, next := events[link := Tombstone], link + events[link].forward.value;
      && Follow(Wrapped(cleared, at, kind), next, base).0 + [here] ==
        InsertBefore(Follow(cleared, next, base).0 + [here], base + at, Open(kind, base + |events|))
      && Follow(Wrapped(cleared, at, kind), next, base).1 ==
        WrappedRest(Follow(cleared, next, base).1, at, kind)
    decreases |events| - link, 0
  {
    hide WellLinked, Unpointed, Follow, InsertBefore;
    var here := Open(events[link].kind, base + link);
    var before := Open(kind, base + |events|);
    var cleared, next := events[link := Tombstone], link + events[link].forward.value;
    ClearKeepsLinks(events, link);
    FollowWrapped(cleared, at, kind, next, base);
    InsertBeforeAppend(Follow(cleared, next, base).0, [here], base + at, before);
    assert !Mentions([here], base + at);
    InsertBeforeAbsent([here], base + at, before);
  }

  lemma {:induction false} FollowWrappedHere(events: seq<Event>, at: nat, kind: Kind, base: nat)
    requires at < |events| && events[at].Start? && events[at].forward.None?
    ensures Follow(Wrapped(events, at, kind), at, base).0 ==
      InsertBefore(Follow(events, at, base).0, base + at, Open(kind, base + |events|))
    ensures Follow(Wrapped(events, at, kind), at, base).1 ==
      WrappedRest(Follow(events, at, base).1, at, kind)
  {
    var after := Wrapped(events, at, kind);
    var rest := after[at := Tombstone];
    var before := Open(kind, base + |events|);
    var here := Open(events[at].kind, base + at);
    assert Leads(after, at);
    assert Follow(rest, |events|, base) == ([before], rest[|events| := Tombstone]);
    assert rest[|events| := Tombstone] == events[at := Tombstone] + [Tombstone];
    assert InsertBefore([here], base + at, before) == [before] + [here] + InsertBefore([], base + at, before);
  }

  /** Recording a forward parent opens it right before the node it wraps. */
  lemma {:induction false} UnwindWrapped(events: seq<Event>, at: nat, kind: Kind, base: nat)
    requires WellLinked(events) && at < |events| && events[at].Start? && events[at].forward.None?
    ensures Unwind(Wrapped(events, at, kind), base) ==
      InsertBefore(Unwind(events, base), base + at, Open(kind, base + |events|))
    decreases |events|
  {
    if events[0].Start? {
      UnwindWrappedChain(events, at, kind, base);
    } else {
      UnwindWrappedPlain(events, at, kind, base);
    }
  }

  lemma {:induction false} UnwindWrappedPlain(events: seq<Event>, at: nat, kind: Kind, base: nat)
    requires WellLinked(events) && at < |events| && events[at].Start? && events[at].forward.None?
    requires !events[0].Start?
    ensures Unwind(Wrapped(events, at, kind), base) ==
      InsertBefore(Unwind(events, base), base + at, Open(kind, base + |events|))
    decreases |events|, 1
  {
    hide *;
    var tail, before := events[1..], Open(kind, base + |events|);
    TailKeepsLinks(events);
    WrappedFirst(events, at, kind);
    UnwindNext(events, base);
    UnwindNext(Wrapped(events, at, kind), base);
    UnwindWrapped(tail, at - 1, kind, base + 1);
    NoOpening(events[0], base, base + at);
    InsertBeforeAbsent(Appended(events[0], base), base + at, before);
    InsertBeforeAppend(Appended(events[0], base), Unwind(tail, base + 1), base + at, before);
  }

  lemma NoOpening(event: Event, base: nat, at: nat)
    requires !event.Start?
    ensures !Mentions(Appended(event, base), at)
  {
  }

  lemma WrappedFirst(events: seq<Event>, at: nat, kind: Kind)
    requires at < |events| && events[at].Start?
    ensures var after := Wrapped(events, at, kind);
      && |after| == |events| + 1 && (after[0].Start? <==> events[0].Start?)
      && (at > 0 ==> after[0] == events[0] && after[1..] == Wrapped(events[1..], at - 1, kind))
  {
  }

  lemma {:induction false} UnwindWrappedChain(events: seq<Event>, at: nat, kind: Kind, base: nat)
    requires WellLinked(events) && at < |events| && events[at].Start? && events[at].forward.None?
    requires events[0].Start?
    ensures Unwind(Wrapped(events, at, kind), base) ==
      InsertBefore(Unwind(events, base), base + at, Open(kind, base + |events|))
    decreases |events|, 1
  {
    hide *;
    NothingPointsBack(events);
    FollowWrapped(events, at, kind, 0, base);
    FollowClears(events, 0, base);
    RestKeepsLinks(events, base);
    WrappedFirst(events, at, kind);
    UnwindNext(events, base);
    UnwindNext(Wrapped(events, at, kind), base);
    var chain, left := Follow(events, 0, base).0, Follow(events, 0, base).1;
    var before := Open(kind, base + |events|);
    assert left[0] == Tombstone && (left[at] == Tombstone || left[at] == events[at]);
    UnwindWrappedTail(left, at, kind, base);
    InsertBeforeAppend(chain, Unwind(left[1..], base + 1), base + at, before);
  }

  lemma {:induction false} UnwindWrappedTail(left: seq<Event>, at: nat, kind: Kind, base: nat)
    requires at < |left| && WellLinked(left[1..]) && left[0] == Tombstone
    requires left[at] == Tombstone || (left[at].Start? && left[at].forward.None?)
    ensures Unwind(WrappedRest(left, at, kind)[1..], base + 1) ==
      InsertBefore(Unwind(left[1..], base + 1), base + at, Open(kind, base + |left|))
    decreases |left|, 0
  {
    hide InsertBefore, WellLinked, Unwind;
    var tail := left[1..];
    if left[at] == Tombstone {
      assert WrappedRest(left, at, kind)[1..] == tail + [Tombstone];
      UnwindAppend(tail, Tombstone, base + 1);
      UnwindPositions(tail, base + 1);
      InsertBeforeAbsent(Unwind(tail, base + 1), base + at, Open(kind, base + |left|));
    } else {
      assert WrappedRest(left, at, kind)[1..] == Wrapped(tail, at - 1, kind);
      UnwindWrapped(tail, at - 1, kind, base + 1);
    }
  }

  // ----- an open node given its kind

  function Renamed(symbols: seq<Symbol>, at: nat, kind: Kind): seq<Symbol> {
    seq(|symbols|, i requires 0 <= i < |symbols| =>
      if symbols[i].Open? && symbols[i].at == at then Open(kind, at) else symbols[i])
  }

  lemma {:induction false} SameLinks(events: seq<Event>, after: seq<Event>)
    requires WellLinked(events) && |after| == |events|
    requires forall i :: 0 <= i < |events| ==>
      (after[i].Start? <==> events[i].Start?) && (events[i].Start? ==> after[i].forward == events[i].forward)
    ensures WellLinked(after)
    ensures forall to :: Unpointed(events, to) ==> Unpointed(after, to)
  {
    forall a, to | PointsTo(after, a, to)
      ensures PointsTo(events, a, to)
    {
    }
    forall from: nat
      ensures Linked(after, from)
    {
      assert Linked(events, from);
    }
  }

  function RenamedAt(events: seq<Event>, at: nat, kind: Kind): seq<Event>
    requires at < |events|
  {
    if events[at].Start? then events[at := events[at].(kind := kind)] else events
  }

  lemma {:induction false} FollowRenamed(events: seq<Event>, at: nat, kind: Kind, link: nat, base: nat)
    requires link < |events| && events[link].Start? && at < |events|
    ensures Follow(RenamedAt(events, at, kind), link, base).0 ==
      Renamed(Follow(events, link, base).0, base + at, kind)
    ensures Follow(RenamedAt(events, at, kind), link, base).1 ==
      RenamedAt(Follow(events, link, base).1, at, kind)
    decreases |events| - link
  {
    var after := RenamedAt(events, at, kind);
    var cleared := events[link := Tombstone];
    assert after[link := Tombstone] == RenamedAt(cleared, at, kind);
    assert Leads(after, link) == Leads(events, link);
    if Leads(events, link) {
      FollowRenamed(cleared, at, kind, link + events[link].forward.value, base);
    }
  }

  /** Naming an open node names it where it is written, and nothing else. */
  lemma {:induction false} UnwindRenamed(events: seq<Event>, at: nat, kind: Kind, base: nat)
    requires at < |events|
    ensures Unwind(RenamedAt(events, at, kind), base) == Renamed(Unwind(events, base), base + at, kind)
    decreases |events|
  {
    hide *;
    RenamedFirst(events, at, kind);
    UnwindNext(events, base);
    UnwindNext(RenamedAt(events, at, kind), base);
    if events[0].Start? {
      FollowRenamed(events, at, kind, 0, base);
      var chain, left := Follow(events, 0, base).0, Follow(events, 0, base).1;
      UnwindRenamedTail(left, at, kind, base);
      RenamedJoin(chain, Unwind(left[1..], base + 1), base + at, kind);
    } else {
      UnwindRenamedTail(events, at, kind, base);
      RenamedPlain(events[0], base, base + at, kind);
      RenamedJoin(Appended(events[0], base), Unwind(events[1..], base + 1), base + at, kind);
    }
  }

  lemma RenamedFirst(events: seq<Event>, at: nat, kind: Kind)
    requires at < |events|
    ensures var after := RenamedAt(events, at, kind);
      |after| == |events| && (after[0].Start? <==> events[0].Start?) && (!events[0].Start? ==> after[0] == events[0])
  {
  }

  lemma RenamedPlain(event: Event, base: nat, at: nat, kind: Kind)
    requires !event.Start?
    ensures Renamed(Appended(event, base), at, kind) == Appended(event, base)
  {
  }

  lemma RenamedJoin(a: seq<Symbol>, b: seq<Symbol>, at: nat, kind: Kind)
    ensures Renamed(a + b, at, kind) == Renamed(a, at, kind) + Renamed(b, at, kind)
  {
  }

  lemma {:induction false} UnwindRenamedTail(events: seq<Event>, at: nat, kind: Kind, base: nat)
    requires at < |events|
    ensures Unwind(RenamedAt(events, at, kind)[1..], base + 1) == Renamed(Unwind(events[1..], base + 1), base + at, kind)
    decreases |events|, 0
  {
    var tail := events[1..];
    if at == 0 {
      assert RenamedAt(events, at, kind)[1..] == tail;
      UnwindPositions(tail, base + 1);
      assert !Mentions(Unwind(tail, base + 1), base);
    } else {
      assert RenamedAt(events, at, kind)[1..] == RenamedAt(tail, at - 1, kind);
      UnwindRenamed(tail, at - 1, kind, base + 1);
    }
  }

  // ----- an open node given up

  function Without(symbols: seq<Symbol>, at: nat): seq<Symbol> {
    if symbols == [] then
      []
    else
      var kept := if symbols[0].Open? && symbols[0].at == at then [] else [symbols[0]];
      kept + Without(symbols[1..], at)
  }

  lemma {:induction false} WithoutAppend(a: seq<Symbol>, b: seq<Symbol>, at: nat)
    ensures Without(a + b, at) == Without(a, at) + Without(b, at)
    decreases a
  {
    if a == [] {
      assert a + b == b;
    } else {
      var kept := if a[0].Open? && a[0].at == at then [] else [a[0]];
      assert (a + b)[0] == a[0] && (a + b)[1..] == a[1..] + b;
      WithoutAppend(a[1..], b, at);
      assert kept + (Without(a[1..], at) + Without(b, at)) == kept + Without(a[1..], at) + Without(b, at);
    }
  }

  lemma {:induction false} WithoutAbsent(symbols: seq<Symbol>, at: nat)
    requires !Mentions(symbols, at)
    ensures Without(symbols, at) == symbols
    decreases symbols
  {
    if symbols != [] {
      forall i | 0 <= i < |symbols[1..]| && symbols[1..][i].Open? ensures symbols[1..][i].at != at {
        assert symbols[i + 1].Open?;
      }
      WithoutAbsent(symbols[1..], at);
    }
  }

  lemma {:induction false} FollowGivenUp(events: seq<Event>, at: nat, link: nat, base: nat)
    requires link < |events| && events[link].Start? && link != at
    requires at < |events| && Unpointed(events, at)
    ensures var (chain, left) := Follow(events, link, base);
      Follow(events[at := Tombstone], link, base) == (chain, left[at := Tombstone])
    ensures Follow(events, link, base).1[at] == events[at]
    ensures !Mentions(Follow(events, link, base).0, base + at)
    decreases |events| - link
  {
    var cleared := events[link := Tombstone];
    assert events[at := Tombstone][link := Tombstone] == cleared[at := Tombstone];
    if Leads(events, link) {
      var next := link + events[link].forward.value;
      assert PointsTo(events, link, next);
      forall from ensures !PointsTo(cleared, from, at) {
        assert !PointsTo(events, from, at);
      }
      FollowGivenUp(cleared, at, next, base);
      assert Leads(events[at := Tombstone], link);
    } else {
      assert !Leads(events[at := Tombstone], link);
    }
  }

  lemma {:induction false} TailUnpointed(events: seq<Event>, to: nat)
    requires events != [] && to > 0 && Unpointed(events, to)
    ensures Unpointed(events[1..], to - 1)
  {
    var tail, before := events[1..], to - 1;
    forall from ensures !PointsTo(tail, from, before) {
      assert PointsTo(tail, from, before) ==> PointsTo(events, from + 1, to);
    }
  }

  /** Giving up a node nothing points to removes what opened it, and nothing else. */
  lemma {:induction false} UnwindGivenUp(events: seq<Event>, at: nat, base: nat)
    requires WellLinked(events) && at < |events| && Unpointed(events, at)
    requires events[at].Start? && events[at].forward.None?
    ensures Unwind(events[at := Tombstone], base) == Without(Unwind(events, base), base + at)
    decreases |events|
  {
    var after := events[at := Tombstone];
    if at == 0 {
      var tail := events[1..];
      assert Follow(events, 0, base) == ([Open(events[0].kind, base)], after);
      assert after[1..] == tail;
      UnwindPositions(tail, base + 1);
      WithoutAbsent(Unwind(tail, base + 1), base);
      assert Unwind(events, base) == [Open(events[0].kind, base)] + Unwind(tail, base + 1);
    } else if events[0].Start? {
      UnwindGivenUpChain(events, at, base);
    } else {
      TailKeepsLinks(events);
      assert after[1..] == events[1..][at - 1 := Tombstone];
      TailUnpointed(events, at);
      UnwindGivenUp(events[1..], at - 1, base + 1);
    }
  }

  lemma {:induction false} UnwindGivenUpChain(events: seq<Event>, at: nat, base: nat)
    requires WellLinked(events) && 0 < at < |events| && Unpointed(events, at)
    requires events[at].Start? && events[at].forward.None? && events[0].Start?
    ensures Unwind(events[at := Tombstone], base) == Without(Unwind(events, base), base + at)
    decreases |events|, 1
  {
    FollowGivenUp(events, at, 0, base);
    var (chain, left) := Follow(events, 0, base);
    WithoutAppend(chain, Unwind(left[1..], base + 1), base + at);
    WithoutAbsent(chain, base + at);
    UnwindGivenUpTail(events, at, base);
  }

  lemma {:induction false} UnwindGivenUpTail(events: seq<Event>, at: nat, base: nat)
    requires WellLinked(events) && 0 < at < |events| && Unpointed(events, at)
    requires events[at].Start? && events[at].forward.None? && events[0].Start?
    requires Follow(events, 0, base).1[at] == events[at]
    ensures var left := Follow(events, 0, base).1;
      Unwind(left[at := Tombstone][1..], base + 1) == Without(Unwind(left[1..], base + 1), base + at)
    decreases |events|, 0
  {
    FollowClears(events, 0, base);
    RestKeepsLinks(events, base);
    var left := Follow(events, 0, base).1;
    assert left[at := Tombstone][1..] == left[1..][at - 1 := Tombstone];
    forall from ensures !PointsTo(left, from, at) {
      assert PointsTo(left, from, at) ==> PointsTo(events, from, at);
    }
    TailUnpointed(left, at);
    UnwindGivenUp(left[1..], at - 1, base + 1);
  }

  // ----- where a position is written once

  lemma {:induction false} DistinctParts(a: seq<Symbol>, x: Symbol, b: seq<Symbol>)
    requires Distinct(a + [x] + b) && x.Open?
    ensures !Mentions(a, x.at) && !Mentions(b, x.at)
  {
    var all := a + [x] + b;
    forall i | 0 <= i < |a| && a[i].Open? ensures a[i].at != x.at {
      assert all[i] == a[i] && all[|a|] == x;
    }
    forall i | 0 <= i < |b| && b[i].Open? ensures b[i].at != x.at {
      assert all[|a| + 1 + i] == b[i] && all[|a|] == x;
    }
  }

  lemma {:induction false} RenamedOnce(a: seq<Symbol>, x: Symbol, b: seq<Symbol>, kind: Kind)
    requires Distinct(a + [x] + b) && x.Open?
    ensures Renamed(a + [x] + b, x.at, kind) == a + [Open(kind, x.at)] + b
  {
    DistinctParts(a, x, b);
    var all, renamed := a + [x] + b, a + [Open(kind, x.at)] + b;
    forall i | 0 <= i < |all| ensures Renamed(all, x.at, kind)[i] == renamed[i] {
      if i < |a| {
        assert all[i] == a[i];
      } else if i > |a| {
        assert all[i] == b[i - |a| - 1];
      }
    }
  }

  lemma {:induction false} WithoutOnce(a: seq<Symbol>, x: Symbol, b: seq<Symbol>)
    requires Distinct(a + [x] + b) && x.Open?
    ensures Without(a + [x] + b, x.at) == a + b
  {
    DistinctParts(a, x, b);
    WithoutAbsent(a, x.at);
    WithoutAbsent(b, x.at);
    WithoutAppend(a, [x], x.at);
    WithoutAppend(a + [x], b, x.at);
    assert Without([x], x.at) == [];
  }

  lemma {:induction false} InsertBeforeOnce(a: seq<Symbol>, x: Symbol, b: seq<Symbol>, before: Symbol)
    requires Distinct(a + [x] + b) && x.Open?
    ensures InsertBefore(a + [x] + b, x.at, before) == a + [before] + [x] + b
  {
    DistinctParts(a, x, b);
    InsertBeforeAbsent(a, x.at, before);
    InsertBeforeAbsent(b, x.at, before);
    calc {
      InsertBefore(a + [x] + b, x.at, before);
      { InsertBeforeAppend(a + [x], b, x.at, before); }
      InsertBefore(a + [x], x.at, before) + b;
      { InsertBeforeAppend(a, [x], x.at, before); }
      a + InsertBefore([x], x.at, before) + b;
      { assert InsertBefore([x], x.at, before) == [before] + [x] + InsertBefore([], x.at, before) == [before, x]; }
      a + [before, x] + b;
      a + [before] + [x] + b;
    }
  }
}
