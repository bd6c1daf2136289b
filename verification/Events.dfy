/**
 * The parser's event buffer, and the stack of forests its calls denote.
 *
 * A rule never moves an event. Wrapping a finished node records a forward parent on
 * it, giving up an attempt truncates the buffer, and only `Resolve` puts the opening
 * events where they belong. `Forest` is what all of that means.
 */
module Events {
  import opened Wrappers
  import opened Syntax
  import opened Unwinding

  datatype Diagnostic = Diagnostic(message: string)

  datatype Buffer = Buffer(
    events: seq<Event>, open: nat, precedes: seq<nat>, diagnostics: seq<Diagnostic>)

  datatype Snapshot = Snapshot(events: nat, open: nat, precedes: nat, diagnostics: nat)

  const EMPTY := Buffer([], 0, [], [])

  // ----- what each call does to the buffer

  function Started(b: Buffer): Buffer {
    b.(events := b.events + [Tombstone], open := b.open + 1)
  }

  function Finished(b: Buffer, at: nat, kind: Kind): Buffer
    requires at < |b.events| && b.open > 0
  {
    b.(events := b.events[at := Start(kind, None)] + [Finish], open := b.open - 1)
  }

  function Abandoned(b: Buffer, at: nat): Buffer
    requires at < |b.events| && b.open > 0
  {
    var events := if at == |b.events| - 1 then b.events[..at] else b.events;
    b.(events := events, open := b.open - 1)
  }

  function Preceded(b: Buffer, at: nat): Buffer
    requires at < |b.events| && b.events[at].Start?
  {
    var linked := b.events[at := b.events[at].(forward := Some(|b.events| - at))];
    b.(events := linked + [Tombstone], open := b.open + 1, precedes := b.precedes + [at])
  }

  function SnapshotOf(b: Buffer): Snapshot {
    Snapshot(|b.events|, b.open, |b.precedes|, |b.diagnostics|)
  }

  function Cleared(events: seq<Event>, at: nat): seq<Event> {
    if at < |events| && events[at].Start? then events[at := events[at].(forward := None)] else events
  }

  /** `events` with the forward parent of each of `ats` cleared, the latest first. */
  function Unlinked(events: seq<Event>, ats: seq<nat>): (r: seq<Event>)
    ensures |r| == |events|
    decreases |ats|
  {
    if ats == [] then events else Unlinked(Cleared(events, ats[|ats| - 1]), ats[..|ats| - 1])
  }

  function Truncated<T>(s: seq<T>, length: nat): seq<T> {
    if length < |s| then s[..length] else s
  }

  function RolledBack(b: Buffer, s: Snapshot): Buffer {
    var kept := Truncated(b.precedes, s.precedes);
    Buffer(Truncated(Unlinked(b.events, b.precedes[|kept|..]), s.events), b.open, kept,
           Truncated(b.diagnostics, s.diagnostics))
  }

  // ----- the stack of forests

  /** A tree in which each node remembers the position its marker was given. */
  datatype Placed = Taken(kind: Kind) | Built(kind: Kind, at: nat, children: seq<Placed>)

  function Tree(p: Placed): Tree
    decreases p, 1
  {
    match p
    case Taken(kind) => Leaf(kind)
    case Built(kind, _, children) => Node(kind, Trees(children))
  }

  function Trees(ps: seq<Placed>): seq<Tree>
    decreases ps, 0
  {
    if ps == [] then [] else [Tree(ps[0])] + Trees(ps[1..])
  }

  /** The children so far of a node still open, and whether it wraps its first. */
  datatype Frame = Frame(children: seq<Placed>, preceding: bool)

  function Extended(frames: seq<Frame>, more: seq<Placed>): seq<Frame>
    requires frames != []
  {
    var top := frames[|frames| - 1];
    frames[|frames| - 1 := top.(children := top.children + more)]
  }

  /**
   * A buffer, the positions of the markers still open, and the forests under them:
   * `frames[0]` is what no marker holds, and `frames[i + 1]` what `marks[i]` does.
   * Giving up a marker that precedes a node tears the forests: nothing but going back
   * to a snapshot makes sense of the buffer then.
   */
  datatype State = State(buffer: Buffer, marks: seq<nat>, frames: seq<Frame>, torn: bool)

  const INITIAL := State(EMPTY, [], [Frame([], false)], false)

  datatype Call =
    | Begin
    | Take(kind: Kind)
    | Complete(kind: Kind)
    | Abandon
    | Precede(at: nat)
    | Report(diagnostic: Diagnostic)
    | RollBack(to: nat)

  /** Which of `children` was built at `at`, or their number if none was. */
  function Child(children: seq<Placed>, at: nat): (child: nat)
    ensures child <= |children|
    ensures child < |children| ==> children[child].Built? && children[child].at == at
  {
    if children == [] || (children[0].Built? && children[0].at == at) then 0
    else 1 + Child(children[1..], at)
  }

  /**
   * What the calls other than rolling back ask for: a marker to close; a direct child
   * of the innermost open node, with no forward parent yet, to wrap.
   */
  ghost predicate Enabled(s: State, call: Call) {
    && !s.torn && s.frames != []
    && match call
       case Complete(_) => s.marks != [] && |s.frames| > 1
       case Abandon => s.marks != [] && |s.frames| > 1
       case Precede(at) =>
         && at < |s.buffer.events| && s.buffer.events[at].Start? && s.buffer.events[at].forward.None?
         && Child(s.frames[|s.frames| - 1].children, at) < |s.frames[|s.frames| - 1].children|
       case RollBack(_) => false
       case _ => true
  }

  ghost function Step(s: State, call: Call): State
    requires Consistent(s) && Enabled(s, call)
  {
    var b, n := s.buffer, |s.frames| - 1;
    var top := s.frames[n];
    match call
    case Begin => State(Started(b), s.marks + [|b.events|], s.frames + [Frame([], false)], false)
    case Take(kind) => s.(buffer := b.(events := b.events + [Token(kind)]), frames := Extended(s.frames, [Taken(kind)]))
    case Complete(kind) =>
      var at := s.marks[|s.marks| - 1];
      State(Finished(b, at, kind), s.marks[..|s.marks| - 1],
            Extended(s.frames[..n], [Built(kind, at, top.children)]), false)
    case Abandon =>
      var at := s.marks[|s.marks| - 1];
      State(Abandoned(b, at), s.marks[..|s.marks| - 1], Extended(s.frames[..n], top.children), top.preceding)
    case Precede(at) =>
      var child := Child(top.children, at);
      State(Preceded(b, at), s.marks + [|b.events|],
            s.frames[..n] + [top.(children := top.children[..child]), Frame(top.children[child..], true)], false)
    case Report(diagnostic) => s.(buffer := b.(diagnostics := b.diagnostics + [diagnostic]))
  }

  // ----- what the buffer and the forests have to do with each other

  /** What stands for a marker still open. */
  const PENDING: Kind := Eof

  /** The events with each open marker's slot read as the node it will open. */
  function Viewed(events: seq<Event>, marks: seq<nat>): seq<Event> {
    seq(|events|, i requires 0 <= i < |events| => if i in marks then Start(PENDING, None) else events[i])
  }

  function Symbols(p: Placed): seq<Symbol>
    decreases p, 1
  {
    match p
    case Taken(kind) => [Read(kind)]
    case Built(kind, at, children) => [Open(kind, at)] + SymbolsAll(children) + [Close]
  }

  function SymbolsAll(ps: seq<Placed>): seq<Symbol>
    decreases ps, 0
  {
    if ps == [] then [] else Symbols(ps[0]) + SymbolsAll(ps[1..])
  }

  /** The forests as written so far, every open marker opening its node. */
  function Written(frames: seq<Frame>, marks: seq<nat>): seq<Symbol>
    requires |frames| == |marks| + 1
  {
    if marks == [] then SymbolsAll(frames[0].children)
    else
      var n := |marks| - 1;
      Written(frames[..n + 1], marks[..n]) + [Open(PENDING, marks[n])] + SymbolsAll(frames[n + 1].children)
  }

  ghost predicate Consistent(s: State) {
    && |s.frames| == |s.marks| + 1
    && s.buffer.open == |s.marks|
    && (forall i, j :: 0 <= i < j < |s.marks| ==> s.marks[i] < s.marks[j])
    && (forall i :: 0 <= i < |s.marks| ==> s.marks[i] < |s.buffer.events|)
    && (forall i :: 0 <= i < |s.marks| ==> s.buffer.events[s.marks[i]] == Tombstone)
  }

  ghost predicate Denotes(events: seq<Event>, marks: seq<nat>, frames: seq<Frame>)
    requires |frames| == |marks| + 1
  {
    var viewed := Viewed(events, marks);
    && WellLinked(viewed)
    && Unwind(viewed, 0) == Written(frames, marks)
    && (forall i :: 0 <= i < |marks| && !frames[i + 1].preceding ==> Unpointed(viewed, marks[i]))
  }

  /** The invariant of every run: the buffer denotes the forests, unless they are torn. */
  ghost predicate Sound(s: State) {
    Consistent(s) && (!s.torn ==> Denotes(s.buffer.events, s.marks, s.frames))
  }

  lemma {:induction false} SymbolsAllAppend(a: seq<Placed>, b: seq<Placed>)
    ensures SymbolsAll(a + b) == SymbolsAll(a) + SymbolsAll(b)
    decreases a
  {
    if a == [] {
      assert a + b == b;
    } else {
      assert (a + b)[0] == a[0] && (a + b)[1..] == a[1..] + b;
      SymbolsAllAppend(a[1..], b);
      assert Symbols(a[0]) + (SymbolsAll(a[1..]) + SymbolsAll(b)) == Symbols(a[0]) + SymbolsAll(a[1..]) + SymbolsAll(b);
    }
  }

  lemma {:induction false} WrittenExtended(frames: seq<Frame>, marks: seq<nat>, more: seq<Placed>)
    requires |frames| == |marks| + 1
    ensures Written(Extended(frames, more), marks) == Written(frames, marks) + SymbolsAll(more)
  {
    var n := |marks|;
    SymbolsAllAppend(frames[n].children, more);
    if n > 0 {
      assert Extended(frames, more)[..n] == frames[..n];
    }
  }

  /** The preorder of the forest is what its symbols say, positions left out. */
  lemma {:induction false} PlainSymbols(ps: seq<Placed>)
    ensures Plain(SymbolsAll(ps)) == PreorderAll(Trees(ps))
    decreases ps, 0
  {
    if ps != [] {
      PlainSymbol(ps[0]);
      PlainSymbols(ps[1..]);
      assert Trees(ps)[0] == Tree(ps[0]) && Trees(ps)[1..] == Trees(ps[1..]);
      PlainAppend(Symbols(ps[0]), SymbolsAll(ps[1..]));
    }
  }

  lemma {:induction false} PlainSymbol(p: Placed)
    ensures Plain(Symbols(p)) == Preorder(Tree(p))
    decreases p, 1
  {
    if p.Built? {
      PlainSymbols(p.children);
      PlainAppend([Open(p.kind, p.at)] + SymbolsAll(p.children), [Close]);
      PlainAppend([Open(p.kind, p.at)], SymbolsAll(p.children));
      assert Plain([Open(p.kind, p.at)]) == [Start(p.kind, None)] && Plain([Close]) == [Finish];
    }
  }

  // ----- every call keeps the invariant

  lemma {:induction false} AppendKeepsLinks(events: seq<Event>, event: Event)
    requires WellLinked(events) && (event.Start? ==> event.forward.None?)
    ensures WellLinked(events + [event])
    ensures forall to :: Unpointed(events, to) ==> Unpointed(events + [event], to)
    ensures Unpointed(events + [event], |events|)
  {
    var after := events + [event];
    forall from: nat ensures Linked(after, from) {
      assert Linked(events, from);
    }
    forall a, to | PointsTo(after, a, to) ensures PointsTo(events, a, to) && to < |events| {
      assert Linked(events, a);
    }
  }

  lemma {:induction false} TruncateKeepsLinks(events: seq<Event>)
    requires WellLinked(events + [Tombstone])
    ensures WellLinked(events)
    ensures forall to :: Unpointed(events + [Tombstone], to) ==> Unpointed(events, to)
  {
    var before := events + [Tombstone];
    forall from: nat ensures Linked(events, from) {
      assert Linked(before, from);
    }
    forall a, to | PointsTo(events, a, to) ensures PointsTo(before, a, to) {
    }
  }

  lemma {:induction false} BeginSound(s: State)
    requires Sound(s) && Enabled(s, Begin)
    ensures Sound(Step(s, Begin))
  {
    var t := Step(s, Begin);
    var viewed := Viewed(s.buffer.events, s.marks);
    assert Viewed(t.buffer.events, t.marks) == viewed + [Start(PENDING, None)];
    AppendKeepsLinks(viewed, Start(PENDING, None));
    UnwindAppend(viewed, Start(PENDING, None), 0);
    assert t.frames[..|s.marks| + 1] == s.frames && t.marks[..|s.marks|] == s.marks;
  }

  lemma {:induction false} TakeSound(s: State, kind: Kind)
    requires Sound(s) && Enabled(s, Take(kind))
    ensures Sound(Step(s, Take(kind)))
  {
    var t := Step(s, Take(kind));
    var viewed := Viewed(s.buffer.events, s.marks);
    assert Viewed(t.buffer.events, t.marks) == viewed + [Token(kind)];
    AppendKeepsLinks(viewed, Token(kind));
    UnwindAppend(viewed, Token(kind), 0);
    WrittenExtended(s.frames, s.marks, [Taken(kind)]);
    assert SymbolsAll([Taken(kind)]) == [Read(kind)];
  }

  lemma {:induction false} CompleteSound(s: State, kind: Kind)
    requires Sound(s) && Enabled(s, Complete(kind))
    ensures Sound(Step(s, Complete(kind)))
  {
    CompleteDenotes(s.buffer.events, s.marks, s.frames, kind);
  }

  lemma {:induction false} CompleteDenotes(events: seq<Event>, marks: seq<nat>, frames: seq<Frame>, kind: Kind)
    requires |frames| == |marks| + 1 && marks != [] && Denotes(events, marks, frames)
    requires var n := |marks| - 1; marks[n] < |events| && forall i :: 0 <= i < n ==> marks[i] < marks[n]
    ensures var n := |marks| - 1;
      Denotes(events[marks[n] := Start(kind, None)] + [Finish], marks[..n],
              Extended(frames[..n + 1], [Built(kind, marks[n], frames[n + 1].children)]))
  {
    var n := |marks| - 1;
    var at, viewed := marks[n], Viewed(events, marks);
    var renamed := RenamedAt(viewed, at, kind);
    assert forall i :: 0 <= i < |events| && i in marks[..n] ==> i < at;
    assert Viewed(events[at := Start(kind, None)] + [Finish], marks[..n]) == renamed + [Finish];
    SameLinks(viewed, renamed);
    AppendKeepsLinks(renamed, Finish);
    UnwindPositions(viewed, 0);
    UnwindRenamed(viewed, at, kind, 0);
    UnwindAppend(renamed, Finish, 0);
    CompleteWritten(frames, marks, kind);
  }

  lemma {:induction false} CompleteWritten(frames: seq<Frame>, marks: seq<nat>, kind: Kind)
    requires |frames| == |marks| + 1 && marks != [] && Distinct(Written(frames, marks))
    ensures var n := |marks| - 1;
      Written(Extended(frames[..n + 1], [Built(kind, marks[n], frames[n + 1].children)]), marks[..n]) ==
        Renamed(Written(frames, marks), marks[n], kind) + [Close]
  {
    var n := |marks| - 1;
    var at, children := marks[n], frames[n + 1].children;
    var below := Written(frames[..n + 1], marks[..n]);
    var open := Open(PENDING, at);
    RenamedOnce(below, open, SymbolsAll(children), kind);
    var built := Built(kind, at, children);
    WrittenExtended(frames[..n + 1], marks[..n], [built]);
    assert SymbolsAll([built]) == Symbols(built) + SymbolsAll([]) == Symbols(built);
    assert below + ([Open(kind, at)] + SymbolsAll(children) + [Close])
        == below + [Open(kind, at)] + SymbolsAll(children) + [Close];
  }

  lemma {:induction false} AbandonSound(s: State)
    requires Sound(s) && Enabled(s, Abandon)
    ensures Sound(Step(s, Abandon))
  {
    var t := Step(s, Abandon);
    var n, at, events := |s.marks| - 1, s.marks[|s.marks| - 1], s.buffer.events;
    assert at == |events| - 1 ==> forall i :: 0 <= i < n ==> s.marks[i] < |events| - 1;
    if !t.torn {
      AbandonDenotes(events, s.marks, s.frames);
      if at == |events| - 1 {
        assert events == events[..at] + [events[at]];
        TruncateDenotes(events[..at], t.marks, t.frames, events[at]);
      }
    }
  }

  lemma {:induction false} AbandonDenotes(events: seq<Event>, marks: seq<nat>, frames: seq<Frame>)
    requires |frames| == |marks| + 1 && marks != [] && Denotes(events, marks, frames)
    requires var n := |marks| - 1;
      && marks[n] < |events| && events[marks[n]] == Tombstone && !frames[n + 1].preceding
      && forall i :: 0 <= i < n ==> marks[i] < marks[n]
    ensures var n := |marks| - 1;
      Denotes(events, marks[..n], Extended(frames[..n + 1], frames[n + 1].children))
  {
    var n := |marks| - 1;
    var at, viewed := marks[n], Viewed(events, marks);
    assert Viewed(events, marks[..n]) == viewed[at := Tombstone];
    UnwindGivenUp(viewed, at, 0);
    GiveUpKeepsLinks(viewed, at);
    UnwindPositions(viewed, 0);
    AbandonWritten(frames, marks);
  }

  lemma {:induction false} TruncateDenotes(events: seq<Event>, marks: seq<nat>, frames: seq<Frame>, last: Event)
    requires |frames| == |marks| + 1 && Denotes(events + [last], marks, frames)
    requires last == Tombstone && |events| !in marks
    ensures Denotes(events, marks, frames)
  {
    var viewed := Viewed(events, marks);
    assert Viewed(events + [last], marks) == viewed + [Tombstone];
    TruncateKeepsLinks(viewed);
    UnwindAppend(viewed, Tombstone, 0);
  }

  lemma {:induction false} GiveUpKeepsLinks(events: seq<Event>, at: nat)
    requires WellLinked(events) && at < |events| && Unpointed(events, at)
    ensures WellLinked(events[at := Tombstone])
    ensures forall to :: Unpointed(events, to) ==> Unpointed(events[at := Tombstone], to)
  {
    ClearKeepsLinks(events, at);
    var after := events[at := Tombstone];
    forall to | Unpointed(events, to) ensures Unpointed(after, to) {
      forall from ensures !PointsTo(after, from, to) {
        assert !PointsTo(events, from, to);
      }
    }
  }

  lemma {:induction false} AbandonWritten(frames: seq<Frame>, marks: seq<nat>)
    requires |frames| == |marks| + 1 && marks != [] && Distinct(Written(frames, marks))
    ensures var n := |marks| - 1;
      Written(Extended(frames[..n + 1], frames[n + 1].children), marks[..n]) ==
        Without(Written(frames, marks), marks[n])
  {
    var n := |marks| - 1;
    var at, children := marks[n], frames[n + 1].children;
    var below := Written(frames[..n + 1], marks[..n]);
    WithoutOnce(below, Open(PENDING, at), SymbolsAll(children));
    WrittenExtended(frames[..n + 1], marks[..n], children);
  }

  lemma {:induction false} PrecedeSound(s: State, at: nat)
    requires Sound(s) && Enabled(s, Precede(at))
    ensures Sound(Step(s, Precede(at)))
  {
    var t := Step(s, Precede(at));
    var n, events := |s.marks|, s.buffer.events;
    var viewed := Viewed(events, s.marks);
    assert viewed[at] == events[at];
    assert Viewed(t.buffer.events, t.marks) == Wrapped(viewed, at, PENDING);
    WrappedKeepsLinks(viewed, at, PENDING);
    forall from, to | PointsTo(Wrapped(viewed, at, PENDING), from, to)
      ensures PointsTo(viewed, from, to) || to == |events|
    {
    }
    UnwindWrapped(viewed, at, PENDING, 0);
    UnwindPositions(viewed, 0);
    var top := s.frames[n];
    PrecedeWritten(s.frames, s.marks, Child(top.children, at), |events|);
  }

  lemma {:induction false} PrecedeWritten(frames: seq<Frame>, marks: seq<nat>, child: nat, end: nat)
    requires |frames| == |marks| + 1 && Distinct(Written(frames, marks))
    requires child < |frames[|marks|].children| && frames[|marks|].children[child].Built?
    ensures var n := |marks|;
      var top := frames[n];
      Written(frames[..n] + [top.(children := top.children[..child]), Frame(top.children[child..], true)], marks + [end]) ==
        InsertBefore(Written(frames, marks), top.children[child].at, Open(PENDING, end))
  {
    var n, top := |marks|, frames[|marks|];
    var wrapped, before := top.children[child], Open(PENDING, end);
    var at, kept, pulled := wrapped.at, top.children[..child], top.children[child..];
    var shorter := frames[..n] + [top.(children := kept)];
    assert Extended(shorter, pulled) == frames by { assert kept + pulled == top.children; }
    WrittenExtended(shorter, marks, pulled);
    var a, open := Written(shorter, marks), Open(wrapped.kind, at);
    var b := SymbolsAll(wrapped.children) + [Close] + SymbolsAll(pulled[1..]);
    assert SymbolsAll(pulled) == [open] + b;
    assert Written(frames, marks) == a + [open] + b;
    assert a + ([open] + b) == a + [open] + b;
    InsertBeforeOnce(a, open, b, before);
    var frames' := frames[..n] + [top.(children := kept), Frame(pulled, true)];
    assert frames'[..n + 1] == shorter && (marks + [end])[..n] == marks;
    assert Written(frames', marks + [end]) == a + [before] + SymbolsAll(pulled);
  }

  lemma {:induction false} StepSound(s: State, call: Call)
    requires Sound(s) && Enabled(s, call)
    ensures Sound(Step(s, call))
  {
    match call
    case Begin => BeginSound(s);
    case Take(kind) => TakeSound(s, kind);
    case Complete(kind) => CompleteSound(s, kind);
    case Abandon => AbandonSound(s);
    case Precede(at) => PrecedeSound(s, at);
    case Report(_) =>
  }
}
