/** The buffer itself, whose fields every call updates in place. */
module EventBuffer {
  import opened Wrappers
  import opened Syntax
  import opened Unwinding
  import E = Events
  import EventRuns

  datatype Marker = Marker(pos: nat)

  /** A handle to a node that was completed. */
  datatype Completed = Completed(pos: nat)

  /** What the first of the events left makes `resolve` write, and what is then left. */
  lemma Written(ahead: seq<Event>, at: nat)
    requires ahead != [] && WellLinked(ahead)
    ensures var written := Plain(Unwind(ahead, at));
      if ahead[0].Start? then
        var (chain, rest) := Follow(ahead, 0, at);
        WellLinked(rest[1..]) && written == Plain(chain) + Plain(Unwind(rest[1..], at + 1))
      else
        && WellLinked(ahead[1..])
        && written == (if ahead[0].Tombstone? then [] else [ahead[0]]) + Plain(Unwind(ahead[1..], at + 1))
  {
    hide Follow, WellLinked;
    match ahead[0] {
      case Tombstone =>
        TailKeepsLinks(ahead);
      case Token(kind) =>
        TailKeepsLinks(ahead);
        PlainAppend([Read(kind)], Unwind(ahead[1..], at + 1));
      case Finish =>
        TailKeepsLinks(ahead);
        PlainAppend([Close], Unwind(ahead[1..], at + 1));
      case Start(_, _) =>
        RestKeepsLinks(ahead, at);
        var (chain, rest) := Follow(ahead, 0, at);
        PlainAppend(chain, Unwind(rest[1..], at + 1));
    }
  }

  lemma NothingWritten(at: nat)
    ensures Plain(Unwind([], at)) == []
  {
  }

  class Events {
    var events: seq<Event>
    var open: nat
    var precedes: seq<nat>
    var diagnostics: seq<E.Diagnostic>
    ghost var marks: seq<nat>
    ghost var frames: seq<E.Frame>
    ghost var torn: bool

    ghost function State(): E.State
      reads this
    {
      E.State(E.Buffer(events, open, precedes, diagnostics), marks, frames, torn)
    }

    ghost predicate Valid()
      reads this
    {
      E.Sound(State())
    }

    constructor ()
      ensures Valid() && State() == E.INITIAL
    {
      events, open, precedes, diagnostics := [], 0, [], [];
      marks, frames, torn := [], [E.Frame([], false)], false;
      new;
      EventRuns.InitialSound();
    }

    ghost method Denote(after: E.State)
      modifies `marks, `frames, `torn
      ensures marks == after.marks && frames == after.frames && torn == after.torn
    {
      marks, frames, torn := after.marks, after.frames, after.torn;
    }

    method Start() returns (marker: Marker)
      requires Valid() && E.Enabled(State(), E.Begin)
      modifies this
      ensures Valid() && State() == E.Step(old(State()), E.Begin)
      ensures marks == old(marks) + [marker.pos]
    {
      E.StepSound(State(), E.Begin);
      ghost var after := E.Step(State(), E.Begin);
      marker := Marker(|events|);
      events := events + [Tombstone];
      open := open + 1;
      Denote(after);
    }

    method Token(kind: Kind)
      requires Valid() && E.Enabled(State(), E.Take(kind))
      modifies this
      ensures Valid() && State() == E.Step(old(State()), E.Take(kind))
    {
      E.StepSound(State(), E.Take(kind));
      ghost var after := E.Step(State(), E.Take(kind));
      events := events + [Event.Token(kind)];
      Denote(after);
    }

    /** Completes the innermost open marker. */
    method Complete(marker: Marker, kind: Kind) returns (node: Completed)
      requires Valid() && E.Enabled(State(), E.Complete(kind)) && marker.pos == marks[|marks| - 1]
      modifies this
      ensures Valid() && State() == E.Step(old(State()), E.Complete(kind))
      ensures node.pos == marker.pos && E.Enabled(State(), E.Precede(node.pos))
    {
      E.StepSound(State(), E.Complete(kind));
      EventRuns.CompletedCanBePreceded(State(), kind);
      ghost var after := E.Step(State(), E.Complete(kind));
      events := events[marker.pos := Event.Start(kind, None)];
      events := events + [Finish];
      open := open - 1;
      node := Completed(marker.pos);
      Denote(after);
    }

    /** Gives up the innermost open marker. */
    method Abandon(marker: Marker)
      requires Valid() && E.Enabled(State(), E.Abandon) && marker.pos == marks[|marks| - 1]
      modifies this
      ensures Valid() && State() == E.Step(old(State()), E.Abandon)
    {
      E.StepSound(State(), E.Abandon);
      ghost var after := E.Step(State(), E.Abandon);
      open := open - 1;
      if marker.pos == |events| - 1 {
        events := events[..|events| - 1];
      }
      Denote(after);
    }

    method Precede(node: Completed) returns (marker: Marker)
      requires Valid() && E.Enabled(State(), E.Precede(node.pos))
      modifies this
      ensures Valid() && State() == E.Step(old(State()), E.Precede(node.pos))
      ensures marks == old(marks) + [marker.pos]
    {
      E.StepSound(State(), E.Precede(node.pos));
      ghost var after := E.Step(State(), E.Precede(node.pos));
      marker := Marker(|events|);
      events := events + [Tombstone];
      open := open + 1;
      events := events[node.pos := events[node.pos].(forward := Some(marker.pos - node.pos))];
      assert events == after.buffer.events;
      precedes := precedes + [node.pos];
      Denote(after);
    }

    method Report(diagnostic: E.Diagnostic)
      requires Valid() && E.Enabled(State(), E.Report(diagnostic))
      modifies this
      ensures Valid() && State() == E.Step(old(State()), E.Report(diagnostic))
    {
      E.StepSound(State(), E.Report(diagnostic));
      diagnostics := diagnostics + [diagnostic];
    }

    method Snapshot() returns (snapshot: E.Snapshot)
      ensures snapshot == E.SnapshotOf(State().buffer)
    {
      snapshot := E.Snapshot(|events|, open, |precedes|, |diagnostics|);
    }

    /** Goes back to `earlier`, which `snapshot` was taken in and whose markers stayed open. */
    method Rollback(snapshot: E.Snapshot, ghost earlier: E.State)
      requires Valid() && E.Sound(earlier) && EventRuns.Since(earlier, State())
      requires snapshot == E.SnapshotOf(earlier.buffer) && open == snapshot.open
      modifies this
      ensures Valid() && State() == earlier
    {
      EventRuns.RollBackRestores(earlier, State());
      Unlink(snapshot.precedes);
      events := E.Truncated(events, snapshot.events);
      diagnostics := E.Truncated(diagnostics, snapshot.diagnostics);
      Denote(earlier);
    }

    /** Takes back every record of a forward parent past the first `kept`, the latest first. */
    method Unlink(kept: nat)
      modifies `events, `precedes
      ensures precedes == E.Truncated(old(precedes), kept)
      ensures events == E.Unlinked(old(events), old(precedes)[|precedes|..])
    {
      while |precedes| > kept
        invariant kept <= |old(precedes)| ==> kept <= |precedes|
        invariant |precedes| <= |old(precedes)| && precedes == old(precedes)[..|precedes|]
        invariant kept > |old(precedes)| ==> precedes == old(precedes)
        invariant kept <= |old(precedes)| ==>
          E.Unlinked(events, precedes[kept..]) == E.Unlinked(old(events), old(precedes)[kept..])
        invariant kept > |old(precedes)| ==> events == old(events)
      {
        ghost var left := precedes[kept..];
        var at := precedes[|precedes| - 1];
        precedes := precedes[..|precedes| - 1];
        assert left[..|left| - 1] == precedes[kept..];
        if at < |events| && events[at].Start? {
          events := events[at := events[at].(forward := None)];
        }
      }
    }

    /** The events of the forest, each forward parent where it belongs. */
    method Resolve() returns (resolved: seq<Event>)
      requires Valid() && open == 0 && !torn
      modifies this
      ensures resolved == PreorderAll(E.Trees(old(frames)[0].children))
    {
      EventRuns.ClosedDenotes(State());
      hide *;
      ghost var all := Plain(Unwind(events, 0));
      resolved := [];
      var at := 0;
      while at < |events|
        invariant at <= |events| && WellLinked(events[at..])
        invariant resolved + Plain(Unwind(events[at..], at)) == all
        decreases |events| - at
      {
        ghost var ahead := events[at..];
        assert events[at + 1..] == ahead[1..];
        Written(ahead, at);
        match events[at] {
          case Tombstone =>
          case Token(kind) =>
            resolved := resolved + [Event.Token(kind)];
          case Finish =>
            resolved := resolved + [Finish];
          case Start(_, _) =>
            var nesting := Unnest(at);
            resolved := resolved + nesting;
        }
        at := at + 1;
      }
      assert events[at..] == [];
      NothingWritten(at);
    }

    /** Writes the chain that starts at `at`, outermost first, and clears its other links. */
    method Unnest(at: nat) returns (written: seq<Event>)
      requires at < |events| && events[at].Start? && WellLinked(events[at..])
      modifies `events
      ensures |events| == |old(events)|
      ensures var (chain, rest) := Follow(old(events)[at..], 0, at);
        written == Plain(chain) && events[at + 1..] == rest[1..]
    {
      ghost var ahead := events[at..];
      ghost var (chain, rest) := Follow(ahead, 0, at);
      var nesting := [events[at].kind];
      var forward := events[at].forward;
      var link := at;
      NothingPointsBack(ahead);
      ghost var cleared := ahead;
      while forward.Some?
        invariant at <= link < |events| == |old(events)|
        invariant |cleared| == |ahead| && cleared[link - at].Start? && cleared[link - at].forward == forward
        invariant nesting != [] && nesting[|nesting| - 1] == cleared[link - at].kind
        invariant WellLinked(cleared) && Unpointed(cleared, link - at)
        invariant events[at + 1..] == cleared[link - at := Tombstone][1..]
        invariant rest == Follow(cleared, link - at, at).1
        invariant Plain(chain) == Plain(Follow(cleared, link - at, at).0) + Starts(nesting[..|nesting| - 1])
        decreases |events| - link
      {
        ghost var from := link - at;
        assert Linked(cleared, from);
        ClearKeepsLinks(cleared, from);
        ghost var next := from + forward.value;
        ghost var left := cleared[from := Tombstone];
        PlainAppend(Follow(left, next, at).0, [Open(cleared[from].kind, at + from)]);
        link := link + forward.value;
        assert events[link] == events[at + 1..][next - 1] == left[next];
        ghost var named := nesting;
        nesting := nesting + [events[link].kind];
        forward := events[link].forward;
        events := events[link := Tombstone];
        cleared := left;
        assert nesting[..|nesting| - 1] == named;
        assert Starts(named) == [Event.Start(named[|named| - 1], None)] + Starts(named[..|named| - 1]);
        assert events[at + 1..] == cleared[next := Tombstone][1..];
      }
      assert Follow(cleared, link - at, at).0 == [Open(cleared[link - at].kind, link)];
      written := Starts(nesting);
    }
  }

  /** `nesting` drained in reverse, each kind as the event that opens it. */
  function Starts(nesting: seq<Kind>): (written: seq<Event>)
    ensures |written| == |nesting|
    ensures forall i :: 0 <= i < |nesting| ==> written[i] == Start(nesting[|nesting| - 1 - i], None)
  {
    if nesting == [] then []
    else [Start(nesting[|nesting| - 1], None)] + Starts(nesting[..|nesting| - 1])
  }
}
