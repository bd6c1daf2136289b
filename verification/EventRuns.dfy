/**
 * Whole runs of the event buffer, speculation included.
 *
 * A run may go back to any earlier state it has not already gone back past, as often
 * as it likes, provided the markers open then have stayed open since. Going back
 * restores the buffer exactly; and whenever no marker is open and the forests are not
 * torn, what resolving writes is the preorder of the forest the calls denote.
 */
module EventRuns {
  import opened Wrappers
  import opened Syntax
  import opened Unwinding
  import opened Events

  // ----- going back

  /** What any calls leave of an earlier state while its markers stay open. */
  ghost predicate Since(earlier: State, now: State) {
    var (b0, b) := (earlier.buffer, now.buffer);
    && earlier.marks <= now.marks
    && (forall i :: |earlier.marks| <= i < |now.marks| ==> |b0.events| <= now.marks[i])
    && |b0.events| <= |b.events| && b0.precedes <= b.precedes && b0.diagnostics <= b.diagnostics
    && (forall i :: 0 <= i < |b0.events| ==> b.events[i] == b0.events[i] || Relinked(b0, b, i))
    && (forall i :: |b0.precedes| <= i < |b.precedes| && b.precedes[i] < |b0.events| ==>
          b0.events[b.precedes[i]].Start? && b0.events[b.precedes[i]].forward.None?)
  }

  /** The event at `i` gained a forward parent, and the buffer noted so. */
  ghost predicate Relinked(b0: Buffer, b: Buffer, i: nat)
    requires i < |b0.events| <= |b.events| && b0.precedes <= b.precedes
  {
    && b0.events[i].Start? && b0.events[i].forward.None?
    && b.events[i].Start? && b.events[i].kind == b0.events[i].kind
    && i in b.precedes[|b0.precedes|..]
  }

  lemma {:induction false} StepSince(earlier: State, s: State, call: Call)
    requires Since(earlier, s) && Consistent(s) && Enabled(s, call)
    requires earlier.marks <= Step(s, call).marks
    ensures Since(earlier, Step(s, call))
  {
    var t := Step(s, call);
    var b0, b, b' := earlier.buffer, s.buffer, t.buffer;
    forall i | 0 <= i < |b0.events| ensures b'.events[i] == b0.events[i] || Relinked(b0, b', i) {
      assert b.events[i] == b0.events[i] || Relinked(b0, b, i);
      if call.Precede? && call.at == i {
        assert b'.precedes[|b.precedes|] == i;
        assert b'.precedes[|b0.precedes|..][|b.precedes| - |b0.precedes|] == i;
      } else if Relinked(b0, b, i) {
        assert b.precedes[|b0.precedes|..] <= b'.precedes[|b0.precedes|..];
      }
    }
  }

  lemma {:induction false} UnlinkedAt(events: seq<Event>, ats: seq<nat>, i: nat)
    requires i < |events|
    ensures Unlinked(events, ats)[i] ==
      if i in ats && events[i].Start? then events[i].(forward := None) else events[i]
    decreases |ats|
  {
    if ats != [] {
      var front, last := ats[..|ats| - 1], ats[|ats| - 1];
      assert ats == front + [last];
      UnlinkedAt(Cleared(events, last), front, i);
    }
  }

  lemma {:induction false} RollBackRestores(earlier: State, now: State)
    requires Since(earlier, now) && Consistent(earlier) && now.buffer.open == earlier.buffer.open
    ensures RolledBack(now.buffer, SnapshotOf(earlier.buffer)) == earlier.buffer
  {
    var b0, b := earlier.buffer, now.buffer;
    assert Truncated(b.precedes, |b0.precedes|) == b0.precedes;
    assert Truncated(b.diagnostics, |b0.diagnostics|) == b0.diagnostics;
    var recorded := b.precedes[|b0.precedes|..];
    var unlinked := Unlinked(b.events, recorded);
    forall i | 0 <= i < |b0.events| ensures unlinked[i] == b0.events[i] {
      UnlinkedAt(b.events, recorded, i);
      if i in recorded {
        var k :| 0 <= k < |recorded| && recorded[k] == i;
        assert b.precedes[|b0.precedes| + k] == i;
      }
    }
    assert Truncated(unlinked, |b0.events|) == b0.events;
  }

  // ----- runs

  /** No state between `to` and `at` has lost a marker `to` had, or was rolled back past it. */
  ghost predicate Live(history: seq<State>, calls: seq<Call>, to: nat, at: nat)
    requires to <= at < |history| <= |calls| + 1
  {
    && (forall m :: to <= m <= at ==> history[to].marks <= history[m].marks)
    && (forall m :: to <= m < at && calls[m].RollBack? ==> to <= calls[m].to)
  }

  ghost predicate Allowed(history: seq<State>, calls: seq<Call>, at: nat)
    requires at < |calls| && |history| == |calls| + 1
  {
    match calls[at]
    case RollBack(to) =>
      to <= at && Live(history, calls, to, at) && history[at].buffer.open == history[to].buffer.open
    case call => Consistent(history[at]) && Enabled(history[at], call)
  }

  /** The state after a call: the calls' own, or the buffer rolled back and the forests as they were. */
  ghost function After(history: seq<State>, calls: seq<Call>, at: nat): State
    requires at < |calls| && |history| == |calls| + 1 && Allowed(history, calls, at)
  {
    match calls[at]
    case RollBack(to) =>
      history[to].(buffer := RolledBack(history[at].buffer, SnapshotOf(history[to].buffer)))
    case call => Step(history[at], call)
  }

  ghost predicate IsRun(history: seq<State>, calls: seq<Call>) {
    && |history| == |calls| + 1 && history[0] == INITIAL
    && forall at :: 0 <= at < |calls| ==> Allowed(history, calls, at) && history[at + 1] == After(history, calls, at)
  }

  lemma {:induction false} InitialSound()
    ensures Sound(INITIAL)
  {
    assert Viewed([], []) == [];
    assert Unwind([], 0) == Written([Frame([], false)], []);
  }

  ghost predicate Kept(history: seq<State>, calls: seq<Call>, at: nat)
    requires at < |history| <= |calls| + 1
  {
    && Sound(history[at])
    && forall to :: 0 <= to <= at && Live(history, calls, to, at) ==> Since(history[to], history[at])
  }

  /** Up to `at`, every state of a run is sound, and every live one is still there underneath. */
  lemma {:induction false} RunKeeps(history: seq<State>, calls: seq<Call>, at: nat)
    requires IsRun(history, calls) && at < |history|
    ensures Kept(history, calls, at)
  {
    if at == 0 {
      InitialSound();
    } else {
      var before := at - 1;
      RunKeeps(history, calls, before);
      assert Allowed(history, calls, before) && history[at] == After(history, calls, before);
      if calls[before].RollBack? {
        RunKeeps(history, calls, calls[before].to);
        RollBackKeeps(history, calls, before);
      } else {
        CallKeeps(history, calls, before);
      }
    }
  }

  lemma {:induction false} CallKeeps(history: seq<State>, calls: seq<Call>, before: nat)
    requires before < |calls| && |history| == |calls| + 1 && !calls[before].RollBack?
    requires Kept(history, calls, before) && Enabled(history[before], calls[before])
    requires history[before + 1] == Step(history[before], calls[before])
    ensures Kept(history, calls, before + 1)
  {
    StepSound(history[before], calls[before]);
    forall to | 0 <= to <= before + 1 && Live(history, calls, to, before + 1)
      ensures Since(history[to], history[before + 1])
    {
      if to <= before {
        assert Live(history, calls, to, before);
        StepSince(history[to], history[before], calls[before]);
      }
    }
  }

  lemma {:induction false} RollBackKeeps(history: seq<State>, calls: seq<Call>, before: nat)
    requires before < |calls| && |history| == |calls| + 1 && calls[before].RollBack?
    requires Allowed(history, calls, before) && history[before + 1] == After(history, calls, before)
    requires Kept(history, calls, before) && Kept(history, calls, calls[before].to)
    ensures Kept(history, calls, before + 1)
  {
    var back := calls[before].to;
    RollBackRestores(history[back], history[before]);
    assert history[before + 1] == history[back];
    forall to | 0 <= to <= before + 1 && Live(history, calls, to, before + 1)
      ensures Since(history[to], history[before + 1])
    {
      if to <= before {
        assert to <= back && Live(history, calls, to, back);
      }
    }
  }

  /**
   * Rolling back restores the whole state of the snapshot: events, forward parents,
   * records of them and diagnostics, whatever the calls in between.
   */
  lemma {:induction false} RollBackTheorem(history: seq<State>, calls: seq<Call>, at: nat)
    requires IsRun(history, calls) && at < |calls| && calls[at].RollBack?
    ensures calls[at].to <= at && history[at + 1] == history[calls[at].to]
  {
    assert Allowed(history, calls, at) && history[at + 1] == After(history, calls, at);
    RunKeeps(history, calls, at);
    RunKeeps(history, calls, calls[at].to);
    RollBackRestores(history[calls[at].to], history[at]);
  }

  /** The node a call has just completed can be preceded. */
  lemma {:induction false} CompletedCanBePreceded(s: State, kind: Kind)
    requires Sound(s) && Enabled(s, Complete(kind))
    ensures Enabled(Step(s, Complete(kind)), Precede(s.marks[|s.marks| - 1]))
  {
    var t, at := Step(s, Complete(kind)), s.marks[|s.marks| - 1];
    var children := t.frames[|t.frames| - 1].children;
    ChildFound(children, at, |children| - 1);
  }

  lemma {:induction false} ChildFound(children: seq<Placed>, at: nat, i: nat)
    requires i < |children| && children[i].Built? && children[i].at == at
    ensures Child(children, at) <= i
    decreases i
  {
    if i > 0 && !(children[0].Built? && children[0].at == at) {
      ChildFound(children[1..], at, i - 1);
    }
  }

  /** With no marker open, resolving writes the preorder of the forest the run denotes. */
  lemma {:induction false} ResolveTheorem(history: seq<State>, calls: seq<Call>, at: nat)
    requires IsRun(history, calls) && at < |history|
    requires history[at].buffer.open == 0 && !history[at].torn
    ensures |history[at].frames| == 1 && WellLinked(history[at].buffer.events)
    ensures Plain(Unwind(history[at].buffer.events, 0)) == PreorderAll(Trees(history[at].frames[0].children))
  {
    RunKeeps(history, calls, at);
    ClosedDenotes(history[at]);
  }

  lemma {:induction false} ClosedDenotes(s: State)
    requires Sound(s) && s.buffer.open == 0 && !s.torn
    ensures WellLinked(s.buffer.events)
    ensures Plain(Unwind(s.buffer.events, 0)) == PreorderAll(Trees(s.frames[0].children))
  {
    assert Viewed(s.buffer.events, s.marks) == s.buffer.events;
    PlainSymbols(s.frames[0].children);
  }
}
