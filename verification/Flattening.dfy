/** Where a tree flattened for being too deep is reported: at the first node that would sit at the limit. */
module Flattening {
  import opened Wrappers
  import opened Syntax
  import opened Build
  import opened BuildTheorems
  import opened Attachment

  /** How many of the first `at` tokens are not trivia. */
  function Solid(input: seq<Lexeme>, at: nat): nat
    requires at <= |input|
  {
    if at == 0 then 0 else Solid(input, at - 1) + (if IsTrivia(input[at - 1].kind) then 0 else 1)
  }

  /** The token before which there are `count` that are not trivia, itself not. */
  ghost predicate IsNth(input: seq<Lexeme>, count: nat, k: nat) {
    k < |input| && !IsTrivia(input[k].kind) && Solid(input, k) == count
  }

  /** Where it is, if there is one and it is anywhere. */
  ghost function SpanOf(input: seq<Lexeme>, count: nat): Option<nat> {
    if exists k: nat :: IsNth(input, count, k) then
      var k: nat :| IsNth(input, count, k);
      input[k].span
    else None
  }

  /** Of the nodes that would sit at the limit, `open` nodes and `count` tokens on, the first that starts with a token that is anywhere: where that is. */
  ghost function Reports(input: seq<Lexeme>, limit: nat, events: seq<Event>, open: nat, count: nat): Option<nat>
    decreases |events|
  {
    if events == [] then None
    else match events[0]
      case Start(_, _) =>
        if open + 1 == limit && SpanOf(input, count).Some? then SpanOf(input, count)
        else Reports(input, limit, events[1..], open + 1, count)
      case Token(_) => Reports(input, limit, events[1..], open, count + 1)
      case Finish => Reports(input, limit, events[1..], if open > 0 then open - 1 else 0, count)
      case Tombstone => Reports(input, limit, events[1..], open, count)
  }

  lemma {:induction false} SolidMore(input: seq<Lexeme>, a: nat, b: nat)
    requires a <= b <= |input|
    ensures Solid(input, a) <= Solid(input, b)
    ensures (forall j :: a <= j < b ==> IsTrivia(input[j].kind)) ==> Solid(input, b) == Solid(input, a)
    ensures a < b && !IsTrivia(input[a].kind) ==> Solid(input, a) < Solid(input, b)
    decreases b - a
  {
    if a < b {
      SolidMore(input, a, b - 1);
    }
  }

  lemma {:induction false} OneNth(input: seq<Lexeme>, count: nat, k: nat, l: nat)
    requires IsNth(input, count, k) && IsNth(input, count, l)
    ensures k == l
  {
    if k < l {
      SolidMore(input, k, l);
    } else if l < k {
      SolidMore(input, l, k);
    }
  }

  lemma {:induction false} FirstIsNth(input: seq<Lexeme>, at: nat)
    requires at <= |input|
    ensures FirstSpan(input, at) == SpanOf(input, Solid(input, at))
  {
    var first, count := at + TriviaRun(input, at), Solid(input, at);
    SolidMore(input, at, first);
    if first < |input| {
      assert IsNth(input, count, first);
      forall k: nat | IsNth(input, count, k) ensures k == first {
        OneNth(input, count, k, first);
      }
    } else {
      forall k: nat ensures !IsNth(input, count, k) {
        if IsNth(input, count, k) {
          if k < at {
            SolidMore(input, k, at);
          }
        }
      }
    }
  }

  /** So many nodes are open in the events: below the limit all are in the tree. */
  predicate Deep(p: Progress, open: nat, limit: nat) {
    if p.flattening == 0 then open == p.depth < limit
    else p.depth == limit && open == limit + p.flattening - 1
  }

  lemma {:induction false} TrailingSolid(p: Progress, input: seq<Lexeme>)
    requires p.at <= |input|
    ensures var q := EmitTrailing(p, input);
      && q.at <= |input| && Solid(input, q.at) == Solid(input, p.at)
      && q.depth == p.depth && q.flattening == p.flattening && q.flattened == p.flattened
  {
    hide EmitMany;
    EmitManyAt(p, input);
    if p.depth != 0 && p.at != 0 {
      EmitsMany(p, input, Trailing(input, p.at));
      TriviaUpTo(input, p.at);
      SolidMore(input, p.at, p.at + Trailing(input, p.at));
    }
  }

  lemma {:induction false} TriviaSolid(p: Progress, input: seq<Lexeme>)
    requires p.at <= |input|
    ensures var q := EmitTrivia(p, input);
      && q.at == p.at + TriviaRun(input, p.at) <= |input| && Solid(input, q.at) == Solid(input, p.at)
      && q.depth == p.depth && q.flattening == p.flattening && q.flattened == p.flattened
  {
    hide EmitMany;
    EmitManyAt(p, input);
    EmitsMany(p, input, TriviaRun(input, p.at));
    SolidMore(input, p.at, p.at + TriviaRun(input, p.at));
  }

  lemma {:induction false} StartDeep(p: Progress, open: nat, input: seq<Lexeme>, limit: nat, kind: Kind)
    requires p.at <= |input| && Deep(p, open, limit)
    ensures var q := OnStart(p, input, limit, kind);
      && q.at <= |input| && Deep(q, open + 1, limit) && Solid(input, q.at) == Solid(input, p.at)
      && q.flattened == if p.flattened.None? && open + 1 == limit then SpanOf(input, Solid(input, p.at)) else p.flattened
  {
    hide EmitTrailing, FirstSpan;
    TrailingSolid(p, input);
    FirstIsNth(input, EmitTrailing(p, input).at);
  }

  lemma {:induction false} TokenDeep(p: Progress, open: nat, input: seq<Lexeme>, limit: nat, kind: Kind)
    requires p.at <= |input| && Deep(p, open, limit) && OnToken(p, input, kind).Some?
    ensures var q := OnToken(p, input, kind).value;
      && q.at <= |input| && Deep(q, open, limit) && Solid(input, q.at) == Solid(input, p.at) + 1 && q.flattened == p.flattened
  {
    hide EmitTrivia;
    TriviaSolid(p, input);
  }

  lemma {:induction false} FinishDeep(p: Progress, open: nat, input: seq<Lexeme>, limit: nat, last: bool)
    requires p.at <= |input| && Deep(p, open, limit) && OnFinish(p, input, last).Some? && open > 0
    ensures var q := OnFinish(p, input, last).value;
      && q.at <= |input| && Deep(q, open - 1, limit) && Solid(input, q.at) == Solid(input, p.at) && q.flattened == p.flattened
  {
    hide EmitTrivia, EmitTrailing;
    TriviaSolid(p, input);
    TrailingSolid(p, input);
  }

  lemma {:induction false} FeedReports(p: Progress, open: nat, input: seq<Lexeme>, limit: nat, events: seq<Event>)
    requires p.at <= |input| && Deep(p, open, limit) && Balanced(events, open) && Feed(p, input, limit, events).Some?
    ensures Feed(p, input, limit, events).value.flattened ==
      if p.flattened.Some? then p.flattened else Reports(input, limit, events, open, Solid(input, p.at))
    decreases |events|
  {
    hide OnStart, OnToken, OnFinish, Deep, SpanOf, Solid;
    if events != [] {
      var last := |events| == 1;
      OnEventAt(p, input, limit, events[0], last);
      var q := OnEvent(p, input, limit, events[0], last).value;
      match events[0]
      case Start(kind, _) =>
        StartDeep(p, open, input, limit, kind);
        FeedReports(q, open + 1, input, limit, events[1..]);
      case Token(kind) =>
        TokenDeep(p, open, input, limit, kind);
        FeedReports(q, open, input, limit, events[1..]);
      case Finish =>
        FinishDeep(p, open, input, limit, last);
        FeedReports(q, open - 1, input, limit, events[1..]);
    }
  }

  /** The place reported is the one of the first node that would sit at the limit, its first token that is not trivia. */
  lemma {:induction false} BuildReports(tree: Tree, input: seq<Lexeme>, limit: nat)
    requires Buildable(tree, input) && limit > 0
    ensures var built := Feed(NOTHING, input, limit, Preorder(tree));
      built.Some? && built.value.flattened == Reports(input, limit, Preorder(tree), 0, 0)
  {
    hide Feed, Built, Buildable, Balanced, PreorderAll, Reports;
    var green, flattened := BuildTheorem(tree, input, limit);
    RootIsNode(tree, input);
    RootBalanced(tree);
    assert Solid(input, 0) == 0;
    FeedReports(NOTHING, 0, input, limit, Preorder(tree));
  }
}
