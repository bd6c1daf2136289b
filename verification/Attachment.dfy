/**
 * Where trivia goes in the tree: a comment on the line of a token stays in every node that
 * ends with that token, and whatever follows the last such comment goes to what comes next.
 */
module Attachment {
  import opened Wrappers
  import opened Syntax
  import opened Build
  import opened BuildTheorems

  // ----- where nodes start and end

  /** `k` is the last token before `x` that is not trivia. */
  predicate IsLast(input: seq<Lexeme>, k: nat, x: nat) {
    && k < x <= |input| && !IsTrivia(input[k].kind)
    && forall j :: k < j < x ==> IsTrivia(input[j].kind)
  }

  /**
   * Between `x` and what is before it a node may start or end: `x` is after every comment
   * that trails the last token before it, and, unless a comment there runs over lines,
   * right after the last of them.
   */
  ghost predicate IsEdge(input: seq<Lexeme>, x: nat) {
    x == 0 || exists k: nat :: IsLast(input, k, x) && EndsAfter(input, k + 1, x)
  }

  ghost predicate EndsAfter(input: seq<Lexeme>, from: nat, x: nat)
    requires from <= x <= |input|
  {
    && (forall c: nat :: Trails(input, from, c) ==> c < x)
    && ((forall j :: from <= j < x - 1 ==> !SpansLines(input[j])) ==> x == from || Trails(input, from, x - 1))
  }

  /** Every node starts and ends at such a place; the first token is the one at `from`. */
  ghost predicate Attaches(green: Green, from: nat, input: seq<Lexeme>)
    decreases green, 0
  {
    green.GreenNode? ==>
      && IsEdge(input, from) && IsEdge(input, from + |Tokens(green)|)
      && AttachesAll(green.children, from, input)
  }

  ghost predicate AttachesAll(greens: seq<Green>, from: nat, input: seq<Lexeme>)
    decreases greens, 1
  {
    greens != [] ==>
      Attaches(greens[0], from, input) && AttachesAll(greens[1..], from + |Tokens(greens[0])|, input)
  }

  lemma {:induction false} AttachesBoth(a: seq<Green>, b: seq<Green>, from: nat, input: seq<Lexeme>)
    requires AttachesAll(a, from, input) && AttachesAll(b, from + |TokensAll(a)|, input)
    ensures AttachesAll(a + b, from, input)
    decreases |a|
  {
    if a == [] {
      assert a + b == b;
    } else {
      assert (a + b)[0] == a[0] && (a + b)[1..] == a[1..] + b;
      AttachesBoth(a[1..], b, from + |Tokens(a[0])|, input);
    }
  }

  // ----- scanning again and again

  /** From `from` on, `x` is where scanning for what trails comes to, done once or more. */
  predicate Scanned(input: seq<Lexeme>, from: nat, x: nat)
    decreases if from < x then x - from else 0
  {
    var next := from + Trailing(input, from);
    x == next || (from < next < x && Scanned(input, next, x))
  }

  lemma {:induction false} ScannedOn(input: seq<Lexeme>, from: nat, x: nat)
    requires Scanned(input, from, x)
    ensures from <= x && Scanned(input, from, x + Trailing(input, x))
    decreases if from < x then x - from else 0
  {
    var next := from + Trailing(input, from);
    if x != next {
      ScannedOn(input, next, x);
    }
  }

  /** Right after a token, or where scanning after it came to. */
  ghost predicate IsNear(input: seq<Lexeme>, x: nat) {
    x == 0 || exists k: nat :: IsLast(input, k, x) && (x == k + 1 || Scanned(input, k + 1, x))
  }

  lemma {:induction false} ScannedEdge(input: seq<Lexeme>, from: nat, x: nat)
    requires Scanned(input, from, x) && from <= x <= |input|
    ensures EndsAfter(input, from, x)
  {
    hide Trails, Trailing;
    TrailingExactly(input, from);
    var next := from + Trailing(input, from);
    if x != next {
      ScannedOn(input, next, x);
      MoreScanned(input, next, x);
      OnlyPastLines(input, from);
    }
  }

  lemma MoreScanned(input: seq<Lexeme>, from: nat, x: nat)
    requires Scanned(input, from, x) && from < x
    ensures Trailing(input, from) > 0
  {
  }

  /** Scanning a second time finds more only after a comment that runs over lines. */
  lemma {:induction false} OnlyPastLines(input: seq<Lexeme>, from: nat)
    requires from <= |input|
    ensures var next := from + Trailing(input, from);
      from < next && Trailing(input, next) > 0 ==> SpansLines(input[next - 1])
  {
    hide Trailing;
    var next := from + Trailing(input, from);
    TrailingExactly(input, from);
    TrailingExactly(input, next);
    TrailsOn(input, from, next, next + Trailing(input, next));
  }

  lemma TrailsOn(input: seq<Lexeme>, from: nat, next: nat, end: nat)
    ensures from < next < end && Trails(input, from, next - 1) && Trails(input, next, end - 1) && !SpansLines(input[next - 1])
      ==> Trails(input, from, end - 1)
  {
    hide SpansLines, EndsLine;
  }

  lemma {:induction false} NearScans(input: seq<Lexeme>, x: nat)
    requires IsNear(input, x) && x > 0
    ensures x <= |input| && x + Trailing(input, x) <= |input|
    ensures IsNear(input, x + Trailing(input, x)) && IsEdge(input, x + Trailing(input, x))
  {
    hide Trailing, EndsAfter, Trails;
    var k: nat :| IsLast(input, k, x) && (x == k + 1 || Scanned(input, k + 1, x));
    var next := x + Trailing(input, x);
    if x != k + 1 {
      ScannedOn(input, k + 1, x);
    }
    TriviaUpTo(input, x);
    assert IsLast(input, k, next) && Scanned(input, k + 1, next);
    ScannedEdge(input, k + 1, next);
  }

  lemma TriviaUpTo(input: seq<Lexeme>, x: nat)
    requires x <= |input|
    ensures x + Trailing(input, x) <= |input|
    ensures forall j :: x <= j < x + Trailing(input, x) ==> IsTrivia(input[j].kind)
  {
    TrailingExactly(input, x);
  }

  // ----- what every event keeps

  /** The nodes still open start at edges, one after another, and hold nodes that are attached. */
  ghost predicate OpenAttaches(open: seq<Pending>, at: nat, input: seq<Lexeme>)
    decreases |open|
  {
    if open == [] then at == 0
    else
      var top := open[|open| - 1];
      var held := |TokensAll(top.children)|;
      && held <= at && IsEdge(input, at - held) && AttachesAll(top.children, at - held, input)
      && OpenAttaches(open[..|open| - 1], at - held, input)
  }

  /** So many nodes are open in the events, the ones left out of the tree included. */
  predicate OpenIn(p: Progress, count: nat) {
    && p.roots == [] && p.depth == |p.open| && (p.flattening > 0 ==> p.depth > 0)
    && count == p.depth + (if p.flattening > 0 then p.flattening - 1 else 0)
  }

  ghost predicate Attached(p: Progress, count: nat, input: seq<Lexeme>) {
    p.at <= |input| && OpenIn(p, count) && OpenAttaches(p.open, p.at, input) && IsNear(input, p.at)
  }

  /** Events that close each node they open, after `count` more, the last of them last. */
  predicate Balanced(events: seq<Event>, count: nat)
    decreases |events|
  {
    if events == [] then count == 0
    else match events[0]
      case Start(_, _) => Balanced(events[1..], count + 1)
      case Token(_) => count > 0 && Balanced(events[1..], count)
      case Finish => count > 0 && (count == 1 ==> |events| == 1) && Balanced(events[1..], count - 1)
      case Tombstone => false
  }

  lemma {:induction false} PreorderBalanced(tree: Tree, rest: seq<Event>, count: nat)
    requires count > 0 && Balanced(rest, count) && rest != []
    ensures Balanced(Preorder(tree) + rest, count)
    decreases tree, 1
  {
    var events := Preorder(tree) + rest;
    match tree
    case Leaf(kind) =>
      assert events[0] == Event.Token(kind) && events[1..] == rest;
    case Node(kind, children) =>
      var after := [Finish] + rest;
      assert after[1..] == rest;
      AllBalanced(children, after, count + 1);
      assert events[0] == Start(kind, None) && events[1..] == PreorderAll(children) + after;
  }

  lemma {:induction false} AllBalanced(trees: seq<Tree>, rest: seq<Event>, count: nat)
    requires count > 0 && Balanced(rest, count) && rest != []
    ensures Balanced(PreorderAll(trees) + rest, count)
    decreases trees, 0
  {
    if trees == [] {
      assert PreorderAll(trees) + rest == rest;
    } else {
      AllBalanced(trees[1..], rest, count);
      PreorderBalanced(trees[0], PreorderAll(trees[1..]) + rest, count);
      assert Preorder(trees[0]) + PreorderAll(trees[1..]) + rest == Preorder(trees[0]) + (PreorderAll(trees[1..]) + rest);
    }
  }

  lemma {:induction false} LeavesAttach(input: seq<Lexeme>, leaves: seq<Green>, from: nat)
    requires forall i :: 0 <= i < |leaves| ==> leaves[i].GreenToken?
    ensures AttachesAll(leaves, from, input) && |TokensAll(leaves)| == |leaves|
    decreases |leaves|
  {
    if leaves != [] {
      LeavesAttach(input, leaves[1..], from + 1);
    }
  }

  /** Tokens put into the innermost open node. */
  lemma {:induction false} MoreAttached(p: Progress, leaves: seq<Green>, input: seq<Lexeme>)
    requires p.open != [] && OpenAttaches(p.open, p.at, input)
    requires forall i :: 0 <= i < |leaves| ==> leaves[i].GreenToken?
    ensures var q := WithChildren(p, leaves);
      OpenAttaches(q.open, p.at + |leaves|, input) && |q.open| == |p.open| && q == p.(open := q.open)
  {
    hide IsEdge, Attaches;
    var n := |p.open| - 1;
    var children := p.open[n].children;
    var from := p.at - |TokensAll(children)|;
    LeavesAttach(input, leaves, p.at);
    TokensAllAppend(children, leaves);
    AttachesBoth(children, leaves, from, input);
    var q := WithChildren(p, leaves);
    assert q.open[..n] == p.open[..n];
  }

  lemma {:induction false} ManyAttached(p: Progress, input: seq<Lexeme>, count: nat)
    requires p.open != [] && OpenAttaches(p.open, p.at, input) && p.at + count <= |input|
    ensures var q := EmitMany(p, input, count);
      OpenAttaches(q.open, q.at, input) && q.at == p.at + count && |q.open| == |p.open| && q == p.(open := q.open, at := q.at)
  {
    hide OpenAttaches, EmitMany, Build.Leaves;
    EmitsMany(p, input, count);
    AreTokens(input, p.at, p.at + count);
    MoreAttached(p, Build.Leaves(input, p.at, p.at + count), input);
  }

  lemma AreTokens(input: seq<Lexeme>, from: nat, to: nat)
    requires from <= to <= |input|
    ensures var leaves := Build.Leaves(input, from, to);
      |leaves| == to - from && forall i :: 0 <= i < |leaves| ==> leaves[i].GreenToken?
  {
  }

  /** What an event does first leaves the builder where a node may start or end. */
  lemma {:induction false} TrailingAttached(p: Progress, count: nat, input: seq<Lexeme>)
    requires Attached(p, count, input)
    ensures var q := EmitTrailing(p, input);
      Attached(q, count, input) && IsEdge(input, q.at) && |q.open| == |p.open| && q == p.(open := q.open, at := q.at)
  {
    hide Trailing, EmitMany, IsNear, IsEdge, OpenAttaches;
    if p.depth != 0 && p.at != 0 {
      NearScans(input, p.at);
      ManyAttached(p, input, Trailing(input, p.at));
    } else {
      AtStart(p, input);
    }
  }

  lemma AtStart(p: Progress, input: seq<Lexeme>)
    requires OpenAttaches(p.open, p.at, input) && (p.open == [] || p.at == 0)
    ensures p.at == 0 && IsEdge(input, 0)
  {
  }

  lemma {:induction false} StartAttached(p: Progress, count: nat, input: seq<Lexeme>, limit: nat, kind: Kind)
    requires Attached(p, count, input)
    ensures Attached(OnStart(p, input, limit, kind), count + 1, input)
  {
    hide IsEdge, IsNear, EmitTrailing, OpenAttaches;
    TrailingAttached(p, count, input);
    EmitManyAt(p, input);
    var q := EmitTrailing(p, input);
    OpenMore(q.open, q.at, Pending(kind, []), input);
    OpenMore(q.open, q.at, Pending(Verbatim, []), input);
  }

  lemma OpenMore(open: seq<Pending>, at: nat, top: Pending, input: seq<Lexeme>)
    requires OpenAttaches(open, at, input) && IsEdge(input, at) && top.children == []
    ensures OpenAttaches(open + [top], at, input)
  {
    hide IsEdge;
    assert (open + [top])[..|open|] == open;
  }

  lemma {:induction false} TokenAttached(p: Progress, count: nat, input: seq<Lexeme>, kind: Kind)
    requires Attached(p, count, input) && count > 0 && OnToken(p, input, kind).Some?
    ensures Attached(OnToken(p, input, kind).value, count, input)
  {
    hide IsEdge, IsNear, OpenAttaches;
    EmitManyAt(p, input);
    ManyAttached(p, input, TriviaRun(input, p.at));
    var q := EmitTrivia(p, input);
    MoreAttached(q, [GreenToken(kind, input[q.at].text)], input);
    RightAfter(input, q.at);
  }

  lemma RightAfter(input: seq<Lexeme>, k: nat)
    requires k < |input| && !IsTrivia(input[k].kind)
    ensures IsNear(input, k + 1)
  {
    assert IsLast(input, k, k + 1);
  }

  lemma {:induction false} FinishAttached(p: Progress, count: nat, input: seq<Lexeme>)
    requires Attached(p, count, input) && count > 1 && OnFinish(p, input, false).Some?
    ensures Attached(OnFinish(p, input, false).value, count - 1, input)
  {
    hide IsEdge, IsNear, EmitTrailing, OpenAttaches;
    TrailingAttached(p, count, input);
    var q := EmitTrailing(p, input);
    if q.flattening <= 1 {
      NodeAttached(q, input);
    }
  }

  /** Closing a node where one may end. */
  lemma {:induction false} NodeAttached(p: Progress, input: seq<Lexeme>)
    requires |p.open| > 1 && p.depth == |p.open| && OpenAttaches(p.open, p.at, input) && IsEdge(input, p.at)
    ensures var q := Closed(p.(flattening := 0));
      OpenAttaches(q.open, p.at, input) && |q.open| == |p.open| - 1 && q.at == p.at && q.roots == p.roots && q.depth == p.depth - 1
      && q.flattening == 0
  {
    hide IsEdge;
    var n := |p.open| - 1;
    var top, below := p.open[n], p.open[n - 1];
    var green := GreenNode(top.kind, top.children);
    var from := p.at - |TokensAll(top.children)|;
    var start := from - |TokensAll(below.children)|;
    assert p.open[..n][n - 1] == below && p.open[..n][..n - 1] == p.open[..n - 1];
    assert |Tokens(green)| == |TokensAll(top.children)|;
    assert Attaches(green, from, input);
    OneAttached(green, from, input);
    AttachesBoth(below.children, [green], start, input);
    TokensAllAppend(below.children, [green]);
    var q := Closed(p.(flattening := 0));
    assert q.open[n - 1].children == below.children + [green] && q.open[..n - 1] == p.open[..n - 1];
  }

  lemma OneAttached(green: Green, from: nat, input: seq<Lexeme>)
    requires Attaches(green, from, input)
    ensures AttachesAll([green], from, input) && TokensAll([green]) == Tokens(green)
  {
    hide IsEdge, Attaches;
    assert [green][1..] == [];
    assert AttachesAll([], from + |Tokens(green)|, input);
    assert TokensAll([green]) == Tokens(green) + TokensAll([]);
  }

  /** The last event closes the root over all that is left. */
  lemma {:induction false} RootAttached(p: Progress, input: seq<Lexeme>)
    requires Attached(p, 1, input) && OnFinish(p, input, true).Some?
    ensures var q := OnFinish(p, input, true).value;
      |q.roots| == 1 && q.roots[0].GreenNode? && AttachesAll(q.roots[0].children, 0, input)
  {
    hide IsEdge, IsNear;
    EmitManyAt(p, input);
    ManyAttached(p, input, TriviaRun(input, p.at));
    var q := EmitTrivia(p, input);
    assert |q.open| == 1 && q.open[..0] == [];
    assert OpenAttaches([], q.at - |TokensAll(q.open[0].children)|, input);
    var r := q.(flattening := 0);
    assert Closed(r).roots == [] + [GreenNode(q.open[0].kind, q.open[0].children)];
  }

  lemma {:induction false} FeedAttached(p: Progress, count: nat, input: seq<Lexeme>, limit: nat, events: seq<Event>)
    requires Attached(p, count, input) && Balanced(events, count) && events != []
    requires Feed(p, input, limit, events).Some?
    ensures var q := Feed(p, input, limit, events).value;
      |q.roots| == 1 && q.roots[0].GreenNode? && AttachesAll(q.roots[0].children, 0, input)
    decreases |events|
  {
    hide Attached, OnStart, OnToken, OnFinish, IsNear, IsEdge;
    AttachedMeans(p, count, input);
    var last := |events| == 1;
    OnEventAt(p, input, limit, events[0], last);
    var q := OnEvent(p, input, limit, events[0], last).value;
    match events[0]
    case Start(kind, _) =>
      StartAttached(p, count, input, limit, kind);
      NotDone(events[1..], count + 1);
      FeedAttached(q, count + 1, input, limit, events[1..]);
    case Token(kind) =>
      TokenAttached(p, count, input, kind);
      NotDone(events[1..], count);
      FeedAttached(q, count, input, limit, events[1..]);
    case Finish =>
      if last {
        assert events[1..] == [];
        RootAttached(p, input);
      } else {
        FinishAttached(p, count, input);
        FeedAttached(q, count - 1, input, limit, events[1..]);
      }
  }

  lemma NotDone(events: seq<Event>, count: nat)
    requires Balanced(events, count) && count > 0
    ensures events != []
  {
  }

  lemma AttachedMeans(p: Progress, count: nat, input: seq<Lexeme>)
    requires Attached(p, count, input)
    ensures p.at <= |input|
  {
  }

  /**
   * In the tree built no node but the root starts or ends between a token and a comment
   * on its line: a node that ends with a token holds what trails it, and what follows that
   * is in or before the next one.
   */
  lemma {:induction false} BuildAttaches(tree: Tree, input: seq<Lexeme>, limit: nat)
    requires Buildable(tree, input) && limit > 0
    ensures var built := Feed(NOTHING, input, limit, Preorder(tree));
      && built.Some? && |built.value.roots| == 1 && built.value.roots[0].GreenNode?
      && AttachesAll(built.value.roots[0].children, 0, input)
  {
    hide Feed, Built, Buildable, AttachesAll, Attached, Balanced, PreorderAll;
    var green, flattened := BuildTheorem(tree, input, limit);
    RootIsNode(tree, input);
    RootBalanced(tree);
    NothingAttached(input);
    FeedAttached(NOTHING, 0, input, limit, Preorder(tree));
  }

  lemma RootIsNode(tree: Tree, input: seq<Lexeme>)
    requires Buildable(tree, input)
    ensures tree.Node?
  {
  }

  lemma RootBalanced(tree: Tree)
    requires tree.Node?
    ensures Balanced(Preorder(tree), 0) && Preorder(tree) != []
  {
    var events := Preorder(tree);
    assert [Finish][1..] == [];
    AllBalanced(tree.children, [Finish], 1);
    assert events[0] == Start(tree.kind, None) && events[1..] == PreorderAll(tree.children) + [Finish];
  }

  lemma NothingAttached(input: seq<Lexeme>)
    ensures Attached(NOTHING, 0, input)
  {
  }

  /** So a node that holds a token holds every comment that trails it. */
  lemma {:induction false} HoldsComments(green: Green, from: nat, input: seq<Lexeme>, k: nat, comment: nat)
    requires green.GreenNode? && Attaches(green, from, input)
    requires from <= k < from + |Tokens(green)| && k < |input| && !IsTrivia(input[k].kind) && Trails(input, k + 1, comment)
    ensures from <= comment < from + |Tokens(green)|
  {
    hide Trails;
    var x := from + |Tokens(green)|;
    var last: nat :| IsLast(input, last, x) && EndsAfter(input, last + 1, x);
    TriviaBetween(input, k + 1, comment, last);
  }

  lemma TriviaBetween(input: seq<Lexeme>, from: nat, comment: nat, token: nat)
    requires Trails(input, from, comment) && token < |input| && !IsTrivia(input[token].kind)
    ensures from <= comment && (from <= token ==> comment < token)
  {
  }
}
