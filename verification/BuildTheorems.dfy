/**
 * What building guarantees: every token before the end is a leaf, in order and with its
 * own text; with trivia left out the tree is the event tree, each node that would sit at
 * the limit replaced by one holding its tokens flat.
 */
module BuildTheorems {
  import opened Wrappers
  import opened Syntax
  import opened Build

  // ----- the tree, apart from how it is built

  /** The leaves of trees, in order. */
  function LeavesOf(tree: Tree): seq<Tree>
    decreases tree, 1
  {
    match tree
    case Leaf(_) => [tree]
    case Node(_, children) => LeavesOfAll(children)
  }

  function LeavesOfAll(trees: seq<Tree>): seq<Tree>
    decreases trees, 0
  {
    if trees == [] then [] else LeavesOf(trees[0]) + LeavesOfAll(trees[1..])
  }

  /** `tree`, whose root is at `depth`, with what would sit at `limit` kept flat. */
  function Capped(tree: Tree, depth: nat, limit: nat): Tree
    decreases tree, 1
  {
    match tree
    case Leaf(_) => tree
    case Node(kind, children) =>
      if depth == limit then Node(Verbatim, LeavesOfAll(children))
      else Node(kind, CappedAll(children, depth + 1, limit))
  }

  function CappedAll(trees: seq<Tree>, depth: nat, limit: nat): seq<Tree>
    decreases trees, 0
  {
    if trees == [] then [] else [Capped(trees[0], depth, limit)] + CappedAll(trees[1..], depth, limit)
  }

  function Max(a: nat, b: nat): nat { if a > b then a else b }

  /** How many nodes deep a tree is. */
  function Height(tree: Tree): nat
    decreases tree, 1
  {
    match tree
    case Leaf(_) => 0
    case Node(_, children) => 1 + HeightAll(children)
  }

  function HeightAll(trees: seq<Tree>): nat
    decreases trees, 0
  {
    if trees == [] then 0 else Max(Height(trees[0]), HeightAll(trees[1..]))
  }

  /** A built tree with its trivia left out. */
  function Bare(green: Green): seq<Tree>
    decreases green, 1
  {
    match green
    case GreenToken(kind, _) => if IsTrivia(kind) then [] else [Leaf(kind)]
    case GreenNode(kind, children) => [Node(kind, BareAll(children))]
  }

  function BareAll(greens: seq<Green>): seq<Tree>
    decreases greens, 0
  {
    if greens == [] then [] else Bare(greens[0]) + BareAll(greens[1..])
  }

  /** The tokens of a built tree, in order. */
  function Tokens(green: Green): seq<Green>
    decreases green, 1
  {
    match green
    case GreenToken(_, _) => [green]
    case GreenNode(_, children) => TokensAll(children)
  }

  function TokensAll(greens: seq<Green>): seq<Green>
    decreases greens, 0
  {
    if greens == [] then [] else Tokens(greens[0]) + TokensAll(greens[1..])
  }

  function GreenHeight(green: Green): nat
    decreases green, 1
  {
    match green
    case GreenToken(_, _) => 0
    case GreenNode(_, children) => 1 + GreenHeightAll(children)
  }

  function GreenHeightAll(greens: seq<Green>): nat
    decreases greens, 0
  {
    if greens == [] then 0 else Max(GreenHeight(greens[0]), GreenHeightAll(greens[1..]))
  }

  /** Leaf by token: the same text, and trivia as the trivia it is. */
  predicate Matches(tokens: seq<Green>, input: seq<Lexeme>) {
    && |tokens| == |input|
    && forall i :: 0 <= i < |tokens| ==>
         && tokens[i].GreenToken? && tokens[i].text == input[i].text
         && (IsTrivia(input[i].kind) <==> IsTrivia(tokens[i].kind))
         && (IsTrivia(input[i].kind) ==> tokens[i].kind == input[i].kind)
  }

  /** Only the last token may be the end of the file. */
  predicate WellFormed(input: seq<Lexeme>) {
    forall i :: 0 <= i < |input| - 1 ==> !input[i].kind.Eof?
  }

  /** Where the tokens before the end of the file end. */
  function End(input: seq<Lexeme>): (end: nat)
    ensures end <= |input|
  {
    if input != [] && input[|input| - 1].kind.Eof? then |input| - 1 else |input|
  }

  predicate IsSignificant(lexeme: Lexeme) {
    !IsTrivia(lexeme.kind) && !lexeme.kind.Eof?
  }

  /** How many tokens from `at` on a rule is to take. */
  function Significant(input: seq<Lexeme>, at: nat): nat
    decreases |input| - at
  {
    if at >= |input| then 0 else (if IsSignificant(input[at]) then 1 else 0) + Significant(input, at + 1)
  }

  predicate TakesNoTrivia(tokens: seq<Tree>) {
    forall i :: 0 <= i < |tokens| ==> !IsTrivia(tokens[i].kind)
  }

  // ----- appending

  lemma {:induction false} BareAllAppend(a: seq<Green>, b: seq<Green>)
    ensures BareAll(a + b) == BareAll(a) + BareAll(b)
    decreases a
  {
    if a == [] {
      assert a + b == b;
    } else {
      assert (a + b)[0] == a[0] && (a + b)[1..] == a[1..] + b;
      BareAllAppend(a[1..], b);
      assert Bare(a[0]) + (BareAll(a[1..]) + BareAll(b)) == Bare(a[0]) + BareAll(a[1..]) + BareAll(b);
    }
  }

  lemma {:induction false} TokensAllAppend(a: seq<Green>, b: seq<Green>)
    ensures TokensAll(a + b) == TokensAll(a) + TokensAll(b)
    decreases a
  {
    if a == [] {
      assert a + b == b;
    } else {
      assert (a + b)[0] == a[0] && (a + b)[1..] == a[1..] + b;
      TokensAllAppend(a[1..], b);
      assert Tokens(a[0]) + (TokensAll(a[1..]) + TokensAll(b)) == Tokens(a[0]) + TokensAll(a[1..]) + TokensAll(b);
    }
  }

  /** Trivia as leaves: no part of the bare tree, and nothing a rule takes. */
  lemma {:induction false} TriviaLeaves(input: seq<Lexeme>, from: nat, to: nat)
    requires from <= to <= |input| && forall i :: from <= i < to ==> IsTrivia(input[i].kind)
    ensures var leaves := Build.Leaves(input, from, to);
      BareAll(leaves) == [] && TokensAll(leaves) == leaves && Matches(leaves, input[from..to])
    ensures Significant(input, from) == Significant(input, to)
    decreases |input| - from
  {
    var leaves := Build.Leaves(input, from, to);
    if from < to {
      TriviaLeaves(input, from + 1, to);
      assert leaves[1..] == Build.Leaves(input, from + 1, to);
      assert TokensAll(leaves) == [leaves[0]] + leaves[1..];
    }
  }

  lemma {:induction false} BareKeepsHeight(greens: seq<Green>)
    ensures HeightAll(BareAll(greens)) == GreenHeightAll(greens)
    decreases greens, 0
  {
    if greens != [] {
      BareKeepsHeight(greens[1..]);
      match greens[0]
      case GreenToken(kind, _) =>
        if !IsTrivia(kind) {
          assert BareAll(greens) == [Leaf(kind)] + BareAll(greens[1..]);
          assert BareAll(greens)[1..] == BareAll(greens[1..]);
        } else {
          assert BareAll(greens) == BareAll(greens[1..]);
        }
      case GreenNode(kind, children) =>
        BareKeepsHeight(children);
        assert BareAll(greens) == [Node(kind, BareAll(children))] + BareAll(greens[1..]);
        assert BareAll(greens)[1..] == BareAll(greens[1..]);
    }
  }

  lemma {:induction false} LeavesAreFlat(trees: seq<Tree>)
    ensures HeightAll(LeavesOfAll(trees)) == 0
    ensures forall i :: 0 <= i < |LeavesOfAll(trees)| ==> LeavesOfAll(trees)[i].Leaf?
    decreases trees, 0
  {
    if trees != [] {
      LeavesAreFlat(trees[1..]);
      if trees[0].Node? {
        LeavesAreFlat(trees[0].children);
      }
      assert LeavesOfAll(trees) == LeavesOf(trees[0]) + LeavesOfAll(trees[1..]);
      FlatHeight(LeavesOfAll(trees));
    }
  }

  lemma {:induction false} FlatHeight(trees: seq<Tree>)
    requires forall i :: 0 <= i < |trees| ==> trees[i].Leaf?
    ensures HeightAll(trees) == 0
  {
    if trees != [] {
      FlatHeight(trees[1..]);
    }
  }

  /** Capping bounds the height by what is left below the limit, and changes no shallower tree. */
  lemma {:induction false} CappedHeight(trees: seq<Tree>, depth: nat, limit: nat)
    requires depth <= limit
    ensures HeightAll(CappedAll(trees, depth, limit)) <= limit + 1 - depth
    ensures HeightAll(trees) + depth <= limit ==> CappedAll(trees, depth, limit) == trees
    decreases trees, 0
  {
    if trees != [] {
      CappedHeight(trees[1..], depth, limit);
      var capped := CappedAll(trees, depth, limit);
      assert capped[0] == Capped(trees[0], depth, limit) && capped[1..] == CappedAll(trees[1..], depth, limit);
      match trees[0]
      case Leaf(_) =>
      case Node(kind, children) =>
        if depth == limit {
          LeavesAreFlat(children);
        } else {
          CappedHeight(children, depth + 1, limit);
        }
        assert HeightAll(trees) >= Height(trees[0]) == 1 + HeightAll(children);
        if HeightAll(trees) + depth <= limit {
          assert CappedAll(children, depth + 1, limit) == children && capped[0] == trees[0];
          assert capped[1..] == trees[1..];
          assert capped == [capped[0]] + capped[1..] && trees == [trees[0]] + trees[1..];
        }
    }
  }

  // ----- weaving one tree after another into the node that is open

  /** `more` was added to the open node, from the tokens between where `p` and `q` are. */
  ghost predicate Grown(p: Progress, q: Progress, more: seq<Green>, input: seq<Lexeme>) {
    && p.at <= q.at <= End(input)
    && q == WithChildren(p, more).(at := q.at, flattened := q.flattened)
    && Matches(TokensAll(more), input[p.at..q.at])
  }

  lemma {:induction false} GrownTwice(p: Progress, q: Progress, r: Progress, a: seq<Green>, b: seq<Green>, input: seq<Lexeme>)
    requires Grown(p, q, a, input) && Grown(q, r, b, input)
    ensures Grown(p, r, a + b, input)
  {
    WithChildrenTwice(p, a, b);
    TokensAllAppend(a, b);
    MatchesAppend(TokensAll(a), input[p.at..q.at], TokensAll(b), input[q.at..r.at]);
    assert input[p.at..r.at] == input[p.at..q.at] + input[q.at..r.at];
  }

  lemma {:induction false} MatchesAppend(a: seq<Green>, x: seq<Lexeme>, b: seq<Green>, y: seq<Lexeme>)
    requires Matches(a, x) && Matches(b, y)
    ensures Matches(a + b, x + y)
  {
  }

  lemma {:induction false} GrownKeeps(p: Progress, q: Progress, more: seq<Green>, input: seq<Lexeme>)
    requires Grown(p, q, more, input) && p.open != []
    ensures |q.open| == |p.open| && q.depth == p.depth && q.flattening == p.flattening
  {
  }

  /** Ready for more trees in the open node, with the tokens they take still ahead. */
  ghost predicate Ready(p: Progress, input: seq<Lexeme>, limit: nat, tokens: seq<Tree>) {
    && WellFormed(input) && p.open != [] && p.depth == |p.open| && p.at <= End(input)
    && (if p.flattening == 0 then p.depth < limit else p.depth == limit)
    && |tokens| <= Significant(input, p.at) && TakesNoTrivia(tokens)
  }

  /** What the trees woven in look like bare. */
  function Expected(trees: seq<Tree>, p: Progress, limit: nat): seq<Tree> {
    if p.flattening > 0 then LeavesOfAll(trees) else CappedAll(trees, p.depth + 1, limit)
  }

  /** Every token is somewhere, so that a flattened node is too. */
  predicate Spanned(input: seq<Lexeme>) {
    input != [] && input[|input| - 1].kind.Eof? && forall i :: 0 <= i < |input| ==> input[i].span.Some?
  }

  /** Flattening is reported once, and exactly where a node would sit at the limit. */
  ghost predicate Reported(p: Progress, q: Progress, input: seq<Lexeme>, limit: nat, height: nat) {
    && (p.flattened.Some? ==> q.flattened == p.flattened)
    && (p.flattening > 0 || p.depth + height < limit ==> q.flattened == p.flattened)
    && (p.flattening == 0 && limit <= p.depth + height && Spanned(input) ==> q.flattened.Some?)
  }

  lemma {:induction false} TriviaEmitted(p: Progress, input: seq<Lexeme>, count: nat)
    requires WellFormed(input) && p.open != [] && p.at <= End(input) && count <= TriviaRun(input, p.at)
    ensures Grown(p, EmitMany(p, input, count), Build.Leaves(input, p.at, p.at + count), input)
    ensures BareAll(Build.Leaves(input, p.at, p.at + count)) == []
    ensures EmitMany(p, input, count).flattened == p.flattened
    ensures EmitMany(p, input, count).at == p.at + count
    ensures Significant(input, p.at + count) == Significant(input, p.at)
  {
    assert forall i :: p.at <= i < p.at + count ==> IsTrivia(input[i].kind);
    EmitsMany(p, input, count);
    TriviaLeaves(input, p.at, p.at + count);
  }

  lemma {:induction false} TrailingGrows(p: Progress, input: seq<Lexeme>)
    requires WellFormed(input) && p.open != [] && p.depth > 0 && p.at <= End(input)
    ensures exists more :: Grown(p, EmitTrailing(p, input), more, input) && BareAll(more) == []
    ensures EmitTrailing(p, input).flattened == p.flattened
    ensures Significant(input, EmitTrailing(p, input).at) == Significant(input, p.at)
  {
    var keep := if p.at == 0 then 0 else Trailing(input, p.at);
    TriviaEmitted(p, input, keep);
  }

  lemma {:induction false} TriviaGrows(p: Progress, input: seq<Lexeme>)
    requires WellFormed(input) && p.open != [] && p.at <= End(input)
    ensures exists more :: Grown(p, EmitTrivia(p, input), more, input) && BareAll(more) == []
    ensures EmitTrivia(p, input).flattened == p.flattened
    ensures Significant(input, EmitTrivia(p, input).at) == Significant(input, p.at)
  {
    TriviaEmitted(p, input, TriviaRun(input, p.at));
  }

  lemma {:induction false} TokenGrows(p: Progress, kind: Kind, input: seq<Lexeme>)
    requires WellFormed(input) && p.open != [] && p.at < |input| && IsSignificant(input[p.at]) && !IsTrivia(kind)
    ensures var more := [GreenToken(kind, input[p.at].text)];
      Grown(p, EmitToken(p, input, kind), more, input) && BareAll(more) == [Leaf(kind)]
  {
    var more := [GreenToken(kind, input[p.at].text)];
    assert TokensAll(more) == Tokens(more[0]) + TokensAll([]) == more;
    assert BareAll(more) == Bare(more[0]) + BareAll([]) == [Leaf(kind)];
    assert input[p.at..p.at + 1] == [input[p.at]];
  }

  lemma {:induction false} WeaveToken(p: Progress, kind: Kind, input: seq<Lexeme>, limit: nat)
    returns (q: Progress, more: seq<Green>)
    requires Ready(p, input, limit, [Leaf(kind)])
    ensures OnToken(p, input, kind) == Some(q) && Grown(p, q, more, input) && BareAll(more) == [Leaf(kind)]
    ensures q.flattened == p.flattened && Significant(input, q.at) == Significant(input, p.at) - 1
  {
    TriviaGrows(p, input);
    EmitManyAt(p, input);
    var r := EmitTrivia(p, input);
    var trivia :| Grown(p, r, trivia, input) && BareAll(trivia) == [];
    assert [Leaf(kind)][0] == Leaf(kind) && r.at < |input| && IsSignificant(input[r.at]);
    q := EmitToken(r, input, kind);
    var token := [GreenToken(kind, input[r.at].text)];
    TokenGrows(r, kind, input);
    more := trivia + token;
    GrownTwice(p, r, q, trivia, token, input);
    BareAllAppend(trivia, token);
  }

  lemma {:induction false} FeedOne(p: Progress, input: seq<Lexeme>, limit: nat, event: Event, q: Progress, rest: seq<Event>)
    requires p.at <= |input| && rest != []
    requires OnEvent(p, input, limit, event, false) == Some(q) && q.at <= |input|
    ensures Feed(p, input, limit, [event] + rest) == Feed(q, input, limit, rest)
  {
    assert ([event] + rest)[1..] == rest;
  }

  lemma {:induction false} TakesParts(a: seq<Tree>, b: seq<Tree>)
    requires TakesNoTrivia(a + b)
    ensures TakesNoTrivia(a) && TakesNoTrivia(b)
  {
    assert forall i :: 0 <= i < |a| ==> a[i] == (a + b)[i];
    assert forall i :: 0 <= i < |b| ==> b[i] == (a + b)[|a| + i];
  }

  /** All that weaving `trees` in comes to, apart from the events it takes. */
  ghost predicate Woven(p: Progress, q: Progress, more: seq<Green>, trees: seq<Tree>, input: seq<Lexeme>, limit: nat) {
    && Grown(p, q, more, input) && BareAll(more) == Expected(trees, p, limit)
    && Significant(input, q.at) == Significant(input, p.at) - |LeavesOfAll(trees)|
    && Reported(p, q, input, limit, HeightAll(trees))
  }

  lemma {:induction false} WovenNone(p: Progress, input: seq<Lexeme>, limit: nat)
    requires p.open != [] && p.at <= End(input) && (p.flattening == 0 ==> p.depth < limit)
    ensures Woven(p, p, [], [], input, limit)
  {
    assert p.open[|p.open| - 1].children + [] == p.open[|p.open| - 1].children;
  }

  lemma {:induction false} WovenOne(p: Progress, q: Progress, more: seq<Green>, tree: Tree, input: seq<Lexeme>, limit: nat)
    requires Woven(p, q, more, [tree], input, limit)
    ensures LeavesOfAll([tree]) == LeavesOf(tree) && HeightAll([tree]) == Height(tree)
    ensures CappedAll([tree], p.depth + 1, limit) == [Capped(tree, p.depth + 1, limit)]
  {
  }

  lemma {:induction false} WovenLeaf(kind: Kind, depth: nat, limit: nat)
    ensures LeavesOfAll([Leaf(kind)]) == [Leaf(kind)] && CappedAll([Leaf(kind)], depth, limit) == [Leaf(kind)]
  {
    assert LeavesOf(Leaf(kind)) == [Leaf(kind)] && Capped(Leaf(kind), depth, limit) == Leaf(kind);
  }

  lemma {:induction false} WovenJoin(p: Progress, r: Progress, q: Progress, tree: Tree, trees: seq<Tree>,
                                     first: seq<Green>, others: seq<Green>, input: seq<Lexeme>, limit: nat)
    requires p.open != [] && Woven(p, r, first, [tree], input, limit) && Woven(r, q, others, trees, input, limit)
    ensures Woven(p, q, first + others, [tree] + trees, input, limit)
  {
    GrownKeeps(p, r, first, input);
    GrownTwice(p, r, q, first, others, input);
    BareAllAppend(first, others);
    WovenOne(p, r, first, tree, input, limit);
    assert ([tree] + trees)[1..] == trees;
  }

  lemma {:induction false} ReadyAgain(p: Progress, r: Progress, tree: Tree, trees: seq<Tree>,
                                      first: seq<Green>, input: seq<Lexeme>, limit: nat)
    requires Ready(p, input, limit, LeavesOfAll([tree] + trees)) && Woven(p, r, first, [tree], input, limit)
    ensures Ready(r, input, limit, LeavesOfAll(trees))
  {
    GrownKeeps(p, r, first, input);
    WovenOne(p, r, first, tree, input, limit);
    assert ([tree] + trees)[1..] == trees;
    TakesParts(LeavesOf(tree), LeavesOfAll(trees));
  }

  lemma {:induction false} WeaveAll(p: Progress, trees: seq<Tree>, rest: seq<Event>, input: seq<Lexeme>, limit: nat)
    returns (q: Progress, more: seq<Green>)
    requires Ready(p, input, limit, LeavesOfAll(trees)) && rest != []
    ensures q.at <= |input| && Feed(p, input, limit, PreorderAll(trees) + rest) == Feed(q, input, limit, rest)
    ensures Woven(p, q, more, trees, input, limit)
    decreases trees, 0
  {
    if trees == [] {
      q, more := p, [];
      assert PreorderAll(trees) + rest == rest;
      WovenNone(p, input, limit);
    } else {
      var tree, others := trees[0], trees[1..];
      var after := PreorderAll(others) + rest;
      assert trees == [tree] + others;
      assert PreorderAll(trees) + rest == Preorder(tree) + after;
      TakesParts(LeavesOf(tree), LeavesOfAll(others));
      var r, first := Weave(p, tree, after, input, limit);
      ReadyAgain(p, r, tree, others, first, input, limit);
      var s, later := WeaveAll(r, others, rest, input, limit);
      WovenJoin(p, r, s, tree, others, first, later, input, limit);
      q, more := s, first + later;
    }
  }

  lemma {:induction false} Weave(p: Progress, tree: Tree, rest: seq<Event>, input: seq<Lexeme>, limit: nat)
    returns (q: Progress, more: seq<Green>)
    requires Ready(p, input, limit, LeavesOf(tree)) && rest != []
    ensures q.at <= |input| && Feed(p, input, limit, Preorder(tree) + rest) == Feed(q, input, limit, rest)
    ensures Woven(p, q, more, [tree], input, limit)
    decreases tree, 1
  {
    match tree
    case Leaf(kind) =>
      q, more := WeaveToken(p, kind, input, limit);
      WovenLeaf(kind, p.depth + 1, limit);
      assert HeightAll([tree]) == 0;
      FeedOne(p, input, limit, Token(kind), q, rest);
    case Node(kind, children) =>
      var inside := PreorderAll(children) + ([Finish] + rest);
      assert Preorder(tree) + rest == [Start(kind, None)] + inside;
      var started := OnStart(p, input, limit, kind);
      var before := WeaveStart(p, kind, children, input, limit);
      FeedOne(p, input, limit, Start(kind, None), started, inside);
      var filled, held := WeaveAll(started, children, [Finish] + rest, input, limit);
      q, more := WeaveFinish(p, kind, children, EmitTrailing(p, input), before,
                             started, filled, held, input, limit);
      WovenNode(p, started, filled, q, kind, children, more, held, input, limit);
      FeedOne(filled, input, limit, Finish, q, rest);
  }

  lemma {:induction false} WovenNode(p: Progress, started: Progress, filled: Progress, q: Progress, kind: Kind,
                                     children: seq<Tree>, more: seq<Green>, held: seq<Green>, input: seq<Lexeme>, limit: nat)
    requires Ready(p, input, limit, LeavesOfAll(children)) && Started(p, started, input, limit, children)
    requires Woven(started, filled, held, children, input, limit)
    requires Grown(p, q, more, input) && q.flattened == filled.flattened
    requires BareAll(more) ==
      if p.flattening > 0 then LeavesOfAll(children) else [Capped(Node(kind, children), p.depth + 1, limit)]
    requires Significant(input, q.at) == Significant(input, filled.at)
    ensures Woven(p, q, more, [Node(kind, children)], input, limit)
  {
    OneNode(kind, children, p.depth + 1, limit);
  }

  lemma {:induction false} OneNode(kind: Kind, children: seq<Tree>, depth: nat, limit: nat)
    ensures var tree := Node(kind, children);
      && LeavesOfAll([tree]) == LeavesOfAll(children)
      && HeightAll([tree]) == 1 + HeightAll(children)
      && CappedAll([tree], depth, limit) == [Capped(tree, depth, limit)]
  {
    var tree := Node(kind, children);
    assert LeavesOf(tree) + LeavesOfAll([]) == LeavesOfAll(children);
  }

  /** What opening a node leaves: more to weave inside it, and flattening begun at the limit. */
  ghost predicate Started(p: Progress, started: Progress, input: seq<Lexeme>, limit: nat, children: seq<Tree>) {
    && started.at <= |input| && Ready(started, input, limit, LeavesOfAll(children))
    && Significant(input, started.at) == Significant(input, p.at)
    && (p.flattened.Some? ==> started.flattened == p.flattened)
    && (p.flattening > 0 || p.depth + 1 < limit ==> started.flattened == p.flattened)
    && (p.flattening == 0 && p.depth + 1 == limit && Spanned(input) ==> started.flattened.Some?)
    && (started.flattening == 0 <==> p.flattening == 0 && p.depth + 1 < limit)
    && (started.flattening == 0 ==> started.depth == p.depth + 1)
  }

  lemma {:induction false} WeaveStart(p: Progress, kind: Kind, children: seq<Tree>, input: seq<Lexeme>, limit: nat)
    returns (before: seq<Green>)
    requires Ready(p, input, limit, LeavesOfAll(children))
    ensures var q := EmitTrailing(p, input);
      && Grown(p, q, before, input) && BareAll(before) == []
      && Significant(input, q.at) == Significant(input, p.at) && q.flattened == p.flattened
    ensures Started(p, OnStart(p, input, limit, kind), input, limit, children)
    ensures Begun(p, kind, EmitTrailing(p, input), OnStart(p, input, limit, kind), limit)
  {
    TrailingGrows(p, input);
    before :| Grown(p, EmitTrailing(p, input), before, input) && BareAll(before) == [];
    var q := EmitTrailing(p, input);
    if p.flattening == 0 && p.depth + 1 == limit && Spanned(input) {
      assert q.at + TriviaRun(input, q.at) < |input| by {
        assert !IsTrivia(input[|input| - 1].kind);
      }
    }
  }

  /** What opening a node makes of the builder, once what trails the token before is in. */
  ghost predicate Begun(p: Progress, kind: Kind, trailed: Progress, started: Progress, limit: nat) {
    && trailed.open != [] && trailed.depth == |trailed.open| == p.depth && trailed.flattening == p.flattening
    && started.flattening == (
         if p.flattening > 0 then p.flattening + 1 else if p.depth + 1 == limit then 1 else 0)
    && started == (if p.flattening > 0 then trailed else Opened(trailed, NodeKind(p, kind, limit))).(
         flattening := started.flattening, flattened := started.flattened)
  }

  function NodeKind(p: Progress, kind: Kind, limit: nat): Kind {
    if p.depth + 1 == limit then Verbatim else kind
  }

  lemma {:induction false} WeaveFinish(p: Progress, kind: Kind, children: seq<Tree>, trailed: Progress, before: seq<Green>,
                                       started: Progress, filled: Progress, held: seq<Green>, input: seq<Lexeme>, limit: nat)
    returns (q: Progress, more: seq<Green>)
    requires WellFormed(input) && p.open != [] && Begun(p, kind, trailed, started, limit)
    requires Grown(p, trailed, before, input) && BareAll(before) == []
    requires Grown(started, filled, held, input) && BareAll(held) == Expected(children, started, limit)
    ensures OnFinish(filled, input, false) == Some(q) && q.at <= |input| && q.flattened == filled.flattened
    ensures Grown(p, q, more, input)
    ensures BareAll(more) ==
      if p.flattening > 0 then LeavesOfAll(children) else [Capped(Node(kind, children), p.depth + 1, limit)]
    ensures Significant(input, q.at) == Significant(input, filled.at)
  {
    GrownKeeps(started, filled, held, input);
    TrailingGrows(filled, input);
    var end := EmitTrailing(filled, input);
    var after :| Grown(filled, end, after, input) && BareAll(after) == [];
    GrownKeeps(filled, end, after, input);
    GrownTwice(started, filled, end, held, after, input);
    q := OnFinish(filled, input, false).value;
    var added := FinishGrows(p, kind, trailed, started, end, q, held + after, input, limit);
    more := before + added;
    BareAllAppend(held, after);
    BareAllAppend(before, added);
    GrownTwice(p, trailed, q, before, added, input);
    assert BareAll(held + after) == Expected(children, started, limit) by {
      assert BareAll(held) + [] == BareAll(held);
    }
    assert BareAll(more) == BareAll(added) by {
      assert [] + BareAll(added) == BareAll(added);
    }
    if p.flattening == 0 {
      FinishBare(p, kind, children, started, limit);
    }
  }

  lemma {:induction false} FinishBare(p: Progress, kind: Kind, children: seq<Tree>, started: Progress, limit: nat)
    requires started.flattening == 0 ==> started.depth == p.depth + 1
    requires started.flattening == if p.depth + 1 == limit then 1 else 0
    ensures Node(NodeKind(p, kind, limit), Expected(children, started, limit)) ==
      Capped(Node(kind, children), p.depth + 1, limit)
  {
  }

  /** Closing what `started` opened adds one node, or what it holds if it was left out. */
  lemma {:induction false} FinishGrows(p: Progress, kind: Kind, trailed: Progress, started: Progress, end: Progress,
                                       q: Progress, inside: seq<Green>, input: seq<Lexeme>, limit: nat)
    returns (added: seq<Green>)
    requires Begun(p, kind, trailed, started, limit)
    requires Grown(started, end, inside, input) && end.open != [] && end.depth > 0
    requires q == if p.flattening > 0 then end.(flattening := p.flattening) else Closed(end.(flattening := 0))
    ensures Grown(trailed, q, added, input) && q.flattened == end.flattened && q.at == end.at
    ensures BareAll(added) == if p.flattening > 0 then BareAll(inside)
      else [Node(NodeKind(p, kind, limit), BareAll(inside))]
  {
    if p.flattening > 0 {
      added := inside;
    } else {
      var node := GreenNode(NodeKind(p, kind, limit), inside);
      NodeGrows(trailed, started, end, q, node, input);
      added := [node];
    }
  }

  /** Opening a node, growing inside it and closing it grows the node around it by one. */
  lemma {:induction false} NodeGrows(p: Progress, started: Progress, filled: Progress, q: Progress, node: Green, input: seq<Lexeme>)
    requires p.open != [] && node.GreenNode? && p.depth == |p.open|
    requires started == Opened(p, node.kind).(flattening := started.flattening, flattened := started.flattened)
    requires Grown(started, filled, node.children, input) && filled.open != [] && filled.depth > 0
    requires q == Closed(filled.(flattening := p.flattening))
    ensures Grown(p, q, [node], input) && BareAll([node]) == Bare(node)
  {
    assert [] + node.children == node.children;
    assert filled.open == p.open + [Pending(node.kind, node.children)];
    assert filled.open[..|p.open|] == p.open;
    assert TokensAll([node]) == Tokens(node) + TokensAll([]) == TokensAll(node.children);
    assert BareAll([node]) == Bare(node) + BareAll([]) == Bare(node);
  }

  // ----- the whole tree

  /** What building `tree` from `input` promises of the tree it makes. */
  ghost predicate Built(tree: Tree, input: seq<Lexeme>, limit: nat, green: Green, flattened: Option<nat>) {
    && Bare(green) == [Capped(tree, 1, limit)]
    && Matches(Tokens(green), input[..End(input)])
    && GreenHeight(green) <= limit
    && (Height(tree) < limit ==> flattened.None?)
    && (limit <= Height(tree) && Spanned(input) ==> flattened.Some?)
  }

  /** The stream has one root, and takes each token that is not trivia once. */
  ghost predicate Buildable(tree: Tree, input: seq<Lexeme>) {
    && tree.Node? && WellFormed(input)
    && TakesNoTrivia(LeavesOf(tree)) && |LeavesOf(tree)| == Significant(input, 0)
  }

  /** Building is lossless and bounded in depth, and panics on no token and no event. */
  lemma {:induction false} BuildTheorem(tree: Tree, input: seq<Lexeme>, limit: nat)
    returns (green: Green, flattened: Option<nat>)
    requires Buildable(tree, input) && limit > 0
    ensures Feed(NOTHING, input, limit, Preorder(tree)) ==
      Some(Progress(End(input), 0, 0, flattened, [green], []))
    ensures Built(tree, input, limit, green, flattened)
  {
    var children := tree.children;
    var started := OnStart(NOTHING, input, limit, tree.kind);
    assert Preorder(tree) == [Start(tree.kind, None)] + (PreorderAll(children) + [Finish]);
    FeedOne(NOTHING, input, limit, Start(tree.kind, None), started, PreorderAll(children) + [Finish]);
    assert started.open == [Pending(NodeKind(NOTHING, tree.kind, limit), [])];
    RootReady(started, input, limit, children);
    var filled, held := WeaveAll(started, children, [Finish], input, limit);
    green := RootFinish(started, filled, held, input);
    flattened := filled.flattened;
    assert [Finish][1..] == [];
    RootBuilt(tree, input, limit, green, started, filled);
  }

  /** Finishing the root takes in the trivia left, and with nothing left to take that is all there is. */
  lemma {:induction false} RootFinish(started: Progress, filled: Progress, held: seq<Green>, input: seq<Lexeme>)
    returns (green: Green)
    requires WellFormed(input) && Grown(started, filled, held, input) && Significant(input, filled.at) == 0
    requires started.at == 0 && started.depth == 1 && started.flattening <= 1 && started.roots == []
    requires |started.open| == 1 && started.open[0].children == []
    ensures OnFinish(filled, input, true) == Some(Progress(End(input), 0, 0, filled.flattened, [green], []))
    ensures green.GreenNode? && green.kind == started.open[0].kind && BareAll(green.children) == BareAll(held)
    ensures Matches(TokensAll(green.children), input[..End(input)])
  {
    hide EmitMany, WellFormed, Matches;
    GrownKeeps(started, filled, held, input);
    TriviaGrows(filled, input);
    EmitManyAt(filled, input);
    var end := EmitTrivia(filled, input);
    var after :| Grown(filled, end, after, input) && BareAll(after) == [];
    GrownTwice(started, filled, end, held, after, input);
    GrownKeeps(started, end, held + after, input);
    AllTaken(input, end.at);
    BareAllAppend(held, after);
    assert BareAll(held) + [] == BareAll(held) && [] + (held + after) == held + after;
    green := GreenNode(started.open[0].kind, held + after);
    assert end.open == [Pending(green.kind, green.children)];
    RootCloses(end, green);
  }

  lemma {:induction false} RootCloses(end: Progress, green: Green)
    requires green.GreenNode? && end.open == [Pending(green.kind, green.children)]
    requires end.roots == [] && end.depth == 1
    ensures Closed(end.(flattening := 0)) == Progress(end.at, 0, 0, end.flattened, [green], [])
  {
    assert end.open[..0] == [] && [] + [green] == [green];
  }

  lemma {:induction false} RootReady(started: Progress, input: seq<Lexeme>, limit: nat, children: seq<Tree>)
    requires WellFormed(input) && limit > 0 && TakesNoTrivia(LeavesOfAll(children))
    requires |LeavesOfAll(children)| == Significant(input, 0)
    requires started.depth == 1 == |started.open| && started.at == 0
    requires started.flattening == if limit == 1 then 1 else 0
    ensures Ready(started, input, limit, LeavesOfAll(children))
  {
  }

  /** With nothing left to take and no trivia next, the end of the input is reached. */
  lemma {:induction false} AllTaken(input: seq<Lexeme>, at: nat)
    requires WellFormed(input) && at <= End(input) && Significant(input, at) == 0
    requires at < |input| ==> !IsTrivia(input[at].kind)
    ensures at == End(input)
  {
  }

  lemma {:induction false} RootBuilt(tree: Tree, input: seq<Lexeme>, limit: nat, green: Green, started: Progress, filled: Progress)
    requires tree.Node? && limit > 0 && green.GreenNode?
    requires green.kind == NodeKind(NOTHING, tree.kind, limit)
    requires BareAll(green.children) == Expected(tree.children, started, limit)
    requires started.depth == 1 && started.flattening == if limit == 1 then 1 else 0
    requires Matches(TokensAll(green.children), input[..End(input)])
    requires started.flattened == if limit == 1 then FirstSpan(input, 0) else None
    requires Reported(started, filled, input, limit, HeightAll(tree.children))
    ensures Built(tree, input, limit, green, filled.flattened)
  {
    FinishBare(NOTHING, tree.kind, tree.children, started, limit);
    BareKeepsHeight([green]);
    CappedHeight([tree], 1, limit);
    OneNode(tree.kind, tree.children, 1, limit);
    assert [green][1..] == [] && BareAll([green]) == Bare(green) + [] == Bare(green);
    assert GreenHeightAll([green]) == GreenHeight(green);
    if limit == 1 && Spanned(input) {
      assert TriviaRun(input, 0) < |input| by {
        assert !IsTrivia(input[|input| - 1].kind);
      }
    }
  }

  /** A tree that stays under the limit is built just as its events say. */
  lemma {:induction false} ShallowIsKept(tree: Tree, limit: nat)
    requires Height(tree) < limit
    ensures Capped(tree, 1, limit) == tree
  {
    CappedHeight([tree], 1, limit);
    assert HeightAll([tree]) == Height(tree);
    assert CappedAll([tree], 1, limit) == [Capped(tree, 1, limit)];
  }
}
