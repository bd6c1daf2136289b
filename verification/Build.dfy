/**
 * Building the tree: resolved events and every token, trivia included, woven into one
 * tree that leaves no token out and is never deeper than a limit.
 */
module Build {
  import opened Wrappers
  import opened Syntax

  /** A token as the builder reads it, and where it is, if anywhere. */
  datatype Lexeme = Lexeme(kind: Kind, text: string, span: Option<nat>)

  datatype Green =
    | GreenToken(kind: Kind, text: string)
    | GreenNode(kind: Kind, children: seq<Green>)

  datatype Pending = Pending(kind: Kind, children: seq<Green>)

  /**
   * The tree so far and how much of the input is in it. `flattening` counts the open
   * nodes the tree leaves out, the one at the limit included, and `flattened` is where
   * the first of them starts.
   */
  datatype Progress = Progress(
    at: nat, depth: nat, flattening: nat, flattened: Option<nat>,
    roots: seq<Green>, open: seq<Pending>)

  const NOTHING := Progress(0, 0, 0, None, [], [])

  // ----- trivia

  /** How many trivia tokens there are at `at`. */
  function TriviaRun(input: seq<Lexeme>, at: nat): (run: nat)
    ensures at <= |input| ==> at + run <= |input|
    ensures forall i :: at <= i < at + run && i < |input| ==> IsTrivia(input[i].kind)
    ensures at + run < |input| ==> !IsTrivia(input[at + run].kind)
    decreases |input| - at
  {
    if at < |input| && IsTrivia(input[at].kind) then 1 + TriviaRun(input, at + 1) else 0
  }

  predicate EndsLine(lexeme: Lexeme) {
    lexeme.kind.Whitespace? && '\n' in lexeme.text
  }

  /** A token after which nothing more trails: a comment that runs over lines. */
  predicate SpansLines(lexeme: Lexeme) {
    !lexeme.kind.Whitespace? && '\n' in lexeme.text
  }

  /**
   * How many of the trivia tokens at `at` are on the line of the token before them, up
   * to the last comment there.
   */
  function Trailing(input: seq<Lexeme>, at: nat): (keep: nat)
    ensures keep <= TriviaRun(input, at)
    ensures keep > 0 ==> at + keep <= |input| && !input[at + keep - 1].kind.Whitespace?
    ensures forall i :: at <= i < at + keep && i < |input| ==> !EndsLine(input[i])
    decreases |input| - at
  {
    if at >= |input| || !IsTrivia(input[at].kind) || EndsLine(input[at]) then 0
    else if SpansLines(input[at]) then 1
    else
      var more := Trailing(input, at + 1);
      if more > 0 || !input[at].kind.Whitespace? then 1 + more else 0
  }

  /**
   * The token at `i` is a comment on the line of the token before `at`: from `at` to it
   * there is only trivia, which ends no line and holds no other comment that runs over
   * lines.
   */
  predicate Trails(input: seq<Lexeme>, at: nat, i: nat) {
    && at <= i < |input| && !input[i].kind.Whitespace?
    && (forall j :: at <= j <= i ==> IsTrivia(input[j].kind) && !EndsLine(input[j]))
    && (forall j :: at <= j < i ==> !SpansLines(input[j]))
  }

  /** The next `keep` tokens are what there is up to the last such comment. */
  ghost predicate IsTrailing(input: seq<Lexeme>, at: nat, keep: nat) {
    && (keep > 0 ==> Trails(input, at, at + keep - 1))
    && forall i: nat :: Trails(input, at, i) ==> i < at + keep
  }

  lemma {:induction false} TrailingExactly(input: seq<Lexeme>, at: nat)
    ensures IsTrailing(input, at, Trailing(input, at))
    decreases |input| - at
  {
    if at < |input| && IsTrivia(input[at].kind) && !EndsLine(input[at]) && !SpansLines(input[at]) {
      TrailingExactly(input, at + 1);
      forall i: nat | Trails(input, at, i) && at < i ensures Trails(input, at + 1, i) {
      }
    }
  }

  // ----- what each event does

  function WithChildren(p: Progress, more: seq<Green>): Progress {
    if p.open == [] then p.(roots := p.roots + more)
    else
      var top := p.open[|p.open| - 1];
      p.(open := p.open[|p.open| - 1 := top.(children := top.children + more)])
  }

  function EmitToken(p: Progress, input: seq<Lexeme>, kind: Kind): Progress
    requires p.at < |input|
  {
    WithChildren(p, [GreenToken(kind, input[p.at].text)]).(at := p.at + 1)
  }

  /** The next `count` tokens, each as the kind it is. */
  function EmitMany(p: Progress, input: seq<Lexeme>, count: nat): Progress
    requires p.at + count <= |input|
    decreases count
  {
    if count == 0 then p else EmitMany(EmitToken(p, input, input[p.at].kind), input, count - 1)
  }

  function EmitTrivia(p: Progress, input: seq<Lexeme>): Progress
    requires p.at <= |input|
  {
    EmitMany(p, input, TriviaRun(input, p.at))
  }

  function EmitTrailing(p: Progress, input: seq<Lexeme>): Progress
    requires p.at <= |input|
  {
    if p.depth == 0 || p.at == 0 then p else EmitMany(p, input, Trailing(input, p.at))
  }

  function Opened(p: Progress, kind: Kind): Progress {
    p.(open := p.open + [Pending(kind, [])], depth := p.depth + 1)
  }

  function Closed(p: Progress): Progress
    requires p.open != [] && p.depth > 0
  {
    var top := p.open[|p.open| - 1];
    WithChildren(p.(open := p.open[..|p.open| - 1]), [GreenNode(top.kind, top.children)]).(depth := p.depth - 1)
  }

  /** Where the first token that is not trivia is, if it is anywhere. */
  function FirstSpan(input: seq<Lexeme>, at: nat): Option<nat>
    requires at <= |input|
  {
    var first := at + TriviaRun(input, at);
    if first < |input| then input[first].span else None
  }

  function OnStart(p: Progress, input: seq<Lexeme>, limit: nat, kind: Kind): Progress
    requires p.at <= |input|
  {
    var q := EmitTrailing(p, input);
    if q.flattening > 0 then
      q.(flattening := q.flattening + 1)
    else if q.depth + 1 == limit then
      EmitManyAt(p, input);
      Opened(q, Verbatim).(
        flattening := 1,
        flattened := if q.flattened.None? then FirstSpan(input, q.at) else q.flattened)
    else
      Opened(q, kind)
  }

  /** Nothing if the token would be past the end of the input. */
  function OnToken(p: Progress, input: seq<Lexeme>, kind: Kind): Option<Progress>
    requires p.at <= |input|
  {
    var q := EmitTrivia(p, input);
    if q.at < |input| then Some(EmitToken(q, input, kind)) else None
  }

  /** Nothing if no node is open to close. */
  function OnFinish(p: Progress, input: seq<Lexeme>, last: bool): Option<Progress>
    requires p.at <= |input|
  {
    var q := if last then EmitTrivia(p, input) else EmitTrailing(p, input);
    var left := if q.flattening > 0 then q.flattening - 1 else 0;
    var r := q.(flattening := left);
    if left > 0 then Some(r) else if r.open == [] || r.depth == 0 then None else Some(Closed(r))
  }

  lemma EmitManyAt(p: Progress, input: seq<Lexeme>)
    requires p.at <= |input|
    ensures p.at <= EmitTrailing(p, input).at <= |input|
    ensures EmitTrivia(p, input).at == p.at + TriviaRun(input, p.at) <= |input|
  {
    if p.depth != 0 && p.at != 0 {
      EmitsMany(p, input, Trailing(input, p.at));
    }
    EmitsMany(p, input, TriviaRun(input, p.at));
  }

  /** The tokens of `input[from..to]` as leaves, each as the kind it is. */
  function Leaves(input: seq<Lexeme>, from: nat, to: nat): seq<Green>
    requires from <= to <= |input|
  {
    seq(to - from, i requires 0 <= i < to - from => GreenToken(input[from + i].kind, input[from + i].text))
  }

  lemma {:induction false} WithChildrenTwice(p: Progress, a: seq<Green>, b: seq<Green>)
    ensures WithChildren(WithChildren(p, a), b) == WithChildren(p, a + b)
  {
    if p.open == [] {
      assert p.roots + a + b == p.roots + (a + b);
    } else {
      var n := |p.open| - 1;
      assert p.open[n].children + a + b == p.open[n].children + (a + b);
      assert WithChildren(WithChildren(p, a), b).open == WithChildren(p, a + b).open;
    }
  }

  lemma {:induction false} EmitsMany(p: Progress, input: seq<Lexeme>, count: nat)
    requires p.at + count <= |input|
    ensures EmitMany(p, input, count) ==
      WithChildren(p, Leaves(input, p.at, p.at + count)).(at := p.at + count)
    decreases count
  {
    if count == 0 {
      assert Leaves(input, p.at, p.at) == [];
      assert WithChildren(p, []) == p by {
        if p.open != [] {
          assert p.open[|p.open| - 1].children + [] == p.open[|p.open| - 1].children;
        }
      }
    } else {
      var first := [GreenToken(input[p.at].kind, input[p.at].text)];
      var q := EmitToken(p, input, input[p.at].kind);
      EmitsMany(q, input, count - 1);
      WithChildrenTwice(p, first, Leaves(input, p.at + 1, p.at + count));
      assert first + Leaves(input, p.at + 1, p.at + count) == Leaves(input, p.at, p.at + count);
    }
  }

  function OnEvent(p: Progress, input: seq<Lexeme>, limit: nat, event: Event, last: bool): Option<Progress>
    requires p.at <= |input|
  {
    match event
    case Start(kind, _) => Some(OnStart(p, input, limit, kind))
    case Token(kind) => OnToken(p, input, kind)
    case Finish => OnFinish(p, input, last)
    case Tombstone => None
  }

  lemma OnEventAt(p: Progress, input: seq<Lexeme>, limit: nat, event: Event, last: bool)
    requires p.at <= |input|
    ensures OnEvent(p, input, limit, event, last).Some? ==>
      OnEvent(p, input, limit, event, last).value.at <= |input|
  {
    EmitManyAt(p, input);
  }

  /** What feeding `events` to the builder comes to, if none of them is one too many. */
  function Feed(p: Progress, input: seq<Lexeme>, limit: nat, events: seq<Event>): Option<Progress>
    requires p.at <= |input|
    decreases |events|
  {
    if events == [] then Some(p)
    else
      OnEventAt(p, input, limit, events[0], |events| == 1);
      match OnEvent(p, input, limit, events[0], |events| == 1)
      case None => None
      case Some(q) => Feed(q, input, limit, events[1..])
  }
}
