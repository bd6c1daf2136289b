/**
 * The expression parser itself: it advances over its tokens and goes back, and records
 * every node in the event buffer. What it leaves there is the tree of the expression
 * `Expr.ParseBinary` says, and after an attempt that came to nothing the buffer and the
 * position are what they were.
 */
module ExprParser {
  import opened Wrappers
  import opened Syntax
  import opened Expr
  import opened ExprEvents
  import opened ExprTheorems
  import E = Events
  import EventRuns
  import opened EventBuffer

  /** What follows a `?`, or the first colon of `min:typ:max`: an operand, and after a colon another. */
  datatype PartsOf = PartsOf(first: Option<Expr>, colon: bool, second: Option<Expr>) {
    function Trees(token: Token): seq<Tree> {
      [Read(token)] + TreesOf(first) + (if colon then [Read(Colon)] + TreesOf(second) else [])
    }
  }

  function ParseParts(tokens: seq<Token>, power: nat, coverage: bool): (r: (PartsOf, seq<Token>))
    ensures forall expr {:trigger ParseTernary(expr, tokens, power, coverage)} ::
      ParseTernary(expr, tokens, power, coverage) == (Ternary(expr, r.0.first, r.0.colon, r.0.second), r.1)
    ensures power == 0 ==> forall expr {:trigger ParseMinTypMax(expr, [Colon] + tokens, coverage)} ::
      ParseMinTypMax(expr, [Colon] + tokens, coverage) == (MinTypMax(expr, r.0.first, r.0.colon, r.0.second), r.1)
  {
    assert ([Colon] + tokens)[1..] == tokens;
    var (first, rest) := ParseOptional(tokens, 0, coverage);
    if rest != [] && rest[0] == Colon then
      var (second, after) := ParseOptional(rest[1..], power, coverage);
      (PartsOf(first, true, second), after)
    else
      (PartsOf(first, false, None), rest)
  }

  class Parser {
    const tokens: seq<Token>
    /** Whether it reads a covergroup, where `matches` ends an expression. */
    const coverage: bool
    const events: Events
    var at: nat

    constructor (tokens: seq<Token>, coverage: bool, events: Events)
      ensures this.tokens == tokens && this.coverage == coverage && this.events == events && at == 0
    {
      this.tokens, this.coverage, this.events, at := tokens, coverage, events, 0;
    }

    ghost predicate Valid()
      reads this, events
    {
      events.Valid() && !events.torn && at <= |tokens|
    }

    function Left(): seq<Token>
      requires at <= |tokens|
      reads this
    {
      tokens[at..]
    }

    /** What the node or nothing a rule came back with says of the state it left. */
    ghost predicate Outcome(before: E.State, from: nat, parsed: Option<(Expr, seq<Token>)>, node: Option<Completed>)
      requires from <= |tokens|
      reads this, events
    {
      && Valid()
      && match parsed
         case None => node.None? && at == from && events.State() == before
         case Some((expr, rest)) =>
           && node.Some? && Left() == rest
           && Grew(before, events.State(), [TreeOf(expr)]) && Last(events.State(), node.value, TreeOf(expr))
    }

    method Kind(ahead: nat) returns (token: Option<Token>)
      requires at <= |tokens|
      ensures token == if at + ahead < |tokens| then Some(tokens[at + ahead]) else None
    {
      token := if at + ahead < |tokens| then Some(tokens[at + ahead]) else None;
    }

    /** Records the token at the cursor and moves past it. */
    method Bump()
      requires Valid() && at < |tokens|
      modifies this, events
      ensures Valid() && at == old(at) + 1 && Left() == old(Left())[1..]
      ensures events.State() == E.Step(old(events.State()), E.Take(TokenKind(tokens[old(at)])))
      ensures Grew(old(events.State()), events.State(), [Read(tokens[old(at)])])
    {
      GrewToken(events.State(), TokenKind(tokens[at]));
      events.Token(TokenKind(tokens[at]));
      at := at + 1;
    }

    /** Gives up what was begun since `earlier` and goes back to it. */
    method GoBack(marker: Marker, snapshot: E.Snapshot, position: nat, ghost earlier: E.State)
      requires Valid() && E.Sound(earlier) && !earlier.torn && position <= |tokens|
      requires snapshot == E.SnapshotOf(earlier.buffer)
      requires EventRuns.Since(earlier, events.State())
      requires |events.marks| == |earlier.marks| + 1 && marker.pos == events.marks[|events.marks| - 1]
      modifies this, events
      ensures Valid() && at == position && events.State() == earlier
    {
      GivenUp(earlier, events.State());
      events.Abandon(marker);
      events.Rollback(snapshot, earlier);
      at := position;
    }

    /** Begins a node. */
    method Begin() returns (marker: Marker)
      requires Valid()
      modifies events
      ensures Valid() && E.Enabled(old(events.State()), E.Begin)
      ensures events.State() == E.Step(old(events.State()), E.Begin)
      ensures Grew(events.State(), events.State(), []) && EventRuns.Since(old(events.State()), events.State())
      ensures events.marks == old(events.marks) + [marker.pos]
    {
      CanGoOn(events.State());
      marker := events.Start();
      CanGoOn(events.State());
    }

    /** Begins a node that wraps `lead`. */
    method Wrap(lead: Completed, ghost tree: Tree) returns (marker: Marker)
      requires Valid() && Last(events.State(), lead, tree)
      modifies events
      ensures Valid() && E.Enabled(old(events.State()), E.Precede(lead.pos))
      ensures events.State() == E.Step(old(events.State()), E.Precede(lead.pos))
      ensures Grew(events.State(), events.State(), []) && EventRuns.Since(old(events.State()), events.State())
      ensures events.marks == old(events.marks) + [marker.pos]
    {
      CanPrecede(events.State(), lead.pos);
      marker := events.Precede(lead);
    }

    /** Completes the node begun in `s`, now holding `children`. */
    method CompleteNode(marker: Marker, kind: Kind, ghost s: E.State, ghost children: seq<Tree>) returns (node: Completed)
      requires Valid() && E.Sound(s) && !s.torn && Grew(E.Step(s, E.Begin), events.State(), children)
      requires marker.pos == events.marks[|events.marks| - 1]
      modifies events
      ensures Valid() && Grew(s, events.State(), [Node(kind, children)])
      ensures Last(events.State(), node, Node(kind, children))
    {
      GrewNode(s, events.State(), children, kind);
      node := events.Complete(marker, kind);
    }

    /** Completes the node that wraps `lead`, now holding `more` after it. */
    method CompleteWrap(marker: Marker, kind: Kind, ghost s0: E.State, ghost s: E.State, ghost lead: Completed,
                        ghost tree: Tree, ghost more: seq<Tree>)
      returns (node: Completed)
      requires Valid() && Grew(s0, s, [tree]) && Last(s, lead, tree)
      requires Grew(E.Step(s, E.Precede(lead.pos)), events.State(), more)
      requires marker.pos == events.marks[|events.marks| - 1]
      modifies events
      ensures Valid() && Grew(s0, events.State(), [Node(kind, [tree] + more)])
      ensures Last(events.State(), node, Node(kind, [tree] + more))
    {
      GrewWrap(s0, s, lead, tree, events.State(), more, kind);
      node := events.Complete(marker, kind);
    }

    method Binary(min: nat) returns (node: Option<Completed>)
      requires Valid()
      modifies this, events
      ensures Outcome(old(events.State()), old(at), ParseBinary(old(Left()), min, coverage), node)
      decreases |tokens| - at, 5
    {
      hide E.Sound, E.Step, E.Enabled, E.Consistent, EventRuns.Since, Grew, Last, TokenKind, OperatorKind;
      ghost var s0 := events.State();
      ghost var from := Left();
      node := Unary();
      if node.None? {
        return;
      }
      ghost var lhs := ParseUnary(from, coverage).value.0;
      var lead := node.value;
      while true
        invariant Valid() && old(at) < at
        invariant Grew(s0, events.State(), [TreeOf(lhs)]) && Last(events.State(), lead, TreeOf(lhs))
        invariant Climb(lhs, Left(), min, coverage) == ParseBinary(from, min, coverage).value
        decreases |tokens| - at
      {
        var power := Power();
        if power.None? || power.value.0 < min {
          break;
        }
        var more;
        more, lead, lhs := Operator(lead, min, power.value, s0, lhs);
        if !more {
          break;
        }
      }
      node := Some(lead);
    }

    /** The powers of the operator at the cursor, if it is one that may be taken in. */
    method Power() returns (power: Option<(nat, nat)>)
      requires at <= |tokens|
      ensures power == Continues(Left(), coverage)
    {
      var kind := Kind(0);
      var next := Kind(1);
      if kind == Some(Sign(Star)) && next == Some(RParen) {
        return None;
      }
      if kind == Some(Sign(Matches)) && coverage {
        return None;
      }
      match kind {
        case Some(Sign(op)) => power := Binding(op);
        case _ => power := None;
      }
    }

    /** Wraps `lead` in the operator at the cursor, or takes the attempt back. */
    method Operator(lead: Completed, min: nat, power: (nat, nat), ghost s0: E.State, ghost lhs: Expr)
      returns (more: bool, node: Completed, ghost expr: Expr)
      requires Valid() && Continues(Left(), coverage) == Some(power) && min <= power.0
      requires Grew(s0, events.State(), [TreeOf(lhs)]) && Last(events.State(), lead, TreeOf(lhs))
      modifies this, events
      ensures Valid() && old(at) <= at && (more ==> old(at) < at)
      ensures !more ==> Climb(lhs, old(Left()), min, coverage) == (expr, Left())
      ensures more ==> Climb(lhs, old(Left()), min, coverage) == Climb(expr, Left(), min, coverage)
      ensures Grew(s0, events.State(), [TreeOf(expr)]) && Last(events.State(), node, TreeOf(expr))
      decreases |tokens| - at, 4
    {
      hide E.Sound, E.Step, E.Enabled, E.Consistent, EventRuns.Since, Grew, Last, TokenKind, OperatorKind;
      if tokens[at].op == Question {
        ghost var s := events.State();
        var marker := Wrap(lead, TreeOf(lhs));
        node, expr := Ternary(marker, power.1, s0, s, lead, lhs);
        more := true;
      } else {
        more, node, expr := Infix(lead, power.1, s0, lhs);
      }
    }

    /** Wraps `lead` in the binary operator at the cursor, or takes the attempt back. */
    method Infix(lead: Completed, right: nat, ghost s0: E.State, ghost lhs: Expr)
      returns (more: bool, node: Completed, ghost expr: Expr)
      requires Valid() && at < |tokens| && tokens[at].Sign?
      requires Grew(s0, events.State(), [TreeOf(lhs)]) && Last(events.State(), lead, TreeOf(lhs))
      modifies this, events
      ensures Valid() && old(at) <= at && (more ==> old(at) < at)
      ensures var parsed := ParseBinary(old(Left())[1..], right, coverage);
        if more then parsed.Some? && (expr, Left()) == (Expr.Binary(tokens[old(at)].op, lhs, parsed.value.0), parsed.value.1)
        else parsed.None? && (expr, Left()) == (lhs, old(Left()))
      ensures Grew(s0, events.State(), [TreeOf(expr)]) && Last(events.State(), node, TreeOf(expr))
      decreases |tokens| - at, 3
    {
      hide E.Sound, E.Step, E.Enabled, E.Consistent, EventRuns.Since, Grew, Last, TokenKind, OperatorKind;
      ghost var s, from := events.State(), Left();
      var position, op := at, tokens[at].op;
      var before := events.Snapshot();
      var marker := Wrap(lead, TreeOf(lhs));
      ghost var wrapped := events.State();
      Bump();
      ghost var bumped := events.State();
      var rhs := Binary(right);
      if rhs.None? {
        SinceTwice(s, wrapped, bumped);
        GoBack(marker, before, position, s);
        more, node, expr := false, lead, lhs;
      } else {
        ghost var parsed := ParseBinary(from[1..], right, coverage).value.0;
        GrewTwice(wrapped, bumped, events.State(), [Read(Sign(op))], [TreeOf(parsed)]);
        expr := Expr.Binary(op, lhs, parsed);
        node := CompleteWrap(marker, BIN_EXPR, s0, s, lead, TreeOf(lhs), [Read(Sign(op))] + [TreeOf(parsed)]);
        assert [TreeOf(lhs)] + ([Read(Sign(op))] + [TreeOf(parsed)]) == [TreeOf(lhs), Read(Sign(op)), TreeOf(parsed)];
        more := true;
      }
    }

    /** An operand or nothing, added to the innermost node either way. */
    method Optional(min: nat) returns (node: Option<Completed>)
      requires Valid()
      modifies this, events
      ensures Outcome(old(events.State()), old(at), ParseBinary(old(Left()), min, coverage), node)
      ensures old(at) <= at && Left() == ParseOptional(old(Left()), min, coverage).1
      ensures Grew(old(events.State()), events.State(), TreesOf(ParseOptional(old(Left()), min, coverage).0))
      decreases |tokens| - at, 6
    {
      hide E.Sound, E.Step, E.Enabled, E.Consistent, EventRuns.Since, Grew, Last, TokenKind, OperatorKind;
      GrewNothing(events.State());
      node := Binary(min);
    }

    method Ternary(marker: Marker, right: nat, ghost s0: E.State, ghost s: E.State, ghost lead: Completed, ghost condition: Expr)
      returns (node: Completed, ghost expr: Expr)
      requires Valid() && at < |tokens| && tokens[at] == Sign(Question)
      requires Grew(s0, s, [TreeOf(condition)]) && Last(s, lead, TreeOf(condition))
      requires events.State() == E.Step(s, E.Precede(lead.pos)) && marker.pos == events.marks[|events.marks| - 1]
      modifies this, events
      ensures Valid() && old(at) < at
      ensures ParseTernary(condition, old(Left())[1..], right, coverage) == (expr, Left())
      ensures Grew(s0, events.State(), [TreeOf(expr)]) && Last(events.State(), node, TreeOf(expr))
      decreases |tokens| - at, 3
    {
      hide E.Sound, E.Step, E.Enabled, E.Consistent, EventRuns.Since, Grew, Last, TokenKind, OperatorKind;
      ghost var wrapped := events.State();
      ghost var parts := Parts(right);
      GrewMeans(wrapped, events.State(), parts.Trees(Sign(Question)));
      expr := Expr.Ternary(condition, parts.first, parts.colon, parts.second);
      node := CompleteWrap(marker, TERNARY_EXPR, s0, s, lead, TreeOf(condition), parts.Trees(Sign(Question)));
      assert [TreeOf(condition)] + parts.Trees(Sign(Question)) == TreeOf(expr).children;
    }

    /** Takes the token at the cursor, an operand if any, and after a colon another. */
    method Parts(power: nat) returns (ghost parts: PartsOf)
      requires Valid() && at < |tokens|
      modifies this, events
      ensures Valid() && old(at) < at
      ensures (parts, Left()) == ParseParts(old(Left())[1..], power, coverage)
      ensures Grew(old(events.State()), events.State(), parts.Trees(tokens[old(at)]))
      decreases |tokens| - at, 2
    {
      hide E.Sound, E.Step, E.Enabled, E.Consistent, EventRuns.Since, Grew, Last, TokenKind, OperatorKind;
      ghost var s := events.State();
      ghost var more := [Read(tokens[at])];
      Bump();
      ghost var t, inside := events.State(), Left();
      var _ := Optional(0);
      ghost var first := ParseOptional(inside, 0, coverage).0;
      GrewTwice(s, t, events.State(), more, TreesOf(first));
      more := more + TreesOf(first);
      parts := PartsOf(first, false, None);
      var kind := Kind(0);
      if kind == Some(Colon) {
        t := events.State();
        Bump();
        GrewTwice(s, t, events.State(), more, [Read(Colon)]);
        t, inside := events.State(), Left();
        var _ := Optional(power);
        ghost var second := ParseOptional(inside, power, coverage).0;
        GrewTwice(s, t, events.State(), more + [Read(Colon)], TreesOf(second));
        more := more + [Read(Colon)] + TreesOf(second);
        parts := PartsOf(first, true, second);
      }
      assert more == parts.Trees(tokens[old(at)]);
    }

    method Unary() returns (node: Option<Completed>)
      requires Valid()
      modifies this, events
      ensures Outcome(old(events.State()), old(at), ParseUnary(old(Left()), coverage), node)
      decreases |tokens| - at, 2
    {
      hide E.Sound, E.Step, E.Enabled, E.Consistent, EventRuns.Since, Grew, Last, TokenKind, OperatorKind, ParsePrimary, ParsePostfixes;
      ghost var s, from := events.State(), Left();
      var kind := Kind(0);
      if kind.Some? && kind.value.Sign? && IsUnary(kind.value.op) {
        var position := at;
        var before := events.Snapshot();
        var marker := Begin();
        ghost var begun := events.State();
        Bump();
        ghost var bumped := events.State();
        var operand := Unary();
        if operand.None? {
          SinceTwice(s, begun, bumped);
          GoBack(marker, before, position, s);
          return None;
        }
        ghost var parsed := ParseUnary(from[1..], coverage).value.0;
        GrewTwice(begun, bumped, events.State(), [Read(kind.value)], [TreeOf(parsed)]);
        var completed := CompleteNode(marker, UNARY_EXPR, s, [Read(kind.value)] + [TreeOf(parsed)]);
        assert [Read(kind.value)] + [TreeOf(parsed)] == TreeOf(Expr.Unary(kind.value.op, parsed)).children;
        node := Some(completed);
        return;
      }
      var lhs := Primary();
      if lhs.None? {
        return None;
      }
      var grown := Postfixes(lhs.value, s, ParsePrimary(from, coverage).value.0);
      node := Some(grown);
    }

    method Postfixes(operand: Completed, ghost s0: E.State, ghost primary: Expr) returns (node: Completed)
      requires Valid() && Grew(s0, events.State(), [TreeOf(primary)]) && Last(events.State(), operand, TreeOf(primary))
      modifies this, events
      ensures Valid() && old(at) <= at
      ensures var (expr, rest) := ParsePostfixes(primary, old(Left()));
        rest == Left() && Grew(s0, events.State(), [TreeOf(expr)]) && Last(events.State(), node, TreeOf(expr))
    {
      hide E.Sound, E.Step, E.Enabled, E.Consistent, EventRuns.Since, Grew, Last, TokenKind, OperatorKind;
      node := operand;
      ghost var expr := primary;
      while true
        invariant Valid() && old(at) <= at
        invariant Grew(s0, events.State(), [TreeOf(expr)]) && Last(events.State(), node, TreeOf(expr))
        invariant ParsePostfixes(expr, Left()) == ParsePostfixes(primary, old(Left()))
        decreases |tokens| - at
      {
        var kind := Kind(0);
        if kind.None? || !kind.value.Sign? || !IsPostfix(kind.value.op) {
          break;
        }
        ghost var s, lead := events.State(), node;
        assert Left()[1..] == tokens[at + 1..];
        var marker := Wrap(node, TreeOf(expr));
        Bump();
        node := CompleteWrap(marker, POSTFIX_EXPR, s0, s, lead, TreeOf(expr), [Read(kind.value)]);
        assert [TreeOf(expr)] + [Read(kind.value)] == TreeOf(Expr.Postfix(expr, kind.value.op)).children;
        expr := Expr.Postfix(expr, kind.value.op);
      }
    }

    method Primary() returns (node: Option<Completed>)
      requires Valid()
      modifies this, events
      ensures Outcome(old(events.State()), old(at), ParsePrimary(old(Left()), coverage), node)
      decreases |tokens| - at, 1
    {
      hide E.Sound, E.Step, E.Enabled, E.Consistent, EventRuns.Since, Grew, Last, TokenKind, OperatorKind;
      ghost var s := events.State();
      var kind := Kind(0);
      match kind {
        case Some(Name(_)) =>
          var marker := Begin();
          Bump();
          var completed := CompleteNode(marker, NAME_REF, s, [Read(kind.value)]);
          node := Some(completed);
        case Some(LParen) =>
          var completed := Parenthesized();
          node := Some(completed);
        case _ =>
          node := None;
      }
    }

    method Parenthesized() returns (node: Completed)
      requires Valid() && at < |tokens| && tokens[at] == LParen
      modifies this, events
      ensures Outcome(old(events.State()), old(at), ParsePrimary(old(Left()), coverage), Some(node))
      decreases |tokens| - at, 0
    {
      hide E.Sound, E.Step, E.Enabled, E.Consistent, EventRuns.Since, Grew, Last, TokenKind, OperatorKind, ParseOptional, ParseMinTypMax, ParseBinary;
      ghost var s := events.State();
      var marker := Begin();
      ghost var begun := events.State();
      Bump();
      ghost var children := [Read(LParen)];
      ghost var t, inside := events.State(), Left();
      ghost var inner := Inside();
      GrewTwice(begun, t, events.State(), children, TreesOf(inner));
      children := children + TreesOf(inner);
      var kind := Kind(0);
      ghost var closed := kind == Some(RParen);
      if kind == Some(RParen) {
        t := events.State();
        Bump();
        GrewTwice(begun, t, events.State(), children, [Read(RParen)]);
        children := children + [Read(RParen)];
      }
      node := CompleteNode(marker, PAREN_EXPR, s, children);
      assert Node(PAREN_EXPR, children) == TreeOf(Paren(inner, closed));
    }

    /** What is in parentheses, up to what closes them. */
    method Inside() returns (ghost inner: Option<Expr>)
      requires Valid()
      modifies this, events
      ensures Valid() && old(at) <= at && Grew(old(events.State()), events.State(), TreesOf(inner))
      ensures var (first, rest) := ParseOptional(old(Left()), 0, coverage);
        if first.None? then inner.None? && Left() == rest
        else inner.Some? && (inner.value, Left()) == ParseMinTypMax(first.value, rest, coverage)
      decreases |tokens| - at, 8
    {
      hide E.Sound, E.Step, E.Enabled, E.Consistent, EventRuns.Since, Grew, Last, TokenKind, OperatorKind;
      ghost var s := events.State();
      ghost var first := ParseOptional(Left(), 0, coverage).0;
      var node := Optional(0);
      inner := first;
      if node.Some? {
        ghost var grown := MinTypMax(node.value, s, first.value);
        inner := Some(grown);
      }
    }

    /** Wraps `lead` in `min:typ:max` if a colon follows it. */
    method MinTypMax(lead: Completed, ghost s0: E.State, ghost min: Expr) returns (ghost expr: Expr)
      requires Valid() && Grew(s0, events.State(), [TreeOf(min)]) && Last(events.State(), lead, TreeOf(min))
      modifies this, events
      ensures Valid() && old(at) <= at && Grew(s0, events.State(), [TreeOf(expr)])
      ensures ParseMinTypMax(min, old(Left()), coverage) == (expr, Left())
      decreases |tokens| - at, 7
    {
      hide E.Sound, E.Step, E.Enabled, E.Consistent, EventRuns.Since, Grew, Last, TokenKind, OperatorKind;
      var kind := Kind(0);
      expr := min;
      if kind != Some(Colon) {
        return;
      }
      ghost var s := events.State();
      assert Left() == [Colon] + Left()[1..];
      var marker := Wrap(lead, TreeOf(min));
      ghost var wrapped := events.State();
      ghost var parts := Parts(0);
      GrewMeans(wrapped, events.State(), parts.Trees(Colon));
      expr := Expr.MinTypMax(min, parts.first, parts.colon, parts.second);
      var _ := CompleteWrap(marker, MIN_TYP_MAX_EXPR, s0, s, lead, TreeOf(min), parts.Trees(Colon));
      assert [TreeOf(min)] + parts.Trees(Colon) == TreeOf(expr).children;
    }
  }

  const SOURCE_FILE: Kind := Other(0)

  /**
   * Parses one expression into a buffer of its own and resolves it: the events are those
   * of its tree, and what is left is what the expression did not take in.
   */
  method Parse(tokens: seq<Token>, coverage: bool) returns (resolved: seq<Event>, left: seq<Token>)
    ensures var (expr, rest) := ParseOptional(tokens, 0, coverage);
      left == rest && resolved == Preorder(Node(SOURCE_FILE, TreesOf(expr)))
    ensures Recorded(resolved) + Kinds(left) == Kinds(tokens)
  {
    hide E.Sound, E.Step, E.Enabled, E.Consistent, EventRuns.Since, Grew, Last, TokenKind, OperatorKind;
    hide ParseBinary, Recorded, Kinds, Preorder, PreorderAll, TreesOf;
    var events := new Events();
    var parser := new Parser(tokens, coverage, events);
    assert parser.Left() == tokens;
    Initially();
    var marker := parser.Begin();
    ghost var begun := events.State();
    var _ := parser.Optional(0);
    ghost var children := TreesOf(ParseOptional(tokens, 0, coverage).0);
    GrewMeans(begun, events.State(), children);
    var _ := parser.CompleteNode(marker, SOURCE_FILE, E.INITIAL, children);
    Whole(events.State(), Node(SOURCE_FILE, children));
    resolved := events.Resolve();
    left := parser.tokens[parser.at..];
    NoneLost(tokens, coverage);
  }

  /** The events hold every token taken in, and what is left the others. */
  lemma {:induction false} NoneLost(tokens: seq<Token>, coverage: bool)
    ensures var (expr, rest) := ParseOptional(tokens, 0, coverage);
      Recorded(Preorder(Node(SOURCE_FILE, TreesOf(expr)))) + Kinds(rest) == Kinds(tokens)
  {
    hide ParseBinary, TokenKind, Absorbs, Grown;
    var (expr, rest) := ParseOptional(tokens, 0, coverage);
    OptionalSound(tokens, 0, coverage);
    HoldsOptional(expr);
    HoldsNode(SOURCE_FILE, TreesOf(expr), PrintOptional(expr));
    PreorderOne(Node(SOURCE_FILE, TreesOf(expr)));
    assert Kinds(tokens) == Kinds(PrintOptional(expr)) + Kinds(rest);
  }

  lemma {:induction false} PreorderOne(tree: Tree)
    ensures PreorderAll([tree]) == Preorder(tree)
  {
    assert PreorderAll([tree]) == Preorder(tree) + PreorderAll([]);
  }

  lemma {:induction false} Initially()
    ensures E.Sound(E.INITIAL) && !E.INITIAL.torn
  {
    EventRuns.InitialSound();
  }

  /** What a fresh buffer has grown by is all it denotes. */
  lemma {:induction false} Whole(s: E.State, tree: Tree)
    requires Grew(E.INITIAL, s, [tree])
    ensures s.marks == [] && s.buffer.open == 0 && !s.torn && s.frames != []
    ensures PreorderAll(E.Trees(s.frames[0].children)) == Preorder(tree)
  {
    GrewMeans(E.INITIAL, s, [tree]);
    var built := AddedOne(E.INITIAL, s, tree);
    assert s.frames[0].children == [] + [built] == [built];
    assert E.Trees([built]) == [E.Tree(built)] + E.Trees([]) == [tree];
    PreorderOne(tree);
  }
}
