/**
 * The tree an expression is in the syntax tree, and how the calls that record it change
 * the forests: a token or a node added, a node wrapped, an attempt given up.
 */
module ExprEvents {
  import opened Wrappers
  import opened Syntax
  import opened Expr
  import E = Events
  import EventRuns
  import opened EventBuffer

  // The kinds of the nodes the parser completes.
  const NAME_REF: Kind := Other(1)
  const PAREN_EXPR: Kind := Other(2)
  const MIN_TYP_MAX_EXPR: Kind := Other(3)
  const UNARY_EXPR: Kind := Other(4)
  const POSTFIX_EXPR: Kind := Other(5)
  const BIN_EXPR: Kind := Other(6)
  const TERNARY_EXPR: Kind := Other(7)

  /** The kind a token is recorded as, one apart from every node's. */
  function TokenKind(token: Token): Kind {
    match token
    case Name(_) => Other(10)
    case LParen => Other(11)
    case RParen => Other(12)
    case Colon => Other(13)
    case Stop => Other(14)
    case Sign(op) => Other(20 + OperatorKind(op))
  }

  function OperatorKind(op: Operator): nat {
    match op
    case MinusGt => 0 case LtMinusGt => 1 case Question => 2 case PipePipe => 3 case AmpAmp => 4 case Pipe => 5
    case Caret => 6 case TildeCaret => 7 case CaretTilde => 8 case Amp => 9 case EqEq => 10 case BangEq => 11
    case EqEqEq => 12 case BangEqEq => 13 case EqEqQuestion => 14 case BangEqQuestion => 15 case Lt => 16
    case LtEq => 17 case Gt => 18 case GtEq => 19 case LtLt => 20 case GtGt => 21 case LtLtLt => 22
    case GtGtGt => 23 case Plus => 24 case Minus => 25 case Star => 26 case Slash => 27 case Percent => 28
    case StarStar => 29 case Matches => 30 case AmpAmpAmp => 31 case Bang => 32 case Tilde => 33 case TildeAmp => 34
    case TildePipe => 35 case PlusPlus => 36 case MinusMinus => 37
  }

  /** The operator of a kind. */
  function OperatorOf(kind: nat): Operator {
    if kind < 19 then
      match kind
      case 0 => MinusGt case 1 => LtMinusGt case 2 => Question case 3 => PipePipe case 4 => AmpAmp case 5 => Pipe
      case 6 => Caret case 7 => TildeCaret case 8 => CaretTilde case 9 => Amp case 10 => EqEq case 11 => BangEq
      case 12 => EqEqEq case 13 => BangEqEq case 14 => EqEqQuestion case 15 => BangEqQuestion case 16 => Lt
      case 17 => LtEq case _ => Gt
    else
      match kind
      case 19 => GtEq case 20 => LtLt case 21 => GtGt case 22 => LtLtLt
      case 23 => GtGtGt case 24 => Plus case 25 => Minus case 26 => Star case 27 => Slash case 28 => Percent
      case 29 => StarStar case 30 => Matches case 31 => AmpAmpAmp case 32 => Bang case 33 => Tilde
      case 34 => TildeAmp case 35 => TildePipe case 36 => PlusPlus case _ => MinusMinus
  }

  lemma {:induction false} KindOf(op: Operator)
    ensures OperatorOf(OperatorKind(op)) == op
  {
  }

  /** Tokens of one kind are the same operator or punctuation, or both names. */
  lemma {:induction false} KindsApart(a: Token, b: Token)
    requires TokenKind(a) == TokenKind(b)
    ensures a == b || (a.Name? && b.Name?)
  {
    if a.Sign? && b.Sign? {
      KindOf(a.op);
      KindOf(b.op);
    }
  }

  function Read(token: Token): Tree {
    Leaf(TokenKind(token))
  }

  /** The tree an expression is in the syntax tree. */
  function TreeOf(expr: Expr): Tree {
    match expr
    case Operand(id) => Node(NAME_REF, [Read(Name(id))])
    case Paren(inner, closed) =>
      Node(PAREN_EXPR, [Read(LParen)] + TreesOf(inner) + (if closed then [Read(RParen)] else []))
    case MinTypMax(min, typ, second, max) =>
      Node(MIN_TYP_MAX_EXPR,
           [TreeOf(min), Read(Colon)] + TreesOf(typ) + (if second then [Read(Colon)] + TreesOf(max) else []))
    case Unary(op, operand) => Node(UNARY_EXPR, [Read(Sign(op)), TreeOf(operand)])
    case Postfix(operand, op) => Node(POSTFIX_EXPR, [TreeOf(operand), Read(Sign(op))])
    case Binary(op, lhs, rhs) => Node(BIN_EXPR, [TreeOf(lhs), Read(Sign(op)), TreeOf(rhs)])
    case Ternary(condition, yes, colon, no) =>
      Node(TERNARY_EXPR,
           [TreeOf(condition), Read(Sign(Question))] + TreesOf(yes)
           + (if colon then [Read(Colon)] + TreesOf(no) else []))
  }

  function TreesOf(expr: Option<Expr>): seq<Tree> {
    match expr
    case None => []
    case Some(value) => [TreeOf(value)]
  }

  /** The kinds of the tokens that events record, in order. */
  function Recorded(events: seq<Event>): seq<Kind> {
    if events == [] then []
    else (if events[0].Token? then [events[0].kind] else []) + Recorded(events[1..])
  }

  function Kinds(tokens: seq<Token>): seq<Kind> {
    seq(|tokens|, i requires 0 <= i < |tokens| => TokenKind(tokens[i]))
  }

  lemma {:induction false} RecordedAppend(a: seq<Event>, b: seq<Event>)
    ensures Recorded(a + b) == Recorded(a) + Recorded(b)
  {
    if a == [] {
      assert a + b == b;
    } else {
      assert (a + b)[0] == a[0] && (a + b)[1..] == a[1..] + b;
      RecordedAppend(a[1..], b);
    }
  }

  /** The trees hold the tokens, each once, in order, under their kinds. */
  predicate Holds(trees: seq<Tree>, tokens: seq<Token>) {
    Recorded(PreorderAll(trees)) == Kinds(tokens)
  }

  lemma {:induction false} HoldsBoth(a: seq<Tree>, b: seq<Tree>, x: seq<Token>, y: seq<Token>)
    requires Holds(a, x) && Holds(b, y)
    ensures Holds(a + b, x + y)
  {
    hide TokenKind;
    RecordedAll(a, b);
    assert Kinds(x + y) == Kinds(x) + Kinds(y);
  }

  lemma {:induction false} RecordedAll(a: seq<Tree>, b: seq<Tree>)
    ensures Recorded(PreorderAll(a + b)) == Recorded(PreorderAll(a)) + Recorded(PreorderAll(b))
  {
    if a == [] {
      assert a + b == b;
    } else {
      assert (a + b)[0] == a[0] && (a + b)[1..] == a[1..] + b;
      RecordedAll(a[1..], b);
      RecordedAppend(Preorder(a[0]), PreorderAll(a[1..] + b));
      RecordedAppend(Preorder(a[0]), PreorderAll(a[1..]));
    }
  }

  lemma {:induction false} HoldsToken(token: Token)
    ensures Holds([Read(token)], [token])
  {
    hide TokenKind;
    var kind := TokenKind(token);
    assert PreorderAll([Read(token)]) == Preorder(Read(token)) + PreorderAll([]) == [Event.Token(kind)];
    assert Recorded([Event.Token(kind)]) == [kind] + Recorded([]) == Kinds([token]);
  }

  lemma {:induction false} HoldsNode(kind: Kind, children: seq<Tree>, tokens: seq<Token>)
    requires Holds(children, tokens)
    ensures Holds([Node(kind, children)], tokens)
  {
    var tree := Node(kind, children);
    assert PreorderAll([tree]) == Preorder(tree) + PreorderAll([]) == Preorder(tree);
    RecordedAppend([Start(kind, None)] + PreorderAll(children), [Finish]);
    RecordedAppend([Start(kind, None)], PreorderAll(children));
  }

  lemma {:induction false} HoldsParts(a: Option<Expr>, colon: bool, b: Option<Expr>)
    requires Holds(TreesOf(a), PrintOptional(a)) && Holds(TreesOf(b), PrintOptional(b))
    ensures Holds(TreesOf(a) + (if colon then [Read(Colon)] + TreesOf(b) else []),
                  PrintOptional(a) + (if colon then [Colon] + PrintOptional(b) else []))
  {
    hide TokenKind, Holds;
    if colon {
      HoldsToken(Colon);
      HoldsBoth([Read(Colon)], TreesOf(b), [Colon], PrintOptional(b));
      HoldsBoth(TreesOf(a), [Read(Colon)] + TreesOf(b), PrintOptional(a), [Colon] + PrintOptional(b));
    } else {
      assert TreesOf(a) + [] == TreesOf(a) && PrintOptional(a) + [] == PrintOptional(a);
    }
  }

  lemma {:induction false} HoldsNone()
    ensures Holds([], [])
  {
    assert Kinds([]) == [];
  }

  lemma {:induction false} HoldsOptional(expr: Option<Expr>)
    ensures Holds(TreesOf(expr), PrintOptional(expr))
  {
    HoldsNone();
    if expr.Some? {
      HoldsPrint(expr.value);
    }
  }

  /** The tree of an expression holds the tokens it prints as. */
  lemma {:induction false} HoldsPrint(expr: Expr)
    ensures Holds([TreeOf(expr)], Print(expr))
  {
    hide TokenKind, Holds;
    match expr
    case Operand(id) =>
      HoldsToken(Name(id));
      HoldsNode(NAME_REF, [Read(Name(id))], [Name(id)]);
    case Paren(inner, closed) =>
      HoldsToken(LParen);
      HoldsToken(RParen);
      HoldsOptional(inner);
      HoldsNone();
      HoldsBoth([Read(LParen)], TreesOf(inner), [LParen], PrintOptional(inner));
      var last, token := if closed then [Read(RParen)] else [], if closed then [RParen] else [];
      HoldsBoth([Read(LParen)] + TreesOf(inner), last, [LParen] + PrintOptional(inner), token);
      HoldsNode(PAREN_EXPR, [Read(LParen)] + TreesOf(inner) + last, Print(expr));
    case MinTypMax(min, typ, second, max) =>
      HoldsPrint(min);
      HoldsOptional(typ);
      HoldsOptional(max);
      HoldsRest(MIN_TYP_MAX_EXPR, min, Colon, typ, second, max);
    case Unary(op, operand) =>
      HoldsPrint(operand);
      HoldsToken(Sign(op));
      HoldsBoth([Read(Sign(op))], [TreeOf(operand)], [Sign(op)], Print(operand));
      assert [Read(Sign(op))] + [TreeOf(operand)] == TreeOf(expr).children;
      HoldsNode(UNARY_EXPR, TreeOf(expr).children, Print(expr));
    case Postfix(operand, op) =>
      HoldsPrint(operand);
      HoldsToken(Sign(op));
      HoldsBoth([TreeOf(operand)], [Read(Sign(op))], Print(operand), [Sign(op)]);
      assert [TreeOf(operand)] + [Read(Sign(op))] == TreeOf(expr).children;
      HoldsNode(POSTFIX_EXPR, TreeOf(expr).children, Print(expr));
    case Binary(op, lhs, rhs) =>
      HoldsPrint(lhs);
      HoldsPrint(rhs);
      HoldsToken(Sign(op));
      HoldsBoth([TreeOf(lhs)], [Read(Sign(op))], Print(lhs), [Sign(op)]);
      HoldsBoth([TreeOf(lhs)] + [Read(Sign(op))], [TreeOf(rhs)], Print(lhs) + [Sign(op)], Print(rhs));
      assert [TreeOf(lhs)] + [Read(Sign(op))] + [TreeOf(rhs)] == TreeOf(expr).children;
      HoldsNode(BIN_EXPR, TreeOf(expr).children, Print(expr));
    case Ternary(condition, yes, colon, no) =>
      HoldsPrint(condition);
      HoldsOptional(yes);
      HoldsOptional(no);
      HoldsRest(TERNARY_EXPR, condition, Sign(Question), yes, colon, no);
  }

  /** The same of an operand, a token and what may follow it. */
  lemma {:induction false} HoldsRest(kind: Kind, first: Expr, token: Token, a: Option<Expr>, colon: bool, b: Option<Expr>)
    requires Holds([TreeOf(first)], Print(first))
    requires Holds(TreesOf(a), PrintOptional(a)) && Holds(TreesOf(b), PrintOptional(b))
    ensures Holds([Node(kind, [TreeOf(first), Read(token)] + TreesOf(a) + (if colon then [Read(Colon)] + TreesOf(b) else []))],
                  Print(first) + [token] + PrintOptional(a) + (if colon then [Colon] + PrintOptional(b) else []))
  {
    hide TokenKind, Holds;
    HoldsToken(token);
    HoldsParts(a, colon, b);
    HoldsBoth([TreeOf(first)], [Read(token)], Print(first), [token]);
    var trees := TreesOf(a) + (if colon then [Read(Colon)] + TreesOf(b) else []);
    var tokens := PrintOptional(a) + (if colon then [Colon] + PrintOptional(b) else []);
    HoldsBoth([TreeOf(first)] + [Read(token)], trees, Print(first) + [token], tokens);
    var children := [TreeOf(first), Read(token)] + TreesOf(a) + (if colon then [Read(Colon)] + TreesOf(b) else []);
    var all := Print(first) + [token] + PrintOptional(a) + (if colon then [Colon] + PrintOptional(b) else []);
    assert children == [TreeOf(first)] + [Read(token)] + trees;
    assert all == Print(first) + [token] + tokens;
    HoldsNode(kind, children, all);
  }

  // ----- what a step of the parser does to the forests

  /** `t` is what came of `s`, with `more` added to the node that was innermost. */
  ghost predicate Grew(s: E.State, t: E.State, more: seq<Tree>) {
    && E.Sound(s) && E.Sound(t) && !s.torn && !t.torn
    && EventRuns.Since(s, t) && t.marks == s.marks
    && exists placed :: t.frames == E.Extended(s.frames, placed) && E.Trees(placed) == more
  }

  /** The last child of the innermost node is the node at `node`, and can be preceded. */
  ghost predicate Last(s: E.State, node: Completed, tree: Tree) {
    && E.Sound(s) && !s.torn && E.Enabled(s, E.Precede(node.pos))
    && var children := s.frames[|s.frames| - 1].children;
       && children != [] && children[|children| - 1].Built? && children[|children| - 1].at == node.pos
       && E.Tree(children[|children| - 1]) == tree
  }

  lemma {:induction false} TreesAppend(a: seq<E.Placed>, b: seq<E.Placed>)
    ensures E.Trees(a + b) == E.Trees(a) + E.Trees(b)
    decreases a
  {
    if a == [] {
      assert a + b == b;
    } else {
      assert (a + b)[0] == a[0] && (a + b)[1..] == a[1..] + b;
      TreesAppend(a[1..], b);
    }
  }

  lemma {:induction false} SinceItself(s: E.State)
    ensures EventRuns.Since(s, s)
  {
  }

  lemma {:induction false} SinceTwice(a: E.State, b: E.State, c: E.State)
    requires EventRuns.Since(a, b) && EventRuns.Since(b, c)
    ensures EventRuns.Since(a, c)
  {
    var a0, c0 := a.buffer, c.buffer;
    forall i | 0 <= i < |a0.events| ensures c0.events[i] == a0.events[i] || EventRuns.Relinked(a0, c0, i) {
      assert b.buffer.events[i] == a0.events[i] || EventRuns.Relinked(a0, b.buffer, i);
      assert c0.events[i] == b.buffer.events[i] || EventRuns.Relinked(b.buffer, c0, i);
      assert b.buffer.precedes[|a0.precedes|..] <= c0.precedes[|a0.precedes|..];
      assert c0.precedes[|a0.precedes|..][|b.buffer.precedes| - |a0.precedes|..] == c0.precedes[|b.buffer.precedes|..];
    }
  }

  lemma {:induction false} GrewNothing(s: E.State)
    requires E.Sound(s) && !s.torn
    ensures Grew(s, s, [])
  {
    SinceItself(s);
    var top := s.frames[|s.frames| - 1];
    assert top.children + [] == top.children;
    assert s.frames == E.Extended(s.frames, []);
    assert E.Trees([]) == [];
  }

  lemma {:induction false} ExtendedTwice(frames: seq<E.Frame>, a: seq<E.Placed>, b: seq<E.Placed>)
    requires frames != []
    ensures E.Extended(E.Extended(frames, a), b) == E.Extended(frames, a + b)
  {
    var top := frames[|frames| - 1];
    assert top.children + a + b == top.children + (a + b);
  }

  lemma {:induction false} GrewTwice(s: E.State, t: E.State, u: E.State, a: seq<Tree>, b: seq<Tree>)
    requires Grew(s, t, a) && Grew(t, u, b)
    ensures Grew(s, u, a + b) && u.marks == s.marks
  {
    hide E.Denotes, EventRuns.Since;
    SinceTwice(s, t, u);
    var x :| t.frames == E.Extended(s.frames, x) && E.Trees(x) == a;
    var y :| u.frames == E.Extended(t.frames, y) && E.Trees(y) == b;
    ExtendedTwice(s.frames, x, y);
    TreesAppend(x, y);
  }

  lemma {:induction false} StepOn(s: E.State, call: E.Call)
    requires E.Sound(s) && E.Enabled(s, call) && s.marks <= E.Step(s, call).marks
    ensures EventRuns.Since(s, E.Step(s, call))
  {
    SinceItself(s);
    EventRuns.StepSince(s, s, call);
  }

  lemma {:induction false} GrewToken(s: E.State, kind: Kind)
    requires E.Sound(s) && !s.torn
    ensures Grew(s, E.Step(s, E.Take(kind)), [Leaf(kind)])
  {
    E.StepSound(s, E.Take(kind));
    StepOn(s, E.Take(kind));
    var placed := [E.Taken(kind)];
    assert E.Trees(placed) == [E.Tree(placed[0])] + E.Trees([]) == [Leaf(kind)];
  }

  /** Opening a node, filling it and completing it adds it to the node around it. */
  lemma {:induction false} GrewNode(s: E.State, filled: E.State, children: seq<Tree>, kind: Kind)
    requires E.Sound(s) && !s.torn && Grew(E.Step(s, E.Begin), filled, children)
    ensures E.Enabled(filled, E.Complete(kind))
    ensures var t := E.Step(filled, E.Complete(kind));
      && Grew(s, t, [Node(kind, children)])
      && Last(t, Completed(filled.marks[|filled.marks| - 1]), Node(kind, children))
  {
    hide E.Denotes, EventRuns.Since;
    var t := E.Step(filled, E.Complete(kind));
    var placed := NodeFrames(s, filled, children);
    var built := E.Built(kind, |s.buffer.events|, placed);
    assert t.frames == E.Extended(s.frames, [built]);
    assert E.Trees([built]) == [E.Tree(built)] + E.Trees([]) == [Node(kind, children)];
    NodeSince(s, filled, kind);
    E.StepSound(filled, E.Complete(kind));
    EventRuns.CompletedCanBePreceded(filled, kind);
  }

  lemma {:induction false} NodeFrames(s: E.State, filled: E.State, children: seq<Tree>) returns (placed: seq<E.Placed>)
    requires E.Sound(s) && !s.torn && Grew(E.Step(s, E.Begin), filled, children)
    ensures filled.frames == s.frames + [E.Frame(placed, false)] && E.Trees(placed) == children
    ensures filled.frames[..|filled.frames| - 1] == s.frames
    ensures filled.marks == s.marks + [|s.buffer.events|] && filled.marks[..|filled.marks| - 1] == s.marks
  {
    hide E.Denotes, EventRuns.Since;
    var begun := E.Step(s, E.Begin);
    placed :| filled.frames == E.Extended(begun.frames, placed) && E.Trees(placed) == children;
    assert [] + placed == placed;
  }

  lemma {:induction false} NodeSince(s: E.State, filled: E.State, kind: Kind)
    requires E.Sound(s) && !s.torn && EventRuns.Since(E.Step(s, E.Begin), filled)
    requires E.Sound(filled) && E.Enabled(filled, E.Complete(kind))
    requires filled.marks == s.marks + [|s.buffer.events|]
    ensures EventRuns.Since(s, E.Step(filled, E.Complete(kind)))
    ensures E.Step(filled, E.Complete(kind)).marks == s.marks
  {
    hide E.Denotes, EventRuns.Since;
    assert filled.marks[..|filled.marks| - 1] == s.marks;
    StepOn(s, E.Begin);
    SinceTwice(s, E.Step(s, E.Begin), filled);
    EventRuns.StepSince(s, filled, E.Complete(kind));
  }

  lemma {:induction false} Mentioned(children: seq<E.Placed>, i: nat)
    requires i < |children| && children[i].Built?
    ensures Unwinding.Mentions(E.SymbolsAll(children), children[i].at)
    decreases i
  {
    var symbols := E.SymbolsAll(children);
    if i == 0 {
      assert symbols[0] == Unwinding.Open(children[0].kind, children[0].at);
    } else {
      Mentioned(children[1..], i - 1);
      var later, at := E.SymbolsAll(children[1..]), children[i].at;
      var k :| 0 <= k < |later| && later[k].Open? && later[k].at == at;
      assert symbols[|E.Symbols(children[0])| + k] == later[k];
    }
  }

  /** The last child is the only one built where it was. */
  lemma {:induction false} LastIsFound(s: E.State)
    requires E.Sound(s) && !s.torn
    requires var children := s.frames[|s.frames| - 1].children;
      children != [] && children[|children| - 1].Built?
    ensures var children := s.frames[|s.frames| - 1].children;
      E.Child(children, children[|children| - 1].at) == |children| - 1
  {
    var n, top := |s.frames| - 1, s.frames[|s.frames| - 1];
    var front, last := top.children[..|top.children| - 1], top.children[|top.children| - 1];
    EventRuns.ChildFound(top.children, last.at, |front|);
    var found := E.Child(top.children, last.at);
    Unwinding.UnwindPositions(E.Viewed(s.buffer.events, s.marks), 0);
    var shorter := s.frames[n := top.(children := front)];
    assert front + [last] == top.children && E.Extended(shorter, [last]) == s.frames;
    E.WrittenExtended(shorter, s.marks, [last]);
    LastIsAlone(shorter, s.marks, last);
    if found < |front| {
      Mentioned(front, found);
      assert false;
    }
  }

  lemma {:induction false} LastIsAlone(frames: seq<E.Frame>, marks: seq<nat>, last: E.Placed)
    requires |frames| == |marks| + 1 && last.Built?
    requires Unwinding.Distinct(E.Written(frames, marks) + E.SymbolsAll([last]))
    ensures !Unwinding.Mentions(E.SymbolsAll(frames[|marks|].children), last.at)
  {
    var a, open := E.Written(frames, marks), Unwinding.Open(last.kind, last.at);
    var b := E.SymbolsAll(last.children) + [Unwinding.Close];
    assert E.SymbolsAll([last]) == E.Symbols(last) + E.SymbolsAll([]) == [open] + b;
    assert a + ([open] + b) == a + [open] + b;
    Unwinding.DistinctParts(a, open, b);
    var mine := E.SymbolsAll(frames[|marks|].children);
    var skipped := |a| - |mine|;
    assert a[skipped..] == mine;
    forall i | 0 <= i < |mine| && mine[i].Open? ensures mine[i].at != last.at {
      assert a[skipped + i] == mine[i];
    }
  }

  /** Wrapping the node just added, filling the wrapper and completing it replaces that node. */
  lemma {:induction false} GrewWrap(s0: E.State, s: E.State, node: Completed, tree: Tree,
                                    filled: E.State, more: seq<Tree>, kind: Kind)
    requires Grew(s0, s, [tree]) && Last(s, node, tree)
    requires Grew(E.Step(s, E.Precede(node.pos)), filled, more)
    ensures E.Enabled(filled, E.Complete(kind))
    ensures var t := E.Step(filled, E.Complete(kind));
      && Grew(s0, t, [Node(kind, [tree] + more)])
      && Last(t, Completed(filled.marks[|filled.marks| - 1]), Node(kind, [tree] + more))
  {
    hide E.Denotes, EventRuns.Since;
    var wrapped, t := E.Step(s, E.Precede(node.pos)), E.Step(filled, E.Complete(kind));
    var last, placed := WrapFrames(s0, s, node, tree, filled, more);
    var built := E.Built(kind, |s.buffer.events|, [last] + placed);
    assert t.frames == E.Extended(s0.frames, [built]);
    TreesAppend([last], placed);
    assert E.Trees([last]) == [E.Tree(last)] + E.Trees([]) == [tree];
    assert E.Trees([built]) == [E.Tree(built)] + E.Trees([]) == [Node(kind, [tree] + more)];
    WrapSince(s0, s, node, filled, kind);
    E.StepSound(filled, E.Complete(kind));
    EventRuns.CompletedCanBePreceded(filled, kind);
  }

  lemma {:induction false} WrapFrames(s0: E.State, s: E.State, node: Completed, tree: Tree, filled: E.State, more: seq<Tree>)
    returns (last: E.Placed, placed: seq<E.Placed>)
    requires Grew(s0, s, [tree]) && Last(s, node, tree)
    requires Grew(E.Step(s, E.Precede(node.pos)), filled, more)
    ensures filled.frames == s0.frames + [E.Frame([last] + placed, true)]
    ensures filled.frames[..|filled.frames| - 1] == s0.frames
    ensures filled.marks == s.marks + [|s.buffer.events|] && filled.marks[..|filled.marks| - 1] == s.marks
    ensures E.Tree(last) == tree && E.Trees(placed) == more
  {
    hide E.Denotes, EventRuns.Since;
    var wrapped := E.Step(s, E.Precede(node.pos));
    var n := |s0.frames|;
    last := AddedOne(s0, s, tree);
    LastIsFound(s);
    assert wrapped.frames == s0.frames + [E.Frame([last], true)] by {
      assert s.frames[..n - 1] == s0.frames[..n - 1];
      var top := s.frames[n - 1];
      assert top.children[..|top.children| - 1] == s0.frames[n - 1].children;
      assert top.children[|top.children| - 1..] == [last];
    }
    placed :| filled.frames == E.Extended(wrapped.frames, placed) && E.Trees(placed) == more;
  }

  lemma {:induction false} WrapSince(s0: E.State, s: E.State, node: Completed, filled: E.State, kind: Kind)
    requires EventRuns.Since(s0, s) && s0.marks == s.marks
    requires E.Sound(s) && E.Enabled(s, E.Precede(node.pos))
    requires EventRuns.Since(E.Step(s, E.Precede(node.pos)), filled)
    requires E.Sound(filled) && E.Enabled(filled, E.Complete(kind))
    requires filled.marks == s.marks + [|s.buffer.events|]
    ensures EventRuns.Since(s0, E.Step(filled, E.Complete(kind)))
    ensures E.Step(filled, E.Complete(kind)).marks == s0.marks
  {
    hide E.Denotes, EventRuns.Since;
    var wrapped := E.Step(s, E.Precede(node.pos));
    assert filled.marks[..|filled.marks| - 1] == s.marks;
    StepOn(s, E.Precede(node.pos));
    SinceTwice(s0, s, wrapped);
    SinceTwice(s0, wrapped, filled);
    EventRuns.StepSince(s0, filled, E.Complete(kind));
  }

  lemma {:induction false} AddedOne(s: E.State, t: E.State, tree: Tree) returns (last: E.Placed)
    requires Grew(s, t, [tree])
    ensures t.frames == E.Extended(s.frames, [last]) && E.Tree(last) == tree
  {
    hide E.Denotes, EventRuns.Since;
    var placed :| t.frames == E.Extended(s.frames, placed) && E.Trees(placed) == [tree];
    assert placed != [] && E.Trees(placed)[1..] == E.Trees(placed[1..]) == [];
    assert placed[1..] == [];
    last := placed[0];
    assert placed == [last] && E.Trees(placed)[0] == E.Tree(last);
  }

  /** An attempt given up leaves something that can be gone back from. */
  lemma {:induction false} GivenUp(earlier: E.State, tried: E.State)
    requires E.Sound(earlier) && E.Sound(tried) && !tried.torn && EventRuns.Since(earlier, tried)
    requires |tried.marks| == |earlier.marks| + 1
    ensures E.Enabled(tried, E.Abandon) && EventRuns.Since(earlier, E.Step(tried, E.Abandon))
    ensures E.Step(tried, E.Abandon).buffer.open == earlier.buffer.open
  {
    EventRuns.StepSince(earlier, tried, E.Abandon);
  }

  lemma GrewMeans(s: E.State, t: E.State, more: seq<Tree>)
    requires Grew(s, t, more)
    ensures E.Sound(s) && E.Sound(t) && !s.torn && !t.torn && t.marks == s.marks && EventRuns.Since(s, t)
  {
  }

  /** Whatever is sound can begin a node or take a token, and has grown by nothing. */
  lemma CanGoOn(s: E.State)
    requires E.Sound(s) && !s.torn
    ensures E.Consistent(s) && E.Enabled(s, E.Begin) && Grew(s, s, [])
    ensures E.Sound(E.Step(s, E.Begin)) && !E.Step(s, E.Begin).torn && EventRuns.Since(s, E.Step(s, E.Begin))
  {
    GrewNothing(s);
    E.StepSound(s, E.Begin);
    StepOn(s, E.Begin);
  }

  lemma CanPrecede(s: E.State, at: nat)
    requires E.Sound(s) && !s.torn && E.Enabled(s, E.Precede(at))
    ensures var t := E.Step(s, E.Precede(at));
      E.Sound(t) && !t.torn && EventRuns.Since(s, t) && Grew(t, t, [])
  {
    E.StepSound(s, E.Precede(at));
    StepOn(s, E.Precede(at));
    GrewNothing(E.Step(s, E.Precede(at)));
  }
}
