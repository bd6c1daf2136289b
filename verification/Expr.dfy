/**
 * Precedence climbing over a small set of tokens: operands, parentheses, prefix and
 * postfix operators, binary operators, `?:`, and `min:typ:max` in parentheses.
 *
 * Levels follow Table 11-2 in section 11.3.2 of IEEE 1800-2023, with `matches` and
 * `&&&` between them.
 */
module Expr {
  import opened Wrappers

  datatype Operator =
    | MinusGt | LtMinusGt | Question | PipePipe | AmpAmp | Pipe | Caret | TildeCaret | CaretTilde | Amp
    | EqEq | BangEq | EqEqEq | BangEqEq | EqEqQuestion | BangEqQuestion
    | Lt | LtEq | Gt | GtEq | LtLt | GtGt | LtLtLt | GtGtGt | Plus | Minus | Star | Slash | Percent | StarStar
    | Matches | AmpAmpAmp
    | Bang | Tilde | TildeAmp | TildePipe | PlusPlus | MinusMinus

  datatype Token =
    | Name(id: nat)
    | LParen
    | RParen
    | Colon
    | Sign(op: Operator)
    | Stop

  /** The left and right binding powers of a binary operator. */
  function Binding(op: Operator): Option<(nat, nat)> {
    match op
    case Matches => Some((9, 10))
    case AmpAmpAmp => Some((5, 6))
    case MinusGt | LtMinusGt => Some(RightAssociative(1))
    case Question => Some(RightAssociative(2))
    case PipePipe => Some(LeftAssociative(3))
    case AmpAmp => Some(LeftAssociative(4))
    case Pipe => Some(LeftAssociative(5))
    case Caret | TildeCaret | CaretTilde => Some(LeftAssociative(6))
    case Amp => Some(LeftAssociative(7))
    case EqEq | BangEq | EqEqEq | BangEqEq | EqEqQuestion | BangEqQuestion => Some(LeftAssociative(8))
    case Lt | LtEq | Gt | GtEq => Some(LeftAssociative(9))
    case LtLt | GtGt | LtLtLt | GtGtGt => Some(LeftAssociative(10))
    case Plus | Minus => Some(LeftAssociative(11))
    case Star | Slash | Percent => Some(LeftAssociative(12))
    case StarStar => Some(RightAssociative(13))
    case _ => None
  }

  function LeftAssociative(level: nat): (nat, nat) { (2 * level, 2 * level + 1) }

  function RightAssociative(level: nat): (nat, nat) { (2 * level + 1, 2 * level) }

  predicate IsUnary(op: Operator) {
    match op
    case Plus | Minus | Bang | Tilde | Amp | TildeAmp | Pipe | TildePipe
       | Caret | TildeCaret | CaretTilde | PlusPlus | MinusMinus => true
    case _ => false
  }

  predicate IsPostfix(op: Operator) {
    op == PlusPlus || op == MinusMinus
  }

  /** An expression as parsed; what is missing from an incomplete one is `None` or false. */
  datatype Expr =
    | Operand(id: nat)
    | Paren(inner: Option<Expr>, closed: bool)
    | MinTypMax(min: Expr, typ: Option<Expr>, second: bool, max: Option<Expr>)
    | Unary(op: Operator, operand: Expr)
    | Postfix(operand: Expr, op: Operator)
    | Binary(op: Operator, lhs: Expr, rhs: Expr)
    | Ternary(condition: Expr, yes: Option<Expr>, colon: bool, no: Option<Expr>)

  // ----- parsing

  /** The binding powers the next token continues an expression with, if it does. */
  function Continues(tokens: seq<Token>, coverage: bool): Option<(nat, nat)> {
    if tokens == [] || !tokens[0].Sign? then None
    else if tokens[0].op == Star && |tokens| > 1 && tokens[1] == RParen then None
    else if tokens[0].op == Matches && coverage then None
    else Binding(tokens[0].op)
  }

  function ParseBinary(tokens: seq<Token>, min: nat, coverage: bool): (r: Option<(Expr, seq<Token>)>)
    ensures r.Some? ==> |r.value.1| < |tokens|
    decreases |tokens|, 3
  {
    match ParseUnary(tokens, coverage)
    case None => None
    case Some((lhs, rest)) => Some(Climb(lhs, rest, min, coverage))
  }

  /** Grows `lhs` by every operator that binds at least as tightly as `min`. */
  function Climb(lhs: Expr, tokens: seq<Token>, min: nat, coverage: bool): (r: (Expr, seq<Token>))
    ensures |r.1| <= |tokens|
    decreases |tokens|, 2
  {
    match Continues(tokens, coverage)
    case None => (lhs, tokens)
    case Some((left, right)) =>
      if left < min then (lhs, tokens)
      else if tokens[0].op == Question then
        var (ternary, rest) := ParseTernary(lhs, tokens[1..], right, coverage);
        Climb(ternary, rest, min, coverage)
      else
        match ParseBinary(tokens[1..], right, coverage)
        case None => (lhs, tokens)
        case Some((rhs, rest)) => Climb(Binary(tokens[0].op, lhs, rhs), rest, min, coverage)
  }

  /** What follows the `?`; a ternary that misses a part is one all the same. */
  function ParseTernary(condition: Expr, tokens: seq<Token>, right: nat, coverage: bool): (r: (Expr, seq<Token>))
    ensures |r.1| <= |tokens|
    decreases |tokens|, 5
  {
    var (yes, rest) := ParseOptional(tokens, 0, coverage);
    if rest != [] && rest[0] == Colon then
      var (no, after) := ParseOptional(rest[1..], right, coverage);
      (Ternary(condition, yes, true, no), after)
    else
      (Ternary(condition, yes, false, None), rest)
  }

  function ParseOptional(tokens: seq<Token>, min: nat, coverage: bool): (r: (Option<Expr>, seq<Token>))
    ensures |r.1| <= |tokens|
    decreases |tokens|, 4
  {
    match ParseBinary(tokens, min, coverage)
    case None => (None, tokens)
    case Some((expr, rest)) => (Some(expr), rest)
  }

  function ParseUnary(tokens: seq<Token>, coverage: bool): (r: Option<(Expr, seq<Token>)>)
    ensures r.Some? ==> |r.value.1| < |tokens|
    decreases |tokens|, 1
  {
    if tokens != [] && tokens[0].Sign? && IsUnary(tokens[0].op) then
      match ParseUnary(tokens[1..], coverage)
      case None => None
      case Some((operand, rest)) => Some((Unary(tokens[0].op, operand), rest))
    else
      match ParsePrimary(tokens, coverage)
      case None => None
      case Some((primary, rest)) => Some(ParsePostfixes(primary, rest))
  }

  function ParsePostfixes(operand: Expr, tokens: seq<Token>): (r: (Expr, seq<Token>))
    ensures |r.1| <= |tokens|
    decreases |tokens|
  {
    if tokens != [] && tokens[0].Sign? && IsPostfix(tokens[0].op) then
      ParsePostfixes(Postfix(operand, tokens[0].op), tokens[1..])
    else
      (operand, tokens)
  }

  function ParsePrimary(tokens: seq<Token>, coverage: bool): (r: Option<(Expr, seq<Token>)>)
    ensures r.Some? ==> |r.value.1| < |tokens|
    decreases |tokens|, 0
  {
    if tokens == [] then None
    else match tokens[0]
      case Name(id) => Some((Operand(id), tokens[1..]))
      case LParen =>
        var (first, rest) := ParseOptional(tokens[1..], 0, coverage);
        var (inner, after) :=
          if first.Some? then
            var (grown, left) := ParseMinTypMax(first.value, rest, coverage);
            (Some(grown), left)
          else (None, rest);
        if after != [] && after[0] == RParen then Some((Paren(inner, true), after[1..]))
        else Some((Paren(inner, false), after))
      case _ => None
  }

  function ParseMinTypMax(min: Expr, tokens: seq<Token>, coverage: bool): (r: (Expr, seq<Token>))
    ensures |r.1| <= |tokens|
    decreases |tokens|, 5
  {
    if tokens == [] || tokens[0] != Colon then (min, tokens)
    else
      var (typ, rest) := ParseOptional(tokens[1..], 0, coverage);
      if rest != [] && rest[0] == Colon then
        var (max, after) := ParseOptional(rest[1..], 0, coverage);
        (MinTypMax(min, typ, true, max), after)
      else
        (MinTypMax(min, typ, false, None), rest)
  }

  // ----- printing

  function Print(expr: Expr): seq<Token> {
    match expr
    case Operand(id) => [Name(id)]
    case Paren(inner, closed) => [LParen] + PrintOptional(inner) + (if closed then [RParen] else [])
    case MinTypMax(min, typ, second, max) =>
      Print(min) + [Colon] + PrintOptional(typ) + (if second then [Colon] + PrintOptional(max) else [])
    case Unary(op, operand) => [Sign(op)] + Print(operand)
    case Postfix(operand, op) => Print(operand) + [Sign(op)]
    case Binary(op, lhs, rhs) => Print(lhs) + [Sign(op)] + Print(rhs)
    case Ternary(condition, yes, colon, no) =>
      Print(condition) + [Sign(Question)] + PrintOptional(yes) + (if colon then [Colon] + PrintOptional(no) else [])
  }

  function PrintOptional(expr: Option<Expr>): seq<Token> {
    match expr
    case None => []
    case Some(value) => Print(value)
  }

  // ----- which trees the binding powers allow

  /** Nothing is missing anywhere in it. */
  predicate Complete(expr: Expr) {
    match expr
    case Operand(_) => true
    case Paren(inner, closed) => inner.Some? && closed && Complete(inner.value)
    case MinTypMax(min, typ, second, max) =>
      Complete(min) && typ.Some? && Complete(typ.value) && second && max.Some? && Complete(max.value)
    case Unary(_, operand) => Complete(operand)
    case Postfix(operand, _) => Complete(operand)
    case Binary(_, lhs, rhs) => Complete(lhs) && Complete(rhs)
    case Ternary(condition, yes, colon, no) =>
      Complete(condition) && yes.Some? && Complete(yes.value) && colon && no.Some? && Complete(no.value)
  }

  /** The powers at which what follows a complete expression could still be taken into it. */
  function Spine(expr: Expr): set<nat> {
    match expr
    case Binary(op, _, rhs) => (if Binding(op).Some? then {Binding(op).value.1} else {}) + Spine(rhs)
    case Ternary(_, _, _, no) => {4} + (if no.Some? then Spine(no.value) else {})
    case _ => {}
  }

  predicate IsPrimary(expr: Expr) {
    expr.Operand? || expr.Paren? || expr.Postfix?
  }

  /**
   * A tree of complete nodes in which every operator binds at least as tightly as `min`
   * where it stands, and none on the left of another would have taken that one in.
   */
  predicate Legal(expr: Expr, min: nat, coverage: bool) {
    match expr
    case Operand(_) => true
    case Paren(inner, closed) =>
      && closed && inner.Some?
      && (match inner.value
          case MinTypMax(a, b, second, c) =>
            && Legal(a, 0, coverage) && second
            && b.Some? && Legal(b.value, 0, coverage) && c.Some? && Legal(c.value, 0, coverage)
          case value => Legal(value, 0, coverage))
    case MinTypMax(_, _, _, _) => false
    case Unary(op, operand) =>
      IsUnary(op) && (IsPrimary(operand) || operand.Unary?) && Legal(operand, 0, coverage)
    case Postfix(operand, op) => IsPostfix(op) && IsPrimary(operand) && Legal(operand, 0, coverage)
    case Binary(op, lhs, rhs) =>
      && op != Question && !(op == Matches && coverage)
      && Binding(op).Some? && min <= Binding(op).value.0
      && Legal(lhs, min, coverage) && Legal(rhs, Binding(op).value.1, coverage)
      && forall power :: power in Spine(lhs) ==> Binding(op).value.0 < power
    case Ternary(condition, yes, colon, no) =>
      && colon && yes.Some? && no.Some? && min <= 5
      && Legal(condition, min, coverage) && Legal(yes.value, 0, coverage) && Legal(no.value, 4, coverage)
      && forall power :: power in Spine(condition) ==> 5 < power
  }

  /** The next tokens would be taken into an expression being grown at `min`. */
  predicate Absorbs(tokens: seq<Token>, min: nat, coverage: bool) {
    match Continues(tokens, coverage)
    case None => false
    case Some((left, right)) =>
      min <= left && (tokens[0].op == Question || ParseBinary(tokens[1..], right, coverage).Some?)
  }

  /** Nothing inside `expr` takes in what follows it. */
  predicate Settled(expr: Expr, rest: seq<Token>, coverage: bool) {
    forall power :: power in Spine(expr) ==> !Absorbs(rest, power, coverage)
  }

  predicate StartsPostfix(tokens: seq<Token>) {
    tokens != [] && tokens[0].Sign? && IsPostfix(tokens[0].op)
  }

  // ----- printing, then parsing

  lemma {:induction false} ClimbStops(expr: Expr, rest: seq<Token>, min: nat, coverage: bool)
    requires !Absorbs(rest, min, coverage)
    ensures Climb(expr, rest, min, coverage) == (expr, rest)
  {
  }

  lemma {:induction false} PrintStarts(expr: Expr, min: nat, coverage: bool)
    requires Legal(expr, min, coverage)
    ensures Print(expr) != [] && Print(expr)[0] != RParen && Print(expr)[0] != Colon
  {
    match expr
    case Postfix(operand, _) => PrintStarts(operand, 0, coverage);
    case Binary(_, lhs, _) => PrintStarts(lhs, min, coverage);
    case Ternary(condition, _, _, _) => PrintStarts(condition, min, coverage);
    case _ =>
  }

  /** A legal tree's tokens lead the climb to it, whatever follows that it does not take in itself. */
  lemma {:induction false} ParseReaches(expr: Expr, min: nat, rest: seq<Token>, coverage: bool)
    requires Legal(expr, min, coverage) && Settled(expr, rest, coverage) && !StartsPostfix(rest)
    ensures ParseBinary(Print(expr) + rest, min, coverage) == Some(Climb(expr, rest, min, coverage))
    decreases expr, 4
  {
    if expr.Binary? {
      ReachesBinary(expr, min, rest, coverage);
    } else if expr.Ternary? {
      ReachesTernary(expr, min, rest, coverage);
    } else if IsPrimary(expr) || expr.Unary? {
      UnaryReaches(expr, rest, coverage);
    }
  }

  lemma {:induction false} ParsePrinted(expr: Expr, min: nat, rest: seq<Token>, coverage: bool)
    requires Legal(expr, min, coverage) && Settled(expr, rest, coverage) && !StartsPostfix(rest)
    requires !Absorbs(rest, min, coverage)
    ensures ParseBinary(Print(expr) + rest, min, coverage) == Some((expr, rest))
    decreases expr, 5
  {
    ParseReaches(expr, min, rest, coverage);
    ClimbStops(expr, rest, min, coverage);
  }

  lemma {:induction false} ReachesBinary(expr: Expr, min: nat, rest: seq<Token>, coverage: bool)
    requires expr.Binary? && Legal(expr, min, coverage) && Settled(expr, rest, coverage) && !StartsPostfix(rest)
    ensures ParseBinary(Print(expr) + rest, min, coverage) == Some(Climb(expr, rest, min, coverage))
    decreases expr, 3
  {
    var op, lhs, rhs := expr.op, expr.lhs, expr.rhs;
    var (left, right) := Binding(op).value;
    var inside := Print(rhs) + rest;
    var after := [Sign(op)] + inside;
    assert Print(expr) + rest == Print(lhs) + after;
    assert after[1..] == inside;
    PrintStarts(rhs, right, coverage);
    assert right in Spine(expr);
    assert forall power :: power in Spine(rhs) ==> power in Spine(expr);
    ParsePrinted(rhs, right, rest, coverage);
    assert inside[0] == Print(rhs)[0];
    assert Continues(after, coverage) == Some((left, right));
    ParseReaches(lhs, min, after, coverage);
    assert Climb(lhs, after, min, coverage) == Climb(expr, rest, min, coverage);
  }

  lemma {:induction false} TernaryPrints(expr: Expr, rest: seq<Token>)
    requires expr.Ternary? && expr.yes.Some? && expr.colon && expr.no.Some?
    ensures Print(expr) + rest ==
      Print(expr.condition) + ([Sign(Question)] + (Print(expr.yes.value) + ([Colon] + (Print(expr.no.value) + rest))))
  {
  }

  lemma {:induction false} MinTypMaxPrints(expr: Expr, rest: seq<Token>)
    requires expr.MinTypMax? && expr.typ.Some? && expr.second && expr.max.Some?
    ensures Print(expr) + rest ==
      Print(expr.min) + ([Colon] + (Print(expr.typ.value) + ([Colon] + (Print(expr.max.value) + rest))))
  {
  }

  lemma {:induction false} ParenPrints(inner: Expr, rest: seq<Token>)
    ensures Print(Paren(Some(inner), true)) + rest == [LParen] + (Print(inner) + ([RParen] + rest))
  {
    assert PrintOptional(Some(inner)) == Print(inner);
  }

  lemma {:induction false} ReachesTernary(expr: Expr, min: nat, rest: seq<Token>, coverage: bool)
    requires expr.Ternary? && Legal(expr, min, coverage) && Settled(expr, rest, coverage) && !StartsPostfix(rest)
    ensures ParseBinary(Print(expr) + rest, min, coverage) == Some(Climb(expr, rest, min, coverage))
    decreases expr, 3
  {
    hide ParseUnary, ParsePostfixes, ParsePrimary, ParseMinTypMax, ParseBinary;
    var condition, yes, no := expr.condition, expr.yes.value, expr.no.value;
    var last := Print(no) + rest;
    var middle := [Colon] + last;
    var inside := Print(yes) + middle;
    var after := [Sign(Question)] + inside;
    TernaryPrints(expr, rest);
    assert after[1..] == inside && middle[1..] == last;
    assert 4 in Spine(expr);
    assert forall power :: power in Spine(no) ==> power in Spine(expr);
    ParsePrinted(yes, 0, middle, coverage);
    ParsePrinted(no, 4, rest, coverage);
    assert ParseTernary(condition, inside, 4, coverage) == (expr, rest);
    assert Continues(after, coverage) == Some((5, 4));
    ParseReaches(condition, min, after, coverage);
    assert Climb(condition, after, min, coverage) == Climb(expr, rest, min, coverage);
  }

  /** An operand with its prefix and postfix operators is parsed as such. */
  lemma {:induction false} UnaryReaches(expr: Expr, rest: seq<Token>, coverage: bool)
    requires (IsPrimary(expr) || expr.Unary?) && Legal(expr, 0, coverage) && !StartsPostfix(rest)
    ensures ParseUnary(Print(expr) + rest, coverage) == Some((expr, rest))
    decreases expr, 3
  {
    if expr.Unary? {
      UnaryReaches(expr.operand, rest, coverage);
      assert Print(expr) + rest == [Sign(expr.op)] + (Print(expr.operand) + rest);
      assert (Print(expr) + rest)[1..] == Print(expr.operand) + rest;
    } else {
      PostfixReaches(expr, rest, coverage);
      assert ParsePostfixes(expr, rest) == (expr, rest);
    }
  }

  lemma {:induction false} PostfixReaches(expr: Expr, rest: seq<Token>, coverage: bool)
    requires IsPrimary(expr) && Legal(expr, 0, coverage)
    ensures var tokens := Print(expr) + rest;
      && !tokens[0].Sign?
      && ParsePrimary(tokens, coverage).Some?
      && var (primary, after) := ParsePrimary(tokens, coverage).value;
         ParsePostfixes(primary, after) == ParsePostfixes(expr, rest)
    decreases expr, 2
  {
    match expr
    case Operand(id) =>
      assert (Print(expr) + rest)[1..] == rest;
    case Paren(inner, _) =>
      ParenReaches(expr, rest, coverage);
    case Postfix(operand, op) =>
      var more := [Sign(op)] + rest;
      PostfixReaches(operand, more, coverage);
      assert Print(expr) + rest == Print(operand) + more;
      assert more[1..] == rest;
      PrintStarts(operand, 0, coverage);
  }

  lemma {:induction false} ParenReaches(expr: Expr, rest: seq<Token>, coverage: bool)
    requires expr.Paren? && Legal(expr, 0, coverage)
    ensures ParsePrimary(Print(expr) + rest, coverage) == Some((expr, rest))
    decreases expr, 1
  {
    var inner := expr.inner.value;
    var close := [RParen] + rest;
    ParenPrints(inner, rest);
    assert ([LParen] + (Print(inner) + close))[1..] == Print(inner) + close && close[1..] == rest;
    if inner.MinTypMax? {
      MinTypMaxReaches(inner, close, coverage);
    } else {
      ParsePrinted(inner, 0, close, coverage);
      assert ParseMinTypMax(inner, close, coverage) == (inner, close);
    }
  }

  lemma {:induction false} MinTypMaxReaches(expr: Expr, close: seq<Token>, coverage: bool)
    requires expr.MinTypMax? && Legal(Paren(Some(expr), true), 0, coverage)
    requires close != [] && close[0] == RParen
    ensures ParseOptional(Print(expr) + close, 0, coverage).0.Some?
    ensures var (first, rest) := ParseOptional(Print(expr) + close, 0, coverage);
      ParseMinTypMax(first.value, rest, coverage) == (expr, close)
    decreases expr, 0
  {
    var third := Print(expr.max.value) + close;
    var colon2 := [Colon] + third;
    var second := Print(expr.typ.value) + colon2;
    var colon1 := [Colon] + second;
    MinTypMaxPrints(expr, close);
    assert colon1[1..] == second && colon2[1..] == third;
    ParsePrinted(expr.min, 0, colon1, coverage);
    ParsePrinted(expr.typ.value, 0, colon2, coverage);
    ParsePrinted(expr.max.value, 0, close, coverage);
  }
}
