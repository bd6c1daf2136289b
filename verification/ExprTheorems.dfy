/**
 * Parsing and printing are inverse: a complete tree is what the climb returns exactly
 * when it prints to what was consumed, the binding powers allow it, and it could take
 * in nothing more.
 */
module ExprTheorems {
  import opened Wrappers
  import opened Expr

  // ----- when there is an expression at all

  /** Prefix operators, then an operand or an opening parenthesis. */
  predicate StartsOperand(tokens: seq<Token>) {
    tokens != []
    && match tokens[0]
       case Name(_) => true
       case LParen => true
       case Sign(op) => IsUnary(op) && StartsOperand(tokens[1..])
       case _ => false
  }

  lemma {:induction false} ParsesOperands(tokens: seq<Token>, min: nat, coverage: bool)
    ensures ParseBinary(tokens, min, coverage).Some? <==> StartsOperand(tokens)
  {
    UnaryParsesOperands(tokens, coverage);
  }

  lemma {:induction false} UnaryParsesOperands(tokens: seq<Token>, coverage: bool)
    ensures ParseUnary(tokens, coverage).Some? <==> StartsOperand(tokens)
    decreases |tokens|
  {
    if tokens != [] && tokens[0].Sign? && IsUnary(tokens[0].op) {
      UnaryParsesOperands(tokens[1..], coverage);
    }
  }

  // ----- parsing, then printing

  /** What is known of an expression the climb is at, and of the tokens after it. */
  predicate Grown(expr: Expr, rest: seq<Token>, min: nat, coverage: bool) {
    Complete(expr) ==> Legal(expr, min, coverage) && Settled(expr, rest, coverage) && !StartsPostfix(rest)
  }

  lemma {:induction false} BinarySound(tokens: seq<Token>, min: nat, coverage: bool)
    requires ParseBinary(tokens, min, coverage).Some?
    ensures var (expr, rest) := ParseBinary(tokens, min, coverage).value;
      && tokens == Print(expr) + rest && !expr.MinTypMax?
      && Grown(expr, rest, min, coverage) && !Absorbs(rest, min, coverage)
    decreases |tokens|, 3
  {
    UnarySound(tokens, coverage);
    var (lhs, rest) := ParseUnary(tokens, coverage).value;
    LegalAtAnyPower(lhs, min, coverage);
    ClimbSound(lhs, rest, min, coverage);
  }

  lemma {:induction false} LegalAtAnyPower(expr: Expr, min: nat, coverage: bool)
    requires IsPrimary(expr) || expr.Unary?
    ensures Legal(expr, min, coverage) == Legal(expr, 0, coverage) && Spine(expr) == {}
  {
  }

  lemma {:induction false} ClimbSound(lhs: Expr, tokens: seq<Token>, min: nat, coverage: bool)
    requires Grown(lhs, tokens, min, coverage) && !lhs.MinTypMax?
    ensures var (expr, rest) := Climb(lhs, tokens, min, coverage);
      && Print(lhs) + tokens == Print(expr) + rest && !expr.MinTypMax?
      && Grown(expr, rest, min, coverage) && !Absorbs(rest, min, coverage)
    decreases |tokens|, 2
  {
    if Absorbs(tokens, min, coverage) {
      var op, after := tokens[0].op, tokens[1..];
      var (left, right) := Continues(tokens, coverage).value;
      assert tokens == [Sign(op)] + after;
      SpineBound(lhs, tokens, min, coverage);
      if op == Question {
        TernarySound(lhs, after, min, coverage);
        var (ternary, rest) := ParseTernary(lhs, after, right, coverage);
        ClimbSound(ternary, rest, min, coverage);
      } else {
        BinarySound(after, right, coverage);
        var (rhs, rest) := ParseBinary(after, right, coverage).value;
        var grown := Binary(op, lhs, rhs);
        BinaryJoins(op, lhs, rhs, rest);
        assert Spine(grown) == {right} + Spine(rhs);
        ClimbSound(grown, rest, min, coverage);
      }
    }
  }

  /** What the spine left alone although the climb takes it in binds looser than the spine. */
  lemma {:induction false} SpineBound(lhs: Expr, tokens: seq<Token>, min: nat, coverage: bool)
    requires Absorbs(tokens, min, coverage) && (Complete(lhs) ==> Settled(lhs, tokens, coverage))
    ensures Complete(lhs) ==> forall power :: power in Spine(lhs) ==>
      Continues(tokens, coverage).value.0 < power
  {
  }

  lemma {:induction false} TernarySound(condition: Expr, tokens: seq<Token>, min: nat, coverage: bool)
    requires min <= 5
    requires Complete(condition) ==>
      Legal(condition, min, coverage) && forall power :: power in Spine(condition) ==> 5 < power
    ensures var (expr, rest) := ParseTernary(condition, tokens, 4, coverage);
      && expr.Ternary? && Print(condition) + ([Sign(Question)] + tokens) == Print(expr) + rest
      && Grown(expr, rest, min, coverage)
    decreases |tokens|, 5
  {
    OptionalSound(tokens, 0, coverage);
    var (yes, rest) := ParseOptional(tokens, 0, coverage);
    if rest != [] && rest[0] == Colon {
      OptionalSound(rest[1..], 4, coverage);
      var (no, after) := ParseOptional(rest[1..], 4, coverage);
      assert rest == [Colon] + (PrintOptional(no) + after);
      TernaryJoins(condition, yes, no, after);
      TernaryGrown(condition, yes, no, after, min, coverage);
    } else {
      TernaryCut(condition, yes, rest);
    }
  }

  lemma {:induction false} TernaryGrown(condition: Expr, yes: Option<Expr>, no: Option<Expr>, after: seq<Token>, min: nat, coverage: bool)
    requires min <= 5
    requires Complete(condition) ==>
      Legal(condition, min, coverage) && forall power :: power in Spine(condition) ==> 5 < power
    requires yes.Some? && Complete(yes.value) ==> Legal(yes.value, 0, coverage)
    requires no.Some? ==> Grown(no.value, after, 4, coverage) && !Absorbs(after, 4, coverage)
    ensures Grown(Ternary(condition, yes, true, no), after, min, coverage)
  {
    if no.Some? {
      assert Spine(Ternary(condition, yes, true, no)) == {4} + Spine(no.value);
    }
  }

  lemma {:induction false} TernaryCut(condition: Expr, yes: Option<Expr>, rest: seq<Token>)
    ensures Print(Ternary(condition, yes, false, None)) + rest ==
      Print(condition) + ([Sign(Question)] + (PrintOptional(yes) + rest))
  {
  }

  lemma {:induction false} BinaryJoins(op: Operator, lhs: Expr, rhs: Expr, rest: seq<Token>)
    ensures Print(Binary(op, lhs, rhs)) + rest == Print(lhs) + ([Sign(op)] + (Print(rhs) + rest))
  {
  }

  lemma {:induction false} TernaryJoins(condition: Expr, yes: Option<Expr>, no: Option<Expr>, after: seq<Token>)
    ensures Print(Ternary(condition, yes, true, no)) + after ==
      Print(condition) + ([Sign(Question)] + (PrintOptional(yes) + ([Colon] + (PrintOptional(no) + after))))
  {
  }

  lemma {:induction false} OptionalSound(tokens: seq<Token>, min: nat, coverage: bool)
    ensures var (expr, rest) := ParseOptional(tokens, min, coverage);
      && tokens == PrintOptional(expr) + rest
      && (expr.Some? ==>
            !expr.value.MinTypMax? && Grown(expr.value, rest, min, coverage) && !Absorbs(rest, min, coverage))
    decreases |tokens|, 4
  {
    if ParseBinary(tokens, min, coverage).Some? {
      BinarySound(tokens, min, coverage);
    }
  }

  lemma {:induction false} UnarySound(tokens: seq<Token>, coverage: bool)
    requires ParseUnary(tokens, coverage).Some?
    ensures var (expr, rest) := ParseUnary(tokens, coverage).value;
      && tokens == Print(expr) + rest && (IsPrimary(expr) || expr.Unary?)
      && Grown(expr, rest, 0, coverage)
    decreases |tokens|, 1
  {
    if tokens != [] && tokens[0].Sign? && IsUnary(tokens[0].op) {
      UnarySound(tokens[1..], coverage);
      var (operand, rest) := ParseUnary(tokens[1..], coverage).value;
      assert tokens == [tokens[0]] + tokens[1..];
      assert tokens == Print(Unary(tokens[0].op, operand)) + rest;
    } else {
      PrimarySound(tokens, coverage);
      var (primary, rest) := ParsePrimary(tokens, coverage).value;
      PostfixesSound(primary, rest, coverage);
    }
  }

  lemma {:induction false} PostfixesSound(operand: Expr, tokens: seq<Token>, coverage: bool)
    requires IsPrimary(operand) && (Complete(operand) ==> Legal(operand, 0, coverage))
    ensures var (expr, rest) := ParsePostfixes(operand, tokens);
      && Print(operand) + tokens == Print(expr) + rest && IsPrimary(expr)
      && Grown(expr, rest, 0, coverage)
    decreases |tokens|
  {
    if StartsPostfix(tokens) {
      var grown := Postfix(operand, tokens[0].op);
      PostfixesSound(grown, tokens[1..], coverage);
      assert tokens == [tokens[0]] + tokens[1..];
      assert Print(operand) + tokens == Print(grown) + tokens[1..];
    }
  }

  lemma {:induction false} PrimarySound(tokens: seq<Token>, coverage: bool)
    requires ParsePrimary(tokens, coverage).Some?
    ensures var (expr, rest) := ParsePrimary(tokens, coverage).value;
      && tokens == Print(expr) + rest && IsPrimary(expr)
      && (Complete(expr) ==> Legal(expr, 0, coverage))
    decreases |tokens|, 0
  {
    var after := tokens[1..];
    assert tokens == [tokens[0]] + after;
    if tokens[0] == LParen {
      OptionalSound(after, 0, coverage);
      var (first, rest) := ParseOptional(after, 0, coverage);
      if first.Some? {
        MinTypMaxSound(first.value, rest, coverage);
        var (inner, left) := ParseMinTypMax(first.value, rest, coverage);
        ParenJoins(Some(inner), left);
        assert after == Print(inner) + left == PrintOptional(Some(inner)) + left;
      } else {
        ParenJoins(None, rest);
      }
    }
  }

  lemma {:induction false} ParenJoins(inner: Option<Expr>, rest: seq<Token>)
    ensures Print(Paren(inner, false)) + rest == [LParen] + (PrintOptional(inner) + rest)
    ensures rest != [] && rest[0] == RParen ==>
      Print(Paren(inner, true)) + rest[1..] == [LParen] + (PrintOptional(inner) + rest)
  {
    if rest != [] && rest[0] == RParen {
      assert rest == [RParen] + rest[1..];
    }
  }

  lemma {:induction false} MinTypMaxSound(min: Expr, tokens: seq<Token>, coverage: bool)
    requires !min.MinTypMax? && (Complete(min) ==> Legal(min, 0, coverage))
    ensures var (expr, rest) := ParseMinTypMax(min, tokens, coverage);
      && Print(min) + tokens == Print(expr) + rest
      && (Complete(expr) ==> Legal(Paren(Some(expr), true), 0, coverage))
    decreases |tokens|, 5
  {
    if tokens != [] && tokens[0] == Colon {
      var after := tokens[1..];
      assert tokens == [Colon] + after;
      OptionalSound(after, 0, coverage);
      var (typ, rest) := ParseOptional(after, 0, coverage);
      if rest != [] && rest[0] == Colon {
        OptionalSound(rest[1..], 0, coverage);
        var (max, end) := ParseOptional(rest[1..], 0, coverage);
        assert rest == [Colon] + (PrintOptional(max) + end);
        MinTypMaxJoins(min, typ, max, end);
      } else {
        MinTypMaxCut(min, typ, rest);
      }
    }
  }

  lemma {:induction false} MinTypMaxCut(min: Expr, typ: Option<Expr>, rest: seq<Token>)
    ensures Print(MinTypMax(min, typ, false, None)) + rest == Print(min) + ([Colon] + (PrintOptional(typ) + rest))
  {
  }

  lemma {:induction false} MinTypMaxJoins(min: Expr, typ: Option<Expr>, max: Option<Expr>, end: seq<Token>)
    ensures Print(MinTypMax(min, typ, true, max)) + end ==
      Print(min) + ([Colon] + (PrintOptional(typ) + ([Colon] + (PrintOptional(max) + end))))
  {
  }

  // ----- the two together

  /** Exactly when the climb returns a complete tree. */
  lemma {:induction false} ParseExactly(tokens: seq<Token>, min: nat, coverage: bool, expr: Expr, rest: seq<Token>)
    requires Complete(expr)
    ensures ParseBinary(tokens, min, coverage) == Some((expr, rest)) <==>
      && tokens == Print(expr) + rest && Legal(expr, min, coverage)
      && Settled(expr, rest, coverage) && !StartsPostfix(rest) && !Absorbs(rest, min, coverage)
  {
    if ParseBinary(tokens, min, coverage) == Some((expr, rest)) {
      BinarySound(tokens, min, coverage);
    }
    if tokens == Print(expr) + rest && Legal(expr, min, coverage)
       && Settled(expr, rest, coverage) && !StartsPostfix(rest) && !Absorbs(rest, min, coverage) {
      ParsePrinted(expr, min, rest, coverage);
    }
  }

  /** No two legal trees print alike. */
  lemma {:induction false} Unambiguous(a: Expr, b: Expr, min: nat, coverage: bool)
    requires Legal(a, min, coverage) && Legal(b, min, coverage) && Print(a) == Print(b)
    ensures a == b
  {
    ParsePrinted(a, min, [], coverage);
    ParsePrinted(b, min, [], coverage);
  }

  /** What a legal tree prints to, on its own, parses to that tree and nothing else. */
  lemma {:induction false} PrintThenParse(expr: Expr, min: nat, coverage: bool)
    requires Legal(expr, min, coverage)
    ensures ParseBinary(Print(expr), min, coverage) == Some((expr, []))
  {
    ParsePrinted(expr, min, [], coverage);
    assert Print(expr) + [] == Print(expr);
  }

  /** No `->` or `<->` outside parentheses and the branch between `?` and `:`. */
  predicate ArrowFree(expr: Expr) {
    match expr
    case Binary(op, lhs, rhs) => op != MinusGt && op != LtMinusGt && ArrowFree(lhs) && ArrowFree(rhs)
    case Ternary(condition, _, _, no) => ArrowFree(condition) && (no.Some? ==> ArrowFree(no.value))
    case _ => true
  }

  /** Above the loosest level an expression ends before any `->` outside brackets. */
  lemma {:induction false} AntecedentStopsAtArrow(expr: Expr, min: nat, coverage: bool)
    requires Legal(expr, min, coverage) && 4 <= min
    ensures ArrowFree(expr)
  {
    match expr
    case Binary(op, lhs, rhs) =>
      AntecedentStopsAtArrow(lhs, min, coverage);
      AntecedentStopsAtArrow(rhs, Binding(op).value.1, coverage);
    case Ternary(condition, _, _, no) =>
      AntecedentStopsAtArrow(condition, min, coverage);
      AntecedentStopsAtArrow(no.value, 4, coverage);
    case _ =>
  }
}
