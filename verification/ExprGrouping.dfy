/**
 * How operators group, by the table of precedence alone: the rows of Table 11-2 in section
 * 11.3.2 of IEEE 1800-2023, with `matches` and `&&&` between them, and `**` grouping to the
 * right.
 */
module ExprGrouping {
  import opened Wrappers
  import opened Expr
  import opened ExprTheorems

  /** Operators of one precedence, and whether they group to the right. */
  datatype Row = Row(operators: set<Operator>, right: bool)

  /** From the tightest to the loosest. */
  const ROWS: seq<Row> := [
    Row({StarStar}, true),
    Row({Star, Slash, Percent}, false),
    Row({Plus, Minus}, false),
    Row({LtLt, GtGt, LtLtLt, GtGtGt}, false),
    Row({Lt, LtEq, Gt, GtEq}, false),
    Row({EqEq, BangEq, EqEqEq, BangEqEq, EqEqQuestion, BangEqQuestion}, false),
    Row({Amp}, false),
    Row({Caret, TildeCaret, CaretTilde}, false),
    Row({Pipe}, false),
    Row({Matches}, false),
    Row({AmpAmp}, false),
    Row({PipePipe}, false),
    Row({AmpAmpAmp}, false),
    Row({Question}, true),
    Row({MinusGt, LtMinusGt}, true)]

  /** The operator is in the row. */
  predicate In(op: Operator, row: nat) {
    row < |ROWS| && op in ROWS[row].operators
  }

  const QUESTIONS: nat := 13

  // ----- the powers of a row

  function LeftPower(row: nat): nat {
    if row < 9 then 26 - 2 * row + (if row == 0 then 1 else 0)
    else match row case 9 => 9 case 10 => 8 case 11 => 6 case 12 => 5 case 13 => 5 case _ => 3
  }

  function RightPower(row: nat): nat {
    if row < 9 then (if row == 0 then 26 else 27 - 2 * row)
    else match row case 9 => 10 case 10 => 9 case 11 => 7 case 12 => 6 case 13 => 4 case _ => 2
  }

  lemma {:induction false} RowPowers(op: Operator, row: nat)
    requires In(op, row)
    ensures Binding(op) == Some((LeftPower(row), RightPower(row)))
  {
    hide *;
    if row >= 12 {
      LastRows(op, row);
    } else if row >= 9 {
      TestRows(op, row);
    } else if row >= 6 {
      BitRows(op, row);
    } else if row >= 5 {
      EqualityRow(op, row);
    } else if row >= 4 {
      ComparingRow(op, row);
    } else if row >= 3 {
      ShiftRow(op, row);
    } else {
      FirstRows(op, row);
    }
  }

  lemma FirstRows(op: Operator, row: nat)
    requires In(op, row) && row < 3
    ensures Binding(op) == Some((LeftPower(row), RightPower(row)))
  {
  }

  lemma ShiftRow(op: Operator, row: nat)
    requires In(op, row) && row == 3
    ensures Binding(op) == Some((LeftPower(row), RightPower(row)))
  {
  }

  lemma ComparingRow(op: Operator, row: nat)
    requires In(op, row) && row == 4
    ensures Binding(op) == Some((LeftPower(row), RightPower(row)))
  {
  }

  lemma EqualityRow(op: Operator, row: nat)
    requires In(op, row) && row == 5
    ensures Binding(op) == Some((LeftPower(row), RightPower(row)))
  {
  }

  lemma BitRows(op: Operator, row: nat)
    requires In(op, row) && 6 <= row < 9
    ensures Binding(op) == Some((LeftPower(row), RightPower(row)))
  {
  }

  lemma TestRows(op: Operator, row: nat)
    requires In(op, row) && 9 <= row < 12
    ensures Binding(op) == Some((LeftPower(row), RightPower(row)))
  {
  }

  lemma LastRows(op: Operator, row: nat)
    requires In(op, row) && 12 <= row
    ensures Binding(op) == Some((LeftPower(row), RightPower(row)))
  {
  }

  function RowOf(op: Operator): nat {
    match op
    case StarStar => 0
    case Star | Slash | Percent => 1
    case Plus | Minus => 2
    case LtLt | GtGt | LtLtLt | GtGtGt => 3
    case Lt | LtEq | Gt | GtEq => 4
    case EqEq | BangEq | EqEqEq | BangEqEq | EqEqQuestion | BangEqQuestion => 5
    case Amp => 6
    case Caret | TildeCaret | CaretTilde => 7
    case Pipe => 8
    case Matches => 9
    case AmpAmp => 10
    case PipePipe => 11
    case AmpAmpAmp => 12
    case Question => 13
    case _ => 14
  }

  lemma InItsRow(op: Operator)
    requires Binding(op).Some?
    ensures In(op, RowOf(op))
  {
  }

  /** An operator continues an expression exactly if it is in a row. */
  lemma {:induction false} InSomeRow(op: Operator)
    ensures Binding(op).Some? <==> exists row :: In(op, row)
  {
    hide *;
    if Binding(op).Some? {
      InItsRow(op);
    }
    if row :| In(op, row) {
      RowPowers(op, row);
    }
  }

  /** Whether the second of two operators takes what stands between them. */
  predicate SecondTakes(first: nat, second: nat) {
    second < first || (first == second && first < |ROWS| && ROWS[first].right)
  }

  lemma {:induction false} PowersCompare(first: nat, second: nat)
    requires first < |ROWS| && second < |ROWS|
    ensures SecondTakes(first, second) <==> RightPower(first) <= LeftPower(second)
    ensures !SecondTakes(first, second) ==> LeftPower(second) < RightPower(first)
  {
    assert ROWS[first].right <==> first in {0, 13, 14};
  }

  // ----- expressions between operators

  /** An operand with its prefix and postfix operators. */
  predicate IsUnit(expr: Expr, coverage: bool) {
    (IsPrimary(expr) || expr.Unary?) && Legal(expr, 0, coverage)
  }

  /**
   * What follows does not go on with an expression: no operator, one that is not binary, the
   * end of an attribute, or `matches` in a covergroup.
   */
  predicate Ends(rest: seq<Token>, coverage: bool) {
    || rest == [] || !rest[0].Sign? || rest[0].op in {Bang, Tilde, TildeAmp, TildePipe}
    || (rest[0].op == Star && |rest| > 1 && rest[1] == RParen)
    || (rest[0].op == Matches && coverage)
  }

  /** The operators that stand before an operand. */
  const PREFIXES: set<Operator> := {
    Plus, Minus, Bang, Tilde, Amp, TildeAmp, Pipe, TildePipe, Caret, TildeCaret, CaretTilde, PlusPlus, MinusMinus}

  lemma Prefixes(op: Operator)
    ensures op in PREFIXES <==> IsUnary(op)
  {
  }

  predicate Joins(op: Operator, coverage: bool) {
    op != Question && !(op == Matches && coverage)
  }

  /** All that is to be legal of an expression, and the powers at which it takes in what follows. */
  predicate Standing(expr: Expr, min: nat, spine: set<nat>, coverage: bool) {
    Legal(expr, min, coverage) && Spine(expr) == spine
  }

  lemma {:induction false} Unit(expr: Expr, min: nat, coverage: bool)
    requires IsUnit(expr, coverage)
    ensures Standing(expr, min, {}, coverage)
  {
    LegalAtAnyPower(expr, min, coverage);
  }

  lemma {:induction false} Joined(op: Operator, row: nat, lhs: Expr, rhs: Expr, min: nat, left: set<nat>, right: set<nat>, coverage: bool)
    requires In(op, row) && Joins(op, coverage) && min <= LeftPower(row)
    requires Standing(lhs, min, left, coverage) && Standing(rhs, RightPower(row), right, coverage)
    requires forall power :: power in left ==> LeftPower(row) < power
    ensures Standing(Binary(op, lhs, rhs), min, {RightPower(row)} + right, coverage)
    ensures Print(Binary(op, lhs, rhs)) == Print(lhs) + [Sign(op)] + Print(rhs)
  {
    hide In, LeftPower, RightPower;
    RowPowers(op, row);
  }

  function Choice(condition: Expr, yes: Expr, no: Expr): Expr {
    Ternary(condition, Some(yes), true, Some(no))
  }

  lemma {:induction false} Chosen(condition: Expr, yes: Expr, no: Expr, min: nat, left: set<nat>, mid: set<nat>, right: set<nat>, coverage: bool)
    requires Standing(condition, min, left, coverage) && Standing(yes, 0, mid, coverage)
    requires Standing(no, RightPower(QUESTIONS), right, coverage)
    requires min <= LeftPower(QUESTIONS) && forall power :: power in left ==> LeftPower(QUESTIONS) < power
    ensures Standing(Choice(condition, yes, no), min, {RightPower(QUESTIONS)} + right, coverage)
    ensures Print(Choice(condition, yes, no)) == Print(condition) + [Sign(Question)] + Print(yes) + [Colon] + Print(no)
  {
    hide ROWS, In, Binding, LeftPower, RightPower, IsPrimary, IsUnary, IsPostfix, ParseBinary, Print;
    QuestionPowers();
    ChoicePrints(condition, yes, no);
  }

  lemma QuestionPowers()
    ensures LeftPower(QUESTIONS) == 5 && RightPower(QUESTIONS) == 4
  {
  }

  lemma ChoicePrints(condition: Expr, yes: Expr, no: Expr)
    ensures Print(Choice(condition, yes, no)) == Print(condition) + [Sign(Question)] + Print(yes) + [Colon] + Print(no)
  {
    assert PrintOptional(Some(yes)) == Print(yes) && PrintOptional(Some(no)) == Print(no);
  }

  lemma {:induction false} Parses(expr: Expr, spine: set<nat>, rest: seq<Token>, coverage: bool)
    requires Standing(expr, 0, spine, coverage) && Ends(rest, coverage)
    ensures ParseBinary(Print(expr) + rest, 0, coverage) == Some((expr, rest))
  {
    ParsePrinted(expr, 0, rest, coverage);
  }

  lemma RowIs(op: Operator, row: nat)
    requires In(op, row)
    ensures row < |ROWS| && (row == QUESTIONS <==> op == Question)
    ensures forall coverage :: Joins(op, coverage) ==> row != QUESTIONS
  {
  }

  /**
   * Of two operators in a row the tighter takes the operand between them, of two in one
   * row the first, or the second if they group to the right.
   */
  lemma {:induction false} Groups(p: Operator, i: nat, q: Operator, j: nat, a: Expr, b: Expr, c: Expr, rest: seq<Token>, coverage: bool)
    requires In(p, i) && In(q, j) && Joins(p, coverage) && Joins(q, coverage)
    requires IsUnit(a, coverage) && IsUnit(b, coverage) && IsUnit(c, coverage) && Ends(rest, coverage)
    ensures ParseBinary(Print(a) + [Sign(p)] + Print(b) + [Sign(q)] + Print(c) + rest, 0, coverage) ==
      Some((if SecondTakes(i, j) then Binary(p, a, Binary(q, b, c)) else Binary(q, Binary(p, a, b), c), rest))
  {
    hide *;
    RowIs(p, i);
    RowIs(q, j);
    PowersCompare(i, j);
    Unit(a, 0, coverage);
    Unit(c, RightPower(j), coverage);
    Unit(b, RightPower(i), coverage);
    if SecondTakes(i, j) {
      Joined(q, j, b, c, RightPower(i), {}, {}, coverage);
      Joined(p, i, a, Binary(q, b, c), 0, {}, {RightPower(j)} + {}, coverage);
      Parses(Binary(p, a, Binary(q, b, c)), {RightPower(i)} + ({RightPower(j)} + {}), rest, coverage);
      assert Print(a) + [Sign(p)] + (Print(b) + [Sign(q)] + Print(c)) == Print(a) + [Sign(p)] + Print(b) + [Sign(q)] + Print(c);
    } else {
      Joined(p, i, a, b, 0, {}, {}, coverage);
      Joined(q, j, Binary(p, a, b), c, 0, {RightPower(i)} + {}, {}, coverage);
      Parses(Binary(q, Binary(p, a, b), c), {RightPower(j)} + {}, rest, coverage);
    }
  }

  /** After the operand of an operator a choice is of all of it, unless the operator is looser than `?:`. */
  lemma {:induction false} ChoiceAfter(p: Operator, i: nat, a: Expr, b: Expr, c: Expr, d: Expr, rest: seq<Token>, coverage: bool)
    requires In(p, i) && Joins(p, coverage)
    requires IsUnit(a, coverage) && IsUnit(b, coverage) && IsUnit(c, coverage) && IsUnit(d, coverage) && Ends(rest, coverage)
    ensures ParseBinary(Print(a) + [Sign(p)] + Print(b) + [Sign(Question)] + Print(c) + [Colon] + Print(d) + rest, 0, coverage) ==
      Some((if QUESTIONS < i then Binary(p, a, Choice(b, c, d)) else Choice(Binary(p, a, b), c, d), rest))
  {
    hide *;
    RowIs(p, i);
    QuestionRow();
    PowersCompare(i, QUESTIONS);
    SecondIs(i, QUESTIONS);
    Unit(a, 0, coverage);
    Unit(b, RightPower(i), coverage);
    Unit(c, 0, coverage);
    Unit(d, RightPower(QUESTIONS), coverage);
    if QUESTIONS < i {
      Chosen(b, c, d, RightPower(i), {}, {}, {}, coverage);
      Joined(p, i, a, Choice(b, c, d), 0, {}, {RightPower(QUESTIONS)} + {}, coverage);
      Parses(Binary(p, a, Choice(b, c, d)), {RightPower(i)} + ({RightPower(QUESTIONS)} + {}), rest, coverage);
      assert Print(a) + [Sign(p)] + (Print(b) + [Sign(Question)] + Print(c) + [Colon] + Print(d))
        == Print(a) + [Sign(p)] + Print(b) + [Sign(Question)] + Print(c) + [Colon] + Print(d);
    } else {
      Joined(p, i, a, b, 0, {}, {}, coverage);
      Chosen(Binary(p, a, b), c, d, 0, {RightPower(i)} + {}, {}, {}, coverage);
      Parses(Choice(Binary(p, a, b), c, d), {RightPower(QUESTIONS)} + {}, rest, coverage);
    }
  }

  /** After a choice an operator is of its last branch, unless it is looser than `?:`. */
  lemma {:induction false} ChoiceBefore(q: Operator, j: nat, a: Expr, b: Expr, c: Expr, d: Expr, rest: seq<Token>, coverage: bool)
    requires In(q, j) && Joins(q, coverage)
    requires IsUnit(a, coverage) && IsUnit(b, coverage) && IsUnit(c, coverage) && IsUnit(d, coverage) && Ends(rest, coverage)
    ensures ParseBinary(Print(a) + [Sign(Question)] + Print(b) + [Colon] + Print(c) + [Sign(q)] + Print(d) + rest, 0, coverage) ==
      Some((if QUESTIONS < j then Binary(q, Choice(a, b, c), d) else Choice(a, b, Binary(q, c, d)), rest))
  {
    hide *;
    RowIs(q, j);
    QuestionRow();
    PowersCompare(QUESTIONS, j);
    SecondIs(QUESTIONS, j);
    Unit(a, 0, coverage);
    Unit(b, 0, coverage);
    Unit(c, RightPower(QUESTIONS), coverage);
    Unit(d, RightPower(j), coverage);
    if QUESTIONS < j {
      Chosen(a, b, c, 0, {}, {}, {}, coverage);
      Joined(q, j, Choice(a, b, c), d, 0, {RightPower(QUESTIONS)} + {}, {}, coverage);
      Parses(Binary(q, Choice(a, b, c), d), {RightPower(j)} + {}, rest, coverage);
    } else {
      Joined(q, j, c, d, RightPower(QUESTIONS), {}, {}, coverage);
      Chosen(a, b, Binary(q, c, d), 0, {}, {}, {RightPower(j)} + {}, coverage);
      Parses(Choice(a, b, Binary(q, c, d)), {RightPower(QUESTIONS)} + ({RightPower(j)} + {}), rest, coverage);
      assert Print(a) + [Sign(Question)] + Print(b) + [Colon] + (Print(c) + [Sign(q)] + Print(d))
        == Print(a) + [Sign(Question)] + Print(b) + [Colon] + Print(c) + [Sign(q)] + Print(d);
    }
  }

  /** Between `?` and `:` stands any operation, and a choice after a choice is of its last branch. */
  lemma {:induction false} ChoiceAround(p: Operator, i: nat, a: Expr, b: Expr, c: Expr, d: Expr, e: Expr, rest: seq<Token>, coverage: bool)
    requires In(p, i) && Joins(p, coverage) && IsUnit(a, coverage) && IsUnit(b, coverage) && IsUnit(c, coverage)
    requires IsUnit(d, coverage) && IsUnit(e, coverage) && Ends(rest, coverage)
    ensures ParseBinary(Print(a) + [Sign(Question)] + (Print(b) + [Sign(p)] + Print(c)) + [Colon] + Print(d) + rest, 0, coverage) ==
      Some((Choice(a, Binary(p, b, c), d), rest))
    ensures ParseBinary(Print(a) + [Sign(Question)] + Print(b) + [Colon]
                        + (Print(c) + [Sign(Question)] + Print(d) + [Colon] + Print(e)) + rest, 0, coverage) ==
      Some((Choice(a, b, Choice(c, d, e)), rest))
  {
    hide *;
    RowIs(p, i);
    QuestionRow();
    PowersCompare(QUESTIONS, QUESTIONS);
    SecondIs(QUESTIONS, QUESTIONS);
    Unit(a, 0, coverage);
    Unit(b, 0, coverage);
    Unit(c, RightPower(i), coverage);
    Unit(c, RightPower(QUESTIONS), coverage);
    Unit(d, RightPower(QUESTIONS), coverage);
    Unit(d, 0, coverage);
    Unit(e, RightPower(QUESTIONS), coverage);
    Joined(p, i, b, c, 0, {}, {}, coverage);
    Chosen(a, Binary(p, b, c), d, 0, {}, {RightPower(i)} + {}, {}, coverage);
    Parses(Choice(a, Binary(p, b, c), d), {RightPower(QUESTIONS)} + {}, rest, coverage);
    Chosen(c, d, e, RightPower(QUESTIONS), {}, {}, {}, coverage);
    Chosen(a, b, Choice(c, d, e), 0, {}, {}, {RightPower(QUESTIONS)} + {}, coverage);
    Parses(Choice(a, b, Choice(c, d, e)), {RightPower(QUESTIONS)} + ({RightPower(QUESTIONS)} + {}), rest, coverage);
  }

  lemma QuestionRow()
    ensures QUESTIONS < |ROWS| && In(Question, QUESTIONS)
  {
  }

  lemma SecondIs(first: nat, second: nat)
    requires first == QUESTIONS || second == QUESTIONS
    ensures first != second ==> (SecondTakes(first, second) <==> second < first)
    ensures first == second ==> SecondTakes(first, second)
  {
  }

  /** A prefix operator is of its operand alone, before every other. */
  lemma {:induction false} PrefixFirst(u: Operator, p: Operator, i: nat, a: Expr, b: Expr, rest: seq<Token>, coverage: bool)
    requires u in PREFIXES && In(p, i) && Joins(p, coverage) && IsUnit(a, coverage) && IsUnit(b, coverage) && Ends(rest, coverage)
    ensures ParseBinary([Sign(u)] + Print(a) + [Sign(p)] + Print(b) + rest, 0, coverage) == Some((Binary(p, Unary(u, a), b), rest))
    ensures ParseBinary(Print(a) + [Sign(p)] + ([Sign(u)] + Print(b)) + rest, 0, coverage) == Some((Binary(p, a, Unary(u, b)), rest))
  {
    hide In, ParseBinary, LeftPower, RightPower, ROWS, PREFIXES, Ends;
    Prefixes(u);
    assert IsUnit(Unary(u, a), coverage) && IsUnit(Unary(u, b), coverage);
    Unit(a, 0, coverage);
    Unit(Unary(u, a), 0, coverage);
    Unit(b, RightPower(i), coverage);
    Unit(Unary(u, b), RightPower(i), coverage);
    Joined(p, i, Unary(u, a), b, 0, {}, {}, coverage);
    Joined(p, i, a, Unary(u, b), 0, {}, {}, coverage);
    Parses(Binary(p, Unary(u, a), b), {RightPower(i)} + {}, rest, coverage);
    Parses(Binary(p, a, Unary(u, b)), {RightPower(i)} + {}, rest, coverage);
  }

  /** The operators that stand after an operand. */
  const POSTFIXES: set<Operator> := {PlusPlus, MinusMinus}

  /** A postfix operator is of the operand it stands after alone, before prefix operators. */
  lemma {:induction false} PostfixFirst(u: Operator, x: Operator, id: nat, rest: seq<Token>, coverage: bool)
    requires u in PREFIXES && x in POSTFIXES && Ends(rest, coverage)
    ensures ParseBinary([Sign(u), Name(id), Sign(x)] + rest, 0, coverage) == Some((Unary(u, Postfix(Operand(id), x)), rest))
  {
    hide ParseBinary, PREFIXES, Ends, ROWS;
    Prefixes(u);
    var expr := Unary(u, Postfix(Operand(id), x));
    assert Print(Operand(id)) == [Name(id)];
    assert Print(expr) == [Sign(u)] + ([Name(id)] + [Sign(x)]) == [Sign(u), Name(id), Sign(x)];
    assert IsPostfix(x) && Legal(Operand(id), 0, coverage) && Legal(Postfix(Operand(id), x), 0, coverage);
    assert Standing(expr, 0, {}, coverage);
    Parses(expr, {}, rest, coverage);
  }
}
