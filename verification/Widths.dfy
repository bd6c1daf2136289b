/**
 * The widths an expression may be taken at without a word, and what they say about the
 * exact value it has.
 */
module Widths {
  import opened Wrappers

  const MAX: nat := 0xFFFF_FFFF

  /** A width in bits, of 32 bits itself; the most stands for no bound. */
  type Bits = n: nat | n <= MAX

  datatype Range = Range(least: Bits, own: Bits, room: Bits, grows: Bits)

  datatype Operator =
    | Plus | Minus | Times | Divide | Modulo | And | Or | Xor | Xnor
    | ShiftLeft | ShiftRight | Power | Compare

  /**
   * An expression: a leaf with the range it has and the value it takes, an operation as
   * wide by itself as `own` says, or one with no operator that bounds it.
   */
  datatype Expr =
    | Leaf(range: Range, value: nat)
    | Binary(op: Operator, left: Expr, right: Expr, own: Bits)
    | Conditional(taken: bool, yes: Expr, no: Expr, own: Bits)
    | Positive(operand: Expr, own: Bits)
    | Negative(operand: Expr, own: Bits)
    | Other(own: Bits)

  function Max(a: Bits, b: Bits): Bits { if a > b then a else b }

  function Min(a: Bits, b: Bits): Bits { if a < b then a else b }

  /** Addition that stays at the most there is. */
  function Saturating(a: Bits, b: Bits): Bits { if a + b > MAX then MAX else a + b }

  function RangeOf(width: Bits): Range { Range(width, width, width, width) }

  /** A constant that needs `least` bits, and is `own` wide. */
  function Constant(least: Bits, own: Bits): Range {
    Range(Min(least, own), own, MAX, Min(least, own))
  }

  /** Whether both operands are taken at the expression's width. */
  predicate Context(op: Operator) {
    op.Plus? || op.Minus? || op.Times? || op.Divide? || op.Modulo? || op.And? || op.Or? || op.Xor? || op.Xnor?
  }

  function Bounded(least: Bits, room: Bits, own: Bits): Range {
    var needed := Min(least, own);
    var wide := Max(room, needed);
    Range(needed, needed, wide, wide)
  }

  /** The bits an operation needs, and those it can carry into. */
  function Carries(op: Operator, left: Range, right: Range, own: Bits): (Bits, Bits) {
    var least := Max(left.least, right.least);
    match op
    case Plus => (least, Saturating(Max(left.grows, right.grows), 1))
    case Minus => (least, Saturating(Max(left.grows, right.grows), 1))
    case Times => (least, Saturating(left.grows, right.grows))
    case ShiftLeft => (left.least, MAX)
    case Power => (left.least, MAX)
    case ShiftRight => (left.least, left.grows)
    case _ => if Context(op) then (least, Max(left.grows, right.grows)) else (own, own)
  }

  function Operation(expr: Expr): Range {
    match expr
    case Leaf(range, _) => range
    case Binary(op, left, right, own) =>
      var (least, room) := Carries(op, Operation(left), Operation(right), own);
      Bounded(least, room, own)
    case Conditional(_, yes, no, own) =>
      var a, b := Operation(yes), Operation(no);
      var least, grows := Max(a.least, b.least), Max(a.grows, b.grows);
      if a.room == MAX && b.room == MAX then Range(least, own, MAX, grows) else Bounded(least, grows, own)
    case Positive(operand, own) =>
      var a := Operation(operand);
      Bounded(a.least, a.grows, own)
    case Negative(operand, own) =>
      var least := Operation(operand).least;
      Bounded(least, least, own)
    case Other(own) => Bounded(own, own, own)
  }

  /** The width a source is taken to `target` from, if that is outside its range. */
  function Outside(range: Range, target: Bits): Option<Bits> {
    if target < range.least then Some(range.least)
    else if target > range.room then Some(range.own)
    else None
  }

  // ----- exact values

  function Pow2(n: nat): nat {
    if n == 0 then 1 else 2 * Pow2(n - 1)
  }

  datatype Gate = AndGate | OrGate | XorGate

  predicate Switches(gate: Gate, a: bool, b: bool) {
    match gate
    case AndGate => a && b
    case OrGate => a || b
    case XorGate => a != b
  }

  /** Two numbers combined bit by bit. */
  function Bitwise(gate: Gate, a: nat, b: nat): nat
    decreases a + b
  {
    if a == 0 && b == 0 then 0
    else 2 * Bitwise(gate, a / 2, b / 2) + (if Switches(gate, a % 2 == 1, b % 2 == 1) then 1 else 0)
  }

  /** How often `b` goes into `a`. */
  function Quotient(a: nat, b: nat): (q: nat)
    requires b > 0
    ensures q <= a
  {
    if a < b then 0 else 1 + Quotient(a - b, b)
  }

  /** What is left of `a` then. */
  function Remainder(a: nat, b: nat): (r: nat)
    requires b > 0
    ensures r < b && r <= a
  {
    if a < b then a else Remainder(a - b, b)
  }

  lemma {:induction false} Divides(a: nat, b: nat)
    requires b > 0
    ensures a == Quotient(a, b) * b + Remainder(a, b)
  {
    if a >= b {
      Divides(a - b, b);
      assert (1 + Quotient(a - b, b)) * b == b + Quotient(a - b, b) * b;
    }
  }

  /** The exact value of an operation, where it has one. */
  function Applied(op: Operator, a: nat, b: nat): Option<nat> {
    match op
    case Plus => Some(a + b)
    case Times => Some(a * b)
    case Divide => if b == 0 then None else Some(Quotient(a, b))
    case Modulo => if b == 0 then None else Some(Remainder(a, b))
    case And => Some(Bitwise(AndGate, a, b))
    case Or => Some(Bitwise(OrGate, a, b))
    case Xor => Some(Bitwise(XorGate, a, b))
    case ShiftRight => Some(Quotient(a, Pow2Positive(b)))
    case _ => None
  }

  function Pow2Positive(n: nat): (r: nat)
    ensures r == Pow2(n) && r > 0
  {
    if n == 0 then 1 else 2 * Pow2Positive(n - 1)
  }

  /** The exact value of an unsigned expression of operators that never wrap below zero. */
  function Value(expr: Expr): Option<nat> {
    match expr
    case Leaf(_, value) => Some(value)
    case Binary(op, left, right, _) =>
      var a, b := Value(left), Value(right);
      if a.None? || b.None? then None else Applied(op, a.value, b.value)
    case Conditional(taken, yes, no, _) => if taken then Value(yes) else Value(no)
    case Positive(operand, _) => Value(operand)
    case _ => None
  }

  /** The value fits the bits, where they bound it. */
  predicate FitsBits(value: nat, bits: Bits) {
    bits == MAX || value < Pow2(bits)
  }

  /** Every leaf fits the bits it adds to an operation, and has room for those and for what it needs. */
  predicate SoundLeaves(expr: Expr) {
    match expr
    case Leaf(range, value) => FitsBits(value, range.grows) && range.least <= range.room && range.grows <= range.room
    case Binary(_, left, right, _) => SoundLeaves(left) && SoundLeaves(right)
    case Conditional(_, yes, no, _) => SoundLeaves(yes) && SoundLeaves(no)
    case Positive(operand, _) => SoundLeaves(operand)
    case Negative(operand, _) => SoundLeaves(operand)
    case Other(_) => true
  }

  lemma {:induction false} Pow2Grows(a: nat, b: nat)
    requires a <= b
    ensures Pow2(a) <= Pow2(b) && Pow2(a) > 0
    decreases b
  {
    if a < b {
      Pow2Grows(a, b - 1);
    } else if a > 0 {
      Pow2Grows(a - 1, a - 1);
    }
  }

  lemma {:induction false} Pow2Adds(a: nat, b: nat)
    ensures Pow2(a + b) == Pow2(a) * Pow2(b)
    decreases a
  {
    if a > 0 {
      Pow2Adds(a - 1, b);
      assert Pow2(a + b) == 2 * Pow2(a - 1 + b);
      assert 2 * (Pow2(a - 1) * Pow2(b)) == (2 * Pow2(a - 1)) * Pow2(b);
    }
  }

  /** Bit by bit nothing is carried past the wider operand. */
  lemma {:induction false} BitwiseFits(gate: Gate, a: nat, b: nat, bits: nat)
    requires a < Pow2(bits) && b < Pow2(bits)
    ensures Bitwise(gate, a, b) < Pow2(bits)
    decreases a + b
  {
    if a + b > 0 {
      assert bits > 0;
      BitwiseFits(gate, a / 2, b / 2, bits - 1);
    }
  }

  lemma {:induction false} Product(a: nat, b: nat, m: nat, n: nat)
    requires a < m && b < n
    ensures a * b < m * n
    decreases a
  {
    assert m * n == (m - 1) * n + n;
    if a == 0 {
      assert 0 * b == 0 && (m - 1) * n >= 0;
    } else {
      Product(a - 1, b, m - 1, n);
      assert a * b == (a - 1) * b + b;
    }
  }

  lemma FitsMore(value: nat, bits: Bits, more: Bits)
    requires FitsBits(value, bits) && bits <= more
    ensures FitsBits(value, more)
  {
    Pow2Grows(bits, more);
  }

  lemma {:induction false} AppliedFits(op: Operator, a: nat, b: nat, left: Range, right: Range, own: Bits)
    requires FitsBits(a, left.grows) && FitsBits(b, right.grows) && Applied(op, a, b).Some?
    ensures FitsBits(Applied(op, a, b).value, Carries(op, left, right, own).1)
  {
    hide Quotient, Remainder, Bitwise, Pow2Positive;
    var wide := Max(left.grows, right.grows);
    FitsMore(a, left.grows, wide);
    FitsMore(b, right.grows, wide);
    if Carries(op, left, right, own).1 != MAX {
      if op.Times? {
        Product(a, b, Pow2(left.grows), Pow2(right.grows));
        Pow2Adds(left.grows, right.grows);
      } else if wide != MAX {
        WithinWide(op, a, b, wide);
      }
    }
  }

  /** Where both operands are below two to `wide` bits, what is taken of them is too, or one bit more. */
  lemma {:induction false} WithinWide(op: Operator, a: nat, b: nat, wide: nat)
    requires a < Pow2(wide) && b < Pow2(wide) && Applied(op, a, b).Some? && !op.Times?
    ensures Applied(op, a, b).value < if op.Plus? then Pow2(wide + 1) else Pow2(wide)
    ensures op.ShiftRight? ==> Applied(op, a, b).value <= a
  {
    hide Quotient, Remainder, Bitwise, Pow2Positive;
    BitwiseFits(AndGate, a, b, wide);
    BitwiseFits(OrGate, a, b, wide);
    BitwiseFits(XorGate, a, b, wide);
  }

  /** The exact value of an expression is below two to the bits it adds to an operation. */
  lemma {:induction false} ValueFits(expr: Expr)
    requires SoundLeaves(expr) && Value(expr).Some?
    ensures FitsBits(Value(expr).value, Operation(expr).grows)
    decreases expr
  {
    match expr
    case Leaf(_, _) =>
    case Binary(op, left, right, own) =>
      ValueFits(left);
      ValueFits(right);
      var a, b := Value(left).value, Value(right).value;
      AppliedFits(op, a, b, Operation(left), Operation(right), own);
      var (least, room) := Carries(op, Operation(left), Operation(right), own);
      FitsMore(Applied(op, a, b).value, room, Operation(expr).grows);
    case Conditional(taken, yes, no, own) =>
      var grows := Max(Operation(yes).grows, Operation(no).grows);
      if taken {
        ValueFits(yes);
        FitsMore(Value(yes).value, Operation(yes).grows, grows);
      } else {
        ValueFits(no);
        FitsMore(Value(no).value, Operation(no).grows, grows);
      }
      FitsMore(Value(expr).value, grows, Operation(expr).grows);
    case Positive(operand, own) =>
      ValueFits(operand);
      FitsMore(Value(operand).value, Operation(operand).grows, Operation(expr).grows);
  }

  /** What an expression needs is never more than it has room for, whatever its operators. */
  lemma {:induction false} LeastWithinRoom(expr: Expr)
    requires SoundLeaves(expr)
    ensures Operation(expr).least <= Operation(expr).room
  {
  }

  /** Nor is what it adds to an operation. */
  lemma {:induction false} GrowsWithinRoom(expr: Expr)
    requires SoundLeaves(expr)
    ensures Operation(expr).grows <= Operation(expr).room
    decreases expr
  {
    if expr.Conditional? {
      GrowsWithinRoom(expr.yes);
      GrowsWithinRoom(expr.no);
    }
  }

  /**
   * An expression is reported as extended to bits its exact value never reaches: it is
   * below two to the bits the expression has room for, which are fewer.
   */
  lemma {:induction false} ExtendedPastValue(expr: Expr, target: Bits)
    requires SoundLeaves(expr) && Value(expr).Some?
    requires Operation(expr).least <= target && Outside(Operation(expr), target).Some?
    ensures Operation(expr).room < target && Value(expr).value < Pow2(Operation(expr).room) < Pow2(target)
    ensures Outside(Operation(expr), target) == Some(Operation(expr).own)
  {
    ValueFits(expr);
    GrowsWithinRoom(expr);
    Pow2Grows(Operation(expr).grows, Operation(expr).room);
    Pow2Grows(Operation(expr).room + 1, target);
  }

  /** No value is lost where nothing is reported and the target has room for what the expression adds. */
  lemma {:induction false} UnreportedFits(expr: Expr, target: Bits)
    requires SoundLeaves(expr) && Value(expr).Some? && Outside(Operation(expr), target).None?
    requires Operation(expr).grows <= target < MAX
    ensures Value(expr).value < Pow2(target)
  {
    ValueFits(expr);
    Pow2Grows(Operation(expr).grows, target);
  }

  /** The bits a value needs: up to its highest 1, and one if it has none. */
  function Needed(value: nat): nat {
    if value < 2 then 1 else 1 + Needed(value / 2)
  }

  /** They are the fewest it fits. */
  lemma {:induction false} NeededExactly(value: nat, bits: nat)
    requires bits > 0
    ensures value < Pow2(bits) <==> Needed(value) <= bits
    decreases bits
  {
    assert Pow2(1) == 2;
    if bits > 1 {
      NeededExactly(value / 2, bits - 1);
      Pow2Grows(1, bits);
    }
  }

  /**
   * A source no wider than its bits is a sound leaf, as an operand of a width and as a
   * constant by the bits it needs, whether or not it is sized or counts all its bits.
   */
  lemma {:induction false} LeafRanges(value: nat, own: Bits)
    requires 0 < own && value < Pow2(own)
    ensures Needed(value) <= own && SoundLeaves(Leaf(RangeOf(own), value))
    ensures var range := Constant(Needed(value), own);
      && SoundLeaves(Leaf(range, value)) && SoundLeaves(Leaf(range.(room := own), value))
      && SoundLeaves(Leaf(range.(grows := own), value))
  {
    NeededExactly(value, own);
    NeededExactly(value, Needed(value));
  }

  // ----- what is truncated

  /** The operands an operation takes at its own width. */
  function Operands(expr: Expr): seq<Expr> {
    match expr
    case Leaf(_, _) => []
    case Binary(op, left, right, _) =>
      (match op
       case Compare => []
       case ShiftLeft | ShiftRight | Power => [left]
       case _ => [left, right])
    case Conditional(_, yes, no, _) => [yes, no]
    case Positive(operand, _) => [operand]
    case Negative(operand, _) => [operand]
    case Other(_) => []
  }

  /** What is taken at its own width and no other's is a source. */
  predicate IsSource(expr: Expr) {
    Operands(expr) == []
  }

  function SourceBits(expr: Expr): Bits
    requires IsSource(expr)
  {
    if expr.Leaf? then expr.range.least else expr.own
  }

  /** A choice between constants of any width is one, and as wide as it needs to be. */
  predicate AnyWidth(expr: Expr) {
    expr.Conditional? && Operation(expr.yes).room == MAX && Operation(expr.no).room == MAX
  }

  /**
   * `source` is taken at the width of `expr`, of which it needs `bits`: no more than any
   * operation on the way is wide by itself.
   */
  ghost predicate Needs(expr: Expr, source: Expr, bits: Bits) {
    if IsSource(expr) then source == expr && bits == SourceBits(expr)
    else
      exists operand, least: Bits :: operand in Operands(expr) && Needs(operand, source, least)
        && bits == (if AnyWidth(expr) then least else Min(least, expr.own))
  }

  /** What an expression needs is the most that a source of it needs. */
  lemma {:induction false} LeastIsMost(expr: Expr) returns (source: Expr)
    ensures Needs(expr, source, Operation(expr).least)
    ensures forall other, bits: Bits :: Needs(expr, other, bits) ==> bits <= Operation(expr).least
    decreases expr
  {
    hide Needs;
    if IsSource(expr) {
      source := expr;
      SourceNeeds(expr);
    } else {
      var operands := Operands(expr);
      var first := LeastIsMost(operands[0]);
      source := first;
      var widest := operands[0];
      if |operands| == 2 {
        var second := LeastIsMost(operands[1]);
        if Operation(operands[0]).least < Operation(operands[1]).least {
          source, widest := second, operands[1];
        }
      }
      LeastOf(expr);
      OperandNeeds(expr, widest, source, Operation(widest).least);
      forall other, bits: Bits | Needs(expr, other, bits) ensures bits <= Operation(expr).least {
        var operand, least := NeedsIn(expr, other, bits);
      }
    }
  }

  lemma SourceNeeds(expr: Expr)
    requires IsSource(expr)
    ensures Needs(expr, expr, Operation(expr).least)
    ensures forall other, bits: Bits :: Needs(expr, other, bits) ==> bits == Operation(expr).least
  {
  }

  lemma OperandNeeds(expr: Expr, operand: Expr, source: Expr, least: Bits)
    requires operand in Operands(expr) && Needs(operand, source, least)
    ensures Needs(expr, source, if AnyWidth(expr) then least else Min(least, expr.own))
  {
  }

  lemma NeedsIn(expr: Expr, source: Expr, bits: Bits) returns (operand: Expr, least: Bits)
    requires !IsSource(expr) && Needs(expr, source, bits)
    ensures operand in Operands(expr) && Needs(operand, source, least)
    ensures bits == (if AnyWidth(expr) then least else Min(least, expr.own))
  {
    operand, least :| operand in Operands(expr) && Needs(operand, source, least)
      && bits == (if AnyWidth(expr) then least else Min(least, expr.own));
  }

  lemma LeastOf(expr: Expr)
    requires !IsSource(expr)
    ensures var operands := Operands(expr);
      && 1 <= |operands| <= 2
      && var least := if |operands| == 1 then Operation(operands[0]).least
                      else Max(Operation(operands[0]).least, Operation(operands[1]).least);
         Operation(expr).least == if AnyWidth(expr) then least else Min(least, expr.own)
  {
  }

  /**
   * An expression is reported as truncated exactly when one of its sources needs more bits
   * than it is taken to, and then from the most that one needs.
   */
  lemma {:induction false} TruncatedExactly(expr: Expr, target: Bits)
    ensures (exists source, bits: Bits :: Needs(expr, source, bits) && target < bits) <==> target < Operation(expr).least
    ensures target < Operation(expr).least ==>
      exists source, bits: Bits :: Outside(Operation(expr), target) == Some(bits) && Needs(expr, source, bits)
    ensures Outside(Operation(expr), target).None? ==> forall source, bits: Bits :: Needs(expr, source, bits) ==> bits <= target
  {
    hide Needs;
    var source := LeastIsMost(expr);
  }

  // ----- that the room is no wider than it must be

  lemma {:induction false} AllOnes(bits: nat, more: nat)
    requires bits > 0
    ensures Pow2(bits) >= 2 && (Pow2(bits) - 1 < Pow2(more) ==> bits <= more)
  {
    Pow2Grows(1, bits);
    assert Pow2(1) == 2;
    if more < bits {
      Pow2Grows(more, bits - 1);
      Pow2Grows(0, bits - 1);
    }
  }

  lemma {:induction false} BitwiseNothing(gate: Gate, a: nat)
    requires !gate.AndGate?
    ensures Bitwise(gate, a, 0) == Bitwise(gate, 0, a) == a
  {
    if a > 0 {
      BitwiseNothing(gate, a / 2);
    }
  }

  function Joined(op: Operator, m: Bits, x: nat, n: Bits, y: nat, own: Bits): Expr {
    Binary(op, Leaf(RangeOf(m), x), Leaf(RangeOf(n), y), own)
  }

  /**
   * Operands of `m` and `n` bits have values whose sum, product or combination needs every
   * bit the operation has room for.
   */
  lemma {:induction false} RoomIsReached(op: Operator, m: Bits, n: Bits, own: Bits) returns (x: nat, y: nat)
    requires op in {Plus, Times, Or, Xor, ShiftRight} && 2 <= m && 2 <= n && m + n < MAX
    ensures x < Pow2(m) && y < Pow2(n) && Value(Joined(op, m, x, n, y, own)).Some?
    ensures forall bits: Bits :: Value(Joined(op, m, x, n, y, own)).value < Pow2(bits) ==>
      Operation(Joined(op, m, x, n, y, own)).room <= bits
  {
    AllOnes(m, m);
    AllOnes(n, n);
    x := if op.Plus? || op.Times? || op.ShiftRight? || m >= n then Pow2(m) - 1 else 0;
    y := if op.Plus? || op.Times? || !(op.ShiftRight? || m >= n) then Pow2(n) - 1 else 0;
    var expr := Joined(op, m, x, n, y, own);
    HalfReached(op, m, n, x, y, own);
    forall bits: Bits | Value(expr).value < Pow2(bits) ensures Operation(expr).room <= bits {
      if bits < Operation(expr).room {
        Pow2Grows(bits, Operation(expr).room - 1);
      }
    }
  }

  lemma {:induction false} HalfReached(op: Operator, m: Bits, n: Bits, x: nat, y: nat, own: Bits)
    requires op in {Plus, Times, Or, Xor, ShiftRight} && 2 <= m && 2 <= n && m + n < MAX
    requires x == if op.Plus? || op.Times? || op.ShiftRight? || m >= n then Pow2(m) - 1 else 0
    requires y == if op.Plus? || op.Times? || !(op.ShiftRight? || m >= n) then Pow2(n) - 1 else 0
    ensures var expr := Joined(op, m, x, n, y, own);
      Operation(expr).room > 0 && Value(expr).Some? && Pow2(Operation(expr).room - 1) <= Value(expr).value
  {
    hide Quotient, Remainder, Bitwise, Pow2Positive, Pow2;
    Halves(m);
    Halves(n);
    Halves(m + n);
    Halves(Max(m, n) + 1);
    match op
    case Plus =>
    case Times => TimesReached(m, n);
    case ShiftRight => Unshifted(x);
    case Or =>
      BitwiseNothing(OrGate, if m >= n then x else y);
    case Xor =>
      BitwiseNothing(XorGate, if m >= n then x else y);
  }

  lemma Halves(bits: nat)
    requires bits >= 2
    ensures Pow2(bits) == 2 * Pow2(bits - 1) && Pow2(bits - 1) >= 2
  {
    Pow2Grows(1, bits - 1);
    assert Pow2(1) == 2;
  }

  lemma {:induction false} TimesReached(m: nat, n: nat)
    requires m >= 2 && n >= 2
    ensures Pow2(m + n - 1) <= (Pow2(m) - 1) * (Pow2(n) - 1)
  {
    hide Pow2;
    Halves(m);
    Halves(n);
    Pow2Adds(m - 1, n);
    Doubles(Pow2(m - 1), Pow2(n - 1));
  }

  lemma {:induction false} Doubles(a: nat, b: nat)
    requires a >= 2 && b >= 2
    ensures a * (2 * b) <= (2 * a - 1) * (2 * b - 1)
    decreases a
  {
    var c := 2 * b - 1;
    if a > 2 {
      Doubles(a - 1, b);
      assert a * (2 * b) == (a - 1) * (2 * b) + 2 * b;
      assert (2 * a - 1) * c == (2 * (a - 1) - 1) * c + 2 * c;
    }
  }

  lemma Unshifted(x: nat)
    ensures Quotient(x, Pow2Positive(0)) == x
  {
    hide Quotient, Remainder;
    Divides(x, 1);
  }

  // ----- the other operators

  /** The value fits the bits, the first of them for its sign. */
  predicate FitsSigned(value: int, bits: Bits) {
    bits > 0 && -(Pow2(bits - 1) as int) <= value < Pow2(bits - 1)
  }

  /** The difference of operands fits the bits a subtraction has room for, one of them for its sign. */
  lemma {:induction false} DifferenceFits(left: Expr, right: Expr, own: Bits, a: nat, b: nat)
    requires Operation(left).grows < MAX - 1 && Operation(right).grows < MAX - 1
    requires a < Pow2(Operation(left).grows) && b < Pow2(Operation(right).grows)
    ensures var room := Operation(Binary(Minus, left, right, own)).room;
      FitsSigned(a - b, room)
  {
    var room := Operation(Binary(Minus, left, right, own)).room;
    Pow2Grows(Operation(left).grows, room - 1);
    Pow2Grows(Operation(right).grows, room - 1);
  }

  /** And operands of two bits or more have a difference that needs all of them. */
  lemma {:induction false} DifferenceReached(m: Bits, n: Bits, own: Bits) returns (x: nat, y: nat, difference: int)
    requires 2 <= m && 2 <= n && m + n < MAX
    ensures x < Pow2(m) && y < Pow2(n) && difference == x - y
    ensures forall bits: Bits :: FitsSigned(difference, bits) ==>
      Operation(Joined(Minus, m, x, n, y, own)).room <= bits
  {
    Halves(m);
    Halves(n);
    x := if m >= n then Pow2(m) - 1 else 0;
    y := if m >= n then 0 else Pow2(n) - 1;
    difference := x - y;
    var wide: nat := if m >= n then m else n;
    assert Operation(Joined(Minus, m, x, n, y, own)).room == wide + 1;
    forall bits: Bits | FitsSigned(difference, bits) ensures wide + 1 <= bits {
      if bits - 1 < wide {
        Pow2Grows(bits - 1, wide - 1);
      }
    }
  }

  /** The value needs every one of the bits. */
  predicate NeedsAll(value: nat, bits: nat) {
    bits > 0 && Pow2(bits - 1) <= value
  }

  /** What needs every bit it adds to an operation needs every bit a plus before it, or a choice it is the widest of, has room for. */
  lemma {:induction false} RoomPassedOn(expr: Expr, operand: Expr)
    requires expr.Positive? || (expr.Conditional? && !AnyWidth(expr))
    requires operand == if expr.Positive? then expr.operand else if expr.taken then expr.yes else expr.no
    requires Value(operand).Some? && NeedsAll(Value(operand).value, Operation(operand).grows)
    requires forall other :: other in Operands(expr) ==>
      Operation(other).grows <= Operation(operand).grows && Operation(other).least <= Operation(operand).grows
    ensures Value(expr) == Value(operand) && NeedsAll(Value(expr).value, Operation(expr).room)
  {
    assert expr.Conditional? ==> expr.yes in Operands(expr) && expr.no in Operands(expr);
    assert expr.Positive? ==> operand in Operands(expr);
  }
}
