/**
 * What the text a definition is compared by tells apart: two definitions of the same tokens
 * compare equal exactly when they differ in nothing but the space before backslashes that
 * stand outside quotes and not after a paste.
 */
module DefineTexts {
  import opened Wrappers
  import opened Defines

  predicate IsBlank(c: char) { c == ' ' || c == '\t' || c == '\n' || c == '\r' || c as int == 12 }

  predicate AllBlank(text: string) {
    forall i :: 0 <= i < |text| ==> IsBlank(text[i])
  }

  /** A token other than whitespace starts with something to see. */
  predicate IsSolid(token: Token) {
    !token.kind.Whitespace? && token.text != "" && !IsBlank(token.text[0])
  }

  predicate AreSolid(tokens: seq<Token>) {
    forall i :: 0 <= i < |tokens| ==> IsSolid(tokens[i])
  }

  /** The whitespace before each of some tokens, and after the last. */
  predicate AreSpaces(tokens: seq<Token>, spaces: seq<string>) {
    |spaces| == |tokens| + 1 && forall i :: 0 <= i < |spaces| ==> AllBlank(spaces[i])
  }

  function Space(text: string): seq<Token> {
    if text == "" then [] else [Token(Whitespace, text)]
  }

  /** The tokens with that whitespace between them. */
  function Spread(tokens: seq<Token>, spaces: seq<string>): seq<Token>
    requires AreSpaces(tokens, spaces)
  {
    Space(spaces[0]) + if tokens == [] then [] else [tokens[0]] + Spread(tokens[1..], spaces[1..])
  }

  /** There is an odd number of quotes among the tokens. */
  function OddQuotes(tokens: seq<Token>): bool {
    if tokens == [] then false else OddQuotes(tokens[..|tokens| - 1]) != tokens[|tokens| - 1].kind.MacroQuote?
  }

  /** The space before the `i`th token does not count: it is a backslash outside quotes, and not after a paste. */
  predicate IsFree(tokens: seq<Token>, i: nat) {
    && i < |tokens| && tokens[i].kind.LineContinuation? && !OddQuotes(tokens[..i])
    && (i > 0 ==> !tokens[i - 1].kind.MacroPaste?)
  }

  /** What is left of the space at the front. */
  predicate FrontFree(tokens: seq<Token>, prev: Option<Kind>, quoted: bool) {
    tokens != [] && tokens[0].kind.LineContinuation? && !quoted && prev != Some(MacroPaste)
  }

  lemma {:induction false} ComparedFront(tokens: seq<Token>, spaces: seq<string>, prev: Option<Kind>, quoted: bool)
    requires AreSpaces(tokens, spaces) && AreSolid(tokens)
    ensures Compared(Spread(tokens, spaces), prev, quoted) ==
      (if FrontFree(tokens, prev, quoted) then "" else spaces[0])
      + (if tokens == [] then ""
         else tokens[0].text + Compared(Spread(tokens[1..], spaces[1..]), Some(tokens[0].kind), quoted != tokens[0].kind.MacroQuote?))
  {
    hide Spread;
    if tokens == [] {
      LastSpace(spaces[0], prev, quoted);
      assert spaces == [spaces[0]];
      NothingSpread(spaces);
    } else {
      var rest := Spread(tokens[1..], spaces[1..]);
      FirstSpread(tokens, spaces);
      SolidOne(tokens[0], rest, prev, quoted);
      if spaces[0] != "" {
        var all := [Token(Whitespace, spaces[0])] + ([tokens[0]] + rest);
        assert all[1..] == [tokens[0]] + rest && all[1] == tokens[0];
        SolidOne(tokens[0], rest, Some(Whitespace), quoted);
        assert Compared(all, prev, quoted) ==
          (if FrontFree(tokens, prev, quoted) then "" else spaces[0]) + Compared([tokens[0]] + rest, Some(Whitespace), quoted);
      } else {
        assert [] + ([tokens[0]] + rest) == [tokens[0]] + rest;
      }
    }
  }

  lemma NothingSpread(spaces: seq<string>)
    requires |spaces| == 1 && AllBlank(spaces[0])
    ensures Spread([], spaces) == Space(spaces[0])
  {
  }

  lemma FirstSpread(tokens: seq<Token>, spaces: seq<string>)
    requires tokens != [] && AreSpaces(tokens, spaces)
    ensures Spread(tokens, spaces) == Space(spaces[0]) + ([tokens[0]] + Spread(tokens[1..], spaces[1..]))
  {
  }

  lemma LastSpace(space: string, prev: Option<Kind>, quoted: bool)
    ensures Compared(Space(space), prev, quoted) == space
  {
    if space != "" {
      assert Space(space)[1..] == [];
      assert Compared([], Some(Whitespace), quoted) == "";
    }
  }

  lemma SolidOne(token: Token, rest: seq<Token>, prev: Option<Kind>, quoted: bool)
    requires IsSolid(token)
    ensures Compared([token] + rest, prev, quoted) ==
      token.text + Compared(rest, Some(token.kind), quoted != token.kind.MacroQuote?)
  {
    assert ([token] + rest)[1..] == rest;
  }

  /** What comes before the first thing to see is told by it. */
  lemma {:induction false} BlanksEnd(a: string, b: string, solid: string, x: string, y: string)
    requires AllBlank(a) && AllBlank(b) && solid != "" && !IsBlank(solid[0]) && a + (solid + x) == b + (solid + y)
    ensures a == b && x == y
  {
    FrontIs(a, solid, x);
    FrontIs(b, solid, y);
    if a != "" && b != "" {
      BlanksEnd(a[1..], b[1..], solid, x, y);
      assert a == [a[0]] + a[1..] && b == [b[0]] + b[1..];
    }
    assert a == b;
    assert (solid + x)[|solid|..] == x && (solid + y)[|solid|..] == y;
  }

  lemma FrontIs(a: string, solid: string, x: string)
    requires solid != ""
    ensures var text := a + (solid + x);
      && text != "" && text[0] == (if a == "" then solid[0] else a[0])
      && (a == "" ==> text == solid + x) && (a != "" ==> text[1..] == a[1..] + (solid + x))
  {
  }

  /** The spaces agree but for those that do not count. */
  predicate Agrees(tokens: seq<Token>, a: seq<string>, b: seq<string>, prev: Option<Kind>, quoted: bool)
    requires AreSpaces(tokens, a) && AreSpaces(tokens, b)
  {
    && (FrontFree(tokens, prev, quoted) || a[0] == b[0])
    && (tokens != [] ==> Agrees(tokens[1..], a[1..], b[1..], Some(tokens[0].kind), quoted != tokens[0].kind.MacroQuote?))
  }

  lemma {:induction false} AgreesExactly(tokens: seq<Token>, a: seq<string>, b: seq<string>, prev: Option<Kind>, quoted: bool)
    requires AreSolid(tokens) && AreSpaces(tokens, a) && AreSpaces(tokens, b)
    ensures Compared(Spread(tokens, a), prev, quoted) == Compared(Spread(tokens, b), prev, quoted)
      <==> Agrees(tokens, a, b, prev, quoted)
  {
    hide Compared, Spread;
    ComparedFront(tokens, a, prev, quoted);
    ComparedFront(tokens, b, prev, quoted);
    if tokens == [] {
      assert a[0] + "" == a[0] && b[0] + "" == b[0];
    } else {
      var q := quoted != tokens[0].kind.MacroQuote?;
      AgreesExactly(tokens[1..], a[1..], b[1..], Some(tokens[0].kind), q);
      var x := Compared(Spread(tokens[1..], a[1..]), Some(tokens[0].kind), q);
      var y := Compared(Spread(tokens[1..], b[1..]), Some(tokens[0].kind), q);
      var s := if FrontFree(tokens, prev, quoted) then "" else a[0];
      var t := if FrontFree(tokens, prev, quoted) then "" else b[0];
      if s + (tokens[0].text + x) == t + (tokens[0].text + y) {
        BlanksEnd(s, t, tokens[0].text, x, y);
      }
    }
  }

  /** From the `k`th token on. */
  lemma {:induction false} AgreesFrom(tokens: seq<Token>, a: seq<string>, b: seq<string>, k: nat)
    requires AreSpaces(tokens, a) && AreSpaces(tokens, b) && k <= |tokens|
    ensures Agrees(tokens[k..], a[k..], b[k..], if k == 0 then None else Some(tokens[k - 1].kind), OddQuotes(tokens[..k]))
      <==> forall i :: k <= i <= |tokens| ==> IsFree(tokens, i) || a[i] == b[i]
    decreases |tokens| - k
  {
    hide OddQuotes;
    var prev := if k == 0 then None else Some(tokens[k - 1].kind);
    assert a[k..][0] == a[k] && b[k..][0] == b[k];
    if k < |tokens| {
      assert tokens[k..][0] == tokens[k];
      OddOne(tokens, k);
      assert tokens[k..][1..] == tokens[k + 1..] && a[k..][1..] == a[k + 1..] && b[k..][1..] == b[k + 1..];
      AgreesFrom(tokens, a, b, k + 1);
      assert FrontFree(tokens[k..], prev, OddQuotes(tokens[..k])) <==> IsFree(tokens, k);
    }
  }

  lemma OddOne(tokens: seq<Token>, k: nat)
    requires k < |tokens|
    ensures OddQuotes(tokens[..k + 1]) == (OddQuotes(tokens[..k]) != tokens[k].kind.MacroQuote?)
  {
    assert tokens[..k + 1][..k] == tokens[..k];
  }

  /**
   * Definitions of the same tokens compare equal exactly when they agree in all whitespace
   * but that before such backslashes.
   */
  lemma {:induction false} ComparesExactly(tokens: seq<Token>, a: seq<string>, b: seq<string>)
    requires AreSolid(tokens) && AreSpaces(tokens, a) && AreSpaces(tokens, b)
    ensures Compared(Spread(tokens, a), None, false) == Compared(Spread(tokens, b), None, false)
      <==> forall i :: 0 <= i <= |tokens| ==> IsFree(tokens, i) || a[i] == b[i]
  {
    hide Compared, Spread, Agrees, IsFree;
    AgreesExactly(tokens, a, b, None, false);
    AgreesFrom(tokens, a, b, 0);
    assert tokens[0..] == tokens && a[0..] == a && b[0..] == b && tokens[..0] == [];
    assert !OddQuotes([]);
  }

  /** There is nothing but whitespace between the token at `j` and the one at `at`. */
  predicate RightBefore(tokens: seq<Token>, j: nat, at: nat)
    requires at <= |tokens|
  {
    j < at && !tokens[j].kind.Whitespace? && forall i :: j < i < at ==> tokens[i].kind.Whitespace?
  }

  lemma {:induction false} KindBeforeExactly(tokens: seq<Token>, at: nat, kind: Kind)
    requires at <= |tokens|
    ensures KindBefore(tokens, at) == Some(kind) <==> exists j: nat :: RightBefore(tokens, j, at) && tokens[j].kind == kind
  {
    if at > 0 {
      if tokens[at - 1].kind.Whitespace? {
        KindBeforeExactly(tokens, at - 1, kind);
        if j: nat :| RightBefore(tokens, j, at - 1) && tokens[j].kind == kind {
          assert RightBefore(tokens, j, at);
        }
        if j: nat :| RightBefore(tokens, j, at) && tokens[j].kind == kind {
          assert RightBefore(tokens, j, at - 1);
        }
      } else if tokens[at - 1].kind == kind {
        assert RightBefore(tokens, at - 1, at);
      }
    }
  }

  lemma {:induction false} QuotedExactly(tokens: seq<Token>, from: nat, at: nat)
    requires from <= at <= |tokens|
    ensures Quoted(tokens, from, at) == OddQuotes(tokens[from..at])
    decreases at
  {
    if from < at {
      QuotedExactly(tokens, from, at - 1);
      assert tokens[from..at][..at - 1 - from] == tokens[from..at - 1];
    } else {
      assert tokens[from..at] == [];
    }
  }

  /**
   * A backslash of a definition can be moved exactly if the quotes before it are closed and
   * what it stands after is neither a comment to the end of a line nor a paste.
   */
  lemma {:induction false} CanMoveExactly(tokens: seq<Token>, start: nat, at: nat)
    requires start <= at <= |tokens|
    ensures CanMove(tokens, start, at) <==>
      && !OddQuotes(tokens[start..at])
      && forall j: nat :: RightBefore(tokens, j, at) ==> !tokens[j].kind.LineComment? && !tokens[j].kind.MacroPaste?
  {
    hide RightBefore, OddQuotes, Quoted, KindBefore;
    QuotedExactly(tokens, start, at);
    KindBeforeExactly(tokens, at, LineComment);
    KindBeforeExactly(tokens, at, MacroPaste);
  }
}
