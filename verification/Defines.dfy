/**
 * The backslashes that continue a macro definition: which of them may be lined up, that
 * doing so changes nothing a definition is compared by, and where they go.
 */
module Defines {
  import opened Wrappers

  datatype Kind = DefineTick | Whitespace | MacroQuote | MacroPaste | LineComment | LineContinuation | Other

  datatype Token = Token(kind: Kind, text: string)

  /** Whitespace that ends a line, and with it a definition. */
  predicate EndsLine(token: Token) {
    token.kind.Whitespace? && '\n' in token.text
  }

  // ----- which backslashes can move

  /** The kind of the last token before `at` that is not whitespace. */
  function KindBefore(tokens: seq<Token>, at: nat): Option<Kind>
    requires at <= |tokens|
  {
    if at == 0 then None
    else if tokens[at - 1].kind.Whitespace? then KindBefore(tokens, at - 1)
    else Some(tokens[at - 1].kind)
  }

  /** Whether a quote opened between `from` and `at` is still open. */
  function Quoted(tokens: seq<Token>, from: nat, at: nat): bool
    requires from <= at <= |tokens|
  {
    if at == from then false else Quoted(tokens, from, at - 1) != tokens[at - 1].kind.MacroQuote?
  }

  /** The backslash at `at`, of the definition that starts at `start`, may have the space before it changed. */
  predicate CanMove(tokens: seq<Token>, start: nat, at: nat)
    requires start <= at <= |tokens|
  {
    !Quoted(tokens, start, at) && KindBefore(tokens, at) != Some(LineComment) && KindBefore(tokens, at) != Some(MacroPaste)
  }

  predicate Continues(tokens: seq<Token>, at: nat) {
    at < |tokens| && tokens[at].kind.LineContinuation?
  }

  /** A definition starts before `from`, and goes on up to `to` at least. */
  predicate GoesOn(tokens: seq<Token>, from: nat, to: nat) {
    && 0 < from <= to <= |tokens| && tokens[from - 1].kind.DefineTick?
    && forall i :: from <= i < to ==> !tokens[i].kind.DefineTick? && !EndsLine(tokens[i])
  }

  /** A definition, from after its name for it up to the end of its last line. */
  predicate IsDefinition(tokens: seq<Token>, from: nat, to: nat) {
    GoesOn(tokens, from, to) && (to == |tokens| || EndsLine(tokens[to]))
  }

  predicate AllMove(tokens: seq<Token>, from: nat, to: nat)
    requires from <= to <= |tokens|
  {
    forall at :: from <= at < to && Continues(tokens, at) ==> CanMove(tokens, from, at)
  }

  /** The backslashes that may be lined up: all of each definition all of whose can move. */
  ghost predicate MayLineUp(tokens: seq<Token>, at: nat) {
    exists from: nat, to: nat :: from <= at < to && LinesUp(tokens, from, to, at)
  }

  predicate LinesUp(tokens: seq<Token>, from: nat, to: nat, at: nat) {
    IsDefinition(tokens, from, to) && AllMove(tokens, from, to) && Continues(tokens, at)
  }

  /** The definition being read: where it starts, its backslashes so far, whether they all move, and if a quote is open. */
  datatype Reading = Reading(continuations: seq<nat>, all: bool, quoted: bool)

  predicate Increasing(places: seq<nat>) {
    forall i, j :: 0 <= i < j < |places| ==> places[i] < places[j]
  }

  /** The definition that goes on at `at`, if one does, starts at `from`, and is read so far. */
  ghost predicate Reads(tokens: seq<Token>, define: Option<Reading>, from: nat, at: nat)
    requires at <= |tokens|
  {
    match define
    case None => forall d: nat :: !GoesOn(tokens, d, at)
    case Some(reading) =>
      && GoesOn(tokens, from, at) && (forall d: nat :: GoesOn(tokens, d, at) ==> d == from)
      && reading.quoted == Quoted(tokens, from, at) && (reading.all <==> AllMove(tokens, from, at))
      && Increasing(reading.continuations)
      && (forall k :: k in reading.continuations <==> from <= k < at && Continues(tokens, k))
  }

  /** The backslashes of the definitions whose last line ended before `at`. */
  ghost predicate Picked(tokens: seq<Token>, movable: seq<nat>, at: nat) {
    && Increasing(movable) && (forall k :: k in movable ==> k < at)
    && (forall k: nat :: k in movable <==> exists from: nat, to: nat :: from <= k < to < at && LinesUp(tokens, from, to, k))
  }

  /** The places of the backslashes that may be lined up, in order. */
  method Movable(tokens: seq<Token>) returns (movable: seq<nat>)
    ensures Increasing(movable) && forall k: nat :: k in movable <==> MayLineUp(tokens, k)
  {
    hide Reads, Picked, GoesOn, MayLineUp, LinesUp, Increasing, KindBefore;
    movable := [];
    var define: Option<Reading> := None;
    ghost var from: nat := 0;
    NothingRead(tokens);
    for at := 0 to |tokens|
      invariant Reads(tokens, define, from, at)
      invariant Picked(tokens, movable, at) && (define.Some? ==> forall k :: k in movable ==> k < from)
    {
      match tokens[at].kind
      case DefineTick =>
        DefinitionBegins(tokens, at);
        PickedBefore(tokens, movable, at);
        PickedOn(tokens, movable, define, from, at);
        define, from := Some(Reading([], true, false)), at + 1;
      case Whitespace =>
        if EndsLine(tokens[at]) {
          LineEnded(tokens, movable, define, from, at);
          if define.Some? && define.value.all {
            movable := movable + define.value.continuations;
          }
          define := None;
        } else {
          NothingHere(tokens, define, from, at);
          PickedOn(tokens, movable, define, from, at);
        }
      case MacroQuote =>
        PickedOn(tokens, movable, define, from, at);
        QuoteRead(tokens, define, from, at);
        if define.Some? {
          define := Some(define.value.(quoted := !define.value.quoted));
        }
      case LineContinuation =>
        PickedOn(tokens, movable, define, from, at);
        ContinuationRead(tokens, define, from, at);
        if define.Some? {
          var before := KindBefore(tokens, at);
          var moves := !define.value.quoted && before != Some(LineComment) && before != Some(MacroPaste);
          define := Some(define.value.(all := define.value.all && moves, continuations := define.value.continuations + [at]));
        }
      case _ =>
        PickedOn(tokens, movable, define, from, at);
        NothingHere(tokens, define, from, at);
    }
    LastEnded(tokens, movable, define, from);
    if define.Some? && define.value.all {
      movable := movable + define.value.continuations;
    }
  }

  lemma NothingRead(tokens: seq<Token>)
    ensures Reads(tokens, None, 0, 0) && Picked(tokens, [], 0)
  {
  }

  /** A definition goes on past a token that neither starts another nor ends the line. */
  lemma GoesOnAt(tokens: seq<Token>, d: nat, at: nat)
    requires at < |tokens|
    ensures GoesOn(tokens, d, at + 1) <==>
      (d == at + 1 && tokens[at].kind.DefineTick?) || (GoesOn(tokens, d, at) && !tokens[at].kind.DefineTick? && !EndsLine(tokens[at]))
  {
    hide EndsLine;
  }

  lemma GoesOnOne(tokens: seq<Token>, at: nat)
    requires at < |tokens|
    ensures forall d: nat, next: nat :: next == at + 1 ==> (GoesOn(tokens, d, next) <==>
      (d == at + 1 && tokens[at].kind.DefineTick?) || (GoesOn(tokens, d, at) && !tokens[at].kind.DefineTick? && !EndsLine(tokens[at])))
  {
    forall d: nat, next: nat | next == at + 1
      ensures GoesOn(tokens, d, next) <==>
        (d == at + 1 && tokens[at].kind.DefineTick?) || (GoesOn(tokens, d, at) && !tokens[at].kind.DefineTick? && !EndsLine(tokens[at]))
    {
      GoesOnAt(tokens, d, at);
    }
  }

  /** The backslashes of a definition all move up to one that does not. */
  lemma AllMoveOne(tokens: seq<Token>, from: nat, at: nat)
    requires from <= at < |tokens|
    ensures AllMove(tokens, from, at + 1) <==> AllMove(tokens, from, at) && (Continues(tokens, at) ==> CanMove(tokens, from, at))
  {
    hide CanMove;
  }

  lemma PickedBefore(tokens: seq<Token>, movable: seq<nat>, at: nat)
    requires Picked(tokens, movable, at)
    ensures forall k :: k in movable ==> k < at + 1
  {
  }

  lemma DefinitionBegins(tokens: seq<Token>, at: nat)
    requires at < |tokens| && tokens[at].kind.DefineTick?
    ensures Reads(tokens, Some(Reading([], true, false)), at + 1, at + 1)
  {
    GoesOnOne(tokens, at);
  }

  lemma NothingHere(tokens: seq<Token>, define: Option<Reading>, from: nat, at: nat)
    requires at < |tokens| && Reads(tokens, define, from, at)
    requires !tokens[at].kind.DefineTick? && !EndsLine(tokens[at]) && !tokens[at].kind.MacroQuote? && !tokens[at].kind.LineContinuation?
    ensures Reads(tokens, define, from, at + 1)
  {
    GoesOnOne(tokens, at);
    hide GoesOn;
    if define.Some? {
      AllMoveOne(tokens, from, at);
    }
    hide CanMove, AllMove;
  }

  lemma QuoteRead(tokens: seq<Token>, define: Option<Reading>, from: nat, at: nat)
    requires at < |tokens| && Reads(tokens, define, from, at) && tokens[at].kind.MacroQuote?
    ensures Reads(tokens, if define.Some? then Some(define.value.(quoted := !define.value.quoted)) else None, from, at + 1)
  {
    GoesOnOne(tokens, at);
    hide GoesOn;
    if define.Some? {
      AllMoveOne(tokens, from, at);
    }
    hide CanMove, AllMove;
  }

  lemma ContinuationRead(tokens: seq<Token>, define: Option<Reading>, from: nat, at: nat)
    requires at < |tokens| && Reads(tokens, define, from, at) && tokens[at].kind.LineContinuation?
    ensures define.None? ==> Reads(tokens, None, from, at + 1)
    ensures define.Some? ==>
      var before := KindBefore(tokens, at);
      var moves := !define.value.quoted && before != Some(LineComment) && before != Some(MacroPaste);
      Reads(tokens, Some(define.value.(all := define.value.all && moves, continuations := define.value.continuations + [at])), from, at + 1)
  {
    GoesOnOne(tokens, at);
    hide GoesOn, KindBefore;
    if define.Some? {
      AllMoveOne(tokens, from, at);
      assert Quoted(tokens, from, at + 1) == Quoted(tokens, from, at);
      MoreContinuations(tokens, define.value.continuations, from, at);
    }
    hide AllMove, Quoted, Continues, Increasing;
  }

  lemma MoreContinuations(tokens: seq<Token>, continuations: seq<nat>, from: nat, at: nat)
    requires from <= at && Continues(tokens, at) && Increasing(continuations)
    requires forall k :: k in continuations <==> from <= k < at && Continues(tokens, k)
    ensures Increasing(continuations + [at])
    ensures forall k :: k in continuations + [at] <==> from <= k < at + 1 && Continues(tokens, k)
  {
    forall i | 0 <= i < |continuations| ensures continuations[i] < at {
      assert continuations[i] in continuations;
    }
  }

  /** Nothing more is picked until a line ends. */
  lemma {:induction false} PickedOn(tokens: seq<Token>, movable: seq<nat>, define: Option<Reading>, from: nat, at: nat)
    requires at < |tokens| && Picked(tokens, movable, at) && !EndsLine(tokens[at])
    ensures Picked(tokens, movable, at + 1)
  {
    hide AllMove, GoesOn, Continues;
    forall k: nat, f: nat, to: nat | f <= k < to < at + 1 && LinesUp(tokens, f, to, k) ensures to < at {
      assert IsDefinition(tokens, f, to);
    }
  }

  lemma {:induction false} LineEnded(tokens: seq<Token>, movable: seq<nat>, define: Option<Reading>, from: nat, at: nat)
    requires at < |tokens| && Reads(tokens, define, from, at) && Picked(tokens, movable, at) && EndsLine(tokens[at])
    requires define.Some? ==> forall k :: k in movable ==> k < from
    ensures Reads(tokens, None, from, at + 1)
    ensures Picked(tokens, if define.Some? && define.value.all then movable + define.value.continuations else movable, at + 1)
  {
    GoesOnOne(tokens, at);
    PickOne(tokens, movable, define, from, at);
    var more := if define.Some? && define.value.all then movable + define.value.continuations else movable;
    hide GoesOn, AllMove;
    forall k: nat
      ensures k in more <==> exists f: nat, to: nat :: f <= k < to < at + 1 && LinesUp(tokens, f, to, k)
    {
      if f: nat, to: nat :| f <= k < to < at + 1 && LinesUp(tokens, f, to, k) {
        if to == at {
          assert GoesOn(tokens, f, at);
        }
      }
    }
  }

  /** What ends at `at` is the definition being read. */
  lemma PickOne(tokens: seq<Token>, movable: seq<nat>, define: Option<Reading>, from: nat, at: nat)
    requires at <= |tokens| && Reads(tokens, define, from, at) && (at == |tokens| || EndsLine(tokens[at]))
    requires Increasing(movable) && (define.Some? ==> forall k :: k in movable ==> k < from)
    ensures define.Some? && define.value.all ==>
      (forall k :: k in define.value.continuations <==> from <= k < at && LinesUp(tokens, from, at, k))
    ensures define.Some? && !define.value.all ==> forall k :: !LinesUp(tokens, from, at, k)
    ensures define.Some? ==> Increasing(movable + define.value.continuations)
  {
    hide GoesOn, CanMove;
    if define.Some? {
      var more := movable + define.value.continuations;
      forall i, j | 0 <= i < j < |more| ensures more[i] < more[j] {
        if i < |movable| <= j {
          assert more[i] in movable && more[j] in define.value.continuations;
        }
      }
    }
  }

  lemma {:induction false} LastEnded(tokens: seq<Token>, movable: seq<nat>, define: Option<Reading>, from: nat)
    requires Reads(tokens, define, from, |tokens|) && Picked(tokens, movable, |tokens|)
    requires define.Some? ==> forall k :: k in movable ==> k < from
    ensures var more := if define.Some? && define.value.all then movable + define.value.continuations else movable;
      Increasing(more) && forall k: nat :: k in more <==> MayLineUp(tokens, k)
  {
    PickOne(tokens, movable, define, from, |tokens|);
    var more := if define.Some? && define.value.all then movable + define.value.continuations else movable;
    hide AllMove;
    forall k: nat ensures k in more <==> MayLineUp(tokens, k) {
      if f: nat, to: nat :| f <= k < to && LinesUp(tokens, f, to, k) {
        if to == |tokens| {
          assert GoesOn(tokens, f, to);
        }
      }
    }
  }

  // ----- what a definition is compared by

  /** The whitespace at the front, between `prev` and the rest, is before a backslash the formatter may move. */
  predicate Moves(tokens: seq<Token>, prev: Option<Kind>, quoted: bool)
    requires tokens != []
  {
    tokens[0].kind.Whitespace? && !quoted && Continues(tokens, 1) && prev != Some(MacroPaste)
  }

  /** The text of `tokens`, less the space before each backslash the formatter may move. */
  function Compared(tokens: seq<Token>, prev: Option<Kind>, quoted: bool): string {
    if tokens == [] then ""
    else
      var q := quoted != tokens[0].kind.MacroQuote?;
      (if Moves(tokens, prev, q) then "" else tokens[0].text) + Compared(tokens[1..], Some(tokens[0].kind), q)
  }

  /** The text a definition is compared by. */
  method Define(tokens: seq<Token>) returns (text: string)
    ensures text == Compared(tokens, None, false)
  {
    hide Compared;
    text := "";
    var quoted := false;
    assert tokens[0..] == tokens;
    for at := 0 to |tokens|
      invariant text + Compared(tokens[at..], PrevKind(tokens, at), quoted) == Compared(tokens, None, false)
    {
      ComparedStep(tokens, at, quoted);
      ghost var was := text;
      quoted := quoted != tokens[at].kind.MacroQuote?;
      var moves := tokens[at].kind.Whitespace? && !quoted && Continues(tokens, at + 1)
        && (at == 0 || !tokens[at - 1].kind.MacroPaste?);
      if !moves {
        text := text + tokens[at].text;
      }
      ghost var tail := Compared(tokens[at + 1..], Some(tokens[at].kind), quoted);
      assert was + (tokens[at].text + tail) == was + tokens[at].text + tail;
      assert was + ("" + tail) == was + tail;
    }
    NothingCompared(PrevKind(tokens, |tokens|), None, quoted);
    assert tokens[|tokens|..] == [];
  }

  lemma ComparedStep(tokens: seq<Token>, at: nat, quoted: bool)
    requires at < |tokens|
    ensures var q := quoted != tokens[at].kind.MacroQuote?;
      var moves := tokens[at].kind.Whitespace? && !q && Continues(tokens, at + 1) && (at == 0 || !tokens[at - 1].kind.MacroPaste?);
      Compared(tokens[at..], PrevKind(tokens, at), quoted)
      == (if moves then "" else tokens[at].text) + Compared(tokens[at + 1..], PrevKind(tokens, at + 1), q)
  {
    var rest := tokens[at..];
    assert rest[1..] == tokens[at + 1..] && rest[0] == tokens[at];
    assert at + 1 < |tokens| ==> rest[1] == tokens[at + 1];
  }

  function PrevKind(tokens: seq<Token>, at: nat): Option<Kind>
    requires at <= |tokens|
  {
    if at == 0 then None else Some(tokens[at - 1].kind)
  }

  function Blank(width: nat): Token {
    Token(Whitespace, Spaces(width))
  }

  function Spaces(width: nat): string {
    if width == 0 then "" else " " + Spaces(width - 1)
  }

  /** `tokens` from `at` on, with the space before each backslash of `movable` as wide as `widths` says. */
  function Respaced(tokens: seq<Token>, movable: seq<nat>, widths: nat -> nat, at: nat): seq<Token>
    requires at <= |tokens|
    decreases |tokens| - at
  {
    if at == |tokens| then []
    else if tokens[at].kind.Whitespace? && at + 1 in movable then Respaced(tokens, movable, widths, at + 1)
    else if at in movable then [Blank(widths(at)), tokens[at]] + Respaced(tokens, movable, widths, at + 1)
    else [tokens[at]] + Respaced(tokens, movable, widths, at + 1)
  }

  lemma {:induction false} QuotedFrom(tokens: seq<Token>, at: nat)
    requires 1 <= at <= |tokens| && !tokens[0].kind.MacroQuote?
    ensures Quoted(tokens, 0, at) == Quoted(tokens, 1, at)
  {
    if at > 1 {
      QuotedFrom(tokens, at - 1);
    }
  }

  /** A backslash that may be lined up stands outside quotes, and not after a paste. */
  lemma {:induction false} MovableMeans(tokens: seq<Token>, at: nat)
    requires IsDefinition(tokens, 1, |tokens|) && MayLineUp(tokens, at)
    ensures 1 <= at < |tokens| && tokens[at].kind.LineContinuation? && !Quoted(tokens, 0, at) && PrevKind(tokens, at) != Some(MacroPaste)
    ensures at > 1 && tokens[at - 1].kind.Whitespace? ==> PrevKind(tokens, at - 1) != Some(MacroPaste)
    ensures tokens[0].kind.DefineTick?
  {
    var from: nat, to: nat :| from <= at < to && LinesUp(tokens, from, to, at);
    assert tokens[from - 1].kind.DefineTick?;
    assert from == 1;
    QuotedFrom(tokens, at);
    assert CanMove(tokens, from, at);
    assert tokens[at - 1].kind.Whitespace? && at > 1 ==> KindBefore(tokens, at) == KindBefore(tokens, at - 1);
  }

  /** The tokens before are the same, but that the space before a backslash may be gone. */
  predicate Agree(movable: seq<nat>, at: nat, prev: Option<Kind>, now: Option<Kind>) {
    prev == now || (at in movable && prev == Some(Whitespace) && now != Some(MacroPaste))
  }

  lemma {:induction false} RespacedFrom(tokens: seq<Token>, movable: seq<nat>, widths: nat -> nat, at: nat, now: Option<Kind>)
    requires IsDefinition(tokens, 1, |tokens|) && at <= |tokens|
    requires forall k: nat :: k in movable <==> MayLineUp(tokens, k)
    requires Agree(movable, at, PrevKind(tokens, at), now)
    ensures Compared(Respaced(tokens, movable, widths, at), now, Quoted(tokens, 0, at))
      == Compared(tokens[at..], PrevKind(tokens, at), Quoted(tokens, 0, at))
    decreases |tokens| - at
  {
    hide *;
    var quoted := Quoted(tokens, 0, at);
    RespacedStep(tokens, movable, widths, at);
    if at < |tokens| {
      QuotedStep(tokens, at);
      assert tokens[at..] == [tokens[at]] + tokens[at + 1..];
      if tokens[at].kind.Whitespace? && at + 1 in movable {
        MovableMeans(tokens, at + 1);
        assert tokens[at + 1..][0] == tokens[at + 1];
        DroppedOne(tokens[at], tokens[at + 1..], PrevKind(tokens, at), quoted);
        AgreeDropped(tokens, movable, at, now);
        RespacedFrom(tokens, movable, widths, at + 1, now);
      } else if at in movable {
        MovableMeans(tokens, at);
        AgreeAfter(tokens, movable, at, now);
        RespacedFrom(tokens, movable, widths, at + 1, Some(tokens[at].kind));
        Inserted(tokens[at], Respaced(tokens, movable, widths, at + 1), Blank(widths(at)), now, quoted);
        SlashOne(tokens[at], tokens[at + 1..], PrevKind(tokens, at), quoted);
      } else {
        AgreeAfter(tokens, movable, at, now);
        RespacedFrom(tokens, movable, widths, at + 1, Some(tokens[at].kind));
        NextSame(tokens, movable, widths, at);
        KeptOne(tokens[at], Respaced(tokens, movable, widths, at + 1), tokens[at + 1..], now, quoted);
      }
    } else {
      NothingCompared(now, PrevKind(tokens, at), quoted);
      assert tokens[at..] == [];
    }
  }

  lemma NothingCompared(now: Option<Kind>, prev: Option<Kind>, quoted: bool)
    ensures Compared([], now, quoted) == Compared([], prev, quoted) == ""
  {
  }

  lemma RespacedStep(tokens: seq<Token>, movable: seq<nat>, widths: nat -> nat, at: nat)
    requires at <= |tokens|
    ensures Respaced(tokens, movable, widths, at) ==
      if at == |tokens| then []
      else if tokens[at].kind.Whitespace? && at + 1 in movable then Respaced(tokens, movable, widths, at + 1)
      else if at in movable then [Blank(widths(at)), tokens[at]] + Respaced(tokens, movable, widths, at + 1)
      else [tokens[at]] + Respaced(tokens, movable, widths, at + 1)
    ensures forall w :: Blank(w).kind == Whitespace
  {
  }

  lemma QuotedStep(tokens: seq<Token>, at: nat)
    requires at < |tokens|
    ensures Quoted(tokens, 0, at + 1) == (Quoted(tokens, 0, at) != tokens[at].kind.MacroQuote?)
    ensures PrevKind(tokens, at + 1) == Some(tokens[at].kind)
  {
  }

  lemma DroppedOne(token: Token, rest: seq<Token>, prev: Option<Kind>, quoted: bool)
    requires token.kind.Whitespace? && !quoted && rest != [] && rest[0].kind.LineContinuation? && prev != Some(MacroPaste)
    ensures Compared([token] + rest, prev, quoted) == Compared(rest, Some(Whitespace), quoted)
  {
    assert ([token] + rest)[1..] == rest && ([token] + rest)[1] == rest[0];
  }

  lemma SlashOne(token: Token, rest: seq<Token>, prev: Option<Kind>, quoted: bool)
    requires token.kind.LineContinuation?
    ensures Compared([token] + rest, prev, quoted) == token.text + Compared(rest, Some(LineContinuation), quoted)
  {
    assert ([token] + rest)[1..] == rest;
  }

  lemma AgreeDropped(tokens: seq<Token>, movable: seq<nat>, at: nat, now: Option<Kind>)
    requires at < |tokens| && Agree(movable, at, PrevKind(tokens, at), now) && PrevKind(tokens, at) != Some(MacroPaste)
    requires tokens[at].kind.Whitespace? && at + 1 in movable
    ensures Agree(movable, at + 1, PrevKind(tokens, at + 1), now)
  {
  }

  lemma AgreeAfter(tokens: seq<Token>, movable: seq<nat>, at: nat, now: Option<Kind>)
    requires at < |tokens| && Agree(movable, at, PrevKind(tokens, at), now)
    ensures Agree(movable, at + 1, PrevKind(tokens, at + 1), Some(tokens[at].kind))
    ensures at !in movable ==> now == PrevKind(tokens, at)
    ensures PrevKind(tokens, at) != Some(MacroPaste) ==> now != Some(MacroPaste)
  {
  }

  /** A space before a backslash that may move is not compared. */
  lemma Inserted(token: Token, rest: seq<Token>, blank: Token, now: Option<Kind>, quoted: bool)
    requires token.kind.LineContinuation? && blank.kind.Whitespace? && !quoted && now != Some(MacroPaste)
    ensures Compared([blank, token] + rest, now, quoted) == token.text + Compared(rest, Some(LineContinuation), quoted)
  {
    var all := [blank, token] + rest;
    assert all[1..] == [token] + rest && all[1..][1..] == rest;
  }

  /** What follows a token is a backslash after as it was before. */
  lemma NextSame(tokens: seq<Token>, movable: seq<nat>, widths: nat -> nat, at: nat)
    requires at < |tokens| && at !in movable && !(tokens[at].kind.Whitespace? && at + 1 in movable)
    requires IsDefinition(tokens, 1, |tokens|) && forall k: nat :: k in movable <==> MayLineUp(tokens, k)
    ensures tokens[at].kind.Whitespace? ==>
      (Continues(Respaced(tokens, movable, widths, at + 1), 0) <==> Continues(tokens[at + 1..], 0))
  {
    hide IsDefinition, MayLineUp;
    if at + 1 < |tokens| && tokens[at].kind.Whitespace? {
      if tokens[at + 1].kind.Whitespace? && at + 2 in movable {
        MovableMeans(tokens, at + 2);
      }
    }
  }

  lemma KeptOne(token: Token, rest: seq<Token>, was: seq<Token>, prev: Option<Kind>, quoted: bool)
    requires token.kind.Whitespace? ==> (Continues(rest, 0) <==> Continues(was, 0))
    requires Compared(rest, Some(token.kind), quoted != token.kind.MacroQuote?) == Compared(was, Some(token.kind), quoted != token.kind.MacroQuote?)
    ensures Compared([token] + rest, prev, quoted) == Compared([token] + was, prev, quoted)
  {
    assert ([token] + rest)[1..] == rest && ([token] + was)[1..] == was;
  }

  /** Respacing the backslashes that may be lined up, to any widths, leaves what a definition is compared by. */
  lemma {:induction false} RespacedCompares(tokens: seq<Token>, movable: seq<nat>, widths: nat -> nat)
    requires IsDefinition(tokens, 1, |tokens|) && forall k: nat :: k in movable <==> MayLineUp(tokens, k)
    ensures Compared(Respaced(tokens, movable, widths, 0), None, false) == Compared(tokens, None, false)
  {
    RespacedFrom(tokens, movable, widths, 0, None);
    assert tokens[0..] == tokens;
  }

  // ----- where the backslashes go

  /** A backslash to place: where its line ends, and its column. */
  datatype Slash = Slash(end: nat, column: nat)

  /** The lines from `from` up to `to` of those continued follow on each other, and those around them do not. */
  ghost predicate IsRun(continued: seq<nat>, from: nat, to: nat) {
    && from < to <= |continued| && (forall i :: from <= i < to ==> continued[i] == continued[from] + (i - from))
    && (to < |continued| ==> continued[to] != continued[to - 1] + 1)
    && (from > 0 ==> continued[from] != continued[from - 1] + 1)
  }

  /** The column is right after the longest of the lines. */
  ghost predicate AfterLongest(continued: seq<nat>, ends: seq<nat>, from: nat, to: nat, column: nat)
    requires from <= to <= |continued| && forall i :: from <= i < to ==> continued[i] < |ends|
  {
    && (forall i :: from <= i < to ==> ends[continued[i]] < column)
    && exists i :: from <= i < to && column == ends[continued[i]] + 1
  }

  /** The backslashes of a run are in one column, right after its longest line: each after a space at least. */
  ghost predicate LinedUp(continued: seq<nat>, ends: seq<nat>, placed: seq<Option<Slash>>, from: nat, to: nat, column: nat) {
    && |placed| == |ends| && IsRun(continued, from, to) && (forall i :: from <= i < to ==> continued[i] < |ends|)
    && AfterLongest(continued, ends, from, to, column)
    && forall i :: from <= i < to ==> placed[continued[i]] == Some(Slash(ends[continued[i]], column))
  }

  ghost predicate InColumn(continued: seq<nat>, ends: seq<nat>, placed: seq<Option<Slash>>, i: nat) {
    exists from: nat, to: nat, column: nat :: from <= i < to && LinedUp(continued, ends, placed, from, to, column)
  }

  /** Where the run that starts at `from` ends, and where its longest line does. */
  method LongestLine(continued: seq<nat>, ends: seq<nat>, from: nat) returns (to: nat, longest: nat)
    requires from < |continued| && forall i :: 0 <= i < |continued| ==> continued[i] < |ends|
    requires from > 0 ==> continued[from] != continued[from - 1] + 1
    ensures IsRun(continued, from, to) && AfterLongest(continued, ends, from, to, longest + 1)
  {
    to, longest := from + 1, ends[continued[from]];
    while to < |continued| && continued[to] == continued[to - 1] + 1
      invariant from < to <= |continued| && forall i :: from <= i < to ==> continued[i] == continued[from] + (i - from)
      invariant AfterLongest(continued, ends, from, to, longest + 1)
    {
      if ends[continued[to]] > longest {
        longest := ends[continued[to]];
      }
      to := to + 1;
    }
  }

  method PlaceRun(continued: seq<nat>, ends: seq<nat>, was: seq<Option<Slash>>, from: nat, to: nat, column: nat)
    returns (placed: seq<Option<Slash>>)
    requires from <= to <= |continued| && |was| == |ends| && forall i :: 0 <= i < |continued| ==> continued[i] < |ends|
    ensures |placed| == |ends|
    ensures forall i :: from <= i < to ==> placed[continued[i]] == Some(Slash(ends[continued[i]], column))
    ensures forall line :: 0 <= line < |ends| && line !in continued[from..to] ==> placed[line] == was[line]
  {
    placed := was;
    for j := from to to
      invariant |placed| == |ends|
      invariant forall i :: from <= i < j ==> placed[continued[i]] == Some(Slash(ends[continued[i]], column))
      invariant forall line :: 0 <= line < |ends| && line !in continued[from..j] ==> placed[line] == was[line]
    {
      assert continued[from..j + 1] == continued[from..j] + [continued[j]];
      placed := placed[continued[j] := Some(Slash(ends[continued[j]], column))];
    }
  }

  lemma InBounds(continued: seq<nat>, from: nat, to: nat)
    requires IsRun(continued, from, to)
    ensures from <= to <= |continued|
  {
  }

  /** Where the backslash of each continued line goes; `ends` says where each line ends. */
  method Backslashes(continued: seq<nat>, ends: seq<nat>) returns (placed: seq<Option<Slash>>)
    requires Increasing(continued) && forall i :: 0 <= i < |continued| ==> continued[i] < |ends|
    ensures |placed| == |ends|
    ensures forall i :: 0 <= i < |continued| ==> InColumn(continued, ends, placed, i)
    ensures forall line :: 0 <= line < |ends| && line !in continued ==> placed[line].None?
  {
    hide IsRun, AfterLongest, InColumn;
    placed := seq(|ends|, _ => None);
    var from: nat := 0;
    while from < |continued|
      invariant from <= |continued| && |placed| == |ends|
      invariant 0 < from < |continued| ==> continued[from] != continued[from - 1] + 1
      invariant forall i :: 0 <= i < from ==> InColumn(continued, ends, placed, i)
      invariant forall line :: 0 <= line < |ends| && line !in continued[..from] ==> placed[line].None?
    {
      var to, longest := LongestLine(continued, ends, from);
      ghost var was := placed;
      InBounds(continued, from, to);
      placed := PlaceRun(continued, ends, placed, from, to, longest + 1);
      RunPlaced(continued, ends, was, placed, from, to, longest + 1);
      RunStops(continued, from, to);
      from := to;
    }
    assert continued[..from] == continued;
  }

  lemma {:induction false} RunPlaced(continued: seq<nat>, ends: seq<nat>, was: seq<Option<Slash>>, placed: seq<Option<Slash>>,
                                     from: nat, to: nat, column: nat)
    requires Increasing(continued) && (forall i :: 0 <= i < |continued| ==> continued[i] < |ends|) && IsRun(continued, from, to)
    requires |was| == |placed| == |ends| && AfterLongest(continued, ends, from, to, column)
    requires forall i :: from <= i < to ==> placed[continued[i]] == Some(Slash(ends[continued[i]], column))
    requires forall line :: 0 <= line < |ends| && line !in continued[from..to] ==> placed[line] == was[line]
    requires forall i :: 0 <= i < from ==> InColumn(continued, ends, was, i)
    requires forall line :: 0 <= line < |ends| && line !in continued[..from] ==> was[line].None?
    ensures forall i :: 0 <= i < to ==> InColumn(continued, ends, placed, i)
    ensures forall line :: 0 <= line < |ends| && line !in continued[..to] ==> placed[line].None?
  {
    assert LinedUp(continued, ends, placed, from, to, column);
    forall i | 0 <= i < from ensures InColumn(continued, ends, placed, i) {
      Elsewhere(continued, ends, was, placed, from, to, i);
    }
    assert continued[..to] == continued[..from] + continued[from..to];
  }

  lemma RunStops(continued: seq<nat>, from: nat, to: nat)
    requires IsRun(continued, from, to)
    ensures from < to <= |continued| && (to < |continued| ==> continued[to] != continued[to - 1] + 1)
  {
  }

  lemma EarlierRun(continued: seq<nat>, f: nat, t: nat, from: nat, to: nat)
    requires IsRun(continued, f, t) && IsRun(continued, from, to) && f < from
    ensures t <= from
  {
    assert forall k, l :: f <= k < l < t && l == k + 1 ==> continued[l] == continued[k] + 1;
  }

  lemma {:induction false} Elsewhere(continued: seq<nat>, ends: seq<nat>, was: seq<Option<Slash>>, placed: seq<Option<Slash>>,
                                     from: nat, to: nat, i: nat)
    requires Increasing(continued) && IsRun(continued, from, to) && i < from && |was| == |placed| == |ends|
    requires forall line :: 0 <= line < |ends| && line !in continued[from..to] ==> placed[line] == was[line]
    requires InColumn(continued, ends, was, i)
    ensures InColumn(continued, ends, placed, i)
  {
    var f: nat, t: nat, column: nat :| f <= i < t && LinedUp(continued, ends, was, f, t, column);
    EarlierRun(continued, f, t, from, to);
    forall j | f <= j < t ensures placed[continued[j]] == was[continued[j]] {
      assert forall k :: from <= k < to ==> continued[j] < continued[k];
    }
    assert LinedUp(continued, ends, placed, f, t, column);
  }
}
