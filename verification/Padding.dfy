/**
 * Text with spaces inserted at given places, and where that leaves each character.
 */
module Padding {
  import opened LayoutSpacing
  import opened LayoutColumns

  datatype Pad = Pad(offset: nat, count: nat)

  predicate Sorted(pads: seq<Pad>) {
    forall i, j :: 0 <= i < j < |pads| ==> pads[i].offset <= pads[j].offset
  }

  /** The pads are within `out`, none before `from`. */
  predicate Fitting(pads: seq<Pad>, out: string, from: nat) {
    forall i :: 0 <= i < |pads| ==> from <= pads[i].offset <= |out|
  }

  /** `out` from `from` on, with the pads in it. */
  function Inserted(out: string, pads: seq<Pad>, from: nat): string
    requires from <= |out| && Sorted(pads) && Fitting(pads, out, from)
  {
    if pads == [] then out[from..]
    else
      assert forall i :: 0 < i < |pads| ==> pads[0].offset <= pads[i].offset;
      out[from..pads[0].offset] + Spaces(pads[0].count) + Inserted(out, pads[1..], pads[0].offset)
  }

  /** The spaces inserted at `offset` or before it. */
  function Upto(pads: seq<Pad>, offset: nat): nat {
    if pads == [] then 0 else (if pads[0].offset <= offset then pads[0].count else 0) + Upto(pads[1..], offset)
  }

  /** Where the character at `offset` goes. */
  function Moved(pads: seq<Pad>, offset: nat): nat {
    offset + Upto(pads, offset)
  }

  predicate At(s: string, k: nat, c: char) {
    k < |s| && s[k] == c
  }

  /** Whether the character at `k` is one that was there before, not an inserted space. */
  predicate Was(out: string, pads: seq<Pad>, k: nat) {
    exists offset: nat :: offset < |out| && Moved(pads, offset) == k
  }

  lemma {:induction false} UptoGrows(pads: seq<Pad>, a: nat, b: nat)
    requires a <= b
    ensures Upto(pads, a) <= Upto(pads, b)
  {
    if pads != [] {
      UptoGrows(pads[1..], a, b);
    }
  }

  lemma {:induction false} NoneUpto(pads: seq<Pad>, offset: nat)
    requires forall i :: 0 <= i < |pads| ==> pads[i].offset > offset
    ensures Upto(pads, offset) == 0
  {
    if pads != [] {
      NoneUpto(pads[1..], offset);
    }
  }

  /** Every character is there, where the spaces before it put it, and all else is a space. */
  ghost predicate Widened(out: string, pads: seq<Pad>, from: nat, padded: string)
    requires from <= |out|
  {
    && |padded| == |out| - from + Upto(pads, |out|)
    && (forall offset: nat :: from <= offset < |out| ==> At(padded, Moved(pads, offset) - from, out[offset]))
    && forall k: nat :: from <= k < from + |padded| && padded[k - from] != ' ' ==> Was(out, pads, k)
  }

  lemma {:induction false} Widens(out: string, pads: seq<Pad>, from: nat)
    requires from <= |out| && Sorted(pads) && Fitting(pads, out, from)
    ensures Widened(out, pads, from, Inserted(out, pads, from))
    decreases |pads|
  {
    var padded := Inserted(out, pads, from);
    if pads == [] {
      forall k: nat | from <= k < from + |padded| ensures Was(out, pads, k) {
        assert Moved(pads, k) == k;
      }
    } else {
      var first, rest := pads[0], pads[1..];
      assert forall i :: 0 <= i < |rest| ==> rest[i] == pads[i + 1];
      Widens(out, rest, first.offset);
      SpacesAre(first.count);
      WidensOne(out, pads, from, Inserted(out, rest, first.offset));
    }
  }

  lemma {:induction false} WidensOne(out: string, pads: seq<Pad>, from: nat, tail: string)
    requires from <= |out| && pads != [] && Sorted(pads) && Fitting(pads, out, from)
    requires Widened(out, pads[1..], pads[0].offset, tail)
    requires |Spaces(pads[0].count)| == pads[0].count && forall i :: 0 <= i < pads[0].count ==> Spaces(pads[0].count)[i] == ' '
    ensures Widened(out, pads, from, out[from..pads[0].offset] + Spaces(pads[0].count) + tail)
  {
    hide Spaces;
    var first, rest, spaces := pads[0], pads[1..], Spaces(pads[0].count);
    var head := out[from..first.offset];
    var padded := head + spaces + tail;
    var n := |head| + first.count;
    forall offset: nat | from <= offset < |out| ensures At(padded, Moved(pads, offset) - from, out[offset]) {
      if offset < first.offset {
        NoneUpto(rest, offset);
        assert padded[offset - from] == head[offset - from];
      } else {
        assert At(tail, Moved(rest, offset) - first.offset, out[offset]);
        assert padded[Moved(rest, offset) - first.offset + n] == tail[Moved(rest, offset) - first.offset];
      }
    }
    assert forall k :: |head| <= k < n ==> padded[k] == ' ' by {
      assert forall k :: |head| <= k < n ==> padded[k] == spaces[k - |head|];
    }
    forall k: nat | from <= k < from + |padded| && padded[k - from] != ' ' ensures Was(out, pads, k) {
      if k - from < |head| {
        NoneUpto(rest, k);
        assert Moved(pads, k) == k;
      } else {
        var there := k - from - n + first.offset;
        assert padded[k - from] == tail[k - from - n] && Was(out, rest, there);
        var offset: nat :| offset < |out| && Moved(rest, offset) == there;
        LaterOnly(rest, first.offset, offset);
        assert Moved(pads, offset) == k;
      }
    }
  }

  /** Before every pad nothing moves. */
  lemma {:induction false} LaterOnly(pads: seq<Pad>, from: nat, offset: nat)
    requires forall i :: 0 <= i < |pads| ==> from <= pads[i].offset
    requires Moved(pads, offset) >= from
    ensures offset >= from
  {
    if offset < from {
      NoneUpto(pads, offset);
      assert false;
    }
  }

  // ----- what padding keeps

  /** No space goes before a line end, or after everything. */
  predicate OffLineEnds(pads: seq<Pad>, out: string) {
    forall i :: 0 <= i < |pads| && pads[i].count > 0 ==> pads[i].offset < |out| && !IsNewline(out[pads[i].offset])
  }

  /** No space goes into a text. */
  predicate OffTexts(pads: seq<Pad>, texts: seq<string>, starts: seq<nat>)
    requires |starts| == |texts|
  {
    forall i :: 0 <= i < |pads| && pads[i].count > 0 ==> Between(texts, starts, pads[i].offset)
  }

  lemma {:induction false} SameUpto(pads: seq<Pad>, a: nat, b: nat)
    requires a <= b && forall i :: 0 <= i < |pads| && pads[i].count > 0 ==> !(a < pads[i].offset <= b)
    ensures Upto(pads, a) == Upto(pads, b)
  {
    if pads != [] {
      SameUpto(pads[1..], a, b);
    }
  }

  /** Where the texts go. */
  function MovedAll(pads: seq<Pad>, starts: seq<nat>): seq<nat> {
    seq(|starts|, i requires 0 <= i < |starts| => Moved(pads, starts[i]))
  }

  /** A text stays whole: each of its characters moves as its first does. */
  lemma {:induction false} TextMoves(pads: seq<Pad>, texts: seq<string>, starts: seq<nat>, i: nat, offset: nat)
    requires |starts| == |texts| && OffTexts(pads, texts, starts) && i < |texts| && starts[i] <= offset < starts[i] + |texts[i]|
    ensures Moved(pads, offset) == Moved(pads, starts[i]) + (offset - starts[i])
  {
    forall j | 0 <= j < |pads| && pads[j].count > 0 ensures !(starts[i] < pads[j].offset <= offset) {
      assert Between(texts, starts, pads[j].offset);
    }
    SameUpto(pads, starts[i], offset);
  }

  lemma {:induction false} TextsStay(out: string, pads: seq<Pad>, padded: string, texts: seq<string>, starts: seq<nat>)
    requires Widened(out, pads, 0, padded) && Located(out, texts, starts) && OffTexts(pads, texts, starts)
    ensures Located(padded, texts, MovedAll(pads, starts))
  {
    hide Widened, OffTexts, Upto, Covered, IsBlank, Holds;
    var moved := MovedAll(pads, starts);
    forall i | 0 <= i < |texts|
      ensures texts[i] != "" && EndBefore(texts, moved, i) <= moved[i] && Holds(padded, moved[i], texts[i])
    {
      TextHeld(out, pads, padded, texts, starts, i);
      if i > 0 {
        UptoGrows(pads, starts[i - 1], starts[i]);
        assert EndBefore(texts, starts, i) == starts[i - 1] + |texts[i - 1]|;
      }
    }
    forall k | 0 <= k < |padded| && !IsBlank(padded[k]) ensures Covered(texts, moved, k) {
      StillCovered(out, pads, padded, texts, starts, k);
    }
  }

  lemma {:induction false} StillCovered(out: string, pads: seq<Pad>, padded: string, texts: seq<string>, starts: seq<nat>, k: nat)
    requires Widened(out, pads, 0, padded) && Located(out, texts, starts) && OffTexts(pads, texts, starts)
    requires k < |padded| && !IsBlank(padded[k])
    ensures Covered(texts, MovedAll(pads, starts), k)
  {
    hide OffTexts, Holds, Upto;
    assert Was(out, pads, k);
    var offset: nat :| offset < |out| && Moved(pads, offset) == k;
    assert At(padded, Moved(pads, offset), out[offset]);
    assert Covered(texts, starts, offset);
    var i :| 0 <= i < |texts| && starts[i] <= offset < starts[i] + |texts[i]|;
    TextMoves(pads, texts, starts, i, offset);
    assert MovedAll(pads, starts)[i] <= k < MovedAll(pads, starts)[i] + |texts[i]|;
  }

  lemma {:induction false} TextHeld(out: string, pads: seq<Pad>, padded: string, texts: seq<string>, starts: seq<nat>, i: nat)
    requires Widened(out, pads, 0, padded) && |starts| == |texts| && OffTexts(pads, texts, starts)
    requires i < |texts| && texts[i] != "" && Holds(out, starts[i], texts[i])
    ensures Holds(padded, Moved(pads, starts[i]), texts[i])
  {
    var at, text := Moved(pads, starts[i]), texts[i];
    TextMoves(pads, texts, starts, i, starts[i] + |text| - 1);
    assert At(padded, Moved(pads, starts[i] + |text| - 1), out[starts[i] + |text| - 1]);
    var held := padded[at..at + |text|];
    forall j | 0 <= j < |text| ensures held[j] == text[j] {
      TextMoves(pads, texts, starts, i, starts[i] + j);
      assert out[starts[i] + j] == out[starts[i]..starts[i] + |text|][j];
      assert At(padded, Moved(pads, starts[i] + j), out[starts[i] + j]);
    }
  }

  /** A line end stays right after what it ended. */
  lemma {:induction false} LineEndMoves(out: string, pads: seq<Pad>, padded: string, k: nat) returns (offset: nat)
    requires Widened(out, pads, 0, padded) && OffLineEnds(pads, out) && k < |padded| && IsNewline(padded[k])
    ensures offset < |out| && Moved(pads, offset) == k && out[offset] == padded[k]
    ensures offset > 0 ==> k > 0 && Moved(pads, offset - 1) == k - 1 && padded[k - 1] == out[offset - 1]
    ensures offset == 0 ==> k == 0
  {
    assert Was(out, pads, k);
    offset :| offset < |out| && Moved(pads, offset) == k;
    assert At(padded, Moved(pads, offset), out[offset]);
    assert forall i :: 0 <= i < |pads| && pads[i].count > 0 ==> pads[i].offset != offset;
    if offset > 0 {
      SameUpto(pads, offset - 1, offset);
      assert At(padded, Moved(pads, offset - 1), out[offset - 1]);
    } else {
      AllUptoZero(pads);
    }
  }

  lemma {:induction false} AllUptoZero(pads: seq<Pad>)
    requires forall i :: 0 <= i < |pads| && pads[i].count > 0 ==> pads[i].offset != 0
    ensures Upto(pads, 0) == 0
  {
    if pads != [] {
      AllUptoZero(pads[1..]);
    }
  }

  lemma {:induction false} StillNoTrailing(out: string, pads: seq<Pad>, padded: string)
    requires Widened(out, pads, 0, padded) && OffLineEnds(pads, out) && NoTrailingSpace(out)
    ensures NoTrailingSpace(padded)
  {
    forall k | 0 <= k < |padded| - 1 && IsNewline(padded[k + 1]) ensures padded[k] != ' ' {
      var offset := LineEndMoves(out, pads, padded, k + 1);
    }
  }

  lemma {:induction false} StillNoDouble(out: string, pads: seq<Pad>, padded: string, newline: string)
    requires Widened(out, pads, 0, padded) && OffLineEnds(pads, out) && NoDoubleBlank(out, newline) && IsLineEnd(newline)
    ensures NoDoubleBlank(padded, newline)
  {
    forall k ensures !Holds(padded, k, newline + newline + newline) {
      if Holds(padded, k, newline + newline + newline) {
        var offset := EndsMove(out, pads, padded, newline + newline + newline, k);
      }
    }
  }

  /** Line ends next to each other were so before. */
  lemma {:induction false} EndsMove(out: string, pads: seq<Pad>, padded: string, ends: string, k: int) returns (offset: nat)
    requires Widened(out, pads, 0, padded) && OffLineEnds(pads, out)
    requires ends != "" && (forall i :: 0 <= i < |ends| ==> IsNewline(ends[i])) && Holds(padded, k, ends)
    ensures Holds(out, offset, ends) && Moved(pads, offset) == k
    decreases |ends|
  {
    var n := |ends| - 1;
    assert padded[k] == padded[k..k + |ends|][0];
    if n == 0 {
      offset := LineEndMoves(out, pads, padded, k);
      assert out[offset..offset + 1] == ends;
    } else {
      var rest := ends[1..];
      assert padded[k + 1..k + 1 + n] == padded[k..k + |ends|][1..];
      var next := EndsMove(out, pads, padded, rest, k + 1);
      var same := LineEndMoves(out, pads, padded, k + 1);
      OnlyOne(pads, next, same);
      offset := next - 1;
      assert out[offset..offset + |ends|] == [out[offset]] + out[next..next + n];
    }
  }

  lemma {:induction false} OnlyOne(pads: seq<Pad>, a: nat, b: nat)
    requires Moved(pads, a) == Moved(pads, b)
    ensures a == b
  {
    if a < b {
      UptoGrows(pads, a, b);
    } else if b < a {
      UptoGrows(pads, b, a);
    }
  }

  // ----- columns

  /** The spaces inserted at the places from `from` to `to`. */
  function Among(pads: seq<Pad>, from: nat, to: nat): nat {
    if pads == [] then 0 else (if from <= pads[0].offset <= to then pads[0].count else 0) + Among(pads[1..], from, to)
  }

  lemma {:induction false} AmongUpto(pads: seq<Pad>, from: nat, to: nat)
    requires from <= to
    ensures Upto(pads, to) == Among(pads, from, to) + if from == 0 then 0 else Upto(pads, from - 1)
  {
    if pads != [] {
      AmongUpto(pads[1..], from, to);
    }
  }

  lemma {:induction false} AmongAppend(a: seq<Pad>, b: seq<Pad>, from: nat, to: nat)
    ensures Among(a + b, from, to) == Among(a, from, to) + Among(b, from, to)
    decreases |a|
  {
    if a == [] {
      assert a + b == b;
    } else {
      assert (a + b)[1..] == a[1..] + b;
      AmongAppend(a[1..], b, from, to);
    }
  }

  lemma {:induction false} NoneAmong(pads: seq<Pad>, from: nat, to: nat)
    requires forall i :: 0 <= i < |pads| ==> !(from <= pads[i].offset <= to)
    ensures Among(pads, from, to) == 0
  {
    if pads != [] {
      NoneAmong(pads[1..], from, to);
    }
  }

  /** Where the line of `offset` starts. */
  function LineStart(out: string, offset: nat): nat
    requires offset <= |out|
  {
    ColumnWithin(out, offset);
    offset - ColumnAt(out, offset)
  }

  /** The spaces inserted on the line of `offset`, at it or before it. */
  function OnItsLine(out: string, pads: seq<Pad>, offset: nat): nat
    requires offset <= |out|
  {
    Among(pads, LineStart(out, offset), offset)
  }

  /** Between where a character goes and where the next one does there are only spaces. */
  lemma {:induction false} OnlySpaces(out: string, pads: seq<Pad>, padded: string, offset: nat, k: nat)
    requires Widened(out, pads, 0, padded) && offset < |out| && k < Moved(pads, offset)
    requires offset > 0 ==> Moved(pads, offset - 1) < k
    ensures k < |padded| && padded[k] == ' '
  {
    assert At(padded, Moved(pads, offset), out[offset]);
    if padded[k] != ' ' {
      assert Was(out, pads, k);
      var from: nat :| from < |out| && Moved(pads, from) == k;
      if from < offset {
        UptoGrows(pads, from, offset - 1);
      } else {
        UptoGrows(pads, offset, from);
      }
    }
  }

  /** A character is moved along its line by the spaces inserted on that line, up to it, and stays on the line. */
  lemma {:induction false} PaddedColumn(out: string, pads: seq<Pad>, padded: string, offset: nat)
    requires Widened(out, pads, 0, padded) && offset < |out|
    ensures Moved(pads, offset) < |padded|
    ensures ColumnAt(padded, Moved(pads, offset)) == ColumnAt(out, offset) + OnItsLine(out, pads, offset)
    ensures LineAt(padded, Moved(pads, offset)) == LineAt(out, offset)
  {
    hide Upto, Was, Among;
    var to := Moved(pads, offset);
    assert At(padded, to, out[offset]);
    var from := if offset == 0 then 0 else Moved(pads, offset - 1) + 1;
    AmongUpto(pads, LineStart(out, offset), offset);
    if offset > 0 {
      ColumnWithin(out, offset - 1);
      AmongUpto(pads, LineStart(out, offset - 1), offset - 1);
      PaddedColumn(out, pads, padded, offset - 1);
      UptoGrows(pads, offset - 1, offset);
      assert At(padded, Moved(pads, offset - 1), out[offset - 1]);
    }
    forall k | from <= k < to ensures !IsNewline(padded[k]) {
      OnlySpaces(out, pads, padded, offset, k);
    }
    OnLine(padded, from, to);
  }
}
