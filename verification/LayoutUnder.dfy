/** Where lines aligned start: under the first text aligned, unless something asked for comes before it. */
module LayoutUnder {
  import opened Wrappers
  import opened Layout
  import opened LayoutItems
  import opened LayoutIndent

  /** Nothing but ends of cells and starts of tables, and blanks. */
  predicate OnOneLine(items: seq<Item>) {
    forall i :: 0 <= i < |items| ==> items[i].Blank? || items[i].Enter? || items[i].CellEnd?
  }

  predicate HasBlank(items: seq<Item>) {
    exists i :: 0 <= i < |items| && items[i].Blank?
  }

  /** A blank asked for now would be written. */
  predicate Spaces(before: seq<Item>) {
    Pending(before).None? && !Blanked(before) && Words(before) != []
  }

  lemma {:induction false} OneLine(before: seq<Item>, items: seq<Item>, indent: nat)
    requires OnOneLine(items)
    ensures var all := before + items;
      && Words(all) == Words(before) && Pending(all) == Pending(before) && EndColumn(all, indent) == EndColumn(before, indent)
      && Blanked(all) == (Blanked(before) || HasBlank(items))
    decreases |items|
  {
    if items == [] {
      assert before + items == before;
    } else {
      var n := |items| - 1;
      OneLine(before, items[..n], indent);
      assert before + items == before + items[..n] + [items[n]];
      OtherMore(before + items[..n], items[n]);
      assert items == items[..n] + [items[n]];
      assert HasBlank(items) <==> HasBlank(items[..n]) || items[n].Blank?;
    }
  }

  /**
   * What is aligned starts lines where a word before it would start. Its first word starts
   * there too exactly if no blank that is written comes before that word.
   */
  lemma {:induction false} UnderFirstExactly(before: seq<Item>, items: seq<Item>, indent: nat)
    requires OnOneLine(items) && (Pending(before).Some? ==> StartsBefore(before, Pending(before).value.1))
    ensures ColumnOf(before, Under(before), indent) == Start(before, indent)
    ensures Start(before + items, indent) == ColumnOf(before, Under(before), indent) <==> !(Spaces(before) && HasBlank(items))
  {
    hide Words, EndColumn, Blanked, HasBlank, Pending;
    assert before[..|before|] == before;
    OneLine(before, items, indent);
    if Pending(before).Some? && Pending(before).value.1.under.Some? {
      var k := Pending(before).value.1.under.value;
      assert (before + items)[..k] == before[..k];
    }
  }

  /** A line broken before the first word starts where its own place says. */
  lemma {:induction false} UnderBreak(before: seq<Item>, items: seq<Item>, lines: nat, base: Base, indent: nat)
    requires base.under.Some? ==> base.under.value <= |before + items|
    ensures Start(before + items + [LineBreak(lines, base)], indent) == ColumnOf(before + items, base, indent)
  {
    BreakMore(before + items, lines, base, indent);
  }

  /** After `x`, of an aligned ` a` and a line under it, the `a` starts a column right of that line. */
  lemma BlankBeforeFirst(knobs: Knobs)
    ensures var before, place := [Word("x", false)], Place(LEFT, None, false);
      var inner := Concat([Space, Text("a"), HardLine, Text("b")]);
      var items := Laid(How(knobs, false), Align(inner), false, place, before, NOTHING_AHEAD);
      && items == [Blank, Word("a", false), LineBreak(1, Base(Some(1), 0, true)), Word("b", false)]
      && Start(before + items[..1], knobs.indent) == 2 && Start(before + items[..3], knobs.indent) == 1
  {
    var how, before, base := How(knobs, false), [Word("x", false)], Base(Some(1), 0, true);
    var place := Place(base, None, false);
    assert before[..0] == [] && Pending(before).None? && Under(before) == base;
    assert EndColumn(before, knobs.indent) == 1 && Words(before) == ["x"] && !Blanked(before);
    Four(how, place, before);
    var items := [Blank, Word("a", false), LineBreak(1, base), Word("b", false)];
    var one := before + items[..1];
    assert one[..1] == before && one == [Word("x", false), Blank];
    assert EndColumn(one, knobs.indent) == 1 && Blanked(one) && Words(one) == ["x"] && Pending(one).None?;
    assert before + items[..3] == before + items[..2] + [LineBreak(1, base)];
    BreakMore(before + items[..2], 1, base, knobs.indent);
    assert (before + items[..2])[..1] == before;
    assert Start(before, knobs.indent) == 1;
  }

  lemma Four(how: How, place: Place, before: seq<Item>)
    ensures Laid(how, Concat([Space, Text("a"), HardLine, Text("b")]), false, place, before, NOTHING_AHEAD) ==
      [Blank, Word("a", place.trailing), LineBreak(1, place.base), Word("b", place.trailing)]
  {
    var docs := [Space, Text("a"), HardLine, Text("b")];
    var two, three, four := [Text("a"), HardLine, Text("b")], [HardLine, Text("b")], [Text("b")];
    assert docs[1..] == two && two[1..] == three && three[1..] == four && four[1..] == [];
    var a := LaidAll(how, four, false, place, before + [Blank] + [Word("a", place.trailing)] + [LineBreak(1, place.base)], NOTHING_AHEAD);
    assert a == [Word("b", place.trailing)];
    var b := LaidAll(how, three, false, place, before + [Blank] + [Word("a", place.trailing)], NOTHING_AHEAD);
    assert b == [LineBreak(1, place.base)] + a;
    var c := LaidAll(how, two, false, place, before + [Blank], NOTHING_AHEAD);
    assert c == [Word("a", place.trailing)] + b;
    assert LaidAll(how, docs, false, place, before, NOTHING_AHEAD) == [Blank] + c;
  }
}
