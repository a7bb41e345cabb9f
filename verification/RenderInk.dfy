/** A list cannot hold more than its text has ink for: counting what is not whitespace. */
module RenderInk {
  import opened JsoncSpans
  import opened JsoncSyntax
  import opened JsoncTrees
  import opened RenderEntries
  import opened RenderLists
  import opened RenderPlanner
  import opened RenderReading
  import opened Sequences

  /** The characters that are not whitespace. */
  function Ink(text: string): nat {
    if text == "" then 0 else (if IsSpace(text[0]) then 0 else 1) + Ink(text[1..])
  }

  lemma {:induction false} InkConcat(a: string, b: string)
    ensures Ink(a + b) == Ink(a) + Ink(b)
  {
    if a == "" {
      assert a + b == b;
    } else {
      assert (a + b)[0] == a[0] && (a + b)[1..] == a[1..] + b;
      InkConcat(a[1..], b);
    }
  }

  lemma {:induction false} NoInk(text: string)
    requires forall i :: 0 <= i < |text| ==> IsSpace(text[i])
    ensures Ink(text) == 0
  {
    if text != "" {
      NoInk(text[1..]);
    }
  }

  /** Cutting a text that begins with ink costs some. */
  lemma CutInk(text: string, n: nat)
    requires 0 < n <= |text| && !IsSpace(text[0])
    ensures Ink(text[n..]) < Ink(text)
  {
    assert text == text[..n] + text[n..];
    InkConcat(text[..n], text[n..]);
    assert text[..n][0] == text[0];
  }

  /** The values and the commas between them. */
  function InkOf(values: seq<Value>): nat {
    if values == [] then 0
    else Ink(ValueText(values[0])) + (if |values| == 1 then 0 else 1) + InkOf(values[1..])
  }

  lemma {:induction false} ListInk(items: Items)
    ensures InkOf(ItemValues(items)) <= Ink(CoreText(items)) <= Ink(ItemsText(items))
    decreases items
  {
    hide Ink, BlankText, ValueText;
    ItemsTextCore(items);
    InkConcat(BlankText(FirstBlank(items)), CoreText(items));
    var values := ItemValues(items);
    match items
    case End(_) =>
    case Last(_, v, a) =>
      InkConcat(ValueText(v), BlankText(a));
      assert values == [v] && values[1..] == [];
    case More(_, v, a, rest) =>
      ListInk(rest);
      assert values[0] == v && values[1..] == ItemValues(rest);
      InkConcat(ValueText(v), BlankText(a) + ("," + ItemsText(rest)));
      InkConcat(BlankText(a), "," + ItemsText(rest));
      InkConcat(",", ItemsText(rest));
      CommaInk();
      assert |values| == 1 ==> ItemValues(rest) == [];
  }

  lemma CommaInk()
    ensures Ink(",") == 1
  {
    assert ","[1..] == "";
    assert !IsSpace(","[0]);
  }

  lemma {:induction false} JoinInk(c: Codec, ops: seq<ClientOp>, sep: string)
    requires Ink(sep) == 0
    ensures Ink(Join(EntryTexts(c, ops), "," + sep)) == InkOf(EntryValues(c, ops))
    decreases |ops|
  {
    hide Ink, ValueText, EntryText, EntryValue;
    var texts, values := EntryTexts(c, ops), EntryValues(c, ops);
    if ops == [] {
      NoText();
    } else {
      EntryValueText(c, ops[0]);
      assert texts[1..] == EntryTexts(c, ops[1..]) && values[1..] == EntryValues(c, ops[1..]);
      if |ops| == 1 {
        assert values[1..] == [];
      } else {
        JoinInk(c, ops[1..], sep);
        InkConcat(texts[0] + ("," + sep), Join(texts[1..], "," + sep));
        InkConcat(texts[0], "," + sep);
        InkConcat(",", sep);
        CommaInk();
      }
    }
  }

  lemma NoText()
    ensures Ink("") == 0
  {}

  // ----- Two lists at the same place

  /** A blank before something solid is no shorter than another blank at the same place. */
  lemma {:induction false} LongerBlank(b: Blank, text: string, b': Blank, solid: string)
    requires BlankOk(b) && BlankOk(b') && solid != "" && SolidText(solid)
    requires BlankText(b) + text == BlankText(b') + solid
    ensures |BlankText(b)| <= |BlankText(b')|
    decreases |b|
  {
    hide TriviumText, TriviumOk;
    if b != [] {
      var t, rest := TriviumText(b[0]), BlankText(b[1..]);
      SeqAssociative(t, rest, text);
      assert TriviumOk(b[0]);
      BlankFirst(b, text, b', solid);
      var t', rest' := TriviumText(b'[0]), BlankText(b'[1..]);
      SeqAssociative(t', rest', solid);
      SameTrivium(b[0], b'[0], rest + text, rest' + solid);
      SamePrefix(t, rest + text, t', rest' + solid);
      LongerBlank(b[1..], text, b'[1..], solid);
    }
  }

  lemma BlankFirst(b: Blank, text: string, b': Blank, solid: string)
    requires b != [] && TriviumOk(b[0]) && solid != "" && SolidText(solid)
    requires BlankText(b) + text == BlankText(b') + solid
    ensures b' != []
  {
    TriviumSolid(b[0]);
    var t := TriviumText(b[0]);
    assert (BlankText(b) + text)[0] == t[0];
    assert b' == [] ==> BlankText(b') + solid == solid;
  }

  lemma TriviumSolid(t: Trivium)
    requires TriviumOk(t)
    ensures TriviumText(t) != "" && (IsSpace(TriviumText(t)[0]) || TriviumText(t)[0] == '/')
  {}

  lemma NothingBefore(b: Blank, text: string, b': Blank, core: string)
    requires BlankText(b) + text == BlankText(b') + core && |BlankText(b)| <= |BlankText(b')|
    ensures Ink(core) <= Ink(text)
  {
    hide BlankText, Ink;
    var whole := BlankText(b) + text;
    assert text == whole[|BlankText(b)|..];
    var n := |BlankText(b')| - |BlankText(b)|;
    assert text == text[..n] + core;
    InkConcat(text[..n], core);
  }

  /** A list with more values, the text of which goes on behind an open one: the text that goes on has ink for them. */
  lemma {:induction false} GoesOnWithInk(c: Codec, items: Items, now: Items, more: seq<Value>, text: string)
    requires ItemsOk(c, items) && ItemsOk(c, now) && Open(items) && more != [] && ItemValues(now) == ItemValues(items) + more
    requires ItemsText(now) == ItemsText(items) + text
    ensures InkOf(more) <= Ink(text)
    decreases items
  {
    hide BlankText, BlankOk, ValueText, ValueOk, Ink, InkOf;
    assert ItemValues(now) != [];
    SomeItem(now);
    ItemsTextCore(now);
    FirstText(now);
    match items
    case End(b) =>
      assert ItemValues(now) == more by { NoneBefore(items, more); }
      ListInk(now);
      ValueStarts(c, now.value, AfterFirst(now));
      FirstChar(c, now.value);
      LongerBlank(b, text, now.before, ValueText(now.value) + AfterFirst(now));
      NothingBefore(b, text, now.before, CoreText(now));
    case More(b, v, a, rest) =>
      MoreValues(now, items, more);
      var tail, tail' := BlankText(a) + ("," + ItemsText(rest)), AfterFirst(now);
      ItemsTextCore(items);
      MoreGoesOn(BlankText(b), ValueText(v), tail, text);
      ValueStarts(c, v, tail + text);
      ValueStarts(c, v, tail');
      SameBlank(b, now.before, ValueText(v) + (tail + text), ValueText(v) + tail');
      SamePrefix(ValueText(v), tail + text, ValueText(v), tail');
      MoreGoesOn("", BlankText(a), "," + ItemsText(rest), text);
      CommaGoesOn(ItemsText(rest), text);
      SameBlank(a, now.after, "," + ItemsText(rest) + text, "," + ItemsText(now.rest));
      SeqAssociative(",", ItemsText(rest), text);
      SamePrefix(",", ItemsText(rest) + text, ",", ItemsText(now.rest));
      GoesOnWithInk(c, rest, now.rest, more, text);
  }

  lemma SomeItem(now: Items)
    requires ItemValues(now) != []
    ensures !now.End? && CoreText(now) == ValueText(now.value) + AfterFirst(now)
  {
    hide BlankText, ValueText;
    assert !now.End?;
    if now.Last? {
      assert BlankText(now.after) + "" == BlankText(now.after);
    }
  }

  lemma NoneBefore(items: Items, more: seq<Value>)
    requires items.End?
    ensures ItemValues(items) + more == more
  {
    assert [] + more == more;
  }

  lemma MoreValues(now: Items, items: Items, more: seq<Value>)
    requires items.More? && ItemValues(now) == ItemValues(items) + more && more != []
    ensures now.More? && now.value == items.value && ItemValues(now.rest) == ItemValues(items.rest) + more
  {
    var values := ItemValues(now);
    assert values[0] == items.value && values[1..] == ItemValues(items.rest) + more;
    assert |values| > 1;
  }
}
