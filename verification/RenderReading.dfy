/** Two lists at the same place of a text: where their blanks and brackets must end. */
module RenderReading {
  import opened JsoncParser
  import opened JsoncSpans
  import opened JsoncSyntax
  import opened JsoncTrees
  import opened RenderLists
  import opened RenderPairs
  import opened Sequences

  // ----- Blanks

  /** Nothing blank begins here. */
  predicate SolidText(text: string) { text != "" ==> !IsSpace(text[0]) && text[0] != '/' }

  lemma SkipsTo(b: Blank, text: string)
    requires BlankOk(b) && SolidText(text)
    ensures SkipBlank(BlankText(b) + text, 0) == |BlankText(b)|
  {
    hide BlankText, BlankOk, SkipBlank;
    var src := BlankText(b) + text;
    AtStart(src);
    AtSplit(src, 0, BlankText(b), text);
    SkipBlankAt(src, 0, b);
  }

  /** A blank ends where the scan says. */
  lemma SameBlank(b: Blank, b': Blank, text: string, text': string)
    requires BlankOk(b) && BlankOk(b') && SolidText(text) && SolidText(text')
    requires BlankText(b) + text == BlankText(b') + text'
    ensures BlankText(b) == BlankText(b') && text == text'
  {
    hide BlankText, BlankOk, SkipBlank;
    SkipsTo(b, text);
    SkipsTo(b', text');
    SamePrefix(BlankText(b), text, BlankText(b'), text');
  }

  lemma SamePrefix(a: string, text: string, a': string, text': string)
    requires a + text == a' + text' && |a| == |a'|
    ensures a == a' && text == text'
  {
    var whole := a + text;
    assert whole[..|a|] == a && whole[..|a|] == (a' + text')[..|a'|] == a';
    assert whole[|a|..] == text && whole[|a|..] == (a' + text')[|a'|..] == text';
  }

  /** Two trivia at the same place are equally long. */
  lemma SameTrivium(t: Trivium, t': Trivium, rest: string, rest': string)
    requires TriviumOk(t) && TriviumOk(t') && TriviumText(t) + rest == TriviumText(t') + rest'
    ensures |TriviumText(t)| == |TriviumText(t')|
  {
    hide TriviumOk, At, LineEnd, BlockEnd;
    var src := TriviumText(t) + rest;
    AtStart(src);
    AtSplit(src, 0, TriviumText(t), rest);
    AtSplit(src, 0, TriviumText(t'), rest');
    AtChar(src, 0, TriviumText(t), 0);
    AtChar(src, 0, TriviumText(t'), 0);
    TriviumStarts(t);
    TriviumStarts(t');
    if !t.Space? && !t'.Space? {
      AtChar(src, 0, TriviumText(t), 1);
      AtChar(src, 0, TriviumText(t'), 1);
      CommentEnds(src, t);
      CommentEnds(src, t');
    }
  }

  lemma TriviumStarts(t: Trivium)
    requires TriviumOk(t)
    ensures TriviumText(t)[0] == '/' <==> !t.Space?
    ensures t.Space? ==> |TriviumText(t)| == 1
    ensures !t.Space? ==> |TriviumText(t)| >= 2 && TriviumText(t)[1] == if t.LineComment? then '/' else '*'
  {}

  lemma CommentEnds(src: string, t: Trivium)
    requires TriviumOk(t) && !t.Space? && At(src, 0, TriviumText(t))
    ensures t.LineComment? ==> LineEnd(src, 2) + 1 == |TriviumText(t)|
    ensures t.BlockComment? ==> BlockEnd(src, 2) + 2 == |TriviumText(t)|
  {
    hide At, LineEnd, BlockEnd;
    if t.LineComment? {
      assert TriviumText(t) == "//" + (t.text + "\n");
      AtSplit(src, 0, "//", t.text + "\n");
      LineEndAt(src, 2, t.text);
    } else {
      assert TriviumText(t) == "/*" + (t.text + "*/");
      AtSplit(src, 0, "/*", t.text + "*/");
      BlockEndAt(src, 2, t.text);
    }
  }

  /** What is left of a blank behind another one is a blank. */
  lemma {:induction false} BlankRest(b: Blank, first: Blank, text: string)
    requires BlankOk(b) && BlankOk(first) && BlankText(b) == BlankText(first) + text
    ensures IsBlank(text)
    decreases |first|
  {
    hide TriviumText, TriviumOk;
    if first == [] {
      assert text == BlankText(b);
    } else {
      assert b != [] by { SomeText(first); }
      var rest, rest' := BlankText(b[1..]), BlankText(first[1..]);
      SeqAssociative(TriviumText(first[0]), rest', text);
      SameTrivium(b[0], first[0], rest, rest' + text);
      SamePrefix(TriviumText(b[0]), rest, TriviumText(first[0]), rest' + text);
      BlankRest(b[1..], first[1..], text);
    }
  }

  lemma SomeText(b: Blank)
    requires b != []
    ensures BlankText(b) != ""
  {}

  // ----- Lists that end in a blank

  lemma ValueStarts(c: Codec, v: Value, text: string)
    requires ValueOk(c, v)
    ensures SolidText(ValueText(v) + text)
  {
    hide ValueText, ValueOk;
    FirstChar(c, v);
    assert (ValueText(v) + text)[0] == ValueText(v)[0];
  }

  /** A list of the same values, the text of which goes on: it goes on with a blank. */
  lemma {:induction false} GoesOnBlank(c: Codec, items: Items, now: Items, text: string)
    requires ItemsOk(c, items) && ItemsOk(c, now) && Open(items) && ItemValues(now) == ItemValues(items)
    requires ItemsText(now) == ItemsText(items) + text
    ensures IsBlank(text)
    decreases items
  {
    hide BlankText, BlankOk, ValueText, ValueOk, IsBlank;
    match items
    case End(b) =>
      NoValues(now);
      BlankRest(now.blank, b, text);
    case More(b, v, a, rest) =>
      SomeValue(now, items);
      var tail, tail' := BlankText(a) + ("," + ItemsText(rest)), AfterFirst(now);
      ItemsTextCore(items);
      FirstText(now);
      MoreGoesOn(BlankText(b), ValueText(v), tail, text);
      ValueStarts(c, v, tail + text);
      ValueStarts(c, v, tail');
      SameBlank(b, now.before, ValueText(v) + (tail + text), ValueText(v) + tail');
      SamePrefix(ValueText(v), tail + text, ValueText(v), tail');
      MoreGoesOn("", BlankText(a), "," + ItemsText(rest), text);
      if now.Last? {
        CommaGoesOn(ItemsText(rest), text);
        SameBlank(a, now.after, "," + ItemsText(rest) + text, "");
      } else {
        CommaGoesOn(ItemsText(rest), text);
        SameBlank(a, now.after, "," + ItemsText(rest) + text, "," + ItemsText(now.rest));
        SeqAssociative(",", ItemsText(rest), text);
        SamePrefix(",", ItemsText(rest) + text, ",", ItemsText(now.rest));
        SameTail(now, items);
        GoesOnBlank(c, rest, now.rest, text);
      }
  }

  function AfterFirst(items: Items): string
    requires !items.End?
  {
    BlankText(items.after) + if items.Last? then "" else "," + ItemsText(items.rest)
  }

  lemma FirstText(items: Items)
    requires !items.End?
    ensures ItemsText(items) == BlankText(items.before) + (ValueText(items.value) + AfterFirst(items))
  {
    hide BlankText, ValueText;
    assert BlankText(items.after) + "" == BlankText(items.after);
  }

  lemma NoValues(items: Items)
    requires ItemValues(items) == []
    ensures items.End?
  {}

  lemma SomeValue(now: Items, items: Items)
    requires ItemValues(now) == ItemValues(items) && items.More?
    ensures !now.End? && now.value == items.value
  {
    assert ItemValues(now)[0] == items.value;
  }

  lemma SameTail(now: Items, items: Items)
    requires ItemValues(now) == ItemValues(items) && items.More? && now.More?
    ensures ItemValues(now.rest) == ItemValues(items.rest)
  {
    assert ItemValues(now)[1..] == ItemValues(now.rest) && ItemValues(items)[1..] == ItemValues(items.rest);
  }

  lemma MoreGoesOn(b: string, v: string, tail: string, text: string)
    ensures b + (v + tail) + text == b + (v + (tail + text))
  {}

  lemma CommaGoesOn(rest: string, text: string)
    ensures SolidText("," + rest + text)
  {}

  /** A list closes at one place only. */
  lemma ClosesOnce(c: Codec, items: Items, now: Items, text: string)
    requires ItemsOk(c, items) && ItemsOk(c, now)
    ensures ItemsText(items) != ItemsText(now) + "]" + text
  {
    hide ItemsText, ItemsOk, ItemNodes, Commas, Trailing, At, ParseItems;
    if ItemsText(items) == ItemsText(now) + "]" + text {
      var src := ItemsText(items) + "]";
      AtStart(src);
      SeqAssociative(ItemsText(now) + "]", text, "]");
      AtSplit(src, 0, ItemsText(now) + "]", text + "]");
      ParseItemsAt(c, items, src, 0, 0, [], [], false);
      ParseItemsAt(c, now, src, 0, 0, [], [], false);
    }
  }
}
