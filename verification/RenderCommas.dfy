/** Appends to a clients array that ends in a comma: exactly when they go behind it, and what becomes of the others. */
module RenderCommas {
  import opened JsoncParser
  import opened JsoncSpans
  import opened JsoncSyntax
  import opened JsoncTrees
  import opened RenderEntries
  import opened RenderLayout
  import opened RenderPairs
  import opened RenderPlanner
  import opened RenderReading
  import opened RenderTrailing

  /** The blank between the last value and its comma. */
  function LastAfter(items: Items): Blank
    requires Open(items) && items.More?
  {
    if items.rest.End? then items.after else LastAfter(items.rest)
  }

  /** A line break outside any block comment, and none behind it. */
  predicate LastBreak(blank: Blank, n: int) {
    && 0 < n <= |blank| && (blank[n - 1] == Space('\n') || blank[n - 1].LineComment?)
    && '\n' !in BlankText(blank[n..])
  }

  ghost predicate BreaksLast(blank: Blank) { exists n :: LastBreak(blank, n) }

  /**
   * On one line: no comma in a comment before the last comma. On several: the last line break stands behind the last
   * comma, and in no block comment.
   */
  ghost predicate CommaLeads(items: Items)
    requires Open(items) && items.More?
  {
    if '\n' in ValueText(Array(items)) then BreaksLast(FinalBlank(items))
    else ',' !in BlankText(LastAfter(items))
  }

  lemma {:induction false} LastComma(c: Codec, items: Items, pos: nat)
    requires Open(items) && items.More?
    ensures var nodes, text, after := ItemNodes(c, items, pos), OpenText(items), BlankText(LastAfter(items));
            && nodes != [] && nodes[|nodes| - 1].end + |after| + 1 == OpenEnd(items, pos)
            && |text| > |after| && text[|text| - 1 - |after|..] == after + ","
  {
    hide TreeOf, BlankText, ValueText;
    var rest, start, next := items.rest, pos + |BlankText(items.before)|, RestPos(items, pos);
    var v, a, lead := ValueText(items.value), BlankText(items.after), BlankText(Lead(rest));
    if rest.End? {
      TreeShape(c, items.value, start);
      OneSpace();
      assert "" + "" == "" && "," + "" == ",";
      assert v + (a + ",") == OpenText(items);
    } else {
      LastComma(c, rest, next);
      var front := v + (a + ("," + lead));
      assert OpenText(items) == front + OpenText(rest);
      assert ItemNodes(c, items, pos)[1..] == ItemNodes(c, rest, next);
    }
  }

  /** The comma, and what stands around it. */
  lemma CommaStands(c: Codec, document: string, items: Items, pos: nat)
    requires At(document, pos, ValueText(Array(items))) && Open(items) && items.More?
    ensures var clients, end := TreeOf(c, Array(items), pos), OpenEnd(items, pos + 1);
            var blank, after := BlankText(FinalBlank(items)), BlankText(LastAfter(items));
            && clients.items != [] && clients.start == pos < end && clients.end == end + |blank| + 1 == pos + |ValueText(Array(items))|
            && clients.items[|clients.items| - 1].end == end - 1 - |after| >= 0
            && At(document, end - 1 - |after|, after + ",") && At(document, end, blank)
  {
    hide TreeOf, BlankText, ValueText, ItemNodes, ItemsText, OpenText, OpenEnd, LastAfter, FinalBlank;
    var lead, open, blank := BlankText(Lead(items)), OpenText(items), BlankText(FinalBlank(items));
    var end, after := OpenEnd(items, pos + 1), BlankText(LastAfter(items));
    TreeShape(c, Array(items), pos);
    OpenParts(items, pos + 1);
    LastComma(c, items, pos + 1);
    BracketedText(items);
    var front := open[..|open| - 1 - |after|];
    AroundComma(lead, front, after, blank, open);
    AtSplit(document, pos, "[" + (lead + front), (after + ",") + (blank + "]"));
    AtSplit(document, end - 1 - |after|, after + ",", blank + "]");
    AtSplit(document, end, blank, "]");
  }

  lemma AroundComma(lead: string, front: string, after: string, blank: string, open: string)
    requires |open| > |after| && front == open[..|open| - 1 - |after|] && open[|open| - 1 - |after|..] == after + ","
    ensures "[" + (lead + (open + blank)) + "]" == ("[" + (lead + front)) + ((after + ",") + (blank + "]"))
  {
    assert open == front + (after + ",");
  }

  /** The first comma from here on. */
  lemma FirstComma(document: string, pos: nat, after: string)
    requires At(document, pos, after + ",")
    ensures CommaAfter(document, pos) <= pos + |after|
    ensures CommaAfter(document, pos) == pos + |after| <==> ',' !in after
  {
    NextComma(document, pos);
    var comma := CommaAfter(document, pos);
    assert document[pos..pos + |after| + 1] == after + ",";
    assert document[pos + |after|] == ',';
    assert forall k :: 0 <= k < |after| ==> document[pos + k] == after[k];
    if ',' in after {
      var k :| 0 <= k < |after| && after[k] == ',';
      assert document[pos + k] == ',';
    }
  }

  lemma LineBreakInside(document: string, pos: nat, text: string)
    requires At(document, pos, text)
    ensures Multiline(document, pos, pos + |text|) <==> '\n' in text
  {
    assert document[pos..pos + |text|] == text;
    if '\n' in text {
      var k :| 0 <= k < |text| && text[k] == '\n';
      assert document[pos + k] == '\n';
    }
    if k :| pos <= k < pos + |text| && k < |document| && document[k] == '\n' {
      assert text[k - pos] == '\n';
    }
  }

  lemma FitsInline(c: Codec, document: string, items: Items, pos: nat)
    requires At(document, pos, ValueText(Array(items))) && ItemsOk(c, items) && Open(items) && items.More?
    requires '\n' !in ValueText(Array(items))
    ensures AppendFits(c, document, items, pos) <==> ',' !in BlankText(LastAfter(items))
  {
    hide TreeOf, BlankText, ValueText, ItemsOk, OpenEnd, LastAfter, FinalBlank, Multiline, At, BlankOk;
    var clients, end, blank := TreeOf(c, Array(items), pos), OpenEnd(items, pos + 1), BlankText(FinalBlank(items));
    CommaStands(c, document, items, pos);
    LineBreakInside(document, pos, ValueText(Array(items)));
    FirstComma(document, end - 1 - |BlankText(LastAfter(items))|, BlankText(LastAfter(items)));
    FinalBlankOk(c, items);
    OneSpace();
    assert blank[..0] == "" && blank[0..] == blank;
    assert IsBlank(blank) && IsBlank("");
  }

  /** A blank that begins with another one falls into trivia there. */
  lemma {:induction false} BlankSplit(b: Blank, first: Blank, text: string) returns (n: nat)
    requires BlankOk(b) && BlankOk(first) && BlankText(b) == BlankText(first) + text
    ensures n <= |b| && BlankText(b[..n]) == BlankText(first) && BlankText(b[n..]) == text
    decreases |first|
  {
    hide TriviumText, TriviumOk;
    if first == [] {
      n := 0;
      assert b[0..] == b;
    } else {
      assert b != [] by { SomeText(first); }
      var rest, rest' := BlankText(b[1..]), BlankText(first[1..]);
      SeqConcat(TriviumText(first[0]), rest', text);
      SameTrivium(b[0], first[0], rest, rest' + text);
      SamePrefix(TriviumText(b[0]), rest, TriviumText(first[0]), rest' + text);
      var m := BlankSplit(b[1..], first[1..], text);
      n := m + 1;
      assert b[..n] == [b[0]] + b[1..][..m] && b[n..] == b[1..][m..];
      assert b[..n][1..] == b[1..][..m];
    }
  }

  lemma SeqConcat(a: string, b: string, d: string)
    ensures (a + b) + d == a + (b + d)
  {}

  lemma {:induction false} LastTrivium(b: Blank)
    requires b != [] && BlankOk(b)
    ensures var text, last := BlankText(b), b[|b| - 1];
            text != "" && (text[|text| - 1] == '\n' <==> last == Space('\n') || last.LineComment?)
  {
    assert b == b[..|b| - 1] + [b[|b| - 1]];
    BlankConcat(b[..|b| - 1], [b[|b| - 1]]);
    assert [b[|b| - 1]][1..] == [];
    assert BlankText([b[|b| - 1]]) == TriviumText(b[|b| - 1]) + "";
  }

  lemma OneLineStart(document: string, pos: nat, start: nat)
    requires pos <= |document| && LineBegins(document, pos, start)
    ensures LineStart(document, pos) == start
  {
    LineStartIs(document, pos);
    OneStart(document, pos, start, LineStart(document, pos));
  }

  lemma FitsOnLines(c: Codec, document: string, items: Items, pos: nat)
    requires At(document, pos, ValueText(Array(items))) && ItemsOk(c, items) && Open(items) && items.More?
    requires '\n' in ValueText(Array(items))
    ensures AppendFits(c, document, items, pos) <==> BreaksLast(FinalBlank(items))
  {
    hide TreeOf, BlankText, ValueText, ItemsOk, OpenEnd, LastAfter, FinalBlank, Multiline, BlankOk, LineStart, LineIndent, LineBegins, At;
    var clients, end, z := TreeOf(c, Array(items), pos), OpenEnd(items, pos + 1), FinalBlank(items);
    var blank := BlankText(z);
    CommaStands(c, document, items, pos);
    LineBreakInside(document, pos, ValueText(Array(items)));
    FinalBlankOk(c, items);
    var start := LineStart(document, end + |blank|);
    assert AppendLayout(document, clients).at == start;
    if n :| LastBreak(z, n) {
      BreakStarts(document, end, z, n);
    }
    if AppendFits(c, document, items, pos) {
      BreakFound(document, end, BlankText(LastAfter(items)), z, start);
    }
  }

  lemma BreakStarts(document: string, end: nat, z: Blank, n: int)
    requires At(document, end, BlankText(z)) && BlankOk(z) && LastBreak(z, n)
    ensures var blank, cut := BlankText(z), LineStart(document, end + |BlankText(z)|) - end;
            0 <= cut <= |blank| && IsBlank(blank[..cut]) && IsBlank(blank[cut..])
  {
    hide BlankText, TriviumOk;
    var blank, p, s := BlankText(z), BlankText(z[..n]), BlankText(z[n..]);
    assert z == z[..n] + z[n..];
    BlankConcat(z[..n], z[n..]);
    assert blank[..|p|] == p && blank[|p|..] == s;
    LastTrivium(z[..n]);
    assert document[end..end + |blank|] == blank;
    assert document[end + |p| - 1] == blank[|p| - 1] == p[|p| - 1];
    forall k | end + |p| <= k < end + |blank|
      ensures document[k] != '\n'
    {
      assert document[k] == blank[k - end] == s[k - end - |p|];
    }
    OneLineStart(document, end + |blank|, end + |p|);
    assert BlankOk(z[..n]) && BlankOk(z[n..]);
    assert IsBlank(p) && IsBlank(s);
  }

  lemma NoTrivia(z: Blank)
    ensures BlankText(z[..0]) == ""
  {}

  lemma BreakFound(document: string, end: nat, after: string, z: Blank, start: nat)
    requires |after| + 1 <= end && At(document, end - 1 - |after|, after + ",") && At(document, end, BlankText(z)) && BlankOk(z)
    requires start == LineStart(document, end + |BlankText(z)|)
    requires var blank, cut := BlankText(z), start - end; 0 <= cut <= |blank| && IsBlank(blank[..cut]) && IsBlank(blank[cut..])
    ensures BreaksLast(z)
  {
    hide BlankText, TriviumOk;
    var blank, cut := BlankText(z), start - end;
    LineStartIs(document, end + |blank|);
    assert document[end - 1] == ',' by { assert document[end - 1 - |after|..end] == after + ","; }
    assert document[end..end + |blank|] == blank;
    var first :| BlankOk(first) && BlankText(first) == blank[..cut];
    assert blank == BlankText(first) + blank[cut..];
    var n := BlankSplit(z, first, blank[cut..]);
    assert cut > 0;
    assert blank[cut - 1] == document[start - 1] == '\n';
    NoTrivia(z);
    LastTrivium(z[..n]);
    forall k | 0 <= k < |blank| - cut
      ensures blank[cut..][k] != '\n'
    {
      assert blank[cut..][k] == document[start + k];
    }
    assert LastBreak(z, n);
  }

  /** An append goes behind the last comma, and into no comment, exactly in such arrays. */
  lemma AppendFitsExactly(c: Codec, document: string, items: Items, pos: nat)
    requires At(document, pos, ValueText(Array(items))) && ItemsOk(c, items) && Open(items) && items.More?
    ensures AppendFits(c, document, items, pos) <==> CommaLeads(items)
  {
    hide At, ItemsOk, AppendFits, BreaksLast;
    if '\n' in ValueText(Array(items)) {
      FitsOnLines(c, document, items, pos);
    } else {
      FitsInline(c, document, items, pos);
    }
  }
}
