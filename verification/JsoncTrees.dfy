/** Parsing the text of a well-formed document gives back its tree, span by span. */
module JsoncTrees {
  import opened JsoncParser
  import opened JsoncSyntax
  import opened Options

  // ----- Texts inside texts

  predicate At(src: string, pos: nat, text: string) {
    pos + |text| <= |src| && src[pos..pos + |text|] == text
  }

  lemma AtSplit(src: string, pos: nat, a: string, b: string)
    ensures At(src, pos, a + b) <==> At(src, pos, a) && At(src, pos + |a|, b)
  {
    if pos + |a| + |b| <= |src| {
      var slice := src[pos..pos + |a| + |b|];
      assert slice == src[pos..pos + |a|] + src[pos + |a|..pos + |a| + |b|];
      if slice == a + b {
        assert src[pos..pos + |a|] == slice[..|a|] == a;
        assert src[pos + |a|..pos + |a| + |b|] == slice[|a|..] == b;
      }
    }
  }

  lemma AtChar(src: string, pos: nat, text: string, index: nat)
    requires At(src, pos, text) && index < |text|
    ensures pos + |text| <= |src| && src[pos + index] == text[index]
  {
    assert src[pos..pos + |text|][index] == src[pos + index];
  }

  // ----- The tree a syntax tree parses to

  function Decoded(c: Codec, raw: string): string {
    match c.decode(raw)
    case None => ""
    case Some(value) => value
  }

  function TreeOf(c: Codec, v: Value, pos: nat): Node {
    var end := pos + |ValueText(v)|;
    match v
    case Literal(text) => Leaf('l', pos, end, "")
    case Quoted(raw) => Leaf('"', pos, end, Decoded(c, raw))
    case Array(items) =>
      Node('[', pos, end, "", [], [], ItemNodes(c, items, pos + 1), Commas(items, pos + 1), Trailing(items))
    case Object(props) =>
      Node('{', pos, end, "", Keys(c, props), PropStarts(props, pos + 1), PropNodes(c, props, pos + 1), [], TrailingProp(props))
  }

  function ItemNodes(c: Codec, items: Items, pos: nat): seq<Node> {
    match items
    case End(_) => []
    case Last(before, value, after) => [TreeOf(c, value, pos + |BlankText(before)|)]
    case More(before, value, after, rest) => [TreeOf(c, value, pos + |BlankText(before)|)] + ItemNodes(c, rest, RestPos(items, pos))
  }

  /** Where the text after an item's comma begins. */
  function RestPos(items: Items, pos: nat): nat
    requires items.More?
  {
    CommaPos(items, pos) + 1
  }

  function CommaPos(items: Items, pos: nat): nat
    requires items.More?
  {
    pos + |BlankText(items.before)| + |ValueText(items.value)| + |BlankText(items.after)|
  }

  function Commas(items: Items, pos: nat): seq<nat> {
    match items
    case More(_, _, _, rest) => [CommaPos(items, pos)] + Commas(rest, RestPos(items, pos))
    case _ => []
  }

  predicate Trailing(items: Items) {
    match items
    case More(_, _, _, rest) => rest.End? || Trailing(rest)
    case _ => false
  }

  function Keys(c: Codec, props: Props): seq<string> {
    match props
    case EndProps(_) => []
    case LastProp(_, key, _, _, _, _) => [Decoded(c, key)]
    case MoreProps(_, key, _, _, _, _, rest) => [Decoded(c, key)] + Keys(c, rest)
  }

  /** Where the value of the first property begins. */
  function FirstValuePos(props: Props, pos: nat): nat
    requires !props.EndProps?
  {
    pos + |PropHead(props.before, props.key, props.colon, props.gap)|
  }

  /** Where the text after the first property's comma begins. */
  function RestPropsPos(props: Props, pos: nat): nat
    requires props.MoreProps?
  {
    FirstValuePos(props, pos) + |ValueText(props.value)| + |BlankText(props.after)| + 1
  }

  function PropStarts(props: Props, pos: nat): seq<nat> {
    match props
    case EndProps(_) => []
    case LastProp(before, _, _, _, _, _) => [pos + |BlankText(before)|]
    case MoreProps(before, _, _, _, _, _, rest) => [pos + |BlankText(before)|] + PropStarts(rest, RestPropsPos(props, pos))
  }

  function PropNodes(c: Codec, props: Props, pos: nat): seq<Node> {
    match props
    case EndProps(_) => []
    case LastProp(_, _, _, _, value, _) => [TreeOf(c, value, FirstValuePos(props, pos))]
    case MoreProps(_, _, _, _, value, _, rest) =>
      [TreeOf(c, value, FirstValuePos(props, pos))] + PropNodes(c, rest, RestPropsPos(props, pos))
  }

  predicate TrailingProp(props: Props) {
    match props
    case MoreProps(_, _, _, _, _, _, rest) => rest.EndProps? || TrailingProp(rest)
    case _ => false
  }

  // ----- The scanner on well-formed text

  /** A place where blanks end. */
  predicate Solid(src: string, pos: nat) {
    pos >= |src| || (!IsSpace(src[pos]) && src[pos] != '/')
  }

  lemma {:induction false} LineEndAt(src: string, pos: nat, text: string)
    requires At(src, pos, text + "\n") && '\n' !in text
    ensures LineEnd(src, pos) == pos + |text|
    decreases |text|
  {
    hide At;
    AtChar(src, pos, text + "\n", 0);
    if text != [] {
      AtSplit(src, pos, text[..1], text[1..] + "\n");
      assert text[..1] + (text[1..] + "\n") == text + "\n";
      LineEndAt(src, pos + 1, text[1..]);
    }
  }

  lemma {:induction false} BlockEndAt(src: string, pos: nat, text: string)
    requires At(src, pos, text + "*/") && TriviumOk(BlockComment(text))
    ensures BlockEnd(src, pos) == pos + |text|
    decreases |text|
  {
    hide At;
    AtChar(src, pos, text + "*/", 0);
    AtChar(src, pos, text + "*/", 1);
    if text != [] {
      AtSplit(src, pos, text[..1], text[1..] + "*/");
      assert text[..1] + (text[1..] + "*/") == text + "*/";
      BlockEndAt(src, pos + 1, text[1..]);
    }
  }

  lemma SkipTrivium(src: string, pos: nat, t: Trivium)
    requires At(src, pos, TriviumText(t)) && TriviumOk(t)
    ensures SkipBlank(src, pos) == SkipBlank(src, pos + |TriviumText(t)|)
    ensures EndsLiteral(src, pos)
  {
    hide At;
    AtChar(src, pos, TriviumText(t), 0);
    match t
    case Space(c) =>
    case LineComment(text) => SkipLineComment(src, pos, text);
    case BlockComment(text) => SkipBlockComment(src, pos, text);
  }

  lemma SkipLineComment(src: string, pos: nat, text: string)
    requires At(src, pos, "//" + text + "\n") && '\n' !in text
    ensures StartsComment(src, pos)
    ensures SkipBlank(src, pos) == SkipBlank(src, pos + |text| + 3)
  {
    hide At;
    assert "//" + text + "\n" == "//" + (text + "\n");
    AtSplit(src, pos, "//", text + "\n");
    AtChar(src, pos, "//", 0);
    AtChar(src, pos, "//", 1);
    LineEndAt(src, pos + 2, text);
    AtChar(src, pos + 2, text + "\n", |text|);
  }

  lemma SkipBlockComment(src: string, pos: nat, text: string)
    requires At(src, pos, "/*" + text + "*/") && TriviumOk(BlockComment(text))
    ensures StartsComment(src, pos)
    ensures SkipBlank(src, pos) == SkipBlank(src, pos + |text| + 4)
  {
    hide At;
    assert "/*" + text + "*/" == "/*" + (text + "*/");
    AtSplit(src, pos, "/*", text + "*/");
    AtChar(src, pos, "/*", 0);
    AtChar(src, pos, "/*", 1);
    BlockEndAt(src, pos + 2, text);
  }

  lemma {:induction false} SkipBlankAt(src: string, pos: nat, b: Blank)
    requires At(src, pos, BlankText(b)) && BlankOk(b) && Solid(src, pos + |BlankText(b)|)
    ensures SkipBlank(src, pos) == pos + |BlankText(b)|
    decreases |b|
  {
    hide At, TriviumText, TriviumOk;
    if b != [] {
      AtSplit(src, pos, TriviumText(b[0]), BlankText(b[1..]));
      SkipTrivium(src, pos, b[0]);
      SkipBlankAt(src, pos + |TriviumText(b[0])|, b[1..]);
    }
  }

  lemma {:induction false} SkipBlankTwice(src: string, pos: nat)
    ensures SkipBlank(src, SkipBlank(src, pos)) == SkipBlank(src, pos)
    decreases |src| - pos
  {
    if pos < |src| {
      if IsSpace(src[pos]) {
        SkipBlankTwice(src, pos + 1);
      } else if StartsComment(src, pos) {
        SkipBlankTwice(src, if src[pos + 1] == '/' then LineEnd(src, pos + 2) else BlockEnd(src, pos + 2) + 2);
      }
    }
  }

  lemma BlankEndsLiteral(src: string, pos: nat, b: Blank)
    requires At(src, pos, BlankText(b)) && BlankOk(b) && EndsLiteral(src, pos + |BlankText(b)|)
    ensures EndsLiteral(src, pos)
  {
    if b != [] {
      AtSplit(src, pos, TriviumText(b[0]), BlankText(b[1..]));
      SkipTrivium(src, pos, b[0]);
    }
  }

  lemma {:induction false} LiteralEndAt(src: string, pos: nat, text: string)
    requires At(src, pos, text) && (forall i :: 0 <= i < |text| ==> LiteralChar(text[i]))
    requires EndsLiteral(src, pos + |text|)
    ensures LiteralEnd(src, pos) == pos + |text|
    decreases |text|
  {
    hide At;
    if text != [] {
      AtChar(src, pos, text, 0);
      assert text == text[..1] + text[1..];
      AtSplit(src, pos, text[..1], text[1..]);
      LiteralEndAt(src, pos + 1, text[1..]);
    }
  }

  lemma {:induction false} StringEndAt(src: string, pos: nat, raw: string, index: nat)
    requires At(src, pos, raw) && StringEnd(raw, index).Some?
    ensures StringEnd(src, pos + index) == Some(pos + StringEnd(raw, index).value)
    decreases |raw| - index
  {
    StringEndRange(raw, index);
    AtChar(src, pos, raw, index);
    if raw[index] == '\\' {
      StringEndAt(src, pos, raw, index + 2);
    } else if raw[index] != '"' {
      StringEndAt(src, pos, raw, index + 1);
    }
  }

  lemma ParseStringAt(c: Codec, src: string, pos: nat, raw: string)
    requires At(src, pos, raw) && QuotedOk(raw) && c.decode(raw).Some?
    ensures pos < |src| && src[pos] == '"'
    ensures ParseString(c, src, pos) == Parsed(Leaf('"', pos, pos + |raw|, Decoded(c, raw)), pos + |raw|)
  {
    AtChar(src, pos, raw, 0);
    StringEndAt(src, pos, raw, 1);
  }

  lemma FirstChar(c: Codec, v: Value)
    requires ValueOk(c, v)
    ensures ValueText(v) != []
    ensures var first := ValueText(v)[0]; !IsSpace(first) && first != '/' && first != ']' && first != '}' && first != ','
    ensures v.Literal? ==> ValueText(v)[0] != '{' && ValueText(v)[0] != '[' && ValueText(v)[0] != '"'
  {}

  // ----- The parser on well-formed text

  lemma SnocCons<T>(a: seq<T>, x: T, b: seq<T>)
    ensures a + [x] + b == a + ([x] + b)
  {}

  lemma Concat2(a: string, b: string, z: string)
    ensures (a + b) + z == a + (b + z)
  {}

  lemma Concat4(a: string, b: string, d: string, e: string, z: string)
    ensures (a + (b + (d + e))) + z == a + (b + (d + (e + z)))
  {
    Concat2(a, b + (d + e), z);
    Concat2(b, d + e, z);
    Concat2(d, e, z);
  }

  lemma Concat5(a: string, b: string, d: string, e: string, f: string, z: string)
    ensures (a + (b + (d + (e + f)))) + z == a + (b + (d + (e + (f + z))))
  {
    Concat4(a, b, d, e + f, z);
    Concat2(e, f, z);
  }

  lemma {:induction false} ParseValueAt(c: Codec, v: Value, src: string, pos: nat)
    requires ValueOk(c, v) && At(src, pos, ValueText(v)) && EndsLiteral(src, pos + |ValueText(v)|)
    ensures ParseValue(c, src, pos) == Parsed(TreeOf(c, v, pos), pos + |ValueText(v)|)
    decreases v, 0
  {
    hide At, ItemsText, PropsText, ItemsOk, PropsOk, ParseItems, ParseProps, ParseString, ItemNodes, PropNodes;
    hide Commas, Trailing, Keys, PropStarts, TrailingProp;
    FirstChar(c, v);
    AtChar(src, pos, ValueText(v), 0);
    assert SkipBlank(src, pos) == pos;
    match v
    case Literal(text) =>
      LiteralEndAt(src, pos, text);
    case Quoted(raw) =>
      ParseStringAt(c, src, pos, raw);
    case Array(items) =>
      assert ValueText(v) == "[" + (ItemsText(items) + "]");
      AtSplit(src, pos, "[", ItemsText(items) + "]");
      ParseItemsAt(c, items, src, pos, pos + 1, [], [], false);
    case Object(props) =>
      assert ValueText(v) == "{" + (PropsText(props) + "}");
      AtSplit(src, pos, "{", PropsText(props) + "}");
      ParsePropsAt(c, props, src, pos, pos + 1, [], [], [], false);
  }

  /** The parser may be handed the blanks already skipped. */
  lemma ParseItemsSkips(c: Codec, src: string, start: nat, from: nat, items: seq<Node>, commas: seq<nat>,
                        trailing: bool)
    ensures ParseItems(c, src, start, SkipBlank(src, from), items, commas, trailing) ==
            ParseItems(c, src, start, from, items, commas, trailing)
  {
    hide SkipBlank, ParseValue, ParseString;
    SkipBlankTwice(src, from);
  }

  lemma ParsePropsSkips(c: Codec, src: string, start: nat, from: nat,
                        keys: seq<string>, propStarts: seq<nat>, items: seq<Node>, trailing: bool)
    ensures ParseProps(c, src, start, SkipBlank(src, from), keys, propStarts, items, trailing) ==
            ParseProps(c, src, start, from, keys, propStarts, items, trailing)
  {
    hide SkipBlank, ParseValue, ParseString;
    SkipBlankTwice(src, from);
  }

  /** A value of the list, and the blank before it. */
  lemma ParseMemberAt(c: Codec, src: string, from: nat, before: Blank, v: Value, after: string)
    requires At(src, from, BlankText(before) + (ValueText(v) + after)) && BlankOk(before) && ValueOk(c, v)
    ensures var pos := from + |BlankText(before)|;
            && SkipBlank(src, from) == pos
            && pos < |src| && src[pos] == ValueText(v)[0] != ']' && src[pos] != '}'
            && At(src, pos, ValueText(v))
            && At(src, pos + |ValueText(v)|, after)
            && ValueText(v) != []
  {
    hide At, BlankText, ValueText, SkipBlank, ValueOk, BlankOk;
    var pos := from + |BlankText(before)|;
    AtSplit(src, from, BlankText(before), ValueText(v) + after);
    AtSplit(src, pos, ValueText(v), after);
    FirstChar(c, v);
    AtChar(src, pos, ValueText(v), 0);
    SkipBlankAt(src, from, before);
  }

  /** After a value: blanks, then the closer. */
  lemma CloserAt(src: string, end: nat, after: Blank, closer: char)
    requires At(src, end, BlankText(after) + [closer]) && BlankOk(after) && (closer == ']' || closer == '}')
    ensures var pos := end + |BlankText(after)|;
            && EndsLiteral(src, end)
            && Separator(src, end, closer) == (None, pos, false)
            && pos < |src| && src[pos] == closer
            && SkipBlank(src, pos) == pos
  {
    hide At, SkipBlank, BlankText, BlankOk;
    var pos := end + |BlankText(after)|;
    AtSplit(src, end, BlankText(after), [closer]);
    AtChar(src, pos, [closer], 0);
    SkipBlankAt(src, end, after);
    SkipBlankTwice(src, end);
    BlankEndsLiteral(src, end, after);
  }

  /** After a value: blanks, a comma, and the rest. */
  lemma CommaAt(src: string, end: nat, after: Blank, rest: string, closer: char)
    requires At(src, end, BlankText(after) + ("," + rest)) && BlankOk(after)
    ensures var pos := end + |BlankText(after)|;
            var next := SkipBlank(src, pos + 1);
            && EndsLiteral(src, end)
            && Separator(src, end, closer) == (Some(pos as nat), next, next < |src| && src[next] == closer)
            && At(src, pos + 1, rest)
  {
    hide At, SkipBlank, BlankText, BlankOk;
    var pos := end + |BlankText(after)|;
    AtSplit(src, end, BlankText(after), "," + rest);
    AtSplit(src, pos, ",", rest);
    AtChar(src, pos, ",", 0);
    SkipBlankAt(src, end, after);
    BlankEndsLiteral(src, end, after);
  }

  /** Whether the next list starts with its closer. */
  lemma NextItem(c: Codec, items: Items, src: string, from: nat)
    requires ItemsOk(c, items) && At(src, from, ItemsText(items) + "]")
    ensures var next := SkipBlank(src, from); (next < |src| && src[next] == ']') <==> items.End?
  {
    hide At, SkipBlank, BlankText, ValueText, ValueOk, BlankOk;
    match items
    case End(blank) =>
      AtSplit(src, from, BlankText(blank), "]");
      AtChar(src, from + |BlankText(blank)|, "]", 0);
      SkipBlankAt(src, from, blank);
    case Last(before, value, after) =>
      AtSplit(src, from, ItemsText(items), "]");
      ParseMemberAt(c, src, from, before, value, BlankText(after));
    case More(before, value, after, rest) =>
      AtSplit(src, from, ItemsText(items), "]");
      ParseMemberAt(c, src, from, before, value, BlankText(after) + ("," + ItemsText(rest)));
  }

  lemma {:induction false} ParseItemsAt(c: Codec, items: Items, src: string, start: nat, from: nat,
                                        nodes: seq<Node>, commas: seq<nat>, trailing: bool)
    requires ItemsOk(c, items) && At(src, from, ItemsText(items) + "]")
    ensures var end := from + |ItemsText(items)| + 1;
            ParseItems(c, src, start, from, nodes, commas, trailing) ==
            Parsed(Node('[', start, end, "", [], [], nodes + ItemNodes(c, items, from),
                        commas + Commas(items, from), trailing || Trailing(items)), end)
    decreases items, 2
  {
    hide At, ValueOk, TreeOf, SkipBlank, ParseValue, Separator, BlankText, ValueText, BlankOk, EndsLiteral;
    match items
    case End(blank) =>
      AtSplit(src, from, BlankText(blank), "]");
      AtChar(src, from + |BlankText(blank)|, "]", 0);
      SkipBlankAt(src, from, blank);
    case Last(before, value, after) =>
      Concat2(BlankText(before), ValueText(value) + BlankText(after), "]");
      Concat2(ValueText(value), BlankText(after), "]");
      ParseMemberAt(c, src, from, before, value, BlankText(after) + "]");
      var pos := from + |BlankText(before)|;
      var end := pos + |ValueText(value)|;
      CloserAt(src, end, after, ']');
      ParseValueAt(c, value, src, pos);
    case More(before, value, after, rest) =>
      ParseMoreAt(c, items, src, start, from, nodes, commas, trailing);
  }

  /** One round of the array loop, when a comma follows the item. */
  lemma ParseItemsStep(c: Codec, src: string, start: nat, from: nat, nodes: seq<Node>, commas: seq<nat>, trailing: bool,
                       node: Node, end: nat, comma: nat, rest: nat, closes: bool)
    requires var pos := SkipBlank(src, from);
             && pos < |src| && src[pos] != ']' && pos < end
             && ParseValue(c, src, pos) == Parsed(node, end)
             && Separator(src, end, ']') == (Some(comma), SkipBlank(src, rest), closes)
    ensures ParseItems(c, src, start, from, nodes, commas, trailing) ==
            ParseItems(c, src, start, SkipBlank(src, rest), nodes + [node], commas + [comma], trailing || closes)
  {
    hide SkipBlank, ParseValue;
  }

  lemma {:induction false} ItemRoundAt(c: Codec, items: Items, src: string, start: nat, from: nat,
                                       nodes: seq<Node>, commas: seq<nat>, trailing: bool)
    requires items.More?
    requires ItemsOk(c, items) && At(src, from, ItemsText(items) + "]")
    ensures At(src, RestPos(items, from), ItemsText(items.rest) + "]")
    ensures ParseItems(c, src, start, from, nodes, commas, trailing) ==
            ParseItems(c, src, start, RestPos(items, from), nodes + [TreeOf(c, items.value, from + |BlankText(items.before)|)],
                       commas + [CommaPos(items, from)], trailing || items.rest.End?)
    decreases items, 0
  {
    hide At, ValueOk, TreeOf, SkipBlank, ParseValue, ParseItems, Separator, BlankText, ValueText, BlankOk, EndsLiteral;
    var More(before, value, after, rest) := items;
    Concat5(BlankText(before), ValueText(value), BlankText(after), ",", ItemsText(rest), "]");
    ParseMemberAt(c, src, from, before, value, BlankText(after) + ("," + (ItemsText(rest) + "]")));
    var pos := from + |BlankText(before)|;
    var end := pos + |ValueText(value)|;
    CommaAt(src, end, after, ItemsText(rest) + "]", ']');
    ParseValueAt(c, value, src, pos);
    var comma, node := CommaPos(items, from), TreeOf(c, value, pos);
    NextItem(c, rest, src, comma + 1);
    ParseItemsStep(c, src, start, from, nodes, commas, trailing, node, end, comma, comma + 1, rest.End?);
    ParseItemsSkips(c, src, start, comma + 1, nodes + [node], commas + [comma], trailing || rest.End?);
  }

  lemma {:induction false} ParseMoreAt(c: Codec, items: Items, src: string, start: nat, from: nat,
                                       nodes: seq<Node>, commas: seq<nat>, trailing: bool)
    requires items.More?
    requires ItemsOk(c, items) && At(src, from, ItemsText(items) + "]")
    ensures var end := from + |ItemsText(items)| + 1;
            ParseItems(c, src, start, from, nodes, commas, trailing) ==
            Parsed(Node('[', start, end, "", [], [], nodes + ItemNodes(c, items, from),
                        commas + Commas(items, from), trailing || Trailing(items)), end)
    decreases items, 1
  {
    hide At, ValueOk, TreeOf, SkipBlank, ParseItems, BlankText, ValueText, BlankOk;
    var rest, next := items.rest, RestPos(items, from);
    var node := TreeOf(c, items.value, from + |BlankText(items.before)|);
    var comma := CommaPos(items, from);
    ItemRoundAt(c, items, src, start, from, nodes, commas, trailing);
    ParseItemsAt(c, rest, src, start, next, nodes + [node], commas + [comma], trailing || rest.End?);
    SnocCons(nodes, node, ItemNodes(c, rest, next));
    SnocCons(commas, comma, Commas(rest, next));
  }

  /** A property up to its value. */
  lemma ParseKeyAt(c: Codec, src: string, from: nat, before: Blank, key: string, colon: Blank, gap: Blank, v: Value,
                   after: string)
    requires At(src, from, PropHead(before, key, colon, gap) + (ValueText(v) + after))
    requires BlankOk(before) && QuotedOk(key) && c.decode(key).Some? && BlankOk(colon) && BlankOk(gap) && ValueOk(c, v)
    ensures var pos := from + |BlankText(before)|;
            var keyEnd := pos + |key|;
            var colonPos := keyEnd + |BlankText(colon)|;
            var valuePos := from + |PropHead(before, key, colon, gap)|;
            && SkipBlank(src, from) == pos
            && pos < |src| && src[pos] == '"'
            && ParseString(c, src, pos) == Parsed(Leaf('"', pos, keyEnd, Decoded(c, key)), keyEnd)
            && SkipBlank(src, keyEnd) == colonPos
            && colonPos < |src| && src[colonPos] == ':'
            && SkipBlank(src, colonPos + 1) == valuePos
            && At(src, valuePos, ValueText(v))
            && At(src, valuePos + |ValueText(v)|, after)
  {
    hide At, ParseString, BlankText, ValueText, SkipBlank, ValueOk, BlankOk, QuotedOk, StringEnd;
    var rest := ValueText(v) + after;
    var pos := from + |BlankText(before)|;
    var keyEnd := pos + |key|;
    var colonPos := keyEnd + |BlankText(colon)|;
    Concat5(BlankText(before), key, BlankText(colon), ":", BlankText(gap), rest);
    AtSplit(src, from, BlankText(before), key + (BlankText(colon) + (":" + (BlankText(gap) + rest))));
    AtSplit(src, pos, key, BlankText(colon) + (":" + (BlankText(gap) + rest)));
    AtSplit(src, keyEnd, BlankText(colon), ":" + (BlankText(gap) + rest));
    AtSplit(src, colonPos, ":", BlankText(gap) + rest);
    AtChar(src, colonPos, ":", 0);
    ParseStringAt(c, src, pos, key);
    SkipBlankAt(src, from, before);
    SkipBlankAt(src, keyEnd, colon);
    ParseMemberAt(c, src, colonPos + 1, gap, v, after);
  }

  lemma NextProp(c: Codec, props: Props, src: string, from: nat)
    requires PropsOk(c, props) && At(src, from, PropsText(props) + "}")
    ensures var next := SkipBlank(src, from); (next < |src| && src[next] == '}') <==> props.EndProps?
  {
    hide At, ParseString, BlankText, ValueText, SkipBlank, ValueOk, BlankOk, QuotedOk, StringEnd, PropHead;
    match props
    case EndProps(blank) =>
      AtSplit(src, from, BlankText(blank), "}");
      AtChar(src, from + |BlankText(blank)|, "}", 0);
      SkipBlankAt(src, from, blank);
    case LastProp(before, key, colon, gap, value, after) =>
      AtSplit(src, from, PropsText(props), "}");
      ParseKeyAt(c, src, from, before, key, colon, gap, value, BlankText(after));
    case MoreProps(before, key, colon, gap, value, after, rest) =>
      AtSplit(src, from, PropsText(props), "}");
      ParseKeyAt(c, src, from, before, key, colon, gap, value, BlankText(after) + ("," + PropsText(rest)));
  }

  lemma {:induction false} ParsePropsAt(c: Codec, props: Props, src: string, start: nat, from: nat,
                                        keys: seq<string>, propStarts: seq<nat>, nodes: seq<Node>, trailing: bool)
    requires PropsOk(c, props) && At(src, from, PropsText(props) + "}")
    ensures var end := from + |PropsText(props)| + 1;
            ParseProps(c, src, start, from, keys, propStarts, nodes, trailing) ==
            Parsed(Node('{', start, end, "", keys + Keys(c, props), propStarts + PropStarts(props, from),
                        nodes + PropNodes(c, props, from), [], trailing || TrailingProp(props)), end)
    decreases props, 2
  {
    hide At, ValueOk, TreeOf, SkipBlank, ParseValue, Separator, ParseString, PropHead, BlankText, ValueText, BlankOk, EndsLiteral, QuotedOk;
    match props
    case EndProps(blank) =>
      AtSplit(src, from, BlankText(blank), "}");
      AtChar(src, from + |BlankText(blank)|, "}", 0);
      SkipBlankAt(src, from, blank);
    case LastProp(before, key, colon, gap, value, after) =>
      Concat2(PropHead(before, key, colon, gap), ValueText(value) + BlankText(after), "}");
      Concat2(ValueText(value), BlankText(after), "}");
      ParseKeyAt(c, src, from, before, key, colon, gap, value, BlankText(after) + "}");
      CloserAt(src, FirstValuePos(props, from) + |ValueText(value)|, after, '}');
      ParsePropValueAt(c, src, from + |BlankText(before)| + |key| + |BlankText(colon)| + 1,
                       FirstValuePos(props, from), value);
    case MoreProps(before, key, colon, gap, value, after, rest) =>
      ParseMorePropsAt(c, props, src, start, from, keys, propStarts, nodes, trailing);
  }

  /** The value's own blank has been skipped or not: the parse is the same. */
  lemma {:induction false} ParsePropValueAt(c: Codec, src: string, from: nat, pos: nat, v: Value)
    requires ValueOk(c, v) && At(src, pos, ValueText(v)) && EndsLiteral(src, pos + |ValueText(v)|)
    requires SkipBlank(src, from) == pos
    ensures ParseValue(c, src, from) == Parsed(TreeOf(c, v, pos), pos + |ValueText(v)|)
    decreases v, 1
  {
    hide At, ValueOk, TreeOf, ParseItems, ParseProps, ParseString, ValueText;
    SkipBlankTwice(src, from);
    ParseValueAt(c, v, src, pos);
  }

  /** One round of the object loop, when a comma follows the value. */
  lemma ParsePropsStep(c: Codec, src: string, start: nat, from: nat, keys: seq<string>, propStarts: seq<nat>,
                       nodes: seq<Node>,
                       trailing: bool, key: Node, colon: nat, node: Node, end: nat, comma: nat, rest: nat, closes: bool)
    requires var pos := SkipBlank(src, from);
             && pos < |src| && src[pos] != '}'
             && ParseString(c, src, pos) == Parsed(key, key.end)
             && SkipBlank(src, key.end) == colon < |src| && src[colon] == ':'
             && ParseValue(c, src, colon + 1) == Parsed(node, end)
             && Separator(src, end, '}') == (Some(comma), SkipBlank(src, rest), closes)
    ensures ParseProps(c, src, start, from, keys, propStarts, nodes, trailing) ==
            ParseProps(c, src, start, SkipBlank(src, rest), keys + [key.value], propStarts + [key.start], nodes + [node], trailing || closes)
  {
    hide SkipBlank, ParseValue, ParseString;
  }

  lemma {:induction false} PropRoundAt(c: Codec, props: Props, src: string, start: nat, from: nat,
                                       keys: seq<string>, propStarts: seq<nat>, nodes: seq<Node>, trailing: bool)
    requires props.MoreProps?
    requires PropsOk(c, props) && At(src, from, PropsText(props) + "}")
    ensures At(src, RestPropsPos(props, from), PropsText(props.rest) + "}")
    ensures ParseProps(c, src, start, from, keys, propStarts, nodes, trailing) ==
            ParseProps(c, src, start, RestPropsPos(props, from), keys + [Decoded(c, props.key)],
                       propStarts + [from + |BlankText(props.before)|],
                       nodes + [TreeOf(c, props.value, FirstValuePos(props, from))], trailing || props.rest.EndProps?)
    decreases props, 0
  {
    hide At, ValueOk, TreeOf, SkipBlank, ParseValue, ParseProps, Separator, ParseString, PropHead, BlankText, ValueText;
    hide BlankOk, EndsLiteral, QuotedOk;
    var MoreProps(before, key, colon, gap, value, after, rest) := props;
    Concat5(PropHead(before, key, colon, gap), ValueText(value), BlankText(after), ",", PropsText(rest), "}");
    ParseKeyAt(c, src, from, before, key, colon, gap, value, BlankText(after) + ("," + (PropsText(rest) + "}")));
    var pos, next := FirstValuePos(props, from), RestPropsPos(props, from);
    var end := pos + |ValueText(value)|;
    CommaAt(src, end, after, PropsText(rest) + "}", '}');
    var keyStart := from + |BlankText(before)|;
    var colonPos := keyStart + |key| + |BlankText(colon)|;
    ParsePropValueAt(c, src, colonPos + 1, pos, value);
    NextProp(c, rest, src, next);
    var node := TreeOf(c, value, pos);
    ParsePropsStep(c, src, start, from, keys, propStarts, nodes, trailing, Leaf('"', keyStart, keyStart + |key|, Decoded(c, key)),
                   colonPos, node, end, next - 1, next, rest.EndProps?);
    ParsePropsSkips(c, src, start, next, keys + [Decoded(c, key)], propStarts + [keyStart], nodes + [node],
                    trailing || rest.EndProps?);
  }

  lemma PropsLength(props: Props, from: nat)
    requires props.MoreProps?
    ensures RestPropsPos(props, from) + |PropsText(props.rest)| == from + |PropsText(props)|
  {
    hide PropHead, ValueText, BlankText;
  }

  lemma {:induction false} ParseMorePropsAt(c: Codec, props: Props, src: string, start: nat, from: nat,
                                            keys: seq<string>, propStarts: seq<nat>, nodes: seq<Node>, trailing: bool)
    requires props.MoreProps?
    requires PropsOk(c, props) && At(src, from, PropsText(props) + "}")
    ensures var end := from + |PropsText(props)| + 1;
            ParseProps(c, src, start, from, keys, propStarts, nodes, trailing) ==
            Parsed(Node('{', start, end, "", keys + Keys(c, props), propStarts + PropStarts(props, from),
                        nodes + PropNodes(c, props, from), [], trailing || TrailingProp(props)), end)
    decreases props, 1
  {
    hide At, ValueOk, TreeOf, ParseProps, PropHead, BlankText, ValueText, BlankOk, QuotedOk;
    var rest, next := props.rest, RestPropsPos(props, from);
    var key, keyStart := Decoded(c, props.key), from + |BlankText(props.before)|;
    var node := TreeOf(c, props.value, FirstValuePos(props, from));
    PropRoundAt(c, props, src, start, from, keys, propStarts, nodes, trailing);
    PropsLength(props, from);
    hide FirstValuePos, RestPropsPos, PropsText;
    ParsePropsAt(c, rest, src, start, next, keys + [key], propStarts + [keyStart], nodes + [node],
                 trailing || rest.EndProps?);
    SnocCons(keys, key, Keys(c, rest));
    SnocCons(propStarts, keyStart, PropStarts(rest, next));
    SnocCons(nodes, node, PropNodes(c, rest, next));
  }

  // ----- Documents

  /** A well-formed document parses to its own tree, and nothing of it is left over. */
  lemma ParseDocumentText(c: Codec, d: Document)
    requires DocumentOk(c, d)
    ensures ParseDocument(c, DocumentText(d)) == Parsed(TreeOf(c, d.root, |BlankText(d.lead)|), |DocumentText(d)|)
  {
    hide TreeOf, ValueOk, BlankText, ValueText, ParseValue, SkipBlank, BlankOk, At;
    var src := DocumentText(d);
    var pos := |BlankText(d.lead)|;
    var end := pos + |ValueText(d.root)|;
    assert At(src, 0, src) by { AtStart(src); }
    ParseMemberAt(c, src, 0, d.lead, d.root, BlankText(d.trail) + NoteText(d.note));
    DocumentEnd(src, end, d.trail, d.note);
    ParsePropValueAt(c, src, 0, pos, d.root);
  }

  lemma AtStart(src: string)
    ensures At(src, 0, src)
  {}

  lemma DocumentEnd(src: string, end: nat, trail: Blank, note: Option<string>)
    requires At(src, end, BlankText(trail) + NoteText(note)) && end + |BlankText(trail)| + |NoteText(note)| == |src|
    requires BlankOk(trail) && (note.Some? ==> '\n' !in note.value)
    ensures EndsLiteral(src, end)
    ensures SkipBlank(src, end) == |src|
  {
    hide At, BlankOk, LineEnd;
    var pos := end + |BlankText(trail)|;
    AtSplit(src, end, BlankText(trail), NoteText(note));
    if note.Some? {
      AtChar(src, pos, NoteText(note), 0);
      AtChar(src, pos, NoteText(note), 1);
      AtSplit(src, pos, "//", note.value);
      LineEndAtEnd(src, pos + 2, note.value);
    }
    BlankEndsLiteral(src, end, trail);
    SkipBlankThrough(src, end, trail);
  }

  lemma {:induction false} LineEndAtEnd(src: string, pos: nat, text: string)
    requires At(src, pos, text) && '\n' !in text && pos + |text| == |src|
    ensures LineEnd(src, pos) == |src|
    decreases |text|
  {
    hide At;
    if text != [] {
      AtChar(src, pos, text, 0);
      assert text == text[..1] + text[1..];
      AtSplit(src, pos, text[..1], text[1..]);
      LineEndAtEnd(src, pos + 1, text[1..]);
    }
  }

  /** Blanks are skipped, whatever follows them. */
  lemma {:induction false} SkipBlankThrough(src: string, pos: nat, b: Blank)
    requires At(src, pos, BlankText(b)) && BlankOk(b)
    ensures SkipBlank(src, pos) == SkipBlank(src, pos + |BlankText(b)|)
    decreases |b|
  {
    hide At, TriviumText, TriviumOk;
    if b != [] {
      AtSplit(src, pos, TriviumText(b[0]), BlankText(b[1..]));
      SkipTrivium(src, pos, b[0]);
      SkipBlankThrough(src, pos + |TriviumText(b[0])|, b[1..]);
    }
  }
}
