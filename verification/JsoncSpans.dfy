/** The spans of a parsed document: nesting, order, and the text they cut out. */
module JsoncSpans {
  import opened JsoncParser
  import opened JsoncSyntax
  import opened JsoncTrees
  import opened Options
  import opened Sequences

  // ----- Nesting and order

  /** Spans that follow one another between two offsets. */
  predicate Ordered(nodes: seq<Node>, low: nat, high: nat) {
    && (forall i :: 0 <= i < |nodes| ==> low <= nodes[i].start < nodes[i].end <= high)
    && (forall i, j :: 0 <= i < j < |nodes| ==> nodes[i].end <= nodes[j].start)
  }

  /** A separator behind each item, and before the next; the last item has one only if the list trails. */
  predicate Separated(nodes: seq<Node>, commas: seq<nat>, trailing: bool, high: nat) {
    && |commas| == (if nodes == [] || trailing then |nodes| else |nodes| - 1)
    && (forall i :: 0 <= i < |commas| ==> nodes[i].end <= commas[i] < high)
    && (forall i :: 0 <= i < |commas| && i + 1 < |nodes| ==> commas[i] < nodes[i + 1].start)
  }

  /** A key before each value, behind the value before it. */
  predicate Keyed(nodes: seq<Node>, propStarts: seq<nat>, low: nat) {
    && |propStarts| == |nodes|
    && (forall i :: 0 <= i < |nodes| ==> low <= propStarts[i] < nodes[i].start)
    && (forall i, j :: 0 <= i < j < |nodes| ==> nodes[i].end <= propStarts[j])
  }

  predicate WellSpanned(n: Node) {
    && n.start < n.end
    && Ordered(n.items, n.start + 1, n.end - 1)
    && (n.kind == '[' ==> Separated(n.items, n.commas, n.trailing, n.end - 1))
    && (n.kind == '{' ==> |n.keys| == |n.items| && Keyed(n.items, n.propStarts, n.start + 1))
    && (n.kind != '[' && n.kind != '{' ==> n.items == [])
    && forall i :: 0 <= i < |n.items| ==> WellSpanned(n.items[i])
  }

  lemma OrderedCons(first: Node, rest: seq<Node>, low: nat, middle: nat, high: nat)
    requires low <= first.start < first.end <= middle <= high && Ordered(rest, middle, high)
    ensures Ordered([first] + rest, low, high)
  {
    var all := [first] + rest;
    assert forall i :: 1 <= i < |all| ==> all[i] == rest[i - 1];
  }

  lemma SeparatedCons(first: Node, rest: seq<Node>, comma: nat, commas: seq<nat>, trailing: bool, middle: nat,
                      high: nat)
    requires first.end <= comma < middle <= high && Ordered(rest, middle, high)
    requires Separated(rest, commas, trailing, high) && (rest == [] ==> trailing)
    ensures Separated([first] + rest, [comma] + commas, trailing, high)
  {
    var all, seps := [first] + rest, [comma] + commas;
    forall i | 0 <= i < |seps|
      ensures all[i].end <= seps[i] < high
      ensures i + 1 < |all| ==> seps[i] < all[i + 1].start
    {
      if i + 1 < |all| {
        assert all[i + 1] == rest[i];
      }
      if i > 0 {
        assert all[i] == rest[i - 1] && seps[i] == commas[i - 1];
      }
    }
  }

  lemma KeyedCons(first: Node, rest: seq<Node>, key: nat, keys: seq<nat>, low: nat, middle: nat)
    requires low <= key < first.start && first.end <= middle && low <= middle && Keyed(rest, keys, middle)
    ensures Keyed([first] + rest, [key] + keys, low)
  {
    var all, starts := [first] + rest, [key] + keys;
    assert forall i :: 1 <= i < |all| ==> all[i] == rest[i - 1] && starts[i] == keys[i - 1];
  }

  lemma SpannedCons(first: Node, rest: seq<Node>)
    requires WellSpanned(first) && forall i :: 0 <= i < |rest| ==> WellSpanned(rest[i])
    ensures forall i :: 0 <= i < |[first] + rest| ==> WellSpanned(([first] + rest)[i])
  {
    hide WellSpanned;
    var all := [first] + rest;
    forall i | 0 <= i < |all|
      ensures WellSpanned(all[i])
    {
      assert all[i] == if i == 0 then first else rest[i - 1];
    }
  }

  lemma NoneSpanned(low: nat, high: nat)
    ensures Ordered([], low, high) && Separated([], [], false, high) && Keyed([], [], low)
  {}

  lemma HasText(c: Codec, v: Value)
    requires ValueOk(c, v)
    ensures |ValueText(v)| > 0
  {}

  lemma TreeEnds(c: Codec, v: Value, pos: nat)
    ensures TreeOf(c, v, pos).start == pos && TreeOf(c, v, pos).end == pos + |ValueText(v)|
  {}

  /** Every parsed tree is well spanned. */
  lemma {:induction false} TreeWellSpanned(c: Codec, v: Value, pos: nat)
    requires ValueOk(c, v)
    ensures WellSpanned(TreeOf(c, v, pos))
    decreases v
  {
    hide ItemsOk, PropsOk, Ordered, Separated, Keyed, ItemsText, PropsText, ItemNodes, PropNodes, Keys, PropStarts;
    hide Commas, Trailing;
    HasText(c, v);
    match v
    case Literal(text) => NoneSpanned(pos + 1, pos + |text| - 1);
    case Quoted(raw) => NoneSpanned(pos + 1, pos + |raw| - 1);
    case Array(items) => ItemsWellSpanned(c, items, pos + 1);
    case Object(props) => PropsWellSpanned(c, props, pos + 1);
  }

  lemma {:induction false} ItemsWellSpanned(c: Codec, items: Items, pos: nat)
    requires ItemsOk(c, items)
    ensures var nodes, high := ItemNodes(c, items, pos), pos + |ItemsText(items)|;
            && Ordered(nodes, pos, high)
            && Separated(nodes, Commas(items, pos), Trailing(items), high)
            && (forall i :: 0 <= i < |nodes| ==> WellSpanned(nodes[i]))
            && (nodes == [] <==> items.End?)
    decreases items
  {
    hide TreeOf, WellSpanned, BlankText, ValueText, BlankOk, ValueOk, Ordered, Separated;
    if items.End? {
      NoneSpanned(pos, pos + |ItemsText(items)|);
    } else {
      var at, high := pos + |BlankText(items.before)|, pos + |ItemsText(items)|;
      TreeWellSpanned(c, items.value, at);
      TreeEnds(c, items.value, at);
      HasText(c, items.value);
      var first := TreeOf(c, items.value, at);
      if items.Last? {
        OneItem(first, pos, high);
      } else {
        var next := RestPos(items, pos);
        ItemsWellSpanned(c, items.rest, next);
        var rest := ItemNodes(c, items.rest, next);
        OrderedCons(first, rest, pos, next, high);
        SeparatedCons(first, rest, CommaPos(items, pos), Commas(items.rest, next), Trailing(items), next, high) by {
          if items.rest.End? {
            EmptyTrailing(c, items.rest, next, high);
          }
        }
        SpannedCons(first, rest);
      }
    }
  }

  lemma EmptyTrailing(c: Codec, items: Items, pos: nat, high: nat)
    requires items.End?
    ensures Separated(ItemNodes(c, items, pos), Commas(items, pos), true, high)
  {}

  lemma OneItem(first: Node, low: nat, high: nat)
    requires low <= first.start < first.end <= high && WellSpanned(first)
    ensures Ordered([first], low, high) && Separated([first], [], false, high)
    ensures forall i :: 0 <= i < |[first]| ==> WellSpanned([first][i])
  {
    hide WellSpanned;
  }

  lemma KeyBeforeValue(props: Props, pos: nat)
    requires !props.EndProps? && QuotedOk(props.key)
    ensures pos <= pos + |BlankText(props.before)| < FirstValuePos(props, pos)
  {
    hide BlankText, QuotedOk;
    assert |props.key| >= 2 by { KeyText(props.key); }
  }

  lemma KeyText(key: string)
    requires QuotedOk(key)
    ensures |key| >= 2
  {}

  lemma {:induction false} PropsWellSpanned(c: Codec, props: Props, pos: nat)
    requires PropsOk(c, props)
    ensures var nodes, high := PropNodes(c, props, pos), pos + |PropsText(props)|;
            && Ordered(nodes, pos, high)
            && |Keys(c, props)| == |nodes| && Keyed(nodes, PropStarts(props, pos), pos)
            && (forall i :: 0 <= i < |nodes| ==> WellSpanned(nodes[i]))
    decreases props
  {
    hide TreeOf, WellSpanned, BlankText, ValueText, BlankOk, ValueOk, QuotedOk, Ordered, Separated, Keyed, PropHead;
    if props.EndProps? {
      NoneSpanned(pos, pos + |PropsText(props)|);
    } else {
      var at, high := FirstValuePos(props, pos), pos + |PropsText(props)|;
      KeyBeforeValue(props, pos);
      TreeWellSpanned(c, props.value, at);
      TreeEnds(c, props.value, at);
      HasText(c, props.value);
      var first, key := TreeOf(c, props.value, at), pos + |BlankText(props.before)|;
      if props.LastProp? {
        OneItem(first, pos, high);
        OneKey(first, key, pos);
      } else {
        var next := RestPropsPos(props, pos);
        PropsWellSpanned(c, props.rest, next);
        var rest := PropNodes(c, props.rest, next);
        OrderedCons(first, rest, pos, next, high);
        KeyedCons(first, rest, key, PropStarts(props.rest, next), pos, next);
        SpannedCons(first, rest);
      }
    }
  }

  lemma OneKey(first: Node, key: nat, low: nat)
    requires low <= key < first.start
    ensures Keyed([first], [key], low)
  {}

  // ----- The text of a span

  /** The node reached by going down to the given children. */
  function Descend(n: Node, path: seq<nat>): Option<Node>
    decreases |path|
  {
    if path == [] then Some(n)
    else if path[0] >= |n.items| then None
    else Descend(n.items[path[0]], path[1..])
  }

  /** A node with all its offsets moved. */
  function Moved(n: Node, delta: nat): Node {
    Node(n.kind, n.start + delta, n.end + delta, n.value, n.keys,
         seq(|n.propStarts|, i requires 0 <= i < |n.propStarts| => n.propStarts[i] + delta),
         seq(|n.items|, i requires 0 <= i < |n.items| => Moved(n.items[i], delta)),
         seq(|n.commas|, i requires 0 <= i < |n.commas| => n.commas[i] + delta), n.trailing)
  }

  function MovedAll(nodes: seq<Node>, delta: nat): seq<Node> {
    seq(|nodes|, i requires 0 <= i < |nodes| => Moved(nodes[i], delta))
  }

  function Shifted(offsets: seq<nat>, delta: nat): seq<nat> {
    seq(|offsets|, i requires 0 <= i < |offsets| => offsets[i] + delta)
  }

  lemma {:induction false} TreeMoves(c: Codec, v: Value, pos: nat, delta: nat)
    ensures TreeOf(c, v, pos + delta) == Moved(TreeOf(c, v, pos), delta)
    decreases v
  {
    hide ItemsText, PropsText, ItemNodes, PropNodes, Keys, PropStarts, Commas, Trailing;
    match v
    case Literal(_) =>
    case Quoted(_) =>
    case Array(items) =>
      ItemsMove(c, items, pos + 1, delta);
      MovedArray(TreeOf(c, v, pos), delta);
    case Object(props) =>
      PropsMove(c, props, pos + 1, delta);
      MovedArray(TreeOf(c, v, pos), delta);
  }

  lemma MovedArray(n: Node, delta: nat)
    ensures Moved(n, delta) == Node(n.kind, n.start + delta, n.end + delta, n.value, n.keys, Shifted(n.propStarts, delta),
                                 MovedAll(n.items, delta), Shifted(n.commas, delta), n.trailing)
  {
    assert Moved(n, delta).items == MovedAll(n.items, delta);
  }

  lemma {:induction false} ItemsMove(c: Codec, items: Items, pos: nat, delta: nat)
    ensures ItemNodes(c, items, pos + delta) == MovedAll(ItemNodes(c, items, pos), delta)
    ensures Commas(items, pos + delta) == Shifted(Commas(items, pos), delta)
    decreases items
  {
    hide TreeOf, Moved, BlankText, ValueText;
    if !items.End? {
      TreeMoves(c, items.value, pos + |BlankText(items.before)|, delta);
    }
    if items.More? {
      ItemsMove(c, items.rest, RestPos(items, pos), delta);
    }
  }

  lemma {:induction false} PropsMove(c: Codec, props: Props, pos: nat, delta: nat)
    ensures PropNodes(c, props, pos + delta) == MovedAll(PropNodes(c, props, pos), delta)
    ensures PropStarts(props, pos + delta) == Shifted(PropStarts(props, pos), delta)
    decreases props
  {
    hide TreeOf, Moved, BlankText, ValueText, PropHead;
    if !props.EndProps? {
      TreeMoves(c, props.value, FirstValuePos(props, pos), delta);
    }
    if props.MoreProps? {
      PropsMove(c, props.rest, RestPropsPos(props, pos), delta);
    }
  }

  lemma {:induction false} ItemAt(c: Codec, src: string, items: Items, pos: nat, k: nat) returns (v: Value, at: nat)
    requires ItemsOk(c, items) && At(src, pos, ItemsText(items)) && k < |ItemNodes(c, items, pos)|
    ensures ItemNodes(c, items, pos)[k] == TreeOf(c, v, at) && ValueOk(c, v) && At(src, at, ValueText(v))
    decreases items
  {
    hide TreeOf, BlankText, ValueText, BlankOk, ValueOk, At;
    v, at := items.value, pos + |BlankText(items.before)|;
    AtSplit(src, pos, BlankText(items.before), if items.Last? then ValueText(v) + BlankText(items.after)
                      else ValueText(v) + (BlankText(items.after) + ("," + ItemsText(items.rest))));
    if items.Last? {
      AtSplit(src, at, ValueText(v), BlankText(items.after));
    } else {
      var next := RestPos(items, pos);
      AtSplit(src, at, ValueText(v), BlankText(items.after) + ("," + ItemsText(items.rest)));
      AtSplit(src, at + |ValueText(v)|, BlankText(items.after), "," + ItemsText(items.rest));
      AtSplit(src, CommaPos(items, pos), ",", ItemsText(items.rest));
      if k > 0 {
        v, at := ItemAt(c, src, items.rest, next, k - 1);
      }
    }
  }

  lemma {:induction false} PropAt(c: Codec, src: string, props: Props, pos: nat, k: nat) returns (v: Value, at: nat)
    requires PropsOk(c, props) && At(src, pos, PropsText(props)) && k < |PropNodes(c, props, pos)|
    ensures PropNodes(c, props, pos)[k] == TreeOf(c, v, at) && ValueOk(c, v) && At(src, at, ValueText(v))
    decreases props
  {
    hide TreeOf, BlankText, ValueText, BlankOk, ValueOk, QuotedOk, At, PropHead;
    v, at := props.value, FirstValuePos(props, pos);
    var head := PropHead(props.before, props.key, props.colon, props.gap);
    AtSplit(src, pos, head, if props.LastProp? then ValueText(v) + BlankText(props.after)
                      else ValueText(v) + (BlankText(props.after) + ("," + PropsText(props.rest))));
    if props.LastProp? {
      AtSplit(src, at, ValueText(v), BlankText(props.after));
    } else {
      AtSplit(src, at, ValueText(v), BlankText(props.after) + ("," + PropsText(props.rest)));
      AtSplit(src, at + |ValueText(v)|, BlankText(props.after), "," + PropsText(props.rest));
      AtSplit(src, at + |ValueText(v)| + |BlankText(props.after)|, ",", PropsText(props.rest));
      if k > 0 {
        v, at := PropAt(c, src, props.rest, RestPropsPos(props, pos), k - 1);
      }
    }
  }

  lemma ChildAt(c: Codec, src: string, v: Value, pos: nat, k: nat) returns (w: Value, at: nat)
    requires ValueOk(c, v) && At(src, pos, ValueText(v)) && k < |TreeOf(c, v, pos).items|
    ensures TreeOf(c, v, pos).items[k] == TreeOf(c, w, at) && ValueOk(c, w) && At(src, at, ValueText(w))
  {
    hide At, ItemNodes, PropNodes, Keys, PropStarts, Commas, ItemsText, PropsText, ItemsOk, PropsOk;
    match v
    case Array(items) =>
      SeqAssociative("[", ItemsText(items), "]");
      AtSplit(src, pos, "[", ItemsText(items) + "]");
      AtSplit(src, pos + 1, ItemsText(items), "]");
      w, at := ItemAt(c, src, items, pos + 1, k);
    case Object(props) =>
      SeqAssociative("{", PropsText(props), "}");
      AtSplit(src, pos, "{", PropsText(props) + "}");
      AtSplit(src, pos + 1, PropsText(props), "}");
      w, at := PropAt(c, src, props, pos + 1, k);
    case _ =>
      w, at := v, pos;
  }

  lemma {:induction false} DescendantAt(c: Codec, src: string, v: Value, pos: nat, path: seq<nat>)
    returns (w: Value, at: nat)
    requires ValueOk(c, v) && At(src, pos, ValueText(v)) && Descend(TreeOf(c, v, pos), path).Some?
    ensures Descend(TreeOf(c, v, pos), path) == Some(TreeOf(c, w, at)) && ValueOk(c, w) && At(src, at, ValueText(w))
    decreases |path|
  {
    hide TreeOf, ValueOk, At, ValueText;
    if path == [] {
      w, at := v, pos;
    } else {
      var child, childAt := ChildAt(c, src, v, pos, path[0]);
      w, at := DescendantAt(c, src, child, childAt, path[1..]);
    }
  }

  /** A value's own text is a document that parses to the value's tree. */
  lemma ValueAlone(c: Codec, v: Value)
    requires ValueOk(c, v)
    ensures ParseDocument(c, ValueText(v)) == Parsed(TreeOf(c, v, 0), |ValueText(v)|)
  {
    hide ValueText, ValueOk, TreeOf, ParseDocument;
    var d := Document([], v, [], None);
    assert BlankText([]) == "" && NoteText(None) == "";
    assert "" + (ValueText(v) + ("" + "")) == ValueText(v);
    ParseDocumentText(c, d);
  }

  /** Every span of a parsed document is well nested, and its own slice parses to the same subtree. */
  lemma SpansOfDocument(c: Codec, d: Document, path: seq<nat>)
    requires DocumentOk(c, d)
    ensures var text := DocumentText(d);
            var parsed := ParseDocument(c, text);
            && parsed.Parsed? && WellSpanned(parsed.node) && parsed.node.end <= |text|
            && (Descend(parsed.node, path).Some? ==>
                  var n := Descend(parsed.node, path).value;
                  && n.start < n.end <= |text|
                  && var slice := ParseDocument(c, text[n.start..n.end]);
                     slice.Parsed? && n == Moved(slice.node, n.start))
  {
    hide TreeOf, ValueOk, At, ValueText, ParseDocument, BlankText, WellSpanned, Moved, Descend, BlankOk, NoteText;
    var text, pos := DocumentText(d), |BlankText(d.lead)|;
    ParseDocumentText(c, d);
    TreeWellSpanned(c, d.root, pos);
    TreeEnds(c, d.root, pos);
    AtStart(text);
    AtSplit(text, 0, BlankText(d.lead), ValueText(d.root) + (BlankText(d.trail) + NoteText(d.note)));
    AtSplit(text, pos, ValueText(d.root), BlankText(d.trail) + NoteText(d.note));
    var tree := TreeOf(c, d.root, pos);
    if Descend(tree, path).Some? {
      var w, at := DescendantAt(c, text, d.root, pos, path);
      SliceOf(text, at, ValueText(w));
      TreeEnds(c, w, at);
      HasText(c, w);
      ValueAlone(c, w);
      TreeMoves(c, w, 0, at);
    }
  }

  lemma SliceOf(src: string, at: nat, text: string)
    requires At(src, at, text)
    ensures at + |text| <= |src| && src[at..at + |text|] == text
  {}

  // ----- Where the source's array loop stops making progress

  /** One round of the array loop consumes nothing exactly at a stray `}` or `:`. */
  lemma ArrayRoundStuck(c: Codec, src: string, from: nat)
    requires var pos := SkipBlank(src, from); pos < |src| && src[pos] != ']' && ParseValue(c, src, pos).Parsed?
    ensures var pos := SkipBlank(src, from);
            Separator(src, ParseValue(c, src, pos).pos, ']').1 <= pos <==> src[pos] == '}' || src[pos] == ':'
  {
    hide SkipBlank, ParseItems, ParseProps, LiteralEnd;
    var pos := SkipBlank(src, from);
    SkipBlankTwice(src, from);
    SolidAt(src, from);
    LiteralProgress(src, pos);
  }

  lemma LiteralProgress(src: string, pos: nat)
    requires pos < |src|
    ensures LiteralEnd(src, pos) == pos <==> EndsLiteral(src, pos)
  {}

  lemma {:induction false} SolidAt(src: string, from: nat)
    ensures var pos := SkipBlank(src, from); pos < |src| ==> !IsSpace(src[pos]) && !StartsComment(src, pos)
    decreases |src| - from
  {
    if from < |src| {
      if IsSpace(src[from]) {
        SolidAt(src, from + 1);
      } else if StartsComment(src, from) {
        SolidAt(src, if src[from + 1] == '/' then LineEnd(src, from + 2) else BlockEnd(src, from + 2) + 2);
      }
    }
  }

  /** Every entry is followed by its comma. */
  predicate Open(items: Items) {
    match items
    case End(_) => true
    case Last(_, _, _) => false
    case More(_, _, _, rest) => Open(rest)
  }

  /** A `}` or a `:` where an entry could begin. */
  lemma StrayStuck(c: Codec, src: string, start: nat, from: nat, nodes: seq<Node>, commas: seq<nat>, trailing: bool)
    requires var pos := SkipBlank(src, from); pos < |src| && (src[pos] == '}' || src[pos] == ':')
    ensures ParseItems(c, src, start, from, nodes, commas, trailing) == Stuck
  {
    hide SkipBlank, ParseProps;
    var pos := SkipBlank(src, from);
    SkipBlankTwice(src, from);
    LiteralProgress(src, pos);
    assert ParseValue(c, src, pos) == Parsed(Leaf('l', pos, pos, ""), pos);
    ArrayRoundStuck(c, src, from);
  }

  lemma {:induction false} OpenStuck(c: Codec, items: Items, src: string, start: nat, from: nat, nodes: seq<Node>,
                                     commas: seq<nat>,
                                     trailing: bool, stray: char, rest: string)
    requires ItemsOk(c, items) && Open(items) && (stray == '}' || stray == ':')
    requires At(src, from, ItemsText(items) + ([stray] + rest))
    ensures ParseItems(c, src, start, from, nodes, commas, trailing) == Stuck
    decreases items
  {
    hide At, ValueOk, TreeOf, SkipBlank, ParseValue, ParseItems, BlankText, ValueText, BlankOk, EndsLiteral, Separator;
    var behind := [stray] + rest;
    match items
    case End(b) =>
      var pos := from + |BlankText(b)|;
      AtSplit(src, from, BlankText(b), behind);
      AtChar(src, pos, behind, 0);
      SkipBlankAt(src, from, b);
      StrayStuck(c, src, start, from, nodes, commas, trailing);
    case More(before, value, after, more) =>
      var pos, next := from + |BlankText(before)|, RestPos(items, from);
      var end := pos + |ValueText(value)|;
      Concat5(BlankText(before), ValueText(value), BlankText(after), ",", ItemsText(more), behind);
      ParseMemberAt(c, src, from, before, value, BlankText(after) + ("," + (ItemsText(more) + behind)));
      CommaAt(src, end, after, ItemsText(more) + behind, ']');
      ParseValueAt(c, value, src, pos);
      var node, skipped := TreeOf(c, value, pos), SkipBlank(src, next);
      var closes := skipped < |src| && src[skipped] == ']';
      ParseItemsStep(c, src, start, from, nodes, commas, trailing, node, end, next - 1, next, closes);
      ParseItemsSkips(c, src, start, next, nodes + [node], commas + [next - 1], trailing || closes);
      OpenStuck(c, more, src, start, next, nodes + [node], commas + [next - 1], trailing || closes, stray, rest);
  }

  /** Behind any well-formed entries, each with its comma, a stray `}` or `:` makes the parser never return, whatever follows. */
  lemma HangsBehindAnyEntries(c: Codec, lead: Blank, items: Items, stray: char, rest: string)
    requires BlankOk(lead) && ItemsOk(c, items) && Open(items) && (stray == '}' || stray == ':')
    ensures ParseDocument(c, BlankText(lead) + ("[" + (ItemsText(items) + ([stray] + rest)))) == Stuck
  {
    hide ItemsText, BlankText, ParseItems, At, BlankOk, ItemsOk, ParseProps;
    var tail := ItemsText(items) + ([stray] + rest);
    var src, pos := BlankText(lead) + ("[" + tail), |BlankText(lead)|;
    AtStart(src);
    AtSplit(src, 0, BlankText(lead), "[" + tail);
    AtSplit(src, pos, "[", tail);
    AtChar(src, pos, "[", 0);
    SkipBlankAt(src, 0, lead);
    OpenStuck(c, items, src, pos, pos + 1, [], [], false, stray, rest);
  }

  /** The smallest text on which the parser never returns. */
  lemma ParserHangs(c: Codec)
    ensures ParseDocument(c, "[}") == Stuck
  {
    var src := "[}";
    assert SkipBlank(src, 0) == 0;
    assert SkipBlank(src, 1) == 1;
    assert ParseValue(c, src, 1) == Parsed(Leaf('l', 1, 1, ""), 1);
    assert ParseItems(c, src, 0, 1, [], [], false) == Stuck;
  }
}
