/** Appends to a clients array that ends in a comma, where they miss it: what becomes of them. */
module RenderMisses {
  import opened JsoncParser
  import opened JsoncSpans
  import opened JsoncSyntax
  import opened JsoncTrees
  import opened Options
  import opened RenderArrays
  import opened RenderClients
  import opened RenderCommas
  import opened RenderContext
  import opened RenderEntries
  import opened RenderInk
  import opened RenderLayout
  import opened RenderLimits
  import opened RenderLists
  import opened RenderOrder
  import opened RenderPairs
  import opened RenderPlanner
  import opened RenderReading
  import opened RenderResult
  import opened RenderSettings
  import opened RenderSyntax
  import opened RenderTrailing
  import opened Sequences
  import opened TextEdits
  import opened TextLandings

  // ----- Into a comment

  /** The last line break stands in a block comment. */
  predicate Swallows(blank: Blank, n: int) {
    && 0 <= n < |blank| && blank[n].BlockComment? && '\n' in blank[n].text
    && '\n' !in BlankText(blank[n + 1..])
  }

  /** Nothing in it would end a comment. */
  predicate Unclosed(text: string) { TriviumOk(BlockComment(text)) }

  lemma {:induction false} LastNewline(text: string) returns (k: nat)
    requires '\n' in text
    ensures 0 < k <= |text| && text[k - 1] == '\n' && '\n' !in text[k..]
  {
    var n := |text| - 1;
    if text[n] == '\n' {
      k := n + 1;
    } else {
      assert text == text[..n] + [text[n]];
      k := LastNewline(text[..n]);
      assert text[k..] == text[..n][k..] + [text[n]];
    }
  }

  /** The line of the bracket begins in that comment. */
  lemma CommentCut(document: string, end: nat, z: Blank, n: int) returns (first: string, second: string)
    requires At(document, end, BlankText(z)) && BlankOk(z) && Swallows(z, n)
    ensures z[n].text == first + second && first != "" && first[|first| - 1] == '\n' && Ends(first)
    ensures var p, s := BlankText(z[..n]) + "/*" + first, second + "*/" + BlankText(z[n + 1..]);
            BlankText(z) == p + s && LineStart(document, end + |BlankText(z)|) == end + |p|
  {
    hide BlankText, BlankOk;
    var text := z[n].text;
    var k := LastNewline(text);
    first, second := text[..k], text[k..];
    var lead, rest := BlankText(z[..n]), BlankText(z[n + 1..]);
    var p, s := lead + "/*" + first, second + "*/" + rest;
    BlankAround(z, n);
    assert TriviumText(z[n]) == "/*" + first + second + "*/";
    CommentParts(lead, first, second, rest);
    var blank := BlankText(z);
    assert blank == p + s;
    assert document[end..end + |blank|] == blank;
    assert document[end + |p| - 1] == blank[|p| - 1] == p[|p| - 1] == '\n';
    NoBreakBehind(second, rest);
    forall i | end + |p| <= i < end + |blank|
      ensures document[i] != '\n'
    {
      assert document[i] == blank[i - end] == s[i - end - |p|];
    }
    OneLineStart(document, end + |blank|, end + |p|);
  }

  lemma NoBreakBehind(second: string, rest: string)
    requires '\n' !in second && '\n' !in rest
    ensures '\n' !in second + "*/" + rest
  {}

  lemma CommentParts(lead: string, first: string, second: string, rest: string)
    ensures lead + (("/*" + first + second + "*/") + rest) == (lead + "/*" + first) + (second + "*/" + rest)
  {}

  lemma BlankAround(z: Blank, n: nat)
    requires n < |z|
    ensures BlankText(z) == BlankText(z[..n]) + (TriviumText(z[n]) + BlankText(z[n + 1..]))
  {
    hide TriviumText, BlankText, TriviumOk;
    var tail := [z[n]] + z[n + 1..];
    assert z == z[..n] + tail;
    BlankConcat(z[..n], tail);
    FirstTrivium(z[n], z[n + 1..]);
  }

  lemma FirstTrivium(t: Trivium, rest: Blank)
    ensures BlankText([t] + rest) == TriviumText(t) + BlankText(rest)
  {
    hide TriviumText;
    assert ([t] + rest)[1..] == rest;
  }

  lemma UnclosedParts(first: string, text: string, second: string)
    requires Unclosed(first + second) && Unclosed(text)
    requires Ends(first) && Ends(text)
    ensures Unclosed(first + text + second)
  {
    var whole := first + text + second;
    forall i | 0 <= i < |whole| - 1
      ensures !(whole[i] == '*' && whole[i + 1] == '/')
    {
      if i + 1 < |first| {
        assert (first + second)[i] == whole[i] && (first + second)[i + 1] == whole[i + 1];
      } else if |first| <= i && i + 1 < |first| + |text| {
        assert text[i - |first|] == whole[i] && text[i - |first| + 1] == whole[i + 1];
      } else if |first| + |text| <= i {
        assert (first + second)[i - |text|] == whole[i] && (first + second)[i + 1 - |text|] == whole[i + 1];
      }
    }
  }

  /** The comment with the append in it. */
  function Swollen(z: Blank, n: nat, first: string, text: string, second: string): Blank
    requires n < |z|
  {
    z[..n] + [BlockComment(first + text + second)] + z[n + 1..]
  }

  lemma SwollenText(z: Blank, n: nat, first: string, text: string, second: string)
    requires n < |z| && BlankOk(z) && Unclosed(first + text + second)
    ensures var p, s := BlankText(z[..n]) + "/*" + first, second + "*/" + BlankText(z[n + 1..]);
            BlankText(Swollen(z, n, first, text, second)) == p + (text + s)
    ensures BlankOk(Swollen(z, n, first, text, second))
  {
    hide BlankText, TriviumOk;
    var z' := Swollen(z, n, first, text, second);
    BlankAround(z', n);
    assert z'[..n] == z[..n] && z'[n + 1..] == z[n + 1..];
    assert z'[n] == BlockComment(first + text + second);
    SwollenParts(BlankText(z[..n]), first, text, second, BlankText(z[n + 1..]));
  }

  lemma SwollenParts(lead: string, first: string, text: string, second: string, rest: string)
    ensures lead + (("/*" + (first + text + second) + "*/") + rest) == (lead + "/*" + first) + (text + (second + "*/" + rest))
  {
    assert "/*" + (first + text + second) + "*/" == "/*" + first + (text + second) + "*/";
    CommentParts(lead, first, text + second, rest);
    assert (text + second) + "*/" + rest == text + (second + "*/" + rest);
  }

  predicate Ends(text: string) { text != "" && text[|text| - 1] != '*' }

  lemma UnclosedConcat(a: string, b: string)
    requires Unclosed(a) && Unclosed(b) && (a == "" || Ends(a))
    ensures Unclosed(a + b) && (Ends(b) ==> Ends(a + b))
  {
    forall i | 0 <= i < |a + b| - 1
      ensures !((a + b)[i] == '*' && (a + b)[i + 1] == '/')
    {
      if i + 1 < |a| {
        assert (a + b)[i] == a[i] && (a + b)[i + 1] == a[i + 1];
      } else if |a| <= i {
        assert (a + b)[i] == b[i - |a|] && (a + b)[i + 1] == b[i - |a| + 1];
      }
    }
  }

  lemma BlankUnclosed(text: string)
    requires forall k :: 0 <= k < |text| ==> text[k] != '*'
    ensures Unclosed(text) && (text != "" ==> Ends(text))
  {}

  lemma {:induction false} JoinUnclosed(parts: seq<string>, separator: string)
    requires parts != [] && (forall i :: 0 <= i < |parts| ==> Unclosed(parts[i]) && Ends(parts[i]))
    requires Unclosed(separator) && Ends(separator)
    ensures Unclosed(Join(parts, separator)) && Ends(Join(parts, separator))
    decreases |parts|
  {
    hide Unclosed, Ends;
    if |parts| > 1 {
      JoinUnclosed(parts[1..], separator);
      UnclosedConcat(parts[0], separator);
      UnclosedConcat(parts[0] + separator, Join(parts[1..], separator));
    }
  }

  lemma EntryEnds(c: Codec, op: ClientOp)
    ensures Ends(EntryText(c, op))
  {}

  lemma CommentIsOk(z: Blank, n: int)
    requires BlankOk(z) && Swallows(z, n)
    ensures Unclosed(z[n].text)
  {
    assert TriviumOk(z[n]);
  }

  lemma LeadOk(c: Codec, items: Items)
    requires ItemsOk(c, items)
    ensures BlankOk(Lead(items))
  {}

  lemma BreakIn(document: string, end: nat, p: string, s: string)
    requires At(document, end, p + s) && p != "" && p[|p| - 1] == '\n'
    ensures end + |p| <= |document| && document[end + |p| - 1] == '\n'
  {
    assert document[end..end + |p + s|] == p + s;
  }

  /** What is appended on lines of its own. */
  lemma LinesAppended(c: Codec, document: string, clients: Node, ops: seq<ClientOp>) returns (text: string)
    requires clients.items != [] && clients.trailing && ops != [] && Multiline(document, clients.start, clients.end)
    requires forall op :: op in ops ==> Unclosed(EntryText(c, op))
    ensures var at := LineStart(document, clients.end - 1); PlanAppend(c, document, clients, ops) == TextEdit(at, at, text)
    ensures Unclosed(text) && Ends(text)
  {
    hide Unclosed, Ends, EntryText, LineIndent, LineStart, Join;
    var l, entries := AppendLayout(document, clients), EntryTexts(c, ops);
    AppendIs(c, document, clients, ops);
    text := l.first + (Join(entries, "," + l.between) + l.last);
    var indent := l.first;
    IndentIsBlank(document, clients.items[|clients.items| - 1].start);
    BlankUnclosed(indent);
    BlankUnclosed("," + l.between);
    BlankUnclosed("\n");
    forall i | 0 <= i < |entries|
      ensures Unclosed(entries[i]) && Ends(entries[i])
    {
      EntryEnds(c, ops[i]);
    }
    JoinUnclosed(entries, "," + l.between);
    UnclosedConcat(Join(entries, "," + l.between), "\n");
    UnclosedConcat(indent, Join(entries, "," + l.between) + "\n");
  }

  /** The planned edits then make the kept entries of it, and a longer comment. */
  lemma SwallowedLands(c: Codec, document: string, items: Items, pos: nat, removes: seq<string>, sets: seq<ClientOp>,
                       ops: seq<ClientOp>, n: int) returns (now: Items)
    requires c.Valid() && At(document, pos, ValueText(Array(items))) && ItemsOk(c, items) && Open(items) && items.More?
    requires UniqueClients(c, ItemValues(items)) && ops != [] && Swallows(FinalBlank(items), n)
    requires NoRepeats(removes) && NoRepeats(EmailsOf(sets)) && forall e :: e in removes ==> e !in EmailsOf(sets)
    requires forall op :: op in ops ==> Unclosed(EntryText(c, op))
    ensures Lands(ValueText(Array(items)), ArrayPlan(c, document, TreeOf(c, Array(items), pos), removes, sets, ops), pos, ValueText(Array(now)))
    ensures ItemsOk(c, now) && ItemValues(now) == KeptValues(c, ItemValues(items), SetOf(removes), IdsOf(sets))
  {
    hide TreeOf, ArrayPlan, UniqueClients, ItemValues, IdsOf, SetOf, NoRepeats, EmailsOf, Lands, Achieves, BlankText, KeptValues, EntryText;
    hide ItemsText, OpenOnto, Open, ItemsOk, Codec.Valid, PlanAppend, At, OpenEnd, FinalBlank, BlankOk, LastAfter, ValueText, Unclosed, Swollen;
    var all, ids, z, end := SetOf(removes), IdsOf(sets), FinalBlank(items), OpenEnd(items, pos + 1);
    var clients := TreeOf(c, Array(items), pos);
    FinalBlankOk(c, items);
    CommaStands(c, document, items, pos);
    var first, second := CommentCut(document, end, z, n);
    var p, s := BlankText(z[..n]) + "/*" + first, second + "*/" + BlankText(z[n + 1..]);
    BreakIn(document, end, p, s);
    TreeShape(c, Array(items), pos);
    TrailingIsOpen(items);
    assert Multiline(document, clients.start, clients.end);
    var text := LinesAppended(c, document, clients, ops);
    CommentIsOk(z, n);
    UnclosedParts(first, text, second);
    var z' := Swollen(z, n, first, text, second);
    SwollenText(z, n, first, text, second);
    InsertAchieves(p, s + "]", text, end);
    EndOk(c, z');
    SeqAssociative(p, s, "]");
    SeqAssociative(p, text + s, "]");
    SeqAssociative(text, s, "]");
    EndLands(c, document, items, pos, removes, sets, ops, End(z'));
    now := OpenOnto(c, items, Lead(items), all, ids, End(z'));
    ListBlankOk(c, items);
    LeadOk(c, items);
    OpenOntoOk(c, items, Lead(items), all, ids, End(z'));
    OpenOntoValues(c, items, Lead(items), all, ids, End(z'));
    assert KeptValues(c, ItemValues(items), all, ids) + [] == KeptValues(c, ItemValues(items), all, ids);
  }

  // ----- In a document

  /** One clients array ends in a comma, and is to be appended to; every other inbound comes right. */
  ghost predicate AppendsToComma(c: Codec, d: Document, plan: RenderPlan, k: nat) {
    && k < |Inbounds(c, d)| && HasArray(c, Inbounds(c, d)[k], plan) && RestRight(c, d, plan, k)
    && Disjoint(AddsIn(c, d, plan, k), RemovesIn(c, d, plan, k), SetsIn(c, d, plan, k))
    && UniqueClients(c, ItemValues(ArrayIn(c, d, plan, k))) && Trailing(ArrayIn(c, d, plan, k))
    && OpsIn(c, d, plan, k) != []
  }

  /** What is planned for the array makes this text of it, and so the render makes that of the document. */
  lemma ArrayRenders(c: Codec, d: Document, plan: RenderPlan, k: nat, r: Rendering, a: Around, now: string)
    requires DocumentOk(c, d) && !plan.Empty() && RendersTo(c, DocumentText(d), plan, r) && AppendsToComma(c, d, plan, k)
    requires Frames(a, DocumentText(d), 0, ValueText(Array(ArrayIn(c, d, plan, k))))
    requires PlanDocument(c, DocumentText(d), TreeOf(c, d.root, |BlankText(d.lead)|), plan) ==
             Planned(a.before + PlanIn(c, d, plan, k, |a.left|) + a.behind)
    requires Lands(ValueText(Array(ArrayIn(c, d, plan, k))), PlanIn(c, d, plan, k, |a.left|), |a.left|, now)
    ensures r == Rendered(With(a, now), true)
  {
    hide DocumentOk, TreeOf, ParseDocument, PlanDocument, DocumentText, RenderPlan.Empty, Lands, Spliceable, ApplyAll, Descending;
    hide HasArray, RestRight, UniqueClients, Disjoint, Trailing, Inbounds, ArrayIn, TagIn, ItemValues, ValueText, OpsIn, PlanIn;
    var document, own, middle := DocumentText(d), PlanIn(c, d, plan, k, |a.left|), ValueText(Array(ArrayIn(c, d, plan, k)));
    ParseDocumentText(c, d);
    LandsConcat(a.left, middle, a.before, own, 0, a.left', now);
    LandsConcat(a.left + middle, a.right, a.before + own, a.behind, 0, a.left' + now, a.right');
    SomethingPlanned(c, d, plan, k, |a.left|);
    var planned := a.before + own + a.behind;
    var sorted :| multiset(sorted) == multiset(planned) && Descending(sorted)
                  && r == if Spliceable(document, sorted) then Rendered(ApplyAll(document, sorted), true) else Crashes;
    LandsWhole(document, planned, With(a, now), sorted);
  }

  lemma SomethingPlanned(c: Codec, d: Document, plan: RenderPlan, k: nat, pos: nat)
    requires AppendsToComma(c, d, plan, k)
    ensures PlanIn(c, d, plan, k, pos) != []
  {
    hide HasArray, RestRight, UniqueClients, Disjoint, Trailing, Inbounds, ArrayIn, TagIn, ItemValues, PlanAppend, TreeOf, DocumentText;
    hide RemovalEdits, SetEdits, OpsIn;
  }

  /** Lists that stand at the same place of the same text hold equally many clients. */
  lemma OneReading(c: Codec, now: Items, also: Items, left: string, right: string)
    requires ItemsOk(c, now) && ItemsOk(c, also)
    requires left + ValueText(Array(now)) + right == left + ValueText(Array(also)) + right
    ensures |ItemValues(now)| == |ItemValues(also)|
  {
    hide ItemsText, ItemsOk, ItemNodes, Commas, Trailing, At, ParseItems, ItemValues, ValueText;
    var src, src' := ItemsText(now) + "]", ItemsText(also) + "]";
    SameBetween(left, ValueText(Array(now)), ValueText(Array(also)), right);
    BracketedText(now);
    BracketedText(also);
    assert src == ValueText(Array(now))[1..] && src' == ValueText(Array(also))[1..];
    AtStart(src);
    ParseItemsAt(c, now, src, 0, 0, [], [], false);
    ParseItemsAt(c, also, src, 0, 0, [], [], false);
    assert [] + ItemNodes(c, now, 0) == ItemNodes(c, now, 0) && [] + ItemNodes(c, also, 0) == ItemNodes(c, also, 0);
    NodesOfItems(c, now, 0);
    NodesOfItems(c, also, 0);
  }

  lemma SameBetween(left: string, now: string, also: string, right: string)
    requires left + now + right == left + also + right
    ensures now == also
  {
    var whole := left + now + right;
    assert |now| == |also|;
    assert whole[|left|..|left| + |now|] == now && whole[|left|..|left| + |also|] == also;
  }

  /**
   * With the last line break in a comment, the render says that it changed the document, and has written the new clients
   * into that comment: the array holds the kept clients only, and no reading of it holds the others.
   */
  lemma AppendIntoACommentIsLost(c: Codec, d: Document, plan: RenderPlan, k: nat, r: Rendering, n: int) returns (now: Items)
    requires c.Valid() && DocumentOk(c, d) && !plan.Empty() && RendersTo(c, DocumentText(d), plan, r) && AppendsToComma(c, d, plan, k)
    requires Open(ArrayIn(c, d, plan, k)) && Swallows(FinalBlank(ArrayIn(c, d, plan, k)), n)
    requires forall op :: op in OpsIn(c, d, plan, k) ==> Unclosed(EntryText(c, op))
    ensures r == Rendered(DocumentText(DocumentWith(c, d, plan, k, now)), true)
    ensures ItemsOk(c, now) && ItemValues(now) == KeptValues(c, ItemValues(ArrayIn(c, d, plan, k)), SetOf(RemovesIn(c, d, plan, k)),
                                                             IdsOf(SetsIn(c, d, plan, k)))
    ensures forall planned :: !ComesOut(c, d, plan, k, r, planned)
  {
    hide DocumentOk, TreeOf, PlanDocument, DocumentText, DocumentWith, RenderPlan.Empty, Lands, HasArray, RestRight, UniqueClients, Disjoint;
    hide Inbounds, ArrayOf, ItemValues, ValueText, SetOf, IdsOf, NoRepeats, EmailsOf, Swallows, Unclosed, EntryText, KeptValues;
    hide RenderPlan.Adds, RenderPlan.Removes, RenderPlan.Sets, ItemsOk, ArrayPlan, Codec.Valid, Open, RendersTo, With, Remaining;
    var items, removes, sets, ops := ArrayIn(c, d, plan, k), RemovesIn(c, d, plan, k), SetsIn(c, d, plan, k), OpsIn(c, d, plan, k);
    var a := DocumentAround(c, d, plan, k);
    ArrayInOk(c, d, plan, k);
    TrailingIsOpen(items);
    DisjointParts(AddsIn(c, d, plan, k), removes, sets);
    StandsAt(a.left, ValueText(Array(items)), a.right);
    now := SwallowedLands(c, DocumentText(d), items, |a.left|, removes, sets, ops, n);
    ArrayRenders(c, d, plan, k, r, a, ValueText(Array(now)));
    forall planned | ItemsOk(c, planned) && ItemValues(planned) == PlannedIn(c, d, plan, k)
      ensures r != Rendered(DocumentText(DocumentWith(c, d, plan, k, planned)), true)
    {
      if With(a, ValueText(Array(now))) == With(a, ValueText(Array(planned))) {
        SameReading(c, a, now, planned);
        MorePlanned(c, d, plan, k);
      }
    }
  }

  lemma StandsAt(left: string, middle: string, right: string)
    ensures At(left + middle + right, |left|, middle)
  {}

  lemma SameReading(c: Codec, a: Around, now: Items, also: Items)
    requires ItemsOk(c, now) && ItemsOk(c, also) && With(a, ValueText(Array(now))) == With(a, ValueText(Array(also)))
    ensures |ItemValues(now)| == |ItemValues(also)|
  {
    hide ItemsOk, ValueText, ItemValues;
    OneReading(c, now, also, a.left', a.right');
  }

  lemma MorePlanned(c: Codec, d: Document, plan: RenderPlan, k: nat)
    requires AppendsToComma(c, d, plan, k)
    ensures |PlannedIn(c, d, plan, k)| >
            |KeptValues(c, ItemValues(ArrayIn(c, d, plan, k)), SetOf(RemovesIn(c, d, plan, k)), IdsOf(SetsIn(c, d, plan, k)))|
  {
    hide HasArray, RestRight, UniqueClients, Disjoint, Trailing, Inbounds, ArrayOf, ItemValues, KeptValues, SetOf, IdsOf, Remaining;
    hide RenderPlan.Adds, RenderPlan.Removes, RenderPlan.Sets;
  }

  // ----- Among the entries

  /** Behind spaces and tabs comes something that begins no entry. */
  predicate NoEntryHere(text: string) {
    exists k :: 0 <= k < |text| && !Whitespace(text[k]) && text[k] != '{' && forall i :: 0 <= i < k ==> Whitespace(text[i])
  }

  /** A place among the entries, outside comments between them: before one, in one, or before its comma. */
  ghost predicate Interrupts(items: Items, q: nat) {
    && items.More?
    && var b, v, a := BlankText(items.before), ValueText(items.value), BlankText(items.after);
       if q <= |b| then IsBlank(b[..q])
       else if q < |b| + |v| then NoEntryHere(v[q - |b|..])
       else if q <= |b| + |v| + |a| then IsBlank(a[..q - |b| - |v|])
       else Interrupts(items.rest, q - |b| - |v| - |a| - 1)
  }

  lemma ObjectAt(c: Codec, v: Value, src: string)
    requires ValueOk(c, v) && v.Object? && At(src, 0, ValueText(v))
    ensures ParseValue(c, src, 0) == Parsed(TreeOf(c, v, 0), |ValueText(v)|)
  {
    hide At, PropsText, PropsOk, ParseItems, ParseProps, ParseString, PropNodes, Keys, PropStarts, TrailingProp;
    FirstChar(c, v);
    AtChar(src, 0, ValueText(v), 0);
    assert SkipBlank(src, 0) == 0;
    assert ValueText(v) == "{" + (PropsText(v.props) + "}");
    AtSplit(src, 0, "{", PropsText(v.props) + "}");
    ParsePropsAt(c, v.props, src, 0, 1, [], [], [], false);
  }

  /** Two objects at the same place are the same client. */
  lemma SameClient(c: Codec, v: Value, w: Value, x: string, y: string)
    requires ValueOk(c, v) && ValueOk(c, w) && v.Object? && ValueText(v) + x == ValueText(w) + y
    ensures EmailOf(c, v) == EmailOf(c, w)
  {
    hide ValueOk, TreeOf, At, ParseValue;
    var src := ValueText(v) + x;
    assert w.Object? by { BraceIsObject(c, w, y); assert src[0] == '{'; }
    hide ValueText;
    AtStart(src);
    AtSplit(src, 0, ValueText(v), x);
    AtSplit(src, 0, ValueText(w), y);
    ObjectAt(c, v, src);
    ObjectAt(c, w, src);
    EmailOfNode(c, v, 0);
    EmailOfNode(c, w, 0);
  }

  lemma BraceIsObject(c: Codec, w: Value, y: string)
    requires ValueOk(c, w) && ValueText(w) + y != "" && (ValueText(w) + y)[0] == '{'
    ensures w.Object?
  {
    FirstChar(c, w);
    assert ValueText(w)[0] == (ValueText(w) + y)[0];
  }

  lemma EntrySolid(c: Codec, op: ClientOp, rest: string)
    ensures SolidText(EntryText(c, op) + rest) && (EntryText(c, op) + rest)[0] == '{'
  {}

  /** Behind a blank the append begins with its indent. */
  lemma IndentedBlank(text: string, indent: string) returns (b: Blank)
    requires IsBlank(text) && forall k :: 0 <= k < |indent| ==> Whitespace(indent[k])
    ensures BlankOk(b) && BlankText(b) == text + indent
  {
    SpacesText(indent);
    BlankConcat(BlankOf(text), Spaces(indent));
    b := BlankOf(text) + Spaces(indent);
  }

  lemma NoSameStart(text: string, x: string, indent: string, y: string)
    requires NoEntryHere(text) && (forall k :: 0 <= k < |indent| ==> Whitespace(indent[k]))
    requires y != "" && y[0] == '{'
    ensures text + x != indent + y
  {
    var k :| 0 <= k < |text| && !Whitespace(text[k]) && text[k] != '{' && forall i :: 0 <= i < k ==> Whitespace(text[i]);
    var whole, other := text + x, indent + y;
    assert whole[k] == text[k] && other[|indent|] == y[0];
    if k < |indent| {
      assert other[k] == indent[k];
    } else {
      assert whole[|indent|] == text[|indent|];
    }
  }

  lemma BeforeEntry(c: Codec, items: Items, now: Items, q: nat, op: ClientOp, indent: string, rest: string)
    requires c.Valid() && ItemsOk(c, items) && ItemsOk(c, now) && items.More? && !now.End? && now.value == items.value
    requires EmailOf(c, items.value) != Some(op.email) && (forall k :: 0 <= k < |indent| ==> Whitespace(indent[k]))
    requires var b := BlankText(items.before); q <= |b| && IsBlank(b[..q])
    requires q <= |ItemsText(items)|
    ensures ItemsText(now) != ItemsText(items)[..q] + (indent + (EntryText(c, op) + rest) + ItemsText(items)[q..])
  {
    hide BlankText, BlankOk, ValueText, ValueOk, Codec.Valid, EntryText, EntryValue, IsBlank, ItemsText, FindProp;
    var b, v, entry, tail := BlankText(items.before), ValueText(items.value), EntryText(c, op), ItemsText(items)[q..];
    FirstText(items);
    FirstText(now);
    assert ItemsText(items)[..q] == b[..q];
    var p := IndentedBlank(b[..q], indent);
    assert b[..q] + (indent + (entry + rest) + tail) == (b[..q] + indent) + (entry + (rest + tail));
    EntrySolid(c, op, rest + tail);
    ValueStarts(c, items.value, AfterFirst(now));
    EntryValueText(c, op);
    EntryOk(c, op);
    EntryIsObject(c, op);
    if ItemsText(now) == (b[..q] + indent) + (entry + (rest + tail)) {
      SameBlank(p, now.before, entry + (rest + tail), v + AfterFirst(now));
      SameClient(c, EntryValue(c, op), items.value, rest + tail, AfterFirst(now));
    }
  }

  lemma EntryIsObject(c: Codec, op: ClientOp)
    ensures EntryValue(c, op).Object?
  {}

  lemma InEntry(c: Codec, items: Items, now: Items, m: nat, op: ClientOp, indent: string, rest: string)
    requires ItemsOk(c, items) && ItemsOk(c, now) && items.More? && !now.End? && now.value == items.value
    requires forall k :: 0 <= k < |indent| ==> Whitespace(indent[k])
    requires 0 < m < |ValueText(items.value)| && NoEntryHere(ValueText(items.value)[m..])
    requires |BlankText(items.before)| + m <= |ItemsText(items)|
    ensures var q := |BlankText(items.before)| + m;
            ItemsText(now) != ItemsText(items)[..q] + (indent + (EntryText(c, op) + rest) + ItemsText(items)[q..])
  {
    hide BlankText, BlankOk, ValueText, ValueOk, EntryText, IsBlank, ItemsText, NoEntryHere;
    var b, v, entry, tail := BlankText(items.before), ValueText(items.value), EntryText(c, op), AfterFirst(items);
    FirstText(items);
    FirstText(now);
    var text := indent + (entry + rest);
    CutValue(b, v, tail, m, text);
    var z := text + (v[m..] + tail);
    ValueStarts(c, items.value, AfterFirst(now));
    ValueStarts(c, items.value, tail);
    assert (v[..m] + z)[0] == v[0] == (v + tail)[0];
    assert v + AfterFirst(now) == v[..m] + (v[m..] + AfterFirst(now));
    var y := rest + (v[m..] + tail);
    EntrySolid(c, op, y);
    assert z == indent + (entry + y);
    NoSameStart(v[m..], AfterFirst(now), indent, entry + y);
    if ItemsText(now) == b + (v[..m] + z) {
      SameBlank(items.before, now.before, v[..m] + z, v + AfterFirst(now));
      SamePrefix(v[..m], z, v[..m], v[m..] + AfterFirst(now));
    }
  }

  lemma CutValue(b: string, v: string, tail: string, m: nat, text: string)
    requires m <= |v|
    ensures var whole, q := b + (v + tail), |b| + m;
            whole[..q] + (text + whole[q..]) == b + (v[..m] + (text + (v[m..] + tail)))
  {
    var whole, q := b + (v + tail), |b| + m;
    assert whole[..q] == b + v[..m] && whole[q..] == v[m..] + tail;
  }

  lemma BeforeComma(c: Codec, items: Items, now: Items, m: nat, op: ClientOp, indent: string, rest: string)
    requires ItemsOk(c, items) && ItemsOk(c, now) && items.More? && now.More? && now.value == items.value
    requires forall k :: 0 <= k < |indent| ==> Whitespace(indent[k])
    requires m <= |BlankText(items.after)| && IsBlank(BlankText(items.after)[..m])
    requires |BlankText(items.before)| + |ValueText(items.value)| + m <= |ItemsText(items)|
    ensures var q := |BlankText(items.before)| + |ValueText(items.value)| + m;
            ItemsText(now) != ItemsText(items)[..q] + (indent + (EntryText(c, op) + rest) + ItemsText(items)[q..])
  {
    hide BlankText, BlankOk, ValueText, ValueOk, EntryText, IsBlank, ItemsText;
    var b, v, a, entry := BlankText(items.before), ValueText(items.value), BlankText(items.after), EntryText(c, op);
    var comma := "," + ItemsText(items.rest);
    FirstText(items);
    FirstText(now);
    var text := indent + (entry + rest);
    CutAfter(b, v, a, comma, m, text);
    var z := a[..m] + (text + (a[m..] + comma));
    ValueStarts(c, items.value, z);
    ValueStarts(c, items.value, AfterFirst(now));
    var p := IndentedBlank(a[..m], indent);
    var y := rest + (a[m..] + comma);
    EntrySolid(c, op, y);
    assert z == (a[..m] + indent) + (entry + y);
    CommaSolid(ItemsText(now.rest));
    if ItemsText(now) == b + (v + z) {
      SameBlank(items.before, now.before, v + z, v + AfterFirst(now));
      SamePrefix(v, z, v, AfterFirst(now));
      SameBlank(p, now.after, entry + y, "," + ItemsText(now.rest));
    }
  }

  lemma CutAfter(b: string, v: string, a: string, comma: string, m: nat, text: string)
    requires m <= |a|
    ensures var whole, q := b + (v + (a + comma)), |b| + |v| + m;
            whole[..q] + (text + whole[q..]) == b + (v + (a[..m] + (text + (a[m..] + comma))))
  {
    var whole, q := b + (v + (a + comma)), |b| + |v| + m;
    assert whole[..q] == b + v + a[..m] && whole[q..] == a[m..] + comma;
  }

  /** Text appended there: no list of the old values and some more reads so. */
  lemma {:induction false} Interrupted(c: Codec, items: Items, now: Items, q: nat, op: ClientOp, indent: string, rest: string, more: seq<Value>)
    requires c.Valid() && ItemsOk(c, items) && ItemsOk(c, now) && Open(items) && Interrupts(items, q) && q <= |ItemsText(items)|
    requires (forall k :: 0 <= k < |indent| ==> Whitespace(indent[k]))
    requires forall i :: 0 <= i < |ItemValues(items)| ==> EmailOf(c, ItemValues(items)[i]) != Some(op.email)
    requires more != [] && ItemValues(now) == ItemValues(items) + more
    ensures ItemsText(now) != ItemsText(items)[..q] + (indent + (EntryText(c, op) + rest) + ItemsText(items)[q..])
    decreases items
  {
    hide BlankText, BlankOk, ValueText, ValueOk, Codec.Valid, EntryText, EmailOf, IsBlank, NoEntryHere, ItemsText;
    MoreValues(now, items, more);
    FirstText(now);
    FirstText(items);
    var b, v, a := BlankText(items.before), ValueText(items.value), BlankText(items.after);
    var entry, list := EntryText(c, op), ItemsText(items.rest);
    assert EmailOf(c, items.value) != Some(op.email) by { assert ItemValues(items)[0] == items.value; }
    if q <= |b| {
      BeforeEntry(c, items, now, q, op, indent, rest);
    } else if q < |b| + |v| {
      InEntry(c, items, now, q - |b|, op, indent, rest);
    } else if q <= |b| + |v| + |a| {
      BeforeComma(c, items, now, q - |b| - |v|, op, indent, rest);
    } else {
      var n := q - |b| - |v| - |a| - 1;
      SplitLate(b, v, a, list, n, indent + (entry + rest));
      var text := list[..n] + (indent + (entry + rest) + list[n..]);
      assert forall i :: 0 <= i < |ItemValues(items.rest)| ==> ItemValues(items.rest)[i] == ItemValues(items)[i + 1];
      Interrupted(c, items.rest, now.rest, n, op, indent, rest, more);
      if ItemsText(now) == b + (v + (a + ("," + text))) {
        SameRest(c, items, now, text);
      }
    }
  }

  lemma SplitLate(b: string, v: string, a: string, list: string, n: nat, text: string)
    requires n <= |list|
    ensures var whole, q := b + (v + (a + ("," + list))), |b| + |v| + |a| + 1 + n;
            q <= |whole| && whole[..q] + (text + whole[q..]) == b + (v + (a + ("," + (list[..n] + (text + list[n..])))))
  {
    var whole, q := b + (v + (a + ("," + list))), |b| + |v| + |a| + 1 + n;
    var head := b + (v + (a + ","));
    assert whole == head + list;
    assert whole[..q] == head + list[..n] && whole[q..] == list[n..];
  }

  /** The first entry read off, its comma and its blanks. */
  lemma SameRest(c: Codec, items: Items, now: Items, text: string)
    requires ItemsOk(c, items) && ItemsOk(c, now) && items.More? && now.More? && now.value == items.value
    requires ItemsText(now) ==
             BlankText(items.before) + (ValueText(items.value) + (BlankText(items.after) + ("," + text)))
    ensures ItemsText(now.rest) == text
  {
    hide BlankText, BlankOk, ValueText, ValueOk, ItemsText;
    var v, tail, tail' := ValueText(items.value), BlankText(items.after) + ("," + text), AfterFirst(now);
    FirstText(now);
    ValueStarts(c, items.value, tail);
    ValueStarts(c, items.value, tail');
    SameBlank(items.before, now.before, v + tail, v + tail');
    SamePrefix(v, tail, v, tail');
    CommaSolid(text);
    CommaSolid(ItemsText(now.rest));
    SameBlank(items.after, now.after, "," + text, "," + ItemsText(now.rest));
    SamePrefix(",", text, ",", ItemsText(now.rest));
  }

  lemma CommaSolid(text: string)
    ensures SolidText("," + text)
  {}

  /** The plan changes no client the array holds. */
  predicate OnlyAppends(c: Codec, values: seq<Value>, removes: set<string>, ids: map<string, string>) {
    forall i :: 0 <= i < |values| && EmailOf(c, values[i]).Some? ==>
                  EmailOf(c, values[i]).value !in removes && EmailOf(c, values[i]).value !in ids
  }

  lemma {:induction false} NothingElse(c: Codec, items: Items, pos: nat, removes: set<string>, ids: map<string, string>)
    requires Open(items) && OnlyAppends(c, ItemValues(items), removes, ids)
    ensures OpenEdits(c, items, pos, removes, ids) == []
    ensures KeptValues(c, ItemValues(items), removes, ids) == ItemValues(items)
    decreases items
  {
    hide EmailOf, BlankText, ValueText;
    if items.More? {
      var values, rest := ItemValues(items), ItemValues(items.rest);
      assert values[0] == items.value && values[1..] == rest;
      assert forall i :: 0 <= i < |rest| ==> rest[i] == values[i + 1];
      NothingElse(c, items.rest, RestPos(items, pos), removes, ids);
    }
  }

  /** The line of the bracket begins among the entries. */
  ghost predicate BreaksAmong(items: Items, start: nat) {
    var text := ValueText(Array(items));
    0 < start < |text| && LineBegins(text, |text| - 1, start) && Interrupts(items, start - 1)
  }

  lemma LineStartIn(document: string, pos: nat, text: string, start: nat)
    requires At(document, pos, text) && 0 < start < |text| && LineBegins(text, |text| - 1, start)
    ensures LineStart(document, pos + |text| - 1) == pos + start && Multiline(document, pos, pos + |text|)
  {
    assert document[pos..pos + |text|] == text;
    assert document[pos + start - 1] == text[start - 1] == '\n';
    forall k | pos + start <= k < pos + |text| - 1
      ensures document[k] != '\n'
    {
      assert document[k] == text[k - pos];
    }
    OneLineStart(document, pos + |text| - 1, pos + start);
  }

  /** Nothing but one insertion is planned for the array. */
  lemma InsertLands(c: Codec, document: string, items: Items, pos: nat, removes: seq<string>, sets: seq<ClientOp>,
                    ops: seq<ClientOp>, p: string, s: string, text: string)
    requires Open(items) && UniqueClients(c, ItemValues(items)) && ops != []
    requires OnlyAppends(c, ItemValues(items), SetOf(removes), IdsOf(sets))
    requires NoRepeats(removes) && NoRepeats(EmailsOf(sets)) && forall e :: e in removes ==> e !in EmailsOf(sets)
    requires ValueText(Array(items)) == p + s && s != ""
    requires PlanAppend(c, document, TreeOf(c, Array(items), pos), ops) == TextEdit(pos + |p|, pos + |p|, text)
    ensures Lands(ValueText(Array(items)), ArrayPlan(c, document, TreeOf(c, Array(items), pos), removes, sets, ops), pos, p + (text + s))
  {
    hide TreeOf, ArrayPlan, UniqueClients, ItemValues, IdsOf, SetOf, NoRepeats, EmailsOf, Lands, OnlyAppends, Open, ValueText, PlanAppend;
    hide Achieves;
    var planned, edits := ArrayPlan(c, document, TreeOf(c, Array(items), pos), removes, sets, ops), [TextEdit(pos + |p|, pos + |p|, text)];
    OpenPlan(c, document, items, pos, removes, sets, ops);
    NothingElse(c, items, pos + 1, SetOf(removes), IdsOf(sets));
    assert [] + edits == edits;
    InsertAchieves(p, s, text, pos);
    SameMultiset(p + s, planned, edits, pos, p + (text + s));
    AchievesLands(p + s, planned, edits, pos, p + (text + s));
  }

  /** The append lands among the entries. */
  lemma AmongLands(c: Codec, document: string, items: Items, pos: nat, removes: seq<string>, sets: seq<ClientOp>,
                   ops: seq<ClientOp>, start: nat) returns (indent: string, rest: string)
    requires At(document, pos, ValueText(Array(items))) && Open(items) && items.More? && BreaksAmong(items, start)
    requires UniqueClients(c, ItemValues(items)) && ops != [] && OnlyAppends(c, ItemValues(items), SetOf(removes), IdsOf(sets))
    requires NoRepeats(removes) && NoRepeats(EmailsOf(sets)) && forall e :: e in removes ==> e !in EmailsOf(sets)
    ensures forall k :: 0 <= k < |indent| ==> Whitespace(indent[k])
    ensures var text, append := ValueText(Array(items)), indent + (EntryText(c, ops[0]) + rest);
            Lands(text, ArrayPlan(c, document, TreeOf(c, Array(items), pos), removes, sets, ops), pos,
                  text[..start] + (append + text[start..]))
  {
    hide TreeOf, ArrayPlan, UniqueClients, ItemValues, IdsOf, SetOf, NoRepeats, EmailsOf, Lands, BlankText, Interrupts, OnlyAppends, LineBegins;
    hide ItemsText, Open, At, ValueText, EntryText, LineStart, LineIndent, Join;
    var text, clients := ValueText(Array(items)), TreeOf(c, Array(items), pos);
    TreeShape(c, Array(items), pos);
    TrailingIsOpen(items);
    OpenCount(c, items, pos + 1);
    LineStartIn(document, pos, text, start);
    var l := AppendLayout(document, clients);
    AppendIs(c, document, clients, ops);
    IndentIsBlank(document, clients.items[|clients.items| - 1].start);
    indent, rest := l.first, FirstJoined(c, ops, "," + l.between) + l.last;
    FirstEntry(c, ops, "," + l.between, l.last);
    var append := indent + (EntryText(c, ops[0]) + rest);
    assert text == text[..start] + text[start..];
    InsertLands(c, document, items, pos, removes, sets, ops, text[..start], text[start..], append);
  }

  lemma SameMultiset(text: string, planned: seq<TextEdit>, edits: seq<TextEdit>, pos: nat, result: string)
    requires Achieves(text, edits, edits, pos, result) && multiset(planned) == multiset(edits)
    ensures Achieves(text, planned, edits, pos, result)
  {}

  function FirstJoined(c: Codec, ops: seq<ClientOp>, separator: string): string
    requires ops != []
  {
    if |ops| == 1 then "" else separator + Join(EntryTexts(c, ops)[1..], separator)
  }

  lemma FirstEntry(c: Codec, ops: seq<ClientOp>, separator: string, last: string)
    requires ops != []
    ensures Join(EntryTexts(c, ops), separator) + last == EntryText(c, ops[0]) + (FirstJoined(c, ops, separator) + last)
  {
    hide EntryText;
    var entries := EntryTexts(c, ops);
    assert entries[0] == EntryText(c, ops[0]);
    if |ops| > 1 {
      SeqAssociative(entries[0], separator, Join(entries[1..], separator));
      SeqAssociative(entries[0], separator + Join(entries[1..], separator), last);
    } else {
      assert "" + last == last;
    }
  }

  lemma RemainingIsNew(c: Codec, d: Document, plan: RenderPlan, k: nat, i: nat)
    requires AppendsToComma(c, d, plan, k) && i < |ItemValues(ArrayIn(c, d, plan, k))|
    ensures EmailOf(c, ItemValues(ArrayIn(c, d, plan, k))[i]) != Some(OpsIn(c, d, plan, k)[0].email)
  {
    hide HasArray, RestRight, UniqueClients, Disjoint, Trailing, Inbounds, ArrayOf, ItemValues, EmailOf, DropEmails;
    hide RenderPlan.Adds, RenderPlan.Removes, RenderPlan.Sets;
    var values := ItemValues(ArrayIn(c, d, plan, k));
    DropFacts(AddsIn(c, d, plan, k) + SetsIn(c, d, plan, k), Present(c, values));
    assert OpsIn(c, d, plan, k)[0] in OpsIn(c, d, plan, k);
  }

  /** Read without its brackets. */
  lemma Unbracketed(items: Items, now: Items, start: nat, append: string)
    requires var text := ValueText(Array(items));
             0 < start < |text| && ValueText(Array(now)) == text[..start] + (append + text[start..])
    ensures start - 1 <= |ItemsText(items)|
    ensures ItemsText(now) == ItemsText(items)[..start - 1] + (append + ItemsText(items)[start - 1..])
  {
    hide ItemsText, ValueText;
    BracketedText(items);
    BracketedText(now);
    var text, q := ItemsText(items), start - 1;
    var whole := "[" + text + "]";
    assert whole[..start] == "[" + text[..q] && whole[start..] == text[q..] + "]";
    var list := text[..q] + (append + text[q..]);
    assert whole[..start] + (append + whole[start..]) == "[" + list + "]";
    SameBetween("[", ItemsText(now), list, "]");
  }

  /**
   * With the line of the bracket beginning among the entries, before one, before its comma, or in one but not at a brace,
   * the render says that it changed the document, and no reading of it holds the planned clients.
   */
  lemma AppendAmongEntriesNeverFits(c: Codec, d: Document, plan: RenderPlan, k: nat, r: Rendering, start: nat)
    requires c.Valid() && DocumentOk(c, d) && !plan.Empty() && RendersTo(c, DocumentText(d), plan, r) && AppendsToComma(c, d, plan, k)
    requires BreaksAmong(ArrayIn(c, d, plan, k), start)
    requires OnlyAppends(c, ItemValues(ArrayIn(c, d, plan, k)), SetOf(RemovesIn(c, d, plan, k)), IdsOf(SetsIn(c, d, plan, k)))
    ensures r.Rendered? && r.changed
    ensures forall planned :: !ComesOut(c, d, plan, k, r, planned)
  {
    hide DocumentOk, TreeOf, PlanDocument, DocumentText, DocumentWith, RenderPlan.Empty, Lands, HasArray, RestRight, UniqueClients, Disjoint;
    hide Inbounds, ArrayOf, ItemValues, ValueText, SetOf, IdsOf, NoRepeats, EmailsOf, EntryText, KeptValues, EmailOf, OnlyAppends, Trailing;
    hide RenderPlan.Adds, RenderPlan.Removes, RenderPlan.Sets, ItemsOk, ArrayPlan, Codec.Valid, Open, RendersTo, With, Remaining, Whitespace;
    hide EntryValues, Interrupts, LineBegins;
    var items, removes, sets, ops := ArrayIn(c, d, plan, k), RemovesIn(c, d, plan, k), SetsIn(c, d, plan, k), OpsIn(c, d, plan, k);
    var text := ValueText(Array(items));
    var a := DocumentAround(c, d, plan, k);
    ArrayInOk(c, d, plan, k);
    TrailingIsOpen(items);
    DisjointParts(AddsIn(c, d, plan, k), removes, sets);
    StandsAt(a.left, text, a.right);
    var indent, rest := AmongLands(c, DocumentText(d), items, |a.left|, removes, sets, ops, start);
    var append := indent + (EntryText(c, ops[0]) + rest);
    ArrayRenders(c, d, plan, k, r, a, text[..start] + (append + text[start..]));
    NothingElse(c, items, 0, SetOf(removes), IdsOf(sets));
    forall i | 0 <= i < |ItemValues(items)|
      ensures EmailOf(c, ItemValues(items)[i]) != Some(ops[0].email)
    {
      RemainingIsNew(c, d, plan, k, i);
    }
    forall planned | ItemsOk(c, planned) && ItemValues(planned) == PlannedIn(c, d, plan, k)
      ensures r != Rendered(DocumentText(DocumentWith(c, d, plan, k, planned)), true)
    {
      NewValues(c, ops);
      if With(a, ValueText(Array(planned))) == With(a, text[..start] + (append + text[start..])) {
        SameMiddle(a, ValueText(Array(planned)), text[..start] + (append + text[start..]));
        Unbracketed(items, planned, start, append);
        Interrupted(c, items, planned, start - 1, ops[0], indent, rest, EntryValues(c, ops));
      }
    }
  }

  lemma NewValues(c: Codec, ops: seq<ClientOp>)
    requires ops != []
    ensures EntryValues(c, ops) != []
  {}

  lemma SameMiddle(a: Around, now: string, also: string)
    requires With(a, now) == With(a, also)
    ensures now == also
  {
    SameBetween(a.left', now, also, a.right');
  }

  // ----- Into a comment before the comma

  /** On one line: the first comma behind the last entry stands in a comment. */
  predicate HidesComma(blank: Blank, n: int) {
    && 0 <= n < |blank| && blank[n].BlockComment? && ',' in blank[n].text
    && ',' !in BlankText(blank[..n])
  }

  function WithLastAfter(items: Items, b: Blank): Items
    requires Open(items) && items.More?
  {
    if items.rest.End? then items.(after := b) else items.(rest := WithLastAfter(items.rest, b))
  }

  lemma {:induction false} LastAfterAround(items: Items, pos: nat) returns (left: string, right: string)
    requires Open(items) && items.More?
    ensures forall b :: ItemsText(WithLastAfter(items, b)) == left + (BlankText(b) + ("," + right))
    ensures WithLastAfter(items, LastAfter(items)) == items
    ensures pos + |left| + |BlankText(LastAfter(items))| + 1 == OpenEnd(items, pos)
    decreases items
  {
    hide BlankText, ValueText;
    var b, v, a := BlankText(items.before), ValueText(items.value), BlankText(items.after);
    if items.rest.End? {
      left, right := b + v, BlankText(items.rest.blank);
      forall z: Blank
        ensures ItemsText(WithLastAfter(items, z)) == left + (BlankText(z) + ("," + right))
      {
        SeqAssociative(b, v, BlankText(z) + ("," + right));
      }
    } else {
      var l, r := LastAfterAround(items.rest, RestPos(items, pos));
      left, right := b + (v + (a + ("," + l))), r;
      forall z: Blank
        ensures ItemsText(WithLastAfter(items, z)) == left + (BlankText(z) + ("," + right))
      {
        Concat5(b, v, a, ",", l, BlankText(z) + ("," + right));
      }
    }
  }

  lemma {:induction false} WithLastAfterOk(c: Codec, items: Items, b: Blank)
    requires ItemsOk(c, items) && Open(items) && items.More? && BlankOk(b)
    ensures ItemsOk(c, WithLastAfter(items, b)) && ItemValues(WithLastAfter(items, b)) == ItemValues(items)
    ensures BlankOk(LastAfter(items))
    decreases items
  {
    hide ValueOk, BlankOk;
    if !items.rest.End? {
      WithLastAfterOk(c, items.rest, b);
    }
  }

  lemma {:induction false} FirstCommaIn(text: string) returns (k: nat)
    requires ',' in text
    ensures 0 < k <= |text| && text[k - 1] == ',' && ',' !in text[..k - 1]
  {
    if text[0] == ',' {
      k := 1;
    } else {
      var m := FirstCommaIn(text[1..]);
      k := m + 1;
      assert text[..k - 1] == [text[0]] + text[1..][..m - 1];
    }
  }

  /** The scan for the comma ends in that comment. */
  lemma CommaCut(document: string, pos: nat, z: Blank, n: int) returns (first: string, second: string)
    requires At(document, pos, BlankText(z)) && BlankOk(z) && HidesComma(z, n)
    ensures z[n].text == first + second && Ends(first)
    ensures var p, s := BlankText(z[..n]) + "/*" + first, second + "*/" + BlankText(z[n + 1..]);
            BlankText(z) == p + s && CommaAfter(document, pos) + 1 == pos + |p|
  {
    hide BlankText, BlankOk, CommaAfter;
    var text := z[n].text;
    var k := FirstCommaIn(text);
    first, second := text[..k], text[k..];
    var lead, rest := BlankText(z[..n]), BlankText(z[n + 1..]);
    var p, s := lead + "/*" + first, second + "*/" + rest;
    BlankAround(z, n);
    assert TriviumText(z[n]) == "/*" + first + second + "*/";
    CommentParts(lead, first, second, rest);
    assert BlankText(z) == p + s;
    var before := lead + "/*" + text[..k - 1];
    assert p == before + ",";
    NoCommaBefore(lead, text[..k - 1]);
    AtSplit(document, pos, p, s);
    FirstComma(document, pos, before);
  }

  lemma NoCommaBefore(lead: string, text: string)
    requires ',' !in lead && ',' !in text
    ensures ',' !in lead + "/*" + text
  {}

  /** What is appended on the array's line. */
  lemma InlineAppended(c: Codec, document: string, clients: Node, ops: seq<ClientOp>) returns (text: string)
    requires clients.items != [] && clients.trailing && ops != [] && !Multiline(document, clients.start, clients.end)
    requires forall op :: op in ops ==> Unclosed(EntryText(c, op))
    ensures var at := CommaAfter(document, clients.items[|clients.items| - 1].end) + 1;
            PlanAppend(c, document, clients, ops) == TextEdit(at, at, text)
    ensures Unclosed(text) && Ends(text)
  {
    hide Unclosed, Ends, EntryText, CommaAfter, Join;
    var entries := EntryTexts(c, ops);
    AppendIs(c, document, clients, ops);
    text := " " + (Join(entries, "," + " ") + "");
    BlankUnclosed(" ");
    BlankUnclosed("," + " ");
    forall i | 0 <= i < |entries|
      ensures Unclosed(entries[i]) && Ends(entries[i])
    {
      EntryEnds(c, ops[i]);
    }
    JoinUnclosed(entries, "," + " ");
    assert Join(entries, "," + " ") + "" == Join(entries, "," + " ");
    UnclosedConcat(" ", Join(entries, "," + " "));
  }

  lemma HiddenParts(left: string, p: string, s: string, right: string, text: string)
    ensures "[" + (left + ((p + s) + ("," + right))) + "]" == ("[" + (left + p)) + (s + ("," + right) + "]")
    ensures "[" + (left + ((p + (text + s)) + ("," + right))) + "]" == ("[" + (left + p)) + (text + (s + ("," + right) + "]"))
  {}

  /** The planned append then makes the old entries of it, and a longer comment. */
  lemma HiddenLands(c: Codec, document: string, items: Items, pos: nat, removes: seq<string>, sets: seq<ClientOp>,
                    ops: seq<ClientOp>, n: int) returns (now: Items)
    requires At(document, pos, ValueText(Array(items))) && ItemsOk(c, items) && Open(items) && items.More?
    requires UniqueClients(c, ItemValues(items)) && ops != [] && OnlyAppends(c, ItemValues(items), SetOf(removes), IdsOf(sets))
    requires '\n' !in ValueText(Array(items)) && HidesComma(LastAfter(items), n)
    requires NoRepeats(removes) && NoRepeats(EmailsOf(sets)) && forall e :: e in removes ==> e !in EmailsOf(sets)
    requires forall op :: op in ops ==> Unclosed(EntryText(c, op))
    ensures Lands(ValueText(Array(items)), ArrayPlan(c, document, TreeOf(c, Array(items), pos), removes, sets, ops), pos, ValueText(Array(now)))
    ensures ItemsOk(c, now) && ItemValues(now) == ItemValues(items)
  {
    hide TreeOf, ArrayPlan, UniqueClients, ItemValues, IdsOf, SetOf, NoRepeats, EmailsOf, Lands, BlankText, OnlyAppends, EntryText;
    hide ItemsText, Open, ItemsOk, PlanAppend, At, OpenEnd, BlankOk, LastAfter, ValueText, Unclosed, Swollen, Multiline, HidesComma;
    hide WithLastAfter;
    var clients, z := TreeOf(c, Array(items), pos), LastAfter(items);
    OneSpace();
    WithLastAfterOk(c, items, []);
    CommaStands(c, document, items, pos);
    LineBreakInside(document, pos, ValueText(Array(items)));
    TreeShape(c, Array(items), pos);
    TrailingIsOpen(items);
    var left, right := LastAfterAround(items, pos + 1);
    AtSplit(document, pos + 1 + |left|, BlankText(z), ",");
    var first, second := CommaCut(document, pos + 1 + |left|, z, n);
    var text := InlineAppended(c, document, clients, ops);
    HiddenIsOk(z, n);
    UnclosedParts(first, text, second);
    SwollenText(z, n, first, text, second);
    var z' := Swollen(z, n, first, text, second);
    now := WithLastAfter(items, z');
    WithLastAfterOk(c, items, z');
    var p, s := BlankText(z[..n]) + "/*" + first, second + "*/" + BlankText(z[n + 1..]);
    BracketedText(items);
    BracketedText(now);
    HiddenParts(left, p, s, right, text);
    InsertLands(c, document, items, pos, removes, sets, ops, "[" + (left + p), s + ("," + right) + "]", text);
  }

  lemma HiddenIsOk(z: Blank, n: int)
    requires BlankOk(z) && HidesComma(z, n)
    ensures 0 <= n < |z| && z[n].BlockComment? && TriviumOk(z[n]) && Unclosed(z[n].text)
  {}

  /** So the new clients are lost there as well, and the render says that it changed the document. */
  lemma AppendBehindACommaInACommentIsLost(c: Codec, d: Document, plan: RenderPlan, k: nat, r: Rendering, n: int) returns (now: Items)
    requires c.Valid() && DocumentOk(c, d) && !plan.Empty() && RendersTo(c, DocumentText(d), plan, r) && AppendsToComma(c, d, plan, k)
    requires '\n' !in ValueText(Array(ArrayIn(c, d, plan, k)))
    requires Open(ArrayIn(c, d, plan, k)) && ArrayIn(c, d, plan, k).More? && HidesComma(LastAfter(ArrayIn(c, d, plan, k)), n)
    requires forall op :: op in OpsIn(c, d, plan, k) ==> Unclosed(EntryText(c, op))
    requires OnlyAppends(c, ItemValues(ArrayIn(c, d, plan, k)), SetOf(RemovesIn(c, d, plan, k)), IdsOf(SetsIn(c, d, plan, k)))
    ensures r == Rendered(DocumentText(DocumentWith(c, d, plan, k, now)), true)
    ensures ItemsOk(c, now) && ItemValues(now) == ItemValues(ArrayIn(c, d, plan, k))
    ensures forall planned :: !ComesOut(c, d, plan, k, r, planned)
  {
    hide DocumentOk, TreeOf, PlanDocument, DocumentText, DocumentWith, RenderPlan.Empty, Lands, HasArray, RestRight, UniqueClients, Disjoint;
    hide Inbounds, ArrayOf, ItemValues, ValueText, SetOf, IdsOf, NoRepeats, EmailsOf, HidesComma, Unclosed, EntryText, KeptValues;
    hide RenderPlan.Adds, RenderPlan.Removes, RenderPlan.Sets, ItemsOk, ArrayPlan, Codec.Valid, Open, RendersTo, With, Remaining, OnlyAppends;
    var items, removes, sets, ops := ArrayIn(c, d, plan, k), RemovesIn(c, d, plan, k), SetsIn(c, d, plan, k), OpsIn(c, d, plan, k);
    var a := DocumentAround(c, d, plan, k);
    ArrayInOk(c, d, plan, k);
    DisjointParts(AddsIn(c, d, plan, k), removes, sets);
    StandsAt(a.left, ValueText(Array(items)), a.right);
    now := HiddenLands(c, DocumentText(d), items, |a.left|, removes, sets, ops, n);
    ArrayRenders(c, d, plan, k, r, a, ValueText(Array(now)));
    NothingElse(c, items, 0, SetOf(removes), IdsOf(sets));
    forall planned | ItemsOk(c, planned) && ItemValues(planned) == PlannedIn(c, d, plan, k)
      ensures r != Rendered(DocumentText(DocumentWith(c, d, plan, k, planned)), true)
    {
      if With(a, ValueText(Array(now))) == With(a, ValueText(Array(planned))) {
        SameReading(c, a, now, planned);
        MorePlanned(c, d, plan, k);
      }
    }
  }

  // ----- Exactly when an append comes out

  /** Behind the last comma, and in no comment, it does. */
  lemma AppendComesOut(c: Codec, d: Document, plan: RenderPlan, k: nat, r: Rendering) returns (now: Items)
    requires c.Valid() && DocumentOk(c, d) && !plan.Empty() && RendersTo(c, DocumentText(d), plan, r) && AppendsToComma(c, d, plan, k)
    requires Open(ArrayIn(c, d, plan, k)) && ArrayIn(c, d, plan, k).More? && CommaLeads(ArrayIn(c, d, plan, k))
    ensures ComesOut(c, d, plan, k, r, now)
  {
    hide DocumentOk, TreeOf, PlanDocument, DocumentText, DocumentWith, RenderPlan.Empty, Lands, HasArray, RestRight, UniqueClients, Disjoint;
    hide Inbounds, ArrayOf, ItemValues, ValueText, SetOf, IdsOf, NoRepeats, EmailsOf, CommaLeads, KeptValues, EntryValues, AppendFits;
    hide RenderPlan.Adds, RenderPlan.Removes, RenderPlan.Sets, ItemsOk, ArrayPlan, Codec.Valid, Open, RendersTo, With, Remaining;
    hide OpenEdited;
    var items, removes, sets, ops := ArrayIn(c, d, plan, k), RemovesIn(c, d, plan, k), SetsIn(c, d, plan, k), OpsIn(c, d, plan, k);
    var a := DocumentAround(c, d, plan, k);
    ArrayInOk(c, d, plan, k);
    DisjointParts(AddsIn(c, d, plan, k), removes, sets);
    StandsAt(a.left, ValueText(Array(items)), a.right);
    AppendFitsExactly(c, DocumentText(d), items, |a.left|);
    TrailingLands(c, DocumentText(d), items, |a.left|, removes, sets, ops);
    OpenEditedOk(c, DocumentText(d), items, |a.left|, SetOf(removes), IdsOf(sets), ops);
    now := OpenEdited(c, DocumentText(d), items, |a.left|, SetOf(removes), IdsOf(sets), ops);
    ArrayRenders(c, d, plan, k, r, a, ValueText(Array(now)));
  }

  lemma {:induction false} CommaIsHidden(z: Blank) returns (n: int)
    requires BlankOk(z) && '\n' !in BlankText(z) && ',' in BlankText(z)
    ensures HidesComma(z, n)
  {
    var text, rest := TriviumText(z[0]), BlankText(z[1..]);
    if ',' in text {
      n := 0;
      InBlock(z[0]);
      NoTrivia(z);
    } else {
      var m := CommaIsHidden(z[1..]);
      n := m + 1;
      assert z[..n][1..] == z[1..][..m] && z[..n][0] == z[0];
      assert z[n] == z[1..][m];
    }
  }

  lemma InBlock(t: Trivium)
    requires TriviumOk(t) && '\n' !in TriviumText(t) && ',' in TriviumText(t)
    ensures t.BlockComment? && ',' in t.text
  {
    LineCommentBreaks(t);
  }

  lemma LineCommentBreaks(t: Trivium)
    ensures t.LineComment? ==> '\n' in TriviumText(t)
  {
    if t.LineComment? {
      assert TriviumText(t)[|TriviumText(t)| - 1] == '\n';
    }
  }

  lemma AfterOnOneLine(items: Items)
    requires Open(items) && items.More? && '\n' !in ValueText(Array(items))
    ensures '\n' !in BlankText(LastAfter(items))
  {
    hide BlankText, LastAfter, ItemsText, ValueText;
    var left, right := LastAfterAround(items, 0);
    BracketedText(items);
    var text := BlankText(LastAfter(items));
    assert ValueText(Array(items)) == "[" + (left + (text + ("," + right))) + "]";
    forall i | 0 <= i < |text|
      ensures text[i] != '\n'
    {
      assert ValueText(Array(items))[1 + |left| + i] == text[i];
    }
  }

  /** On one line; or the line of the bracket begins behind the last comma, or among the entries but in no comment and at no brace. */
  ghost predicate BeginsPlainly(items: Items)
    requires Open(items)
  {
    '\n' !in ValueText(Array(items)) || BreaksLast(FinalBlank(items))
    || (exists n :: Swallows(FinalBlank(items), n)) || (exists start :: BreaksAmong(items, start))
  }

  /**
   * Appending to an array that ends in a comma, and nothing else: it comes out as planned if and only if the append goes
   * behind the last comma and into no comment.
   */
  lemma AppendComesOutExactly(c: Codec, d: Document, plan: RenderPlan, k: nat, r: Rendering)
    requires c.Valid() && DocumentOk(c, d) && !plan.Empty() && RendersTo(c, DocumentText(d), plan, r) && AppendsToComma(c, d, plan, k)
    requires forall op :: op in OpsIn(c, d, plan, k) ==> Unclosed(EntryText(c, op))
    requires OnlyAppends(c, ItemValues(ArrayIn(c, d, plan, k)), SetOf(RemovesIn(c, d, plan, k)), IdsOf(SetsIn(c, d, plan, k)))
    requires Open(ArrayIn(c, d, plan, k)) && ArrayIn(c, d, plan, k).More? && BeginsPlainly(ArrayIn(c, d, plan, k))
    ensures (exists now :: ComesOut(c, d, plan, k, r, now)) <==> CommaLeads(ArrayIn(c, d, plan, k))
  {
    hide DocumentOk, DocumentText, RenderPlan.Empty, HasArray, RestRight, UniqueClients, Disjoint, Trailing, Inbounds;
    hide ArrayIn, OpsIn, RemovesIn, SetsIn, ComesOut, OnlyAppends, Unclosed;
    hide EntryText, ItemsOk, Codec.Valid, RendersTo, LastBreak, Swallows, BreaksAmong, HidesComma, BlankText, ValueText, SetOf, IdsOf;
    hide ItemValues, LastAfter, FinalBlank, Open, BreaksLast;
    var items := ArrayIn(c, d, plan, k);
    if CommaLeads(items) {
      var now := AppendComesOut(c, d, plan, k, r);
    } else if '\n' !in ValueText(Array(items)) {
      AfterOnOneLine(items);
      TrailingArrayOk(c, d, plan, k);
      var n := CommaIsHidden(LastAfter(items));
      var now := AppendBehindACommaInACommentIsLost(c, d, plan, k, r, n);
    } else if n :| Swallows(FinalBlank(items), n) {
      var now := AppendIntoACommentIsLost(c, d, plan, k, r, n);
    } else {
      var start :| BreaksAmong(items, start);
      AppendAmongEntriesNeverFits(c, d, plan, k, r, start);
    }
  }

  lemma TrailingArrayOk(c: Codec, d: Document, plan: RenderPlan, k: nat)
    requires DocumentOk(c, d) && AppendsToComma(c, d, plan, k) && Open(ArrayIn(c, d, plan, k)) && ArrayIn(c, d, plan, k).More?
    ensures BlankOk(LastAfter(ArrayIn(c, d, plan, k)))
  {
    hide DocumentOk, ArrayIn, ItemsOk, BlankOk, LastAfter, Open;
    ArrayInOk(c, d, plan, k);
    OneSpace();
    WithLastAfterOk(c, ArrayIn(c, d, plan, k), []);
  }
}
