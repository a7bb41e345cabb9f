/** The syntax of what a render inserts: client entries, lists of them, ids. */
module RenderEntries {
  import opened JsoncParser
  import opened JsoncSyntax
  import opened JsoncTrees
  import opened Options
  import opened RenderPlanner
  import opened RenderSyntax
  import opened Sequences
  import opened TextEdits

  // ----- Blanks

  lemma {:induction false} BlankConcat(a: Blank, b: Blank)
    ensures BlankText(a + b) == BlankText(a) + BlankText(b)
    ensures BlankOk(a) && BlankOk(b) ==> BlankOk(a + b)
    decreases |a|
  {
    hide TriviumText, TriviumOk;
    if a == [] {
      assert a + b == b;
    } else {
      BlankConcat(a[1..], b);
      assert (a + b)[1..] == a[1..] + b;
    }
  }

  lemma {:induction false} SpacesText(text: string)
    requires forall k :: 0 <= k < |text| ==> IsSpace(text[k])
    ensures BlankText(Spaces(text)) == text && BlankOk(Spaces(text))
    decreases |text|
  {
    if text != [] {
      SpacesText(text[1..]);
      assert Spaces(text)[1..] == Spaces(text[1..]);
    }
  }

  lemma OneSpace()
    ensures BlankText([Space(' ')]) == " " && BlankOk([Space(' ')])
    ensures BlankText([]) == "" && BlankOk([])
  {
    assert BlankText([Space(' ')]) == " " + BlankText([Space(' ')][1..]);
  }

  // ----- Keys

  lemma {:induction false} PlainStringEnd(s: string, pos: nat)
    requires Plain(s) && 1 <= pos <= |s| + 1
    ensures StringEnd(Bare(s), pos) == Some(|s| + 2)
    decreases |s| - pos
  {
    if pos <= |s| {
      assert Bare(s)[pos] == s[pos - 1];
      PlainStringEnd(s, pos + 1);
    }
  }

  lemma BareKey(c: Codec, s: string)
    requires c.Valid() && Plain(s)
    ensures QuotedOk(Bare(s)) && c.decode(Bare(s)) == Some(s) && Decoded(c, Bare(s)) == s
  {
    PlainStringEnd(s, 1);
  }

  /** A key, a colon and a space, as the render writes them. */
  lemma SpacedHead(before: Blank, key: string)
    ensures PropHead(before, key, [], [Space(' ')]) == BlankText(before) + key + ": "
  {
    hide BlankText;
    OneSpace();
    SeqAssociative(BlankText(before), key, ": ");
    assert "" + (":" + " ") == ": ";
  }

  // ----- Entries

  function StringValue(c: Codec, s: string): Value { Quoted(c.encode(s)) }

  const ONE_SPACE: Blank := [Space(' ')]

  function FlowProps(c: Codec, op: ClientOp): Props {
    if op.flow == "" then LastProp(ONE_SPACE, Bare("id"), [], ONE_SPACE, StringValue(c, op.id), [])
    else MoreProps(ONE_SPACE, Bare("id"), [], ONE_SPACE, StringValue(c, op.id), [],
                   LastProp(ONE_SPACE, Bare("flow"), [], ONE_SPACE, StringValue(c, op.flow), []))
  }

  function EntryValue(c: Codec, op: ClientOp): Value {
    Object(MoreProps([], Bare("email"), [], ONE_SPACE, StringValue(c, op.email), [], FlowProps(c, op)))
  }

  /** A list that ends in a spaced property with a string value. */
  lemma LastStringProp(c: Codec, key: string, s: string)
    ensures PropsText(LastProp(ONE_SPACE, Bare(key), [], ONE_SPACE, StringValue(c, s), [])) == " " + Bare(key) + ": " + c.encode(s)
  {
    hide PropHead, BlankText;
    OneSpace();
    SpacedHead(ONE_SPACE, Bare(key));
    assert c.encode(s) + "" == c.encode(s);
  }

  /** A list that goes on after a spaced property with a string value. */
  lemma MoreStringProp(c: Codec, before: Blank, key: string, s: string, rest: Props)
    ensures PropsText(MoreProps(before, Bare(key), [], ONE_SPACE, StringValue(c, s), [], rest)) ==
            BlankText(before) + Bare(key) + ": " + c.encode(s) + "," + PropsText(rest)
  {
    hide PropHead, BlankText, PropsText;
    OneSpace();
    SpacedHead(before, Bare(key));
    MorePropsText(before, Bare(key), ONE_SPACE, StringValue(c, s), rest);
    var head, value, more := BlankText(before) + Bare(key) + ": ", c.encode(s), PropsText(rest);
    assert "" + ("," + more) == "," + more;
    SeqAssociative(head, value, "," + more);
    SeqAssociative(head + value, ",", more);
  }

  lemma MorePropsText(before: Blank, key: string, gap: Blank, v: Value, rest: Props)
    ensures PropsText(MoreProps(before, key, [], gap, v, [], rest)) ==
            PropHead(before, key, [], gap) + (ValueText(v) + (BlankText([]) + ("," + PropsText(rest))))
  {}

  lemma FlowPropsText(c: Codec, op: ClientOp)
    ensures PropsText(FlowProps(c, op)) ==
            " \"id\": " + c.encode(op.id) + if op.flow == "" then "" else ", \"flow\": " + c.encode(op.flow)
  {
    hide PropsText, BlankText;
    OneSpace();
    assert " " + Bare("id") + ": " == " \"id\": ";
    if op.flow == "" {
      LastStringProp(c, "id", op.id);
    } else {
      var last := LastProp(ONE_SPACE, Bare("flow"), [], ONE_SPACE, StringValue(c, op.flow), []);
      LastStringProp(c, "flow", op.flow);
      MoreStringProp(c, ONE_SPACE, "id", op.id, last);
      assert " " + Bare("flow") + ": " == " \"flow\": ";
      SeqAssociative(" \"id\": " + c.encode(op.id), ",", " \"flow\": " + c.encode(op.flow));
      SeqAssociative(",", " \"flow\": ", c.encode(op.flow));
    }
  }

  lemma EntryValueText(c: Codec, op: ClientOp)
    ensures ValueText(EntryValue(c, op)) == EntryText(c, op)
  {
    hide PropsText, BlankText, FlowProps;
    OneSpace();
    FlowPropsText(c, op);
    MoreStringProp(c, [], "email", op.email, FlowProps(c, op));
    assert "" + Bare("email") + ": " == "\"email\": ";
    var email, id := c.encode(op.email), c.encode(op.id);
    var flow := if op.flow == "" then "" else ", \"flow\": " + c.encode(op.flow);
    EntryConcat(email, id, flow);
  }

  lemma EntryConcat(email: string, id: string, flow: string)
    ensures "{" + ("\"email\": " + email + "," + (" \"id\": " + id + flow)) + "}" ==
            "{\"email\": " + email + ", \"id\": " + id + flow + "}"
  {
    SeqAssociative("\"email\": " + email, ",", " \"id\": " + id + flow);
    SeqAssociative(",", " \"id\": " + id, flow);
    SeqAssociative(",", " \"id\": ", id);
    SeqAssociative("\"email\": " + email, ", \"id\": " + id, flow);
    SeqAssociative("\"email\": " + email, ", \"id\": ", id);
    SeqAssociative("{", "\"email\": " + email + ", \"id\": " + id, flow);
    SeqAssociative("{", "\"email\": " + email + ", \"id\": ", id);
    SeqAssociative("{", "\"email\": " + email, ", \"id\": ");
    SeqAssociative("{", "\"email\": ", email);
  }

  lemma EntryOk(c: Codec, op: ClientOp)
    requires c.Valid()
    ensures ValueOk(c, EntryValue(c, op))
    ensures StringOf(c, EntryValue(c, op), "email") == Some(op.email)
    ensures StringOf(c, EntryValue(c, op), "id") == Some(op.id)
  {
    hide QuotedOk, BlankOk, Codec.Valid;
    OneSpace();
    BareKey(c, "email");
    BareKey(c, "id");
    BareKey(c, "flow");
    EncodedOk(c, op.email);
    EncodedOk(c, op.id);
    EncodedOk(c, op.flow);
    assert PropsOk(c, FlowProps(c, op)) && FindProp(c, FlowProps(c, op), "id") == Some(StringValue(c, op.id));
  }

  lemma EncodedOk(c: Codec, s: string)
    requires c.Valid()
    ensures ValueOk(c, StringValue(c, s)) && Decoded(c, c.encode(s)) == s
  {}

  // ----- Lists of entries

  /** Entries in a row: `first` before the first, `sep` before each other, `after` behind the last. */
  function EntriesItems(c: Codec, first: Blank, sep: Blank, ops: seq<ClientOp>, after: Blank): Items
    requires ops != []
    decreases |ops|
  {
    if |ops| == 1 then Last(first, EntryValue(c, ops[0]), after)
    else More(first, EntryValue(c, ops[0]), [], EntriesItems(c, sep, sep, ops[1..], after))
  }

  lemma {:induction false} EntriesText(c: Codec, first: Blank, sep: Blank, ops: seq<ClientOp>, after: Blank)
    requires ops != []
    ensures ItemsText(EntriesItems(c, first, sep, ops, after)) ==
            BlankText(first) + (Join(EntryTexts(c, ops), "," + BlankText(sep)) + BlankText(after))
    decreases |ops|
  {
    hide EntryValue, EntryText, BlankText;
    EntryValueText(c, ops[0]);
    var entry := EntryText(c, ops[0]);
    if |ops| > 1 {
      EntriesText(c, sep, sep, ops[1..], after);
      assert EntryTexts(c, ops)[1..] == EntryTexts(c, ops[1..]);
      var rest := Join(EntryTexts(c, ops[1..]), "," + BlankText(sep));
      OneSpace();
      var f, s, a := BlankText(first), BlankText(sep), BlankText(after);
      assert Join(EntryTexts(c, ops), "," + s) == entry + ("," + s) + rest;
      assert f + (entry + ("" + ("," + (s + (rest + a))))) == f + ((entry + ("," + s) + rest) + a) by {
        EntriesConcat(f, entry, s, rest, a);
      }
    }
  }

  lemma EntriesConcat(f: string, entry: string, s: string, rest: string, a: string)
    ensures f + (entry + ("" + ("," + (s + (rest + a))))) == f + ((entry + ("," + s) + rest) + a)
  {
    assert "" + ("," + (s + (rest + a))) == ("," + s) + (rest + a);
    SeqAssociative(entry, "," + s, rest);
    SeqAssociative(entry + ("," + s), rest, a);
    SeqAssociative(entry, "," + s, rest + a);
  }

  lemma {:induction false} EntriesOk(c: Codec, first: Blank, sep: Blank, ops: seq<ClientOp>, after: Blank)
    requires c.Valid() && ops != [] && BlankOk(first) && BlankOk(sep) && BlankOk(after)
    ensures ItemsOk(c, EntriesItems(c, first, sep, ops, after))
    ensures !Trailing(EntriesItems(c, first, sep, ops, after))
    decreases |ops|
  {
    hide EntryValue, BlankOk;
    EntryOk(c, ops[0]);
    OneSpace();
    if |ops| > 1 {
      EntriesOk(c, sep, sep, ops[1..], after);
    }
  }

  // ----- Client IDs

  /** The props with the blank before the first of them, or before the closer, preceded by one more. */
  function Preceded(b: Blank, props: Props): Props {
    match props
    case EndProps(blank) => EndProps(b + blank)
    case LastProp(before, k, colon, gap, value, after) => LastProp(b + before, k, colon, gap, value, after)
    case MoreProps(before, k, colon, gap, value, after, rest) => MoreProps(b + before, k, colon, gap, value, after, rest)
  }

  /** An object with a new first property `"id"`. */
  function WithId(c: Codec, props: Props, id: string): Props {
    match props
    case EndProps(blank) => LastProp([], Bare("id"), [], ONE_SPACE, StringValue(c, id), blank)
    case _ => MoreProps([], Bare("id"), [], ONE_SPACE, StringValue(c, id), [], Preceded(ONE_SPACE, props))
  }

  /** The entry once its id is `id`. */
  function SetId(c: Codec, v: Value, id: string): Value {
    if !v.Object? then v
    else
      match FindProp(c, v.props, "id")
      case Some(Quoted(raw)) =>
        if Decoded(c, raw) == id then v else Object(ReplaceProp(c, v.props, "id", StringValue(c, id)))
      case _ => Object(WithId(c, v.props, id))
  }

  lemma PrecededText(b: Blank, props: Props)
    ensures PropsText(Preceded(b, props)) == BlankText(b) + PropsText(props)
  {
    hide BlankText, ValueText;
    match props
    case EndProps(blank) => BlankConcat(b, blank);
    case LastProp(before, k, colon, gap, value, after) =>
      PrecededHead(b, before, k, colon, gap);
      SeqAssociative(BlankText(b), PropHead(before, k, colon, gap), ValueText(value) + BlankText(after));
    case MoreProps(before, k, colon, gap, value, after, rest) =>
      PrecededHead(b, before, k, colon, gap);
      SeqAssociative(BlankText(b), PropHead(before, k, colon, gap), ValueText(value) + (BlankText(after) + ("," + PropsText(rest))));
  }

  lemma PrecededHead(b: Blank, before: Blank, k: string, colon: Blank, gap: Blank)
    ensures PropHead(b + before, k, colon, gap) == BlankText(b) + PropHead(before, k, colon, gap)
  {
    hide BlankText;
    BlankConcat(b, before);
    SeqAssociative(BlankText(b), BlankText(before), k + (BlankText(colon) + (":" + BlankText(gap))));
  }

  lemma WithIdText(c: Codec, props: Props, id: string)
    ensures PropsText(WithId(c, props, id)) ==
            "\"id\": " + c.encode(id) + (if props.EndProps? then "" else ", ") + PropsText(props)
  {
    hide BlankText, PropHead, Preceded;
    OneSpace();
    SpacedHead([], Bare("id"));
    assert BlankText([]) + Bare("id") + ": " == "\"id\": ";
    var enc := c.encode(id);
    if props.EndProps? {
      SeqAssociative("\"id\": ", enc, PropsText(props));
      assert "\"id\": " + enc + "" == "\"id\": " + enc;
    } else {
      PrecededText(ONE_SPACE, props);
      var text := PropsText(props);
      assert "" + ("," + (" " + text)) == ", " + text;
      SeqAssociative("\"id\": ", enc, ", " + text);
      SeqAssociative("\"id\": " + enc, ", ", text);
    }
  }

  /** After the edit the entry has the id, and every other property it had. */
  lemma SetIdMeaning(c: Codec, v: Value, id: string)
    requires c.Valid() && v.Object?
    ensures StringOf(c, SetId(c, v, id), "id") == Some(id)
    ensures forall k :: k != "id" ==> PropOf(c, SetId(c, v, id), k) == PropOf(c, v, k)
  {
    hide ReplaceProp, Codec.Valid;
    BareKey(c, "id");
    EncodedOk(c, id);
    if FindProp(c, v.props, "id").Some? {
      ReplacedProp(c, v.props, "id", StringValue(c, id));
    }
    forall k
      ensures FindProp(c, Preceded(ONE_SPACE, v.props), k) == FindProp(c, v.props, k)
    {}
  }

  lemma SetIdOk(c: Codec, v: Value, id: string)
    requires c.Valid() && ValueOk(c, v)
    ensures ValueOk(c, SetId(c, v, id))
  {
    hide ReplaceProp, Codec.Valid, BlankOk, QuotedOk;
    BareKey(c, "id");
    EncodedOk(c, id);
    OneSpace();
    if v.Object? {
      ReplacedPropOk(c, v.props, "id", StringValue(c, id));
      PrecededOk(c, ONE_SPACE, v.props);
    }
  }

  lemma PrecededOk(c: Codec, b: Blank, props: Props)
    requires BlankOk(b) && PropsOk(c, props)
    ensures PropsOk(c, Preceded(b, props))
  {
    hide BlankOk, QuotedOk;
    if props.EndProps? {
      BlankConcat(b, props.blank);
    } else {
      BlankConcat(b, props.before);
    }
  }

  function OptionSeq<T>(o: Option<T>): seq<T> {
    match o
    case None => []
    case Some(x) => [x]
  }

  /** What a parsed node shows of the value it came from. */
  lemma TreeShape(c: Codec, v: Value, pos: nat)
    ensures var n := TreeOf(c, v, pos);
            && n.start == pos && n.end == pos + |ValueText(v)|
            && (n.kind == '{' <==> v.Object?) && (n.kind == '[' <==> v.Array?) && (n.kind == '"' <==> v.Quoted?)
            && (v.Quoted? ==> n.value == Decoded(c, v.raw))
            && (v.Object? ==> (n.items == [] <==> v.props.EndProps?))
            && (v.Object? ==> n.items == PropNodes(c, v.props, pos + 1) && n.propStarts == PropStarts(v.props, pos + 1))
            && (v.Array? ==> n.items == ItemNodes(c, v.items, pos + 1) && n.commas == Commas(v.items, pos + 1))
            && (v.Array? ==> n.trailing == Trailing(v.items))
  {}

  lemma EditedWhole(text: string, edit: TextEdit, offset: nat)
    requires edit.at == offset && edit.end == offset + |text|
    ensures Within([edit], offset, offset + |text|)
    ensures Edited(text, [edit], offset) == edit.text
  {
    assert [edit][1..] == [];
    assert Within([], edit.end, offset + |text|);
    EditedNothing([], edit.end);
    assert text[..0] + edit.text + text[|text|..] == edit.text;
  }

  lemma EditedInsert(left: string, right: string, text: string, offset: nat)
    ensures var at := offset + |left|; var edits := [TextEdit(at, at, text)];
            && Within(edits, offset, offset + |left + right|)
            && Within(edits, at, at)
            && Edited(left + right, edits, offset) == left + text + right
  {
    var at := offset + |left|;
    var edits := [TextEdit(at, at, text)];
    assert edits[1..] == [];
    assert (left + right)[..|left|] == left && (left + right)[|left|..] == right;
    assert Within([], at, offset + |left + right|);
    assert Within([], at, at);
    EditedNothing(right, at);
  }

  /** The id edit, described on the syntax tree. */
  function IdEdits(c: Codec, v: Value, id: string, pos: nat): seq<TextEdit>
    requires v.Object?
  {
    var at := FindPos(c, v.props, "id", pos + 1);
    match FindProp(c, v.props, "id")
    case Some(Quoted(raw)) => if Decoded(c, raw) == id then [] else [TextEdit(at, at + |raw|, c.encode(id))]
    case _ => [TextEdit(pos + 1, pos + 1, "\"id\": " + c.encode(id) + if v.props.EndProps? then "" else ", ")]
  }

  lemma PlannedIdEdits(c: Codec, v: Value, id: string, pos: nat)
    requires v.Object?
    ensures OptionSeq(PlanIdSet(c, TreeOf(c, v, pos), id)) == IdEdits(c, v, id, pos)
  {
    hide TreeOf, FindPos, FindProp, Get;
    GetOfTree(c, v, "id", pos);
    TreeShape(c, v, pos);
    match FindProp(c, v.props, "id")
    case None =>
    case Some(value) => TreeShape(c, value, FindPos(c, v.props, "id", pos + 1));
  }

  lemma IdRewriteText(c: Codec, props: Props, raw: string, id: string, pos: nat)
    requires FindProp(c, props, "id") == Some(Quoted(raw))
    ensures var at := FindPos(c, props, "id", pos + 1);
            var edits, text := [TextEdit(at, at + |raw|, c.encode(id))], ValueText(Object(props));
            && Within(edits, pos + 1, pos + |text| - 1)
            && EditsTo(text, edits, pos, ValueText(Object(ReplaceProp(c, props, "id", StringValue(c, id)))))
  {
    hide FindPos, FindProp, ReplaceProp, PropsText, Edited, Within;
    var at := FindPos(c, props, "id", pos + 1);
    var edits := [TextEdit(at, at + |raw|, c.encode(id))];
    EditedWhole(raw, edits[0], at);
    EditedProp(c, props, "id", StringValue(c, id), edits, pos);
    var left, right := SplitProp(c, props, "id", StringValue(c, id), pos + 1);
    WithinWiden(edits, at, at + |raw|, pos + 1, pos + |ValueText(Object(props))| - 1);
  }

  lemma IdInsertText(c: Codec, props: Props, id: string, pos: nat)
    ensures var edits := [TextEdit(pos + 1, pos + 1, "\"id\": " + c.encode(id) + if props.EndProps? then "" else ", ")];
            var text := ValueText(Object(props));
            && Within(edits, pos + 1, pos + |text| - 1)
            && EditsTo(text, edits, pos, ValueText(Object(WithId(c, props, id))))
  {
    hide PropsText, Edited, Within, WithId;
    var insert := "\"id\": " + c.encode(id) + if props.EndProps? then "" else ", ";
    var text := PropsText(props);
    var edits := [TextEdit(pos + 1, pos + 1, insert)];
    EditedInsert("{", text + "}", insert, pos);
    WithinWiden(edits, pos + 1, pos + 1, pos + 1, pos + |text| + 1);
    WithIdText(c, props, id);
    SeqAssociative("{", text, "}");
    SeqAssociative("{", insert, text + "}");
    SeqAssociative(insert, text, "}");
    SeqAssociative("{", insert + text, "}");
  }

  lemma NoEdits(text: string, pos: nat)
    requires |text| >= 2
    ensures Within([], pos + 1, pos + |text| - 1)
    ensures EditsTo(text, [], pos, text)
  {}

  /** The planned id edit turns the entry's text into that of the entry with the id. */
  lemma IdEditText(c: Codec, v: Value, id: string, pos: nat)
    requires v.Object?
    ensures Within(IdEdits(c, v, id, pos), pos + 1, pos + |ValueText(v)| - 1)
    ensures EditsTo(ValueText(v), IdEdits(c, v, id, pos), pos, ValueText(SetId(c, v, id)))
  {
    hide FindPos, ReplaceProp, WithId, PropsText, EditsTo, Within, FindProp;
    match FindProp(c, v.props, "id")
    case Some(Quoted(raw)) =>
      NoEdits(ValueText(v), pos);
      IdRewriteText(c, v.props, raw, id, pos);
    case _ =>
      IdInsertText(c, v.props, id, pos);
  }
}
