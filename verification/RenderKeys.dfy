/** A settings object that has no clients key gains one. */
module RenderKeys {
  import opened JsoncParser
  import opened JsoncSyntax
  import opened JsoncTrees
  import opened Options
  import opened RenderEntries
  import opened RenderLists
  import opened RenderPlanner
  import opened RenderSettings
  import opened RenderSyntax
  import opened Sequences
  import opened TextEdits

  // ----- The new array

  /** A clients array with one entry a line, or on one line. */
  function ClientsArray(c: Codec, lines: bool, indent: string, ops: seq<ClientOp>): Value {
    var first := Spaces("\n" + indent + "  ");
    if lines then
      Array(if ops == [] then End(first + Spaces("\n" + indent)) else EntriesItems(c, first, first, ops, Spaces("\n" + indent)))
    else Array(if ops == [] then End([]) else EntriesItems(c, [], ONE_SPACE, ops, []))
  }

  function ClientsArrayText(c: Codec, lines: bool, indent: string, ops: seq<ClientOp>): string {
    if lines then ClientsValueText(c, indent, ops) else "[" + Join(EntryTexts(c, ops), ", ") + "]"
  }

  predicate Indentation(text: string) { forall k :: 0 <= k < |text| ==> text[k] == ' ' || text[k] == '\t' }

  lemma JoinNothing(c: Codec, separator: string)
    ensures Join(EntryTexts(c, []), separator) == ""
  {}

  lemma ArrayOfClients(c: Codec, lines: bool, indent: string, ops: seq<ClientOp>)
    requires Indentation(indent)
    ensures ValueText(ClientsArray(c, lines, indent, ops)) == ClientsArrayText(c, lines, indent, ops)
  {
    hide ValueText, ClientsArray, ClientsArrayText;
    if lines {
      BlockArray(c, indent, ops);
    } else {
      InlineArray(c, indent, ops);
    }
  }

  lemma BlockArray(c: Codec, indent: string, ops: seq<ClientOp>)
    requires Indentation(indent)
    ensures ValueText(ClientsArray(c, true, indent, ops)) == ClientsArrayText(c, true, indent, ops)
  {
    hide EntriesItems, EntryTexts, BlankText, Join;
    LineBreakIsBlank(indent);
    var first, last := "\n" + indent + "  ", "\n" + indent;
    var joined := Join(EntryTexts(c, ops), "," + first);
    BlankConcat(Spaces(first), Spaces(last));
    BlockText(indent, joined);
    assert "," + first == ",\n" + indent + "  ";
    if ops == [] {
      JoinNothing(c, "," + first);
      assert first + ("" + last) == first + last;
    } else {
      EntriesText(c, Spaces(first), Spaces(first), ops, Spaces(last));
    }
  }

  lemma InlineArray(c: Codec, indent: string, ops: seq<ClientOp>)
    ensures ValueText(ClientsArray(c, false, indent, ops)) == ClientsArrayText(c, false, indent, ops)
  {
    hide EntriesItems, EntryTexts, BlankText, Join, Spaces;
    OneSpace();
    var joined := Join(EntryTexts(c, ops), ", ");
    if ops == [] {
      JoinNothing(c, ", ");
      assert "[" + "" + "]" == "[" + joined + "]";
    } else {
      EntriesText(c, [], ONE_SPACE, ops, []);
      assert "," + " " == ", ";
      assert "" + (joined + "") == joined;
    }
  }

  lemma BlockText(indent: string, joined: string)
    ensures "[" + (("\n" + indent + "  ") + (joined + ("\n" + indent))) + "]" ==
            "[\n" + indent + "  " + joined + "\n" + indent + "]"
  {
    var first, last := "\n" + indent + "  ", "\n" + indent;
    SeqAssociative("[" + first, joined, last);
    SeqAssociative("[", first, joined + last);
    assert "[\n" + indent + "  " == "[" + first;
    SeqAssociative("[" + first + joined, "\n", indent);
  }

  lemma ClientsArrayOk(c: Codec, lines: bool, indent: string, ops: seq<ClientOp>)
    requires c.Valid() && Indentation(indent)
    ensures ValueOk(c, ClientsArray(c, lines, indent, ops))
    ensures ItemValues(ClientsArray(c, lines, indent, ops).items) == EntryValues(c, ops)
  {
    hide EntriesItems, BlankText, BlankOk, Codec.Valid;
    LineBreakIsBlank(indent);
    OneSpace();
    var first, last := Spaces("\n" + indent + "  "), Spaces("\n" + indent);
    BlankConcat(first, last);
    if ops != [] {
      EntriesOk(c, first, first, ops, last);
      EntriesOk(c, [], ONE_SPACE, ops, []);
      EntriesValues(c, first, first, ops, last);
      EntriesValues(c, [], ONE_SPACE, ops, []);
    }
  }

  // ----- A new last property

  /** The properties with one more behind the last; a trailing comma stays at the end. */
  function AppendProp(props: Props, before: Blank, key: string, v: Value): Props
    requires !props.EndProps?
  {
    match props
    case LastProp(b, k, colon, gap, value, after) =>
      MoreProps(b, k, colon, gap, value, [], LastProp(before, key, [], ONE_SPACE, v, after))
    case MoreProps(b, k, colon, gap, value, after, rest) =>
      if rest.EndProps? then MoreProps(b, k, colon, gap, value, [], MoreProps(before, key, [], ONE_SPACE, v, after, rest))
      else MoreProps(b, k, colon, gap, value, after, AppendProp(rest, before, key, v))
  }

  function PropText(before: Blank, key: string, v: Value): string {
    BlankText(before) + key + ": " + ValueText(v)
  }

  /** The text up to the end of the last value, and the rest. */
  lemma {:induction false} SplitLast(c: Codec, props: Props, before: Blank, key: string, v: Value, pos: nat)
    returns (left: string, right: string)
    requires !props.EndProps?
    ensures PropsText(props) == left + right
    ensures PropsText(AppendProp(props, before, key, v)) == left + ("," + PropText(before, key, v)) + right
    ensures var nodes := PropNodes(c, props, pos); nodes != [] && nodes[|nodes| - 1].end == pos + |left|
    ensures PropStarts(props, pos) != []
  {
    hide ValueText, PropHead, BlankText, TreeOf, PropText;
    var head, value := PropHead(props.before, props.key, props.colon, props.gap), ValueText(props.value);
    var after := BlankText(props.after);
    TreeShape(c, props.value, FirstValuePos(props, pos));
    if props.LastProp? || props.rest.EndProps? {
      left := head + value;
      right := after + if props.LastProp? then "" else "," + PropsText(props.rest);
      LastPropText(props, before, key, v, right);
    } else {
      var l, r := SplitLast(c, props.rest, before, key, v, RestPropsPos(props, pos));
      var skipped := head + (value + (after + ","));
      left, right := skipped + l, r;
      Concat4(head, value, after, ",", l + r);
      SeqAssociative(skipped, l, r);
      var new' := "," + PropText(before, key, v);
      Concat4(head, value, after, ",", l + new' + r);
      SeqAssociative(skipped, l, new');
      SeqAssociative(skipped, l + new', r);
    }
  }

  lemma LastPropText(props: Props, before: Blank, key: string, v: Value, right: string)
    requires !props.EndProps? && (props.MoreProps? ==> props.rest.EndProps?)
    requires right == BlankText(props.after) + if props.LastProp? then "" else "," + PropsText(props.rest)
    ensures var left := PropHead(props.before, props.key, props.colon, props.gap) + ValueText(props.value);
            && PropsText(props) == left + right
            && PropsText(AppendProp(props, before, key, v)) == left + ("," + PropText(before, key, v)) + right
  {
    hide ValueText, PropHead, BlankText;
    var head, value := PropHead(props.before, props.key, props.colon, props.gap), ValueText(props.value);
    SeqAssociative(head, value, right);
    var text, added := PropText(before, key, v), ValueText(v);
    SpacedHead(before, key);
    OneSpace();
    var newHead := BlankText(before) + key + ": ";
    SeqAssociative(newHead, added, right);
    assert "" + ("," + (text + right)) == "," + (text + right);
    SeqAssociative(",", text, right);
    SeqAssociative(value, "," + text, right);
    SeqAssociative(head, value + ("," + text), right);
    SeqAssociative(head, value, "," + text);
    if props.LastProp? {
      assert right == BlankText(props.after);
      AppendedLast(props, before, key, v);
    } else {
      AppendedTrailing(props, before, key, v);
    }
  }

  lemma AppendedLast(props: Props, before: Blank, key: string, v: Value)
    requires props.LastProp?
    ensures PropsText(AppendProp(props, before, key, v)) ==
            PropHead(props.before, props.key, props.colon, props.gap)
            + (ValueText(props.value) + (BlankText([]) + ("," +
            (PropHead(before, key, [], ONE_SPACE) + (ValueText(v) + BlankText(props.after))))))
  {
    hide ValueText, PropHead, BlankText;
    var new' := LastProp(before, key, [], ONE_SPACE, v, props.after);
    assert PropsText(new') == PropHead(before, key, [], ONE_SPACE) + (ValueText(v) + BlankText(props.after));
  }

  lemma AppendedTrailing(props: Props, before: Blank, key: string, v: Value)
    requires props.MoreProps? && props.rest.EndProps?
    ensures PropsText(AppendProp(props, before, key, v)) ==
            PropHead(props.before, props.key, props.colon, props.gap)
            + (ValueText(props.value) + (BlankText([]) + ("," +
            (PropHead(before, key, [], ONE_SPACE) + (ValueText(v) + (BlankText(props.after) + ("," + PropsText(props.rest))))))))
  {
    hide ValueText, PropHead, BlankText;
    var new' := MoreProps(before, key, [], ONE_SPACE, v, props.after, props.rest);
    assert PropsText(new') == PropHead(before, key, [], ONE_SPACE) + (ValueText(v) + (BlankText(props.after) + ("," + PropsText(props.rest))));
  }

  lemma {:induction false} AppendedProp(c: Codec, props: Props, before: Blank, key: string, v: Value)
    requires !props.EndProps? && FindProp(c, props, Decoded(c, key)).None?
    ensures FindProp(c, AppendProp(props, before, key, v), Decoded(c, key)) == Some(v)
    ensures forall k :: k != Decoded(c, key) ==> FindProp(c, AppendProp(props, before, key, v), k) == FindProp(c, props, k)
  {
    if props.MoreProps? && !props.rest.EndProps? {
      AppendedProp(c, props.rest, before, key, v);
    }
  }

  lemma {:induction false} AppendedPropOk(c: Codec, props: Props, before: Blank, key: string, v: Value)
    requires !props.EndProps? && PropsOk(c, props) && BlankOk(before) && ValueOk(c, v)
    requires QuotedOk(key) && c.decode(key).Some?
    ensures PropsOk(c, AppendProp(props, before, key, v))
  {
    hide BlankOk, QuotedOk, ValueOk;
    OneSpace();
    if props.MoreProps? && !props.rest.EndProps? {
      AppendedPropOk(c, props.rest, before, key, v);
    } else if props.LastProp? {
      assert PropsOk(c, LastProp(before, key, [], ONE_SPACE, v, props.after));
    } else {
      assert PropsOk(c, MoreProps(before, key, [], ONE_SPACE, v, props.after, props.rest));
    }
  }

  // ----- The settings object

  /** Where the indent of a new key is read off. */
  function IndentPos(document: string, settings: Node): nat {
    if settings.propStarts == [] then settings.start else settings.propStarts[|settings.propStarts| - 1]
  }

  function KeyIndent(document: string, settings: Node): string {
    LineIndent(document, IndentPos(document, settings)) + if settings.propStarts == [] then "  " else ""
  }

  lemma KeyIndentIsBlank(document: string, settings: Node)
    ensures Indentation(KeyIndent(document, settings))
  {
    IndentIsBlank(document, IndentPos(document, settings));
  }

  /** The settings at `pos` once they have a clients key. */
  function WithClients(c: Codec, document: string, props: Props, pos: nat, ops: seq<ClientOp>): Props {
    var settings := TreeOf(c, Object(props), pos);
    var lines, indent := Multiline(document, settings.start, settings.end), KeyIndent(document, settings);
    var clients := ClientsArray(c, lines, indent, ops);
    var before := if lines then Spaces("\n" + indent) else if props.EndProps? then [] else ONE_SPACE;
    if props.EndProps? then
      LastProp(before, c.encode("clients"), [], ONE_SPACE, clients,
               (if lines then Spaces("\n" + LineIndent(document, settings.start)) else []) + props.blank)
    else AppendProp(props, before, c.encode("clients"), clients)
  }

  /** The text of the inserted property, with the comma or the closing line that comes with it. */
  function InsertedText(c: Codec, document: string, props: Props, pos: nat, ops: seq<ClientOp>): string {
    var settings := TreeOf(c, Object(props), pos);
    var lines, indent := Multiline(document, settings.start, settings.end), KeyIndent(document, settings);
    var text := (if lines then "\n" + indent else if props.EndProps? then "" else " ")
                + c.encode("clients") + ": " + ClientsArrayText(c, lines, indent, ops);
    if props.EndProps? then text + if lines then "\n" + LineIndent(document, settings.start) else ""
    else "," + text
  }

  lemma {:induction false} PropStartsCount(props: Props, pos: nat)
    ensures PropStarts(props, pos) == [] <==> props.EndProps?
  {}

  lemma PlannedInsertText(c: Codec, document: string, props: Props, pos: nat, ops: seq<ClientOp>)
    ensures PlanKeyInsert(c, document, TreeOf(c, Object(props), pos), ops).text == InsertedText(c, document, props, pos, ops)
  {
    hide PlanKeyInsert, InsertedText;
    if props.EndProps? {
      FirstInsertText(c, document, props, pos, ops);
    } else {
      NextInsertText(c, document, props, pos, ops);
    }
  }

  lemma FirstInsertText(c: Codec, document: string, props: Props, pos: nat, ops: seq<ClientOp>)
    requires props.EndProps?
    ensures PlanKeyInsert(c, document, TreeOf(c, Object(props), pos), ops).text == InsertedText(c, document, props, pos, ops)
  {
    hide TreeOf, LineIndent, Join, EntryTexts, ClientsValueText, Multiline, PropStarts;
    var settings := TreeOf(c, Object(props), pos);
    TreeShape(c, Object(props), pos);
    PropStartsCount(props, pos + 1);
    var key, closing := c.encode("clients"), LineIndent(document, settings.start);
    if Multiline(document, settings.start, settings.end) {
      SeqAssociative("\n" + (closing + "  ") + key + ": " + ClientsValueText(c, closing + "  ", ops), "\n", closing);
    } else {
      InlineTexts(key, Join(EntryTexts(c, ops), ", "));
    }
  }

  lemma NextInsertText(c: Codec, document: string, props: Props, pos: nat, ops: seq<ClientOp>)
    requires !props.EndProps?
    ensures PlanKeyInsert(c, document, TreeOf(c, Object(props), pos), ops).text == InsertedText(c, document, props, pos, ops)
  {
    hide TreeOf, LineIndent, Join, EntryTexts, ClientsValueText, Multiline, PropStarts;
    var settings := TreeOf(c, Object(props), pos);
    TreeShape(c, Object(props), pos);
    PropStartsCount(props, pos + 1);
    var key, indent := c.encode("clients"), KeyIndent(document, settings);
    assert indent == LineIndent(document, IndentPos(document, settings));
    if Multiline(document, settings.start, settings.end) {
      CommaText(indent, key, ClientsValueText(c, indent, ops));
    } else {
      InlineTexts(key, Join(EntryTexts(c, ops), ", "));
    }
  }

  lemma CommaText(indent: string, key: string, value: string)
    ensures ",\n" + indent + key + ": " + value == "," + ("\n" + indent + key + ": " + value)
  {}

  lemma InlineTexts(key: string, entries: string)
    ensures key + ": [" + entries + "]" == "" + key + ": " + ("[" + entries + "]")
    ensures ", " + key + ": [" + entries + "]" == "," + (" " + key + ": " + ("[" + entries + "]"))
  {
    assert ": [" == ": " + "[";
  }

  lemma KeyInsertAt(c: Codec, document: string, props: Props, pos: nat, ops: seq<ClientOp>, at: nat)
    requires var nodes := PropNodes(c, props, pos + 1);
             if props.EndProps? then at == pos + 1 else nodes != [] && at == nodes[|nodes| - 1].end
    ensures var edit := PlanKeyInsert(c, document, TreeOf(c, Object(props), pos), ops); edit.at == edit.end == at
  {
    hide TreeOf, LineIndent, Join, EntryTexts, ClientsValueText, Multiline;
    TreeShape(c, Object(props), pos);
  }

  /** The text around the place where the key goes in. */
  lemma WithClientsText(c: Codec, document: string, props: Props, pos: nat, ops: seq<ClientOp>)
    returns (left: string, right: string)
    ensures PropsText(props) == left + right
    ensures PropsText(WithClients(c, document, props, pos, ops)) == left + InsertedText(c, document, props, pos, ops) + right
    ensures var edit := PlanKeyInsert(c, document, TreeOf(c, Object(props), pos), ops); edit.at == edit.end == pos + 1 + |left|
  {
    hide TreeOf, LineIndent, ClientsArray, ClientsArrayText, PlanKeyInsert, ValueText, BlankText, AppendProp, KeyIndent;
    var settings := TreeOf(c, Object(props), pos);
    TreeShape(c, Object(props), pos);
    var lines, indent := Multiline(document, settings.start, settings.end), KeyIndent(document, settings);
    var clients := ClientsArray(c, lines, indent, ops);
    KeyIndentIsBlank(document, settings);
    ArrayOfClients(c, lines, indent, ops);
    LineBreakIsBlank(indent);
    OneSpace();
    if props.EndProps? {
      left, right := "", PropsText(props);
      assert left + right == right;
      KeyInsertAt(c, document, props, pos, ops, pos + 1);
      OnlyPropText(c, lines, indent, LineIndent(document, settings.start), props.blank, clients);
    } else {
      var before := if lines then Spaces("\n" + indent) else ONE_SPACE;
      left, right := SplitLast(c, props, before, c.encode("clients"), clients, pos + 1);
      KeyInsertAt(c, document, props, pos, ops, pos + 1 + |left|);
    }
  }

  lemma OnlyPropText(c: Codec, lines: bool, indent: string, closing: string, blank: Blank, clients: Value)
    requires Indentation(indent) && Indentation(closing)
    ensures var before, after := if lines then Spaces("\n" + indent) else [], if lines then Spaces("\n" + closing) else [];
            PropsText(LastProp(before, c.encode("clients"), [], ONE_SPACE, clients, after + blank)) ==
            "" + ((if lines then "\n" + indent else "") + c.encode("clients") + ": " + ValueText(clients)
            + if lines then "\n" + closing else "") + BlankText(blank)
  {
    hide BlankText, ValueText, PropHead;
    LineBreakIsBlank(indent);
    LineBreakIsBlank(closing);
    OneSpace();
    var before, after := if lines then Spaces("\n" + indent) else [], if lines then Spaces("\n" + closing) else [];
    BlankConcat(after, blank);
    SpacedHead(before, c.encode("clients"));
    var head, value, rest := BlankText(before) + c.encode("clients") + ": ", ValueText(clients), BlankText(after);
    SeqAssociative(head, value, rest + BlankText(blank));
    SeqAssociative(head + value, rest, BlankText(blank));
    assert "" + (head + value + rest) == head + value + rest;
  }

  /** The planned insert makes the settings with the clients key. */
  lemma KeyInsertAchieves(c: Codec, document: string, props: Props, pos: nat, ops: seq<ClientOp>)
    ensures var edits := [PlanKeyInsert(c, document, TreeOf(c, Object(props), pos), ops)];
            Achieves(ValueText(Object(props)), edits, edits, pos, ValueText(Object(WithClients(c, document, props, pos, ops))))
  {
    hide TreeOf, PlanKeyInsert, WithClients, InsertedText, EditsTo, PropsText;
    var edit := PlanKeyInsert(c, document, TreeOf(c, Object(props), pos), ops);
    var left, right := WithClientsText(c, document, props, pos, ops);
    PlannedInsertText(c, document, props, pos, ops);
    EditsToWhole("", edit.text, edit.at);
    assert edit == TextEdit(edit.at, edit.at + |""|, edit.text);
    EditsToSuffix("", right, [edit], edit.at, edit.text);
    assert "" + right == right;
    EditsToPrefix(left, right, [edit], pos + 1, edit.text + right);
    EditsToSuffix(left + right, "}", [edit], pos + 1, left + (edit.text + right));
    EditsToPrefix("{", left + right + "}", [edit], pos, left + (edit.text + right) + "}");
    SeqAssociative(left, edit.text, right);
    SeqAssociative("{", left + right, "}");
    SeqAssociative("{", left + (edit.text + right), "}");
    AscendsOne(edit);
  }

  lemma WithClientsMeaning(c: Codec, document: string, props: Props, pos: nat, ops: seq<ClientOp>)
    requires c.Valid() && PropsOk(c, props) && FindProp(c, props, "clients").None?
    ensures var edited := WithClients(c, document, props, pos, ops);
            && PropsOk(c, edited)
            && (forall k :: k != "clients" ==> FindProp(c, edited, k) == FindProp(c, props, k))
            && FindProp(c, edited, "clients").Some?
            && FindProp(c, edited, "clients").value.Array?
            && ItemValues(FindProp(c, edited, "clients").value.items) == EntryValues(c, ops)
  {
    hide TreeOf, LineIndent, ClientsArray, ValueOk, BlankOk, QuotedOk, AppendProp, Codec.Valid, KeyIndent, Multiline;
    var settings := TreeOf(c, Object(props), pos);
    var lines, indent := Multiline(document, settings.start, settings.end), KeyIndent(document, settings);
    var clients := ClientsArray(c, lines, indent, ops);
    KeyIndentIsBlank(document, settings);
    IndentIsBlank(document, settings.start);
    LineBreakIsBlank(indent);
    LineBreakIsBlank(LineIndent(document, settings.start));
    OneSpace();
    EncodedOk(c, "clients");
    EncodedKey(c, "clients");
    ClientsArrayIsArray(c, lines, indent, ops);
    ClientsArrayOk(c, lines, indent, ops);
    if props.EndProps? {
      BlankConcat(if lines then Spaces("\n" + LineIndent(document, settings.start)) else [], props.blank);
    } else {
      var before := if lines then Spaces("\n" + indent) else ONE_SPACE;
      AppendedProp(c, props, before, c.encode("clients"), clients);
      AppendedPropOk(c, props, before, c.encode("clients"), clients);
    }
  }

  lemma EncodedKey(c: Codec, s: string)
    requires c.Valid()
    ensures QuotedOk(c.encode(s)) && c.decode(c.encode(s)) == Some(s) && Decoded(c, c.encode(s)) == s
  {}

  lemma ClientsArrayIsArray(c: Codec, lines: bool, indent: string, ops: seq<ClientOp>)
    ensures ClientsArray(c, lines, indent, ops).Array?
  {}
}
