/** What a plan does to a clients array, as text edits and as a list. */
module RenderLists {
  import opened JsoncParser
  import opened JsoncSyntax
  import opened JsoncTrees
  import opened Options
  import opened RenderEntries
  import opened RenderPlanner
  import opened RenderSyntax
  import opened Sequences
  import opened TextEdits

  // ----- The list

  function EmailOf(c: Codec, v: Value): Option<string> { StringOf(c, v, "email") }

  predicate Removed(c: Codec, v: Value, removes: set<string>) {
    EmailOf(c, v).Some? && EmailOf(c, v).value in removes
  }

  function EditedEntry(c: Codec, v: Value, ids: map<string, string>): Value {
    match EmailOf(c, v)
    case None => v
    case Some(email) => if email in ids then SetId(c, v, ids[email]) else v
  }

  function ItemValues(items: Items): seq<Value> {
    match items
    case End(_) => []
    case Last(_, value, _) => [value]
    case More(_, value, _, rest) => [value] + ItemValues(rest)
  }

  /** The clients kept, their ids set. */
  function KeptValues(c: Codec, values: seq<Value>, removes: set<string>, ids: map<string, string>): seq<Value> {
    if values == [] then []
    else (if Removed(c, values[0], removes) then [] else [EditedEntry(c, values[0], ids)])
         + KeptValues(c, values[1..], removes, ids)
  }

  function EntryValues(c: Codec, ops: seq<ClientOp>): seq<Value> {
    seq(|ops|, i requires 0 <= i < |ops| => EntryValue(c, ops[i]))
  }

  // ----- The syntax tree

  function FirstBlank(items: Items): Blank {
    match items
    case End(blank) => blank
    case Last(before, _, _) => before
    case More(before, _, _, _) => before
  }

  /** The text of a list from its first value on. */
  function CoreText(items: Items): string {
    match items
    case End(_) => ""
    case Last(_, value, after) => ValueText(value) + BlankText(after)
    case More(_, value, after, rest) => ValueText(value) + (BlankText(after) + ("," + ItemsText(rest)))
  }

  lemma ItemsTextCore(items: Items)
    ensures ItemsText(items) == BlankText(FirstBlank(items)) + CoreText(items)
  {
    hide BlankText, ValueText;
  }

  function WithFirstBlank(items: Items, b: Blank): Items {
    match items
    case End(_) => End(b)
    case Last(_, value, after) => Last(b, value, after)
    case More(_, value, after, rest) => More(b, value, after, rest)
  }

  /** A value at the end of the list, and what is appended behind it. */
  function Appended(c: Codec, b: Blank, v: Value, a: Blank, last: Blank, sep: Blank, ops: seq<ClientOp>): Items {
    if ops == [] then Last(b, v, a + last) else More(b, v, a, EntriesItems(c, sep, sep, ops, last))
  }

  predicate LastRemoved(c: Codec, items: Items, removes: set<string>) {
    items.Last? && Removed(c, items.value, removes)
  }

  function EditedItems(c: Codec, items: Items, removes: set<string>, ids: map<string, string>, sep: Blank,
                       ops: seq<ClientOp>): Items {
    match items
    case End(_) => items
    case Last(b, v, a) =>
      if Removed(c, v, removes) then End(b + a) else Appended(c, b, EditedEntry(c, v, ids), [], a, sep, ops)
    case More(b, v, a, rest) =>
      if Removed(c, v, removes) then WithFirstBlank(EditedItems(c, rest, removes, ids, sep, ops), b)
      else if LastRemoved(c, rest, removes) then Appended(c, b, EditedEntry(c, v, ids), a, rest.after, sep, ops)
      else More(b, EditedEntry(c, v, ids), a, EditedItems(c, rest, removes, ids, sep, ops))
  }

  /** The two spans of a removed last entry and its removed predecessor overlap. */
  predicate NoLastPair(c: Codec, items: Items, removes: set<string>) {
    items.More? ==>
      && !(Removed(c, items.value, removes) && LastRemoved(c, items.rest, removes))
      && NoLastPair(c, items.rest, removes)
  }

  /** What the edits of a clients array need: see the four clauses of the source's caller. */
  predicate Editable(c: Codec, items: Items, removes: set<string>, ops: seq<ClientOp>) {
    && !items.End? && !Trailing(items)
    && NoLastPair(c, items, removes)
    && (LastRemoved(c, items, removes) ==> ops == [])
  }

  // ----- The edits

  function EntryEdits(c: Codec, v: Value, ids: map<string, string>, pos: nat): seq<TextEdit> {
    match EmailOf(c, v)
    case None => []
    case Some(email) => if email in ids && v.Object? then IdEdits(c, v, ids[email], pos) else []
  }

  function ItemEdits(c: Codec, items: Items, pos: nat, removes: set<string>, ids: map<string, string>): seq<TextEdit> {
    var start := pos + |BlankText(FirstBlank(items))|;
    match items
    case End(_) => []
    case Last(b, v, a) =>
      if Removed(c, v, removes) then [TextEdit(start, start + |ValueText(v)|, "")] else EntryEdits(c, v, ids, start)
    case More(b, v, a, rest) =>
      var next := RestPos(items, pos);
      var nextStart := next + |BlankText(FirstBlank(rest))|;
      if Removed(c, v, removes) then [TextEdit(start, nextStart, "")] + ItemEdits(c, rest, next, removes, ids)
      else if LastRemoved(c, rest, removes) then
        EntryEdits(c, v, ids, start) + [TextEdit(next - 1, nextStart + |ValueText(rest.value)|, "")]
      else EntryEdits(c, v, ids, start) + ItemEdits(c, rest, next, removes, ids)
  }

  function LastEnd(items: Items, pos: nat): nat {
    match items
    case End(_) => pos
    case Last(b, v, a) => pos + |BlankText(b)| + |ValueText(v)|
    case More(_, _, _, rest) => LastEnd(rest, RestPos(items, pos))
  }

  function TailText(c: Codec, sep: Blank, ops: seq<ClientOp>): string {
    if ops == [] then "" else "," + (BlankText(sep) + Join(EntryTexts(c, ops), "," + BlankText(sep)))
  }

  function TailEdits(c: Codec, sep: Blank, ops: seq<ClientOp>, at: nat): seq<TextEdit> {
    if ops == [] then [] else [TextEdit(at, at, TailText(c, sep, ops))]
  }

  lemma EntryEditsTo(c: Codec, v: Value, ids: map<string, string>, pos: nat)
    ensures EditsTo(ValueText(v), EntryEdits(c, v, ids, pos), pos, ValueText(EditedEntry(c, v, ids)))
  {
    hide EditsTo, IdEdits, SetId, FindProp;
    EditsToNothing(ValueText(v), pos);
    if EmailOf(c, v).Some? && EmailOf(c, v).value in ids {
      IdEditText(c, v, ids[EmailOf(c, v).value], pos);
    }
  }

  /** The appended entries go in behind the last value, before the blank that followed it. */
  lemma TailEditsTo(c: Codec, sep: Blank, ops: seq<ClientOp>, last: Blank, at: nat)
    ensures EditsTo(BlankText(last), TailEdits(c, sep, ops, at), at, TailText(c, sep, ops) + BlankText(last))
  {
    hide BlankText, EditsTo;
    var blank, tail := BlankText(last), TailText(c, sep, ops);
    if ops == [] {
      EditsToNothing(blank, at);
      assert "" + blank == blank;
    } else {
      EditsToWhole("", tail, at);
      assert TextEdit(at, at + |""|, tail) == TextEdit(at, at, tail);
      EditsToSuffix("", blank, TailEdits(c, sep, ops, at), at, tail);
      assert "" + blank == blank;
    }
  }

  lemma AppendedText(c: Codec, b: Blank, v: Value, a: Blank, last: Blank, sep: Blank, ops: seq<ClientOp>)
    ensures CoreText(Appended(c, b, v, a, last, sep, ops)) ==
            ValueText(v) + (BlankText(a) + (TailText(c, sep, ops) + BlankText(last)))
    ensures FirstBlank(Appended(c, b, v, a, last, sep, ops)) == b
    ensures !Appended(c, b, v, a, last, sep, ops).End?
  {
    hide BlankText, ValueText, EntriesItems, EntryTexts, Join;
    if ops == [] {
      BlankConcat(a, last);
      assert "" + BlankText(last) == BlankText(last);
    } else {
      EntriesText(c, sep, sep, ops, last);
      var s, joined := BlankText(sep), Join(EntryTexts(c, ops), "," + BlankText(sep));
      SeqAssociative(",", s + joined, BlankText(last));
      SeqAssociative(s, joined, BlankText(last));
    }
  }

  /** An entry goes together with the separator behind it. */
  lemma RemoveWithSeparator(v: string, a: string, blank: string, core: string, start: nat, edits: seq<TextEdit>,
                            core': string)
    requires EditsTo(core, edits, start + |v| + |a| + 1 + |blank|, core')
    ensures EditsTo(v + (a + ("," + (blank + core))), [TextEdit(start, start + |v| + |a| + 1 + |blank|, "")] + edits, start, core')
  {
    hide EditsTo;
    var head := v + (a + ("," + blank));
    EditsToWhole(head, "", start);
    EditsToConcat(head, core, [TextEdit(start, start + |head|, "")], edits, start, "", core');
    assert "" + core' == core';
    Concat4(v, a, ",", blank, core);
  }

  /** The last entry goes together with the separator before it; what is appended takes their place. */
  lemma RemoveLast(v: string, a: string, blank: string, gone: string, last: string, start: nat,
                   entryEdits: seq<TextEdit>, v': string, tail: seq<TextEdit>, last': string)
    requires EditsTo(v, entryEdits, start, v')
    requires EditsTo(last, tail, start + |v| + |a| + 1 + |blank| + |gone|, last')
    ensures EditsTo(v + (a + ("," + (blank + (gone + last)))),
                    entryEdits + [TextEdit(start + |v| + |a|, start + |v| + |a| + 1 + |blank| + |gone|, "")] + tail, start,
                    v' + (a + last'))
  {
    hide EditsTo;
    var cut := "," + (blank + gone);
    var removal := [TextEdit(start + |v| + |a|, start + |v| + |a| + |cut|, "")];
    EditsToWhole(cut, "", start + |v| + |a|);
    EditsToConcat(cut, last, removal, tail, start + |v| + |a|, "", last');
    assert "" + last' == last';
    EditsToPrefix(a, cut + last, removal + tail, start + |v|, last');
    EditsToConcat(v, a + (cut + last), entryEdits, removal + tail, start, v', a + last');
    SeqAssociative(",", blank + gone, last);
    SeqAssociative(blank, gone, last);
    assert entryEdits + (removal + tail) == entryEdits + removal + tail;
  }

  lemma KeepEntry(v: string, a: string, rest: string, start: nat, entryEdits: seq<TextEdit>, v': string,
                  edits: seq<TextEdit>, rest': string)
    requires EditsTo(v, entryEdits, start, v')
    requires EditsTo(rest, edits, start + |v| + |a| + 1, rest')
    ensures EditsTo(v + (a + ("," + rest)), entryEdits + edits, start, v' + (a + ("," + rest')))
  {
    hide EditsTo;
    EditsToPrefix(",", rest, edits, start + |v| + |a|, rest');
    EditsToPrefix(a, "," + rest, edits, start + |v|, "," + rest');
    EditsToConcat(v, a + ("," + rest), entryEdits, edits, start, v', a + ("," + rest'));
  }

  lemma {:induction false} MoreEditsTo(c: Codec, items: Items, pos: nat, removes: set<string>, ids: map<string, string>,
                                       sep: Blank, ops: seq<ClientOp>) returns (core: string)
    requires items.More? && Editable(c, items, removes, ops)
    ensures var start := pos + |BlankText(FirstBlank(items))|;
            var edits := ItemEdits(c, items, pos, removes, ids) + TailEdits(c, sep, ops, LastEnd(items, pos));
            EditsTo(CoreText(items), edits, start, core)
    ensures var edited := EditedItems(c, items, removes, ids, sep, ops);
            !edited.End? && FirstBlank(edited) == FirstBlank(items) && CoreText(edited) == core
    decreases items, 0
  {
    hide EditsTo, BlankText, ValueText, Removed, EntryEdits, EditedEntry, Appended, TailText, TailEdits;
    var More(b, v, a, rest) := items;
    var start, next := pos + |BlankText(b)|, RestPos(items, pos);
    var vt, at, blank := ValueText(v), BlankText(a), BlankText(FirstBlank(rest));
    var tail := TailEdits(c, sep, ops, LastEnd(rest, next));
    ItemsTextCore(rest);
    if LastRemoved(c, rest, removes) {
      var v' := EditedEntry(c, v, ids);
      EntryEditsTo(c, v, ids, start);
      TailEditsTo(c, sep, ops, rest.after, LastEnd(rest, next));
      RemoveLast(vt, at, blank, ValueText(rest.value), BlankText(rest.after), start,
                 EntryEdits(c, v, ids, start), ValueText(v'), tail, TailText(c, sep, ops) + BlankText(rest.after));
      AppendedText(c, b, v', a, rest.after, sep, ops);
      core := ValueText(v') + (at + (TailText(c, sep, ops) + BlankText(rest.after)));
    } else {
      var rest' := ItemEditsTo(c, rest, next, removes, ids, sep, ops);
      var edits := ItemEdits(c, rest, next, removes, ids) + tail;
      if Removed(c, v, removes) {
        RemoveWithSeparator(vt, at, blank, CoreText(rest), start, edits, rest');
        core := rest';
        var removal := [TextEdit(start, next + |blank|, "")];
        assert removal + edits == removal + ItemEdits(c, rest, next, removes, ids) + tail;
      } else {
        var v' := EditedEntry(c, v, ids);
        EntryEditsTo(c, v, ids, start);
        EditsToPrefix(blank, CoreText(rest), edits, next, rest');
        KeepEntry(vt, at, ItemsText(rest), start, EntryEdits(c, v, ids, start), ValueText(v'), edits, blank + rest');
        core := ValueText(v') + (at + ("," + (blank + rest')));
        ItemsTextCore(EditedItems(c, rest, removes, ids, sep, ops));
        assert EntryEdits(c, v, ids, start) + edits ==
               EntryEdits(c, v, ids, start) + ItemEdits(c, rest, next, removes, ids) + tail;
      }
    }
  }

  /** The planned edits turn the array's text into that of the edited list. */
  lemma {:induction false} ItemEditsTo(c: Codec, items: Items, pos: nat, removes: set<string>, ids: map<string, string>,
                                       sep: Blank, ops: seq<ClientOp>) returns (core: string)
    requires Editable(c, items, removes, ops)
    ensures var start := pos + |BlankText(FirstBlank(items))|;
            var edits := ItemEdits(c, items, pos, removes, ids) + TailEdits(c, sep, ops, LastEnd(items, pos));
            EditsTo(CoreText(items), edits, start, core)
    ensures var edited := EditedItems(c, items, removes, ids, sep, ops);
            if LastRemoved(c, items, removes) then ItemsText(edited) == BlankText(FirstBlank(items)) + core
            else !edited.End? && FirstBlank(edited) == FirstBlank(items) && CoreText(edited) == core
    decreases items, 1
  {
    hide EditsTo, BlankText, ValueText, Removed, EntryEdits, EditedEntry, Appended, TailText, TailEdits;
    var start := pos + |BlankText(FirstBlank(items))|;
    match items
    case Last(b, v, a) =>
      var tail := TailEdits(c, sep, ops, LastEnd(items, pos));
      TailEditsTo(c, sep, ops, a, LastEnd(items, pos));
      if Removed(c, v, removes) {
        core := RemoveOnly(c, b, v, a, start, sep);
      } else {
        EntryEditsTo(c, v, ids, start);
        AppendedText(c, b, EditedEntry(c, v, ids), [], a, sep, ops);
        OneSpace();
        core := ValueText(EditedEntry(c, v, ids)) + (TailText(c, sep, ops) + BlankText(a));
        assert "" + (TailText(c, sep, ops) + BlankText(a)) == TailText(c, sep, ops) + BlankText(a);
        EditsToConcat(ValueText(v), BlankText(a), EntryEdits(c, v, ids, start), tail, start,
                      ValueText(EditedEntry(c, v, ids)), TailText(c, sep, ops) + BlankText(a));
      }
    case More(b, v, a, rest) =>
      core := MoreEditsTo(c, items, pos, removes, ids, sep, ops);
  }

  lemma RemoveOnly(c: Codec, b: Blank, v: Value, a: Blank, start: nat, sep: Blank) returns (core: string)
    ensures core == BlankText(a)
    ensures EditsTo(ValueText(v) + BlankText(a), [TextEdit(start, start + |ValueText(v)|, "")] + TailEdits(c, sep, [], start + |ValueText(v)|), start, core)
    ensures ItemsText(End(b + a)) == BlankText(b) + core
  {
    hide EditsTo, BlankText, ValueText;
    core := BlankText(a);
    EditsToWhole(ValueText(v), "", start);
    EditsToSuffix(ValueText(v), BlankText(a), [TextEdit(start, start + |ValueText(v)|, "")], start, "");
    assert "" + BlankText(a) == BlankText(a);
    assert [TextEdit(start, start + |ValueText(v)|, "")] + [] == [TextEdit(start, start + |ValueText(v)|, "")];
    BlankConcat(b, a);
  }

  // ----- What the edited list holds

  lemma {:induction false} EntriesValues(c: Codec, first: Blank, sep: Blank, ops: seq<ClientOp>, after: Blank)
    requires ops != []
    ensures ItemValues(EntriesItems(c, first, sep, ops, after)) == EntryValues(c, ops)
    decreases |ops|
  {
    hide EntryValue;
    if |ops| > 1 {
      EntriesValues(c, sep, sep, ops[1..], after);
      assert EntryValues(c, ops) == [EntryValue(c, ops[0])] + EntryValues(c, ops[1..]);
    }
  }

  lemma AppendedValues(c: Codec, b: Blank, v: Value, a: Blank, last: Blank, sep: Blank, ops: seq<ClientOp>)
    ensures ItemValues(Appended(c, b, v, a, last, sep, ops)) == [v] + EntryValues(c, ops)
  {
    hide EntriesItems;
    if ops == [] {
      assert [v] + EntryValues(c, ops) == [v];
    } else {
      EntriesValues(c, sep, sep, ops, last);
    }
  }

  lemma KeptOne(c: Codec, v: Value, removes: set<string>, ids: map<string, string>)
    ensures KeptValues(c, [v], removes, ids) == if Removed(c, v, removes) then [] else [EditedEntry(c, v, ids)]
  {
    hide Removed, EditedEntry;
    assert [v][1..] == [];
    assert KeptValues(c, [], removes, ids) == [];
  }

  /** The edited array holds the kept clients, then the new ones. */
  lemma {:induction false} EditedValues(c: Codec, items: Items, removes: set<string>, ids: map<string, string>,
                                        sep: Blank, ops: seq<ClientOp>)
    requires Editable(c, items, removes, ops)
    ensures ItemValues(EditedItems(c, items, removes, ids, sep, ops)) ==
            KeptValues(c, ItemValues(items), removes, ids) + EntryValues(c, ops)
  {
    hide Removed, EditedEntry, Appended, EntryValues;
    var values, new' := ItemValues(items), EntryValues(c, ops);
    KeptOne(c, items.value, removes, ids);
    match items
    case Last(b, v, a) =>
      AppendedValues(c, b, EditedEntry(c, v, ids), [], a, sep, ops);
      if Removed(c, v, removes) {
        assert EntryValues(c, []) == [] by { NoEntries(c); }
        assert [] + new' == [];
      }
    case More(b, v, a, rest) =>
      assert values[1..] == ItemValues(rest);
      if LastRemoved(c, rest, removes) {
        AppendedValues(c, b, EditedEntry(c, v, ids), a, rest.after, sep, ops);
        KeptOne(c, rest.value, removes, ids);
        assert [EditedEntry(c, v, ids)] + [] == [EditedEntry(c, v, ids)];
      } else {
        EditedValues(c, rest, removes, ids, sep, ops);
        if Removed(c, v, removes) {
          assert [] + KeptValues(c, ItemValues(rest), removes, ids) == KeptValues(c, ItemValues(rest), removes, ids);
        }
        SnocCons([], EditedEntry(c, v, ids), KeptValues(c, ItemValues(rest), removes, ids));
        assert [EditedEntry(c, v, ids)] + (KeptValues(c, ItemValues(rest), removes, ids) + new') ==
               [EditedEntry(c, v, ids)] + KeptValues(c, ItemValues(rest), removes, ids) + new';
      }
  }

  lemma NoEntries(c: Codec)
    ensures EntryValues(c, []) == []
  {}

  lemma EditedEntryOk(c: Codec, v: Value, ids: map<string, string>)
    requires c.Valid() && ValueOk(c, v)
    ensures ValueOk(c, EditedEntry(c, v, ids))
  {
    hide SetId, ValueOk, Codec.Valid;
    if EmailOf(c, v).Some? && EmailOf(c, v).value in ids {
      SetIdOk(c, v, ids[EmailOf(c, v).value]);
    }
  }

  lemma AppendedOk(c: Codec, b: Blank, v: Value, a: Blank, last: Blank, sep: Blank, ops: seq<ClientOp>)
    requires c.Valid() && BlankOk(b) && ValueOk(c, v) && BlankOk(a) && BlankOk(last) && BlankOk(sep)
    ensures ItemsOk(c, Appended(c, b, v, a, last, sep, ops)) && !Trailing(Appended(c, b, v, a, last, sep, ops))
  {
    hide ValueOk, BlankOk, EntriesItems, Codec.Valid;
    BlankConcat(a, last);
    if ops != [] {
      EntriesOk(c, sep, sep, ops, last);
      EntriesNotEnd(c, sep, sep, ops, last);
    }
  }

  lemma EntriesNotEnd(c: Codec, first: Blank, sep: Blank, ops: seq<ClientOp>, after: Blank)
    requires ops != []
    ensures !EntriesItems(c, first, sep, ops, after).End?
  {}

  lemma {:induction false} EditedItemsOk(c: Codec, items: Items, removes: set<string>, ids: map<string, string>,
                                         sep: Blank, ops: seq<ClientOp>)
    requires c.Valid() && ItemsOk(c, items) && BlankOk(sep) && Editable(c, items, removes, ops)
    ensures var edited := EditedItems(c, items, removes, ids, sep, ops);
            && ItemsOk(c, edited) && !Trailing(edited)
            && (edited.End? <==> LastRemoved(c, items, removes))
  {
    hide ValueOk, BlankOk, Removed, EditedEntry, Appended, Codec.Valid;
    OneSpace();
    EditedEntryOk(c, items.value, ids);
    match items
    case Last(b, v, a) =>
      BlankConcat(b, a);
      AppendedOk(c, b, EditedEntry(c, v, ids), [], a, sep, ops);
      AppendedText(c, b, EditedEntry(c, v, ids), [], a, sep, ops);
    case More(b, v, a, rest) =>
      if LastRemoved(c, rest, removes) {
        AppendedOk(c, b, EditedEntry(c, v, ids), a, rest.after, sep, ops);
        AppendedText(c, b, EditedEntry(c, v, ids), a, rest.after, sep, ops);
      } else {
        EditedItemsOk(c, rest, removes, ids, sep, ops);
      }
  }
}
