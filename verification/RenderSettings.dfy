/** The settings of one inbound: their clients array edited, or a clients key inserted. */
module RenderSettings {
  import opened JsoncParser
  import opened JsoncSyntax
  import opened JsoncTrees
  import opened RenderArrays
  import opened RenderEntries
  import opened RenderLists
  import opened RenderOrder
  import opened RenderPlanner
  import opened Sequences
  import opened TextEdits

  // ----- Layout as blanks

  /** What goes before each entry appended to a non-empty array. */
  function Separation(document: string, clients: Node): string
    requires clients.items != []
  {
    if Multiline(document, clients.start, clients.end) then "\n" + LineIndent(document, clients.items[|clients.items| - 1].start)
    else " "
  }

  lemma SeparationIsBlank(document: string, clients: Node)
    requires clients.items != []
    ensures BlankText(Spaces(Separation(document, clients))) == Separation(document, clients)
    ensures BlankOk(Spaces(Separation(document, clients)))
  {
    SpacesText(Separation(document, clients));
  }

  /** A line break, an indent, and possibly two more spaces. */
  lemma LineBreakIsBlank(indent: string)
    requires forall k :: 0 <= k < |indent| ==> indent[k] == ' ' || indent[k] == '\t'
    ensures BlankText(Spaces("\n" + indent)) == "\n" + indent && BlankOk(Spaces("\n" + indent))
    ensures BlankText(Spaces("\n" + indent + "  ")) == "\n" + indent + "  " && BlankOk(Spaces("\n" + indent + "  "))
  {
    SpacesText("\n" + indent);
    SpacesText("\n" + indent + "  ");
  }

  // ----- An empty array

  /** An empty array with its first entries. */
  function Filled(c: Codec, document: string, clients: Node, blank: Blank, ops: seq<ClientOp>): Items
    requires ops != []
  {
    if Multiline(document, clients.start, clients.end) then
      var keyIndent := LineIndent(document, clients.start);
      var first := Spaces("\n" + keyIndent + "  ");
      EntriesItems(c, first, first, ops, Spaces("\n" + keyIndent) + blank)
    else EntriesItems(c, [], ONE_SPACE, ops, blank)
  }

  lemma FilledText(c: Codec, document: string, clients: Node, blank: Blank, ops: seq<ClientOp>)
    requires ops != [] && clients.items == []
    ensures ItemsText(Filled(c, document, clients, blank, ops)) == PlanAppend(c, document, clients, ops).text + BlankText(blank)
  {
    hide EntriesItems, BlankText, EntryTexts, Join, LineIndent;
    var entries := EntryTexts(c, ops);
    if Multiline(document, clients.start, clients.end) {
      var keyIndent := LineIndent(document, clients.start);
      IndentIsBlank(document, clients.start);
      LineBreakIsBlank(keyIndent);
      var first, last := "\n" + keyIndent + "  ", "\n" + keyIndent;
      EntriesText(c, Spaces(first), Spaces(first), ops, Spaces(last) + blank);
      BlankConcat(Spaces(last), blank);
      var joined := Join(entries, "," + first);
      assert ",\n" + keyIndent + "  " == "," + first;
      SeqAssociative(first, joined, last + BlankText(blank));
      SeqAssociative(first + joined, last, BlankText(blank));
      assert first + joined + "\n" + keyIndent == first + joined + last;
    } else {
      EntriesText(c, [], ONE_SPACE, ops, blank);
      OneSpace();
      assert "," + " " == ", ";
      assert "" + (Join(entries, ", ") + BlankText(blank)) == Join(entries, ", ") + BlankText(blank);
    }
  }

  lemma IndentIsBlank(document: string, pos: nat)
    ensures forall k :: 0 <= k < |LineIndent(document, pos)| ==> LineIndent(document, pos)[k] == ' ' || LineIndent(document, pos)[k] == '\t'
  {}

  lemma FilledOk(c: Codec, document: string, clients: Node, blank: Blank, ops: seq<ClientOp>)
    requires c.Valid() && ops != [] && BlankOk(blank)
    ensures ItemsOk(c, Filled(c, document, clients, blank, ops)) && !Trailing(Filled(c, document, clients, blank, ops))
    ensures ItemValues(Filled(c, document, clients, blank, ops)) == EntryValues(c, ops)
  {
    hide EntriesItems, BlankText, BlankOk, LineIndent, Codec.Valid;
    var keyIndent := LineIndent(document, clients.start);
    IndentIsBlank(document, clients.start);
    LineBreakIsBlank(keyIndent);
    OneSpace();
    BlankConcat(Spaces("\n" + keyIndent), blank);
    var first, last := Spaces("\n" + keyIndent + "  "), Spaces("\n" + keyIndent) + blank;
    EntriesOk(c, first, first, ops, last);
    EntriesOk(c, [], ONE_SPACE, ops, blank);
    EntriesValues(c, first, first, ops, last);
    EntriesValues(c, [], ONE_SPACE, ops, blank);
  }

  // ----- A clients array

  function EditedArray(c: Codec, document: string, items: Items, pos: nat, removes: seq<string>, sets: seq<ClientOp>,
                       ops: seq<ClientOp>): Items {
    var clients := TreeOf(c, Array(items), pos);
    if items.End? then if ops == [] then items else Filled(c, document, clients, items.blank, ops)
    else if clients.items == [] then items
    else EditedItems(c, items, SetOf(removes), IdsOf(sets), Spaces(Separation(document, clients)), ops)
  }

  predicate ArrayEditable(c: Codec, items: Items, removes: seq<string>, ops: seq<ClientOp>) {
    items.End? || Editable(c, items, SetOf(removes), ops)
  }

  /** The edits the source plans for one clients array. */
  function ArrayPlan(c: Codec, document: string, clients: Node, removes: seq<string>, sets: seq<ClientOp>,
                     ops: seq<ClientOp>): seq<TextEdit> {
    var byEmail := ByEmail(clients.items);
    RemovalEdits(clients, byEmail, removes) + SetEdits(c, clients, byEmail, sets)
    + if ops == [] then [] else [PlanAppend(c, document, clients, ops)]
  }

  lemma AppendIsTail(c: Codec, document: string, items: Items, pos: nat, ops: seq<ClientOp>)
    requires !items.End? && !Trailing(items) && ops != []
    ensures var clients := TreeOf(c, Array(items), pos);
            && clients.items != []
            && [PlanAppend(c, document, clients, ops)] ==
               TailEdits(c, Spaces(Separation(document, clients)), ops, LastEnd(items, pos + 1))
  {
    hide EntryTexts, Join, LineIndent, TreeOf, BlankText;
    var clients := TreeOf(c, Array(items), pos);
    TreeShape(c, Array(items), pos);
    LastNodeEnd(c, items, pos + 1);
    SeparationIsBlank(document, clients);
    var indent := LineIndent(document, clients.items[|clients.items| - 1].start);
    var sep := Separation(document, clients);
    var entries := EntryTexts(c, ops);
    if Multiline(document, clients.start, clients.end) {
      assert ",\n" + indent == "," + sep;
      SeqAssociative(",", sep, Join(entries, "," + sep));
    } else {
      assert ", " == "," + sep;
      SeqAssociative(",", sep, Join(entries, "," + sep));
    }
  }

  lemma ArraySuffix(c: Codec, items: Items, pos: nat)
    ensures Suffix(c, TreeOf(c, Array(items), pos), 0, items, pos + 1)
  {
    hide ItemNodes, Commas;
    TreeShape(c, Array(items), pos);
    var clients := TreeOf(c, Array(items), pos);
    assert clients.items[0..] == clients.items && clients.commas[0..] == clients.commas;
  }

  /** The planned edits of a clients array make the edited array of it. */
  lemma ArrayAchieves(c: Codec, document: string, items: Items, pos: nat, removes: seq<string>, sets: seq<ClientOp>,
                      ops: seq<ClientOp>)
    returns (edits: seq<TextEdit>)
    requires ArrayEditable(c, items, removes, ops)
    requires UniqueClients(c, ItemValues(items))
    requires NoRepeats(removes) && NoRepeats(EmailsOf(sets)) && forall e :: e in removes ==> e !in EmailsOf(sets)
    ensures Achieves(ValueText(Array(items)), ArrayPlan(c, document, TreeOf(c, Array(items), pos), removes, sets, ops), edits, pos,
                     ValueText(Array(EditedArray(c, document, items, pos, removes, sets, ops))))
  {
    hide TreeOf, Achieves, PlanAppend, ByEmail, RemovalEdits, SetEdits, ItemsText, Filled, EditedItems, UniqueEmails;
    TreeShape(c, Array(items), pos);
    EmailsOfNodes(c, items, pos + 1);
    if items.End? {
      edits := EmptyArrayAchieves(c, document, items.blank, pos, removes, sets, ops);
    } else {
      edits := FullArrayAchieves(c, document, items, pos, removes, sets, ops);
    }
  }

  lemma {:induction false} NoMatches(c: Codec, clients: Node, removes: seq<string>, sets: seq<ClientOp>)
    ensures RemovalEdits(clients, map[], removes) == [] && SetEdits(c, clients, map[], sets) == []
    decreases |removes| + |sets|
  {
    hide PlanEntryRemoval, PlanIdSet;
    if removes != [] {
      NoMatches(c, clients, removes[..|removes| - 1], sets);
    } else if sets != [] {
      NoMatches(c, clients, removes, sets[..|sets| - 1]);
    }
  }

  lemma EmptyArrayAchieves(c: Codec, document: string, blank: Blank, pos: nat, removes: seq<string>,
                           sets: seq<ClientOp>, ops: seq<ClientOp>)
    returns (edits: seq<TextEdit>)
    ensures var items := End(blank);
            Achieves(ValueText(Array(items)), ArrayPlan(c, document, TreeOf(c, Array(items), pos), removes, sets, ops), edits, pos,
                     ValueText(Array(EditedArray(c, document, items, pos, removes, sets, ops))))
  {
    hide TreeOf, EditsTo, RemovalEdits, SetEdits, Filled, BlankText;
    var items := End(blank);
    var clients := TreeOf(c, Array(items), pos);
    TreeShape(c, Array(items), pos);
    assert clients.items == [] && ByEmail(clients.items) == map[];
    NoMatches(c, clients, removes, sets);
    var text := BlankText(blank) + "]";
    assert ValueText(Array(items)) == "[" + text by { SeqAssociative("[", BlankText(blank), "]"); }
    if ops == [] {
      edits := [];
      AchievesNothing(ValueText(Array(items)), pos);
      assert ArrayPlan(c, document, clients, removes, sets, ops) == [];
    } else {
      var append := PlanAppend(c, document, clients, ops);
      edits := [append];
      assert ArrayPlan(c, document, clients, removes, sets, ops) == edits;
      AppendToEmpty(c, document, clients, ops);
      hide PlanAppend;
      FilledText(c, document, clients, blank, ops);
      EditsToWhole("", append.text, pos + 1);
      EditsToSuffix("", text, edits, pos + 1, append.text);
      assert "" + text == text;
      EditsToPrefix("[", text, edits, pos, append.text + text);
      SeqAssociative(append.text, BlankText(blank), "]");
      SeqAssociative("[", append.text + BlankText(blank), "]");
    }
  }

  lemma AppendToEmpty(c: Codec, document: string, clients: Node, ops: seq<ClientOp>)
    requires clients.items == []
    ensures PlanAppend(c, document, clients, ops).at == PlanAppend(c, document, clients, ops).end == clients.start + 1
  {}

  lemma FullArrayAchieves(c: Codec, document: string, items: Items, pos: nat, removes: seq<string>,
                          sets: seq<ClientOp>, ops: seq<ClientOp>)
    returns (edits: seq<TextEdit>)
    requires !items.End? && Editable(c, items, SetOf(removes), ops)
    requires UniqueClients(c, ItemValues(items))
    requires NoRepeats(removes) && NoRepeats(EmailsOf(sets)) && forall e :: e in removes ==> e !in EmailsOf(sets)
    ensures Achieves(ValueText(Array(items)), ArrayPlan(c, document, TreeOf(c, Array(items), pos), removes, sets, ops), edits, pos,
                     ValueText(Array(EditedArray(c, document, items, pos, removes, sets, ops))))
  {
    hide TreeOf, EditsTo, EditedItems, BlankText, ItemEdits, TailEdits, Ascends, ArrayPlan, UniqueClients, Editable, NoRepeats, EmailsOf;
    hide Separation, IdsOf, CoreText, LastEnd, ItemsText;
    var all, ids := SetOf(removes), IdsOf(sets);
    var clients := TreeOf(c, Array(items), pos);
    TreeShape(c, Array(items), pos);
    LastNodeEnd(c, items, pos + 1) by { EditableParts(c, items, all, ops); }
    var sep := Spaces(Separation(document, clients));
    PlanIsListEdits(c, document, items, pos, removes, sets, ops);
    edits := ItemEdits(c, items, pos + 1, all, ids) + TailEdits(c, sep, ops, LastEnd(items, pos + 1));
    var core := ListEditsAchieve(c, items, pos + 1, all, ids, sep, ops);
    ItemsTextCore(items);
    BracketedAchieves(BlankText(FirstBlank(items)), CoreText(items),
                      ArrayPlan(c, document, clients, removes, sets, ops), edits, pos, core);
  }

  lemma EditableParts(c: Codec, items: Items, removes: set<string>, ops: seq<ClientOp>)
    requires Editable(c, items, removes, ops)
    ensures !items.End? && !Trailing(items) && NoLastPair(c, items, removes)
  {}

  lemma PlanIsListEdits(c: Codec, document: string, items: Items, pos: nat, removes: seq<string>,
                        sets: seq<ClientOp>, ops: seq<ClientOp>)
    requires Editable(c, items, SetOf(removes), ops)
    requires UniqueClients(c, ItemValues(items))
    requires NoRepeats(removes) && NoRepeats(EmailsOf(sets)) && forall e :: e in removes ==> e !in EmailsOf(sets)
    ensures var clients := TreeOf(c, Array(items), pos);
            && clients.items != []
            && multiset(ArrayPlan(c, document, clients, removes, sets, ops)) ==
               multiset(ItemEdits(c, items, pos + 1, SetOf(removes), IdsOf(sets))
                        + TailEdits(c, Spaces(Separation(document, clients)), ops, LastEnd(items, pos + 1)))
  {
    hide TreeOf, RemovalEdits, SetEdits, ItemEdits, TailEdits, ByEmail, EditsFrom, PlanAppend, LastEnd, Suffix, UniqueClients, UniqueEmails;
    hide IdsOf, Separation, Editable, NoRepeats, EmailsOf, ItemNodes;
    EditableParts(c, items, SetOf(removes), ops);
    var clients := TreeOf(c, Array(items), pos);
    TreeShape(c, Array(items), pos);
    EmailsOfNodes(c, items, pos + 1);
    PlannedIsPermutation(c, clients, removes, sets);
    ArraySuffix(c, items, pos);
    EditsFromItems(c, clients, 0, items, pos + 1, SetOf(removes), IdsOf(sets));
    PlannedTail(c, document, items, pos, ops);
  }

  lemma ListEditsAchieve(c: Codec, items: Items, pos: nat, removes: set<string>, ids: map<string, string>,
                         sep: Blank, ops: seq<ClientOp>)
    returns (core: string)
    requires Editable(c, items, removes, ops)
    ensures var start, edits := pos + |BlankText(FirstBlank(items))|, ItemEdits(c, items, pos, removes, ids) + TailEdits(c, sep, ops, LastEnd(items, pos));
            && EditsTo(CoreText(items) + "]", edits, start, core + "]")
            && Ascends(edits, start, start + |CoreText(items) + "]"|)
    ensures ItemsText(EditedItems(c, items, removes, ids, sep, ops)) == BlankText(FirstBlank(items)) + core
  {
    hide EditsTo, EditedItems, BlankText, ItemEdits, TailEdits, Ascends, CoreText, LastEnd, ItemsText, Editable, LastRemoved;
    EditableParts(c, items, removes, ops);
    var start, last := pos + |BlankText(FirstBlank(items))|, LastEnd(items, pos);
    var own, tail := ItemEdits(c, items, pos, removes, ids), TailEdits(c, sep, ops, last);
    core := ItemEditsTo(c, items, pos, removes, ids, sep, ops);
    ItemsTextCore(items);
    ItemsTextCore(EditedItems(c, items, removes, ids, sep, ops));
    ItemEditsAscend(c, items, pos, removes, ids);
    TailAscends(c, sep, ops, last);
    AscendsConcat(own, tail, start, last, last + 1);
    AscendsWiden(own + tail, start, last + 1, start, start + |CoreText(items) + "]"|);
    EditsToSuffix(CoreText(items), "]", own + tail, start, core);
  }

  lemma PlannedTail(c: Codec, document: string, items: Items, pos: nat, ops: seq<ClientOp>)
    requires !items.End? && !Trailing(items)
    ensures var clients := TreeOf(c, Array(items), pos);
            && clients.items != []
            && (if ops == [] then [] else [PlanAppend(c, document, clients, ops)]) ==
               TailEdits(c, Spaces(Separation(document, clients)), ops, LastEnd(items, pos + 1))
  {
    hide TreeOf, PlanAppend, Separation, LastEnd, ItemNodes;
    TreeShape(c, Array(items), pos);
    LastNodeEnd(c, items, pos + 1);
    if ops != [] {
      AppendIsTail(c, document, items, pos, ops);
    }
  }

  lemma TailAscends(c: Codec, sep: Blank, ops: seq<ClientOp>, at: nat)
    ensures Ascends(TailEdits(c, sep, ops, at), at, at + 1)
  {}

  lemma BracketedAchieves(blank: string, core: string, planned: seq<TextEdit>, edits: seq<TextEdit>, pos: nat,
                          core': string)
    requires Achieves(core + "]", planned, edits, pos + 1 + |blank|, core' + "]")
    ensures Achieves("[" + (blank + core) + "]", planned, edits, pos, "[" + (blank + core') + "]")
  {
    hide Achieves;
    AchievesInside("[" + blank, core + "]", "", planned, edits, pos, core' + "]");
    assert "[" + blank + (core + "]") + "" == "[" + (blank + core) + "]";
    assert "[" + blank + (core' + "]") + "" == "[" + (blank + core') + "]";
  }
}
