/** A clients array that ends in a comma: the edits planned for it, and the array they make of it. */
module RenderTrailing {
  import opened JsoncParser
  import opened JsoncSpans
  import opened JsoncSyntax
  import opened JsoncTrees
  import opened Options
  import opened RenderArrays
  import opened RenderEntries
  import opened RenderLists
  import opened RenderOrder
  import opened RenderPairs
  import opened RenderPlanner
  import opened RenderSettings
  import opened Sequences
  import opened TextEdits
  import opened TextLandings

  lemma {:induction false} TrailingIsOpen(items: Items)
    ensures Trailing(items) <==> items.More? && Open(items)
    ensures items.More? && Open(items) ==> Open(items.rest)
  {
    if items.More? {
      TrailingIsOpen(items.rest);
    }
  }

  // ----- The text up to the last comma, and behind it

  /** The blank before the first value. */
  function Lead(items: Items): Blank { if items.End? then [] else items.before }

  /** From the first value through the last comma. */
  function OpenText(items: Items): string
    requires Open(items)
  {
    if items.End? then ""
    else ValueText(items.value) + (BlankText(items.after) + ("," + (BlankText(Lead(items.rest)) + OpenText(items.rest))))
  }

  function FinalBlank(items: Items): Blank
    requires Open(items)
  {
    if items.End? then items.blank else FinalBlank(items.rest)
  }

  /** Behind the last comma. */
  function OpenEnd(items: Items, pos: nat): nat
    requires Open(items)
  {
    if items.End? then pos else OpenEnd(items.rest, RestPos(items, pos))
  }

  lemma {:induction false} OpenParts(items: Items, pos: nat)
    requires Open(items)
    ensures ItemsText(items) == BlankText(Lead(items)) + (OpenText(items) + BlankText(FinalBlank(items)))
    ensures OpenEnd(items, pos) == pos + |BlankText(Lead(items))| + |OpenText(items)|
  {
    hide BlankText, ValueText;
    OneSpace();
    if items.End? {
      assert "" + ("" + BlankText(items.blank)) == BlankText(items.blank);
    } else {
      OpenParts(items.rest, RestPos(items, pos));
      var lead, open, last := BlankText(Lead(items.rest)), OpenText(items.rest), BlankText(FinalBlank(items.rest));
      Concat4(ValueText(items.value), BlankText(items.after), ",", lead + open, last);
      SeqAssociative(lead, open, last);
    }
  }

  // ----- Entries removed and rotated

  function OpenEdits(c: Codec, items: Items, pos: nat, removes: set<string>, ids: map<string, string>): seq<TextEdit>
    requires Open(items)
  {
    if items.End? then []
    else
      var start, next := pos + |BlankText(items.before)|, RestPos(items, pos);
      (if Removed(c, items.value, removes) then [TextEdit(start, next + |BlankText(Lead(items.rest))|, "")]
       else EntryEdits(c, items.value, ids, start))
      + OpenEdits(c, items.rest, next, removes, ids)
  }

  /** The kept entries, from the first value through the last comma. */
  function OpenCore(c: Codec, items: Items, removes: set<string>, ids: map<string, string>): string
    requires Open(items)
  {
    if items.End? then ""
    else if Removed(c, items.value, removes) then OpenCore(c, items.rest, removes, ids)
    else ValueText(EditedEntry(c, items.value, ids))
         + (BlankText(items.after) + ("," + (BlankText(Lead(items.rest)) + OpenCore(c, items.rest, removes, ids))))
  }

  /** The kept entries with another end of the list. */
  function OpenOnto(c: Codec, items: Items, b: Blank, removes: set<string>, ids: map<string, string>, t: Items): Items
    requires Open(items)
  {
    match items
    case End(_) => WithFirstBlank(t, b + FirstBlank(t))
    case More(_, v, a, rest) =>
      if Removed(c, v, removes) then OpenOnto(c, rest, b, removes, ids, t)
      else More(b, EditedEntry(c, v, ids), a, OpenOnto(c, rest, Lead(rest), removes, ids, t))
  }

  lemma {:induction false} OpenOntoText(c: Codec, items: Items, b: Blank, removes: set<string>, ids: map<string, string>, t: Items)
    requires Open(items)
    ensures ItemsText(OpenOnto(c, items, b, removes, ids, t)) == BlankText(b) + (OpenCore(c, items, removes, ids) + ItemsText(t))
    decreases items
  {
    hide BlankText, ValueText, Removed, EditedEntry;
    match items
    case End(_) =>
      var t' := WithFirstBlank(t, b + FirstBlank(t));
      ItemsTextCore(t);
      ItemsTextCore(t');
      BlankConcat(b, FirstBlank(t));
      SeqAssociative(BlankText(b), BlankText(FirstBlank(t)), CoreText(t));
      assert "" + ItemsText(t) == ItemsText(t);
    case More(_, value, after, rest) =>
      if Removed(c, value, removes) {
        OpenOntoText(c, rest, b, removes, ids, t);
      } else {
        OpenOntoText(c, rest, Lead(rest), removes, ids, t);
        var lead, core := BlankText(Lead(rest)), OpenCore(c, rest, removes, ids);
        Concat4(ValueText(EditedEntry(c, value, ids)), BlankText(after), ",", lead + core, ItemsText(t));
        SeqAssociative(lead, core, ItemsText(t));
      }
  }

  lemma {:induction false} OpenOntoValues(c: Codec, items: Items, b: Blank, removes: set<string>, ids: map<string, string>, t: Items)
    requires Open(items)
    ensures ItemValues(OpenOnto(c, items, b, removes, ids, t)) == KeptValues(c, ItemValues(items), removes, ids) + ItemValues(t)
    decreases items
  {
    hide Removed, EditedEntry;
    match items
    case End(_) =>
      assert [] + ItemValues(t) == ItemValues(t);
    case More(_, value, _, rest) =>
      assert ItemValues(items)[1..] == ItemValues(rest);
      var kept := KeptValues(c, ItemValues(rest), removes, ids);
      if Removed(c, value, removes) {
        OpenOntoValues(c, rest, b, removes, ids, t);
        assert [] + kept == kept;
      } else {
        OpenOntoValues(c, rest, Lead(rest), removes, ids, t);
        SeqAssociativeValues([EditedEntry(c, value, ids)], kept, ItemValues(t));
      }
  }

  lemma {:induction false} OpenOntoOk(c: Codec, items: Items, b: Blank, removes: set<string>, ids: map<string, string>, t: Items)
    requires c.Valid() && Open(items) && ItemsOk(c, items) && BlankOk(b) && ItemsOk(c, t)
    ensures ItemsOk(c, OpenOnto(c, items, b, removes, ids, t))
    decreases items
  {
    hide ValueOk, BlankOk, Removed, EditedEntry, Codec.Valid;
    match items
    case End(_) =>
      BlankConcat(b, FirstBlank(t));
    case More(_, value, _, rest) =>
      if Removed(c, value, removes) {
        OpenOntoOk(c, rest, b, removes, ids, t);
      } else {
        EditedEntryOk(c, value, ids);
        OneSpace();
        OpenOntoOk(c, rest, Lead(rest), removes, ids, t);
      }
  }

  lemma {:induction false} OpenEditsTo(c: Codec, items: Items, pos: nat, removes: set<string>, ids: map<string, string>)
    requires Open(items)
    ensures EditsTo(OpenText(items), OpenEdits(c, items, pos, removes, ids), pos + |BlankText(Lead(items))|, OpenCore(c, items, removes, ids))
    decreases items
  {
    hide EditsTo, BlankText, ValueText, Removed, EntryEdits, EditedEntry;
    if items.End? {
      EditsToNothing("", pos + |BlankText(Lead(items))|);
    } else {
      var rest, start, next := items.rest, pos + |BlankText(items.before)|, RestPos(items, pos);
      var v, a, lead := ValueText(items.value), BlankText(items.after), BlankText(Lead(rest));
      var edits, core := OpenEdits(c, rest, next, removes, ids), OpenCore(c, rest, removes, ids);
      OpenEditsTo(c, rest, next, removes, ids);
      if Removed(c, items.value, removes) {
        RemoveWithSeparator(v, a, lead, OpenText(rest), start, edits, core);
      } else {
        EntryEditsTo(c, items.value, ids, start);
        EditsToPrefix(lead, OpenText(rest), edits, next, core);
        KeepEntry(v, a, lead + OpenText(rest), start, EntryEdits(c, items.value, ids, start),
                  ValueText(EditedEntry(c, items.value, ids)), edits, lead + core);
      }
    }
  }

  /** The edits of one entry lie before the next. */
  lemma OwnEditsAscend(c: Codec, items: Items, pos: nat, removes: set<string>, ids: map<string, string>)
    requires Open(items) && items.More?
    ensures var start, next := pos + |BlankText(items.before)|, RestPos(items, pos);
            var own := if Removed(c, items.value, removes) then [TextEdit(start, next + |BlankText(Lead(items.rest))|, "")]
                       else EntryEdits(c, items.value, ids, start);
            start <= next && Ascends(own, start, next)
  {
    hide BlankText, ValueText, Ascends, EntryEdits, Removed;
    var start, next := pos + |BlankText(items.before)|, RestPos(items, pos);
    if Removed(c, items.value, removes) {
      OneEdit(start, next + |BlankText(Lead(items.rest))|, next);
    } else {
      EntryEditsAscend(c, items.value, ids, start);
      AscendsWiden(EntryEdits(c, items.value, ids, start), start, start + |ValueText(items.value)|, start, next);
    }
  }

  lemma {:induction false} OpenEditsAscend(c: Codec, items: Items, pos: nat, removes: set<string>, ids: map<string, string>)
    requires Open(items)
    ensures pos + |BlankText(Lead(items))| <= OpenEnd(items, pos)
    ensures Ascends(OpenEdits(c, items, pos, removes, ids), pos + |BlankText(Lead(items))|, OpenEnd(items, pos))
    decreases items
  {
    hide BlankText, ValueText, Ascends, EntryEdits, Removed, ItemsText, OpenText;
    if items.End? {
      NoneAscend(pos + |BlankText(Lead(items))|, pos);
      OneSpace();
    } else {
      var rest, start, next, end := items.rest, pos + |BlankText(items.before)|, RestPos(items, pos), OpenEnd(items, pos);
      var edits, lead := OpenEdits(c, rest, next, removes, ids), next + |BlankText(Lead(rest))|;
      OwnEditsAscend(c, items, pos, removes, ids);
      OpenEditsAscend(c, rest, next, removes, ids);
      var own := if Removed(c, items.value, removes) then [TextEdit(start, lead, "")] else EntryEdits(c, items.value, ids, start);
      AscendsWiden(edits, lead, end, next, end);
      AscendsConcat(own, edits, start, next, end);
    }
  }

  // ----- As planned

  lemma {:induction false} OpenCount(c: Codec, items: Items, pos: nat)
    requires Open(items)
    ensures |ItemNodes(c, items, pos)| == |Commas(items, pos)|
    ensures ItemNodes(c, items, pos) == [] <==> items.End?
  {
    hide TreeOf;
    if items.More? {
      OpenCount(c, items.rest, RestPos(items, pos));
    }
  }

  lemma OpenSuffix(c: Codec, clients: Node, index: nat, items: Items, pos: nat)
    requires Suffix(c, clients, index, items, pos) && Open(items)
    ensures index <= |clients.items| == |clients.commas|
    ensures items.End? <==> index == |clients.items|
    ensures items.More? ==>
              && Suffix(c, clients, index + 1, items.rest, RestPos(items, pos))
              && clients.items[index] == TreeOf(c, items.value, pos + |BlankText(items.before)|)
              && clients.commas[index] == CommaPos(items, pos)
  {
    hide TreeOf, ItemNodes, Commas;
    OpenCount(c, items, pos);
    assert |clients.items[index..]| == |clients.items| - index && |clients.commas[index..]| == |clients.commas| - index;
    if items.More? {
      SuffixStep(c, clients, index, items, pos);
    }
  }

  lemma RemovalSpan(c: Codec, clients: Node, index: nat, items: Items, pos: nat)
    requires Suffix(c, clients, index, items, pos) && Open(items) && items.More?
    ensures index < |clients.items|
    ensures PlanEntryRemoval(clients, index) ==
            TextEdit(pos + |BlankText(items.before)|, RestPos(items, pos) + |BlankText(Lead(items.rest))|, "")
  {
    hide TreeOf, Suffix, BlankText, ValueText;
    var rest, next := items.rest, RestPos(items, pos);
    OpenSuffix(c, clients, index, items, pos);
    OpenSuffix(c, clients, index + 1, rest, next);
    TreeShape(c, items.value, pos + |BlankText(items.before)|);
    OneSpace();
    if rest.More? {
      TreeShape(c, rest.value, next + |BlankText(rest.before)|);
    }
  }

  lemma {:induction false} EditsFromOpen(c: Codec, clients: Node, index: nat, items: Items, pos: nat,
                                         removes: set<string>, ids: map<string, string>)
    requires Suffix(c, clients, index, items, pos) && Open(items)
    ensures EditsFrom(c, clients, index, removes, ids) == OpenEdits(c, items, pos, removes, ids)
    decreases items
  {
    hide TreeOf, EditsAt, EntryEdits, Removed, Suffix, BlankText, ValueText, PlanEntryRemoval;
    OpenSuffix(c, clients, index, items, pos);
    if items.More? {
      var start, next := pos + |BlankText(items.before)|, RestPos(items, pos);
      if Removed(c, items.value, removes) {
        RemovedEditsAt(c, clients, index, removes, ids, items.value, start);
        RemovalSpan(c, clients, index, items, pos);
      } else {
        KeptEditsAt(c, clients, index, removes, ids, items.value, start);
      }
      EditsFromOpen(c, clients, index + 1, items.rest, next, removes, ids);
    }
  }

  // ----- The append

  /** Where entries are appended, and what goes before the first, between them, and behind the last. */
  datatype Layout = Layout(at: nat, first: string, between: string, last: string)

  /** On lines of their own before the line of the bracket, or behind the comma. */
  function AppendLayout(document: string, clients: Node): Layout
    requires clients.items != []
  {
    var last := clients.items[|clients.items| - 1];
    if Multiline(document, clients.start, clients.end) then
      var indent := LineIndent(document, last.start);
      Layout(LineStart(document, clients.end - 1), indent, "\n" + indent, "\n")
    else Layout(CommaAfter(document, last.end) + 1, " ", " ", "")
  }

  lemma AppendIs(c: Codec, document: string, clients: Node, ops: seq<ClientOp>)
    requires clients.items != [] && clients.trailing
    ensures var l := AppendLayout(document, clients);
            PlanAppend(c, document, clients, ops) ==
            TextEdit(l.at, l.at, l.first + (Join(EntryTexts(c, ops), "," + l.between) + l.last))
  {
    hide LineIndent, LineStart, CommaAfter, Multiline, Join, EntryTexts;
    var last, entries := clients.items[|clients.items| - 1], EntryTexts(c, ops);
    if Multiline(document, clients.start, clients.end) {
      var indent := LineIndent(document, last.start);
      assert ",\n" + indent == "," + ("\n" + indent);
      SeqAssociative(indent, Join(entries, ",\n" + indent), "\n");
    } else {
      assert ", " == "," + " ";
      assert Join(entries, ", ") + "" == Join(entries, ", ");
    }
  }

  lemma LayoutBlanks(document: string, clients: Node)
    requires clients.items != []
    ensures var l := AppendLayout(document, clients);
            && BlankText(Spaces(l.first)) == l.first && BlankOk(Spaces(l.first))
            && BlankText(Spaces(l.between)) == l.between && BlankOk(Spaces(l.between))
            && BlankText(Spaces(l.last)) == l.last && BlankOk(Spaces(l.last))
  {
    hide LineIndent, LineStart, CommaAfter, Multiline, BlankText, BlankOk;
    var last := clients.items[|clients.items| - 1];
    IndentIsBlank(document, last.start);
    var l := AppendLayout(document, clients);
    SpacesText(l.first);
    SpacesText(l.between);
    SpacesText(l.last);
  }

  /** The append goes behind the last comma, and into no comment. */
  ghost predicate AppendFits(c: Codec, document: string, items: Items, pos: nat)
    requires Open(items)
  {
    var clients, blank := TreeOf(c, Array(items), pos), BlankText(FinalBlank(items));
    && clients.items != []
    && var cut := AppendLayout(document, clients).at - OpenEnd(items, pos + 1);
       0 <= cut <= |blank| && IsBlank(blank[..cut]) && IsBlank(blank[cut..])
  }

  /** What then stands behind the last comma. */
  ghost function NewEnd(c: Codec, document: string, items: Items, pos: nat, ops: seq<ClientOp>): Items
    requires Open(items) && (ops != [] ==> AppendFits(c, document, items, pos))
  {
    if ops == [] then End(FinalBlank(items))
    else
      var l, blank := AppendLayout(document, TreeOf(c, Array(items), pos)), BlankText(FinalBlank(items));
      var cut := l.at - OpenEnd(items, pos + 1);
      EntriesItems(c, BlankOf(blank[..cut]) + Spaces(l.first), Spaces(l.between), ops, Spaces(l.last) + BlankOf(blank[cut..]))
  }

  /** The array the planned edits make. */
  ghost function OpenEdited(c: Codec, document: string, items: Items, pos: nat, removes: set<string>, ids: map<string, string>,
                            ops: seq<ClientOp>): Items
    requires Open(items) && (ops != [] ==> AppendFits(c, document, items, pos))
  {
    OpenOnto(c, items, Lead(items), removes, ids, NewEnd(c, document, items, pos, ops))
  }

  function AppendEdits(c: Codec, document: string, clients: Node, ops: seq<ClientOp>): seq<TextEdit> {
    if ops == [] then [] else [PlanAppend(c, document, clients, ops)]
  }

  lemma NewEndText(p: string, first: string, joined: string, last: string, s: string)
    ensures (p + first) + (joined + (last + s)) == p + ((first + (joined + last)) + s)
  {}

  lemma InsertAchieves(p: string, s: string, text: string, at: nat)
    requires s != ""
    ensures var edits := [TextEdit(at + |p|, at + |p|, text)]; Achieves(p + s, edits, edits, at, p + (text + s))
  {
    var edits := [TextEdit(at + |p|, at + |p|, text)];
    EditsToWhole("", text, at + |p|);
    assert TextEdit(at + |p|, at + |p| + |""|, text) == edits[0];
    EditsToSuffix("", s, edits, at + |p|, text);
    assert "" + s == s;
    EditsToPrefix(p, s, edits, at, text + s);
  }

  /** What is planned behind the last comma makes the new end. */
  lemma EndAchieves(c: Codec, document: string, items: Items, pos: nat, ops: seq<ClientOp>)
    requires Open(items) && items.More? && (ops != [] ==> AppendFits(c, document, items, pos))
    ensures var edits := AppendEdits(c, document, TreeOf(c, Array(items), pos), ops);
            Achieves(BlankText(FinalBlank(items)) + "]", edits, edits, OpenEnd(items, pos + 1),
                     ItemsText(NewEnd(c, document, items, pos, ops)) + "]")
  {
    hide TreeOf, BlankText, Achieves, EntriesItems, EntryTexts, Join, AppendLayout, PlanAppend, IsBlank, ItemsText, OpenEnd, FinalBlank;
    var clients, blank, end := TreeOf(c, Array(items), pos), BlankText(FinalBlank(items)), OpenEnd(items, pos + 1);
    TrailingIsOpen(items);
    TreeShape(c, Array(items), pos);
    if ops == [] {
      AchievesNothing(blank + "]", end);
      EndOkText(FinalBlank(items));
    } else {
      var l := AppendLayout(document, clients);
      var cut := l.at - end;
      var p, s, joined := blank[..cut], blank[cut..], Join(EntryTexts(c, ops), "," + l.between);
      AppendIs(c, document, clients, ops);
      LayoutBlanks(document, clients);
      BlankConcat(BlankOf(p), Spaces(l.first));
      BlankConcat(Spaces(l.last), BlankOf(s));
      EntriesText(c, BlankOf(p) + Spaces(l.first), Spaces(l.between), ops, Spaces(l.last) + BlankOf(s));
      NewEndText(p, l.first, joined, l.last, s);
      var text := l.first + (joined + l.last);
      InsertAchieves(p, s + "]", text, end);
      assert blank == p + s;
      SeqAssociative(p, s, "]");
      SeqAssociative(p, text + s, "]");
      SeqAssociative(text, s, "]");
    }
  }

  lemma OpenPlan(c: Codec, document: string, items: Items, pos: nat, removes: seq<string>, sets: seq<ClientOp>, ops: seq<ClientOp>)
    requires Open(items) && UniqueClients(c, ItemValues(items))
    requires NoRepeats(removes) && NoRepeats(EmailsOf(sets)) && forall e :: e in removes ==> e !in EmailsOf(sets)
    ensures var clients := TreeOf(c, Array(items), pos);
            multiset(ArrayPlan(c, document, clients, removes, sets, ops)) ==
            multiset(OpenEdits(c, items, pos + 1, SetOf(removes), IdsOf(sets)) + AppendEdits(c, document, clients, ops))
  {
    hide TreeOf, RemovalEdits, SetEdits, ByEmail, EditsFrom, PlanAppend, Suffix, UniqueClients, OpenEdits;
    hide UniqueEmails, IdsOf, SetOf, NoRepeats, EmailsOf, ItemNodes, ItemValues;
    var clients := TreeOf(c, Array(items), pos);
    TreeShape(c, Array(items), pos);
    EmailsOfNodes(c, items, pos + 1);
    PlannedIsPermutation(c, clients, removes, sets);
    ArraySuffix(c, items, pos);
    EditsFromOpen(c, clients, 0, items, pos + 1, SetOf(removes), IdsOf(sets));
  }

  /** Whatever the append makes of the text behind the last comma, the planned edits make that and the kept entries. */
  lemma EndLands(c: Codec, document: string, items: Items, pos: nat, removes: seq<string>, sets: seq<ClientOp>, ops: seq<ClientOp>,
                 end: Items)
    requires Open(items) && UniqueClients(c, ItemValues(items))
    requires NoRepeats(removes) && NoRepeats(EmailsOf(sets)) && forall e :: e in removes ==> e !in EmailsOf(sets)
    requires var edits := AppendEdits(c, document, TreeOf(c, Array(items), pos), ops);
             Achieves(BlankText(FinalBlank(items)) + "]", edits, edits, OpenEnd(items, pos + 1), ItemsText(end) + "]")
    ensures Lands(ValueText(Array(items)), ArrayPlan(c, document, TreeOf(c, Array(items), pos), removes, sets, ops), pos,
                  ValueText(Array(OpenOnto(c, items, Lead(items), SetOf(removes), IdsOf(sets), end))))
  {
    hide TreeOf, ArrayPlan, UniqueClients, ItemValues, IdsOf, SetOf, NoRepeats, EmailsOf, OpenEdits, OpenCore, Lands, EditsTo, Ascends;
    hide BlankText, ItemsText, OpenText, OpenOnto, AppendEdits, Open;
    var all, ids, clients := SetOf(removes), IdsOf(sets), TreeOf(c, Array(items), pos);
    var lead, blank, core := BlankText(Lead(items)), BlankText(FinalBlank(items)), OpenCore(c, items, all, ids);
    var own, tail := OpenEdits(c, items, pos + 1, all, ids), AppendEdits(c, document, clients, ops);
    OpenParts(items, pos + 1);
    OpenOntoText(c, items, Lead(items), all, ids, end);
    OpenPlan(c, document, items, pos, removes, sets, ops);
    OpenEditsTo(c, items, pos + 1, all, ids);
    OpenEditsAscend(c, items, pos + 1, all, ids);
    AchievesConcat(OpenText(items), blank + "]", own, tail, own, tail, pos + 1 + |lead|, core, ItemsText(end) + "]");
    var planned := ArrayPlan(c, document, clients, removes, sets, ops);
    InBrackets(lead, OpenText(items), blank, planned, own + tail, pos, core, ItemsText(end));
    AchievesLands(ValueText(Array(items)), planned, own + tail, pos,
                  ValueText(Array(OpenOnto(c, items, Lead(items), all, ids, end))));
  }

  /** However they are sorted, the planned edits make that array of it, wherever it stands. */
  lemma TrailingLands(c: Codec, document: string, items: Items, pos: nat, removes: seq<string>, sets: seq<ClientOp>, ops: seq<ClientOp>)
    requires Open(items) && items.More? && UniqueClients(c, ItemValues(items)) && (ops != [] ==> AppendFits(c, document, items, pos))
    requires NoRepeats(removes) && NoRepeats(EmailsOf(sets)) && forall e :: e in removes ==> e !in EmailsOf(sets)
    ensures Lands(ValueText(Array(items)), ArrayPlan(c, document, TreeOf(c, Array(items), pos), removes, sets, ops), pos,
                  ValueText(Array(OpenEdited(c, document, items, pos, SetOf(removes), IdsOf(sets), ops))))
  {
    hide TreeOf, ArrayPlan, UniqueClients, ItemValues, IdsOf, SetOf, NoRepeats, EmailsOf, AppendFits, NewEnd, Lands, Achieves, BlankText;
    hide ItemsText, OpenOnto, AppendEdits, Open;
    EndAchieves(c, document, items, pos, ops);
    EndLands(c, document, items, pos, removes, sets, ops, NewEnd(c, document, items, pos, ops));
  }

  lemma InBrackets(lead: string, open: string, blank: string, planned: seq<TextEdit>, edits: seq<TextEdit>, pos: nat,
                   core: string, end: string)
    requires Achieves(open + (blank + "]"), edits, edits, pos + 1 + |lead|, core + (end + "]"))
    requires multiset(planned) == multiset(edits)
    ensures Achieves("[" + (lead + (open + blank)) + "]", planned, edits, pos, "[" + (lead + (core + end)) + "]")
  {
    hide Ascends, EditsTo;
    AchievesInside("[" + lead, open + (blank + "]"), "", planned, edits, pos, core + (end + "]"));
    assert "[" + lead + (open + (blank + "]")) + "" == "[" + (lead + (open + blank)) + "]";
    assert "[" + lead + (core + (end + "]")) + "" == "[" + (lead + (core + end)) + "]";
  }

  /** It is well formed, and holds the kept entries and then the new ones. */
  lemma OpenEditedOk(c: Codec, document: string, items: Items, pos: nat, removes: set<string>, ids: map<string, string>, ops: seq<ClientOp>)
    requires c.Valid() && Open(items) && items.More? && ItemsOk(c, items) && (ops != [] ==> AppendFits(c, document, items, pos))
    ensures var now := OpenEdited(c, document, items, pos, removes, ids, ops);
            ItemsOk(c, now) && ItemValues(now) == KeptValues(c, ItemValues(items), removes, ids) + EntryValues(c, ops)
  {
    hide BlankText, BlankOk, KeptValues, EntriesItems, EntryValues, AppendLayout, OpenOnto, IsBlank, Codec.Valid, ValueOk, TreeOf, OpenEnd;
    hide FinalBlank;
    var end := NewEnd(c, document, items, pos, ops);
    ListBlankOk(c, items);
    FinalBlankOk(c, items);
    if ops == [] {
      EndOk(c, FinalBlank(items));
      NoEntries(c);
    } else {
      var l, blank := AppendLayout(document, TreeOf(c, Array(items), pos)), BlankText(FinalBlank(items));
      var cut := l.at - OpenEnd(items, pos + 1);
      var p, s := BlankOf(blank[..cut]), BlankOf(blank[cut..]);
      LayoutBlanks(document, TreeOf(c, Array(items), pos));
      BlankConcat(p, Spaces(l.first));
      BlankConcat(Spaces(l.last), s);
      EntriesOk(c, p + Spaces(l.first), Spaces(l.between), ops, Spaces(l.last) + s);
      EntriesValues(c, p + Spaces(l.first), Spaces(l.between), ops, Spaces(l.last) + s);
    }
    OpenOntoOk(c, items, Lead(items), removes, ids, end);
    OpenOntoValues(c, items, Lead(items), removes, ids, end);
  }

  lemma {:induction false} FinalBlankOk(c: Codec, items: Items)
    requires ItemsOk(c, items) && Open(items)
    ensures BlankOk(FinalBlank(items))
  {
    hide ValueOk, BlankOk;
    if items.More? {
      FinalBlankOk(c, items.rest);
    }
  }
}
