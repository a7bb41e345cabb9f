/** A clients array whose final entry is to be removed together with its predecessor. */
module RenderPairs {
  import opened JsoncParser
  import opened JsoncSyntax
  import opened JsoncTrees
  import opened Options
  import opened RenderArrays
  import opened RenderEntries
  import opened RenderLists
  import opened RenderOrder
  import opened RenderPlanner
  import opened RenderSettings
  import opened Sequences
  import opened TextEdits
  import opened TextLandings

  /** The list holds at least two entries, and the final two are removed. */
  predicate PairRemoved(c: Codec, items: Items, removes: set<string>) {
    && items.More? && !items.rest.End?
    && if items.rest.Last? then Removed(c, items.value, removes) && Removed(c, items.rest.value, removes)
       else PairRemoved(c, items.rest, removes)
  }

  lemma {:induction false} PairIsNoLastPair(c: Codec, items: Items, removes: set<string>)
    requires !items.End? && !Trailing(items)
    ensures PairRemoved(c, items, removes) <==> !NoLastPair(c, items, removes)
    decreases items
  {
    hide Removed;
    if items.More? && items.rest.More? {
      PairIsNoLastPair(c, items.rest, removes);
    }
  }

  /** The final two entries. */
  function Pair(c: Codec, items: Items, removes: set<string>): (pair: Items)
    requires PairRemoved(c, items, removes)
    ensures pair.More? && pair.rest.Last?
  {
    if items.rest.Last? then items else Pair(c, items.rest, removes)
  }

  // ----- What stands before the pair

  /** From the first value on. */
  function HeadCore(c: Codec, items: Items, removes: set<string>): string
    requires PairRemoved(c, items, removes)
    decreases items, 0
  {
    if items.rest.Last? then ""
    else ValueText(items.value) + (BlankText(items.after) + ("," + HeadText(c, items.rest, removes)))
  }

  function HeadText(c: Codec, items: Items, removes: set<string>): string
    requires PairRemoved(c, items, removes)
    decreases items, 1
  {
    BlankText(items.before) + HeadCore(c, items, removes)
  }

  function PairStart(c: Codec, items: Items, pos: nat, removes: set<string>): nat
    requires PairRemoved(c, items, removes)
  {
    pos + |HeadText(c, items, removes)|
  }

  function HeadEdits(c: Codec, items: Items, pos: nat, removes: set<string>, ids: map<string, string>): seq<TextEdit>
    requires PairRemoved(c, items, removes)
  {
    if items.rest.Last? then []
    else
      var start, next := pos + |BlankText(items.before)|, RestPos(items, pos);
      var own := if Removed(c, items.value, removes) then [TextEdit(start, next + |BlankText(items.rest.before)|, "")]
                 else EntryEdits(c, items.value, ids, start);
      own + HeadEdits(c, items.rest, next, removes, ids)
  }

  /** The kept entries before the pair, from the first value on. */
  function KeptCore(c: Codec, items: Items, removes: set<string>, ids: map<string, string>): string
    requires PairRemoved(c, items, removes)
  {
    if items.rest.Last? then ""
    else if Removed(c, items.value, removes) then KeptCore(c, items.rest, removes, ids)
    else ValueText(EditedEntry(c, items.value, ids))
         + (BlankText(items.after) + ("," + (BlankText(items.rest.before) + KeptCore(c, items.rest, removes, ids))))
  }

  /** The kept entries with another end of the list. */
  function KeptOnto(c: Codec, items: Items, b: Blank, removes: set<string>, ids: map<string, string>, t: Items): Items
    requires PairRemoved(c, items, removes)
    decreases items
  {
    if items.rest.Last? then WithFirstBlank(t, b + FirstBlank(t))
    else if Removed(c, items.value, removes) then KeptOnto(c, items.rest, b, removes, ids, t)
    else More(b, EditedEntry(c, items.value, ids), items.after, KeptOnto(c, items.rest, items.rest.before, removes, ids, t))
  }

  lemma {:induction false} KeptOntoText(c: Codec, items: Items, b: Blank, removes: set<string>,
                                        ids: map<string, string>, t: Items)
    requires PairRemoved(c, items, removes)
    ensures ItemsText(KeptOnto(c, items, b, removes, ids, t)) == BlankText(b) + (KeptCore(c, items, removes, ids) + ItemsText(t))
    decreases items
  {
    hide BlankText, ValueText, Removed, EditedEntry, PairRemoved;
    assert items.More? by { PairShape(c, items, removes); }
    if items.rest.Last? {
      var t' := WithFirstBlank(t, b + FirstBlank(t));
      ItemsTextCore(t);
      ItemsTextCore(t');
      BlankConcat(b, FirstBlank(t));
      SeqAssociative(BlankText(b), BlankText(FirstBlank(t)), CoreText(t));
      assert "" + ItemsText(t) == ItemsText(t);
    } else {
      PairShape(c, items, removes);
      var rest := items.rest;
      if Removed(c, items.value, removes) {
        KeptOntoText(c, rest, b, removes, ids, t);
      } else {
        KeptOntoText(c, rest, rest.before, removes, ids, t);
        var v, a, b', core := ValueText(EditedEntry(c, items.value, ids)), BlankText(items.after), BlankText(rest.before), KeptCore(c, rest, removes, ids);
        Concat4(v, a, ",", b' + core, ItemsText(t));
        SeqAssociative(b', core, ItemsText(t));
      }
    }
  }

  lemma PairShape(c: Codec, items: Items, removes: set<string>)
    requires PairRemoved(c, items, removes)
    ensures items.More? && !items.rest.End? && (!items.rest.Last? ==> PairRemoved(c, items.rest, removes) && items.rest.More?)
    ensures items.rest.Last? ==> Removed(c, items.value, removes) && Removed(c, items.rest.value, removes)
  {
    hide Removed;
  }

  lemma {:induction false} KeptOntoValues(c: Codec, items: Items, b: Blank, removes: set<string>,
                                          ids: map<string, string>, t: Items)
    requires PairRemoved(c, items, removes)
    ensures ItemValues(KeptOnto(c, items, b, removes, ids, t)) == KeptValues(c, ItemValues(items), removes, ids) + ItemValues(t)
    decreases items
  {
    hide Removed, EditedEntry, PairRemoved;
    PairShape(c, items, removes);
    var values, rest := ItemValues(items), items.rest;
    assert values[1..] == ItemValues(rest);
    if rest.Last? {
      KeptOne(c, rest.value, removes, ids);
      assert [] + ([] + ItemValues(t)) == ItemValues(t);
    } else if Removed(c, items.value, removes) {
      KeptOntoValues(c, rest, b, removes, ids, t);
      assert [] + KeptValues(c, ItemValues(rest), removes, ids) == KeptValues(c, ItemValues(rest), removes, ids);
    } else {
      KeptOntoValues(c, rest, rest.before, removes, ids, t);
      SeqAssociativeValues([EditedEntry(c, items.value, ids)], KeptValues(c, ItemValues(rest), removes, ids), ItemValues(t));
    }
  }

  lemma SeqAssociativeValues(a: seq<Value>, b: seq<Value>, d: seq<Value>)
    ensures a + b + d == a + (b + d)
  {}

  lemma {:induction false} KeptOntoOk(c: Codec, items: Items, b: Blank, removes: set<string>,
                                      ids: map<string, string>, t: Items)
    requires c.Valid() && PairRemoved(c, items, removes) && ItemsOk(c, items) && BlankOk(b) && ItemsOk(c, t)
    ensures ItemsOk(c, KeptOnto(c, items, b, removes, ids, t))
    decreases items
  {
    hide ValueOk, BlankOk, Removed, EditedEntry, PairRemoved, Codec.Valid;
    PairShape(c, items, removes);
    if items.rest.Last? {
      BlankConcat(b, FirstBlank(t));
    } else if Removed(c, items.value, removes) {
      KeptOntoOk(c, items.rest, b, removes, ids, t);
    } else {
      EditedEntryOk(c, items.value, ids);
      KeptOntoOk(c, items.rest, items.rest.before, removes, ids, t);
    }
  }

  // ----- The edits before the pair

  lemma {:induction false} HeadEditsTo(c: Codec, items: Items, pos: nat, removes: set<string>, ids: map<string, string>)
    requires PairRemoved(c, items, removes)
    ensures var start := pos + |BlankText(items.before)|;
            EditsTo(HeadCore(c, items, removes), HeadEdits(c, items, pos, removes, ids), start, KeptCore(c, items, removes, ids))
    decreases items
  {
    hide EditsTo, BlankText, ValueText, Removed, EntryEdits, EditedEntry, PairRemoved;
    PairShape(c, items, removes);
    var start, rest := pos + |BlankText(items.before)|, items.rest;
    if rest.Last? {
      EditsToNothing("", start);
    } else {
      var next := RestPos(items, pos);
      var v, a, b := ValueText(items.value), BlankText(items.after), BlankText(rest.before);
      var edits, core, core' := HeadEdits(c, rest, next, removes, ids), HeadCore(c, rest, removes), KeptCore(c, rest, removes, ids);
      HeadEditsTo(c, rest, next, removes, ids);
      if Removed(c, items.value, removes) {
        RemoveWithSeparator(v, a, b, core, start, edits, core');
      } else {
        EntryEditsTo(c, items.value, ids, start);
        EditsToPrefix(b, core, edits, next, core');
        KeepEntry(v, a, b + core, start, EntryEdits(c, items.value, ids, start), ValueText(EditedEntry(c, items.value, ids)), edits, b + core');
      }
    }
  }

  lemma HeadLength(c: Codec, items: Items, pos: nat, removes: set<string>)
    requires PairRemoved(c, items, removes) && !items.rest.Last?
    ensures PairStart(c, items, pos, removes) == PairStart(c, items.rest, RestPos(items, pos), removes)
  {
    hide BlankText, ValueText, Removed;
    var head := HeadText(c, items.rest, removes);
    assert HeadCore(c, items, removes) == ValueText(items.value) + (BlankText(items.after) + ("," + head));
    assert HeadText(c, items, removes) == BlankText(items.before) + HeadCore(c, items, removes);
  }

  lemma {:induction false} HeadEditsAscend(c: Codec, items: Items, pos: nat, removes: set<string>,
                                           ids: map<string, string>)
    requires PairRemoved(c, items, removes)
    ensures Ascends(HeadEdits(c, items, pos, removes, ids), pos + |BlankText(items.before)|, PairStart(c, items, pos, removes))
    ensures pos + |BlankText(items.before)| <= PairStart(c, items, pos, removes)
    decreases items
  {
    hide BlankText, ValueText, Ascends, EntryEdits, Removed, PairRemoved, HeadText;
    PairShape(c, items, removes);
    HeadStarts(c, items, pos, removes);
    var start, rest := pos + |BlankText(items.before)|, items.rest;
    if rest.Last? {
      NoneAscend(start, PairStart(c, items, pos, removes));
    } else {
      var next, last := RestPos(items, pos), PairStart(c, items, pos, removes);
      HeadLength(c, items, pos, removes);
      HeadEditsAscend(c, rest, next, removes, ids);
      EntryEditsAscend(c, items.value, ids, start);
      var own := if Removed(c, items.value, removes) then [TextEdit(start, next + |BlankText(rest.before)|, "")] else EntryEdits(c, items.value, ids, start);
      if Removed(c, items.value, removes) {
        OneEdit(start, next + |BlankText(rest.before)|, next);
      } else {
        AscendsWiden(own, start, start + |ValueText(items.value)|, start, next);
      }
      var edits := HeadEdits(c, rest, next, removes, ids);
      AscendsWiden(edits, next + |BlankText(rest.before)|, last, next, last);
      AscendsConcat(own, edits, start, next, last);
    }
  }

  lemma HeadStarts(c: Codec, items: Items, pos: nat, removes: set<string>)
    requires PairRemoved(c, items, removes)
    ensures pos + |BlankText(items.before)| <= PairStart(c, items, pos, removes)
  {}

  lemma NoneAscend(low: nat, high: nat)
    ensures Ascends([], low, high)
  {}

  // ----- The pair

  /** The removals of the final two entries, as the planner has them; the first reaches into the second. */
  function First(pair: Items, start: nat): TextEdit
    requires pair.More? && pair.rest.Last?
  {
    TextEdit(start, Comma(pair, start) + 1 + |BlankText(pair.rest.before)|, "")
  }

  function Second(pair: Items, start: nat): TextEdit
    requires pair.More? && pair.rest.Last?
  {
    TextEdit(Comma(pair, start), Comma(pair, start) + 1 + |BlankText(pair.rest.before)| + |ValueText(pair.rest.value)|, "")
  }

  function Comma(pair: Items, start: nat): nat
    requires pair.More?
  {
    start + |ValueText(pair.value)| + |BlankText(pair.after)|
  }

  /** What the two removals take twice: the comma between the entries and the blank behind it. */
  function Overlap(pair: Items): nat
    requires pair.More? && pair.rest.Last?
  {
    1 + |BlankText(pair.rest.before)|
  }

  function PairText(pair: Items): string
    requires pair.More? && pair.rest.Last?
  {
    ValueText(pair.value) + (BlankText(pair.after) + ("," + (BlankText(pair.rest.before) + ValueText(pair.rest.value))))
  }

  lemma PairOverlaps(c: Codec, pair: Items, start: nat, removes: set<string>)
    requires PairRemoved(c, pair, removes) && pair.rest.Last?
    ensures var first, second := First(pair, start), Second(pair, start);
            && first.at < second.at < first.end <= second.end && first.end - second.at == Overlap(pair)
            && second.end == start + |PairText(pair)|
  {
    RemovedHasText(c, pair.value, removes);
    RemovedHasText(c, pair.rest.value, removes);
  }

  lemma {:induction false} TextWithPair(c: Codec, items: Items, removes: set<string>)
    requires PairRemoved(c, items, removes)
    ensures var pair := Pair(c, items, removes);
            ItemsText(items) == HeadText(c, items, removes) + (PairText(pair) + BlankText(pair.rest.after))
    decreases items
  {
    hide BlankText, ValueText, Removed, PairRemoved;
    PairShape(c, items, removes);
    var rest := items.rest;
    var b, v, a := BlankText(items.before), ValueText(items.value), BlankText(items.after);
    if rest.Last? {
      var b', v', a' := BlankText(rest.before), ValueText(rest.value), BlankText(rest.after);
      Concat4(v, a, ",", b' + v', a');
      SeqAssociative(b', v', a');
      assert b + "" == b;
    } else {
      TextWithPair(c, rest, removes);
      var pair := Pair(c, items, removes);
      var tail := PairText(pair) + BlankText(pair.rest.after);
      Concat5(b, v, a, ",", HeadText(c, rest, removes), tail);
    }
  }

  /** The planner's edits of one entry before the final one. */
  lemma EditsOfEntry(c: Codec, clients: Node, index: nat, items: Items, pos: nat, removes: set<string>,
                     ids: map<string, string>)
    requires Suffix(c, clients, index, items, pos) && !Trailing(items) && items.More? && !items.rest.End?
    ensures Suffix(c, clients, index + 1, items.rest, RestPos(items, pos)) && !Trailing(items.rest)
    ensures var start := pos + |BlankText(items.before)|;
            index < |clients.items| - 1 &&
            EditsAt(c, clients, index, removes, ids) ==
            if Removed(c, items.value, removes) then
              [TextEdit(start, RestPos(items, pos) + |BlankText(FirstBlank(items.rest))|, "")]
            else EntryEdits(c, items.value, ids, start)
  {
    hide TreeOf, EditsAt, EntryEdits, Removed, Suffix, BlankText, ValueText, RestPos;
    var start := pos + |BlankText(items.before)|;
    SuffixFirst(c, clients, index, items, pos);
    SuffixStep(c, clients, index, items, pos);
    SuffixFirst(c, clients, index + 1, items.rest, RestPos(items, pos));
    if Removed(c, items.value, removes) {
      RemovedEditsAt(c, clients, index, removes, ids, items.value, start);
    } else {
      KeptEditsAt(c, clients, index, removes, ids, items.value, start);
    }
  }

  /** And of the pair itself. */
  lemma EditsOfPair(c: Codec, clients: Node, index: nat, items: Items, pos: nat, removes: set<string>,
                    ids: map<string, string>)
    requires Suffix(c, clients, index, items, pos) && !Trailing(items) && PairRemoved(c, items, removes) && items.rest.Last?
    ensures var start := pos + |BlankText(items.before)|;
            EditsFrom(c, clients, index, removes, ids) == [First(items, start), Second(items, start)]
  {
    hide TreeOf, EditsAt, Removed, Suffix, BlankText, ValueText;
    var rest, next := items.rest, RestPos(items, pos);
    EditsOfEntry(c, clients, index, items, pos, removes, ids);
    SuffixFirst(c, clients, index, items, pos);
    SuffixStep(c, clients, index, items, pos);
    SuffixFirst(c, clients, index + 1, rest, next);
    RemovedEditsAt(c, clients, index + 1, removes, ids, rest.value, next + |BlankText(rest.before)|);
    EditsFromEnd(c, clients, index + 1, removes, ids);
  }

  /** The planner's edits of the entries, from some entry on. */
  lemma {:induction false} EditsFromPair(c: Codec, clients: Node, index: nat, items: Items, pos: nat,
                                         removes: set<string>, ids: map<string, string>)
    requires Suffix(c, clients, index, items, pos) && !Trailing(items) && PairRemoved(c, items, removes)
    ensures var pair, start := Pair(c, items, removes), PairStart(c, items, pos, removes);
            EditsFrom(c, clients, index, removes, ids) ==
            HeadEdits(c, items, pos, removes, ids) + [First(pair, start), Second(pair, start)]
    decreases items
  {
    hide TreeOf, EditsAt, EntryEdits, Removed, Suffix, BlankText, ValueText, PairRemoved, PairStart, First, Second, Trailing;
    PairShape(c, items, removes);
    EditsOfEntry(c, clients, index, items, pos, removes, ids);
    if items.rest.Last? {
      PairStartsFirst(c, items, pos, removes);
      EditsOfPair(c, clients, index, items, pos, removes, ids);
    } else {
      HeadLength(c, items, pos, removes);
      EditsFromPair(c, clients, index + 1, items.rest, RestPos(items, pos), removes, ids);
    }
  }

  lemma PairStartsFirst(c: Codec, items: Items, pos: nat, removes: set<string>)
    requires PairRemoved(c, items, removes) && items.rest.Last?
    ensures PairStart(c, items, pos, removes) == pos + |BlankText(items.before)|
  {
    hide BlankText, Removed;
    assert HeadCore(c, items, removes) == "";
    assert HeadText(c, items, removes) == BlankText(items.before) + HeadCore(c, items, removes);
  }

  // ----- The planned edits of such an array, and what splicing them makes of it

  lemma {:induction false} PairEnds(c: Codec, items: Items, pos: nat, removes: set<string>)
    requires PairRemoved(c, items, removes)
    ensures var pair := Pair(c, items, removes);
            LastEnd(items, pos) == PairStart(c, items, pos, removes) + |PairText(pair)|
    decreases items
  {
    hide BlankText, ValueText, Removed, PairRemoved, HeadText;
    PairShape(c, items, removes);
    if items.rest.Last? {
      PairStartsFirst(c, items, pos, removes);
    } else {
      HeadLength(c, items, pos, removes);
      PairEnds(c, items.rest, RestPos(items, pos), removes);
    }
  }

  /** The edits planned for any list without a trailing comma: those of its entries, and the append. */
  lemma EntryPlan(c: Codec, document: string, items: Items, pos: nat, removes: seq<string>, sets: seq<ClientOp>,
                  ops: seq<ClientOp>)
    requires !items.End? && !Trailing(items) && UniqueClients(c, ItemValues(items))
    requires NoRepeats(removes) && NoRepeats(EmailsOf(sets)) && forall e :: e in removes ==> e !in EmailsOf(sets)
    ensures var clients := TreeOf(c, Array(items), pos);
            && clients.items != [] && Suffix(c, clients, 0, items, pos + 1)
            && multiset(ArrayPlan(c, document, clients, removes, sets, ops)) ==
               multiset(EditsFrom(c, clients, 0, SetOf(removes), IdsOf(sets))
                        + TailEdits(c, Spaces(Separation(document, clients)), ops, LastEnd(items, pos + 1)))
  {
    hide TreeOf, RemovalEdits, SetEdits, TailEdits, ByEmail, EditsFrom, PlanAppend, LastEnd, Suffix, UniqueClients;
    hide UniqueEmails, IdsOf, SetOf, Separation, NoRepeats, EmailsOf, ItemNodes, ItemValues;
    var clients := TreeOf(c, Array(items), pos);
    TreeShape(c, Array(items), pos);
    EmailsOfNodes(c, items, pos + 1);
    PlannedIsPermutation(c, clients, removes, sets);
    ArraySuffix(c, items, pos);
    PlannedTail(c, document, items, pos, ops);
  }

  /** The edits planned for an array that loses its last pair. */
  lemma PairPlan(c: Codec, document: string, items: Items, pos: nat, removes: seq<string>, sets: seq<ClientOp>,
                 ops: seq<ClientOp>)
    requires !Trailing(items) && PairRemoved(c, items, SetOf(removes)) && UniqueClients(c, ItemValues(items))
    requires NoRepeats(removes) && NoRepeats(EmailsOf(sets)) && forall e :: e in removes ==> e !in EmailsOf(sets)
    ensures var clients := TreeOf(c, Array(items), pos);
            && clients.items != []
            && var pair, start := Pair(c, items, SetOf(removes)), PairStart(c, items, pos + 1, SetOf(removes));
               multiset(ArrayPlan(c, document, clients, removes, sets, ops)) ==
               multiset(HeadEdits(c, items, pos + 1, SetOf(removes), IdsOf(sets)) + [First(pair, start), Second(pair, start)]
                        + TailEdits(c, Spaces(Separation(document, clients)), ops, start + |PairText(pair)|))
  {
    hide TreeOf, ArrayPlan, HeadEdits, TailEdits, EditsFrom, LastEnd, Suffix, UniqueClients, IdsOf, SetOf, Separation;
    hide NoRepeats, EmailsOf, ItemValues, PairRemoved, PairText, PairStart, First, Second, Pair, Trailing;
    var all := SetOf(removes);
    PairShape(c, items, all);
    EntryPlan(c, document, items, pos, removes, sets, ops);
    EditsFromPair(c, TreeOf(c, Array(items), pos), 0, items, pos + 1, all, IdsOf(sets));
    PairEnds(c, items, pos + 1, all);
  }

  /** The kept entries before the pair, with the bracket and the blank that begin the list. */
  function KeptText(c: Codec, items: Items, removes: set<string>, ids: map<string, string>): string
    requires PairRemoved(c, items, removes)
  {
    "[" + (BlankText(items.before) + KeptCore(c, items, removes, ids))
  }

  lemma HeadAchieves(c: Codec, items: Items, left: string, leftEdits: seq<TextEdit>, left': string,
                     removes: set<string>, ids: map<string, string>)
    requires PairRemoved(c, items, removes) && Ascends(leftEdits, 0, |left|) && EditsTo(left, leftEdits, 0, left')
    ensures var head, edits := left + ("[" + HeadText(c, items, removes)), leftEdits + HeadEdits(c, items, |left| + 1, removes, ids);
            && |head| == PairStart(c, items, |left| + 1, removes)
            && Ascends(edits, 0, |head|)
            && EditsTo(head, edits, 0, left' + KeptText(c, items, removes, ids))
  {
    hide EditsTo, Ascends, HeadEdits, HeadCore, KeptCore, BlankText, PairRemoved;
    PairShape(c, items, removes);
    var pos, b := |left| + 1, BlankText(items.before);
    var own, core, core' := HeadEdits(c, items, pos, removes, ids), HeadCore(c, items, removes), KeptCore(c, items, removes, ids);
    HeadEditsTo(c, items, pos, removes, ids);
    HeadEditsAscend(c, items, pos, removes, ids);
    EditsToPrefix(b, core, own, pos, core');
    EditsToPrefix("[", b + core, own, |left|, b + core');
    EditsToConcat(left, "[" + (b + core), leftEdits, own, 0, left', "[" + (b + core'));
    AscendsWiden(own, pos + |b|, PairStart(c, items, pos, removes), |left|, PairStart(c, items, pos, removes));
    AscendsConcat(leftEdits, own, 0, |left|, PairStart(c, items, pos, removes));
  }

  lemma TailAchieves(c: Codec, sep: Blank, ops: seq<ClientOp>, last: Blank, at: nat, right: string,
                     rightEdits: seq<TextEdit>, right': string)
    requires var text := BlankText(last) + "]";
             Ascends(rightEdits, at + |text|, at + |text| + |right|) && EditsTo(right, rightEdits, at + |text|, right')
    ensures var text, edits := BlankText(last) + "]" + right, TailEdits(c, sep, ops, at) + rightEdits;
            Ascends(edits, at, at + |text|) && EditsTo(text, edits, at, TailText(c, sep, ops) + BlankText(last) + "]" + right')
  {
    hide EditsTo, Ascends, TailEdits, TailText, BlankText;
    var blank, own := BlankText(last), TailEdits(c, sep, ops, at);
    TailEditsTo(c, sep, ops, last, at);
    EditsToSuffix(blank, "]", own, at, TailText(c, sep, ops) + blank);
    EditsToConcat(blank + "]", right, own, rightEdits, at, TailText(c, sep, ops) + blank + "]", right');
    TailAscends(c, sep, ops, at);
    AscendsWiden(own, at, at + 1, at, at + |blank + "]"|);
    AscendsConcat(own, rightEdits, at, at + |blank + "]"|, at + |blank + "]" + right|);
  }

  lemma {:induction false} PairPlaces(c: Codec, items: Items, pos: nat, removes: set<string>)
    requires PairRemoved(c, items, removes)
    ensures var pair, start := Pair(c, items, removes), PairStart(c, items, pos, removes);
            var first, second := First(pair, start), Second(pair, start);
            && first.at == start && first.at < second.at < first.end <= second.end == start + |PairText(pair)|
            && first.end - second.at == Overlap(pair) && first.text == second.text == ""
    decreases items
  {
    hide Removed, PairStart, BlankText, ValueText, PairText, Overlap;
    PairShape(c, items, removes);
    if items.rest.Last? {
      PairOverlaps(c, items, PairStart(c, items, pos, removes), removes);
    } else {
      HeadLength(c, items, pos, removes);
      PairPlaces(c, items.rest, RestPos(items, pos), removes);
    }
  }

  lemma BracketedText(items: Items)
    ensures ValueText(Array(items)) == "[" + ItemsText(items) + "]"
  {}

  lemma WholeText(left: string, head: string, pair: string, last: string, right: string)
    ensures left + ("[" + (head + (pair + last)) + "]") + right == (left + ("[" + head)) + pair + (last + "]" + right)
  {}

  /** What separates entries appended to an array. */
  function SeparationAt(c: Codec, document: string, items: Items, pos: nat): string {
    var clients := TreeOf(c, Array(items), pos);
    if clients.items == [] then "" else Separation(document, clients)
  }

  /** What stands behind the pair, once the append is done. */
  function BehindText(c: Codec, document: string, items: Items, pos: nat, removes: set<string>, ops: seq<ClientOp>,
                      right: string): string
    requires PairRemoved(c, items, removes)
  {
    TailText(c, Spaces(SeparationAt(c, document, items, pos)), ops)
    + BlankText(Pair(c, items, removes).rest.after) + "]" + right
  }

  /** The text before the pair, and the text behind it less the overlap; or the slice fails. */
  lemma ArraySpliced(c: Codec, document: string, items: Items, pos: nat, removes: seq<string>, sets: seq<ClientOp>,
                     ops: seq<ClientOp>, left: string, right: string, sorted: seq<TextEdit>)
    requires |left| == pos && !Trailing(items) && PairRemoved(c, items, SetOf(removes)) && UniqueClients(c, ItemValues(items))
    requires NoRepeats(removes) && NoRepeats(EmailsOf(sets)) && forall e :: e in removes ==> e !in EmailsOf(sets)
    requires multiset(sorted) == multiset(ArrayPlan(c, document, TreeOf(c, Array(items), pos), removes, sets, ops))
    requires Descending(sorted)
    ensures var all := SetOf(removes);
            var text, behind := left + ValueText(Array(items)) + right, BehindText(c, document, items, pos, all, ops, right);
            var eaten := Overlap(Pair(c, items, all));
            if eaten <= |behind| then
              && Spliceable(text, sorted)
              && ApplyAll(text, sorted) == left + KeptText(c, items, all, IdsOf(sets)) + behind[eaten..]
            else !Spliceable(text, sorted)
  {
    hide TreeOf, ArrayPlan, UniqueClients, ItemValues, PairRemoved, HeadText, KeptText, TailText, TailEdits, HeadEdits;
    hide IdsOf, BlankText, Ascends, EditsTo, Spliceable, ApplyAll, PairText, SetOf, ItemsText, Pair, First, Second;
    hide Overlap, Descending, ValueText, Separation, NoRepeats, EmailsOf, Trailing;
    var all, ids := SetOf(removes), IdsOf(sets);
    var pair, start := Pair(c, items, all), PairStart(c, items, pos + 1, all);
    var sep, end, last := Spaces(SeparationAt(c, document, items, pos)), start + |PairText(pair)|, BlankText(pair.rest.after);
    PairPlan(c, document, items, pos, removes, sets, ops);
    BracketedText(items);
    TextWithPair(c, items, all);
    NoEditsYet(left);
    NoEditsBehind(right, end + |last + "]"|);
    HeadAchieves(c, items, left, [], left, all, ids);
    TailAchieves(c, sep, ops, pair.rest.after, end, right, [], right);
    PairPlaces(c, items, pos + 1, all);
    var head, tail := HeadEdits(c, items, pos + 1, all, ids), TailEdits(c, sep, ops, end);
    assert [] + head == head && tail + [] == tail;
    WholeText(left, HeadText(c, items, all), PairText(pair), last, right);
    OverlapAmongOthers(left + ("[" + HeadText(c, items, all)), PairText(pair), last + "]" + right, head, First(pair, start),
                       Second(pair, start), tail, left + KeptText(c, items, all, ids),
                       BehindText(c, document, items, pos, all, ops, right), sorted);
  }

  lemma NoEditsYet(text: string)
    ensures Ascends([], 0, |text|) && EditsTo(text, [], 0, text)
  {
    EditsToNothing(text, 0);
  }

  lemma NoEditsBehind(text: string, at: nat)
    ensures Ascends([], at, at + |text|) && EditsTo(text, [], at, text)
  {
    EditsToNothing(text, at);
  }

  // ----- When that is the list as planned

  /** Whitespace and comments, none of them cut short. */
  ghost predicate IsBlank(text: string) { exists b: Blank :: BlankOk(b) && BlankText(b) == text }

  /** Nothing appended: the overlap fits into the blank before the bracket and cuts no comment. Else: into the separation. */
  ghost predicate PairFits(c: Codec, document: string, items: Items, pos: nat, removes: set<string>, ops: seq<ClientOp>)
    requires PairRemoved(c, items, removes)
  {
    var pair := Pair(c, items, removes);
    var blank, eaten := BlankText(pair.rest.after), Overlap(pair);
    if ops == [] then eaten <= |blank| && IsBlank(blank[eaten..])
    else eaten <= 1 + |SeparationAt(c, document, items, pos)|
  }

  /** What is left of a blank. */
  ghost function BlankOf(text: string): (b: Blank)
    requires IsBlank(text)
    ensures BlankOk(b) && BlankText(b) == text
  {
    var b: Blank :| BlankOk(b) && BlankText(b) == text; b
  }

  /** The list such a pair leaves: the kept entries, what is left of the blank or the separation, the appended entries. */
  ghost function FittedItems(c: Codec, document: string, items: Items, pos: nat, removes: set<string>, ids: map<string, string>,
                             ops: seq<ClientOp>): Items
    requires PairRemoved(c, items, removes) && PairFits(c, document, items, pos, removes, ops)
  {
    var pair, sep := Pair(c, items, removes), SeparationAt(c, document, items, pos);
    var end := if ops == [] then End(BlankOf(BlankText(pair.rest.after)[Overlap(pair)..]))
               else EntriesItems(c, Spaces(sep[Overlap(pair) - 1..]), Spaces(sep), ops, pair.rest.after);
    KeptOnto(c, items, FirstBlank(items), removes, ids, end)
  }

  /** The text of a list with another end, in its place. */
  lemma KeptOntoPlaced(c: Codec, items: Items, removes: set<string>, ids: map<string, string>, t: Items,
                       left: string, right: string)
    requires PairRemoved(c, items, removes)
    ensures left + ValueText(Array(KeptOnto(c, items, items.before, removes, ids, t))) + right ==
            left + KeptText(c, items, removes, ids) + (ItemsText(t) + "]" + right)
  {
    hide ItemsText, BlankText, KeptCore, PairRemoved;
    PairShape(c, items, removes);
    KeptOntoText(c, items, items.before, removes, ids, t);
    Placed(left, BlankText(items.before), KeptCore(c, items, removes, ids), ItemsText(t), right);
  }

  lemma Placed(left: string, b: string, core: string, t: string, right: string)
    ensures left + ("[" + (b + (core + t)) + "]") + right == left + ("[" + (b + core)) + (t + "]" + right)
  {}

  lemma EndOk(c: Codec, z: Blank)
    ensures ItemsOk(c, End(z)) <==> BlankOk(z)
    ensures ItemsText(End(z)) == BlankText(z) && ItemValues(End(z)) == [] && FirstBlank(End(z)) == z
  {}

  lemma ListBlankOk(c: Codec, items: Items)
    requires ItemsOk(c, items)
    ensures BlankOk(FirstBlank(items))
  {
    hide BlankOk, ValueOk;
  }

  lemma CutBlank(blank: string, right: string, eaten: nat)
    requires eaten <= |blank|
    ensures (blank + "]" + right)[eaten..] == blank[eaten..] + "]" + right
  {}

  lemma NothingAppended(c: Codec, sep: Blank, blank: string, right: string)
    ensures TailText(c, sep, []) + blank + "]" + right == blank + "]" + right
  {
    assert "" + blank == blank;
  }

  lemma {:induction false} PairOk(c: Codec, items: Items, removes: set<string>)
    requires ItemsOk(c, items) && PairRemoved(c, items, removes)
    ensures var pair := Pair(c, items, removes); BlankOk(pair.rest.before) && BlankOk(pair.rest.after)
    decreases items
  {
    hide PairRemoved, Removed, ValueOk, BlankOk;
    PairShape(c, items, removes);
    if !items.rest.Last? {
      PairOk(c, items.rest, removes);
    }
  }

  lemma RegroupAppended(z: string, sep: string, joined: string, last: string, right: string)
    ensures z + (joined + last) + "]" + right == z + (joined + last + "]" + right)
    ensures "," + (sep + joined) + last + "]" + right == "," + (sep + (joined + last + "]" + right))
  {}

  lemma EatenSeparation(before: string, z: string, sep: string, rest: string, eaten: nat)
    requires 0 < eaten <= |"," + (sep + rest)|
    ensures eaten <= 1 + |sep| && z == sep[eaten - 1..] ==> before + (z + rest) == before + ("," + (sep + rest))[eaten..]
    ensures before + (z + rest) == before + ("," + (sep + rest))[eaten..] ==> eaten <= 1 + |sep|
  {
    var behind := "," + (sep + rest);
    if eaten <= 1 + |sep| {
      assert behind[eaten..] == sep[eaten - 1..] + rest;
    }
    if before + (z + rest) == before + behind[eaten..] {
      assert |z + rest| == |behind[eaten..]|;
    }
  }

  lemma SeparationBlank(c: Codec, document: string, items: Items, pos: nat)
    ensures var sep := SeparationAt(c, document, items, pos);
            && BlankText(Spaces(sep)) == sep && BlankOk(Spaces(sep))
            && forall n :: 0 <= n <= |sep| ==> BlankText(Spaces(sep[n..])) == sep[n..] && BlankOk(Spaces(sep[n..]))
  {
    hide TreeOf, LineIndent, BlankText, BlankOk;
    var sep := SeparationAt(c, document, items, pos);
    SpacesText(sep);
    forall n | 0 <= n <= |sep|
      ensures BlankText(Spaces(sep[n..])) == sep[n..] && BlankOk(Spaces(sep[n..]))
    {
      SpacesText(sep[n..]);
    }
  }

  /** Entries appended behind a blank, in their place, and the text the overlap is cut from. */
  lemma AppendedInPlace(c: Codec, document: string, items: Items, pos: nat, removes: set<string>, ids: map<string, string>,
                      ops: seq<ClientOp>, z: Blank, left: string, right: string)
    requires PairRemoved(c, items, removes) && ops != []
    ensures var sep, last := SeparationAt(c, document, items, pos), Pair(c, items, removes).rest.after;
            var rest := Join(EntryTexts(c, ops), "," + sep) + BlankText(last) + "]" + right;
            var list := KeptOnto(c, items, FirstBlank(items), removes, ids, EntriesItems(c, z, Spaces(sep), ops, last));
            && left + ValueText(Array(list)) + right == left + KeptText(c, items, removes, ids) + (BlankText(z) + rest)
            && BehindText(c, document, items, pos, removes, ops, right) == "," + (sep + rest)
  {
    hide PairRemoved, Pair, BlankText, KeptText, ItemsText, EntriesItems, EntryTexts, Join, SeparationAt, ValueText;
    var sep, last := SeparationAt(c, document, items, pos), Pair(c, items, removes).rest.after;
    PairShape(c, items, removes);
    SeparationBlank(c, document, items, pos);
    EntriesText(c, z, Spaces(sep), ops, last);
    KeptOntoPlaced(c, items, removes, ids, EntriesItems(c, z, Spaces(sep), ops, last), left, right);
    RegroupAppended(BlankText(z), sep, Join(EntryTexts(c, ops), "," + sep), BlankText(last), right);
  }

  /** A fitting pair leaves exactly that list. */
  lemma FittedText(c: Codec, document: string, items: Items, pos: nat, removes: set<string>, ids: map<string, string>,
                   ops: seq<ClientOp>, left: string, right: string)
    requires PairRemoved(c, items, removes) && PairFits(c, document, items, pos, removes, ops)
    ensures var behind, eaten := BehindText(c, document, items, pos, removes, ops, right), Overlap(Pair(c, items, removes));
            && eaten <= |behind|
            && left + KeptText(c, items, removes, ids) + behind[eaten..] ==
               left + ValueText(Array(FittedItems(c, document, items, pos, removes, ids, ops))) + right
  {
    hide PairRemoved, Pair, BlankText, KeptText, ItemsText, EntriesItems, EntryTexts, Join, SeparationAt, ValueText, TailText, KeptOnto;
    hide Overlap, IsBlank;
    var pair, sep := Pair(c, items, removes), SeparationAt(c, document, items, pos);
    var eaten, blank, kept := Overlap(pair), BlankText(pair.rest.after), KeptText(c, items, removes, ids);
    PairShape(c, items, removes);
    if ops == [] {
      var z := BlankOf(blank[eaten..]);
      EndOkText(z);
      KeptOntoPlaced(c, items, removes, ids, End(z), left, right);
      NothingAppended(c, Spaces(sep), blank, right);
      CutBlank(blank, right, eaten);
    } else {
      var rest := Join(EntryTexts(c, ops), "," + sep) + blank + "]" + right;
      SomeOverlap(pair);
      SeparationBlank(c, document, items, pos);
      AppendedInPlace(c, document, items, pos, removes, ids, ops, Spaces(sep[eaten - 1..]), left, right);
      EatenSeparation(left + kept, sep[eaten - 1..], sep, rest, eaten);
    }
  }

  lemma SomeOverlap(pair: Items)
    requires pair.More? && pair.rest.Last?
    ensures Overlap(pair) > 0
  {}

  lemma EndOkText(z: Blank)
    ensures ItemsText(End(z)) == BlankText(z)
  {}

  lemma FittedOk(c: Codec, document: string, items: Items, pos: nat, removes: set<string>, ids: map<string, string>,
                 ops: seq<ClientOp>)
    requires c.Valid() && ItemsOk(c, items) && PairRemoved(c, items, removes) && PairFits(c, document, items, pos, removes, ops)
    ensures var now := FittedItems(c, document, items, pos, removes, ids, ops);
            ItemsOk(c, now) && ItemValues(now) == KeptValues(c, ItemValues(items), removes, ids) + EntryValues(c, ops)
  {
    hide PairRemoved, Pair, BlankText, KeptValues, EntriesItems, EntryValues, SeparationAt, KeptOnto, Overlap, IsBlank, Codec.Valid, ValueOk;
    var pair, sep := Pair(c, items, removes), SeparationAt(c, document, items, pos);
    PairShape(c, items, removes);
    ListBlankOk(c, items);
    PairOk(c, items, removes);
    SomeOverlap(pair);
    if ops == [] {
      var z := BlankOf(BlankText(pair.rest.after)[Overlap(pair)..]);
      EndOk(c, z);
      KeptOntoOk(c, items, items.before, removes, ids, End(z));
      KeptOntoValues(c, items, items.before, removes, ids, End(z));
      NoEntries(c);
    } else {
      SeparationBlank(c, document, items, pos);
      var z := Spaces(sep[Overlap(pair) - 1..]);
      var end := EntriesItems(c, z, Spaces(sep), ops, pair.rest.after);
      EntriesOk(c, z, Spaces(sep), ops, pair.rest.after);
      EntriesValues(c, z, Spaces(sep), ops, pair.rest.after);
      KeptOntoOk(c, items, items.before, removes, ids, end);
      KeptOntoValues(c, items, items.before, removes, ids, end);
    }
  }

  /** So wherever the array stands, its planned edits make that list of it. */
  lemma FittedLands(c: Codec, document: string, items: Items, pos: nat, removes: seq<string>, sets: seq<ClientOp>,
                    ops: seq<ClientOp>)
    requires !Trailing(items) && PairRemoved(c, items, SetOf(removes)) && UniqueClients(c, ItemValues(items))
    requires NoRepeats(removes) && NoRepeats(EmailsOf(sets)) && forall e :: e in removes ==> e !in EmailsOf(sets)
    requires PairFits(c, document, items, pos, SetOf(removes), ops)
    ensures Lands(ValueText(Array(items)), ArrayPlan(c, document, TreeOf(c, Array(items), pos), removes, sets, ops), pos,
                  ValueText(Array(FittedItems(c, document, items, pos, SetOf(removes), IdsOf(sets), ops))))
  {
    hide TreeOf, ArrayPlan, UniqueClients, ItemValues, PairRemoved, KeptText, IdsOf, Spliceable, ApplyAll, SetOf, Pair, Overlap, Descending;
    hide ValueText, NoRepeats, EmailsOf, Trailing, PairFits, FittedItems, BehindText, Inside;
    var all, ids := SetOf(removes), IdsOf(sets);
    var text, now := ValueText(Array(items)), ValueText(Array(FittedItems(c, document, items, pos, all, ids, ops)));
    var planned := ArrayPlan(c, document, TreeOf(c, Array(items), pos), removes, sets, ops);
    ArrayPlanInside(c, document, items, pos, removes, sets, ops);
    forall left: string, right: string, sorted: seq<TextEdit> | |left| == pos
      ensures LandsIn(text, planned, now, left, right, sorted)
    {
      if multiset(sorted) == multiset(planned) && Descending(sorted) {
        ArraySpliced(c, document, items, pos, removes, sets, ops, left, right, sorted);
        FittedText(c, document, items, pos, all, ids, ops, left, right);
      }
    }
  }

  lemma ArrayPlanInside(c: Codec, document: string, items: Items, pos: nat, removes: seq<string>, sets: seq<ClientOp>,
                   ops: seq<ClientOp>)
    requires !Trailing(items) && PairRemoved(c, items, SetOf(removes)) && UniqueClients(c, ItemValues(items))
    requires NoRepeats(removes) && NoRepeats(EmailsOf(sets)) && forall e :: e in removes ==> e !in EmailsOf(sets)
    ensures var planned := ArrayPlan(c, document, TreeOf(c, Array(items), pos), removes, sets, ops);
            Inside(planned, pos, pos + |ValueText(Array(items))|) && planned != []
  {
    hide TreeOf, ArrayPlan, UniqueClients, ItemValues, PairRemoved, HeadText, TailEdits, HeadEdits, IdsOf, BlankText, Ascends;
    hide PairText, SetOf, ItemsText, Pair, First, Second, Overlap, ValueText, Separation, NoRepeats, EmailsOf, Trailing, Inside;
    var all, ids := SetOf(removes), IdsOf(sets);
    var pair, start := Pair(c, items, all), PairStart(c, items, pos + 1, all);
    var sep, end, last := Spaces(SeparationAt(c, document, items, pos)), start + |PairText(pair)|, BlankText(pair.rest.after);
    var high := pos + |ValueText(Array(items))|;
    PairPlan(c, document, items, pos, removes, sets, ops);
    BracketedText(items);
    TextWithPair(c, items, all);
    HeadEditsAscend(c, items, pos + 1, all, ids);
    TailAscends(c, sep, ops, end);
    PairPlaces(c, items, pos + 1, all);
    PairShape(c, items, all);
    var head, tail := HeadEdits(c, items, pos + 1, all, ids), TailEdits(c, sep, ops, end);
    assert high == end + |last| + 1;
    AscendsInside(head, pos + 1 + |BlankText(items.before)|, start, pos, high);
    AscendsInside(tail, end, end + 1, pos, high);
    InsideThree(head, First(pair, start), Second(pair, start), tail, pos, high);
    SameInside(ArrayPlan(c, document, TreeOf(c, Array(items), pos), removes, sets, ops), head + [First(pair, start), Second(pair, start)] + tail, pos, high);
    SomeEdits(ArrayPlan(c, document, TreeOf(c, Array(items), pos), removes, sets, ops), head, First(pair, start), Second(pair, start), tail);
  }

  lemma AscendsInside(edits: seq<TextEdit>, low: int, high: int, low': int, high': int)
    requires Ascends(edits, low, high) && low' <= low && high <= high'
    ensures Inside(edits, low', high')
  {}

  lemma InsideThree(head: seq<TextEdit>, first: TextEdit, second: TextEdit, tail: seq<TextEdit>, low: int, high: int)
    requires Inside(head, low, high) && Inside(tail, low, high) && low <= first.at < high && low <= second.at < high
    ensures Inside(head + [first, second] + tail, low, high)
  {}

  lemma SomeEdits(own: seq<TextEdit>, head: seq<TextEdit>, first: TextEdit, second: TextEdit, tail: seq<TextEdit>)
    requires multiset(own) == multiset(head + [first, second] + tail)
    ensures own != []
  {
    assert first in multiset(head + [first, second] + tail);
    assert own == [] ==> multiset(own) == multiset{};
  }
}
