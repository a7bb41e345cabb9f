/** What the render does to the arrays its edits do not fit, and exactly when it gets away with it. */
module RenderLimits {
  import opened JsoncParser
  import opened JsoncSpans
  import opened JsoncSyntax
  import opened JsoncTrees
  import opened Options
  import opened RenderArrays
  import opened RenderClients
  import opened RenderContext
  import opened RenderEntries
  import opened RenderInbounds
  import opened RenderInk
  import opened RenderLists
  import opened RenderMeaning
  import opened RenderOrder
  import opened RenderPairs
  import opened RenderPlanner
  import opened RenderReading
  import opened RenderSettings
  import opened RenderSyntax
  import opened Sequences
  import opened TextEdits
  import opened TextLandings

  // ----- Two overlapping spans among other edits

  /** Removing the final entry and its predecessor together always overlaps. */
  lemma LastPairOverlaps(clients: Node)
    requires WellSpanned(clients) && clients.kind == '[' && !clients.trailing && |clients.items| >= 2
    ensures var n := |clients.items|;
            var first, second := PlanEntryRemoval(clients, n - 2), PlanEntryRemoval(clients, n - 1);
            first.at < second.at < first.end <= second.end && first.text == "" && second.text == ""
  {}

  // ----- A document that asks for it

  /** One clients array loses its final two entries; every other inbound comes right, whatever is planned for it. */
  ghost predicate LosesLastPair(c: Codec, d: Document, plan: RenderPlan, k: nat) {
    && k < |Inbounds(c, d)| && HasArray(c, Inbounds(c, d)[k], plan)
    && LosesPair(c, Inbounds(c, d)[k], plan) && RestRight(c, d, plan, k)
  }

  function ArrayIn(c: Codec, d: Document, plan: RenderPlan, k: nat): Items
    requires k < |Inbounds(c, d)| && HasArray(c, Inbounds(c, d)[k], plan)
  {
    ArrayOf(c, Inbounds(c, d)[k], plan)
  }

  function TagIn(c: Codec, d: Document, plan: RenderPlan, k: nat): string
    requires k < |Inbounds(c, d)| && HasArray(c, Inbounds(c, d)[k], plan)
  {
    StringOf(c, Inbounds(c, d)[k], "tag").value
  }

  function AddsIn(c: Codec, d: Document, plan: RenderPlan, k: nat): seq<ClientOp>
    requires k < |Inbounds(c, d)| && HasArray(c, Inbounds(c, d)[k], plan)
  {
    plan.Adds(TagIn(c, d, plan, k))
  }

  function RemovesIn(c: Codec, d: Document, plan: RenderPlan, k: nat): seq<string>
    requires k < |Inbounds(c, d)| && HasArray(c, Inbounds(c, d)[k], plan)
  {
    plan.Removes(TagIn(c, d, plan, k))
  }

  function SetsIn(c: Codec, d: Document, plan: RenderPlan, k: nat): seq<ClientOp>
    requires k < |Inbounds(c, d)| && HasArray(c, Inbounds(c, d)[k], plan)
  {
    plan.Sets(TagIn(c, d, plan, k))
  }

  /** What is to be appended to that array. */
  function OpsIn(c: Codec, d: Document, plan: RenderPlan, k: nat): seq<ClientOp>
    requires k < |Inbounds(c, d)| && HasArray(c, Inbounds(c, d)[k], plan)
  {
    OpsOf(c, Inbounds(c, d)[k], plan)
  }

  /** The edits planned for it, where it stands. */
  function PlanIn(c: Codec, d: Document, plan: RenderPlan, k: nat, pos: nat): seq<TextEdit>
    requires k < |Inbounds(c, d)| && HasArray(c, Inbounds(c, d)[k], plan)
  {
    var clients := TreeOf(c, Array(ArrayIn(c, d, plan, k)), pos);
    ArrayPlan(c, DocumentText(d), clients, RemovesIn(c, d, plan, k), SetsIn(c, d, plan, k), OpsIn(c, d, plan, k))
  }

  /** The clients that array is to hold. */
  function PlannedIn(c: Codec, d: Document, plan: RenderPlan, k: nat): seq<Value>
    requires k < |Inbounds(c, d)| && HasArray(c, Inbounds(c, d)[k], plan)
  {
    PlannedClients(c, ItemValues(ArrayIn(c, d, plan, k)), AddsIn(c, d, plan, k), RemovesIn(c, d, plan, k), SetsIn(c, d, plan, k))
  }

  /** What separates entries appended to that array. */
  function SeparationIn(c: Codec, d: Document, plan: RenderPlan, k: nat, pos: nat): string
    requires k < |Inbounds(c, d)| && HasArray(c, Inbounds(c, d)[k], plan)
  {
    SeparationAt(c, DocumentText(d), ArrayIn(c, d, plan, k), pos)
  }

  function PairIn(c: Codec, d: Document, plan: RenderPlan, k: nat): (pair: Items)
    requires LosesLastPair(c, d, plan, k)
    ensures pair.More? && pair.rest.Last?
  {
    Pair(c, ArrayIn(c, d, plan, k), SetOf(RemovesIn(c, d, plan, k)))
  }

  /** What stands behind the removed pair once all edits behind it are done. */
  function BehindPair(c: Codec, d: Document, plan: RenderPlan, k: nat, a: Around): string
    requires LosesLastPair(c, d, plan, k)
  {
    BehindText(c, DocumentText(d), ArrayIn(c, d, plan, k), |a.left|, SetOf(RemovesIn(c, d, plan, k)), OpsIn(c, d, plan, k), a.right')
  }

  /** What stands before it. */
  function BeforePair(c: Codec, d: Document, plan: RenderPlan, k: nat, a: Around): string
    requires LosesLastPair(c, d, plan, k)
  {
    a.left' + KeptText(c, ArrayIn(c, d, plan, k), SetOf(RemovesIn(c, d, plan, k)), IdsOf(SetsIn(c, d, plan, k)))
  }

  lemma ArrayLosesPair(c: Codec, d: Document, plan: RenderPlan, k: nat)
    requires LosesLastPair(c, d, plan, k)
    ensures var items, removes, sets := ArrayIn(c, d, plan, k), RemovesIn(c, d, plan, k), SetsIn(c, d, plan, k);
            && PairRemoved(c, items, SetOf(removes)) && !Trailing(items) && UniqueClients(c, ItemValues(items))
            && NoRepeats(removes) && NoRepeats(EmailsOf(sets)) && (forall e :: e in removes ==> e !in EmailsOf(sets))
            && PlannedIn(c, d, plan, k) ==
               KeptValues(c, ItemValues(items), SetOf(removes), IdsOf(sets)) + EntryValues(c, OpsIn(c, d, plan, k))
  {
    hide HasArray, UniqueClients, Disjoint, Inbounds, ArrayOf, RestRight, PairRemoved, SetOf, EmailsOf, NoRepeats;
    hide RenderPlan.Adds, RenderPlan.Removes, RenderPlan.Sets, Remaining, KeptValues, EntryValues, IdsOf, ItemValues;
    DisjointParts(AddsIn(c, d, plan, k), RemovesIn(c, d, plan, k), SetsIn(c, d, plan, k));
  }

  lemma PlanInside(c: Codec, d: Document, plan: RenderPlan, k: nat, pos: nat)
    requires LosesLastPair(c, d, plan, k)
    ensures PlanIn(c, d, plan, k, pos) != []
    ensures Inside(PlanIn(c, d, plan, k, pos), pos, pos + |ValueText(Array(ArrayIn(c, d, plan, k)))|)
  {
    hide LosesPair, RestRight, HasArray, Inbounds, ArrayOf, OpsOf, TagIn, RenderPlan.Adds, RenderPlan.Removes, RenderPlan.Sets;
    hide PlannedIn, PairRemoved, SetOf, IdsOf, NoRepeats, EmailsOf, UniqueClients, Trailing, Pair, DocumentOk, DocumentText, Codec.Valid;
    hide Inside, ValueText, TreeOf, ArrayPlan, ItemValues;
    ArrayLosesPair(c, d, plan, k);
    ArrayPlanInside(c, DocumentText(d), ArrayIn(c, d, plan, k), pos, RemovesIn(c, d, plan, k), SetsIn(c, d, plan, k), OpsIn(c, d, plan, k));
  }

  /** Whatever else the plan edits: the text before the pair, and the text behind it less the overlap; or the slice fails. */
  lemma PairSpliced(c: Codec, d: Document, plan: RenderPlan, k: nat, a: Around, sorted: seq<TextEdit>)
    requires LosesLastPair(c, d, plan, k) && Frames(a, DocumentText(d), 0, ValueText(Array(ArrayIn(c, d, plan, k))))
    requires multiset(sorted) == multiset(a.before + PlanIn(c, d, plan, k, |a.left|) + a.behind) && Descending(sorted)
    ensures var behind, eaten := BehindPair(c, d, plan, k, a), Overlap(PairIn(c, d, plan, k));
            if eaten <= |behind| then
              && Spliceable(DocumentText(d), sorted)
              && ApplyAll(DocumentText(d), sorted) == BeforePair(c, d, plan, k, a) + behind[eaten..]
            else !Spliceable(DocumentText(d), sorted)
  {
    hide LosesPair, RestRight, HasArray, Inbounds, ArrayOf, OpsOf, TagIn, RenderPlan.Adds, RenderPlan.Removes, RenderPlan.Sets;
    hide PlannedIn, PairRemoved, SetOf, IdsOf, NoRepeats, EmailsOf, UniqueClients, Trailing, Pair, DocumentOk, DocumentText, Codec.Valid;
    hide Lands, Inside, Spliceable, ApplyAll, Descending, ValueText, BehindText, KeptText, Overlap, TreeOf, ArrayPlan, ItemValues;
    var document, items, pos := DocumentText(d), ArrayIn(c, d, plan, k), |a.left|;
    var removes, sets, ops := RemovesIn(c, d, plan, k), SetsIn(c, d, plan, k), OpsIn(c, d, plan, k);
    ArrayLosesPair(c, d, plan, k);
    PlanInside(c, d, plan, k, pos);
    var mine := LandsAround(a.left, ValueText(Array(items)), a.right, a.before, PlanIn(c, d, plan, k, pos), a.behind, a.left', a.right', sorted);
    ArraySpliced(c, document, items, pos, removes, sets, ops, a.left, a.right', mine);
    var kept, behind, eaten := KeptText(c, items, SetOf(removes), IdsOf(sets)), BehindPair(c, d, plan, k, a), Overlap(PairIn(c, d, plan, k));
    if eaten <= |behind| {
      SeqAssociative(a.left, kept, behind[eaten..]);
      SeqAssociative(a.left', kept, behind[eaten..]);
    }
  }

  /** So the render answers with that text, or crashes. */
  lemma PairRenders(c: Codec, d: Document, plan: RenderPlan, k: nat, r: Rendering) returns (a: Around)
    requires DocumentOk(c, d) && !plan.Empty() && LosesLastPair(c, d, plan, k) && RendersTo(c, DocumentText(d), plan, r)
    ensures Frames(a, DocumentText(d), 0, ValueText(Array(ArrayIn(c, d, plan, k))))
    ensures forall now :: DocumentText(DocumentWith(c, d, plan, k, now)) == With(a, ValueText(Array(now)))
    ensures var behind, eaten := BehindPair(c, d, plan, k, a), Overlap(PairIn(c, d, plan, k));
            r == if eaten <= |behind| then Rendered(BeforePair(c, d, plan, k, a) + behind[eaten..], true) else Crashes
  {
    hide DocumentOk, TreeOf, ParseDocument, PlanDocument, DocumentText, RenderPlan.Empty, Achieves, Spliceable;
    hide ApplyAll, Descending, ArrayPlan;
    hide HasArray, RestRight, UniqueClients, ItemValues, Disjoint, ArrayOf, Remaining, With, Frames, BehindPair;
    hide BeforePair, Overlap, PairRemoved;
    hide RenderPlan.Adds, RenderPlan.Removes, RenderPlan.Sets, DocumentWith, Inbounds;
    var document := DocumentText(d);
    a := DocumentAround(c, d, plan, k);
    ParseDocumentText(c, d);
    var planned := PlanDocument(c, document, TreeOf(c, d.root, |BlankText(d.lead)|), plan).edits;
    PlanInside(c, d, plan, k, |a.left|);
    var sorted :| multiset(sorted) == multiset(planned) && Descending(sorted)
                  && r == if Spliceable(document, sorted) then Rendered(ApplyAll(document, sorted), true) else Crashes;
    PairSpliced(c, d, plan, k, a, sorted);
  }

  // ----- When the removal of the last pair comes out right

  lemma ArrayInOk(c: Codec, d: Document, plan: RenderPlan, k: nat)
    requires DocumentOk(c, d) && k < |Inbounds(c, d)| && HasArray(c, Inbounds(c, d)[k], plan)
    ensures ItemsOk(c, ArrayIn(c, d, plan, k))
  {
    hide FindProp, HasArray, ArrayOf, ItemsOk, PropsOk, BlankOk;
    FoundOk(c, d.root.props, "inbounds");
    EveryValueOk(c, InboundItems(c, d).value, k);
    InboundArrayOk(c, Inbounds(c, d)[k], plan);
  }

  /** A list in the result: the kept entries and what the overlap left of the blank, or it closes among the kept entries. */
  lemma Stands(left: string, now: string, right: string, kept: string, blank: string, eaten: nat)
    requires eaten <= |blank + "]" + right|
    requires left + ("[" + now + "]") + right == left + ("[" + kept) + (blank + "]" + right)[eaten..]
    ensures eaten <= |blank| ==> now == kept + blank[eaten..]
    ensures eaten > |blank| ==> |now| < |kept| && kept == now + "]" + kept[|now| + 1..]
  {
    var behind := (blank + "]" + right)[eaten..];
    assert left + ("[" + now + "]") + right == (left + "[") + (now + "]" + right);
    assert left + ("[" + kept) + behind == (left + "[") + (kept + behind);
    SamePrefix(left + "[", now + "]" + right, left + "[", kept + behind);
    if eaten <= |blank| {
      assert behind == blank[eaten..] + ("]" + right);
      assert now + "]" + right == now + ("]" + right);
      assert kept + behind == (kept + blank[eaten..]) + ("]" + right);
      SamePrefix(now, "]" + right, kept + blank[eaten..], "]" + right);
    } else {
      assert |behind| <= |right|;
      var whole := kept + behind;
      assert whole[..|now| + 1] == (now + "]" + right)[..|now| + 1] == now + "]";
      assert whole[..|now| + 1] == kept[..|now| + 1];
    }
  }

  /** A well-formed array of the planned clients, and every other byte as edited. */
  ghost predicate ComesOut(c: Codec, d: Document, plan: RenderPlan, k: nat, r: Rendering, now: Items)
    requires k < |Inbounds(c, d)| && HasArray(c, Inbounds(c, d)[k], plan)
  {
    && ItemsOk(c, now) && ItemValues(now) == PlannedIn(c, d, plan, k)
    && r == Rendered(DocumentText(DocumentWith(c, d, plan, k, now)), true)
  }

  /**
   * Nothing appended: the document comes out as planned, with a well-formed array of the planned clients and every other
   * byte as edited, if and only if the overlap fits into the blank before the bracket and cuts no comment.
   */
  lemma RemovingTheLastPairFitsExactly(c: Codec, d: Document, plan: RenderPlan, k: nat, r: Rendering)
    requires c.Valid() && DocumentOk(c, d) && !plan.Empty() && RendersTo(c, DocumentText(d), plan, r)
    requires LosesLastPair(c, d, plan, k) && OpsIn(c, d, plan, k) == []
    ensures var pair := PairIn(c, d, plan, k);
            (exists now :: ComesOut(c, d, plan, k, r, now))
            <==> Overlap(pair) <= |BlankText(pair.rest.after)| && IsBlank(BlankText(pair.rest.after)[Overlap(pair)..])
  {
    hide DocumentOk, DocumentText, DocumentWith, RendersTo, Codec.Valid, ItemsOk, ItemValues, PlannedIn, OpsIn;
    hide Overlap, BlankText, IsBlank;
    hide With, BeforePair, BehindPair, PairIn, HasArray, RestRight, UniqueClients, Disjoint, PairRemoved;
    hide Inbounds, ArrayIn, TagIn, SetOf;
    var pair := PairIn(c, d, plan, k);
    var blank, eaten := BlankText(pair.rest.after), Overlap(pair);
    var a := PairRenders(c, d, plan, k, r);
    if eaten <= |blank| && IsBlank(blank[eaten..]) {
      var now := FittingArray(c, d, plan, k, a);
      assert ComesOut(c, d, plan, k, r, now);
    }
    if now :| ComesOut(c, d, plan, k, r, now) {
      assert With(a, ValueText(Array(now))) == BeforePair(c, d, plan, k, a) + BehindPair(c, d, plan, k, a)[eaten..];
      FittedArray(c, d, plan, k, a, now);
    }
  }

  lemma FittingArray(c: Codec, d: Document, plan: RenderPlan, k: nat, a: Around) returns (now: Items)
    requires c.Valid() && DocumentOk(c, d) && LosesLastPair(c, d, plan, k) && OpsIn(c, d, plan, k) == []
    requires var pair := PairIn(c, d, plan, k);
             Overlap(pair) <= |BlankText(pair.rest.after)| && IsBlank(BlankText(pair.rest.after)[Overlap(pair)..])
    ensures var behind, eaten := BehindPair(c, d, plan, k, a), Overlap(PairIn(c, d, plan, k));
            && ItemsOk(c, now) && ItemValues(now) == PlannedIn(c, d, plan, k)
            && eaten <= |behind| && With(a, ValueText(Array(now))) == BeforePair(c, d, plan, k, a) + behind[eaten..]
  {
    hide LosesPair, RestRight, HasArray, Inbounds, ArrayOf, OpsOf, TagIn, RenderPlan.Adds, RenderPlan.Removes, RenderPlan.Sets;
    hide PlannedIn, PairRemoved, SetOf, IdsOf, NoRepeats, EmailsOf, UniqueClients, Trailing, Pair, DocumentOk, DocumentText, Codec.Valid;
    hide BlankText, KeptText, BehindText, KeptValues, ValueText, ItemsOk, ItemValues, FittedItems, EntryValues, IsBlank, Overlap;
    ArrayLosesPair(c, d, plan, k);
    var items, removes, ids := ArrayIn(c, d, plan, k), SetOf(RemovesIn(c, d, plan, k)), IdsOf(SetsIn(c, d, plan, k));
    now := FittedItems(c, DocumentText(d), items, |a.left|, removes, ids, []);
    ArrayInOk(c, d, plan, k);
    FittedOk(c, DocumentText(d), items, |a.left|, removes, ids, []);
    FittedText(c, DocumentText(d), items, |a.left|, removes, ids, [], a.left', a.right');
  }

  lemma FittedArray(c: Codec, d: Document, plan: RenderPlan, k: nat, a: Around, now: Items)
    requires c.Valid() && DocumentOk(c, d) && LosesLastPair(c, d, plan, k) && OpsIn(c, d, plan, k) == []
    requires ItemsOk(c, now) && ItemValues(now) == PlannedIn(c, d, plan, k)
    requires var behind, eaten := BehindPair(c, d, plan, k, a), Overlap(PairIn(c, d, plan, k));
             eaten <= |behind| && With(a, ValueText(Array(now))) == BeforePair(c, d, plan, k, a) + behind[eaten..]
    ensures var pair := PairIn(c, d, plan, k);
            Overlap(pair) <= |BlankText(pair.rest.after)| && IsBlank(BlankText(pair.rest.after)[Overlap(pair)..])
  {
    hide LosesPair, RestRight, HasArray, Inbounds, ArrayOf, OpsOf, TagIn, RenderPlan.Adds, RenderPlan.Removes, RenderPlan.Sets;
    hide PlannedIn, PairRemoved, SetOf, IdsOf, NoRepeats, EmailsOf, UniqueClients, Trailing, Pair, DocumentOk, DocumentText, Codec.Valid;
    hide BlankText, KeptText, KeptValues, TailText, ItemsText, ItemsOk, ItemValues, IsBlank, Overlap, SeparationAt;
    ArrayLosesPair(c, d, plan, k);
    var pair, items := PairIn(c, d, plan, k), ArrayIn(c, d, plan, k);
    var removes, ids := SetOf(RemovesIn(c, d, plan, k)), IdsOf(SetsIn(c, d, plan, k));
    var blank, eaten := BlankText(pair.rest.after), Overlap(pair);
    ArrayInOk(c, d, plan, k);
    var kept := KeptAlone(c, items, removes, ids);
    NoEntries(c);
    assert KeptValues(c, ItemValues(items), removes, ids) + [] == KeptValues(c, ItemValues(items), removes, ids);
    NothingAppended(c, Spaces(SeparationIn(c, d, plan, k, |a.left|)), blank, a.right');
    Stands(a.left', ItemsText(now), a.right', ItemsText(kept), blank, eaten);
    if eaten <= |blank| {
      GoesOnBlank(c, kept, now, blank[eaten..]);
    } else {
      ClosesOnce(c, kept, now, ItemsText(kept)[|ItemsText(now)| + 1..]);
    }
  }

  /** The kept entries by themselves: a list that goes on. */
  lemma KeptAlone(c: Codec, items: Items, removes: set<string>, ids: map<string, string>) returns (kept: Items)
    requires c.Valid() && PairRemoved(c, items, removes) && ItemsOk(c, items)
    ensures ItemsOk(c, kept) && Open(kept) && ItemValues(kept) == KeptValues(c, ItemValues(items), removes, ids)
    ensures KeptText(c, items, removes, ids) == "[" + ItemsText(kept)
  {
    hide PairRemoved, BlankText, KeptCore, KeptValues, KeptOnto, ItemsOk, ItemValues, ItemsText, Codec.Valid;
    PairShape(c, items, removes);
    kept := KeptOnto(c, items, items.before, removes, ids, End([]));
    ListBlankOk(c, items);
    EndOk(c, []);
    NoBlankText();
    KeptOntoOk(c, items, items.before, removes, ids, End([]));
    KeptOntoValues(c, items, items.before, removes, ids, End([]));
    KeptOntoText(c, items, items.before, removes, ids, End([]));
    KeptIsOpen(c, items, items.before, removes, ids);
    assert KeptCore(c, items, removes, ids) + "" == KeptCore(c, items, removes, ids);
    assert KeptValues(c, ItemValues(items), removes, ids) + [] == KeptValues(c, ItemValues(items), removes, ids);
  }

  lemma NoBlankText()
    ensures BlankText([]) == "" && BlankOk([])
  {}

  lemma {:induction false} KeptIsOpen(c: Codec, items: Items, b: Blank, removes: set<string>, ids: map<string, string>)
    requires PairRemoved(c, items, removes)
    ensures Open(KeptOnto(c, items, b, removes, ids, End([])))
    decreases items
  {
    hide PairRemoved, Removed, EditedEntry;
    PairShape(c, items, removes);
    if !items.rest.Last? {
      KeptIsOpen(c, items.rest, if Removed(c, items.value, removes) then b else items.rest.before, removes, ids);
    }
  }

  // ----- The same with entries to append

  /** The kept entries, a blank, the appended entries, and what stood before the bracket. */
  function AppendedAfter(c: Codec, d: Document, plan: RenderPlan, k: nat, pos: nat, z: Blank): Items
    requires LosesLastPair(c, d, plan, k) && OpsIn(c, d, plan, k) != []
  {
    var items, sep := ArrayIn(c, d, plan, k), Spaces(SeparationIn(c, d, plan, k, pos));
    var appended := EntriesItems(c, z, sep, OpsIn(c, d, plan, k), PairIn(c, d, plan, k).rest.after);
    KeptOnto(c, items, FirstBlank(items), SetOf(RemovesIn(c, d, plan, k)), IdsOf(SetsIn(c, d, plan, k)), appended)
  }

  lemma AppendedAfterHolds(c: Codec, d: Document, plan: RenderPlan, k: nat, pos: nat, z: Blank)
    requires c.Valid() && DocumentOk(c, d) && LosesLastPair(c, d, plan, k) && OpsIn(c, d, plan, k) != [] && BlankOk(z)
    ensures var now := AppendedAfter(c, d, plan, k, pos, z); ItemsOk(c, now) && ItemValues(now) == PlannedIn(c, d, plan, k)
  {
    hide LosesPair, RestRight, HasArray, Inbounds, ArrayOf, OpsOf, TagIn, RenderPlan.Adds, RenderPlan.Removes, RenderPlan.Sets;
    hide PlannedIn, PairRemoved, SetOf, IdsOf, NoRepeats, EmailsOf, UniqueClients, Trailing, Pair, DocumentOk, DocumentText, Codec.Valid;
    hide BlankText, BlankOk, KeptValues, ItemsOk, ItemValues, EntriesItems, EntryValues, SeparationAt, KeptOnto;
    ArrayLosesPair(c, d, plan, k);
    var items, sep, ops := ArrayIn(c, d, plan, k), Spaces(SeparationIn(c, d, plan, k, pos)), OpsIn(c, d, plan, k);
    var removes, ids := SetOf(RemovesIn(c, d, plan, k)), IdsOf(SetsIn(c, d, plan, k));
    var pair := PairIn(c, d, plan, k);
    var appended := EntriesItems(c, z, sep, ops, pair.rest.after);
    ArrayInOk(c, d, plan, k);
    ListBlankOk(c, items);
    PairOk(c, items, removes);
    SeparationBlank(c, DocumentText(d), ArrayIn(c, d, plan, k), pos);
    EntriesOk(c, z, sep, ops, pair.rest.after);
    EntriesValues(c, z, sep, ops, pair.rest.after);
    KeptOntoOk(c, items, FirstBlank(items), removes, ids, appended);
    KeptOntoValues(c, items, FirstBlank(items), removes, ids, appended);
  }

  lemma AppendedPlaced(c: Codec, d: Document, plan: RenderPlan, k: nat, a: Around, z: Blank)
    requires LosesLastPair(c, d, plan, k) && OpsIn(c, d, plan, k) != []
    ensures var sep, ops := SeparationIn(c, d, plan, k, |a.left|), OpsIn(c, d, plan, k);
            var joined := Join(EntryTexts(c, ops), "," + sep);
            var rest := joined + BlankText(PairIn(c, d, plan, k).rest.after) + "]" + a.right';
            && With(a, ValueText(Array(AppendedAfter(c, d, plan, k, |a.left|, z)))) == BeforePair(c, d, plan, k, a) + (BlankText(z) + rest)
            && BehindPair(c, d, plan, k, a) == "," + (sep + rest)
  {
    hide LosesPair, RestRight, HasArray, Inbounds, ArrayOf, OpsOf, TagIn, RenderPlan.Adds, RenderPlan.Removes, RenderPlan.Sets;
    hide PlannedIn, PairRemoved, SetOf, IdsOf, NoRepeats, EmailsOf, UniqueClients, Trailing, Pair, DocumentOk, DocumentText, Codec.Valid;
    hide BlankText, KeptText, ValueText, EntriesItems, EntryTexts, Join, KeptOnto, BehindText, SeparationAt;
    ArrayLosesPair(c, d, plan, k);
    AppendedInPlace(c, DocumentText(d), ArrayIn(c, d, plan, k), |a.left|, SetOf(RemovesIn(c, d, plan, k)), IdsOf(SetsIn(c, d, plan, k)),
                    OpsIn(c, d, plan, k), z, a.left', a.right');
  }

  /** No comment. */
  predicate OnlySpace(b: Blank) { forall i :: 0 <= i < |b| ==> b[i].Space? }

  lemma {:induction false} OnlySpaceText(b: Blank)
    requires BlankOk(b) && OnlySpace(b)
    ensures Ink(BlankText(b)) == 0
  {
    hide Ink;
    if b == [] {
      NoText();
    } else {
      OnlySpaceText(b[1..]);
      InkConcat(TriviumText(b[0]), BlankText(b[1..]));
      NoInk(TriviumText(b[0]));
    }
  }

  lemma SpacesInk(text: string)
    requires BlankOk(Spaces(text)) && BlankText(Spaces(text)) == text
    ensures Ink(text) == 0
  {
    hide Ink, BlankText;
    OnlySpaceText(Spaces(text));
  }

  lemma EntriesFirst(c: Codec, ops: seq<ClientOp>, sep: string)
    requires ops != []
    ensures var joined := Join(EntryTexts(c, ops), sep); joined != "" && joined[0] == '{'
  {
    hide Ink;
    assert EntryTexts(c, ops)[0] == EntryText(c, ops[0]);
    EntryBegins(c, ops[0]);
  }

  lemma EntryBegins(c: Codec, op: ClientOp)
    ensures EntryText(c, op) != "" && EntryText(c, op)[0] == '{'
  {}

  /** Where no comment stands before the bracket, what is left of the entries is no list of them: it has not the ink. */
  lemma AppendedReads(c: Codec, d: Document, plan: RenderPlan, k: nat, a: Around, now: Items)
    requires c.Valid() && DocumentOk(c, d) && LosesLastPair(c, d, plan, k) && OpsIn(c, d, plan, k) != []
    requires OnlySpace(PairIn(c, d, plan, k).rest.after)
    requires ItemsOk(c, now) && ItemValues(now) == PlannedIn(c, d, plan, k)
    requires var behind, eaten := BehindPair(c, d, plan, k, a), Overlap(PairIn(c, d, plan, k));
             eaten <= |behind| && With(a, ValueText(Array(now))) == BeforePair(c, d, plan, k, a) + behind[eaten..]
    ensures Overlap(PairIn(c, d, plan, k)) <= 1 + |SeparationIn(c, d, plan, k, |a.left|)|
  {
    hide LosesPair, RestRight, HasArray, Inbounds, ArrayOf, OpsOf, TagIn, RenderPlan.Adds, RenderPlan.Removes, RenderPlan.Sets;
    hide PlannedIn, PairRemoved, SetOf, IdsOf, NoRepeats, EmailsOf, UniqueClients, Trailing, Pair, DocumentOk, DocumentText, Codec.Valid;
    hide BlankText, KeptText, KeptValues, ItemsText, ItemsOk, ItemValues, Overlap, SeparationAt, Ink, InkOf, EntryTexts, Join, BehindText;
    hide EntryValues, EntriesItems, KeptOnto;
    ArrayLosesPair(c, d, plan, k);
    var pair, items, ops := PairIn(c, d, plan, k), ArrayIn(c, d, plan, k), OpsIn(c, d, plan, k);
    var removes, ids := SetOf(RemovesIn(c, d, plan, k)), IdsOf(SetsIn(c, d, plan, k));
    var sep, eaten := SeparationIn(c, d, plan, k, |a.left|), Overlap(pair);
    ArrayInOk(c, d, plan, k);
    var kept := KeptAlone(c, items, removes, ids);
    var appended := Join(EntryTexts(c, ops), "," + sep) + BlankText(pair.rest.after);
    AppendedInPlace(c, DocumentText(d), items, |a.left|, removes, ids, ops, [], a.left', a.right');
    SeparationBlank(c, DocumentText(d), items, |a.left|);
    if eaten > 1 + |sep| {
      var cut := eaten - 1 - |sep|;
      CutAppended(sep, appended, a.right', eaten);
      Stands(a.left', ItemsText(now), a.right', ItemsText(kept), appended, cut);
      if cut <= |appended| {
        PairOk(c, items, removes);
        AppendedInk(c, ops, sep, pair.rest.after, cut);
        NotEmpty(c, ops);
        GoesOnWithInk(c, kept, now, EntryValues(c, ops), appended[cut..]);
        assert false;
      } else {
        ClosesOnce(c, kept, now, ItemsText(kept)[|ItemsText(now)| + 1..]);
        assert false;
      }
    }
  }

  lemma NotEmpty(c: Codec, ops: seq<ClientOp>)
    requires ops != []
    ensures EntryValues(c, ops) != []
  {}

  lemma CutAppended(sep: string, appended: string, right: string, eaten: nat)
    requires 1 + |sep| <= eaten <= |"," + (sep + (appended + "]" + right))|
    ensures ("," + (sep + (appended + "]" + right)))[eaten..] == (appended + "]" + right)[eaten - 1 - |sep|..]
  {
    var rest := appended + "]" + right;
    assert ("," + (sep + rest))[1..] == sep + rest;
    assert (sep + rest)[|sep|..] == rest;
  }

  lemma AppendedInk(c: Codec, ops: seq<ClientOp>, sep: string, last: Blank, cut: nat)
    requires ops != [] && BlankOk(last) && OnlySpace(last) && BlankOk(Spaces(sep)) && BlankText(Spaces(sep)) == sep
    requires var appended := Join(EntryTexts(c, ops), "," + sep) + BlankText(last); 0 < cut <= |appended|
    ensures var appended := Join(EntryTexts(c, ops), "," + sep) + BlankText(last); Ink(appended[cut..]) < InkOf(EntryValues(c, ops))
  {
    hide Ink, InkOf, BlankText, BlankOk, EntryTexts, Join, EntryValues;
    var joined := Join(EntryTexts(c, ops), "," + sep);
    SpacesInk(sep);
    OnlySpaceText(last);
    JoinInk(c, ops, sep);
    InkConcat(joined, BlankText(last));
    EntriesFirst(c, ops, "," + sep);
    CutInk(joined + BlankText(last), cut);
  }

  /**
   * Entries appended: the array holds the kept entries, a blank and the appended ones, and every other byte is as edited,
   * if and only if the blank before the final entry is no longer than what separates appended entries. Nor is there then
   * any other array of the planned clients, unless a comment stands before the bracket.
   */
  lemma RemovingTheLastPairBeforeAppendsFitsExactly(c: Codec, d: Document, plan: RenderPlan, k: nat,
                                                    r: Rendering) returns (a: Around)
    requires c.Valid() && DocumentOk(c, d) && !plan.Empty() && RendersTo(c, DocumentText(d), plan, r)
    requires LosesLastPair(c, d, plan, k) && OpsIn(c, d, plan, k) != []
    ensures Frames(a, DocumentText(d), 0, ValueText(Array(ArrayIn(c, d, plan, k))))
    ensures (exists z :: BlankOk(z) && ComesOut(c, d, plan, k, r, AppendedAfter(c, d, plan, k, |a.left|, z)))
            <==> |BlankText(PairIn(c, d, plan, k).rest.before)| <= |SeparationIn(c, d, plan, k, |a.left|)|
    ensures OnlySpace(PairIn(c, d, plan, k).rest.after) ==>
              ((exists now :: ComesOut(c, d, plan, k, r, now))
               <==> |BlankText(PairIn(c, d, plan, k).rest.before)| <= |SeparationIn(c, d, plan, k, |a.left|)|)
  {
    hide LosesPair, RestRight, HasArray, Inbounds, ArrayIn, OpsIn, TagIn, RemovesIn, SetsIn;
    hide DocumentOk, DocumentText, DocumentWith, RendersTo, Codec.Valid, ItemsOk, ItemValues, PlannedIn, BlankText, BlankOk;
    hide OnlySpace, AppendedAfter, With, BeforePair, BehindPair, PairIn, SetOf, SeparationAt, Join, EntryTexts, Frames;
    a := PairRenders(c, d, plan, k, r);
    var eaten, sep := Overlap(PairIn(c, d, plan, k)), SeparationIn(c, d, plan, k, |a.left|);
    var before, behind := BeforePair(c, d, plan, k, a), BehindPair(c, d, plan, k, a);
    var rest := Join(EntryTexts(c, OpsIn(c, d, plan, k)), "," + sep) + BlankText(PairIn(c, d, plan, k).rest.after) + "]" + a.right';
    SeparationBlank(c, DocumentText(d), ArrayIn(c, d, plan, k), |a.left|);
    forall z: Blank
      ensures var now := AppendedAfter(c, d, plan, k, |a.left|, z);
              BlankOk(z) ==> ItemsOk(c, now) && ItemValues(now) == PlannedIn(c, d, plan, k)
      ensures With(a, ValueText(Array(AppendedAfter(c, d, plan, k, |a.left|, z)))) == before + (BlankText(z) + rest)
    {
      if BlankOk(z) {
        AppendedAfterHolds(c, d, plan, k, |a.left|, z);
      }
      AppendedPlaced(c, d, plan, k, a, z);
    }
    AppendedPlaced(c, d, plan, k, a, []);
    if eaten <= 1 + |sep| {
      var z := Spaces(sep[eaten - 1..]);
      EatenSeparation(before, BlankText(z), sep, rest, eaten);
      assert ComesOut(c, d, plan, k, r, AppendedAfter(c, d, plan, k, |a.left|, z));
    } else if z :| BlankOk(z) && ComesOut(c, d, plan, k, r, AppendedAfter(c, d, plan, k, |a.left|, z)) {
      EatenSeparation(before, BlankText(z), sep, rest, eaten);
    }
    if now :| OnlySpace(PairIn(c, d, plan, k).rest.after) && ComesOut(c, d, plan, k, r, now) {
      AppendedReads(c, d, plan, k, a, now);
    }
  }

  /** With one there may be: what is cut may end in a comment that repeats the entries. */
  lemma CommentReadAsEntries(c: Codec, d: Document, plan: RenderPlan, k: nat, r: Rendering) returns (a: Around, now: Items)
    requires c.Valid() && DocumentOk(c, d) && !plan.Empty() && RendersTo(c, DocumentText(d), plan, r)
    requires LosesLastPair(c, d, plan, k) && OpsIn(c, d, plan, k) != []
    ensures Frames(a, DocumentText(d), 0, ValueText(Array(ArrayIn(c, d, plan, k))))
    ensures var pair, sep := PairIn(c, d, plan, k), SeparationIn(c, d, plan, k, |a.left|);
            var joined := Join(EntryTexts(c, OpsIn(c, d, plan, k)), "," + sep);
            pair.rest.after == [LineComment(joined)] && |BlankText(pair.rest.before)| == |sep| + |joined| + 2 ==>
              ComesOut(c, d, plan, k, r, now)
  {
    hide LosesPair, RestRight, HasArray, Inbounds, ArrayOf, OpsOf, TagIn, RenderPlan.Adds, RenderPlan.Removes, RenderPlan.Sets, RendersTo;
    hide PlannedIn, PairRemoved, SetOf, IdsOf, NoRepeats, EmailsOf, UniqueClients, Trailing, Pair, DocumentOk, DocumentText, Codec.Valid;
    hide BlankText, BlankOk, KeptText, KeptValues, ItemsText, ItemsOk, ItemValues, SeparationAt, EntryTexts, Join, BehindText, DocumentWith;
    hide EntryValues, EntriesItems, KeptOnto, Frames;
    a := PairRenders(c, d, plan, k, r);
    ArrayLosesPair(c, d, plan, k);
    var pair, items, ops := PairIn(c, d, plan, k), ArrayIn(c, d, plan, k), OpsIn(c, d, plan, k);
    var removes, ids := SetOf(RemovesIn(c, d, plan, k)), IdsOf(SetsIn(c, d, plan, k));
    var sep := SeparationIn(c, d, plan, k, |a.left|);
    var joined, z := Join(EntryTexts(c, ops), "," + sep), Spaces(sep);
    var end := EntriesItems(c, [], z, ops, [Space('\n')]);
    now := KeptOnto(c, items, FirstBlank(items), removes, ids, end);
    PairShape(c, items, removes);
    SeparationBlank(c, DocumentText(d), items, |a.left|);
    if pair.rest.after == [LineComment(joined)] && |BlankText(pair.rest.before)| == |sep| + |joined| + 2 {
      CommentText(joined);
      AppendedInPlace(c, DocumentText(d), items, |a.left|, removes, ids, ops, [], a.left', a.right');
      CutAppended(sep, joined + ("//" + joined + "\n"), a.right', Overlap(pair));
      CutComment(joined, a.right');
      EntriesText(c, [], z, ops, [Space('\n')]);
      KeptOntoPlaced(c, items, removes, ids, end, a.left', a.right');
      assert "" + (joined + "\n") == joined + "\n";
      ArrayInOk(c, d, plan, k);
      ListBlankOk(c, items);
      EntriesOk(c, [], z, ops, [Space('\n')]);
      EntriesValues(c, [], z, ops, [Space('\n')]);
      KeptOntoOk(c, items, items.before, removes, ids, end);
      KeptOntoValues(c, items, items.before, removes, ids, end);
    }
  }

  lemma CommentText(text: string)
    ensures BlankText([LineComment(text)]) == "//" + text + "\n"
    ensures BlankText([Space('\n')]) == "\n" && BlankText([]) == "" && BlankOk([Space('\n')]) && BlankOk([])
  {
    assert [LineComment(text)][1..] == [] && [Space('\n')][1..] == [];
  }

  lemma CutComment(joined: string, right: string)
    ensures (joined + ("//" + joined + "\n") + "]" + right)[|joined| + 2..] == joined + "\n" + "]" + right
  {}

  // ----- The only entry of an array replaced

  /** One clients array loses its only entry and gains others; every other inbound comes right. */
  ghost predicate ReplacesOnlyEntry(c: Codec, d: Document, plan: RenderPlan, k: nat) {
    && k < |Inbounds(c, d)| && HasArray(c, Inbounds(c, d)[k], plan) && RestRight(c, d, plan, k)
    && var items := ArrayIn(c, d, plan, k);
       && Disjoint(AddsIn(c, d, plan, k), RemovesIn(c, d, plan, k), SetsIn(c, d, plan, k))
       && UniqueClients(c, ItemValues(items)) && LastRemoved(c, items, SetOf(RemovesIn(c, d, plan, k)))
       && OpsIn(c, d, plan, k) != []
  }

  lemma OnlyEntryEdits(c: Codec, items: Items, pos: nat, removes: set<string>, ids: map<string, string>)
    requires LastRemoved(c, items, removes)
    ensures var start := pos + |BlankText(items.before)|;
            var end := start + |ValueText(items.value)|;
            ItemEdits(c, items, pos, removes, ids) == [TextEdit(start, end, "")] && LastEnd(items, pos) == end
    ensures NoLastPair(c, items, removes) && !Trailing(items)
  {
    hide BlankText, ValueText, Removed;
  }

  lemma OnlyEntryPlan(c: Codec, document: string, items: Items, pos: nat, removes: seq<string>, sets: seq<ClientOp>,
                      ops: seq<ClientOp>)
    requires LastRemoved(c, items, SetOf(removes)) && UniqueClients(c, ItemValues(items)) && ops != []
    requires NoRepeats(removes) && NoRepeats(EmailsOf(sets)) && forall e :: e in removes ==> e !in EmailsOf(sets)
    ensures var clients, start := TreeOf(c, Array(items), pos), pos + 1 + |BlankText(items.before)|;
            var end := start + |ValueText(items.value)|;
            && clients.items != []
            && multiset(ArrayPlan(c, document, clients, removes, sets, ops)) ==
               multiset([TextEdit(start, end, "")] + TailEdits(c, Spaces(Separation(document, clients)), ops, end))
  {
    hide TreeOf, ArrayPlan, TailEdits, EditsFrom, Suffix, UniqueClients, IdsOf, SetOf, Separation, NoRepeats, EmailsOf;
    hide Removed, BlankText, ValueText, ItemEdits, LastEnd, ItemValues, Trailing, NoLastPair;
    var all := SetOf(removes);
    OnlyEntryEdits(c, items, pos + 1, all, IdsOf(sets));
    EntryPlan(c, document, items, pos, removes, sets, ops);
    EditsFromItems(c, TreeOf(c, Array(items), pos), 0, items, pos + 1, all, IdsOf(sets));
  }

  /** The append goes in where the entry was; the blank before it is followed by a comma. */
  lemma OnlyEntryAchieves(c: Codec, sep: Blank, ops: seq<ClientOp>, b: string, v: string, last: Blank, pos: nat)
    requires v != ""
    ensures var start := pos + 1 + |b|;
            Achieves("[" + (b + (v + BlankText(last))) + "]",
                     [TextEdit(start, start + |v|, "")] + TailEdits(c, sep, ops, start + |v|),
                     [TextEdit(start, start + |v|, "")] + TailEdits(c, sep, ops, start + |v|), pos,
                     "[" + (b + (TailText(c, sep, ops) + BlankText(last))) + "]")
  {
    hide EditsTo, Ascends, TailEdits, TailText, BlankText, Achieves;
    var start := pos + 1 + |b|;
    var end, blank, rest := start + |v|, BlankText(last), TailText(c, sep, ops) + BlankText(last);
    var removal, tail := [TextEdit(start, end, "")], TailEdits(c, sep, ops, end);
    TailEditsTo(c, sep, ops, last, end);
    TailAscends(c, sep, ops, end);
    EditsToWhole(v, "", start);
    EditsToConcat(v, blank, removal, tail, start, "", rest);
    assert "" + rest == rest;
    OneEdit(start, end, end);
    EditsToPrefix(b, v + blank, removal + tail, pos + 1, rest);
    EditsToPrefix("[", b + (v + blank), removal + tail, pos, b + rest);
    EditsToSuffix("[" + (b + (v + blank)), "]", removal + tail, pos, "[" + (b + rest));
    var high := pos + |"[" + (b + (v + blank)) + "]"|;
    AscendsWiden(removal, start, end, pos, end);
    AscendsWiden(tail, end, end + 1, end, high);
    AscendsConcat(removal, tail, pos, end, high);
    AchievesFrom("[" + (b + (v + blank)) + "]", removal + tail, pos, "[" + (b + rest) + "]");
  }

  lemma AchievesFrom(text: string, edits: seq<TextEdit>, offset: nat, result: string)
    requires Ascends(edits, offset, offset + |text|) && EditsTo(text, edits, offset, result)
    ensures Achieves(text, edits, edits, offset, result)
  {}

  lemma SameAchieves(text: string, planned: seq<TextEdit>, edits: seq<TextEdit>, offset: nat, result: string)
    requires Achieves(text, edits, edits, offset, result) && multiset(planned) == multiset(edits)
    ensures Achieves(text, planned, edits, offset, result)
  {}

  lemma OnlyEntryLands(c: Codec, document: string, items: Items, pos: nat, removes: seq<string>, sets: seq<ClientOp>,
                       ops: seq<ClientOp>) returns (behind: string)
    requires LastRemoved(c, items, SetOf(removes)) && UniqueClients(c, ItemValues(items)) && ops != []
    requires NoRepeats(removes) && NoRepeats(EmailsOf(sets)) && forall e :: e in removes ==> e !in EmailsOf(sets)
    ensures var planned := ArrayPlan(c, document, TreeOf(c, Array(items), pos), removes, sets, ops);
            && planned != []
            && Lands(ValueText(Array(items)), planned, pos, "[" + (BlankText(items.before) + ("," + behind)) + "]")
  {
    hide TreeOf, ArrayPlan, TailEdits, UniqueClients, IdsOf, SetOf, Separation, NoRepeats, EmailsOf;
    hide Removed, BlankText, ValueText, ItemValues, Achieves, Lands, Join, EntryTexts;
    var clients := TreeOf(c, Array(items), pos);
    OnlyEntryPlan(c, document, items, pos, removes, sets, ops);
    RemovedHasText(c, items.value, SetOf(removes));
    var sep, b, v := Spaces(Separation(document, clients)), BlankText(items.before), ValueText(items.value);
    var start := pos + 1 + |b|;
    var edits := [TextEdit(start, start + |v|, "")] + TailEdits(c, sep, ops, start + |v|);
    var planned := ArrayPlan(c, document, clients, removes, sets, ops);
    behind := BlankText(sep) + Join(EntryTexts(c, ops), "," + BlankText(sep)) + BlankText(items.after);
    var result := "[" + (b + (TailText(c, sep, ops) + BlankText(items.after))) + "]";
    OnlyEntryAchieves(c, sep, ops, b, v, items.after, pos);
    OnlyText(items);
    SameAchieves(ValueText(Array(items)), planned, edits, pos, result);
    AchievesLands(ValueText(Array(items)), planned, edits, pos, result);
    CommaFirst(BlankText(sep), Join(EntryTexts(c, ops), "," + BlankText(sep)), BlankText(items.after));
    NotNone(planned, TextEdit(start, start + |v|, ""), TailEdits(c, sep, ops, start + |v|));
  }

  lemma NotNone(planned: seq<TextEdit>, first: TextEdit, rest: seq<TextEdit>)
    requires multiset(planned) == multiset([first] + rest)
    ensures planned != []
  {
    assert first in multiset([first] + rest);
    assert planned == [] ==> multiset(planned) == multiset{};
  }

  lemma CommaFirst(sep: string, joined: string, last: string)
    ensures ("," + (sep + joined)) + last == "," + (sep + joined + last)
    ensures ("," + sep + joined) + last == "," + (sep + joined + last)
  {}

  lemma OnlyText(items: Items)
    requires items.Last?
    ensures ValueText(Array(items)) == "[" + (BlankText(items.before) + (ValueText(items.value) + BlankText(items.after))) + "]"
  {
    hide BlankText;
    assert ItemsText(items) == BlankText(items.before) + (ValueText(items.value) + BlankText(items.after));
  }

  /** The whole document: a comma behind the bracket and the blank. */
  lemma OnlyEntrySpliced(c: Codec, d: Document, plan: RenderPlan, k: nat, a: Around) returns (behind: string)
    requires ReplacesOnlyEntry(c, d, plan, k) && Frames(a, DocumentText(d), 0, ValueText(Array(ArrayIn(c, d, plan, k))))
    ensures var planned, items := a.before + PlanIn(c, d, plan, k, |a.left|) + a.behind, ArrayIn(c, d, plan, k);
            && planned != []
            && Lands(DocumentText(d), planned, 0, a.left' + ("[" + BlankText(items.before)) + ("," + behind))
  {
    hide DocumentText, Lands, HasArray, UniqueClients, ItemValues, Disjoint, Inbounds, ArrayOf, RestRight, Removed;
    hide SetOf, ValueText, TreeOf, ArrayPlan, Remaining, BlankText, RenderPlan.Adds, RenderPlan.Removes, RenderPlan.Sets;
    var items, removes, sets := ArrayIn(c, d, plan, k), RemovesIn(c, d, plan, k), SetsIn(c, d, plan, k);
    var planned, text, b := PlanIn(c, d, plan, k, |a.left|), ValueText(Array(items)), BlankText(items.before);
    DisjointParts(AddsIn(c, d, plan, k), removes, sets);
    var own := OnlyEntryLands(c, DocumentText(d), items, |a.left|, removes, sets, OpsIn(c, d, plan, k));
    var text' := "[" + (b + ("," + own)) + "]";
    LandsConcat(a.left, text, a.before, planned, 0, a.left', text');
    LandsConcat(a.left + text, a.right, a.before + planned, a.behind, 0, a.left' + text', a.right');
    behind := own + "]" + a.right';
    RegroupOnly(a.left', b, own, a.right');
  }

  lemma RegroupOnly(left: string, b: string, own: string, right: string)
    ensures left + ("[" + (b + ("," + own)) + "]") + right == left + ("[" + b) + ("," + (own + "]" + right))
  {}

  /** No list begins with a comma. */
  lemma NoCommaFirst(c: Codec, now: Items, b: Blank, left: string, right: string, behind: string)
    requires ItemsOk(c, now) && BlankOk(b)
    ensures left + ("[" + ItemsText(now) + "]") + right != left + ("[" + BlankText(b)) + ("," + behind)
  {
    hide BlankText, BlankOk, ValueText, ValueOk;
    var core := CoreText(now);
    ListBlankOk(c, now);
    ItemsTextCore(now);
    if left + ("[" + ItemsText(now) + "]") + right == left + ("[" + BlankText(b)) + ("," + behind) {
      var rest := core + "]" + right;
      assert left + ("[" + ItemsText(now) + "]") + right == (left + "[") + (BlankText(FirstBlank(now)) + rest);
      assert left + ("[" + BlankText(b)) + ("," + behind) == (left + "[") + (BlankText(b) + ("," + behind));
      SamePrefix(left + "[", BlankText(FirstBlank(now)) + rest, left + "[", BlankText(b) + ("," + behind));
      if now.End? {
        assert rest == "]" + right;
      } else {
        FirstChar(c, now.value);
        FirstOfCore(now);
        assert rest[0] == core[0];
      }
      SameBlank(FirstBlank(now), b, rest, "," + behind);
    }
  }

  lemma FirstOfCore(items: Items)
    requires !items.End? && ValueText(items.value) != ""
    ensures CoreText(items) != "" && CoreText(items)[0] == ValueText(items.value)[0]
  {}

  /** Replacing the only entry of an array never comes out right: a comma is left behind the bracket, and no list begins so. */
  lemma ReplacingTheOnlyEntryNeverFits(c: Codec, d: Document, plan: RenderPlan, k: nat, r: Rendering, now: Items)
    requires c.Valid() && DocumentOk(c, d) && !plan.Empty() && RendersTo(c, DocumentText(d), plan, r)
    requires ReplacesOnlyEntry(c, d, plan, k) && ItemsOk(c, now)
    ensures r.Rendered? && r.text != DocumentText(DocumentWith(c, d, plan, k, now))
  {
    hide DocumentOk, TreeOf, ParseDocument, PlanDocument, DocumentText, RenderPlan.Empty, Achieves, Spliceable;
    hide ApplyAll, Descending, ArrayPlan;
    hide HasArray, RestRight, UniqueClients, ItemValues, Disjoint, ArrayOf, Remaining, Frames, ItemsText;
    hide Codec.Valid, ItemsOk, BlankText, BlankOk, Removed;
    hide RenderPlan.Adds, RenderPlan.Removes, RenderPlan.Sets, DocumentWith, Inbounds, SetOf;
    var document, items := DocumentText(d), ArrayIn(c, d, plan, k);
    var a := DocumentAround(c, d, plan, k);
    ParseDocumentText(c, d);
    ArrayInOk(c, d, plan, k);
    ListBlankOk(c, items);
    var planned := PlanDocument(c, document, TreeOf(c, d.root, |BlankText(d.lead)|), plan).edits;
    var behind := OnlyEntrySpliced(c, d, plan, k, a);
    var sorted :| multiset(sorted) == multiset(planned) && Descending(sorted)
                  && r == if Spliceable(document, sorted) then Rendered(ApplyAll(document, sorted), true) else Crashes;
    LandsWhole(document, planned, a.left' + ("[" + BlankText(items.before)) + ("," + behind), sorted);
    NoCommaFirst(c, now, items.before, a.left', a.right', behind);
  }

  /** Without a clients key even a plan that only removes inserts one, empty. */
  lemma RemovalsAloneInsertTheKey(c: Codec, document: string, props: Props, pos: nat, removes: seq<string>)
    requires FindProp(c, props, "clients").None?
    ensures SettingsEdits(c, document, TreeOf(c, Object(props), pos), [], removes, []) ==
            Planned([PlanKeyInsert(c, document, TreeOf(c, Object(props), pos), [])])
  {
    hide TreeOf, FindProp, Get, PlanKeyInsert;
    GetValue(c, props, "clients", pos);
    assert DropEmails([] + [], set e | e in removes) == [];
  }
}
