/** Documents every inbound of which comes right, trailing commas and removed last pairs among them. */
module RenderOutcome {
  import opened JsoncParser
  import opened JsoncSyntax
  import opened JsoncTrees
  import opened Options
  import opened RenderArrays
  import opened RenderClients
  import opened RenderContext
  import opened RenderInbounds
  import opened RenderLists
  import opened RenderMeaning
  import opened RenderOrder
  import opened RenderPairs
  import opened RenderPlanner
  import opened RenderResult
  import opened RenderSyntax
  import opened TextEdits
  import opened TextLandings

  /** The document each inbound of which is as it comes out. */
  ghost function OutcomeDocument(c: Codec, d: Document, plan: RenderPlan): Document {
    if InboundItems(c, d).None? then d
    else
      var now := Array(Outcomes(c, DocumentText(d), InboundItems(c, d).value, InboundsPos(c, d), plan));
      d.(root := Object(ReplaceProp(c, d.root.props, "inbounds", now)))
  }

  lemma DocumentLands(c: Codec, d: Document, plan: RenderPlan) returns (planned: seq<TextEdit>)
    requires InboundItems(c, d).Some? && DocumentRight(c, d, plan)
    ensures PlanDocument(c, DocumentText(d), TreeOf(c, d.root, |BlankText(d.lead)|), plan) == Planned(planned)
    ensures Lands(DocumentText(d), planned, 0, DocumentText(OutcomeDocument(c, d, plan)))
  {
    hide ReplaceProp, FindProp, FindPos, TreeOf, Lands, ItemsText, DocumentText, PlanDocument, AllEdits, Outcomes, ItemNodes, AllRight;
    hide BlankText;
    var document, items, at := DocumentText(d), InboundItems(c, d).value, InboundsPos(c, d);
    PlanOfDocument(c, document, d, |BlankText(d.lead)|, plan);
    planned := OutcomesLand(c, document, items, at, plan);
    var l, r := RootAround(c, d);
    LandsAmong(l, ItemsText(items), r, planned, 0, ItemsText(Outcomes(c, document, items, at, plan)));
  }

  /** However the edits were sorted, the rendered text is that of this document. */
  lemma RenderComesRight(c: Codec, d: Document, plan: RenderPlan, r: Rendering)
    requires DocumentOk(c, d) && !plan.Empty() && RendersTo(c, DocumentText(d), plan, r)
    requires InboundItems(c, d).Some? && DocumentRight(c, d, plan)
    ensures r.Rendered? && r.text == DocumentText(OutcomeDocument(c, d, plan))
  {
    hide DocumentOk, TreeOf, ParseDocument, PlanDocument, DocumentText, RenderPlan.Empty, OutcomeDocument, Lands, Spliceable, ApplyAll;
    hide Descending, DocumentRight;
    var document, result := DocumentText(d), DocumentText(OutcomeDocument(c, d, plan));
    var planned := DocumentLands(c, d, plan);
    ParseDocumentText(c, d);
    if planned == [] {
      NothingApplied(document);
      LandsWhole(document, planned, result, []);
    } else {
      var sorted :| multiset(sorted) == multiset(planned) && Descending(sorted)
                    && r == if Spliceable(document, sorted) then Rendered(ApplyAll(document, sorted), true) else Crashes;
      LandsWhole(document, planned, result, sorted);
    }
  }

  /** It parses as it stands; its inbounds hold the planned clients, and everything else is as before. */
  lemma OutcomeMeaning(c: Codec, d: Document, plan: RenderPlan)
    requires c.Valid() && DocumentOk(c, d) && InboundItems(c, d).Some? && DocumentRight(c, d, plan)
    ensures var edited := OutcomeDocument(c, d, plan);
            var text, before, after := DocumentText(edited), Inbounds(c, d), Inbounds(c, edited);
            && DocumentOk(c, edited)
            && ParseDocument(c, text) == Parsed(TreeOf(c, edited.root, |BlankText(d.lead)|), |text|)
            && (forall k :: k != "inbounds" ==> PropOf(c, edited.root, k) == PropOf(c, d.root, k))
            && |after| == |before|
            && forall i :: 0 <= i < |before| ==> InboundRendered(c, before[i], after[i], plan) && OthersKept(c, before[i], after[i])
  {
    hide TreeOf, ParseDocument, DocumentText, ReplaceProp, Outcomes, FindPos, FindProp, Codec.Valid, AllRight, InboundRendered;
    hide OthersKept, PropsOk, ItemsOk, BlankOk;
    var props, items := d.root.props, InboundItems(c, d).value;
    ObjectPropsOk(c, props);
    FoundOk(c, props, "inbounds");
    ArrayItemsOk(c, items);
    OutcomesHold(c, DocumentText(d), items, InboundsPos(c, d), plan);
    var now := Array(Outcomes(c, DocumentText(d), items, InboundsPos(c, d), plan));
    ArrayItemsOk(c, now.items);
    ReplacedProp(c, props, "inbounds", now);
    ReplacedPropOk(c, props, "inbounds", now);
    ObjectPropsOk(c, ReplaceProp(c, props, "inbounds", now));
    ParseDocumentText(c, OutcomeDocument(c, d, plan));
  }

  // ----- Rendering again

  /** An inbound that comes right is as the plan wants it. */
  lemma RightSettled(c: Codec, document: string, was: Value, now: Value, pos: nat, plan: RenderPlan)
    requires c.Valid() && ComesRight(c, document, was, plan, pos) && InboundRendered(c, was, now, plan)
    ensures InboundSettled(c, now, plan)
  {
    hide Codec.Valid, FindProp, RenderPlan.Manages, RenderPlan.Adds, RenderPlan.Removes, RenderPlan.Sets, PlannedClients, Settled, Disjoint;
    hide IsVless, UniqueClients, ItemValues, PairFits, InboundEditable, FindPos, Remaining;
    if InboundEditable(c, was, plan) {
      RenderedInboundSettled(c, was, now, plan);
    } else {
      var tag, props := StringOf(c, was, "tag").value, PropOf(c, was, "settings").value.props;
      PlannedClientsSettled(c, ClientsOf(c, props), plan.Adds(tag), plan.Removes(tag), plan.Sets(tag));
    }
  }

  lemma {:induction false} AllRightSettled(c: Codec, document: string, items: Items, pos: nat, plan: RenderPlan, now: Items)
    requires c.Valid() && AllRight(c, document, items, pos, plan) && |ItemValues(now)| == |ItemValues(items)|
    requires forall i :: 0 <= i < |ItemValues(items)| ==> InboundRendered(c, ItemValues(items)[i], ItemValues(now)[i], plan)
    ensures AllSettled(c, ItemValues(now), plan)
  {
    hide Codec.Valid, ComesRight, InboundRendered, InboundSettled;
    forall i | 0 <= i < |ItemValues(now)|
      ensures InboundSettled(c, ItemValues(now)[i], plan)
    {
      var at := RightAt(c, document, items, pos, plan, i);
      RightSettled(c, document, ItemValues(items)[i], ItemValues(now)[i], at, plan);
    }
  }

  lemma {:induction false} RightAt(c: Codec, document: string, items: Items, pos: nat, plan: RenderPlan, i: nat) returns (at: nat)
    requires AllRight(c, document, items, pos, plan) && i < |ItemValues(items)|
    ensures ComesRight(c, document, ItemValues(items)[i], plan, at)
    decreases items
  {
    hide ComesRight, BlankText;
    at := pos + |BlankText(FirstBlank(items))|;
    if i > 0 {
      at := RightAt(c, document, items.rest, RestPos(items, pos), plan, i - 1);
    }
  }

  /** Every email ends as the plan asks, on every inbound it names. */
  lemma OutcomeSettles(c: Codec, d: Document, plan: RenderPlan)
    requires c.Valid() && DocumentOk(c, d) && InboundItems(c, d).Some? && DocumentRight(c, d, plan)
    ensures var edited := OutcomeDocument(c, d, plan);
            DocumentOk(c, edited) && InboundItems(c, edited).Some? && AllSettled(c, Inbounds(c, edited), plan)
  {
    hide Codec.Valid, DocumentOk, DocumentText, AllRight, AllSettled, InboundRendered, OthersKept, ReplaceProp, FindProp, Outcomes, TreeOf;
    hide ParseDocument, InboundsPos, ItemValues;
    var items, at := InboundItems(c, d).value, InboundsPos(c, d);
    OutcomeMeaning(c, d, plan);
    ReplacedProp(c, d.root.props, "inbounds", Array(Outcomes(c, DocumentText(d), items, at, plan)));
    var now := InboundItems(c, OutcomeDocument(c, d, plan)).value;
    AllRightSettled(c, DocumentText(d), items, at, plan, now);
  }

  /** Rendering the same plan on the rendered text returns it unchanged. */
  lemma OutcomeStands(c: Codec, d: Document, plan: RenderPlan, r: Rendering, again: Rendering)
    requires c.Valid() && DocumentOk(c, d) && !plan.Empty() && InboundItems(c, d).Some? && DocumentRight(c, d, plan)
    requires RendersTo(c, DocumentText(d), plan, r) && r.Rendered? && RendersTo(c, r.text, plan, again)
    ensures again == Rendered(r.text, false)
    ensures r.changed <==> r.text != DocumentText(d)
  {
    hide Codec.Valid, DocumentOk, DocumentText, DocumentRight, AllSettled, RenderPlan.Empty, RendersTo, InboundItems, OutcomeDocument;
    var edited := OutcomeDocument(c, d, plan);
    RenderComesRight(c, d, plan, r);
    OutcomeSettles(c, d, plan);
    SettledDocument(c, edited, plan, again);
    if r.text == DocumentText(d) {
      SettledDocument(c, edited, plan, r);
    } else {
      ChangedIfDifferent(c, d, plan, r);
    }
  }

  lemma ChangedIfDifferent(c: Codec, d: Document, plan: RenderPlan, r: Rendering)
    requires RendersTo(c, DocumentText(d), plan, r) && r.Rendered? && r.text != DocumentText(d)
    ensures r.changed
  {
    hide DocumentText, ParseDocument, PlanDocument, Spliceable, ApplyAll, Descending, RenderPlan.Empty;
  }
}
