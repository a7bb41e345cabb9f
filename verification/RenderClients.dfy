/** RenderClients: one roster plan carried into a configuration document. */
module RenderClients {
  import opened JsoncParser
  import opened JsoncReader
  import opened JsoncSyntax
  import opened JsoncTrees
  import opened Options
  import opened RenderArrays
  import opened RenderEntries
  import opened RenderInbounds
  import opened RenderLists
  import opened RenderMeaning
  import opened RenderOrder
  import opened RenderPlanner
  import opened RenderResult
  import opened RenderSettings
  import opened RenderSyntax
  import opened Sequences
  import opened TextEdits

  /** Hangs: the parser loops for ever. Crashes: an edit's span lies outside what the ones before it left. */
  datatype Rendering = Rendered(text: string, changed: bool) | Refusal | Hangs | Crashes

  /** What planning the whole document comes to. */
  function PlanDocument(c: Codec, document: string, root: Node, plan: RenderPlan): Planning {
    match Get(root, "inbounds")
    case Some(inbounds) => if inbounds.kind == '[' then AllEdits(c, document, inbounds.items, plan) else Refused
    case None => Refused
  }

  /** Carrying out planned edits in some descending order. */
  ghost predicate CarriesOut(document: string, planned: seq<TextEdit>, r: Rendering) {
    if planned == [] then r == Rendered(document, false)
    else
      exists sorted: seq<TextEdit> :: multiset(sorted) == multiset(planned) && Descending(sorted)
        && r == if Spliceable(document, sorted) then Rendered(ApplyAll(document, sorted), true) else Crashes
  }

  /** What a render may answer; only the order of edits at one offset is left open. */
  ghost predicate RendersTo(c: Codec, document: string, plan: RenderPlan, r: Rendering) {
    if plan.Empty() then r == Rendered(document, false)
    else
      match ParseDocument(c, document)
      case Malformed => r == Refusal
      case Stuck => r == Hangs
      case Parsed(root, _) =>
        match PlanDocument(c, document, root, plan)
        case Refused => r == Refusal
        case Planned(edits) => CarriesOut(document, edits, r)
  }

  // ----- The edited document

  function InboundItems(c: Codec, d: Document): Option<Items> {
    match PropOf(c, d.root, "inbounds")
    case Some(Array(items)) => Some(items)
    case _ => None
  }

  function Inbounds(c: Codec, d: Document): seq<Value> {
    match InboundItems(c, d)
    case None => []
    case Some(items) => ItemValues(items)
  }

  function EditedDocument(c: Codec, d: Document, plan: RenderPlan): Document {
    match InboundItems(c, d)
    case None => d
    case Some(items) =>
      var at := FindPos(c, d.root.props, "inbounds", |BlankText(d.lead)| + 1);
      var edited := Array(EditedInbounds(c, DocumentText(d), items, at + 1, plan));
      d.(root := Object(ReplaceProp(c, d.root.props, "inbounds", edited)))
  }

  lemma PlanOfDocument(c: Codec, document: string, d: Document, pos: nat, plan: RenderPlan)
    ensures PlanDocument(c, document, TreeOf(c, d.root, pos), plan) ==
            match InboundItems(c, d)
            case None => Refused
            case Some(items) =>
              AllEdits(c, document, ItemNodes(c, items, FindPos(c, d.root.props, "inbounds", pos + 1) + 1), plan)
  {
    hide TreeOf, FindProp, FindPos, Get, AllEdits, ItemNodes;
    GetOfTree(c, d.root, "inbounds", pos);
    if PropOf(c, d.root, "inbounds").Some? {
      TreeShape(c, PropOf(c, d.root, "inbounds").value, FindPos(c, d.root.props, "inbounds", pos + 1));
    }
  }

  /** A plan is refused exactly when there is no inbounds array or a managed inbound cannot take clients. */
  lemma RefusedExactly(c: Codec, d: Document, plan: RenderPlan, r: Rendering)
    requires DocumentOk(c, d) && !plan.Empty() && RendersTo(c, DocumentText(d), plan, r)
    ensures r == Refusal <==> InboundItems(c, d).None? || !AllServiceable(c, Inbounds(c, d), plan)
    ensures r != Hangs
  {
    hide DocumentOk, TreeOf, ParseDocument, PlanDocument, DocumentText, RenderPlan.Empty, Spliceable, ApplyAll, Descending;
    hide InboundItems, Inbounds, AllServiceable;
    ParseDocumentText(c, d);
    PlanRefused(c, d, plan);
  }

  lemma PlanRefused(c: Codec, d: Document, plan: RenderPlan)
    ensures PlanDocument(c, DocumentText(d), TreeOf(c, d.root, |BlankText(d.lead)|), plan).Refused? <==>
            InboundItems(c, d).None? || !AllServiceable(c, Inbounds(c, d), plan)
  {
    hide TreeOf, PlanDocument, AllEdits, AllServiceable, DocumentText, ItemNodes, ItemValues, FindProp, FindPos;
    var pos := |BlankText(d.lead)|;
    PlanOfDocument(c, DocumentText(d), d, pos, plan);
    if InboundItems(c, d).Some? {
      AllRefused(c, DocumentText(d), InboundItems(c, d).value, FindPos(c, d.root.props, "inbounds", pos + 1) + 1, plan);
    }
  }

  predicate Renderable(c: Codec, d: Document, plan: RenderPlan) {
    InboundItems(c, d).Some? && AllServiceable(c, Inbounds(c, d), plan) && AllEditable(c, Inbounds(c, d), plan)
  }

  lemma DocumentAchieves(c: Codec, d: Document, plan: RenderPlan) returns (planned: seq<TextEdit>, edits: seq<TextEdit>)
    requires Renderable(c, d, plan)
    ensures PlanDocument(c, DocumentText(d), TreeOf(c, d.root, |BlankText(d.lead)|), plan) == Planned(planned)
    ensures Achieves(DocumentText(d), planned, edits, 0, DocumentText(EditedDocument(c, d, plan)))
  {
    hide TreeOf, PlanDocument, AllEdits, AllServiceable, AllEditable, ItemNodes, Achieves, ReplaceProp, EditedInbounds, FindPos, FindProp;
    hide BlankText, ItemsText, PropsText;
    var document, pos := DocumentText(d), |BlankText(d.lead)|;
    var items := InboundItems(c, d).value;
    var at := FindPos(c, d.root.props, "inbounds", pos + 1);
    PlanOfDocument(c, document, d, pos, plan);
    planned, edits := InboundsAchieve(c, document, items, at + 1, plan);
    var items' := EditedInbounds(c, document, items, at + 1, plan);
    AchievesInside("[", ItemsText(items), "]", planned, edits, at, ItemsText(items'));
    AchievesProp(c, d.root.props, "inbounds", Array(items'), planned, edits, pos);
    var tail := BlankText(d.trail) + NoteText(d.note);
    var root' := Object(ReplaceProp(c, d.root.props, "inbounds", Array(items')));
    AchievesInside(BlankText(d.lead), ValueText(d.root), tail, planned, edits, 0, ValueText(root'));
    SeqAssociative(BlankText(d.lead), ValueText(d.root), tail);
    SeqAssociative(BlankText(d.lead), ValueText(root'), tail);
  }

  /** Text surgery is list surgery: the rendered text is that of the edited document, however the edits were sorted. */
  lemma RenderIsTheEditedDocument(c: Codec, d: Document, plan: RenderPlan, r: Rendering)
    requires DocumentOk(c, d) && Renderable(c, d, plan) && !plan.Empty()
    requires RendersTo(c, DocumentText(d), plan, r)
    ensures r.Rendered? && r.text == DocumentText(EditedDocument(c, d, plan))
    ensures !r.changed ==> r.text == DocumentText(d)
  {
    hide DocumentOk, TreeOf, ParseDocument, PlanDocument, DocumentText, Renderable, RenderPlan.Empty, EditedDocument, Achieves, Spliceable, ApplyAll, Descending;
    var document, result := DocumentText(d), DocumentText(EditedDocument(c, d, plan));
    var planned, edits := DocumentAchieves(c, d, plan);
    ParseDocumentText(c, d);
    if planned == [] {
      AchievedByAnySort(document, planned, edits, result, []);
      NothingApplied(document);
    } else {
      var sorted :| multiset(sorted) == multiset(planned) && Descending(sorted)
                    && r == if Spliceable(document, sorted) then Rendered(ApplyAll(document, sorted), true) else Crashes;
      AchievedByAnySort(document, planned, edits, result, sorted);
    }
  }

  lemma NothingApplied(document: string)
    ensures Descending([]) && Spliceable(document, []) && ApplyAll(document, []) == document
  {}

  /** The rendered document re-parses; its inbounds hold the planned clients, and everything else as before. */
  lemma RenderedMeaning(c: Codec, d: Document, plan: RenderPlan)
    requires c.Valid() && DocumentOk(c, d) && Renderable(c, d, plan)
    ensures var edited := EditedDocument(c, d, plan);
            var text, before, after := DocumentText(edited), Inbounds(c, d), Inbounds(c, edited);
            && DocumentOk(c, edited)
            && ParseDocument(c, text) == Parsed(TreeOf(c, edited.root, |BlankText(d.lead)|), |text|)
            && (forall k :: k != "inbounds" ==> PropOf(c, edited.root, k) == PropOf(c, d.root, k))
            && |after| == |before|
            && forall i :: 0 <= i < |before| ==> InboundRendered(c, before[i], after[i], plan) && OthersKept(c, before[i], after[i])
  {
    hide TreeOf, ParseDocument, DocumentText, ReplaceProp, EditedInbounds, FindPos, FindProp, Codec.Valid, AllServiceable, AllEditable;
    hide InboundRendered, OthersKept, PropsOk, ItemsOk, BlankOk;
    var props, items := d.root.props, InboundItems(c, d).value;
    var at := FindPos(c, props, "inbounds", |BlankText(d.lead)| + 1);
    ObjectPropsOk(c, props);
    FoundOk(c, props, "inbounds");
    ArrayItemsOk(c, items);
    EditedInboundsHold(c, DocumentText(d), items, at + 1, plan);
    var now := Array(EditedInbounds(c, DocumentText(d), items, at + 1, plan));
    ArrayItemsOk(c, now.items);
    ReplacedProp(c, props, "inbounds", now);
    ReplacedPropOk(c, props, "inbounds", now);
    ObjectPropsOk(c, ReplaceProp(c, props, "inbounds", now));
    ParseDocumentText(c, EditedDocument(c, d, plan));
  }

  // ----- Rendering again

  /** A managed inbound that already is as the plan wants it. */
  predicate InboundSettled(c: Codec, v: Value, plan: RenderPlan) {
    Managed(c, v, plan) ==>
      && Serviceable(c, v)
      && var tag, props := StringOf(c, v, "tag").value, PropOf(c, v, "settings").value.props;
         && FindProp(c, props, "clients").Some?
         && Disjoint(plan.Adds(tag), plan.Removes(tag), plan.Sets(tag))
         && Settled(c, ClientsOf(c, props), plan.Adds(tag), plan.Removes(tag), plan.Sets(tag))
  }

  lemma SettledInboundPlansNothing(c: Codec, document: string, v: Value, pos: nat, plan: RenderPlan)
    requires InboundSettled(c, v, plan)
    ensures InboundEdits(c, document, TreeOf(c, v, pos), plan) == Planned([])
  {
    hide TreeOf, FindProp, FindPos, IsVless, ClientsEdits, Get, RenderPlan.Manages, RenderPlan.Adds, RenderPlan.Removes, RenderPlan.Sets;
    hide Settled, Disjoint, InboundEdits, DropEmails;
    InboundRefused(c, document, v, pos, plan);
    if Managed(c, v, plan) {
      var tag, props := StringOf(c, v, "tag").value, PropOf(c, v, "settings").value.props;
      var at := FindPos(c, v.props, "settings", pos + 1);
      GetValue(c, props, "clients", at);
      SettledPlansNothing(c, document, TreeOf(c, Object(props), at), FindProp(c, props, "clients").value.items,
                          FindPos(c, props, "clients", at + 1), plan.Adds(tag), plan.Removes(tag), plan.Sets(tag));
    }
  }

  predicate AllSettled(c: Codec, values: seq<Value>, plan: RenderPlan) {
    forall i :: 0 <= i < |values| ==> InboundSettled(c, values[i], plan)
  }

  lemma {:induction false} SettledPlansNoEdits(c: Codec, document: string, items: Items, pos: nat, plan: RenderPlan)
    requires AllSettled(c, ItemValues(items), plan)
    ensures AllEdits(c, document, ItemNodes(c, items, pos), plan) == Planned([])
    decreases items
  {
    hide TreeOf, InboundEdits, AllEdits, InboundSettled, BlankText, ValueText;
    if items.End? {
      NoInbounds(c, document, plan);
    } else {
      var at, values := pos + |BlankText(FirstBlank(items))|, ItemValues(items);
      assert values[0] == items.value;
      SettledInboundPlansNothing(c, document, items.value, at, plan);
      if items.Last? {
        OneInbound(c, document, TreeOf(c, items.value, at), plan);
      } else {
        var rest := ItemValues(items.rest);
        assert forall i :: 0 <= i < |rest| ==> rest[i] == values[i + 1];
        SettledPlansNoEdits(c, document, items.rest, RestPos(items, pos), plan);
        MoreInbounds(c, document, TreeOf(c, items.value, at), ItemNodes(c, items.rest, RestPos(items, pos)), plan);
      }
    }
  }

  lemma RenderedInboundSettled(c: Codec, was: Value, now: Value, plan: RenderPlan)
    requires c.Valid() && InboundEditable(c, was, plan) && (Managed(c, was, plan) ==> Serviceable(c, was))
    requires InboundRendered(c, was, now, plan)
    ensures InboundSettled(c, now, plan)
  {
    hide Codec.Valid, FindProp, RenderPlan.Manages, RenderPlan.Adds, RenderPlan.Removes, RenderPlan.Sets, PlannedClients, Settled, Disjoint;
    if Managed(c, was, plan) {
      var tag, props := StringOf(c, was, "tag").value, PropOf(c, was, "settings").value.props;
      UniqueWas(c, props, plan.Adds(tag), plan.Removes(tag), plan.Sets(tag));
      PlannedClientsSettled(c, ClientsOf(c, props), plan.Adds(tag), plan.Removes(tag), plan.Sets(tag));
    }
  }

  lemma UniqueWas(c: Codec, props: Props, adds: seq<ClientOp>, removes: seq<string>, sets: seq<ClientOp>)
    requires SettingsEditable(c, props, adds, removes, sets)
    ensures UniqueClients(c, ClientsOf(c, props))
  {
    hide FindProp, ItemValues, Disjoint, ArrayEditable;
  }

  /** Every email ends as the plan asks, on every managed inbound. */
  lemma RenderSettles(c: Codec, d: Document, plan: RenderPlan)
    requires c.Valid() && DocumentOk(c, d) && Renderable(c, d, plan)
    ensures AllSettled(c, Inbounds(c, EditedDocument(c, d, plan)), plan)
  {
    hide Codec.Valid, DocumentOk, DocumentText, EditedDocument, InboundSettled, InboundRendered, OthersKept, InboundEditable, Serviceable, Managed;
    RenderedMeaning(c, d, plan);
    var before, after := Inbounds(c, d), Inbounds(c, EditedDocument(c, d, plan));
    forall i | 0 <= i < |after|
      ensures InboundSettled(c, after[i], plan)
    {
      assert InboundRendered(c, before[i], after[i], plan);
      RenderedInboundSettled(c, before[i], after[i], plan);
    }
  }

  /** A document that already is as the plan wants it comes back unchanged, byte by byte. */
  lemma SettledDocument(c: Codec, d: Document, plan: RenderPlan, r: Rendering)
    requires DocumentOk(c, d) && InboundItems(c, d).Some? && AllSettled(c, Inbounds(c, d), plan)
    requires RendersTo(c, DocumentText(d), plan, r)
    ensures r == Rendered(DocumentText(d), false)
  {
    hide DocumentOk, DocumentText, TreeOf, ParseDocument, PlanDocument, AllSettled, RenderPlan.Empty, ItemNodes, FindPos, FindProp, Get;
    var pos := |BlankText(d.lead)|;
    ParseDocumentText(c, d);
    PlanOfDocument(c, DocumentText(d), d, pos, plan);
    SettledPlansNoEdits(c, DocumentText(d), InboundItems(c, d).value, FindPos(c, d.root.props, "inbounds", pos + 1) + 1, plan);
  }

  /** Rendering the same plan on its own result changes nothing. */
  lemma RenderingAgainChangesNothing(c: Codec, d: Document, plan: RenderPlan, again: Rendering)
    requires c.Valid() && DocumentOk(c, d) && Renderable(c, d, plan)
    requires RendersTo(c, DocumentText(EditedDocument(c, d, plan)), plan, again)
    ensures again == Rendered(DocumentText(EditedDocument(c, d, plan)), false)
  {
    hide Codec.Valid, DocumentOk, DocumentText, EditedDocument, AllSettled, Renderable, RendersTo, InboundItems;
    RenderSettles(c, d, plan);
    RenderedStillThere(c, d, plan);
    SettledDocument(c, EditedDocument(c, d, plan), plan, again);
  }

  /** `changed` says whether the text differs from the document. */
  lemma ChangedExactly(c: Codec, d: Document, plan: RenderPlan, r: Rendering)
    requires c.Valid() && DocumentOk(c, d) && Renderable(c, d, plan) && !plan.Empty()
    requires RendersTo(c, DocumentText(d), plan, r)
    ensures r.Rendered? && (r.changed <==> r.text != DocumentText(d))
  {
    hide Codec.Valid, DocumentOk, DocumentText, EditedDocument, Renderable, RendersTo, RenderPlan.Empty;
    RenderIsTheEditedDocument(c, d, plan, r);
    if r.text == DocumentText(d) {
      RenderingAgainChangesNothing(c, d, plan, r);
    }
  }

  lemma RenderedStillThere(c: Codec, d: Document, plan: RenderPlan)
    requires c.Valid() && DocumentOk(c, d) && Renderable(c, d, plan)
    ensures InboundItems(c, EditedDocument(c, d, plan)).Some? && DocumentOk(c, EditedDocument(c, d, plan))
  {
    hide Codec.Valid, DocumentOk, DocumentText, ReplaceProp, FindPos, FindProp, EditedInbounds, AllServiceable, AllEditable;
    RenderedMeaning(c, d, plan);
    var now := Array(EditedInbounds(c, DocumentText(d), InboundItems(c, d).value,
                                    FindPos(c, d.root.props, "inbounds", |BlankText(d.lead)| + 1) + 1, plan));
    ReplacedProp(c, d.root.props, "inbounds", now);
  }

  // ----- The loops of the source

  method RemovalLoop(clients: Node, byEmail: map<string, nat>, removes: seq<string>) returns (edits: seq<TextEdit>)
    ensures edits == RemovalEdits(clients, byEmail, removes)
  {
    hide PlanEntryRemoval;
    edits := [];
    for i := 0 to |removes|
      invariant edits == RemovalEdits(clients, byEmail, removes[..i])
    {
      assert removes[..i + 1][..i] == removes[..i];
      var email := removes[i];
      if email in byEmail && byEmail[email] < |clients.items| {
        edits := edits + [PlanEntryRemoval(clients, byEmail[email])];
      }
    }
    assert removes[..|removes|] == removes;
  }

  method SetLoop(c: Codec, clients: Node, byEmail: map<string, nat>, adds: seq<ClientOp>, sets: seq<ClientOp>)
    returns (edits: seq<TextEdit>, appendOps: seq<ClientOp>)
    requires forall e :: e in byEmail ==> byEmail[e] < |clients.items|
    ensures edits == SetEdits(c, clients, byEmail, sets)
    ensures appendOps == adds + UnmatchedSets(byEmail, sets)
  {
    hide PlanIdSet;
    edits, appendOps := [], adds;
    for i := 0 to |sets|
      invariant edits == SetEdits(c, clients, byEmail, sets[..i])
      invariant appendOps == adds + UnmatchedSets(byEmail, sets[..i])
    {
      assert sets[..i + 1][..i] == sets[..i];
      var set' := sets[i];
      if set'.email !in byEmail {
        appendOps := appendOps + [set'];
      } else {
        var edit := PlanIdSet(c, clients.items[byEmail[set'.email]], set'.id);
        if edit.Some? {
          edits := edits + [edit.value];
        }
      }
    }
    assert sets[..|sets|] == sets;
  }

  method ByEmailOf(clients: Node) returns (byEmail: map<string, nat>)
    ensures byEmail == ByEmail(clients.items)
    ensures forall e :: e in byEmail ==> byEmail[e] < |clients.items|
  {
    hide GetString;
    byEmail := map[];
    for index := 0 to |clients.items|
      invariant byEmail == ByEmail(clients.items[..index])
      invariant forall e :: e in byEmail ==> byEmail[e] < index
    {
      assert clients.items[..index + 1][..index] == clients.items[..index];
      var email := GetString(clients.items[index], "email");
      if email.Some? {
        byEmail := byEmail[email.value := index];
      }
    }
    assert clients.items[..|clients.items|] == clients.items;
  }

  method PlanClients(c: Codec, document: string, settings: Node, clients: Node,
                     adds: seq<ClientOp>, removes: seq<string>, sets: seq<ClientOp>) returns (r: Planning)
    ensures r == ClientsEdits(c, document, settings, clients, adds, removes, sets)
  {
    hide RemovalEdits, SetEdits, UnmatchedSets, PlanClientsInsert, ByEmail, DropEmails;
    if clients.kind != '[' {
      return Refused;
    }
    var byEmail := ByEmailOf(clients);
    var edits := RemovalLoop(clients, byEmail, removes);
    var setEdits, appendOps := SetLoop(c, clients, byEmail, adds, sets);
    r := Planned(edits + setEdits);
    if appendOps != [] {
      r := Combine(r, PlanClientsInsert(c, document, settings, DropEmails(appendOps, byEmail.Keys)));
    }
  }

  method PlanInbounds(c: Codec, document: string, inbounds: seq<Node>, plan: RenderPlan) returns (r: Planning)
    ensures r == AllEdits(c, document, inbounds, plan)
  {
    hide InboundEdits;
    var edits: seq<TextEdit> := [];
    for i := 0 to |inbounds|
      invariant AllEdits(c, document, inbounds, plan) == Combine(Planned(edits), AllEdits(c, document, inbounds[i..], plan))
    {
      var own := PlanInbound(c, document, inbounds[i], plan);
      assert inbounds[i..][1..] == inbounds[i + 1..];
      if own.Refused? {
        return Refused;
      }
      ghost var rest := AllEdits(c, document, inbounds[i + 1..], plan);
      if rest.Planned? {
        assert edits + (own.edits + rest.edits) == edits + own.edits + rest.edits;
      }
      edits := edits + own.edits;
    }
    r := Planned(edits);
    assert edits + [] == edits;
  }

  method PlanInbound(c: Codec, document: string, inbound: Node, plan: RenderPlan) returns (r: Planning)
    ensures r == InboundEdits(c, document, inbound, plan)
  {
    hide Get, GetString, IsVless, ClientsEdits, PlanClientsInsert, DropEmails;
    var tag := GetString(inbound, "tag");
    if tag.None? || !plan.Manages(tag.value) {
      return Planned([]);
    }
    var protocol := Get(inbound, "protocol");
    if protocol.None? || !IsVless(protocol.value.value) {
      return Refused;
    }
    var settings := Get(inbound, "settings");
    if settings.None? || settings.value.kind != '{' {
      return Refused;
    }
    var adds, removes, sets := plan.Adds(tag.value), plan.Removes(tag.value), plan.Sets(tag.value);
    var clients := Get(settings.value, "clients");
    if clients.None? {
      r := PlanClientsInsert(c, document, settings.value, DropEmails(adds + sets, set e | e in removes));
    } else {
      r := PlanClients(c, document, settings.value, clients.value, adds, removes, sets);
    }
  }

  method Render(c: Codec, document: string, plan: RenderPlan) returns (r: Rendering)
    ensures RendersTo(c, document, plan, r)
  {
    hide ParseDocument, AllEdits, Get, Spliceable, ApplyAll, Descending;
    if plan.Empty() {
      return Rendered(document, false);
    }
    var reading := ParseJsonc(c, document);
    if reading.Looping? {
      return Hangs;
    }
    if reading.Failed? {
      return Refusal;
    }
    var inbounds := Get(reading.node, "inbounds");
    if inbounds.None? || inbounds.value.kind != '[' {
      return Refusal;
    }
    var planning := PlanInbounds(c, document, inbounds.value.items, plan);
    if planning.Refused? {
      return Refusal;
    }
    if planning.edits == [] {
      return Rendered(document, false);
    }
    var sorted := SortDescending(planning.edits);
    var fits, rendered := ApplyEdits(document, sorted);
    r := if fits then Rendered(rendered, true) else Crashes;
  }
}
