/** The clients a rendered document names, read off it key by key. */
module RenderedClients {
  import opened JsoncParser
  import opened JsoncSyntax
  import opened JsoncTrees
  import opened Options
  import opened RenderArrays
  import opened RenderClients
  import opened RenderContext
  import opened RenderEntries
  import opened RenderInbounds
  import opened RenderLists
  import opened RenderMeaning
  import opened RenderOrder
  import opened RenderOutcome
  import opened RenderPairs
  import opened RenderPlanner
  import opened RenderSettings
  import opened RenderSyntax
  import opened Sequences

  /** An object that names the client asked for, with the flow if there is one, and says nothing else. */
  ghost predicate NewClient(c: Codec, v: Value, op: ClientOp) {
    && v.Object?
    && StringOf(c, v, "email") == Some(op.email)
    && StringOf(c, v, "id") == Some(op.id)
    && StringOf(c, v, "flow") == (if op.flow == "" then None else Some(op.flow))
    && forall key :: PropOf(c, v, key).Some? ==> key == "email" || key == "id" || (key == "flow" && op.flow != "")
  }

  /** The same client, with a new Client ID if one is asked for. */
  ghost predicate KeptClient(c: Codec, was: Value, now: Value, sets: seq<ClientOp>) {
    var email := StringOf(c, was, "email");
    if email.Some? && exists i :: 0 <= i < |sets| && sets[i].email == email.value then
      && (forall key :: key != "id" ==> PropOf(c, now, key) == PropOf(c, was, key))
      && exists i :: 0 <= i < |sets| && sets[i].email == email.value && StringOf(c, now, "id") == Some(sets[i].id)
    else now == was
  }

  /** The clients nobody asked to remove, in order. */
  function Staying(c: Codec, was: seq<Value>, removes: seq<string>): seq<Value> {
    if was == [] then []
    else
      var n := |was| - 1;
      var email := StringOf(c, was[n], "email");
      Staying(c, was[..n], removes) + if email.Some? && email.value in removes then [] else [was[n]]
  }

  /** The requests for clients the array does not name, in order. */
  function Missing(c: Codec, was: seq<Value>, asked: seq<ClientOp>): seq<ClientOp> {
    if asked == [] then []
    else
      var n := |asked| - 1;
      var named := exists i :: 0 <= i < |was| && StringOf(c, was[i], "email") == Some(asked[n].email);
      Missing(c, was, asked[..n]) + if named then [] else [asked[n]]
  }

  /** First the clients that stay, then the missing ones. */
  ghost predicate ClientsAre(c: Codec, was: seq<Value>, now: seq<Value>, adds: seq<ClientOp>, removes: seq<string>,
                             sets: seq<ClientOp>) {
    var staying, missing := Staying(c, was, removes), Missing(c, was, adds + sets);
    && |now| == |staying| + |missing|
    && (forall i :: 0 <= i < |staying| ==> KeptClient(c, staying[i], now[i], sets))
    && forall i :: 0 <= i < |missing| ==> NewClient(c, now[|staying| + i], missing[i])
  }

  // ----- One entry

  lemma EntryIsNew(c: Codec, op: ClientOp)
    requires c.Valid()
    ensures NewClient(c, EntryValue(c, op), op)
  {
    hide Codec.Valid, FlowProps, Decoded;
    BareKey(c, "email");
    EncodedOk(c, op.email);
    EncodedOk(c, op.id);
    EncodedOk(c, op.flow);
    FlowPropsHold(c, op);
    var v := EntryValue(c, op);
    assert forall key :: PropOf(c, v, key) == if key == "email" then Some(StringValue(c, op.email)) else FindProp(c, FlowProps(c, op), key);
  }

  lemma FlowPropsHold(c: Codec, op: ClientOp)
    requires c.Valid()
    ensures var props := FlowProps(c, op);
            && FindProp(c, props, "id") == Some(StringValue(c, op.id))
            && FindProp(c, props, "flow") == (if op.flow == "" then None else Some(StringValue(c, op.flow)))
            && forall key :: FindProp(c, props, key).Some? ==> key == "id" || (key == "flow" && op.flow != "")
  {
    hide QuotedOk, BlankOk, Codec.Valid;
    BareKey(c, "id");
    BareKey(c, "flow");
  }

  lemma EntryIsKept(c: Codec, v: Value, sets: seq<ClientOp>)
    requires c.Valid() && NoRepeats(EmailsOf(sets))
    ensures KeptClient(c, v, EditedEntry(c, v, IdsOf(sets)), sets)
  {
    hide Codec.Valid, SetId, IdsOf, PropOf;
    IdsOfSets(sets);
    var email := EmailOf(c, v);
    assert forall i :: 0 <= i < |sets| ==> EmailsOf(sets)[i] == sets[i].email;
    if email.Some? && email.value in IdsOf(sets) {
      ClientIsObject(c, v);
      SetIdMeaning(c, v, IdsOf(sets)[email.value]);
      var i :| 0 <= i < |sets| && sets[i].email == email.value;
      assert IdsOf(sets)[sets[i].email] == sets[i].id;
    }
  }

  lemma ClientIsObject(c: Codec, v: Value)
    requires EmailOf(c, v).Some?
    ensures v.Object?
  {}

  // ----- The list

  lemma StayingLast(c: Codec, values: seq<Value>, last: Value, removes: seq<string>)
    ensures Staying(c, values + [last], removes) == Staying(c, values, removes) + if Removed(c, last, SetOf(removes)) then [] else [last]
  {
    hide StringOf;
    assert (values + [last])[..|values|] == values;
  }

  lemma StayingFirst(c: Codec, v: Value, rest: seq<Value>, removes: seq<string>)
    ensures Staying(c, [v] + rest, removes) == (if Removed(c, v, SetOf(removes)) then [] else [v]) + Staying(c, rest, removes)
    decreases |rest|
  {
    hide Removed, Staying, SetOf;
    NobodyStays(c, removes);
    if rest == [] {
      assert [v] + rest == [] + [v];
      StayingLast(c, [], v, removes);
    } else {
      var n := |rest| - 1;
      assert [v] + rest == ([v] + rest[..n]) + [rest[n]] && rest == rest[..n] + [rest[n]];
      StayingFirst(c, v, rest[..n], removes);
      StayingLast(c, [v] + rest[..n], rest[n], removes);
      StayingLast(c, rest[..n], rest[n], removes);
    }
  }

  lemma {:induction false} KeptAreStaying(c: Codec, was: seq<Value>, removes: seq<string>, sets: seq<ClientOp>)
    requires c.Valid() && NoRepeats(EmailsOf(sets))
    ensures var staying, kept := Staying(c, was, removes), KeptValues(c, was, SetOf(removes), IdsOf(sets));
            |kept| == |staying| && forall i :: 0 <= i < |kept| ==> KeptClient(c, staying[i], kept[i], sets)
    decreases |was|
  {
    hide Codec.Valid, KeptClient, EditedEntry, Removed, IdsOf, Staying;
    if was == [] {
      NobodyStays(c, removes);
    } else {
      assert was == [was[0]] + was[1..];
      StayingFirst(c, was[0], was[1..], removes);
      KeptAreStaying(c, was[1..], removes, sets);
      EntryIsKept(c, was[0], sets);
    }
  }

  lemma NobodyStays(c: Codec, removes: seq<string>)
    ensures Staying(c, [], removes) == []
  {}

  lemma DropLast(ops: seq<ClientOp>, last: ClientOp, present: set<string>)
    ensures DropEmails(ops + [last], present) == DropEmails(ops, present) + if last.email in present then [] else [last]
    decreases |ops|
  {
    if ops == [] {
      assert [] + [last] == [last] && [last][1..] == [];
      assert DropEmails([], present) == [];
    } else {
      assert (ops + [last])[0] == ops[0] && (ops + [last])[1..] == ops[1..] + [last];
      DropLast(ops[1..], last, present);
    }
  }

  lemma {:induction false} MissingAre(c: Codec, was: seq<Value>, asked: seq<ClientOp>)
    ensures DropEmails(asked, Present(c, was)) == Missing(c, was, asked)
    decreases |asked|
  {
    hide StringOf;
    if asked != [] {
      var n := |asked| - 1;
      assert asked == asked[..n] + [asked[n]];
      MissingAre(c, was, asked[..n]);
      DropLast(asked[..n], asked[n], Present(c, was));
    }
  }

  lemma PlannedAre(c: Codec, was: seq<Value>, adds: seq<ClientOp>, removes: seq<string>, sets: seq<ClientOp>)
    requires c.Valid() && NoRepeats(EmailsOf(sets))
    ensures ClientsAre(c, was, PlannedClients(c, was, adds, removes, sets), adds, removes, sets)
  {
    hide Codec.Valid, KeptClient, NewClient, KeptValues, EntryValue, Staying, Missing, Present, DropEmails, IdsOf, SetOf;
    KeptAreStaying(c, was, removes, sets);
    MissingAre(c, was, adds + sets);
    var missing := Missing(c, was, adds + sets);
    forall i | 0 <= i < |missing|
      ensures NewClient(c, EntryValues(c, missing)[i], missing[i])
    {
      EntryIsNew(c, missing[i]);
    }
  }

  // ----- The document

  /** The clients of an inbound's settings, none if there is no such key. */
  function ClientsIn(c: Codec, v: Value): seq<Value> {
    match PropOf(c, v, "settings")
    case Some(settings) =>
      (match PropOf(c, settings, "clients")
       case Some(Array(items)) => ItemValues(items)
       case _ => [])
    case None => []
  }

  /** The plan names the inbound. */
  predicate Named(c: Codec, v: Value, plan: RenderPlan) {
    match StringOf(c, v, "tag")
    case Some(tag) => tag in plan.adds || tag in plan.removes || tag in plan.sets
    case None => false
  }

  function Asked<T>(requests: map<string, seq<T>>, tag: string): seq<T> { if tag in requests then requests[tag] else [] }

  /** A named inbound: the clients as asked for; its tag, protocol and every other property as they were. Any other: as it was. */
  ghost predicate InboundIs(c: Codec, was: Value, now: Value, plan: RenderPlan) {
    if !Named(c, was, plan) then now == was
    else
      var tag := StringOf(c, was, "tag").value;
      && ClientsAre(c, ClientsIn(c, was), ClientsIn(c, now), Asked(plan.adds, tag), Asked(plan.removes, tag), Asked(plan.sets, tag))
      && (forall key :: key != "settings" ==> PropOf(c, now, key) == PropOf(c, was, key))
      && PropOf(c, was, "settings").Some? && PropOf(c, now, "settings").Some?
      && forall key :: key != "clients" ==>
           PropOf(c, PropOf(c, now, "settings").value, key) == PropOf(c, PropOf(c, was, "settings").value, key)
  }

  lemma InboundRead(c: Codec, was: Value, now: Value, plan: RenderPlan)
    requires c.Valid() && InboundRendered(c, was, now, plan) && OthersKept(c, was, now)
    requires Managed(c, was, plan) ==>
               Serviceable(c, was) && NoRepeats(EmailsOf(plan.Sets(StringOf(c, was, "tag").value)))
    ensures InboundIs(c, was, now, plan)
  {
    hide Codec.Valid, ClientsAre, PlannedClients, FindProp, IsVless, EmailsOf, ItemValues;
    if Managed(c, was, plan) {
      var tag := StringOf(c, was, "tag").value;
      PlannedAre(c, ClientsIn(c, was), plan.Adds(tag), plan.Removes(tag), plan.Sets(tag));
    }
  }

  lemma {:induction false} EditableIsRight(c: Codec, document: string, items: Items, pos: nat, plan: RenderPlan)
    requires AllServiceable(c, ItemValues(items), plan) && AllEditable(c, ItemValues(items), plan)
    ensures AllRight(c, document, items, pos, plan)
    decreases items
  {
    hide Managed, Serviceable, InboundEditable, LosesFittingPair, EndsInComma, BlankText;
    if !items.End? {
      assert ItemValues(items)[0] == items.value;
      if items.More? {
        assert ItemValues(items)[1..] == ItemValues(items.rest);
        EditableIsRight(c, document, items.rest, RestPos(items, pos), plan);
      }
    }
  }

  /** What a render can carry out as text it can also as a document that comes right. */
  lemma RenderableIsRight(c: Codec, d: Document, plan: RenderPlan)
    requires Renderable(c, d, plan)
    ensures DocumentRight(c, d, plan)
  {
    hide AllRight, AllServiceable, AllEditable, DocumentText;
    EditableIsRight(c, DocumentText(d), InboundItems(c, d).value, InboundsPos(c, d), plan);
  }

  lemma {:induction false} RightInbounds(c: Codec, document: string, items: Items, pos: nat, plan: RenderPlan, i: nat)
    requires AllRight(c, document, items, pos, plan) && i < |ItemValues(items)|
    ensures var v := ItemValues(items)[i];
            Managed(c, v, plan) ==> Serviceable(c, v) && NoRepeats(EmailsOf(plan.Sets(StringOf(c, v, "tag").value)))
    decreases items
  {
    hide BlankText, Managed, Serviceable, InboundEditable, EmailsOf;
    if i == 0 {
      OneRight(c, document, items.value, plan, pos + |BlankText(FirstBlank(items))|);
    } else {
      RightInbounds(c, document, items.rest, RestPos(items, pos), plan, i - 1);
    }
  }

  lemma OneRight(c: Codec, document: string, v: Value, plan: RenderPlan, pos: nat)
    requires ComesRight(c, document, v, plan, pos)
    ensures Managed(c, v, plan) ==> Serviceable(c, v) && NoRepeats(EmailsOf(plan.Sets(StringOf(c, v, "tag").value)))
  {
    hide EmailsOf, NoRepeats, FindProp, IsVless, UniqueClients, PairRemoved, PairFits, ArrayEditable;
  }

  /**
   * The rendered text parses, and read key by key it is the document with the clients asked for: each inbound the plan
   * names has its clients but the removed ones, in order, with the Client IDs asked for, and then a new object for every
   * other request; everything else is as it was.
   */
  lemma RenderRead(c: Codec, d: Document, plan: RenderPlan, r: Rendering)
    requires c.Valid() && DocumentOk(c, d) && !plan.Empty() && RendersTo(c, DocumentText(d), plan, r)
    requires InboundItems(c, d).Some? && DocumentRight(c, d, plan)
    ensures r.Rendered?
    ensures exists edited: Document ::
              && DocumentText(edited) == r.text
              && ParseDocument(c, r.text) == Parsed(TreeOf(c, edited.root, |BlankText(d.lead)|), |r.text|)
              && (forall key :: key != "inbounds" ==> PropOf(c, edited.root, key) == PropOf(c, d.root, key))
              && var before, after := Inbounds(c, d), Inbounds(c, edited);
                 |after| == |before| && forall i :: 0 <= i < |before| ==> InboundIs(c, before[i], after[i], plan)
  {
    hide Codec.Valid, DocumentOk, DocumentText, RenderPlan.Empty, RendersTo, DocumentRight, OutcomeDocument, ParseDocument, TreeOf;
    hide Managed, Serviceable, InboundRendered, OthersKept, InboundIs, EmailsOf, ItemValues, AllRight, PropOf;
    var edited := OutcomeDocument(c, d, plan);
    RenderComesRight(c, d, plan, r);
    OutcomeMeaning(c, d, plan);
    var before, after := Inbounds(c, d), Inbounds(c, edited);
    forall i | 0 <= i < |before|
      ensures InboundIs(c, before[i], after[i], plan)
    {
      InboundRight(c, d, plan, i);
      InboundRead(c, before[i], after[i], plan);
    }
  }

  lemma InboundRight(c: Codec, d: Document, plan: RenderPlan, i: nat)
    requires InboundItems(c, d).Some? && DocumentRight(c, d, plan) && i < |Inbounds(c, d)|
    ensures var v := Inbounds(c, d)[i];
            Managed(c, v, plan) ==> Serviceable(c, v) && NoRepeats(EmailsOf(plan.Sets(StringOf(c, v, "tag").value)))
  {
    hide AllRight, Managed, Serviceable, EmailsOf, DocumentText, PropOf;
    RightInbounds(c, DocumentText(d), InboundItems(c, d).value, InboundsPos(c, d), plan, i);
  }

  // ----- Refusals

  /** Case folding, as far as letters that fold to letters of the alphabet go. */
  function Folded(letter: char): char {
    if 'A' <= letter <= 'Z' then letter + 32 as char
    else if letter == '\U{017F}' then 's'
    else if letter == '\U{212A}' then 'k'
    else letter
  }

  function FoldedText(text: string): (folded: string)
    ensures |folded| == |text|
  {
    seq(|text|, i requires 0 <= i < |text| => Folded(text[i]))
  }

  lemma VlessFolds(protocol: string)
    ensures IsVless(protocol) <==> FoldedText(protocol) == "vless"
  {
    var folded := FoldedText(protocol);
    if |protocol| == 5 {
      assert folded == [Folded(protocol[0]), Folded(protocol[1]), Folded(protocol[2]), Folded(protocol[3]), Folded(protocol[4])];
    }
  }

  /** A VLESS inbound whose settings hold a clients array, or no clients. */
  predicate TakesRequests(c: Codec, v: Value) {
    && StringOf(c, v, "protocol").Some? && FoldedText(StringOf(c, v, "protocol").value) == "vless"
    && PropOf(c, v, "settings").Some? && PropOf(c, v, "settings").value.Object?
    && match PropOf(c, PropOf(c, v, "settings").value, "clients")
       case None => true
       case Some(clients) => clients.Array?
  }

  /** A plan is refused exactly when there is no list of inbounds, or it names one that does not take requests. */
  lemma RefusalRead(c: Codec, d: Document, plan: RenderPlan, r: Rendering)
    requires DocumentOk(c, d) && !plan.Empty() && RendersTo(c, DocumentText(d), plan, r)
    ensures r == Refusal <==>
            !(PropOf(c, d.root, "inbounds").Some? && PropOf(c, d.root, "inbounds").value.Array?)
            || exists i :: 0 <= i < |Inbounds(c, d)| && Named(c, Inbounds(c, d)[i], plan) && !TakesRequests(c, Inbounds(c, d)[i])
    ensures r != Hangs
  {
    hide DocumentOk, DocumentText, RendersTo, Named, TakesRequests, ItemValues, FindProp, Managed, Serviceable, RenderPlan.Empty;
    RefusedExactly(c, d, plan, r);
    forall v: Value
      ensures Named(c, v, plan) <==> Managed(c, v, plan)
      ensures Serviceable(c, v) <==> TakesRequests(c, v)
    {
      NamedIsManaged(c, v, plan);
    }
  }

  lemma NamedIsManaged(c: Codec, v: Value, plan: RenderPlan)
    ensures Named(c, v, plan) <==> Managed(c, v, plan)
    ensures Serviceable(c, v) <==> TakesRequests(c, v)
  {
    hide FindProp, IsVless, FoldedText;
    if StringOf(c, v, "protocol").Some? {
      VlessFolds(StringOf(c, v, "protocol").value);
    }
  }
}
