/** The inbounds of a document: which of them a plan edits, refuses or leaves alone. */
module RenderInbounds {
  import opened JsoncParser
  import opened JsoncSyntax
  import opened JsoncTrees
  import opened Options
  import opened RenderArrays
  import opened RenderEntries
  import opened RenderKeys
  import opened RenderLists
  import opened RenderOrder
  import opened RenderPlanner
  import opened RenderSettings
  import opened RenderSyntax
  import opened Sequences
  import opened TextEdits

  // ----- Settings

  function ClientsOf(c: Codec, props: Props): seq<Value> {
    match FindProp(c, props, "clients")
    case Some(Array(items)) => ItemValues(items)
    case _ => []
  }

  function EditedSettings(c: Codec, document: string, props: Props, pos: nat,
                          adds: seq<ClientOp>, removes: seq<string>, sets: seq<ClientOp>): Props {
    match FindProp(c, props, "clients")
    case None => WithClients(c, document, props, pos, adds + sets)
    case Some(Array(items)) =>
      var at := FindPos(c, props, "clients", pos + 1);
      var ops := Remaining(c, ItemValues(items), adds, sets);
      ReplaceProp(c, props, "clients", Array(EditedArray(c, document, items, at, removes, sets, ops)))
    case _ => props
  }

  /** A settings object with a clients array, or without a clients key. */
  predicate TakesClients(c: Codec, props: Props) {
    match FindProp(c, props, "clients")
    case None => true
    case Some(v) => v.Array?
  }

  /** One request for an email, one client for an email, and no removals whose spans would run into another edit. */
  predicate SettingsEditable(c: Codec, props: Props, adds: seq<ClientOp>, removes: seq<string>, sets: seq<ClientOp>) {
    && Disjoint(adds, removes, sets)
    && match FindProp(c, props, "clients")
       case Some(Array(items)) =>
         UniqueClients(c, ItemValues(items)) && ArrayEditable(c, items, removes, Remaining(c, ItemValues(items), adds, sets))
       case _ => true
  }

  lemma {:induction false} DropNothing(ops: seq<ClientOp>, emails: set<string>)
    requires forall op :: op in ops ==> op.email !in emails
    ensures DropEmails(ops, emails) == ops
  {
    if ops != [] {
      DropNothing(ops[1..], emails);
      assert ops == [ops[0]] + ops[1..];
    }
  }

  lemma EmailsOfAll(ops: seq<ClientOp>)
    ensures forall op :: op in ops ==> op.email in EmailsOf(ops)
  {
    forall op | op in ops
      ensures op.email in EmailsOf(ops)
    {
      var i :| 0 <= i < |ops| && ops[i] == op;
      assert EmailsOf(ops)[i] == op.email;
    }
  }

  /** Emails to remove are not emails to add or set. */
  lemma NothingDropped(adds: seq<ClientOp>, removes: seq<string>, sets: seq<ClientOp>)
    requires Disjoint(adds, removes, sets)
    ensures DropEmails(adds + sets, set e | e in removes) == adds + sets
  {
    EmailsOfAll(adds);
    EmailsOfAll(sets);
    DropNothing(adds + sets, set e | e in removes);
  }

  lemma ClientsPlanned(c: Codec, document: string, settings: Node, items: Items, pos: nat,
                       adds: seq<ClientOp>, removes: seq<string>, sets: seq<ClientOp>)
    requires Get(settings, "clients") == Some(TreeOf(c, Array(items), pos)) && UniqueClients(c, ItemValues(items))
    ensures var clients, ops := TreeOf(c, Array(items), pos), Remaining(c, ItemValues(items), adds, sets);
            ClientsEdits(c, document, settings, clients, adds, removes, sets) ==
            Planned(ArrayPlan(c, document, clients, removes, sets, ops))
  {
    hide Get, TreeOf, UniqueClients, ByEmail, RemovalEdits, SetEdits, UnmatchedSets, PlanAppend, Remaining, ItemNodes;
    TreeShape(c, Array(items), pos);
    RemainingIs(c, items, pos + 1, adds, sets);
    var clients, ops := TreeOf(c, Array(items), pos), Remaining(c, ItemValues(items), adds, sets);
    var byEmail := ByEmail(clients.items);
    assert DropEmails([], byEmail.Keys) == [];
    var edits := RemovalEdits(clients, byEmail, removes) + SetEdits(c, clients, byEmail, sets);
    assert edits + [] == edits;
  }

  /** The edits of a property's value, carried over to the object. */
  lemma AchievesProp(c: Codec, props: Props, key: string, v: Value, planned: seq<TextEdit>, edits: seq<TextEdit>,
                     pos: nat)
    requires FindProp(c, props, key).Some?
    requires Achieves(ValueText(FindProp(c, props, key).value), planned, edits, FindPos(c, props, key, pos + 1), ValueText(v))
    ensures Achieves(ValueText(Object(props)), planned, edits, pos, ValueText(Object(ReplaceProp(c, props, key, v))))
  {
    hide PropsText, Achieves, FindPos, FindProp, ReplaceProp;
    var left, right := SplitProp(c, props, key, v, pos + 1);
    var was := ValueText(FindProp(c, props, key).value);
    AchievesInside("{" + left, was, right + "}", planned, edits, pos, ValueText(v));
    Braced(left, was, right);
    Braced(left, ValueText(v), right);
  }

  lemma GetValue(c: Codec, props: Props, key: string, pos: nat)
    ensures Get(TreeOf(c, Object(props), pos), key) ==
            match FindProp(c, props, key)
            case None => None
            case Some(value) => Some(TreeOf(c, value, FindPos(c, props, key, pos + 1)))
  {
    hide Get, TreeOf, FindProp, FindPos;
    GetOfTree(c, Object(props), key, pos);
  }

  /** The planned edits of a settings object make the edited settings. */
  lemma SettingsAchieves(c: Codec, document: string, props: Props, pos: nat,
                         adds: seq<ClientOp>, removes: seq<string>, sets: seq<ClientOp>)
    returns (planned: seq<TextEdit>, edits: seq<TextEdit>)
    requires TakesClients(c, props) && SettingsEditable(c, props, adds, removes, sets)
    ensures SettingsEdits(c, document, TreeOf(c, Object(props), pos), adds, removes, sets) == Planned(planned)
    ensures Achieves(ValueText(Object(props)), planned, edits, pos,
                     ValueText(Object(EditedSettings(c, document, props, pos, adds, removes, sets))))
  {
    hide TreeOf, Achieves, FindProp, FindPos, ReplaceProp, PropsText, WithClients, EditedArray, PlanKeyInsert, ClientsEdits, Get;
    hide ArrayEditable, UniqueClients, Remaining, DropEmails, ArrayPlan;
    var settings := TreeOf(c, Object(props), pos);
    GetValue(c, props, "clients", pos);
    match FindProp(c, props, "clients")
    case None =>
      NothingDropped(adds, removes, sets);
      planned := [PlanKeyInsert(c, document, settings, adds + sets)];
      edits := planned;
      KeyInsertAchieves(c, document, props, pos, adds + sets);
    case Some(Array(items)) =>
      var at, ops := FindPos(c, props, "clients", pos + 1), Remaining(c, ItemValues(items), adds, sets);
      ClientsPlanned(c, document, settings, items, at, adds, removes, sets);
      planned := ArrayPlan(c, document, TreeOf(c, Array(items), at), removes, sets, ops);
      edits := ArrayAchieves(c, document, items, at, removes, sets, ops);
      AchievesProp(c, props, "clients", Array(EditedArray(c, document, items, at, removes, sets, ops)), planned, edits, pos);
  }

  // ----- Inbounds

  predicate Managed(c: Codec, v: Value, plan: RenderPlan) {
    StringOf(c, v, "tag").Some? && plan.Manages(StringOf(c, v, "tag").value)
  }

  /** A VLESS inbound with a settings object that can hold clients. */
  predicate Serviceable(c: Codec, v: Value) {
    && StringOf(c, v, "protocol").Some? && IsVless(StringOf(c, v, "protocol").value)
    && match PropOf(c, v, "settings")
       case Some(Object(props)) => TakesClients(c, props)
       case _ => false
  }

  predicate InboundEditable(c: Codec, v: Value, plan: RenderPlan) {
    Managed(c, v, plan) && Serviceable(c, v) ==>
      var tag := StringOf(c, v, "tag").value;
      SettingsEditable(c, PropOf(c, v, "settings").value.props, plan.Adds(tag), plan.Removes(tag), plan.Sets(tag))
  }

  function EditedInbound(c: Codec, document: string, v: Value, pos: nat, plan: RenderPlan): Value {
    if !Managed(c, v, plan) || !Serviceable(c, v) then v
    else
      var tag, at := StringOf(c, v, "tag").value, FindPos(c, v.props, "settings", pos + 1);
      var settings := PropOf(c, v, "settings").value.props;
      Object(ReplaceProp(c, v.props, "settings",
                         Object(EditedSettings(c, document, settings, at, plan.Adds(tag), plan.Removes(tag), plan.Sets(tag)))))
  }

  /** The planner refuses exactly the managed inbounds that are not VLESS or cannot hold clients. */
  lemma InboundRefused(c: Codec, document: string, v: Value, pos: nat, plan: RenderPlan)
    ensures InboundEdits(c, document, TreeOf(c, v, pos), plan).Refused? <==> Managed(c, v, plan) && !Serviceable(c, v)
    ensures !Managed(c, v, plan) ==> InboundEdits(c, document, TreeOf(c, v, pos), plan) == Planned([])
    ensures Managed(c, v, plan) && Serviceable(c, v) ==>
              var tag, props := StringOf(c, v, "tag").value, PropOf(c, v, "settings").value.props;
              InboundEdits(c, document, TreeOf(c, v, pos), plan) ==
              SettingsEdits(c, document, TreeOf(c, Object(props), FindPos(c, v.props, "settings", pos + 1)),
                            plan.Adds(tag), plan.Removes(tag), plan.Sets(tag))
  {
    hide TreeOf, FindProp, FindPos, IsVless, SettingsEdits, Get, RenderPlan.Manages, RenderPlan.Adds, RenderPlan.Removes, RenderPlan.Sets;
    GetOfTree(c, v, "tag", pos);
    GetOfTree(c, v, "protocol", pos);
    GetOfTree(c, v, "settings", pos);
    NotVless();
    if PropOf(c, v, "protocol").Some? {
      ProtocolValue(c, PropOf(c, v, "protocol").value, FindPos(c, v.props, "protocol", pos + 1));
    }
    if PropOf(c, v, "settings").Some? {
      var at := FindPos(c, v.props, "settings", pos + 1);
      TreeShape(c, PropOf(c, v, "settings").value, at);
      if PropOf(c, v, "settings").value.Object? && StringOf(c, v, "tag").Some? {
        var tag := StringOf(c, v, "tag").value;
        SettingsRefused(c, document, PropOf(c, v, "settings").value.props, at, plan.Adds(tag), plan.Removes(tag), plan.Sets(tag));
      }
    }
  }

  lemma NotVless()
    ensures !IsVless("")
  {}

  lemma ProtocolValue(c: Codec, v: Value, pos: nat)
    ensures TreeOf(c, v, pos).value == if v.Quoted? then Decoded(c, v.raw) else ""
  {}

  lemma SettingsRefused(c: Codec, document: string, props: Props, pos: nat,
                        adds: seq<ClientOp>, removes: seq<string>, sets: seq<ClientOp>)
    ensures SettingsEdits(c, document, TreeOf(c, Object(props), pos), adds, removes, sets).Refused? <==> !TakesClients(c, props)
  {
    hide TreeOf, FindProp, FindPos, Get, DropEmails, ByEmail, RemovalEdits, SetEdits, UnmatchedSets, PlanAppend, PlanKeyInsert;
    GetValue(c, props, "clients", pos);
    if FindProp(c, props, "clients").Some? {
      TreeShape(c, FindProp(c, props, "clients").value, FindPos(c, props, "clients", pos + 1));
    }
  }

  lemma InboundAchieves(c: Codec, document: string, v: Value, pos: nat, plan: RenderPlan)
    returns (planned: seq<TextEdit>, edits: seq<TextEdit>)
    requires InboundEditable(c, v, plan) && (Managed(c, v, plan) ==> Serviceable(c, v))
    ensures InboundEdits(c, document, TreeOf(c, v, pos), plan) == Planned(planned)
    ensures Achieves(ValueText(v), planned, edits, pos, ValueText(EditedInbound(c, document, v, pos, plan)))
  {
    hide TreeOf, Achieves, FindProp, FindPos, ReplaceProp, InboundEdits, SettingsEdits, EditedSettings, SettingsEditable, IsVless;
    hide RenderPlan.Manages, RenderPlan.Adds, RenderPlan.Removes, RenderPlan.Sets, ValueText, TakesClients;
    InboundRefused(c, document, v, pos, plan);
    if Managed(c, v, plan) {
      var tag, at := StringOf(c, v, "tag").value, FindPos(c, v.props, "settings", pos + 1);
      var props := PropOf(c, v, "settings").value.props;
      planned, edits := SettingsAchieves(c, document, props, at, plan.Adds(tag), plan.Removes(tag), plan.Sets(tag));
      AchievesProp(c, v.props, "settings", Object(EditedSettings(c, document, props, at, plan.Adds(tag), plan.Removes(tag), plan.Sets(tag))),
                   planned, edits, pos);
    } else {
      planned, edits := [], [];
      AchievesNothing(ValueText(v), pos);
    }
  }

  // ----- The list of inbounds

  predicate AllServiceable(c: Codec, values: seq<Value>, plan: RenderPlan) {
    forall i :: 0 <= i < |values| && Managed(c, values[i], plan) ==> Serviceable(c, values[i])
  }

  predicate AllEditable(c: Codec, values: seq<Value>, plan: RenderPlan) {
    forall i :: 0 <= i < |values| ==> InboundEditable(c, values[i], plan)
  }

  function EditedInbounds(c: Codec, document: string, items: Items, pos: nat, plan: RenderPlan): Items {
    var at := pos + |BlankText(FirstBlank(items))|;
    match items
    case End(_) => items
    case Last(b, v, a) => Last(b, EditedInbound(c, document, v, at, plan), a)
    case More(b, v, a, rest) =>
      More(b, EditedInbound(c, document, v, at, plan), a, EditedInbounds(c, document, rest, RestPos(items, pos), plan))
  }

  lemma OneInbound(c: Codec, document: string, node: Node, plan: RenderPlan)
    ensures AllEdits(c, document, [node], plan) == InboundEdits(c, document, node, plan)
  {
    hide InboundEdits;
    assert [node][1..] == [];
    var own := InboundEdits(c, document, node, plan);
    assert AllEdits(c, document, [], plan) == Planned([]);
    if own.Planned? {
      assert own.edits + [] == own.edits;
    }
  }

  lemma MoreInbounds(c: Codec, document: string, node: Node, rest: seq<Node>, plan: RenderPlan)
    ensures AllEdits(c, document, [node] + rest, plan) ==
            Combine(InboundEdits(c, document, node, plan), AllEdits(c, document, rest, plan))
  {
    hide InboundEdits;
    assert ([node] + rest)[1..] == rest;
  }

  /** The whole plan is refused exactly when one of its inbounds is. */
  lemma {:induction false} AllRefused(c: Codec, document: string, items: Items, pos: nat, plan: RenderPlan)
    ensures AllEdits(c, document, ItemNodes(c, items, pos), plan).Refused? <==> !AllServiceable(c, ItemValues(items), plan)
    decreases items
  {
    hide TreeOf, InboundEdits, Managed, Serviceable, AllEdits, AllServiceable, BlankText;
    if items.End? {
      NoInbounds(c, document, plan);
      NoneRefused(c, plan);
    } else {
      var at := pos + |BlankText(FirstBlank(items))|;
      InboundRefused(c, document, items.value, at, plan);
      if items.Last? {
        OneInbound(c, document, TreeOf(c, items.value, at), plan);
        NoneRefused(c, plan);
        ServiceableSplit(c, items.value, [], plan);
        assert [items.value] + [] == [items.value];
      } else {
        AllRefused(c, document, items.rest, RestPos(items, pos), plan);
        MoreInbounds(c, document, TreeOf(c, items.value, at), ItemNodes(c, items.rest, RestPos(items, pos)), plan);
        ServiceableSplit(c, items.value, ItemValues(items.rest), plan);
      }
    }
  }

  lemma NoneRefused(c: Codec, plan: RenderPlan)
    ensures AllServiceable(c, [], plan)
  {}

  lemma NoInbounds(c: Codec, document: string, plan: RenderPlan)
    ensures AllEdits(c, document, [], plan) == Planned([])
  {}

  lemma ServiceableSplit(c: Codec, v: Value, rest: seq<Value>, plan: RenderPlan)
    ensures AllServiceable(c, [v] + rest, plan) <==> (Managed(c, v, plan) ==> Serviceable(c, v)) && AllServiceable(c, rest, plan)
    ensures AllEditable(c, [v] + rest, plan) <==> InboundEditable(c, v, plan) && AllEditable(c, rest, plan)
  {
    hide Managed, Serviceable, InboundEditable;
    var all := [v] + rest;
    assert all[0] == v;
    assert forall i :: 0 <= i < |rest| ==> all[i + 1] == rest[i];
    assert forall i :: 1 <= i < |all| ==> all[i] == rest[i - 1];
  }

  /** The planned edits of all inbounds make the edited list. */
  lemma {:induction false} InboundsAchieve(c: Codec, document: string, items: Items, pos: nat, plan: RenderPlan)
    returns (planned: seq<TextEdit>, edits: seq<TextEdit>)
    requires AllEditable(c, ItemValues(items), plan) && AllServiceable(c, ItemValues(items), plan)
    ensures AllEdits(c, document, ItemNodes(c, items, pos), plan) == Planned(planned)
    ensures Achieves(ItemsText(items), planned, edits, pos, ItemsText(EditedInbounds(c, document, items, pos, plan)))
    decreases items
  {
    hide TreeOf, InboundEdits, Managed, Serviceable, InboundEditable, AllEdits, Achieves, EditedInbound, BlankText, ValueText;
    if items.End? {
      NoInbounds(c, document, plan);
      planned, edits := [], [];
      AchievesNothing(ItemsText(items), pos);
    } else {
      var at, values := pos + |BlankText(FirstBlank(items))|, ItemValues(items);
      var v := items.value;
      assert values[0] == v;
      var ownPlanned, own := InboundAchieves(c, document, v, at, plan);
      var b, a, vt, vt' := BlankText(items.before), BlankText(items.after), ValueText(v), ValueText(EditedInbound(c, document, v, at, plan));
      if items.Last? {
        OneInbound(c, document, TreeOf(c, v, at), plan);
        planned, edits := ownPlanned, own;
        AchievesInside(b, vt, a, planned, edits, pos, vt');
        SeqAssociative(b, vt, a);
        SeqAssociative(b, vt', a);
      } else {
        var next := RestPos(items, pos);
        ServiceableSplit(c, v, ItemValues(items.rest), plan);
        var restPlanned, rest := InboundsAchieve(c, document, items.rest, next, plan);
        MoreInbounds(c, document, TreeOf(c, v, at), ItemNodes(c, items.rest, next), plan);
        planned, edits := ownPlanned + restPlanned, own + rest;
        var rt, rt' := ItemsText(items.rest), ItemsText(EditedInbounds(c, document, items.rest, next, plan));
        MoreAchieve(b, vt, a, rt, ownPlanned, own, restPlanned, rest, pos, vt', rt');
      }
    }
  }

  lemma MoreAchieve(b: string, v: string, a: string, rest: string, ownPlanned: seq<TextEdit>, own: seq<TextEdit>,
                    restPlanned: seq<TextEdit>, edits: seq<TextEdit>, pos: nat, v': string, rest': string)
    requires Achieves(v, ownPlanned, own, pos + |b|, v')
    requires Achieves(rest, restPlanned, edits, pos + |b| + |v| + |a| + 1, rest')
    ensures Achieves(b + (v + (a + ("," + rest))), ownPlanned + restPlanned, own + edits, pos, b + (v' + (a + ("," + rest'))))
  {
    hide Achieves;
    AchievesInside(b, v, a + ",", ownPlanned, own, pos, v');
    AchievesConcat(b + v + (a + ","), rest, ownPlanned, restPlanned, own, edits, pos, b + v' + (a + ","), rest');
    Regroup(b, v, a, rest);
    Regroup(b, v', a, rest');
  }

  lemma Regroup(b: string, v: string, a: string, rest: string)
    ensures b + v + (a + ",") + rest == b + (v + (a + ("," + rest)))
  {
    SeqAssociative(b, v, a + ",");
    Concat4(b, v, a, ",", rest);
    assert b + (v + (a + ",")) + rest == b + (v + (a + ("," + rest)));
  }
}
