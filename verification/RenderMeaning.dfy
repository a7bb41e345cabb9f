/** What a rendered inbound holds. */
module RenderMeaning {
  import opened JsoncParser
  import opened JsoncSyntax
  import opened JsoncTrees
  import opened Options
  import opened RenderArrays
  import opened RenderEntries
  import opened RenderInbounds
  import opened RenderKeys
  import opened RenderLists
  import opened RenderOrder
  import opened RenderPlanner
  import opened RenderSettings
  import opened RenderSyntax

  /** The clients a plan leaves behind: the kept ones in place, the missing ones at the end. */
  function PlannedClients(c: Codec, was: seq<Value>, adds: seq<ClientOp>, removes: seq<string>,
                          sets: seq<ClientOp>): seq<Value> {
    KeptValues(c, was, SetOf(removes), IdsOf(sets)) + EntryValues(c, Remaining(c, was, adds, sets))
  }

  lemma EditedArrayHolds(c: Codec, document: string, items: Items, pos: nat, removes: seq<string>,
                         sets: seq<ClientOp>, ops: seq<ClientOp>)
    requires c.Valid() && ItemsOk(c, items) && ArrayEditable(c, items, removes, ops)
    ensures var edited := EditedArray(c, document, items, pos, removes, sets, ops);
            && ItemsOk(c, edited)
            && ItemValues(edited) == KeptValues(c, ItemValues(items), SetOf(removes), IdsOf(sets)) + EntryValues(c, ops)
  {
    hide TreeOf, EditedItems, Filled, KeptValues, BlankOk, Codec.Valid, IdsOf, Separation, ItemNodes;
    var clients := TreeOf(c, Array(items), pos);
    TreeShape(c, Array(items), pos);
    if items.End? {
      EmptyKept(c, SetOf(removes), IdsOf(sets));
      assert [] + EntryValues(c, ops) == EntryValues(c, ops);
      if ops == [] {
        NoEntries(c);
      } else {
        FilledOk(c, document, clients, items.blank, ops);
      }
    } else {
      FirstNode(c, items, pos + 1);
      SeparationIsBlank(document, clients);
      EditedItemsOk(c, items, SetOf(removes), IdsOf(sets), Spaces(Separation(document, clients)), ops);
      EditedValues(c, items, SetOf(removes), IdsOf(sets), Spaces(Separation(document, clients)), ops);
    }
  }

  lemma EmptyKept(c: Codec, removes: set<string>, ids: map<string, string>)
    ensures KeptValues(c, [], removes, ids) == []
  {}

  lemma {:induction false} FoundOk(c: Codec, props: Props, key: string)
    requires PropsOk(c, props) && FindProp(c, props, key).Some?
    ensures ValueOk(c, FindProp(c, props, key).value)
  {
    hide BlankOk, QuotedOk;
    if props.MoreProps? && Decoded(c, props.key) != key {
      FoundOk(c, props.rest, key);
    }
  }

  /** A rendered settings object: the planned clients, everything else as it was. */
  predicate SettingsRendered(c: Codec, was: Props, now: Props, adds: seq<ClientOp>, removes: seq<string>,
                             sets: seq<ClientOp>) {
    && FindProp(c, now, "clients").Some? && FindProp(c, now, "clients").value.Array?
    && ClientsOf(c, now) == PlannedClients(c, ClientsOf(c, was), adds, removes, sets)
  }

  lemma NoneCarried(c: Codec, ops: seq<ClientOp>)
    ensures DropEmails(ops, Present(c, [])) == ops
  {
    assert Present(c, []) == {};
    DropNothing(ops, {});
  }

  lemma EditedSettingsHold(c: Codec, document: string, props: Props, pos: nat,
                           adds: seq<ClientOp>, removes: seq<string>, sets: seq<ClientOp>)
    requires c.Valid() && PropsOk(c, props) && TakesClients(c, props) && SettingsEditable(c, props, adds, removes, sets)
    ensures var edited := EditedSettings(c, document, props, pos, adds, removes, sets);
            && PropsOk(c, edited)
            && SettingsRendered(c, props, edited, adds, removes, sets)
            && forall k :: k != "clients" ==> FindProp(c, edited, k) == FindProp(c, props, k)
  {
    hide FindProp, FindPos, ReplaceProp, WithClients, EditedArray, Codec.Valid, PropsOk, ItemsOk, Disjoint, UniqueClients, ArrayEditable;
    hide KeptValues, EntryValues, Remaining, IdsOf;
    match FindProp(c, props, "clients")
    case None =>
      WithClientsMeaning(c, document, props, pos, adds + sets);
      EmptyKept(c, SetOf(removes), IdsOf(sets));
      RemainingOfNone(c, adds, sets);
      assert [] + EntryValues(c, adds + sets) == EntryValues(c, adds + sets);
    case Some(Array(items)) =>
      var at, ops := FindPos(c, props, "clients", pos + 1), Remaining(c, ItemValues(items), adds, sets);
      var now := Array(EditedArray(c, document, items, at, removes, sets, ops));
      FoundOk(c, props, "clients");
      ArrayItemsOk(c, items);
      EditedArrayHolds(c, document, items, at, removes, sets, ops);
      ArrayItemsOk(c, now.items);
      ReplacedProp(c, props, "clients", now);
      ReplacedPropOk(c, props, "clients", now);
  }

  lemma ArrayItemsOk(c: Codec, items: Items)
    ensures ValueOk(c, Array(items)) <==> ItemsOk(c, items)
  {}

  lemma RemainingOfNone(c: Codec, adds: seq<ClientOp>, sets: seq<ClientOp>)
    ensures Remaining(c, [], adds, sets) == adds + sets
  {
    NoneCarried(c, adds + sets);
  }

  /** A rendered inbound: its tag, protocol and every other property as they were, its settings rendered. */
  predicate InboundRendered(c: Codec, was: Value, now: Value, plan: RenderPlan) {
    if !Managed(c, was, plan) || !Serviceable(c, was) then now == was
    else
      var tag, before := StringOf(c, was, "tag").value, PropOf(c, was, "settings").value.props;
      && Serviceable(c, now)
      && StringOf(c, now, "tag") == StringOf(c, was, "tag")
      && SettingsRendered(c, before, PropOf(c, now, "settings").value.props, plan.Adds(tag), plan.Removes(tag), plan.Sets(tag))
  }

  /** Nothing but the clients of a managed inbound's settings changes. */
  ghost predicate OthersKept(c: Codec, was: Value, now: Value) {
    && (forall k :: k != "settings" ==> PropOf(c, now, k) == PropOf(c, was, k))
    && match (PropOf(c, was, "settings"), PropOf(c, now, "settings"))
       case (Some(before), Some(after)) => forall k :: k != "clients" ==> PropOf(c, after, k) == PropOf(c, before, k)
       case (before, after) => before == after
  }

  lemma EditedInboundHolds(c: Codec, document: string, v: Value, pos: nat, plan: RenderPlan)
    requires c.Valid() && ValueOk(c, v) && InboundEditable(c, v, plan)
    ensures var edited := EditedInbound(c, document, v, pos, plan);
            ValueOk(c, edited) && InboundRendered(c, v, edited, plan) && OthersKept(c, v, edited)
  {
    hide FindProp, FindPos, ReplaceProp, EditedSettings, Codec.Valid, PropsOk, SettingsEditable, IsVless;
    hide RenderPlan.Manages, RenderPlan.Adds, RenderPlan.Removes, RenderPlan.Sets, ClientsOf, PlannedClients;
    if Managed(c, v, plan) && Serviceable(c, v) {
      var tag, at := StringOf(c, v, "tag").value, FindPos(c, v.props, "settings", pos + 1);
      var props := PropOf(c, v, "settings").value.props;
      var now := Object(EditedSettings(c, document, props, at, plan.Adds(tag), plan.Removes(tag), plan.Sets(tag)));
      ObjectPropsOk(c, v.props);
      FoundOk(c, v.props, "settings");
      ObjectPropsOk(c, props);
      EditedSettingsHold(c, document, props, at, plan.Adds(tag), plan.Removes(tag), plan.Sets(tag));
      ObjectPropsOk(c, now.props);
      ReplacedProp(c, v.props, "settings", now);
      ReplacedPropOk(c, v.props, "settings", now);
      ObjectPropsOk(c, ReplaceProp(c, v.props, "settings", now));
    }
  }

  lemma ObjectPropsOk(c: Codec, props: Props)
    ensures ValueOk(c, Object(props)) <==> PropsOk(c, props)
  {}

  lemma {:induction false} EditedInboundsHold(c: Codec, document: string, items: Items, pos: nat, plan: RenderPlan)
    requires c.Valid() && ItemsOk(c, items) && AllEditable(c, ItemValues(items), plan)
    ensures var edited := EditedInbounds(c, document, items, pos, plan);
            var before, after := ItemValues(items), ItemValues(edited);
            && ItemsOk(c, edited) && |after| == |before|
            && forall i :: 0 <= i < |before| ==> InboundRendered(c, before[i], after[i], plan) && OthersKept(c, before[i], after[i])
    decreases items
  {
    hide Codec.Valid, BlankOk, ValueOk, EditedInbound, InboundRendered, OthersKept, InboundEditable, BlankText;
    if !items.End? {
      var at := pos + |BlankText(FirstBlank(items))|;
      var values := ItemValues(items);
      assert values[0] == items.value;
      EditedInboundHolds(c, document, items.value, at, plan);
      if items.More? {
        var rest := ItemValues(items.rest);
        assert forall i :: 0 <= i < |rest| ==> rest[i] == values[i + 1];
        EditedInboundsHold(c, document, items.rest, RestPos(items, pos), plan);
        var edited := EditedInbounds(c, document, items, pos, plan);
        var rest' := ItemValues(EditedInbounds(c, document, items.rest, RestPos(items, pos), plan));
        assert ItemValues(edited) == [EditedInbound(c, document, items.value, at, plan)] + rest';
        forall i | 1 <= i < |values|
          ensures InboundRendered(c, values[i], ItemValues(edited)[i], plan) && OthersKept(c, values[i], ItemValues(edited)[i])
        {
          assert values[i] == rest[i - 1] && ItemValues(edited)[i] == rest'[i - 1];
        }
      }
    }
  }
}
