/** One clients array of a document, and what a plan does to the text around it. */
module RenderContext {
  import opened JsoncParser
  import opened JsoncSpans
  import opened JsoncSyntax
  import opened JsoncTrees
  import opened Options
  import opened RenderArrays
  import opened RenderClients
  import opened RenderInbounds
  import opened RenderLists
  import opened RenderMeaning
  import opened RenderOrder
  import opened RenderPairs
  import opened RenderPlanner
  import opened RenderSettings
  import opened RenderSyntax
  import opened RenderTrailing
  import opened Sequences
  import opened TextEdits
  import opened TextLandings

  /** The text before and behind a part of a document, its planned edits, and what they make of it. */
  datatype Around = Around(left: string, right: string, before: seq<TextEdit>, behind: seq<TextEdit>, left': string, right': string)

  ghost predicate Frames(a: Around, text: string, pos: nat, middle: string) {
    && text == a.left + middle + a.right
    && Lands(a.left, a.before, pos, a.left')
    && Lands(a.right, a.behind, pos + |a.left| + |middle|, a.right')
  }

  /** The edited text around another middle. */
  function With(a: Around, middle: string): string { a.left' + middle + a.right' }

  /** More text around that no edit touches. */
  function Wrap(a: Around, l: string, r: string): Around {
    a.(left := l + a.left, right := a.right + r, left' := l + a.left', right' := a.right' + r)
  }

  lemma Wrapped(a: Around, text: string, pos: nat, middle: string, l: string, r: string)
    requires Frames(a, text, pos + |l|, middle)
    ensures Frames(Wrap(a, l, r), l + text + r, pos, middle)
  {
    hide Lands;
    LandsNothing(l, pos);
    LandsNothing(r, pos + |l| + |text|);
    LandsConcat(l, a.left, [], a.before, pos, l, a.left');
    LandsConcat(a.right, r, a.behind, [], pos + |l| + |a.left| + |middle|, a.right', r);
    assert [] + a.before == a.before && a.behind + [] == a.behind;
    FiveParts(l, a.left, middle, a.right, r);
  }

  lemma FiveParts(l: string, left: string, middle: string, right: string, r: string)
    ensures l + (left + middle + right) + r == (l + left) + middle + (right + r)
  {}

  lemma WrapWith(a: Around, l: string, r: string, middle: string)
    ensures With(Wrap(a, l, r), middle) == l + With(a, middle) + r
  {
    FiveParts(l, a.left', middle, a.right', r);
  }

  /** A part of the middle, the rest of which no edit touches. */
  function Nest(a: Around, l: string, r: string): Around {
    a.(left := a.left + l, right := r + a.right, left' := a.left' + l, right' := r + a.right')
  }

  lemma Nested(a: Around, text: string, pos: nat, l: string, middle: string, r: string)
    requires Frames(a, text, pos, l + middle + r)
    ensures Frames(Nest(a, l, r), text, pos, middle)
  {
    hide Lands;
    LandsNothing(l, pos + |a.left|);
    LandsNothing(r, pos + |a.left| + |l| + |middle|);
    LandsConcat(a.left, l, a.before, [], pos, a.left', l);
    LandsConcat(r, a.right, [], a.behind, pos + |a.left| + |l| + |middle|, r, a.right');
    assert [] + a.behind == a.behind && a.before + [] == a.before;
    FiveParts(a.left, l, middle, r, a.right);
  }

  lemma NestWith(a: Around, l: string, r: string, middle: string)
    ensures With(Nest(a, l, r), middle) == With(a, l + middle + r)
  {
    FiveParts(a.left', l, middle, r, a.right');
  }

  // ----- The value of a property

  lemma {:induction false} PropAround(c: Codec, props: Props, key: string, pos: nat) returns (left: string,
                                      right: string)
    requires FindProp(c, props, key).Some?
    ensures PropsText(props) == left + ValueText(FindProp(c, props, key).value) + right
    ensures FindPos(c, props, key, pos) == pos + |left|
    ensures forall v :: PropsText(ReplaceProp(c, props, key, v)) == left + ValueText(v) + right
  {
    hide PropsText, ReplaceProp, FindProp, FindPos, ValueText;
    var was := FindProp(c, props, key).value;
    left, right := SplitProp(c, props, key, was, pos);
    forall v
      ensures PropsText(ReplaceProp(c, props, key, v)) == left + ValueText(v) + right
    {
      var l, r := SplitProp(c, props, key, v, pos);
      SameSplit(left, ValueText(was), right, l, r);
    }
  }

  lemma SameSplit(left: string, middle: string, right: string, l: string, r: string)
    requires left + middle + right == l + middle + r && |l| == |left|
    ensures l == left && r == right
  {
    var whole := left + middle + right;
    assert whole[..|left|] == left && whole[..|l|] == l;
    assert whole[|left| + |middle|..] == right && whole[|l| + |middle|..] == r;
  }

  // ----- One inbound

  /** A managed VLESS inbound whose settings have a clients array. */
  predicate HasArray(c: Codec, v: Value, plan: RenderPlan) {
    && Managed(c, v, plan) && Serviceable(c, v)
    && FindProp(c, PropOf(c, v, "settings").value.props, "clients").Some?
  }

  function SettingsOf(c: Codec, v: Value, plan: RenderPlan): Props
    requires HasArray(c, v, plan)
  {
    PropOf(c, v, "settings").value.props
  }

  function ArrayOf(c: Codec, v: Value, plan: RenderPlan): Items
    requires HasArray(c, v, plan)
  {
    FindProp(c, SettingsOf(c, v, plan), "clients").value.items
  }

  /** The inbound with another clients array. */
  function InboundWith(c: Codec, v: Value, plan: RenderPlan, now: Items): Value
    requires HasArray(c, v, plan)
  {
    Object(ReplaceProp(c, v.props, "settings", Object(ReplaceProp(c, SettingsOf(c, v, plan), "clients", Array(now)))))
  }

  lemma InboundAround(c: Codec, document: string, v: Value, pos: nat, plan: RenderPlan) returns (left: string,
                      right: string)
    requires HasArray(c, v, plan) && UniqueClients(c, ItemValues(ArrayOf(c, v, plan)))
    ensures ValueText(v) == left + ValueText(Array(ArrayOf(c, v, plan))) + right
    ensures forall now :: ValueText(InboundWith(c, v, plan, now)) == left + ValueText(Array(now)) + right
    ensures ArrayPos(c, v, plan, pos) == pos + |left|
    ensures var tag, items := StringOf(c, v, "tag").value, ArrayOf(c, v, plan);
            var ops := Remaining(c, ItemValues(items), plan.Adds(tag), plan.Sets(tag));
            InboundEdits(c, document, TreeOf(c, v, pos), plan) ==
            Planned(ArrayPlan(c, document, TreeOf(c, Array(items), pos + |left|), plan.Removes(tag), plan.Sets(tag), ops))
  {
    hide PropsText, ReplaceProp, FindProp, FindPos, TreeOf, UniqueClients, ItemValues, Remaining, ArrayPlan;
    hide InboundEdits, SettingsEdits, IsVless;
    hide RenderPlan.Manages, RenderPlan.Adds, RenderPlan.Removes, RenderPlan.Sets, ItemsText, ClientsEdits;
    var tag, props, items := StringOf(c, v, "tag").value, SettingsOf(c, v, plan), ArrayOf(c, v, plan);
    var at := FindPos(c, v.props, "settings", pos + 1);
    var l1, r1 := PropAround(c, v.props, "settings", pos + 1);
    var l2, r2 := PropAround(c, props, "clients", at + 1);
    left, right := ("{" + l1) + ("{" + l2), (r2 + "}") + (r1 + "}");
    InnerArray(PropsText(v.props), PropsText(props), l1, l2, ValueText(Array(items)), r2, r1);
    forall now: Items
      ensures ValueText(InboundWith(c, v, plan, now)) == left + ValueText(Array(now)) + right
    {
      var inner := ReplaceProp(c, props, "clients", Array(now));
      InnerArray(PropsText(ReplaceProp(c, v.props, "settings", Object(inner))), PropsText(inner), l1, l2, ValueText(Array(now)), r2, r1);
    }
    InboundRefused(c, document, v, pos, plan);
    GetValue(c, props, "clients", at);
    assert FindPos(c, props, "clients", at + 1) == ArrayPos(c, v, plan, pos) == pos + |left|;
    SettingsAreClients(c, document, props, at, plan.Adds(tag), plan.Removes(tag), plan.Sets(tag));
    ClientsPlanned(c, document, TreeOf(c, Object(props), at), items, pos + |left|, plan.Adds(tag), plan.Removes(tag), plan.Sets(tag));
  }

  lemma InnerArray(outer: string, inner: string, l1: string, l2: string, middle: string, r2: string, r1: string)
    requires outer == l1 + ("{" + inner + "}") + r1 && inner == l2 + middle + r2
    ensures "{" + outer + "}" == (("{" + l1) + ("{" + l2)) + middle + ((r2 + "}") + (r1 + "}"))
  {
    Braced(l2, middle, r2);
    Braced(l1, "{" + inner + "}", r1);
    FiveParts("{" + l1, "{" + l2, middle, r2 + "}", r1 + "}");
  }

  lemma SettingsAreClients(c: Codec, document: string, props: Props, pos: nat,
                           adds: seq<ClientOp>, removes: seq<string>, sets: seq<ClientOp>)
    requires FindProp(c, props, "clients").Some?
    ensures var settings := TreeOf(c, Object(props), pos);
            var clients := TreeOf(c, FindProp(c, props, "clients").value, FindPos(c, props, "clients", pos + 1));
            SettingsEdits(c, document, settings, adds, removes, sets) ==
            ClientsEdits(c, document, settings, clients, adds, removes, sets)
  {
    hide TreeOf, FindProp, FindPos, ClientsEdits, Get;
    GetValue(c, props, "clients", pos);
  }

  // ----- One inbound that comes out as planned

  function ArrayPos(c: Codec, v: Value, plan: RenderPlan, pos: nat): nat
    requires HasArray(c, v, plan)
  {
    FindPos(c, SettingsOf(c, v, plan), "clients", FindPos(c, v.props, "settings", pos + 1) + 1)
  }

  /** What is to be appended to the array. */
  function OpsOf(c: Codec, v: Value, plan: RenderPlan): seq<ClientOp>
    requires HasArray(c, v, plan)
  {
    var tag := StringOf(c, v, "tag").value;
    Remaining(c, ItemValues(ArrayOf(c, v, plan)), plan.Adds(tag), plan.Sets(tag))
  }

  /** The array loses its final two entries. */
  ghost predicate LosesPair(c: Codec, v: Value, plan: RenderPlan) {
    && HasArray(c, v, plan)
    && var tag, items := StringOf(c, v, "tag").value, ArrayOf(c, v, plan);
       && Disjoint(plan.Adds(tag), plan.Removes(tag), plan.Sets(tag))
       && UniqueClients(c, ItemValues(items)) && !Trailing(items) && PairRemoved(c, items, SetOf(plan.Removes(tag)))
  }

  /** And fits. */
  ghost predicate LosesFittingPair(c: Codec, document: string, v: Value, plan: RenderPlan, pos: nat) {
    && LosesPair(c, v, plan)
    && PairFits(c, document, ArrayOf(c, v, plan), ArrayPos(c, v, plan, pos), SetOf(plan.Removes(StringOf(c, v, "tag").value)), OpsOf(c, v, plan))
  }

  /** The array ends in a comma, and what is appended goes behind it. */
  ghost predicate EndsInComma(c: Codec, document: string, v: Value, plan: RenderPlan, pos: nat) {
    && HasArray(c, v, plan)
    && var tag, items := StringOf(c, v, "tag").value, ArrayOf(c, v, plan);
       && Disjoint(plan.Adds(tag), plan.Removes(tag), plan.Sets(tag)) && UniqueClients(c, ItemValues(items))
       && items.More? && Open(items) && (OpsOf(c, v, plan) != [] ==> AppendFits(c, document, items, ArrayPos(c, v, plan, pos)))
  }

  /** The inbound is edited as the document's theorem has it, or its array ends in a comma or loses a pair that fits. */
  ghost predicate ComesRight(c: Codec, document: string, v: Value, plan: RenderPlan, pos: nat) {
    && (Managed(c, v, plan) ==> Serviceable(c, v))
    && (InboundEditable(c, v, plan) || LosesFittingPair(c, document, v, plan, pos) || EndsInComma(c, document, v, plan, pos))
  }

  /** The array as it then is. */
  ghost function ArrayThen(c: Codec, document: string, v: Value, plan: RenderPlan, pos: nat): Items
    requires LosesFittingPair(c, document, v, plan, pos) || EndsInComma(c, document, v, plan, pos)
  {
    var tag, items, at := StringOf(c, v, "tag").value, ArrayOf(c, v, plan), ArrayPos(c, v, plan, pos);
    var removes, ids, ops := SetOf(plan.Removes(tag)), IdsOf(plan.Sets(tag)), OpsOf(c, v, plan);
    if LosesFittingPair(c, document, v, plan, pos) then FittedItems(c, document, items, at, removes, ids, ops)
    else OpenEdited(c, document, items, at, removes, ids, ops)
  }

  /** What it then is. */
  ghost function Outcome(c: Codec, document: string, v: Value, plan: RenderPlan, pos: nat): Value {
    if !InboundEditable(c, v, plan) && (LosesFittingPair(c, document, v, plan, pos) || EndsInComma(c, document, v, plan, pos)) then
      InboundWith(c, v, plan, ArrayThen(c, document, v, plan, pos))
    else EditedInbound(c, document, v, pos, plan)
  }

  lemma DisjointParts(adds: seq<ClientOp>, removes: seq<string>, sets: seq<ClientOp>)
    requires Disjoint(adds, removes, sets)
    ensures NoRepeats(removes) && NoRepeats(EmailsOf(sets)) && forall e :: e in removes ==> e !in EmailsOf(sets)
  {}

  /** The edits planned for such an array make of it what it then is. */
  lemma ArrayLands(c: Codec, document: string, v: Value, pos: nat, plan: RenderPlan)
    requires LosesFittingPair(c, document, v, plan, pos) || EndsInComma(c, document, v, plan, pos)
    ensures var tag, items, at := StringOf(c, v, "tag").value, ArrayOf(c, v, plan), ArrayPos(c, v, plan, pos);
            UniqueClients(c, ItemValues(items)) &&
            Lands(ValueText(Array(items)),
                  ArrayPlan(c, document, TreeOf(c, Array(items), at), plan.Removes(tag), plan.Sets(tag), OpsOf(c, v, plan)), at,
                  ValueText(Array(ArrayThen(c, document, v, plan, pos))))
  {
    hide TreeOf, Lands, ValueText, HasArray, ArrayOf, UniqueClients, PairRemoved, ArrayPlan, PairFits, Open, OpenEdited, AppendFits;
    hide RenderPlan.Adds, RenderPlan.Removes, RenderPlan.Sets, Disjoint, FittedItems, SetOf, IdsOf, NoRepeats, EmailsOf, ArrayPos, OpsOf;
    hide ItemValues, Trailing;
    SuchHasArray(c, document, v, plan, pos);
    var tag, items, at, ops := StringOf(c, v, "tag").value, ArrayOf(c, v, plan), ArrayPos(c, v, plan, pos), OpsOf(c, v, plan);
    DisjointParts(plan.Adds(tag), plan.Removes(tag), plan.Sets(tag));
    if LosesFittingPair(c, document, v, plan, pos) {
      FittedLands(c, document, items, at, plan.Removes(tag), plan.Sets(tag), ops);
    } else {
      TrailingLands(c, document, items, at, plan.Removes(tag), plan.Sets(tag), ops);
    }
  }

  lemma FittingLands(c: Codec, document: string, v: Value, pos: nat, plan: RenderPlan) returns (planned: seq<TextEdit>)
    requires !InboundEditable(c, v, plan)
    requires LosesFittingPair(c, document, v, plan, pos) || EndsInComma(c, document, v, plan, pos)
    ensures InboundEdits(c, document, TreeOf(c, v, pos), plan) == Planned(planned)
    ensures Lands(ValueText(v), planned, pos, ValueText(Outcome(c, document, v, plan, pos)))
  {
    hide TreeOf, InboundEdits, Lands, ValueText, InboundEditable, HasArray, ArrayOf, InboundWith, UniqueClients, ArrayPlan, ArrayThen;
    hide RenderPlan.Adds, RenderPlan.Removes, RenderPlan.Sets, ArrayPos, Remaining, ItemValues, LosesFittingPair, EndsInComma;
    ArrayLands(c, document, v, pos, plan);
    SuchHasArray(c, document, v, plan, pos);
    var tag, items := StringOf(c, v, "tag").value, ArrayOf(c, v, plan);
    var l, r := InboundAround(c, document, v, pos, plan);
    planned := ArrayPlan(c, document, TreeOf(c, Array(items), pos + |l|), plan.Removes(tag), plan.Sets(tag), OpsOf(c, v, plan));
    LandsAmong(l, ValueText(Array(items)), r, planned, pos, ValueText(Array(ArrayThen(c, document, v, plan, pos))));
  }

  lemma SuchHasArray(c: Codec, document: string, v: Value, plan: RenderPlan, pos: nat)
    requires LosesFittingPair(c, document, v, plan, pos) || EndsInComma(c, document, v, plan, pos)
    ensures HasArray(c, v, plan) && Managed(c, v, plan) && Serviceable(c, v) && StringOf(c, v, "tag").Some?
  {
    hide UniqueClients, PairRemoved, PairFits, Disjoint, AppendFits, Open, FindProp;
  }

  /** The edits planned for an inbound that comes right make of it what it then is. */
  lemma OutcomeLands(c: Codec, document: string, v: Value, pos: nat, plan: RenderPlan) returns (planned: seq<TextEdit>)
    requires ComesRight(c, document, v, plan, pos)
    ensures InboundEdits(c, document, TreeOf(c, v, pos), plan) == Planned(planned)
    ensures Lands(ValueText(v), planned, pos, ValueText(Outcome(c, document, v, plan, pos)))
  {
    hide TreeOf, InboundEdits, Lands, ValueText, InboundEditable, LosesFittingPair, EndsInComma, Achieves, Managed, Serviceable;
    hide EditedInbound, InboundWith, ArrayThen;
    if InboundEditable(c, v, plan) {
      var edits;
      planned, edits := InboundAchieves(c, document, v, pos, plan);
      AchievesLands(ValueText(v), planned, edits, pos, ValueText(EditedInbound(c, document, v, pos, plan)));
    } else {
      planned := FittingLands(c, document, v, pos, plan);
    }
  }

  // ----- The list of inbounds

  ghost predicate AllRight(c: Codec, document: string, items: Items, pos: nat, plan: RenderPlan) {
    !items.End? ==>
      && ComesRight(c, document, items.value, plan, pos + |BlankText(FirstBlank(items))|)
      && (items.More? ==> AllRight(c, document, items.rest, RestPos(items, pos), plan))
  }

  /** Every inbound but one comes right. */
  ghost predicate OthersRight(c: Codec, document: string, items: Items, pos: nat, plan: RenderPlan, k: nat) {
    !items.End? ==>
      && (k > 0 ==> ComesRight(c, document, items.value, plan, pos + |BlankText(FirstBlank(items))|))
      && (items.More? ==>
            if k == 0 then AllRight(c, document, items.rest, RestPos(items, pos), plan)
            else OthersRight(c, document, items.rest, RestPos(items, pos), plan, k - 1))
  }

  ghost function Outcomes(c: Codec, document: string, items: Items, pos: nat, plan: RenderPlan): Items {
    var at := pos + |BlankText(FirstBlank(items))|;
    match items
    case End(_) => items
    case Last(b, v, a) => Last(b, Outcome(c, document, v, plan, at), a)
    case More(b, v, a, rest) => More(b, Outcome(c, document, v, plan, at), a, Outcomes(c, document, rest, RestPos(items, pos), plan))
  }

  /** The outcome, one inbound of which is replaced. */
  ghost function InboundsWith(c: Codec, document: string, items: Items, pos: nat, plan: RenderPlan, k: nat, w: Value): Items {
    var at := pos + |BlankText(FirstBlank(items))|;
    match items
    case End(_) => items
    case Last(b, v, a) => Last(b, if k == 0 then w else Outcome(c, document, v, plan, at), a)
    case More(b, v, a, rest) =>
      if k == 0 then More(b, w, a, Outcomes(c, document, rest, RestPos(items, pos), plan))
      else More(b, Outcome(c, document, v, plan, at), a, InboundsWith(c, document, rest, RestPos(items, pos), plan, k - 1, w))
  }

  /** The planned edits of a list all of whose inbounds come right. */
  lemma {:induction false} OutcomesLand(c: Codec, document: string, items: Items, pos: nat, plan: RenderPlan) returns (planned: seq<TextEdit>)
    requires AllRight(c, document, items, pos, plan)
    ensures AllEdits(c, document, ItemNodes(c, items, pos), plan) == Planned(planned)
    ensures Lands(ItemsText(items), planned, pos, ItemsText(Outcomes(c, document, items, pos, plan)))
    decreases items
  {
    hide TreeOf, InboundEdits, AllEdits, Lands, Outcome, BlankText, ValueText, ComesRight;
    if items.End? {
      NoInbounds(c, document, plan);
      planned := [];
      LandsNothing(ItemsText(items), pos);
    } else {
      var at := pos + |BlankText(FirstBlank(items))|;
      var v, b, a := items.value, BlankText(items.before), BlankText(items.after);
      var vt, vt' := ValueText(v), ValueText(Outcome(c, document, v, plan, at));
      var own := OutcomeLands(c, document, v, at, plan);
      if items.Last? {
        OneInbound(c, document, TreeOf(c, v, at), plan);
        planned := own;
        LandsAmong(b, vt, a, planned, pos, vt');
        SeqAssociative(b, vt, a);
        SeqAssociative(b, vt', a);
      } else {
        var next := RestPos(items, pos);
        var rest := OutcomesLand(c, document, items.rest, next, plan);
        MoreInbounds(c, document, TreeOf(c, v, at), ItemNodes(c, items.rest, next), plan);
        planned := own + rest;
        LandsAmong(b, vt, a + ",", own, pos, vt');
        var rt, rt' := ItemsText(items.rest), ItemsText(Outcomes(c, document, items.rest, next, plan));
        LandsConcat(b + vt + (a + ","), rt, own, rest, pos, b + vt' + (a + ","), rt');
        Regroup(b, vt, a, rt);
        Regroup(b, vt', a, rt');
      }
    }
  }

  const NOWHERE: Around := Around("", "", [], [], "", "")

  lemma NothingAround(middle: string, pos: nat)
    ensures Frames(NOWHERE, middle, pos, middle)
  {
    LandsNothing("", pos);
    LandsNothing("", pos + |middle|);
    assert "" + middle + "" == middle;
  }

  /** An edited text behind. */
  function Followed(a: Around, text: string, planned: seq<TextEdit>, text': string): Around {
    a.(right := a.right + text, behind := a.behind + planned, right' := a.right' + text')
  }

  lemma FollowedFrames(a: Around, whole: string, pos: nat, middle: string, text: string, planned: seq<TextEdit>,
                       text': string)
    requires Frames(a, whole, pos, middle) && Lands(text, planned, pos + |whole|, text')
    ensures Frames(Followed(a, text, planned, text'), whole + text, pos, middle)
  {
    hide Lands;
    LandsConcat(a.right, text, a.behind, planned, pos + |a.left| + |middle|, a.right', text');
    SeqAssociative(a.left + middle, a.right, text);
  }

  /** An edited text before. */
  function Preceded(a: Around, text: string, planned: seq<TextEdit>, text': string): Around {
    a.(left := text + a.left, before := planned + a.before, left' := text' + a.left')
  }

  lemma PrecededFrames(a: Around, whole: string, pos: nat, middle: string, text: string, planned: seq<TextEdit>,
                       text': string)
    requires Frames(a, whole, pos + |text|, middle) && Lands(text, planned, pos, text')
    ensures Frames(Preceded(a, text, planned, text'), text + whole, pos, middle)
  {
    hide Lands;
    LandsConcat(text, a.left, planned, a.before, pos, text', a.left');
    SeqAssociative(text, a.left + middle, a.right);
    SeqAssociative(text, a.left, middle);
  }

  lemma FollowedWith(a: Around, text: string, planned: seq<TextEdit>, text': string, middle: string)
    ensures With(Followed(a, text, planned, text'), middle) == With(a, middle) + text'
  {
    SeqAssociative(a.left' + middle, a.right', text');
  }

  lemma PrecededWith(a: Around, text: string, planned: seq<TextEdit>, text': string, middle: string)
    ensures With(Preceded(a, text, planned, text'), middle) == text' + With(a, middle)
  {
    SeqAssociative(text', a.left' + middle, a.right');
    SeqAssociative(text', a.left', middle);
  }

  /** The plan around one inbound of the list. */
  lemma {:induction false} InboundsAround(c: Codec, document: string, items: Items, pos: nat, plan: RenderPlan,
                                          k: nat) returns (a: Around)
    requires k < |ItemValues(items)| && OthersRight(c, document, items, pos, plan, k)
    ensures Frames(a, ItemsText(items), pos, ValueText(ItemValues(items)[k]))
    ensures AllEdits(c, document, ItemNodes(c, items, pos), plan) ==
            Combine(Planned(a.before),
                    Combine(InboundEdits(c, document, TreeOf(c, ItemValues(items)[k], pos + |a.left|), plan), Planned(a.behind)))
    ensures forall w :: ItemsText(InboundsWith(c, document, items, pos, plan, k, w)) == With(a, ValueText(w))
    decreases items
  {
    hide TreeOf, InboundEdits, AllEdits, Lands, Frames, Outcome, BlankText, ValueText, Wrap, With, Followed;
    hide Preceded, AllRight, ComesRight;
    match items
    case Last(b, v, after) => a := LastAround(c, document, items, pos, plan);
    case More(b, v, after, rest) =>
      if k == 0 {
        a := FirstAround(c, document, items, pos, plan);
      } else {
        a := LaterAround(c, document, items, pos, plan, k);
      }
  }

  lemma LastAround(c: Codec, document: string, items: Items, pos: nat, plan: RenderPlan) returns (a: Around)
    requires items.Last?
    ensures Frames(a, ItemsText(items), pos, ValueText(items.value))
    ensures AllEdits(c, document, ItemNodes(c, items, pos), plan) ==
            Combine(Planned(a.before), Combine(InboundEdits(c, document, TreeOf(c, items.value, pos + |a.left|), plan), Planned(a.behind)))
    ensures forall w :: ItemsText(InboundsWith(c, document, items, pos, plan, 0, w)) == With(a, ValueText(w))
  {
    hide TreeOf, InboundEdits, AllEdits, Lands, Frames, Outcome, BlankText, ValueText, With;
    var b, after, v := BlankText(items.before), BlankText(items.after), ValueText(items.value);
    a := Wrap(NOWHERE, b, after);
    NothingAround(v, pos + |b|);
    Wrapped(NOWHERE, v, pos, v, b, after);
    SeqAssociative(b, v, after);
    OneInbound(c, document, TreeOf(c, items.value, pos + |b|), plan);
    CombineNothing(InboundEdits(c, document, TreeOf(c, items.value, pos + |b|), plan));
    forall w
      ensures ItemsText(InboundsWith(c, document, items, pos, plan, 0, w)) == With(a, ValueText(w))
    {
      WrapWith(NOWHERE, b, after, ValueText(w));
      NowhereWith(ValueText(w));
      SeqAssociative(b, ValueText(w), after);
    }
  }

  lemma NowhereWith(middle: string)
    ensures With(NOWHERE, middle) == middle
  {}

  lemma CombineNothing(p: Planning)
    ensures Combine(Planned([]), Combine(p, Planned([]))) == p
  {
    if p.Planned? {
      assert [] + (p.edits + []) == p.edits;
    }
  }

  lemma FirstAround(c: Codec, document: string, items: Items, pos: nat, plan: RenderPlan) returns (a: Around)
    requires items.More? && AllRight(c, document, items.rest, RestPos(items, pos), plan)
    ensures Frames(a, ItemsText(items), pos, ValueText(items.value))
    ensures AllEdits(c, document, ItemNodes(c, items, pos), plan) ==
            Combine(Planned(a.before), Combine(InboundEdits(c, document, TreeOf(c, items.value, pos + |a.left|), plan), Planned(a.behind)))
    ensures forall w :: ItemsText(InboundsWith(c, document, items, pos, plan, 0, w)) == With(a, ValueText(w))
  {
    hide TreeOf, InboundEdits, AllEdits, Lands, Frames, Outcome, Outcomes, BlankText, ValueText, With, AllRight;
    var b, after, v := BlankText(items.before), BlankText(items.after), ValueText(items.value);
    var next, rest := RestPos(items, pos), ItemsText(items.rest);
    var rest' := ItemsText(Outcomes(c, document, items.rest, next, plan));
    var planned := OutcomesLand(c, document, items.rest, next, plan);
    var near := Wrap(NOWHERE, b, after + ",");
    a := Followed(near, rest, planned, rest');
    NothingAround(v, pos + |b|);
    Wrapped(NOWHERE, v, pos, v, b, after + ",");
    FollowedFrames(near, b + v + (after + ","), pos, v, rest, planned, rest');
    Regroup(b, v, after, rest);
    MoreInbounds(c, document, TreeOf(c, items.value, pos + |b|), ItemNodes(c, items.rest, next), plan);
    var own := InboundEdits(c, document, TreeOf(c, items.value, pos + |b|), plan);
    CombineFirst(own, planned);
    assert a.before == [] && a.behind == planned && |a.left| == |b|;
    forall w
      ensures ItemsText(InboundsWith(c, document, items, pos, plan, 0, w)) == With(a, ValueText(w))
    {
      FollowedWith(near, rest, planned, rest', ValueText(w));
      WrapWith(NOWHERE, b, after + ",", ValueText(w));
      NowhereWith(ValueText(w));
      Regroup(b, ValueText(w), after, rest');
    }
  }

  lemma CombineFirst(own: Planning, planned: seq<TextEdit>)
    ensures Combine(Planned([]), Combine(own, Planned(planned))) == Combine(own, Planned(planned))
  {
    if own.Planned? {
      assert [] + (own.edits + planned) == own.edits + planned;
    }
  }

  lemma LaterAround(c: Codec, document: string, items: Items, pos: nat, plan: RenderPlan, k: nat) returns (a: Around)
    requires items.More? && 0 < k <= |ItemValues(items.rest)| && OthersRight(c, document, items.rest, RestPos(items, pos), plan, k - 1)
    requires ComesRight(c, document, items.value, plan, pos + |BlankText(items.before)|)
    ensures Frames(a, ItemsText(items), pos, ValueText(ItemValues(items)[k]))
    ensures AllEdits(c, document, ItemNodes(c, items, pos), plan) ==
            Combine(Planned(a.before),
                    Combine(InboundEdits(c, document, TreeOf(c, ItemValues(items)[k], pos + |a.left|), plan), Planned(a.behind)))
    ensures forall w :: ItemsText(InboundsWith(c, document, items, pos, plan, k, w)) == With(a, ValueText(w))
    decreases items, 0
  {
    hide TreeOf, InboundEdits, AllEdits, Lands, Frames, Outcome, Outcomes, BlankText, ValueText, With, OthersRight, ComesRight;
    var b, after, v := BlankText(items.before), BlankText(items.after), ValueText(items.value);
    var at, next := pos + |b|, RestPos(items, pos);
    var v' := ValueText(Outcome(c, document, items.value, plan, at));
    var planned := OutcomeLands(c, document, items.value, at, plan);
    var near := InboundsAround(c, document, items.rest, next, plan, k - 1);
    LandsAmong(b, v, after + ",", planned, pos, v');
    a := Preceded(near, b + v + (after + ","), planned, b + v' + (after + ","));
    PrecededFrames(near, ItemsText(items.rest), pos, ValueText(ItemValues(items.rest)[k - 1]),
                   b + v + (after + ","), planned, b + v' + (after + ","));
    Regroup(b, v, after, ItemsText(items.rest));
    MoreInbounds(c, document, TreeOf(c, items.value, at), ItemNodes(c, items.rest, next), plan);
    assert ItemValues(items)[k] == ItemValues(items.rest)[k - 1];
    CombineLater(planned, near.before, InboundEdits(c, document, TreeOf(c, ItemValues(items)[k], next + |near.left|), plan), near.behind);
    assert pos + |a.left| == next + |near.left|;
    forall w
      ensures ItemsText(InboundsWith(c, document, items, pos, plan, k, w)) == With(a, ValueText(w))
    {
      PrecededWith(near, b + v + (after + ","), planned, b + v' + (after + ","), ValueText(w));
      Regroup(b, v', after, With(near, ValueText(w)));
    }
  }

  lemma CombineLater(planned: seq<TextEdit>, before: seq<TextEdit>, own: Planning, behind: seq<TextEdit>)
    ensures Combine(Planned(planned), Combine(Planned(before), Combine(own, Planned(behind)))) ==
            Combine(Planned(planned + before), Combine(own, Planned(behind)))
  {
    if own.Planned? {
      assert planned + (before + (own.edits + behind)) == planned + before + (own.edits + behind);
    }
  }

  // ----- The document

  /** Where the list of inbounds stands. */
  function InboundsPos(c: Codec, d: Document): nat
    requires InboundItems(c, d).Some?
  {
    FindPos(c, d.root.props, "inbounds", |BlankText(d.lead)| + 1) + 1
  }

  /** Every inbound of the document comes right. */
  ghost predicate DocumentRight(c: Codec, d: Document, plan: RenderPlan) {
    InboundItems(c, d).Some? ==> AllRight(c, DocumentText(d), InboundItems(c, d).value, InboundsPos(c, d), plan)
  }

  /** Every inbound of the document but one comes right. */
  ghost predicate RestRight(c: Codec, d: Document, plan: RenderPlan, k: nat)
    requires k < |Inbounds(c, d)|
  {
    OthersRight(c, DocumentText(d), InboundItems(c, d).value, InboundsPos(c, d), plan, k)
  }

  /** The edited document, one inbound of which is replaced. */
  ghost function DocumentReplaced(c: Codec, d: Document, plan: RenderPlan, k: nat, w: Value): Document
    requires InboundItems(c, d).Some?
  {
    var edited := Array(InboundsWith(c, DocumentText(d), InboundItems(c, d).value, InboundsPos(c, d), plan, k, w));
    d.(root := Object(ReplaceProp(c, d.root.props, "inbounds", edited)))
  }

  /** The document with everything but one inbound's clients array edited as planned. */
  ghost function DocumentWith(c: Codec, d: Document, plan: RenderPlan, k: nat, now: Items): Document
    requires k < |Inbounds(c, d)| && HasArray(c, Inbounds(c, d)[k], plan)
  {
    DocumentReplaced(c, d, plan, k, InboundWith(c, Inbounds(c, d)[k], plan, now))
  }

  lemma RootAround(c: Codec, d: Document) returns (left: string, right: string)
    requires InboundItems(c, d).Some?
    ensures var items := InboundItems(c, d).value;
            && DocumentText(d) == left + ItemsText(items) + right
            && |left| == InboundsPos(c, d)
    ensures forall now: Items ::
              DocumentText(d.(root := Object(ReplaceProp(c, d.root.props, "inbounds", Array(now))))) == left + ItemsText(now) + right
  {
    hide PropsText, ReplaceProp, FindProp, FindPos, ItemsText, BlankText;
    var items := InboundItems(c, d).value;
    var l, r := PropAround(c, d.root.props, "inbounds", |BlankText(d.lead)| + 1);
    var lead, tail := BlankText(d.lead), BlankText(d.trail) + NoteText(d.note);
    left, right := lead + ("{" + l) + "[", "]" + (r + "}") + tail;
    RootParts(lead, PropsText(d.root.props), l, ItemsText(items), r, tail);
    forall now: Items
      ensures DocumentText(d.(root := Object(ReplaceProp(c, d.root.props, "inbounds", Array(now))))) == left + ItemsText(now) + right
    {
      RootParts(lead, PropsText(ReplaceProp(c, d.root.props, "inbounds", Array(now))), l, ItemsText(now), r, tail);
    }
  }

  lemma RootParts(lead: string, props: string, l: string, items: string, r: string, tail: string)
    requires props == l + ("[" + items + "]") + r
    ensures lead + (("{" + props + "}") + tail) == (lead + ("{" + l) + "[") + items + ("]" + (r + "}") + tail)
  {
    Braced(l, "[" + items + "]", r);
    var p, q := "{" + l, r + "}";
    assert "{" + props + "}" == p + ("[" + items + "]") + q;
    assert lead + ((p + ("[" + items + "]") + q) + tail) == (lead + p + "[") + items + ("]" + q + tail);
  }

  /** The text around one inbound of a document. */
  lemma InboundInDocument(c: Codec, d: Document, plan: RenderPlan, k: nat) returns (a: Around)
    requires k < |Inbounds(c, d)| && RestRight(c, d, plan, k)
    ensures Frames(a, DocumentText(d), 0, ValueText(Inbounds(c, d)[k]))
    ensures PlanDocument(c, DocumentText(d), TreeOf(c, d.root, |BlankText(d.lead)|), plan) ==
            Combine(Planned(a.before),
                    Combine(InboundEdits(c, DocumentText(d), TreeOf(c, Inbounds(c, d)[k], |a.left|), plan), Planned(a.behind)))
    ensures forall w :: DocumentText(DocumentReplaced(c, d, plan, k, w)) == With(a, ValueText(w))
  {
    hide ReplaceProp, FindProp, FindPos, TreeOf, ItemValues, InboundEdits, Frames, With, Lands, ItemsText;
    hide DocumentText, PlanDocument, AllEdits;
    hide InboundsWith, ItemNodes, OthersRight, BlankText, ValueText;
    var document, root, items := DocumentText(d), |BlankText(d.lead)|, InboundItems(c, d).value;
    var at, v := InboundsPos(c, d), Inbounds(c, d)[k];
    var l, r := RootAround(c, d);
    var list := InboundsAround(c, document, items, at, plan, k);
    Wrapped(list, ItemsText(items), 0, ValueText(v), l, r);
    a := Wrap(list, l, r);
    PlanOfDocument(c, document, d, root, plan);
    forall w: Value
      ensures DocumentText(DocumentReplaced(c, d, plan, k, w)) == With(a, ValueText(w))
    {
      WrapWith(list, l, r, ValueText(w));
    }
  }

  /** The text around one clients array of a document, all other edits done. */
  lemma DocumentAround(c: Codec, d: Document, plan: RenderPlan, k: nat) returns (a: Around)
    requires k < |Inbounds(c, d)| && HasArray(c, Inbounds(c, d)[k], plan) && RestRight(c, d, plan, k)
    requires UniqueClients(c, ItemValues(ArrayOf(c, Inbounds(c, d)[k], plan)))
    ensures var v := Inbounds(c, d)[k];
            var tag, items := StringOf(c, v, "tag").value, ArrayOf(c, v, plan);
            var ops := Remaining(c, ItemValues(items), plan.Adds(tag), plan.Sets(tag));
            && Frames(a, DocumentText(d), 0, ValueText(Array(items)))
            && PlanDocument(c, DocumentText(d), TreeOf(c, d.root, |BlankText(d.lead)|), plan) ==
               Planned(a.before
                       + ArrayPlan(c, DocumentText(d), TreeOf(c, Array(items), |a.left|), plan.Removes(tag), plan.Sets(tag), ops)
                       + a.behind)
    ensures forall now :: DocumentText(DocumentWith(c, d, plan, k, now)) == With(a, ValueText(Array(now)))
  {
    hide TreeOf, UniqueClients, Remaining, ArrayPlan, InboundEdits, Frames, With, DocumentText, PlanDocument;
    hide HasArray, ArrayOf, InboundWith, Inbounds;
    hide RenderPlan.Manages, RenderPlan.Adds, RenderPlan.Removes, RenderPlan.Sets, DocumentReplaced, RestRight;
    hide BlankText, ValueText, ItemValues;
    var document, v := DocumentText(d), Inbounds(c, d)[k];
    var outer := InboundInDocument(c, d, plan, k);
    var l, r := InboundAround(c, document, v, |outer.left|, plan) by { ArrayIsManaged(c, v, plan); }
    Nested(outer, document, 0, l, ValueText(Array(ArrayOf(c, v, plan))), r);
    a := Nest(outer, l, r);
    CombineAll(outer.before, InboundEdits(c, document, TreeOf(c, v, |outer.left|), plan), outer.behind);
    forall now: Items
      ensures DocumentText(DocumentWith(c, d, plan, k, now)) == With(a, ValueText(Array(now)))
    {
      NestWith(outer, l, r, ValueText(Array(now)));
    }
  }

  lemma ArrayIsManaged(c: Codec, v: Value, plan: RenderPlan)
    requires HasArray(c, v, plan)
    ensures Managed(c, v, plan) && Serviceable(c, v) && StringOf(c, v, "tag").Some?
  {}

  lemma CombineAll(before: seq<TextEdit>, own: Planning, behind: seq<TextEdit>)
    requires own.Planned?
    ensures Combine(Planned(before), Combine(own, Planned(behind))) == Planned(before + own.edits + behind)
  {
    assert before + (own.edits + behind) == before + own.edits + behind;
  }

  // ----- What such a document holds

  /** An inbound that comes right is as planned. */
  lemma OutcomeHolds(c: Codec, document: string, v: Value, pos: nat, plan: RenderPlan)
    requires c.Valid() && ValueOk(c, v) && ComesRight(c, document, v, plan, pos)
    ensures var now := Outcome(c, document, v, plan, pos);
            ValueOk(c, now) && InboundRendered(c, v, now, plan) && OthersKept(c, v, now)
  {
    hide Codec.Valid, ValueOk, InboundEditable, LosesFittingPair, EndsInComma, EditedInbound, InboundRendered, OthersKept;
    hide Managed, Serviceable, ArrayThen;
    if InboundEditable(c, v, plan) {
      EditedInboundHolds(c, document, v, pos, plan);
    } else {
      FittingHolds(c, document, v, pos, plan);
    }
  }

  lemma ArrayThenOk(c: Codec, document: string, v: Value, pos: nat, plan: RenderPlan)
    requires c.Valid() && ValueOk(c, v)
    requires LosesFittingPair(c, document, v, plan, pos) || EndsInComma(c, document, v, plan, pos)
    ensures var tag, now := StringOf(c, v, "tag").value, ArrayThen(c, document, v, plan, pos);
            ItemsOk(c, now) &&
            ItemValues(now) == PlannedClients(c, ItemValues(ArrayOf(c, v, plan)), plan.Adds(tag), plan.Removes(tag), plan.Sets(tag))
  {
    hide Codec.Valid, ValueOk, ItemsOk, HasArray, ArrayOf, UniqueClients, PairRemoved, PairFits, Open, OpenEdited, AppendFits;
    hide RenderPlan.Adds, RenderPlan.Removes, RenderPlan.Sets, Disjoint, FittedItems, SetOf, IdsOf, ArrayPos, Remaining, KeptValues;
    hide EntryValues, ItemValues, Trailing;
    SuchHasArray(c, document, v, plan, pos);
    var tag, items := StringOf(c, v, "tag").value, ArrayOf(c, v, plan);
    var removes, ids := SetOf(plan.Removes(tag)), IdsOf(plan.Sets(tag));
    var at, ops := ArrayPos(c, v, plan, pos), OpsOf(c, v, plan);
    InboundArrayOk(c, v, plan);
    if LosesFittingPair(c, document, v, plan, pos) {
      FittedOk(c, document, items, at, removes, ids, ops);
    } else {
      OpenEditedOk(c, document, items, at, removes, ids, ops);
    }
  }

  lemma FittingHolds(c: Codec, document: string, v: Value, pos: nat, plan: RenderPlan)
    requires c.Valid() && ValueOk(c, v) && !InboundEditable(c, v, plan)
    requires LosesFittingPair(c, document, v, plan, pos) || EndsInComma(c, document, v, plan, pos)
    ensures var now := Outcome(c, document, v, plan, pos);
            ValueOk(c, now) && InboundRendered(c, v, now, plan) && OthersKept(c, v, now)
  {
    hide Codec.Valid, ValueOk, ItemsOk, InboundEditable, OthersKept, HasArray, ArrayOf, InboundWith, LosesFittingPair, EndsInComma;
    hide RenderPlan.Adds, RenderPlan.Removes, RenderPlan.Sets, ItemValues, InboundRendered, PlannedClients, ArrayThen;
    SuchHasArray(c, document, v, plan, pos);
    ArrayThenOk(c, document, v, pos, plan);
    var now := ArrayThen(c, document, v, plan, pos);
    InboundWithHolds(c, v, plan, now);
    ArrayRendered(c, v, InboundWith(c, v, plan, now), plan);
  }

  lemma ArrayRendered(c: Codec, v: Value, w: Value, plan: RenderPlan)
    requires HasArray(c, v, plan) && HasArray(c, w, plan) && OthersKept(c, v, w)
    requires var tag := StringOf(c, v, "tag").value;
             ItemValues(ArrayOf(c, w, plan)) ==
             PlannedClients(c, ItemValues(ArrayOf(c, v, plan)), plan.Adds(tag), plan.Removes(tag), plan.Sets(tag))
    ensures InboundRendered(c, v, w, plan)
  {
    hide FindProp, PlannedClients, ItemValues, IsVless, RenderPlan.Manages, RenderPlan.Adds, RenderPlan.Removes, RenderPlan.Sets;
    assert PropOf(c, w, "tag") == PropOf(c, v, "tag");
  }

  lemma InboundArrayOk(c: Codec, v: Value, plan: RenderPlan)
    requires ValueOk(c, v) && HasArray(c, v, plan)
    ensures ItemsOk(c, ArrayOf(c, v, plan))
  {
    hide FindProp, ItemsOk, PropsOk, Managed;
    FoundOk(c, v.props, "settings");
    FoundOk(c, SettingsOf(c, v, plan), "clients");
  }

  lemma {:induction false} OutcomesHold(c: Codec, document: string, items: Items, pos: nat, plan: RenderPlan)
    requires c.Valid() && ItemsOk(c, items) && AllRight(c, document, items, pos, plan)
    ensures var now := Outcomes(c, document, items, pos, plan);
            var before, after := ItemValues(items), ItemValues(now);
            && ItemsOk(c, now) && |after| == |before|
            && forall i :: 0 <= i < |before| ==> InboundRendered(c, before[i], after[i], plan) && OthersKept(c, before[i], after[i])
    decreases items
  {
    hide Codec.Valid, BlankOk, ValueOk, Outcome, ComesRight, InboundRendered, OthersKept, BlankText;
    if !items.End? {
      var at := pos + |BlankText(FirstBlank(items))|;
      OutcomeHolds(c, document, items.value, at, plan);
      if items.More? {
        var next := RestPos(items, pos);
        OutcomesHold(c, document, items.rest, next, plan);
        ConsHolds(c, items.value, ItemValues(items.rest), Outcome(c, document, items.value, plan, at),
                  ItemValues(Outcomes(c, document, items.rest, next, plan)), plan, |ItemValues(items)|);
      }
    }
  }

  lemma {:induction false} InboundsWithHold(c: Codec, document: string, items: Items, pos: nat, plan: RenderPlan,
                                            k: nat, w: Value)
    requires c.Valid() && ItemsOk(c, items) && ValueOk(c, w) && k < |ItemValues(items)|
    requires OthersRight(c, document, items, pos, plan, k)
    ensures var now := InboundsWith(c, document, items, pos, plan, k, w);
            var before, after := ItemValues(items), ItemValues(now);
            && ItemsOk(c, now) && |after| == |before| && after[k] == w
            && forall i :: 0 <= i < |before| && i != k ==> InboundRendered(c, before[i], after[i], plan) && OthersKept(c, before[i], after[i])
    decreases items
  {
    hide Codec.Valid, BlankOk, ValueOk, Outcome, Outcomes, ComesRight, AllRight, InboundRendered, OthersKept, BlankText;
    var at := pos + |BlankText(FirstBlank(items))|;
    if items.More? {
      var rest, next := ItemValues(items.rest), RestPos(items, pos);
      if k == 0 {
        OutcomesHold(c, document, items.rest, next, plan);
        ConsHolds(c, items.value, rest, w, ItemValues(Outcomes(c, document, items.rest, next, plan)), plan, 0);
      } else {
        OutcomeHolds(c, document, items.value, at, plan);
        InboundsWithHold(c, document, items.rest, next, plan, k - 1, w);
        ConsHolds(c, items.value, rest, Outcome(c, document, items.value, plan, at),
                  ItemValues(InboundsWith(c, document, items.rest, next, plan, k - 1, w)), plan, k);
      }
    }
  }

  lemma ConsHolds(c: Codec, v: Value, rest: seq<Value>, v': Value, rest': seq<Value>, plan: RenderPlan, k: nat)
    requires |rest| == |rest'|
    requires k > 0 ==> InboundRendered(c, v, v', plan) && OthersKept(c, v, v')
    requires forall i :: 0 <= i < |rest| && i + 1 != k ==> InboundRendered(c, rest[i], rest'[i], plan) && OthersKept(c, rest[i], rest'[i])
    ensures var before, after := [v] + rest, [v'] + rest';
            forall i :: 0 <= i < |before| && i != k ==> InboundRendered(c, before[i], after[i], plan) && OthersKept(c, before[i], after[i])
  {
    hide InboundRendered, OthersKept;
    var before, after := [v] + rest, [v'] + rest';
    forall i | 0 <= i < |before| && i != k
      ensures InboundRendered(c, before[i], after[i], plan) && OthersKept(c, before[i], after[i])
    {
      if i > 0 {
        assert before[i] == rest[i - 1] && after[i] == rest'[i - 1];
      }
    }
  }

  lemma InboundWithHolds(c: Codec, v: Value, plan: RenderPlan, now: Items)
    requires ValueOk(c, v) && HasArray(c, v, plan) && ItemsOk(c, now)
    ensures var w := InboundWith(c, v, plan, now);
            && ValueOk(c, w) && HasArray(c, w, plan) && ArrayOf(c, w, plan) == now && OthersKept(c, v, w)
  {
    hide FindProp, ReplaceProp, PropsOk, ItemsOk, IsVless, RenderPlan.Manages;
    var settings := SettingsOf(c, v, plan);
    var inner := ReplaceProp(c, settings, "clients", Array(now));
    FoundOk(c, v.props, "settings");
    ReplacedProp(c, settings, "clients", Array(now));
    ReplacedPropOk(c, settings, "clients", Array(now));
    ReplacedProp(c, v.props, "settings", Object(inner));
    ReplacedPropOk(c, v.props, "settings", Object(inner));
  }

  /** It parses as it stands: the array given, every other inbound as planned, every other property as it was. */
  lemma DocumentWithHolds(c: Codec, d: Document, plan: RenderPlan, k: nat, now: Items)
    requires c.Valid() && DocumentOk(c, d) && ItemsOk(c, now)
    requires k < |Inbounds(c, d)| && HasArray(c, Inbounds(c, d)[k], plan) && RestRight(c, d, plan, k)
    ensures var edited := DocumentWith(c, d, plan, k, now);
            var text, before, after := DocumentText(edited), Inbounds(c, d), Inbounds(c, edited);
            && ParseDocument(c, text) == Parsed(TreeOf(c, edited.root, |BlankText(d.lead)|), |text|)
            && (forall key :: key != "inbounds" ==> PropOf(c, edited.root, key) == PropOf(c, d.root, key))
            && |after| == |before| && HasArray(c, after[k], plan) && ArrayOf(c, after[k], plan) == now && OthersKept(c, before[k], after[k])
            && forall i :: 0 <= i < |before| && i != k ==> InboundRendered(c, before[i], after[i], plan) && OthersKept(c, before[i], after[i])
  {
    hide TreeOf, ParseDocument, DocumentText, ReplaceProp, InboundsWith, FindPos, FindProp, Codec.Valid;
    hide OthersRight, HasArray, ArrayOf, InboundWith;
    hide InboundRendered, OthersKept, PropsOk, ItemsOk, BlankOk, BlankText;
    var props, items := d.root.props, InboundItems(c, d).value;
    var at, w := InboundsPos(c, d), InboundWith(c, Inbounds(c, d)[k], plan, now);
    FoundOk(c, props, "inbounds");
    EveryValueOk(c, items, k);
    InboundWithHolds(c, Inbounds(c, d)[k], plan, now);
    InboundsWithHold(c, DocumentText(d), items, at, plan, k, w);
    var edited := Array(InboundsWith(c, DocumentText(d), items, at, plan, k, w));
    ReplacedProp(c, props, "inbounds", edited);
    ReplacedPropOk(c, props, "inbounds", edited);
    ObjectPropsOk(c, ReplaceProp(c, props, "inbounds", edited));
    ParseDocumentText(c, DocumentWith(c, d, plan, k, now));
  }

  lemma {:induction false} EveryValueOk(c: Codec, items: Items, k: nat)
    requires ItemsOk(c, items) && k < |ItemValues(items)|
    ensures ValueOk(c, ItemValues(items)[k])
  {
    hide ValueOk, BlankOk;
    if items.More? && k > 0 {
      EveryValueOk(c, items.rest, k - 1);
    }
  }
}
