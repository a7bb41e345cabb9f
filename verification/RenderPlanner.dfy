/** Planning the edits of one roster plan over a parsed document, and applying them. */
module RenderPlanner {
  import opened JsoncParser
  import opened JsoncReader
  import opened JsoncSyntax
  import opened Options
  import opened TextEdits

  /** One client to place in an inbound; an empty flow is left out of a rendered entry. */
  datatype ClientOp = ClientOp(email: string, id: string, flow: string)

  datatype RenderPlan = RenderPlan(
    adds: map<string, seq<ClientOp>>,
    removes: map<string, seq<string>>,
    sets: map<string, seq<ClientOp>>)
  {
    predicate Empty() { adds == map[] && removes == map[] && sets == map[] }

    predicate Manages(tag: string) { tag in adds || tag in removes || tag in sets }

    function Adds(tag: string): seq<ClientOp> { if tag in adds then adds[tag] else [] }

    function Removes(tag: string): seq<string> { if tag in removes then removes[tag] else [] }

    function Sets(tag: string): seq<ClientOp> { if tag in sets then sets[tag] else [] }
  }

  datatype Planning = Planned(edits: seq<TextEdit>) | Refused

  // ----- Lookups

  /** The index of the first occurrence of a key from `from` on, or the length. */
  function KeyIndex(keys: seq<string>, key: string, from: nat): (index: nat)
    requires from <= |keys|
    ensures from <= index <= |keys|
    ensures index < |keys| ==> keys[index] == key
    ensures forall k :: from <= k < index ==> keys[k] != key
    decreases |keys| - from
  {
    if from == |keys| || keys[from] == key then from else KeyIndex(keys, key, from + 1)
  }

  /** An object's value for a key. */
  function Get(n: Node, key: string): Option<Node> {
    if n.kind != '{' then None
    else
      var index := KeyIndex(n.keys, key, 0);
      if index < |n.keys| && index < |n.items| then Some(n.items[index]) else None
  }

  /** An object's value for a key, if it is a string. */
  function GetString(n: Node, key: string): Option<string> {
    match Get(n, key)
    case None => None
    case Some(value) => if value.kind == '"' then Some(value.value) else None
  }

  /** The client objects of an array by email; later entries win. */
  function ByEmail(items: seq<Node>): map<string, nat> {
    if items == [] then map[]
    else
      var last := |items| - 1;
      var before := ByEmail(items[..last]);
      match GetString(items[last], "email")
      case None => before
      case Some(email) => before[email := last]
  }

  predicate NamedBy(item: Node, email: string) { GetString(item, "email") == Some(email) }

  /** Whoever some entry names is found at the last entry that does. */
  lemma {:induction false} ByEmailIs(items: seq<Node>, email: string)
    ensures email in ByEmail(items) <==> exists i :: 0 <= i < |items| && NamedBy(items[i], email)
    ensures email in ByEmail(items) ==>
              var at := ByEmail(items)[email];
              at < |items| && NamedBy(items[at], email) && forall k :: at < k < |items| ==> !NamedBy(items[k], email)
  {
    hide GetString;
    if items != [] {
      var init, last := items[..|items| - 1], items[|items| - 1];
      assert items == init + [last];
      ByEmailIs(init, email);
      if i :| 0 <= i < |items| && NamedBy(items[i], email) {
        assert i < |init| ==> NamedBy(init[i], email);
      }
      if i :| 0 <= i < |init| && NamedBy(init[i], email) {
        assert NamedBy(items[i], email);
      }
      assert forall k :: 0 <= k < |init| ==> items[k] == init[k];
    }
  }

  function DropEmails(ops: seq<ClientOp>, present: set<string>): seq<ClientOp> {
    if ops == [] then []
    else (if ops[0].email in present then [] else [ops[0]]) + DropEmails(ops[1..], present)
  }

  // ----- Layout

  predicate Multiline(document: string, start: nat, end: nat) {
    exists k :: start <= k < end && k < |document| && document[k] == '\n'
  }

  /** Where the line containing `pos` begins. */
  function LineStart(document: string, pos: nat): (start: nat)
    ensures start <= pos
  {
    if pos == 0 || (pos <= |document| && document[pos - 1] == '\n') then pos else LineStart(document, pos - 1)
  }

  function Indent(document: string, pos: nat): (text: string)
    ensures forall k :: 0 <= k < |text| ==> text[k] == ' ' || text[k] == '\t'
    decreases |document| - pos
  {
    if pos < |document| && (document[pos] == ' ' || document[pos] == '\t') then [document[pos]] + Indent(document, pos + 1)
    else []
  }

  /** The whitespace that begins the line containing `pos`. */
  function LineIndent(document: string, pos: nat): (text: string)
    ensures forall k :: 0 <= k < |text| ==> text[k] == ' ' || text[k] == '\t'
  {
    Indent(document, LineStart(document, pos))
  }

  function Join(parts: seq<string>, separator: string): string {
    if parts == [] then []
    else if |parts| == 1 then parts[0]
    else parts[0] + separator + Join(parts[1..], separator)
  }

  // ----- Rendered clients

  /** One client as a compact object: email, id, then flow when set. */
  function EntryText(c: Codec, op: ClientOp): string {
    "{\"email\": " + c.encode(op.email) + ", \"id\": " + c.encode(op.id)
    + (if op.flow == "" then "" else ", \"flow\": " + c.encode(op.flow)) + "}"
  }

  function EntryTexts(c: Codec, ops: seq<ClientOp>): seq<string> {
    seq(|ops|, i requires 0 <= i < |ops| => EntryText(c, ops[i]))
  }

  /** A whole clients array for an inbound that had no clients key. */
  function ClientsValueText(c: Codec, keyIndent: string, ops: seq<ClientOp>): string {
    "[\n" + keyIndent + "  " + Join(EntryTexts(c, ops), ",\n" + keyIndent + "  ") + "\n" + keyIndent + "]"
  }

  // ----- Edits of one inbound

  /** The entry and one separator: the following one, or for the last entry the preceding one. */
  function PlanEntryRemoval(clients: Node, index: nat): TextEdit
    requires index < |clients.items|
  {
    var entry := clients.items[index];
    if index < |clients.items| - 1 then TextEdit(entry.start, clients.items[index + 1].start, "")
    else if index < |clients.commas| then TextEdit(entry.start, clients.commas[index] + 1, "")
    else if 0 < index <= |clients.commas| then TextEdit(clients.commas[index - 1], entry.end, "")
    else TextEdit(entry.start, entry.end, "")
  }

  /** Rewrites the id in place; an entry without one gains it as its first key; an equal id writes nothing. */
  function PlanIdSet(c: Codec, entry: Node, id: string): Option<TextEdit> {
    match Get(entry, "id")
    case Some(key) =>
      if key.kind == '"' then
        if key.value == id then None else Some(TextEdit(key.start, key.end, c.encode(id)))
      else Some(InsertId(c, entry, id))
    case None => Some(InsertId(c, entry, id))
  }

  function InsertId(c: Codec, entry: Node, id: string): TextEdit {
    TextEdit(entry.start + 1, entry.start + 1, "\"id\": " + c.encode(id) + if entry.items == [] then "" else ", ")
  }

  /** The append to a clients array, or the insertion of a clients key; nothing when nothing is left to add. */
  function PlanClientsInsert(c: Codec, document: string, settings: Node, add: seq<ClientOp>): (p: Planning)
    ensures p.Planned? ==> |p.edits| <= 1
  {
    match Get(settings, "clients")
    case None => Planned([PlanKeyInsert(c, document, settings, add)])
    case Some(clients) =>
      if clients.kind != '[' then Refused
      else
        var remaining := DropEmails(add, ByEmail(clients.items).Keys);
        if remaining == [] then Planned([]) else Planned([PlanAppend(c, document, clients, remaining)])
  }

  function PlanKeyInsert(c: Codec, document: string, settings: Node, add: seq<ClientOp>): TextEdit {
    var key := c.encode("clients");
    if settings.items == [] then
      var at := settings.start + 1;
      if Multiline(document, settings.start, settings.end) then
        var indent := LineIndent(document, settings.start) + "  ";
        TextEdit(at, at, "\n" + indent + key + ": " + ClientsValueText(c, indent, add) + "\n" + LineIndent(document, settings.start))
      else
        TextEdit(at, at, key + ": [" + Join(EntryTexts(c, add), ", ") + "]")
    else
      var at := settings.items[|settings.items| - 1].end;
      if Multiline(document, settings.start, settings.end) && settings.propStarts != [] then
        var indent := LineIndent(document, settings.propStarts[|settings.propStarts| - 1]);
        TextEdit(at, at, ",\n" + indent + key + ": " + ClientsValueText(c, indent, add))
      else
        TextEdit(at, at, ", " + key + ": [" + Join(EntryTexts(c, add), ", ") + "]")
  }

  function PlanAppend(c: Codec, document: string, clients: Node, remaining: seq<ClientOp>): TextEdit {
    var entries := EntryTexts(c, remaining);
    if clients.items == [] then
      var at := clients.start + 1;
      if Multiline(document, clients.start, clients.end) then
        var keyIndent := LineIndent(document, clients.start);
        TextEdit(at, at, "\n" + keyIndent + "  " + Join(entries, ",\n" + keyIndent + "  ") + "\n" + keyIndent)
      else
        TextEdit(at, at, Join(entries, ", "))
    else
      var last := clients.items[|clients.items| - 1];
      var indent := LineIndent(document, last.start);
      if clients.trailing then
        if Multiline(document, clients.start, clients.end) then
          var closer := LineStart(document, clients.end - 1);
          TextEdit(closer, closer, indent + Join(entries, ",\n" + indent) + "\n")
        else
          var at := CommaAfter(document, last.end) + 1;
          TextEdit(at, at, " " + Join(entries, ", "))
      else if Multiline(document, clients.start, clients.end) then
        TextEdit(last.end, last.end, ",\n" + indent + Join(entries, ",\n" + indent))
      else
        TextEdit(last.end, last.end, ", " + Join(entries, ", "))
  }

  /** The first comma from `pos` on. */
  function CommaAfter(document: string, pos: nat): nat
    decreases |document| - pos
  {
    if pos < |document| && document[pos] != ',' then CommaAfter(document, pos + 1) else pos
  }

  function RemovalEdits(clients: Node, byEmail: map<string, nat>, removes: seq<string>): seq<TextEdit> {
    if removes == [] then []
    else
      var email, before := removes[|removes| - 1], RemovalEdits(clients, byEmail, removes[..|removes| - 1]);
      if email in byEmail && byEmail[email] < |clients.items| then before + [PlanEntryRemoval(clients, byEmail[email])] else before
  }

  /** Sets of carried emails rewrite the id. */
  function SetEdits(c: Codec, clients: Node, byEmail: map<string, nat>, sets: seq<ClientOp>): seq<TextEdit> {
    if sets == [] then []
    else
      var set', before := sets[|sets| - 1], SetEdits(c, clients, byEmail, sets[..|sets| - 1]);
      if set'.email in byEmail && byEmail[set'.email] < |clients.items| then
        match PlanIdSet(c, clients.items[byEmail[set'.email]], set'.id)
        case None => before
        case Some(edit) => before + [edit]
      else before
  }

  /** Sets of other emails append together with the adds. */
  function UnmatchedSets(byEmail: map<string, nat>, sets: seq<ClientOp>): seq<ClientOp> {
    if sets == [] then []
    else UnmatchedSets(byEmail, sets[..|sets| - 1])
         + if sets[|sets| - 1].email in byEmail then [] else [sets[|sets| - 1]]
  }

  // strings.EqualFold with "vless": the long s folds to s.
  predicate IsVless(protocol: string) {
    && |protocol| == 5
    && (protocol[0] == 'v' || protocol[0] == 'V')
    && (protocol[1] == 'l' || protocol[1] == 'L')
    && (protocol[2] == 'e' || protocol[2] == 'E')
    && (protocol[3] == 's' || protocol[3] == 'S' || protocol[3] == '\U{017F}')
    && (protocol[4] == 's' || protocol[4] == 'S' || protocol[4] == '\U{017F}')
  }

  /** What two parts of the document plan together; one refusal refuses the whole plan. */
  function Combine(first: Planning, second: Planning): Planning {
    if first.Planned? && second.Planned? then Planned(first.edits + second.edits) else Refused
  }

  function ClientsEdits(c: Codec, document: string, settings: Node, clients: Node,
                        adds: seq<ClientOp>, removes: seq<string>, sets: seq<ClientOp>): Planning {
    if clients.kind != '[' then Refused
    else
      var byEmail := ByEmail(clients.items);
      var edits := RemovalEdits(clients, byEmail, removes) + SetEdits(c, clients, byEmail, sets);
      var appendOps := adds + UnmatchedSets(byEmail, sets);
      if appendOps == [] then Planned(edits)
      else Combine(Planned(edits), PlanClientsInsert(c, document, settings, DropEmails(appendOps, byEmail.Keys)))
  }

  function SettingsEdits(c: Codec, document: string, settings: Node,
                         adds: seq<ClientOp>, removes: seq<string>, sets: seq<ClientOp>): Planning {
    match Get(settings, "clients")
    case None => PlanClientsInsert(c, document, settings, DropEmails(adds + sets, set e | e in removes))
    case Some(clients) => ClientsEdits(c, document, settings, clients, adds, removes, sets)
  }

  function InboundEdits(c: Codec, document: string, inbound: Node, plan: RenderPlan): Planning {
    match GetString(inbound, "tag")
    case None => Planned([])
    case Some(tag) =>
      if !plan.Manages(tag) then Planned([])
      else
        match (Get(inbound, "protocol"), Get(inbound, "settings"))
        case (Some(protocol), Some(settings)) =>
          if !IsVless(protocol.value) || settings.kind != '{' then Refused
          else SettingsEdits(c, document, settings, plan.Adds(tag), plan.Removes(tag), plan.Sets(tag))
        case _ => Refused
  }

  function AllEdits(c: Codec, document: string, inbounds: seq<Node>, plan: RenderPlan): Planning {
    if inbounds == [] then Planned([])
    else Combine(InboundEdits(c, document, inbounds[0], plan), AllEdits(c, document, inbounds[1..], plan))
  }
}
