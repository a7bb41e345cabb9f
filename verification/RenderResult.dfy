/** What the planned list of clients says email by email, and why planning it again plans nothing. */
module RenderResult {
  import opened JsoncParser
  import opened JsoncSyntax
  import opened JsoncTrees
  import opened Options
  import opened RenderArrays
  import opened RenderEntries
  import opened RenderInbounds
  import opened RenderLists
  import opened RenderMeaning
  import opened RenderOrder
  import opened RenderPlanner
  import opened RenderSyntax
  import opened Sequences
  import opened TextEdits

  function IdOf(c: Codec, v: Value): Option<string> { StringOf(c, v, "id") }

  predicate IdsSet(c: Codec, values: seq<Value>, ids: map<string, string>) {
    forall i :: 0 <= i < |values| && EmailOf(c, values[i]).Some? && EmailOf(c, values[i]).value in ids ==>
                  IdOf(c, values[i]) == Some(ids[EmailOf(c, values[i]).value])
  }

  /** Nobody to remove is there, everybody to add or set is, and the ids are those to set. */
  predicate Settled(c: Codec, values: seq<Value>, adds: seq<ClientOp>, removes: seq<string>, sets: seq<ClientOp>) {
    && UniqueClients(c, values)
    && (forall e :: e in removes ==> e !in Present(c, values))
    && (forall op :: op in adds + sets ==> op.email in Present(c, values))
    && IdsSet(c, values, IdsOf(sets))
  }

  // ----- Lists of clients

  function EmailSet(email: Option<string>): set<string> { if email.Some? then {email.value} else {} }

  lemma PresentConcat(c: Codec, a: seq<Value>, b: seq<Value>)
    ensures Present(c, a + b) == Present(c, a) + Present(c, b)
    ensures UniqueClients(c, a) && UniqueClients(c, b) && Present(c, a) !! Present(c, b) ==> UniqueClients(c, a + b)
  {
    hide EmailOf;
    var all := a + b;
    assert forall i :: 0 <= i < |a| ==> all[i] == a[i];
    forall e | e in Present(c, b)
      ensures e in Present(c, all)
    {
      var i :| 0 <= i < |b| && EmailOf(c, b[i]) == Some(e);
      assert all[|a| + i] == b[i];
    }
    if UniqueClients(c, a) && UniqueClients(c, b) && Present(c, a) !! Present(c, b) {
      forall i, j | 0 <= i < j < |all| && EmailOf(c, all[i]).Some?
        ensures EmailOf(c, all[i]) != EmailOf(c, all[j])
      {
        if i < |a| <= j && EmailOf(c, all[j]).Some? {
          assert EmailOf(c, a[i]).value in Present(c, a) && EmailOf(c, b[j - |a|]).value in Present(c, b);
        }
      }
    }
  }

  lemma PresentOne(c: Codec, v: Value)
    ensures Present(c, [v]) == EmailSet(EmailOf(c, v))
    ensures UniqueClients(c, [v])
  {
    hide EmailOf;
    assert [v][0] == v;
    if EmailOf(c, v).Some? {
      assert EmailOf(c, [v][0]).value in Present(c, [v]);
    }
  }

  lemma UniqueTail(c: Codec, values: seq<Value>)
    requires UniqueClients(c, values) && values != []
    ensures UniqueClients(c, values[1..])
    ensures EmailSet(EmailOf(c, values[0])) !! Present(c, values[1..])
    ensures Present(c, values) == EmailSet(EmailOf(c, values[0])) + Present(c, values[1..])
  {
    hide EmailOf;
    PresentOne(c, values[0]);
    PresentConcat(c, [values[0]], values[1..]);
    assert values == [values[0]] + values[1..];
  }

  lemma SameEmail(c: Codec, v: Value, ids: map<string, string>)
    requires c.Valid()
    ensures EmailOf(c, EditedEntry(c, v, ids)) == EmailOf(c, v)
    ensures EmailOf(c, v).Some? && EmailOf(c, v).value in ids ==>
              IdOf(c, EditedEntry(c, v, ids)) == Some(ids[EmailOf(c, v).value])
    ensures EmailOf(c, v).None? || EmailOf(c, v).value !in ids ==> EditedEntry(c, v, ids) == v
  {
    hide SetId, FindProp, Codec.Valid;
    if EmailOf(c, v).Some? && EmailOf(c, v).value in ids {
      SetIdMeaning(c, v, ids[EmailOf(c, v).value]);
    }
  }

  lemma IdsSetConcat(c: Codec, a: seq<Value>, b: seq<Value>, ids: map<string, string>)
    requires IdsSet(c, a, ids) && IdsSet(c, b, ids)
    ensures IdsSet(c, a + b, ids)
  {
    hide EmailOf, IdOf;
  }

  /** The kept clients: all but the removed ones, with the ids set. */
  lemma {:induction false} KeptFacts(c: Codec, values: seq<Value>, removes: set<string>, ids: map<string, string>)
    requires c.Valid() && UniqueClients(c, values)
    ensures var kept := KeptValues(c, values, removes, ids);
            UniqueClients(c, kept) && Present(c, kept) == Present(c, values) - removes && IdsSet(c, kept, ids)
  {
    hide EmailOf, IdOf, EditedEntry, Codec.Valid, UniqueClients, Present, IdsSet;
    if values == [] {
      NobodyPresent(c, ids);
    } else {
      var rest := KeptValues(c, values[1..], removes, ids);
      UniqueTail(c, values);
      KeptFacts(c, values[1..], removes, ids);
      if Removed(c, values[0], removes) {
        assert [] + rest == rest;
      } else {
        var edited := EditedEntry(c, values[0], ids);
        SameEmail(c, values[0], ids);
        PresentOne(c, edited);
        PresentConcat(c, [edited], rest);
        OneIdSet(c, edited, ids);
        IdsSetConcat(c, [edited], rest, ids);
      }
    }
  }

  lemma NobodyPresent(c: Codec, ids: map<string, string>)
    ensures Present(c, []) == {} && UniqueClients(c, []) && IdsSet(c, [], ids)
  {}

  lemma OneIdSet(c: Codec, v: Value, ids: map<string, string>)
    requires EmailOf(c, v).Some? && EmailOf(c, v).value in ids ==> IdOf(c, v) == Some(ids[EmailOf(c, v).value])
    ensures IdsSet(c, [v], ids)
  {
    hide EmailOf, IdOf;
  }

  /** A client a plan neither removes nor sets stays as it is, before the clients behind it. */
  lemma {:induction false} UntouchedStays(c: Codec, values: seq<Value>, removes: set<string>, ids: map<string,
                                          string>, v: Value)
    requires c.Valid() && v in values
    requires !Removed(c, v, removes) && (EmailOf(c, v).Some? ==> EmailOf(c, v).value !in ids)
    ensures v in KeptValues(c, values, removes, ids)
  {
    hide EmailOf, Codec.Valid, EditedEntry;
    SameEmail(c, v, ids);
    if v != values[0] {
      UntouchedStays(c, values[1..], removes, ids, v);
    }
  }

  lemma {:induction false} EntryFacts(c: Codec, ops: seq<ClientOp>, ids: map<string, string>)
    requires c.Valid() && NoRepeats(EmailsOf(ops))
    requires forall op :: op in ops && op.email in ids ==> op.id == ids[op.email]
    ensures var entries := EntryValues(c, ops);
            UniqueClients(c, entries) && Present(c, entries) == SetOf(EmailsOf(ops)) && IdsSet(c, entries, ids)
  {
    hide EntryValue, EmailOf, IdOf, Codec.Valid;
    var entries := EntryValues(c, ops);
    forall i | 0 <= i < |ops|
      ensures EmailOf(c, entries[i]) == Some(ops[i].email) && IdOf(c, entries[i]) == Some(ops[i].id)
    {
      EntryNames(c, ops[i]);
    }
    forall i, j | 0 <= i < j < |ops|
      ensures ops[i].email != ops[j].email
    {
      assert EmailsOf(ops)[i] != EmailsOf(ops)[j];
    }
    forall e | e in SetOf(EmailsOf(ops))
      ensures e in Present(c, entries)
    {
      var i :| 0 <= i < |ops| && EmailsOf(ops)[i] == e;
      assert EmailOf(c, entries[i]) == Some(e);
    }
    forall e | e in Present(c, entries)
      ensures e in SetOf(EmailsOf(ops))
    {
      var i :| 0 <= i < |entries| && EmailOf(c, entries[i]) == Some(e);
      assert EmailsOf(ops)[i] == e;
    }
  }

  lemma EntryNames(c: Codec, op: ClientOp)
    requires c.Valid()
    ensures EmailOf(c, EntryValue(c, op)) == Some(op.email) && IdOf(c, EntryValue(c, op)) == Some(op.id)
  {
    hide EntryValue, Codec.Valid, StringOf;
    EntryOk(c, op);
  }

  lemma {:induction false} DropFacts(ops: seq<ClientOp>, present: set<string>)
    ensures var left := DropEmails(ops, present);
            && (forall op :: op in left <==> op in ops && op.email !in present)
            && (NoRepeats(EmailsOf(ops)) ==> NoRepeats(EmailsOf(left)))
  {
    if ops != [] {
      DropFacts(ops[1..], present);
      var rest := DropEmails(ops[1..], present);
      assert ops == [ops[0]] + ops[1..];
      assert forall op :: op in ops <==> op == ops[0] || op in ops[1..];
      if NoRepeats(EmailsOf(ops)) {
        assert EmailsOf(ops[1..]) == EmailsOf(ops)[1..];
        if ops[0].email !in present {
          DistinctCons(ops[0], ops[1..], rest);
        } else {
          assert [] + rest == rest;
        }
      }
    }
  }

  lemma DistinctCons(op: ClientOp, ops: seq<ClientOp>, rest: seq<ClientOp>)
    requires NoRepeats(EmailsOf([op] + ops)) && NoRepeats(EmailsOf(rest)) && forall x :: x in rest ==> x in ops
    ensures NoRepeats(EmailsOf([op] + rest))
  {
    forall x | x in rest
      ensures x.email != op.email
    {
      var i :| 0 <= i < |ops| && ops[i] == x;
      assert EmailsOf([op] + ops)[i + 1] == x.email && EmailsOf([op] + ops)[0] == op.email;
    }
    assert EmailsOf([op] + rest) == [op.email] + EmailsOf(rest);
    forall j | 0 <= j < |rest|
      ensures EmailsOf(rest)[j] != op.email
    {
      assert rest[j] in rest;
    }
  }

  lemma AddsAndSetsDistinct(adds: seq<ClientOp>, removes: seq<string>, sets: seq<ClientOp>)
    requires Disjoint(adds, removes, sets)
    ensures NoRepeats(EmailsOf(adds + sets))
  {
    var a, s := EmailsOf(adds), EmailsOf(sets);
    assert EmailsOf(adds + sets) == a + s;
    forall i, j | 0 <= i < |a| && 0 <= j < |s|
      ensures a[i] != s[j]
    {
      assert a[i] in a && s[j] in s;
    }
  }

  /** The ids to set are those of the sets, and of no add. */
  lemma IdsOfOps(adds: seq<ClientOp>, removes: seq<string>, sets: seq<ClientOp>)
    requires Disjoint(adds, removes, sets)
    ensures forall op :: op in adds + sets && op.email in IdsOf(sets) ==> op.id == IdsOf(sets)[op.email]
  {
    hide IdsOf;
    IdsOfSets(sets);
    EmailsOfAll(adds);
  }

  /** The planned list does what the plan asks for. */
  lemma PlannedClientsSettled(c: Codec, was: seq<Value>, adds: seq<ClientOp>, removes: seq<string>, sets: seq<ClientOp>)
    requires c.Valid() && UniqueClients(c, was) && Disjoint(adds, removes, sets)
    ensures Settled(c, PlannedClients(c, was, adds, removes, sets), adds, removes, sets)
  {
    hide Codec.Valid, UniqueClients, Present, IdsSet, KeptValues, EntryValues, IdsOf, EmailsOf, Disjoint, NoRepeats;
    var ids, ops := IdsOf(sets), Remaining(c, was, adds, sets);
    var kept, entries := KeptValues(c, was, SetOf(removes), ids), EntryValues(c, ops);
    KeptFacts(c, was, SetOf(removes), ids);
    AddsAndSetsDistinct(adds, removes, sets);
    IdsOfOps(adds, removes, sets);
    DropFacts(adds + sets, Present(c, was));
    EntryFacts(c, ops, ids);
    EmailsOfAll(ops);
    OpsOfEmails(ops);
    PresentConcat(c, kept, entries);
    IdsSetConcat(c, kept, entries, ids);
    NotRemoved(adds, removes, sets);
  }

  lemma OpsOfEmails(ops: seq<ClientOp>)
    ensures forall e :: e in EmailsOf(ops) ==> exists op :: op in ops && op.email == e
  {
    forall e | e in EmailsOf(ops)
      ensures exists op :: op in ops && op.email == e
    {
      var i :| 0 <= i < |ops| && EmailsOf(ops)[i] == e;
      assert ops[i] in ops;
    }
  }

  lemma NotRemoved(adds: seq<ClientOp>, removes: seq<string>, sets: seq<ClientOp>)
    requires Disjoint(adds, removes, sets)
    ensures forall op :: op in adds + sets ==> op.email !in removes
  {
    EmailsOfAll(adds);
    EmailsOfAll(sets);
  }

  // ----- Planning again

  lemma {:induction false} NothingToRemove(clients: Node, byEmail: map<string, nat>, removes: seq<string>)
    requires forall e :: e in removes ==> e !in byEmail
    ensures RemovalEdits(clients, byEmail, removes) == []
  {
    if removes != [] {
      NothingToRemove(clients, byEmail, removes[..|removes| - 1]);
      assert removes[|removes| - 1] in removes;
    }
  }

  lemma {:induction false} NothingToSet(c: Codec, clients: Node, byEmail: map<string, nat>, sets: seq<ClientOp>)
    requires forall op :: op in sets && op.email in byEmail && byEmail[op.email] < |clients.items| ==>
                            PlanIdSet(c, clients.items[byEmail[op.email]], op.id).None?
    ensures SetEdits(c, clients, byEmail, sets) == []
  {
    hide PlanIdSet;
    if sets != [] {
      NothingToSet(c, clients, byEmail, sets[..|sets| - 1]);
      assert sets[|sets| - 1] in sets;
    }
  }

  lemma SameIdPlansNothing(c: Codec, v: Value, id: string, pos: nat)
    requires IdOf(c, v) == Some(id)
    ensures PlanIdSet(c, TreeOf(c, v, pos), id).None?
  {
    hide TreeOf, FindProp;
    GetOfTree(c, v, "id", pos);
  }

  lemma {:induction false} NodesAreTrees(c: Codec, items: Items, pos: nat, k: nat) returns (at: nat)
    requires k < |ItemValues(items)|
    ensures k < |ItemNodes(c, items, pos)| && ItemNodes(c, items, pos)[k] == TreeOf(c, ItemValues(items)[k], at)
  {
    hide TreeOf, BlankText;
    at := pos + |BlankText(FirstBlank(items))|;
    if k > 0 {
      at := NodesAreTrees(c, items.rest, RestPos(items, pos), k - 1);
    }
  }

  /** A settled array plans no edit at all, wherever it stands in whatever document. */
  lemma SettledPlansNothing(c: Codec, document: string, settings: Node, items: Items, pos: nat,
                            adds: seq<ClientOp>, removes: seq<string>, sets: seq<ClientOp>)
    requires Get(settings, "clients") == Some(TreeOf(c, Array(items), pos))
    requires Disjoint(adds, removes, sets) && Settled(c, ItemValues(items), adds, removes, sets)
    ensures ClientsEdits(c, document, settings, TreeOf(c, Array(items), pos), adds, removes, sets) == Planned([])
  {
    hide Get, TreeOf, UniqueClients, ByEmail, RemovalEdits, SetEdits, PlanAppend, ItemNodes, Present, IdsSet, IdsOf, PlanIdSet, ItemValues;
    var clients, byEmail := TreeOf(c, Array(items), pos), ByEmail(ItemNodes(c, items, pos + 1));
    TreeShape(c, Array(items), pos);
    ClientsPlanned(c, document, settings, items, pos, adds, removes, sets);
    EmailsOfNodes(c, items, pos + 1);
    NothingToRemove(clients, byEmail, removes);
    SettledIds(c, items, pos + 1, sets);
    NothingToSet(c, clients, byEmail, sets);
    DropFacts(adds + sets, Present(c, ItemValues(items)));
    NobodyLeft(adds + sets, Present(c, ItemValues(items)));
  }

  lemma {:induction false} NobodyLeft(ops: seq<ClientOp>, present: set<string>)
    requires forall op :: op in ops ==> op.email in present
    ensures DropEmails(ops, present) == []
  {
    if ops != [] {
      assert ops[0] in ops;
      NobodyLeft(ops[1..], present);
    }
  }

  lemma SettledIds(c: Codec, items: Items, pos: nat, sets: seq<ClientOp>)
    requires UniqueClients(c, ItemValues(items)) && IdsSet(c, ItemValues(items), IdsOf(sets)) && NoRepeats(EmailsOf(sets))
    ensures var nodes := ItemNodes(c, items, pos);
            var byEmail := ByEmail(nodes);
            forall op :: op in sets && op.email in byEmail && byEmail[op.email] < |nodes| ==>
                           PlanIdSet(c, nodes[byEmail[op.email]], op.id).None?
  {
    hide TreeOf, UniqueClients, ByEmail, IdsOf, PlanIdSet, GetString, StringOf;
    var nodes, values := ItemNodes(c, items, pos), ItemValues(items);
    var byEmail := ByEmail(nodes);
    EmailsOfNodes(c, items, pos);
    ByEmailIndex(nodes);
    NodesOfItems(c, items, pos);
    IdsOfSets(sets);
    forall op | op in sets && op.email in byEmail && byEmail[op.email] < |nodes|
      ensures PlanIdSet(c, nodes[byEmail[op.email]], op.id).None?
    {
      var k := byEmail[op.email];
      var at := NodesAreTrees(c, items, pos, k);
      assert GetString(nodes[k], "email") == Some(op.email);
      assert EmailOf(c, values[k]) == Some(op.email);
      SameIdPlansNothing(c, values[k], op.id, at);
    }
  }
}
