/** One clients array: its planned edits, and the array they make of it. */
module RenderArrays {
  import opened JsoncParser
  import opened JsoncSyntax
  import opened JsoncTrees
  import opened Options
  import opened RenderEntries
  import opened RenderLists
  import opened RenderOrder
  import opened RenderPlanner
  import opened RenderSyntax
  import opened TextEdits

  // ----- Emails

  predicate UniqueClients(c: Codec, values: seq<Value>) {
    forall i, j :: 0 <= i < j < |values| && EmailOf(c, values[i]).Some? ==> EmailOf(c, values[i]) != EmailOf(c, values[j])
  }

  function Present(c: Codec, values: seq<Value>): set<string> {
    set i | 0 <= i < |values| && EmailOf(c, values[i]).Some? :: EmailOf(c, values[i]).value
  }

  /** What is left to append: the adds and sets no client carries. */
  function Remaining(c: Codec, values: seq<Value>, adds: seq<ClientOp>, sets: seq<ClientOp>): seq<ClientOp> {
    DropEmails(adds + sets, Present(c, values))
  }

  lemma {:induction false} NodesOfItems(c: Codec, items: Items, pos: nat)
    ensures |ItemNodes(c, items, pos)| == |ItemValues(items)|
    ensures forall k :: 0 <= k < |ItemValues(items)| ==> GetString(ItemNodes(c, items, pos)[k], "email") == EmailOf(c, ItemValues(items)[k])
  {
    hide TreeOf, GetString, EmailOf, BlankText, RestPos;
    if !items.End? {
      var nodes, values := ItemNodes(c, items, pos), ItemValues(items);
      FirstNode(c, items, pos);
      EmailOfNode(c, items.value, pos + |BlankText(FirstBlank(items))|);
      if items.More? {
        NodesOfItems(c, items.rest, RestPos(items, pos));
        var nodes', values' := ItemNodes(c, items.rest, RestPos(items, pos)), ItemValues(items.rest);
        assert nodes == [nodes[0]] + nodes' && values == [values[0]] + values';
        hide ItemNodes, ItemValues;
        forall k | 1 <= k < |values|
          ensures GetString(nodes[k], "email") == EmailOf(c, values[k])
        {
          assert nodes[k] == nodes'[k - 1] && values[k] == values'[k - 1];
        }
      }
    }
  }

  lemma EmailOfNode(c: Codec, v: Value, pos: nat)
    ensures GetString(TreeOf(c, v, pos), "email") == EmailOf(c, v)
  {
    hide TreeOf, FindProp;
    GetOfTree(c, v, "email", pos);
  }

  lemma EmailsOfNodes(c: Codec, items: Items, pos: nat)
    requires UniqueClients(c, ItemValues(items))
    ensures UniqueEmails(ItemNodes(c, items, pos))
    ensures ByEmail(ItemNodes(c, items, pos)).Keys == Present(c, ItemValues(items))
  {
    hide GetString, EmailOf, ByEmail, ItemNodes, ItemValues;
    var nodes, values := ItemNodes(c, items, pos), ItemValues(items);
    NodesOfItems(c, items, pos);
    ByEmailIndex(nodes);
    forall e | e in ByEmail(nodes)
      ensures e in Present(c, values)
    {
      assert EmailOf(c, values[ByEmail(nodes)[e]]) == Some(e);
    }
  }

  lemma {:induction false} DropTwice(ops: seq<ClientOp>, present: set<string>)
    ensures DropEmails(DropEmails(ops, present), present) == DropEmails(ops, present)
  {
    if ops != [] {
      DropTwice(ops[1..], present);
      if ops[0].email !in present {
        assert DropEmails(ops, present)[1..] == DropEmails(ops[1..], present);
      } else {
        assert DropEmails(ops, present) == DropEmails(ops[1..], present);
      }
    }
  }

  lemma {:induction false} DropConcat(a: seq<ClientOp>, b: seq<ClientOp>, present: set<string>)
    ensures DropEmails(a + b, present) == DropEmails(a, present) + DropEmails(b, present)
    decreases |a|
  {
    if a == [] {
      assert a + b == b;
    } else {
      assert (a + b)[1..] == a[1..] + b;
      DropConcat(a[1..], b, present);
    }
  }

  lemma {:induction false} DropUnmatched(byEmail: map<string, nat>, sets: seq<ClientOp>)
    ensures UnmatchedSets(byEmail, sets) == DropEmails(sets, byEmail.Keys)
  {
    if sets != [] {
      var n := |sets| - 1;
      DropUnmatched(byEmail, sets[..n]);
      DropConcat(sets[..n], [sets[n]], byEmail.Keys);
      assert sets == sets[..n] + [sets[n]];
      assert DropEmails([sets[n]], byEmail.Keys) == if sets[n].email in byEmail then [] else [sets[n]] by {
        assert [sets[n]][1..] == [];
      }
    }
  }

  /** The source appends the adds and the unmatched sets, and drops the carried emails twice over. */
  lemma RemainingIs(c: Codec, items: Items, pos: nat, adds: seq<ClientOp>, sets: seq<ClientOp>)
    requires UniqueClients(c, ItemValues(items))
    ensures var byEmail := ByEmail(ItemNodes(c, items, pos));
            && DropEmails(adds + UnmatchedSets(byEmail, sets), byEmail.Keys) == Remaining(c, ItemValues(items), adds, sets)
            && DropEmails(Remaining(c, ItemValues(items), adds, sets), byEmail.Keys) == Remaining(c, ItemValues(items), adds, sets)
  {
    hide ByEmail, ItemNodes, ItemValues, Present;
    var byEmail := ByEmail(ItemNodes(c, items, pos));
    EmailsOfNodes(c, items, pos);
    DropUnmatched(byEmail, sets);
    DropConcat(adds, UnmatchedSets(byEmail, sets), byEmail.Keys);
    DropConcat(adds, sets, byEmail.Keys);
    DropTwice(sets, byEmail.Keys);
    DropTwice(adds + sets, byEmail.Keys);
  }

  // ----- Offsets

  lemma EntryEditsAscend(c: Codec, v: Value, ids: map<string, string>, pos: nat)
    ensures Ascends(EntryEdits(c, v, ids, pos), pos, pos + |ValueText(v)|)
  {
    hide IdEdits, FindProp, ValueText;
    if EmailOf(c, v).Some? && EmailOf(c, v).value in ids {
      IdEditText(c, v, ids[EmailOf(c, v).value], pos);
      OneIdEdit(c, v, ids[EmailOf(c, v).value], pos);
      WithinBounds(IdEdits(c, v, ids[EmailOf(c, v).value], pos), pos + 1, pos + |ValueText(v)| - 1);
    }
  }

  lemma OneIdEdit(c: Codec, v: Value, id: string, pos: nat)
    requires v.Object?
    ensures |IdEdits(c, v, id, pos)| <= 1
  {}

  lemma RemovedHasText(c: Codec, v: Value, removes: set<string>)
    requires Removed(c, v, removes)
    ensures |ValueText(v)| > 0
  {}

  /** Each entry's edits lie at or behind its start, and before the next entry. */
  lemma {:induction false} ItemEditsAscend(c: Codec, items: Items, pos: nat, removes: set<string>, ids: map<string,
                                           string>)
    requires !items.End? && !Trailing(items)
    ensures var start := pos + |BlankText(FirstBlank(items))|;
            && start <= LastEnd(items, pos) <= pos + |ItemsText(items)|
            && Ascends(ItemEdits(c, items, pos, removes, ids), start, LastEnd(items, pos))
  {
    hide BlankText, ValueText, Ascends, EntryEdits, Removed;
    var start := pos + |BlankText(FirstBlank(items))|;
    EntryEditsAscend(c, items.value, ids, start);
    if Removed(c, items.value, removes) {
      RemovedHasText(c, items.value, removes);
    }
    match items
    case Last(b, v, a) =>
      OneEdit(start, start + |ValueText(v)|, LastEnd(items, pos));
    case More(b, v, a, rest) =>
      var next := RestPos(items, pos);
      ItemEditsAscend(c, rest, next, removes, ids);
      if Removed(c, v, removes) || !LastRemoved(c, rest, removes) {
        var edits, nextStart := ItemEdits(c, rest, next, removes, ids), next + |BlankText(FirstBlank(rest))|;
        var own := if Removed(c, v, removes) then [TextEdit(start, nextStart, "")] else EntryEdits(c, v, ids, start);
        AscendsWiden(edits, nextStart, LastEnd(rest, next), next, LastEnd(rest, next));
        OneEdit(start, nextStart, next);
        if !Removed(c, v, removes) {
          AscendsWiden(own, start, start + |ValueText(v)|, start, next);
        }
        AscendsConcat(own, edits, start, next, LastEnd(items, pos));
      } else {
        RemovedHasText(c, rest.value, removes);
        LastRemovalAscends(c, v, rest, start, next, ids);
      }
  }

  lemma OneEdit(at: nat, end: nat, high: nat)
    ensures at < high ==> Ascends([TextEdit(at, end, "")], at, high)
  {}

  lemma LastRemovalAscends(c: Codec, v: Value, rest: Items, start: nat, next: nat, ids: map<string, string>)
    requires rest.Last? && |ValueText(rest.value)| > 0 && start + |ValueText(v)| < next
    ensures var last := next + |BlankText(rest.before)| + |ValueText(rest.value)|;
            Ascends(EntryEdits(c, v, ids, start) + [TextEdit(next - 1, last, "")], start, last)
  {
    hide BlankText, ValueText, Ascends, EntryEdits;
    var last := next + |BlankText(rest.before)| + |ValueText(rest.value)|;
    EntryEditsAscend(c, v, ids, start);
    OneEdit(next - 1, last, last);
    AscendsWiden(EntryEdits(c, v, ids, start), start, start + |ValueText(v)|, start, next - 1);
    AscendsConcat(EntryEdits(c, v, ids, start), [TextEdit(next - 1, last, "")], start, next - 1, last);
  }

  lemma {:induction false} LastNodeEnd(c: Codec, items: Items, pos: nat)
    requires !items.End? && !Trailing(items)
    ensures var nodes := ItemNodes(c, items, pos); nodes != [] && nodes[|nodes| - 1].end == LastEnd(items, pos)
  {
    hide TreeOf;
    TreeShape(c, items.value, pos + |BlankText(items.before)|);
    if items.More? {
      LastNodeEnd(c, items.rest, RestPos(items, pos));
    }
  }
}
