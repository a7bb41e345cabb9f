/** The planner collects an array's edits by removal, rotation and append; sorted, they are those of the list. */
module RenderOrder {
  import opened JsoncParser
  import opened JsoncSyntax
  import opened JsoncTrees
  import opened Options
  import opened RenderEntries
  import opened RenderLists
  import opened RenderPlanner
  import opened RenderSyntax
  import opened Sequences
  import opened TextEdits

  // ----- Edits in the order of the entries

  /** The edit of one parsed entry. */
  function EditsAt(c: Codec, clients: Node, index: nat, removes: set<string>, ids: map<string, string>): seq<TextEdit>
    requires index < |clients.items|
  {
    match GetString(clients.items[index], "email")
    case None => []
    case Some(email) =>
      if email in removes then [PlanEntryRemoval(clients, index)]
      else if email in ids then OptionSeq(PlanIdSet(c, clients.items[index], ids[email]))
      else []
  }

  function EditsFrom(c: Codec, clients: Node, index: nat, removes: set<string>, ids: map<string, string>): seq<TextEdit>
    requires index <= |clients.items|
    decreases |clients.items| - index
  {
    if index == |clients.items| then []
    else EditsAt(c, clients, index, removes, ids) + EditsFrom(c, clients, index + 1, removes, ids)
  }

  /** The parsed array's entries and commas from an index on are those of a part of the list. */
  predicate Suffix(c: Codec, clients: Node, index: nat, items: Items, pos: nat) {
    && index <= |clients.items| && index <= |clients.commas|
    && clients.items[index..] == ItemNodes(c, items, pos)
    && clients.commas[index..] == Commas(items, pos)
  }

  lemma SuffixStep(c: Codec, clients: Node, index: nat, items: Items, pos: nat)
    requires Suffix(c, clients, index, items, pos) && items.More?
    ensures Suffix(c, clients, index + 1, items.rest, RestPos(items, pos))
    ensures clients.items[index] == TreeOf(c, items.value, pos + |BlankText(items.before)|)
    ensures clients.commas[index] == CommaPos(items, pos)
  {
    hide TreeOf;
    assert clients.items[index..][1..] == clients.items[index + 1..];
    assert clients.commas[index..][1..] == clients.commas[index + 1..];
    assert clients.items[index..][0] == clients.items[index];
    assert clients.commas[index..][0] == clients.commas[index];
  }

  lemma {:induction false} NodeCount(c: Codec, items: Items, pos: nat)
    requires !Trailing(items) && !items.End?
    ensures |ItemNodes(c, items, pos)| == |Commas(items, pos)| + 1
  {
    hide TreeOf;
    if items.More? {
      NodeCount(c, items.rest, RestPos(items, pos));
    }
  }

  lemma FirstNode(c: Codec, items: Items, pos: nat)
    requires !items.End?
    ensures ItemNodes(c, items, pos) != []
    ensures ItemNodes(c, items, pos)[0] == TreeOf(c, items.value, pos + |BlankText(FirstBlank(items))|)
  {
    hide TreeOf;
  }

  /** An entry that stays: its id edit, if it has one. */
  lemma KeptEditsAt(c: Codec, clients: Node, index: nat, removes: set<string>, ids: map<string, string>, v: Value,
                    start: nat)
    requires index < |clients.items| && clients.items[index] == TreeOf(c, v, start)
    requires !Removed(c, v, removes)
    ensures EditsAt(c, clients, index, removes, ids) == EntryEdits(c, v, ids, start)
  {
    hide TreeOf, PlanIdSet, IdEdits, FindProp;
    GetOfTree(c, v, "email", start);
    if EmailOf(c, v).Some? {
      PlannedIdEdits(c, v, if EmailOf(c, v).value in ids then ids[EmailOf(c, v).value] else "", start);
    }
  }

  lemma RemovedEditsAt(c: Codec, clients: Node, index: nat, removes: set<string>, ids: map<string, string>, v: Value,
                       start: nat)
    requires index < |clients.items| && clients.items[index] == TreeOf(c, v, start)
    requires Removed(c, v, removes)
    ensures EditsAt(c, clients, index, removes, ids) == [PlanEntryRemoval(clients, index)]
  {
    hide TreeOf, PlanIdSet, FindProp, PlanEntryRemoval;
    GetOfTree(c, v, "email", start);
  }

  lemma SuffixLengths(c: Codec, clients: Node, index: nat, items: Items, pos: nat)
    requires Suffix(c, clients, index, items, pos) && !items.End? && !Trailing(items)
    ensures index < |clients.items| == |clients.commas| + 1
    ensures clients.items[index] == TreeOf(c, items.value, pos + |BlankText(FirstBlank(items))|)
  {
    hide TreeOf, ItemNodes, Commas;
    NodeCount(c, items, pos);
    FirstNode(c, items, pos);
    assert |clients.items[index..]| == |clients.items| - index && |clients.commas[index..]| == |clients.commas| - index;
    assert clients.items[index] == clients.items[index..][0];
  }

  lemma LastIsAlone(c: Codec, items: Items, pos: nat)
    requires !items.End? && !Trailing(items)
    ensures |ItemNodes(c, items, pos)| == 1 <==> items.Last?
  {
    hide TreeOf;
    if items.More? {
      FirstNode(c, items.rest, RestPos(items, pos));
    }
  }

  lemma SuffixFirst(c: Codec, clients: Node, index: nat, items: Items, pos: nat)
    requires Suffix(c, clients, index, items, pos) && !items.End? && !Trailing(items)
    ensures index < |clients.items| == |clients.commas| + 1
    ensures items.Last? <==> index == |clients.items| - 1
    ensures var n := clients.items[index];
            && n == TreeOf(c, items.value, pos + |BlankText(FirstBlank(items))|)
            && n.start == pos + |BlankText(FirstBlank(items))| && n.end == n.start + |ValueText(items.value)|
  {
    hide TreeOf, ItemNodes, Commas, Trailing;
    SuffixLengths(c, clients, index, items, pos);
    LastIsAlone(c, items, pos);
    assert |clients.items[index..]| == |clients.items| - index;
    TreeShape(c, items.value, pos + |BlankText(FirstBlank(items))|);
  }

  lemma {:induction false} EditsFromItems(c: Codec, clients: Node, index: nat, items: Items, pos: nat,
                                          removes: set<string>, ids: map<string, string>)
    requires Suffix(c, clients, index, items, pos)
    requires !items.End? && !Trailing(items) && NoLastPair(c, items, removes)
    requires index == 0 || !LastRemoved(c, items, removes)
    ensures EditsFrom(c, clients, index, removes, ids) == ItemEdits(c, items, pos, removes, ids)
    decreases items
  {
    hide TreeOf, EditsAt, EntryEdits, Removed, Suffix, BlankText, ValueText;
    var start := pos + |BlankText(FirstBlank(items))|;
    SuffixFirst(c, clients, index, items, pos);
    if Removed(c, items.value, removes) {
      RemovedEditsAt(c, clients, index, removes, ids, items.value, start);
    } else {
      KeptEditsAt(c, clients, index, removes, ids, items.value, start);
    }
    if items.Last? {
      EditsFromEnd(c, clients, index, removes, ids);
    } else {
      var rest, next := items.rest, RestPos(items, pos);
      SuffixStep(c, clients, index, items, pos);
      SuffixFirst(c, clients, index + 1, rest, next);
      if LastRemoved(c, rest, removes) {
        RemovedEditsAt(c, clients, index + 1, removes, ids, rest.value, next + |BlankText(rest.before)|);
        EditsFromEnd(c, clients, index + 1, removes, ids);
      } else {
        EditsFromItems(c, clients, index + 1, rest, next, removes, ids);
      }
    }
  }

  lemma EditsFromEnd(c: Codec, clients: Node, index: nat, removes: set<string>, ids: map<string, string>)
    requires index == |clients.items| - 1
    ensures EditsFrom(c, clients, index, removes, ids) == EditsAt(c, clients, index, removes, ids)
  {
    hide EditsAt;
    assert EditsFrom(c, clients, index + 1, removes, ids) == [];
  }

  // ----- Edits gathered in any order

  function Gather(c: Codec, clients: Node, indices: seq<nat>, removes: set<string>, ids: map<string,
                  string>): seq<TextEdit>
    requires forall i :: 0 <= i < |indices| ==> indices[i] < |clients.items|
  {
    if indices == [] then []
    else Gather(c, clients, indices[..|indices| - 1], removes, ids) + EditsAt(c, clients, indices[|indices| - 1], removes, ids)
  }

  predicate AllBelow(indices: seq<nat>, n: nat) { forall i :: 0 <= i < |indices| ==> indices[i] < n }

  lemma {:induction false} GatherConcat(c: Codec, clients: Node, a: seq<nat>, b: seq<nat>, removes: set<string>,
                                        ids: map<string, string>)
    requires AllBelow(a, |clients.items|) && AllBelow(b, |clients.items|)
    ensures Gather(c, clients, a + b, removes, ids) == Gather(c, clients, a, removes, ids) + Gather(c, clients, b, removes, ids)
    decreases |b|
  {
    hide EditsAt;
    if b == [] {
      assert a + b == a;
    } else {
      assert (a + b)[..|a + b| - 1] == a + b[..|b| - 1];
      GatherConcat(c, clients, a, b[..|b| - 1], removes, ids);
    }
  }

  lemma GatherOne(c: Codec, clients: Node, index: nat, removes: set<string>, ids: map<string, string>)
    requires index < |clients.items|
    ensures Gather(c, clients, [index], removes, ids) == EditsAt(c, clients, index, removes, ids)
  {
    hide EditsAt;
    assert [index][..0] == [];
  }

  function EditsUpTo(c: Codec, clients: Node, n: nat, removes: set<string>, ids: map<string, string>): seq<TextEdit>
    requires n <= |clients.items|
  {
    if n == 0 then [] else EditsUpTo(c, clients, n - 1, removes, ids) + EditsAt(c, clients, n - 1, removes, ids)
  }

  lemma {:induction false} UpToAndFrom(c: Codec, clients: Node, n: nat, removes: set<string>, ids: map<string, string>)
    requires n <= |clients.items|
    ensures EditsUpTo(c, clients, n, removes, ids) + EditsFrom(c, clients, n, removes, ids) == EditsFrom(c, clients, 0, removes, ids)
  {
    hide EditsAt;
    if n > 0 {
      UpToAndFrom(c, clients, n - 1, removes, ids);
    }
  }

  /** Each entry met once, in whatever order, gives the same edits. */
  lemma {:induction false} GatherAll(c: Codec, clients: Node, n: nat, indices: seq<nat>, removes: set<string>,
                                     ids: map<string, string>)
    requires n <= |clients.items| && AllBelow(indices, n) && NoRepeats(indices)
    requires forall k :: 0 <= k < n && k !in indices ==> EditsAt(c, clients, k, removes, ids) == []
    ensures multiset(Gather(c, clients, indices, removes, ids)) == multiset(EditsUpTo(c, clients, n, removes, ids))
    decreases n
  {
    hide EditsAt, Gather, EditsUpTo;
    if n > 0 {
      UpToNext(c, clients, n, removes, ids);
    }
    if indices != [] {
      SomeBelow(indices, n);
    }
    if n == 0 {
      NoGather(c, clients, removes, ids);
    } else if n - 1 in indices {
      var j :| 0 <= j < |indices| && indices[j] == n - 1;
      GatherWithout(c, clients, indices, j, removes, ids);
      OthersBelow(indices, j, n);
      GatherAll(c, clients, n - 1, indices[..j] + indices[j + 1..], removes, ids);
    } else {
      assert EditsAt(c, clients, n - 1, removes, ids) == [];
      GatherAll(c, clients, n - 1, indices, removes, ids);
    }
  }

  lemma SomeBelow(indices: seq<nat>, n: nat)
    requires AllBelow(indices, n) && indices != []
    ensures n > 0
  {
    assert indices[0] < n;
  }

  lemma UpToNext(c: Codec, clients: Node, n: nat, removes: set<string>, ids: map<string, string>)
    requires 0 < n <= |clients.items|
    ensures multiset(EditsUpTo(c, clients, n, removes, ids)) ==
            multiset(EditsUpTo(c, clients, n - 1, removes, ids)) + multiset(EditsAt(c, clients, n - 1, removes, ids))
  {
    hide EditsAt;
  }

  lemma GatherWithout(c: Codec, clients: Node, indices: seq<nat>, j: nat, removes: set<string>, ids: map<string,
                      string>)
    requires AllBelow(indices, |clients.items|) && j < |indices|
    ensures AllBelow(indices[..j] + indices[j + 1..], |clients.items|)
    ensures multiset(Gather(c, clients, indices, removes, ids)) ==
            multiset(Gather(c, clients, indices[..j] + indices[j + 1..], removes, ids)) + multiset(EditsAt(c, clients, indices[j], removes, ids))
  {
    hide EditsAt, Gather;
    var before, after, index := indices[..j], indices[j + 1..], indices[j];
    assert indices == before + [index] + after;
    GatherConcat(c, clients, before + [index], after, removes, ids);
    GatherConcat(c, clients, before, [index], removes, ids);
    GatherConcat(c, clients, before, after, removes, ids);
    GatherOne(c, clients, index, removes, ids);
    MiddleLast(Gather(c, clients, before, removes, ids), EditsAt(c, clients, index, removes, ids),
               Gather(c, clients, after, removes, ids));
  }

  lemma NoGather(c: Codec, clients: Node, removes: set<string>, ids: map<string, string>)
    ensures Gather(c, clients, [], removes, ids) == []
    ensures EditsUpTo(c, clients, 0, removes, ids) == []
  {}

  lemma MiddleLast(a: seq<TextEdit>, m: seq<TextEdit>, b: seq<TextEdit>)
    ensures multiset(a + m + b) == multiset(a + b) + multiset(m)
  {}

  lemma OthersBelow(indices: seq<nat>, j: nat, n: nat)
    requires NoRepeats(indices) && AllBelow(indices, n) && j < |indices| && indices[j] == n - 1
    ensures var others := indices[..j] + indices[j + 1..];
            NoRepeats(others) && AllBelow(others, n - 1) && forall k :: k in indices && k != n - 1 ==> k in others
  {
    var others := indices[..j] + indices[j + 1..];
    forall i | 0 <= i < |others|
      ensures others[i] == indices[if i < j then i else i + 1]
    {}
    forall k | k in indices && k != n - 1
      ensures k in others
    {
      var i :| 0 <= i < |indices| && indices[i] == k;
      assert others[if i < j then i else i - 1] == k;
    }
  }

  // ----- The planner's order

  predicate UniqueEmails(items: seq<Node>) {
    forall i, j :: 0 <= i < j < |items| && GetString(items[i], "email").Some? ==>
                     GetString(items[i], "email") != GetString(items[j], "email")
  }

  lemma {:induction false} ByEmailIndex(items: seq<Node>)
    requires UniqueEmails(items)
    ensures forall e :: e in ByEmail(items) ==> ByEmail(items)[e] < |items| && GetString(items[ByEmail(items)[e]], "email") == Some(e)
    ensures forall k :: 0 <= k < |items| && GetString(items[k], "email").Some? ==>
                          GetString(items[k], "email").value in ByEmail(items) && ByEmail(items)[GetString(items[k], "email").value] == k
  {
    hide GetString;
    if items != [] {
      ByEmailIndex(items[..|items| - 1]);
    }
  }

  /** The entries that carry some emails. */
  function Matches(byEmail: map<string, nat>, emails: seq<string>): seq<nat> {
    if emails == [] then []
    else
      var email, before := emails[|emails| - 1], Matches(byEmail, emails[..|emails| - 1]);
      if email in byEmail then before + [byEmail[email]] else before
  }

  lemma {:induction false} MatchesOf(items: seq<Node>, emails: seq<string>)
    requires UniqueEmails(items) && NoRepeats(emails)
    ensures var found := Matches(ByEmail(items), emails);
            && AllBelow(found, |items|) && NoRepeats(found)
            && (forall k :: k in found <==> 0 <= k < |items| && GetString(items[k], "email").Some? && GetString(items[k], "email").value in emails)
  {
    hide GetString, ByEmail;
    ByEmailIndex(items);
    if emails != [] {
      var init, email := emails[..|emails| - 1], emails[|emails| - 1];
      assert emails == init + [email];
      MatchesOf(items, init);
    }
  }

  function EmailsOf(sets: seq<ClientOp>): (emails: seq<string>)
    ensures |emails| == |sets|
  {
    seq(|sets|, i requires 0 <= i < |sets| => sets[i].email)
  }

  function IdsOf(sets: seq<ClientOp>): map<string, string> {
    if sets == [] then map[] else IdsOf(sets[..|sets| - 1])[sets[|sets| - 1].email := sets[|sets| - 1].id]
  }

  lemma {:induction false} IdsOfSets(sets: seq<ClientOp>)
    requires NoRepeats(EmailsOf(sets))
    ensures forall e :: e in IdsOf(sets) <==> e in EmailsOf(sets)
    ensures forall i :: 0 <= i < |sets| ==> sets[i].email in IdsOf(sets) && IdsOf(sets)[sets[i].email] == sets[i].id
  {
    if sets != [] {
      var init, last := sets[..|sets| - 1], sets[|sets| - 1];
      assert EmailsOf(init) == EmailsOf(sets)[..|sets| - 1];
      assert EmailsOf(sets) == EmailsOf(init) + [last.email];
      IdsOfSets(init);
      forall i | 0 <= i < |sets|
        ensures sets[i].email in IdsOf(sets) && IdsOf(sets)[sets[i].email] == sets[i].id
      {
        assert EmailsOf(sets)[i] == sets[i].email;
        if i < |sets| - 1 {
          assert EmailsOf(sets)[i] != EmailsOf(sets)[|sets| - 1];
        }
      }
    }
  }

  lemma {:induction false} RemovalsGathered(c: Codec, clients: Node, removes: seq<string>, all: set<string>,
                                            ids: map<string, string>)
    requires UniqueEmails(clients.items) && forall e :: e in removes ==> e in all
    ensures AllBelow(Matches(ByEmail(clients.items), removes), |clients.items|)
    ensures RemovalEdits(clients, ByEmail(clients.items), removes) ==
            Gather(c, clients, Matches(ByEmail(clients.items), removes), all, ids)
  {
    hide GetString, ByEmail, PlanEntryRemoval, PlanIdSet;
    ByEmailIndex(clients.items);
    if removes != [] {
      RemovalsGathered(c, clients, removes[..|removes| - 1], all, ids);
    }
  }

  lemma {:induction false} SetsGathered(c: Codec, clients: Node, sets: seq<ClientOp>, removes: set<string>,
                                        ids: map<string, string>)
    requires UniqueEmails(clients.items)
    requires forall i :: 0 <= i < |sets| ==> sets[i].email !in removes && sets[i].email in ids && ids[sets[i].email] == sets[i].id
    ensures AllBelow(Matches(ByEmail(clients.items), EmailsOf(sets)), |clients.items|)
    ensures SetEdits(c, clients, ByEmail(clients.items), sets) ==
            Gather(c, clients, Matches(ByEmail(clients.items), EmailsOf(sets)), removes, ids)
  {
    hide GetString, ByEmail, PlanEntryRemoval, PlanIdSet;
    ByEmailIndex(clients.items);
    if sets != [] {
      var n := |sets| - 1;
      assert EmailsOf(sets[..n]) == EmailsOf(sets)[..n];
      SetsGathered(c, clients, sets[..n], removes, ids);
    }
  }

  /** One email, one request: no email twice, and none in two of the three. */
  predicate Disjoint(adds: seq<ClientOp>, removes: seq<string>, sets: seq<ClientOp>) {
    && NoRepeats(EmailsOf(adds)) && NoRepeats(removes) && NoRepeats(EmailsOf(sets))
    && (forall e :: e in removes ==> e !in EmailsOf(adds) && e !in EmailsOf(sets))
    && (forall e :: e in EmailsOf(sets) ==> e !in EmailsOf(adds))
  }

  function SetOf(emails: seq<string>): set<string> { set e | e in emails }

  /** The planner's removals and rotations are the entries' edits, in some order. */
  lemma PlannedIsPermutation(c: Codec, clients: Node, removes: seq<string>, sets: seq<ClientOp>)
    requires UniqueEmails(clients.items)
    requires NoRepeats(removes) && NoRepeats(EmailsOf(sets)) && forall e :: e in removes ==> e !in EmailsOf(sets)
    ensures var byEmail := ByEmail(clients.items);
            multiset(RemovalEdits(clients, byEmail, removes) + SetEdits(c, clients, byEmail, sets)) ==
            multiset(EditsFrom(c, clients, 0, SetOf(removes), IdsOf(sets)))
  {
    hide GetString, ByEmail, RemovalEdits, SetEdits, Gather, EditsUpTo, EditsFrom, Matches, IdsOf;
    var n, all, ids := |clients.items|, SetOf(removes), IdsOf(sets);
    var byEmail := ByEmail(clients.items);
    var emails := EmailsOf(sets);
    IdsOfSets(sets);
    forall i | 0 <= i < |sets|
      ensures sets[i].email in emails
    {
      assert emails[i] == sets[i].email;
    }
    RemovalsGathered(c, clients, removes, all, ids);
    SetsGathered(c, clients, sets, all, ids);
    MatchesOf(clients.items, removes);
    MatchesOf(clients.items, emails);
    var first, second := Matches(byEmail, removes), Matches(byEmail, emails);
    GatherConcat(c, clients, first, second, all, ids);
    forall k | 0 <= k < n && k !in first + second
      ensures EditsAt(c, clients, k, all, ids) == []
    {
      assert k !in first && k !in second;
    }
    forall i, j | 0 <= i < |first| && 0 <= j < |second|
      ensures first[i] != second[j]
    {
      assert first[i] in first && second[j] in second;
    }
    GatherAll(c, clients, n, first + second, all, ids);
    UpToAndFrom(c, clients, n, all, ids);
    assert EditsFrom(c, clients, n, all, ids) == [] by { NothingFrom(c, clients, all, ids); }
    assert EditsUpTo(c, clients, n, all, ids) + [] == EditsUpTo(c, clients, n, all, ids);
  }

  lemma NothingFrom(c: Codec, clients: Node, removes: set<string>, ids: map<string, string>)
    ensures EditsFrom(c, clients, |clients.items|, removes, ids) == []
  {}
}
