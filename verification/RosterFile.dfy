/** From the queue to the file: the render plan of a pass, and what it makes of each user's entries. */
module RosterFile {
  import opened Options
  import opened RosterMachine
  import opened RosterPlan
  import opened RosterSafety
  import opened Sequences
  import A = RenderArrays
  import E = RenderEntries
  import I = RenderInbounds
  import L = RenderLists
  import M = RenderMeaning
  import O = RenderOrder
  import P = RenderPlanner
  import R = RenderResult
  import S = JsoncSyntax

  // ----- The plan of a pass

  /** One change's requests of a kind for an inbound. */
  function Requests(email: string, id: string, ops: seq<Op>, kind: Kind, tag: string): seq<P.ClientOp> {
    if ops == [] then []
    else
      var last := ops[|ops| - 1];
      Requests(email, id, ops[..|ops| - 1], kind, tag) + if last.kind == kind && last.tag == tag then [P.ClientOp(email, id, last.flow)] else []
  }

  /** All changes' requests, in the order the users are met. */
  function Collected(emails: seq<string>, snap: map<string, Change>, kind: Kind, tag: string): seq<P.ClientOp>
    requires forall e :: e in emails ==> e in snap
  {
    if emails == [] then []
    else
      var last := emails[|emails| - 1];
      Collected(emails[..|emails| - 1], snap, kind, tag) + Requests(last, snap[last].id, snap[last].ops, kind, tag)
  }

  ghost predicate PlanOf(plan: P.RenderPlan, emails: seq<string>, snap: map<string, Change>)
    requires forall e :: e in emails ==> e in snap
  {
    forall t: string ::
      && plan.Adds(t) == Collected(emails, snap, Attach, t)
      && plan.Removes(t) == O.EmailsOf(Collected(emails, snap, Detach, t))
      && plan.Sets(t) == Collected(emails, snap, Rotate, t)
  }

  method PlanOp(plan: P.RenderPlan, email: string, id: string, op: Op) returns (more: P.RenderPlan)
    ensures forall t: string :: more.Adds(t) == plan.Adds(t) + if op.kind == Attach && op.tag == t then [P.ClientOp(email, id, op.flow)] else []
    ensures forall t: string :: more.Removes(t) == plan.Removes(t) + if op.kind == Detach && op.tag == t then [email] else []
    ensures forall t: string :: more.Sets(t) == plan.Sets(t) + if op.kind == Rotate && op.tag == t then [P.ClientOp(email, id, op.flow)] else []
  {
    match op.kind
    case Attach => more := plan.(adds := plan.adds[op.tag := plan.Adds(op.tag) + [P.ClientOp(email, id, op.flow)]]);
    case Detach => more := plan.(removes := plan.removes[op.tag := plan.Removes(op.tag) + [email]]);
    case Rotate => more := plan.(sets := plan.sets[op.tag := plan.Sets(op.tag) + [P.ClientOp(email, id, op.flow)]]);
  }

  ghost predicate Partly(plan: P.RenderPlan, emails: seq<string>, snap: map<string, Change>, email: string,
                         id: string, ops: seq<Op>)
    requires forall e :: e in emails ==> e in snap
  {
    forall t: string ::
      && plan.Adds(t) == Collected(emails, snap, Attach, t) + Requests(email, id, ops, Attach, t)
      && plan.Removes(t) == O.EmailsOf(Collected(emails, snap, Detach, t) + Requests(email, id, ops, Detach, t))
      && plan.Sets(t) == Collected(emails, snap, Rotate, t) + Requests(email, id, ops, Rotate, t)
  }

  /** The first locked part of an apply: every pending change, in whatever order the map is walked. */
  method BuildPlan(snap: map<string, Change>) returns (plan: P.RenderPlan)
    ensures exists emails :: NoRepeats(emails) && (forall e :: e in emails <==> e in snap) && PlanOf(plan, emails, snap)
  {
    hide Collected, Requests, Partly, P.RenderPlan.Adds, P.RenderPlan.Removes, P.RenderPlan.Sets;
    plan := P.RenderPlan(map[], map[], map[]);
    ghost var emails: seq<string> := [];
    NothingPlannedYet(snap);
    var left := snap.Keys;
    while left != {}
      invariant left <= snap.Keys && NoRepeats(emails) && forall e :: e in emails <==> e in snap && e !in left
      invariant PlanOf(plan, emails, snap)
      decreases |left|
    {
      var email :| email in left;
      var change := snap[email];
      PartlyNothing(plan, emails, snap, email, change.id);
      for i := 0 to |change.ops|
        invariant Partly(plan, emails, snap, email, change.id, change.ops[..i])
      {
        var more := PlanOp(plan, email, change.id, change.ops[i]);
        PartlyMore(plan, more, emails, snap, email, change.id, change.ops, i);
        plan := more;
      }
      assert change.ops[..|change.ops|] == change.ops;
      PartlyAll(plan, emails, snap, email);
      NoRepeatsSnoc(emails, email);
      emails := emails + [email];
      left := left - {email};
    }
  }

  lemma NothingPlannedYet(snap: map<string, Change>)
    ensures PlanOf(P.RenderPlan(map[], map[], map[]), [], snap)
  {}

  lemma PartlyNothing(plan: P.RenderPlan, emails: seq<string>, snap: map<string, Change>, email: string, id: string)
    requires (forall e :: e in emails ==> e in snap) && PlanOf(plan, emails, snap)
    ensures Partly(plan, emails, snap, email, id, [])
  {
    hide Collected, P.RenderPlan.Adds, P.RenderPlan.Removes, P.RenderPlan.Sets;
    forall kind, t
      ensures Collected(emails, snap, kind, t) + Requests(email, id, [], kind, t) == Collected(emails, snap, kind, t)
    {}
  }

  lemma EmailsConcat(a: seq<P.ClientOp>, b: seq<P.ClientOp>)
    ensures O.EmailsOf(a + b) == O.EmailsOf(a) + O.EmailsOf(b)
  {}

  lemma PartlyMore(plan: P.RenderPlan, more: P.RenderPlan, emails: seq<string>, snap: map<string, Change>,
                   email: string, id: string, ops: seq<Op>, i: nat)
    requires (forall e :: e in emails ==> e in snap) && i < |ops| && Partly(plan, emails, snap, email, id, ops[..i])
    requires var op := ops[i];
             && (forall t: string :: more.Adds(t) == plan.Adds(t) + if op.kind == Attach && op.tag == t then [P.ClientOp(email, id, op.flow)] else [])
             && (forall t: string :: more.Removes(t) == plan.Removes(t) + if op.kind == Detach && op.tag == t then [email] else [])
             && (forall t: string :: more.Sets(t) == plan.Sets(t) + if op.kind == Rotate && op.tag == t then [P.ClientOp(email, id, op.flow)] else [])
    ensures Partly(more, emails, snap, email, id, ops[..i + 1])
  {
    hide Collected, P.RenderPlan.Adds, P.RenderPlan.Removes, P.RenderPlan.Sets, O.EmailsOf;
    assert ops[..i + 1][..i] == ops[..i];
    forall t: string
      ensures more.Adds(t) == Collected(emails, snap, Attach, t) + Requests(email, id, ops[..i + 1], Attach, t)
      ensures more.Removes(t) == O.EmailsOf(Collected(emails, snap, Detach, t) + Requests(email, id, ops[..i + 1], Detach, t))
      ensures more.Sets(t) == Collected(emails, snap, Rotate, t) + Requests(email, id, ops[..i + 1], Rotate, t)
    {
      var one := if ops[i].kind == Detach && ops[i].tag == t then [P.ClientOp(email, id, ops[i].flow)] else [];
      EmailsConcat(Collected(emails, snap, Detach, t) + Requests(email, id, ops[..i], Detach, t), one);
      OneEmail(one, email);
      var collected, asked := Collected(emails, snap, Detach, t), Requests(email, id, ops[..i], Detach, t);
      assert collected + (asked + one) == collected + asked + one;
      assert Requests(email, id, ops[..i + 1], Detach, t) == asked + one;
    }
  }

  lemma OneEmail(one: seq<P.ClientOp>, email: string)
    requires one == [] || (|one| == 1 && one[0].email == email)
    ensures O.EmailsOf(one) == if one == [] then [] else [email]
  {}

  lemma PartlyAll(plan: P.RenderPlan, emails: seq<string>, snap: map<string, Change>, email: string)
    requires (forall e :: e in emails ==> e in snap) && email in snap
    requires Partly(plan, emails, snap, email, snap[email].id, snap[email].ops)
    ensures PlanOf(plan, emails + [email], snap)
  {
    hide Requests, P.RenderPlan.Adds, P.RenderPlan.Removes, P.RenderPlan.Sets;
    assert (emails + [email])[..|emails|] == emails;
  }

  // ----- One request for an email and an inbound

  lemma {:induction false} RequestsOf(email: string, id: string, ops: seq<Op>, kind: Kind, tag: string)
    ensures var asked := Requests(email, id, ops, kind, tag);
            && (asked != [] <==> Plans(ops, kind, tag))
            && (forall i :: 0 <= i < |asked| ==> asked[i].email == email && asked[i].id == id)
            && (DistinctTags(ops) ==> |asked| <= 1)
  {
    hide Plans;
    if ops == [] {
      NoPlans(tag);
    } else {
      var init, last := ops[..|ops| - 1], ops[|ops| - 1];
      assert ops == init + [last];
      RequestsOf(email, id, init, kind, tag);
      PlansSnoc(init, last, kind, tag);
      if DistinctTags(ops) && Plans(init, kind, tag) && last.tag == tag {
        PlannedBefore(init, last, kind);
      }
    }
  }

  lemma PlannedBefore(init: seq<Op>, last: Op, kind: Kind)
    requires Plans(init, kind, last.tag)
    ensures !DistinctTags(init + [last])
  {
    var all := init + [last];
    var i :| 0 <= i < |init| && init[i].tag == last.tag && init[i].kind == kind;
    assert all[i].tag == all[|init|].tag;
  }

  predicate AllDistinct(snap: map<string, Change>) { forall e :: e in snap ==> DistinctTags(snap[e].ops) }

  lemma {:induction false} CollectedOnce(emails: seq<string>, snap: map<string, Change>, kind: Kind, tag: string)
    requires NoRepeats(emails) && (forall e :: e in emails ==> e in snap) && AllDistinct(snap)
    ensures var asked := Collected(emails, snap, kind, tag);
            && NoRepeats(O.EmailsOf(asked))
            && (forall e :: e in O.EmailsOf(asked) <==> e in emails && Plans(snap[e].ops, kind, tag))
            && (forall op :: op in asked ==> op.email in emails && op.id == snap[op.email].id)
  {
    hide Plans, DistinctTags, Requests;
    if emails != [] {
      var init, last := emails[..|emails| - 1], emails[|emails| - 1];
      assert emails == init + [last];
      CollectedOnce(init, snap, kind, tag);
      RequestsOf(last, snap[last].id, snap[last].ops, kind, tag);
      EmailsConcat(Collected(init, snap, kind, tag), Requests(last, snap[last].id, snap[last].ops, kind, tag));
      OneEmail(Requests(last, snap[last].id, snap[last].ops, kind, tag), last);
    }
  }

  lemma OneKind(ops: seq<Op>, tag: string)
    requires DistinctTags(ops)
    ensures !(Plans(ops, Attach, tag) && Plans(ops, Detach, tag))
    ensures !(Plans(ops, Attach, tag) && Plans(ops, Rotate, tag))
    ensures !(Plans(ops, Detach, tag) && Plans(ops, Rotate, tag))
  {}

  /** What the queue plans is what a render can carry out: per inbound, one request for an email. */
  lemma PlansAreDisjoint(plan: P.RenderPlan, emails: seq<string>, snap: map<string, Change>, tag: string)
    requires NoRepeats(emails) && (forall e :: e in emails ==> e in snap) && AllDistinct(snap) && PlanOf(plan, emails, snap)
    ensures O.Disjoint(plan.Adds(tag), plan.Removes(tag), plan.Sets(tag))
  {
    hide Plans, DistinctTags, Collected, P.RenderPlan.Adds, P.RenderPlan.Removes, P.RenderPlan.Sets, O.EmailsOf;
    hide NoRepeats;
    CollectedOnce(emails, snap, Attach, tag);
    CollectedOnce(emails, snap, Detach, tag);
    CollectedOnce(emails, snap, Rotate, tag);
    forall e | e in emails
      ensures !(Plans(snap[e].ops, Attach, tag) && Plans(snap[e].ops, Detach, tag))
      ensures !(Plans(snap[e].ops, Attach, tag) && Plans(snap[e].ops, Rotate, tag))
      ensures !(Plans(snap[e].ops, Detach, tag) && Plans(snap[e].ops, Rotate, tag))
    {
      OneKind(snap[e].ops, tag);
    }
  }

  // ----- What a render makes of an entry

  /** The credential a clients list holds for an email; an entry without a string id holds an empty one. */
  function EntryId(c: S.Codec, values: seq<S.Value>, email: string): Option<string> {
    if values == [] then None
    else if L.EmailOf(c, values[0]) == Some(email) then
      match R.IdOf(c, values[0])
      case None => Some("")
      case Some(id) => Some(id)
    else EntryId(c, values[1..], email)
  }

  lemma {:induction false} EntryIdConcat(c: S.Codec, a: seq<S.Value>, b: seq<S.Value>, email: string)
    ensures EntryId(c, a + b, email) == if EntryId(c, a, email).Some? then EntryId(c, a, email) else EntryId(c, b, email)
  {
    hide L.EmailOf, R.IdOf;
    if a == [] {
      assert a + b == b;
    } else {
      assert (a + b)[1..] == a[1..] + b;
      EntryIdConcat(c, a[1..], b, email);
    }
  }

  lemma {:induction false} EntryIdPresent(c: S.Codec, values: seq<S.Value>, email: string)
    ensures EntryId(c, values, email).Some? <==> email in A.Present(c, values)
  {
    hide L.EmailOf, R.IdOf;
    if values == [] {
      assert A.Present(c, []) == {};
    } else {
      EntryIdPresent(c, values[1..], email);
      R.PresentOne(c, values[0]);
      R.PresentConcat(c, [values[0]], values[1..]);
      assert values == [values[0]] + values[1..];
    }
  }

  /** The kept entries: none for a removed email, the set id for a set one, the old id otherwise. */
  lemma {:induction false} KeptEntryId(c: S.Codec, values: seq<S.Value>, removes: set<string>, ids: map<string,
                                       string>, email: string)
    requires c.Valid()
    ensures EntryId(c, L.KeptValues(c, values, removes, ids), email) ==
            if email in removes || EntryId(c, values, email).None? then None
            else if email in ids then Some(ids[email])
            else EntryId(c, values, email)
  {
    hide L.EmailOf, R.IdOf, L.EditedEntry, S.Codec.Valid;
    if values != [] {
      KeptEntryId(c, values[1..], removes, ids, email);
      var rest := L.KeptValues(c, values[1..], removes, ids);
      if L.Removed(c, values[0], removes) {
        assert [] + rest == rest;
      } else {
        R.SameEmail(c, values[0], ids);
        var kept := [L.EditedEntry(c, values[0], ids)];
        assert (kept + rest)[1..] == rest;
      }
    }
  }

  lemma {:induction false} NewEntryId(c: S.Codec, ops: seq<P.ClientOp>, email: string)
    requires c.Valid()
    ensures EntryId(c, L.EntryValues(c, ops), email) == FirstId(ops, email)
  {
    hide L.EmailOf, R.IdOf, E.EntryValue, S.Codec.Valid;
    if ops != [] {
      NewEntryId(c, ops[1..], email);
      R.EntryNames(c, ops[0]);
      assert L.EntryValues(c, ops)[1..] == L.EntryValues(c, ops[1..]);
    }
  }

  function FirstId(ops: seq<P.ClientOp>, email: string): Option<string> {
    if ops == [] then None else if ops[0].email == email then Some(ops[0].id) else FirstId(ops[1..], email)
  }

  lemma {:induction false} FirstIdOf(ops: seq<P.ClientOp>, email: string, id: string)
    requires forall op :: op in ops && op.email == email ==> op.id == id
    ensures FirstId(ops, email) == if exists op :: op in ops && op.email == email then Some(id) else None
  {
    if ops != [] {
      FirstIdOf(ops[1..], email, id);
      assert ops == [ops[0]] + ops[1..];
      assert ops[0] in ops;
    }
  }

  /** What a render makes of one user's credential on a managed inbound is what pushing the user's operations makes of it. */
  lemma RenderedEntry(c: S.Codec, was: seq<S.Value>, plan: P.RenderPlan, emails: seq<string>, snap: map<string,
                      Change>, tag: string, email: string)
    requires c.Valid() && A.UniqueClients(c, was)
    requires NoRepeats(emails) && (forall e :: e in emails <==> e in snap) && AllDistinct(snap) && PlanOf(plan, emails, snap)
    ensures var now := M.PlannedClients(c, was, plan.Adds(tag), plan.Removes(tag), plan.Sets(tag));
            EntryId(c, now, email) ==
            if email in snap then After(EntryId(c, was, email), snap[email].id, snap[email].ops, tag) else EntryId(c, was, email)
  {
    hide S.Codec.Valid, A.UniqueClients, Plans, Leaves, DistinctTags, Collected, L.KeptValues, L.EntryValues, O.IdsOf;
    hide A.Present;
    hide P.RenderPlan.Adds, P.RenderPlan.Removes, P.RenderPlan.Sets, O.EmailsOf, NoRepeats, EntryId, P.DropEmails;
    hide O.Disjoint;
    var adds, removes, sets := plan.Adds(tag), plan.Removes(tag), plan.Sets(tag);
    PlansAreDisjoint(plan, emails, snap, tag);
    CollectedOnce(emails, snap, Attach, tag);
    CollectedOnce(emails, snap, Detach, tag);
    CollectedOnce(emails, snap, Rotate, tag);
    var ids, ops := O.IdsOf(sets), A.Remaining(c, was, adds, sets);
    KeptEntryId(c, was, O.SetOf(removes), ids, email);
    EntryIdConcat(c, L.KeptValues(c, was, O.SetOf(removes), ids), L.EntryValues(c, ops), email);
    NewEntryId(c, ops, email);
    EntryIdPresent(c, was, email);
    R.DropFacts(adds + sets, A.Present(c, was));
    SetIds(sets, snap, email);
    FirstIdOf(ops, email, if email in snap then snap[email].id else "");
    AskedFor(adds, email);
    AskedFor(sets, email);
    if email in snap {
      OneKind(snap[email].ops, tag);
      PlansSnoc(snap[email].ops, Op(Attach, tag, ""), Attach, tag);
    }
  }

  lemma AskedFor(ops: seq<P.ClientOp>, email: string)
    ensures email in O.EmailsOf(ops) <==> exists op :: op in ops && op.email == email
  {
    I.EmailsOfAll(ops);
    R.OpsOfEmails(ops);
  }

  lemma SetIds(sets: seq<P.ClientOp>, snap: map<string, Change>, email: string)
    requires NoRepeats(O.EmailsOf(sets)) && forall op :: op in sets ==> op.email in snap && op.id == snap[op.email].id
    ensures email in O.IdsOf(sets) <==> email in O.EmailsOf(sets)
    ensures email in O.IdsOf(sets) ==> email in snap && O.IdsOf(sets)[email] == snap[email].id
  {
    hide O.IdsOf;
    O.IdsOfSets(sets);
    R.OpsOfEmails(sets);
    if email in O.EmailsOf(sets) {
      var op :| op in sets && op.email == email;
      var i :| 0 <= i < |sets| && sets[i] == op;
      assert O.IdsOf(sets)[sets[i].email] == sets[i].id;
    }
  }

  /** So the file's share of a pass may be stated as the pushes are. */
  lemma RenderIsAPush(c: S.Codec, was: seq<S.Value>, plan: P.RenderPlan, emails: seq<string>, snap: map<string, Change>,
                      tag: string, email: string, file: Live)
    requires c.Valid() && A.UniqueClients(c, was)
    requires NoRepeats(emails) && (forall e :: e in emails <==> e in snap) && AllDistinct(snap) && PlanOf(plan, emails, snap)
    requires Held(file, tag) == EntryId(c, was, email) && email in snap
    ensures Held(PushAll(file, snap[email].id, snap[email].ops), tag) ==
            EntryId(c, M.PlannedClients(c, was, plan.Adds(tag), plan.Removes(tag), plan.Sets(tag)), email)
  {
    hide S.Codec.Valid, A.UniqueClients, Plans, Leaves, PlanOf, M.PlannedClients, EntryId, After, PushAll;
    RenderedEntry(c, was, plan, emails, snap, tag, email);
    DistinctIsApart(snap[email].ops);
    RunOnTag(file, snap[email].id, snap[email].ops, tag);
  }

  lemma DistinctIsApart(ops: seq<Op>)
    requires DistinctTags(ops)
    ensures Apart(ops)
  {}

  // ----- An inbound asked for twice

  /** The email is asked for twice. */
  predicate Twice(ops: seq<P.ClientOp>, email: string) {
    exists i, j :: 0 <= i < j < |ops| && ops[i].email == email && ops[j].email == email
  }

  lemma TwiceConcat(a: seq<P.ClientOp>, b: seq<P.ClientOp>, email: string)
    requires Twice(a, email) || Twice(b, email)
    ensures Twice(a + b, email)
  {
    if Twice(a, email) {
      var i, j :| 0 <= i < j < |a| && a[i].email == email && a[j].email == email;
      assert (a + b)[i].email == email && (a + b)[j].email == email;
    } else {
      var i, j :| 0 <= i < j < |b| && b[i].email == email && b[j].email == email;
      assert (a + b)[|a| + i].email == email && (a + b)[|a| + j].email == email;
    }
  }

  lemma {:induction false} TwiceRequested(email: string, id: string, ops: seq<Op>, tag: string, i: nat, j: nat)
    requires i < j < |ops| && ops[i].kind == ops[j].kind == Attach && ops[i].tag == ops[j].tag == tag
    ensures Twice(Requests(email, id, ops, Attach, tag), email)
  {
    hide Plans;
    var init, last := ops[..|ops| - 1], ops[|ops| - 1];
    assert ops == init + [last];
    var asked := Requests(email, id, init, Attach, tag);
    if j < |init| {
      TwiceRequested(email, id, init, tag, i, j);
      TwiceConcat(asked, if last.kind == Attach && last.tag == tag then [P.ClientOp(email, id, last.flow)] else [], email);
    } else {
      RequestsOf(email, id, init, Attach, tag);
      assert init[i] == ops[i];
      assert Plans(init, Attach, tag) by { PlannedAt(init, i); }
      var all := asked + [P.ClientOp(email, id, last.flow)];
      assert all[0].email == email && all[|asked|].email == email;
    }
  }

  lemma {:induction false} TwiceCollected(emails: seq<string>, snap: map<string, Change>, tag: string, email: string)
    requires (forall e :: e in emails ==> e in snap) && email in emails
    requires Twice(Requests(email, snap[email].id, snap[email].ops, Attach, tag), email)
    ensures Twice(Collected(emails, snap, Attach, tag), email)
  {
    hide Twice, Requests;
    var init, last := emails[..|emails| - 1], emails[|emails| - 1];
    assert emails == init + [last];
    if last != email {
      TwiceCollected(init, snap, tag, email);
    }
    TwiceConcat(Collected(init, snap, Attach, tag), Requests(last, snap[last].id, snap[last].ops, Attach, tag), email);
  }

  lemma {:induction false} TwiceLeft(ops: seq<P.ClientOp>, present: set<string>, email: string)
    requires Twice(ops, email) && email !in present
    ensures Twice(P.DropEmails(ops, present), email)
  {
    var i, j :| 0 <= i < j < |ops| && ops[i].email == email && ops[j].email == email;
    var left := P.DropEmails(ops[1..], present);
    if i > 0 {
      assert ops[1..][i - 1].email == email && ops[1..][j - 1].email == email;
      TwiceLeft(ops[1..], present, email);
      TwiceConcat([ops[0]], left, email);
      assert P.DropEmails(ops, present) == left || P.DropEmails(ops, present) == [ops[0]] + left;
    } else {
      R.DropFacts(ops[1..], present);
      assert ops[1..][j - 1] in left;
      var k :| 0 <= k < |left| && left[k] == ops[j];
      var all := [ops[0]] + left;
      assert all[0].email == email && all[k + 1].email == email;
    }
  }

  /** The planned clients name nobody twice if and only if what is appended names nobody twice. */
  lemma PlannedUniqueExactly(c: S.Codec, was: seq<S.Value>, adds: seq<P.ClientOp>, removes: seq<string>,
                             sets: seq<P.ClientOp>)
    requires c.Valid() && A.UniqueClients(c, was)
    ensures A.UniqueClients(c, M.PlannedClients(c, was, adds, removes, sets))
            <==> NoRepeats(O.EmailsOf(A.Remaining(c, was, adds, sets)))
  {
    hide S.Codec.Valid, A.UniqueClients, A.Present, L.KeptValues, L.EntryValues, O.IdsOf, P.DropEmails, O.EmailsOf;
    var ops := A.Remaining(c, was, adds, sets);
    var kept := L.KeptValues(c, was, O.SetOf(removes), O.IdsOf(sets));
    R.KeptFacts(c, was, O.SetOf(removes), O.IdsOf(sets));
    R.DropFacts(adds + sets, A.Present(c, was));
    if NoRepeats(O.EmailsOf(ops)) {
      R.EntryFacts(c, ops, map[]);
      R.OpsOfEmails(ops);
      R.PresentConcat(c, kept, L.EntryValues(c, ops));
    } else {
      RepeatedEntry(c, kept, ops);
    }
  }

  lemma RepeatedEntry(c: S.Codec, kept: seq<S.Value>, ops: seq<P.ClientOp>)
    requires c.Valid() && !NoRepeats(O.EmailsOf(ops))
    ensures !A.UniqueClients(c, kept + L.EntryValues(c, ops))
  {
    hide S.Codec.Valid, E.EntryValue, L.EmailOf;
    var emails, all := O.EmailsOf(ops), kept + L.EntryValues(c, ops);
    var i, j :| 0 <= i < j < |emails| && emails[i] == emails[j];
    R.EntryNames(c, ops[i]);
    R.EntryNames(c, ops[j]);
    assert L.EmailOf(c, all[|kept| + i]) == L.EmailOf(c, all[|kept| + j]) == Some(emails[i]);
  }

  lemma TwiceRepeats(ops: seq<P.ClientOp>, email: string)
    requires Twice(ops, email)
    ensures !NoRepeats(O.EmailsOf(ops))
  {
    var i, j :| 0 <= i < j < |ops| && ops[i].email == email && ops[j].email == email;
    assert O.EmailsOf(ops)[i] == O.EmailsOf(ops)[j];
  }

  /** An inbound attached twice by one change gives its clients array two entries of the user, unless it has one already. */
  lemma DoubledAttachDoublesTheEntry(c: S.Codec, was: seq<S.Value>, plan: P.RenderPlan, emails: seq<string>,
                                     snap: map<string, Change>, tag: string, email: string, i: nat, j: nat)
    requires c.Valid() && A.UniqueClients(c, was) && (forall e :: e in emails <==> e in snap) && PlanOf(plan, emails, snap)
    requires email in snap && email !in A.Present(c, was)
    requires i < j < |snap[email].ops|
    requires var ops := snap[email].ops; ops[i].kind == ops[j].kind == Attach && ops[i].tag == ops[j].tag == tag
    ensures !A.UniqueClients(c, M.PlannedClients(c, was, plan.Adds(tag), plan.Removes(tag), plan.Sets(tag)))
  {
    hide S.Codec.Valid, A.UniqueClients, A.Present, M.PlannedClients, P.RenderPlan.Adds, P.RenderPlan.Removes;
    hide P.RenderPlan.Sets, P.DropEmails;
    hide Twice, Collected, Requests, O.EmailsOf, NoRepeats;
    var adds, sets := plan.Adds(tag), plan.Sets(tag);
    TwiceRequested(email, snap[email].id, snap[email].ops, tag, i, j);
    TwiceCollected(emails, snap, tag, email);
    TwiceConcat(adds, sets, email);
    TwiceLeft(adds + sets, A.Present(c, was), email);
    TwiceRepeats(A.Remaining(c, was, adds, sets), email);
    PlannedUniqueExactly(c, was, adds, plan.Removes(tag), sets);
  }
}
