/** What a user's inbounds hold at any moment of an apply, however often it stops and is planned anew. */
module RosterSafety {
  import opened Options
  import opened RosterPlan
  import opened Sequences

  /** Each operation is about a tag the record has, or does not have, as its kind says. */
  predicate Fits(ops: seq<Op>, rec: Record) {
    forall i :: 0 <= i < |ops| ==> (ops[i].kind == Detach <==> ops[i].tag !in rec.tags)
  }

  /**
   * What every moment keeps: a credential is only where the record or the change in flight knows of it, an inbound
   * the change leaves alone already holds the record's, and an attach never meets another credential.
   */
  predicate Settling(live: Live, rec: Record, ops: seq<Op>) {
    && Fits(ops, rec)
    && (forall t :: t in live ==> t in rec.tags || Touches(ops, t))
    && (forall t :: t in rec.tags && !Touches(ops, t) ==> t in live && live[t] == rec.id)
    && (forall t :: Plans(ops, Attach, t) && t in live ==> live[t] == rec.id)
  }

  /** What a pushed operation leaves on its inbound. */
  predicate Done(live: Live, id: string, op: Op) {
    if op.kind == Detach then op.tag !in live else op.tag in live && live[op.tag] == id
  }

  // ----- One operation

  lemma PushKeeps(live: Live, rec: Record, ops: seq<Op>, i: nat)
    requires Settling(live, rec, ops) && i < |ops|
    ensures Settling(Push(live, rec.id, ops[i]), rec, ops)
    ensures Done(Push(live, rec.id, ops[i]), rec.id, ops[i])
    ensures ops[i].kind == Rotate ==> Settling(RemoveUser(live, ops[i].tag), rec, ops)
  {
    assert Touches(ops, ops[i].tag);
    if ops[i].kind == Attach {
      assert Plans(ops, Attach, ops[i].tag);
    }
  }

  lemma PushKeepsDone(live: Live, rec: Record, ops: seq<Op>, i: nat, j: nat)
    requires Settling(live, rec, ops) && i < |ops| && j < |ops| && Done(live, rec.id, ops[j])
    ensures Done(Push(live, rec.id, ops[i]), rec.id, ops[j])
  {}

  predicate AllDone(live: Live, id: string, ops: seq<Op>, n: nat)
    requires n <= |ops|
  {
    forall i :: 0 <= i < n ==> Done(live, id, ops[i])
  }

  lemma {:induction false} PushAllKeeps(live: Live, rec: Record, ops: seq<Op>, n: nat)
    requires Settling(live, rec, ops) && n <= |ops|
    ensures Settling(PushAll(live, rec.id, ops[..n]), rec, ops)
    ensures AllDone(PushAll(live, rec.id, ops[..n]), rec.id, ops, n)
  {
    hide Settling, Done, Push;
    if n > 0 {
      var before := PushAll(live, rec.id, ops[..n - 1]);
      PushAllKeeps(live, rec, ops, n - 1);
      assert ops[..n][..n - 1] == ops[..n - 1] && ops[..n][n - 1] == ops[n - 1];
      PushKeeps(before, rec, ops, n - 1);
      forall j | 0 <= j < n - 1
        ensures Done(Push(before, rec.id, ops[n - 1]), rec.id, ops[j])
      {
        PushKeepsDone(before, rec, ops, n - 1, j);
      }
    }
  }

  /** Wherever a pass stops, the same plan still settles the user. */
  lemma StoppingKeeps(live: Live, rec: Record, ops: seq<Op>, stop: Stop)
    requires Settling(live, rec, ops) && StopsIn(stop, ops)
    ensures Settling(PushUntil(live, rec.id, ops, stop), rec, ops)
  {
    hide Settling;
    PushAllKeeps(live, rec, ops, stop.done);
    if stop.half {
      PushKeeps(PushAll(live, rec.id, ops[..stop.done]), rec, ops, stop.done);
    }
  }

  lemma AllDoneIsExact(live: Live, rec: Record, ops: seq<Op>)
    requires Settling(live, rec, ops) && AllDone(live, rec.id, ops, |ops|)
    ensures live == Exactly(rec)
  {
    forall t
      ensures t in live <==> t in rec.tags
      ensures t in live ==> live[t] == rec.id
    {
      if Touches(ops, t) {
        var i :| 0 <= i < |ops| && ops[i].tag == t;
        assert Done(live, rec.id, ops[i]);
      }
    }
  }

  /** Run to the end, the plan leaves exactly the record. */
  lemma FullRunIsExact(live: Live, rec: Record, ops: seq<Op>)
    requires Settling(live, rec, ops)
    ensures PushAll(live, rec.id, ops) == Exactly(rec)
  {
    hide Settling, AllDone;
    PushAllKeeps(live, rec, ops, |ops|);
    assert ops[..|ops|] == ops;
    AllDoneIsExact(PushAll(live, rec.id, ops), rec, ops);
  }

  /** A user with nothing in flight holds exactly the record. */
  lemma SettledIsExact(live: Live, rec: Record)
    ensures Settling(live, rec, []) <==> live == Exactly(rec)
  {
    if Settling(live, rec, []) {
      AllDoneIsExact(live, rec, []);
    }
  }

  // ----- The same plan, run any number of times

  function StopAt(live: Live, id: string, ops: seq<Op>, stops: seq<Stop>): Live
    requires forall i :: 0 <= i < |stops| ==> StopsIn(stops[i], ops)
  {
    if stops == [] then live else PushUntil(StopAt(live, id, ops, stops[..|stops| - 1]), id, ops, stops[|stops| - 1])
  }

  /** Attempts that stop anywhere, then one that ends: the same as one that ends, from wherever it starts. */
  lemma {:induction false} RetriesConverge(live: Live, rec: Record, ops: seq<Op>, stops: seq<Stop>)
    requires Settling(live, rec, ops) && forall i :: 0 <= i < |stops| ==> StopsIn(stops[i], ops)
    ensures Settling(StopAt(live, rec.id, ops, stops), rec, ops)
    ensures PushAll(StopAt(live, rec.id, ops, stops), rec.id, ops) == PushAll(live, rec.id, ops) == Exactly(rec)
  {
    hide Settling, PushUntil;
    if stops != [] {
      RetriesConverge(live, rec, ops, stops[..|stops| - 1]);
      StoppingKeeps(StopAt(live, rec.id, ops, stops[..|stops| - 1]), rec, ops, stops[|stops| - 1]);
    }
    FullRunIsExact(live, rec, ops);
    FullRunIsExact(StopAt(live, rec.id, ops, stops), rec, ops);
  }

  // ----- Plans whose leaves and joins are apart, on any inbound

  /** No tag both left and joined. */
  predicate Apart(ops: seq<Op>) {
    forall i, j :: 0 <= i < |ops| && 0 <= j < |ops| && ops[i].tag == ops[j].tag ==> (ops[i].kind == Detach <==> ops[j].kind == Detach)
  }

  /** What a run makes of one inbound. */
  function After(held: Option<string>, id: string, ops: seq<Op>, tag: string): Option<string> {
    if Leaves(ops, tag) then None
    else if Plans(ops, Rotate, tag) then Some(id)
    else if Plans(ops, Attach, tag) then if held.Some? then held else Some(id)
    else held
  }

  function Held(live: Live, tag: string): Option<string> { if tag in live then Some(live[tag]) else None }

  lemma PlansSnoc(ops: seq<Op>, op: Op, kind: Kind, tag: string)
    ensures Plans(ops + [op], kind, tag) <==> Plans(ops, kind, tag) || (op.kind == kind && op.tag == tag)
    ensures Leaves(ops, tag) <==> Plans(ops, Detach, tag)
    ensures Touches(ops + [op], tag) <==> Touches(ops, tag) || op.tag == tag
    ensures Joins(ops, tag) <==> Plans(ops, Attach, tag) || Plans(ops, Rotate, tag)
    ensures Touches(ops, tag) <==> Leaves(ops, tag) || Joins(ops, tag)
  {
    var all := ops + [op];
    assert all[|ops|] == op;
    assert forall i :: 0 <= i < |ops| ==> all[i] == ops[i];
  }

  /** The outcome of a run on an inbound does not depend on the order of the operations. */
  lemma {:induction false} RunOnTag(live: Live, id: string, ops: seq<Op>, tag: string)
    requires Apart(ops)
    ensures Held(PushAll(live, id, ops), tag) == After(Held(live, tag), id, ops, tag)
  {
    hide Plans, Leaves;
    if ops == [] {
      NoPlans(tag);
    } else {
      var init, op := ops[..|ops| - 1], ops[|ops| - 1];
      assert ops == init + [op];
      RunOnTag(live, id, init, tag);
      PlansSnoc(init, op, Detach, tag);
      PlansSnoc(init, op, Attach, tag);
      PlansSnoc(init, op, Rotate, tag);
      PlansSnoc(ops, op, Detach, tag);
      if op.tag == tag && Leaves(init, tag) {
        ApartLast(init, op);
      }
      if op.tag == tag && (Plans(init, Attach, tag) || Plans(init, Rotate, tag)) {
        ApartLastJoin(init, op);
      }
    }
  }

  lemma NoPlans(tag: string)
    ensures !Leaves([], tag) && forall kind :: !Plans([], kind, tag)
  {}

  lemma ApartLast(init: seq<Op>, op: Op)
    requires Apart(init + [op]) && Leaves(init, op.tag)
    ensures op.kind == Detach
  {
    var all := init + [op];
    var i :| 0 <= i < |init| && init[i].tag == op.tag && init[i].kind == Detach;
    assert all[i] == init[i] && all[|init|] == op;
  }

  lemma ApartLastJoin(init: seq<Op>, op: Op)
    requires Apart(init + [op]) && (Plans(init, Attach, op.tag) || Plans(init, Rotate, op.tag))
    ensures op.kind != Detach
  {
    var all := init + [op];
    var i :| 0 <= i < |init| && init[i].tag == op.tag && init[i].kind != Detach;
    assert all[i] == init[i] && all[|init|] == op;
  }

  lemma PlansPrefix(ops: seq<Op>, n: nat, kind: Kind, tag: string)
    requires n <= |ops| && Plans(ops[..n], kind, tag)
    ensures Plans(ops, kind, tag)
  {
    var i :| 0 <= i < n && ops[..n][i].tag == tag && ops[..n][i].kind == kind;
    assert ops[i].tag == tag;
  }

  /** A run after one that stopped anywhere ends, on each inbound, where a single run does. */
  lemma StoppedOnTag(live: Live, id: string, ops: seq<Op>, stop: Stop, tag: string)
    requires Apart(ops) && StopsIn(stop, ops)
    ensures After(Held(PushUntil(live, id, ops, stop), tag), id, ops, tag) == After(Held(live, tag), id, ops, tag)
  {
    hide Plans, Leaves, PushAll;
    var prefix := ops[..stop.done];
    ApartPrefix(ops, stop.done);
    RunOnTag(live, id, prefix, tag);
    PlansSnoc(prefix, Op(Attach, tag, ""), Attach, tag);
    PlansSnoc(ops, Op(Attach, tag, ""), Attach, tag);
    if Plans(prefix, Detach, tag) {
      PlansPrefix(ops, stop.done, Detach, tag);
    }
    if Plans(prefix, Rotate, tag) {
      PlansPrefix(ops, stop.done, Rotate, tag);
    }
    if Plans(prefix, Attach, tag) {
      PlansPrefix(ops, stop.done, Attach, tag);
    }
    if stop.half && ops[stop.done].tag == tag {
      PlannedAt(ops, stop.done);
    }
  }

  lemma PlannedAt(ops: seq<Op>, i: nat)
    requires i < |ops|
    ensures Plans(ops, ops[i].kind, ops[i].tag)
  {}

  lemma ApartPrefix(ops: seq<Op>, n: nat)
    requires Apart(ops) && n <= |ops|
    ensures Apart(ops[..n])
  {}

  lemma HeldEverywhere(a: Live, b: Live)
    requires forall t :: Held(a, t) == Held(b, t)
    ensures a == b
  {
    forall t
      ensures t in a <==> t in b
      ensures t in a ==> a[t] == b[t]
    {
      assert Held(a, t) == Held(b, t);
    }
  }

  /** From any state whatever, for any plan whose leaves and joins are apart: retries that stop anywhere change nothing about where a full run ends. */
  lemma {:induction false} RetriesAgree(live: Live, id: string, ops: seq<Op>, stops: seq<Stop>)
    requires Apart(ops) && forall i :: 0 <= i < |stops| ==> StopsIn(stops[i], ops)
    ensures PushAll(StopAt(live, id, ops, stops), id, ops) == PushAll(live, id, ops)
  {
    hide PushUntil, After, Apart;
    if stops != [] {
      var init, last := stops[..|stops| - 1], stops[|stops| - 1];
      RetriesAgree(live, id, ops, init);
      var before := StopAt(live, id, ops, init);
      forall t
        ensures Held(PushAll(PushUntil(before, id, ops, last), id, ops), t) == Held(PushAll(before, id, ops), t)
      {
        RunOnTag(PushUntil(before, id, ops, last), id, ops, t);
        RunOnTag(before, id, ops, t);
        StoppedOnTag(before, id, ops, last, t);
      }
      HeldEverywhere(PushAll(PushUntil(before, id, ops, last), id, ops), PushAll(before, id, ops));
    }
  }

  /** Nor does the order in which the operations are pushed. */
  lemma OrderIsIrrelevant(live: Live, id: string, ops: seq<Op>, other: seq<Op>)
    requires Apart(ops) && multiset(ops) == multiset(other)
    ensures PushAll(live, id, ops) == PushAll(live, id, other)
  {
    SameMembers(ops, other);
    forall t
      ensures Held(PushAll(live, id, ops), t) == Held(PushAll(live, id, other), t)
    {
      hide PushAll, Held, Apart;
      RunOnTag(live, id, ops, t);
      RunOnTag(live, id, other, t);
      SamePlans(ops, other, t);
    }
    HeldEverywhere(PushAll(live, id, ops), PushAll(live, id, other));
  }

  lemma SameMembers(ops: seq<Op>, other: seq<Op>)
    requires Apart(ops) && multiset(ops) == multiset(other)
    ensures Apart(other) && forall op :: op in ops <==> op in other
  {
    forall op
      ensures op in ops <==> op in other
    {
      assert op in multiset(ops) <==> op in multiset(other);
    }
    forall i, j | 0 <= i < |other| && 0 <= j < |other| && other[i].tag == other[j].tag
      ensures other[i].kind == Detach <==> other[j].kind == Detach
    {
      assert other[i] in ops && other[j] in ops;
    }
  }

  lemma SamePlans(ops: seq<Op>, other: seq<Op>, t: string)
    requires forall op :: op in ops <==> op in other
    ensures Leaves(ops, t) <==> Leaves(other, t)
    ensures forall kind :: Plans(ops, kind, t) <==> Plans(other, kind, t)
  {
    PlansMember(ops, t);
    PlansMember(other, t);
  }

  lemma PlansMember(ops: seq<Op>, t: string)
    ensures Leaves(ops, t) <==> exists op :: op in ops && op.tag == t && op.kind == Detach
    ensures forall kind :: Plans(ops, kind, t) <==> exists op :: op in ops && op.tag == t && op.kind == kind
  {
    forall kind
      ensures Plans(ops, kind, t) <==> exists op :: op in ops && op.tag == t && op.kind == kind
    {
      if Plans(ops, kind, t) {
        var i :| 0 <= i < |ops| && ops[i].tag == t && ops[i].kind == kind;
        assert ops[i] in ops;
      }
    }
  }

  // ----- Edits

  /** No edit re-attaches a tag whose detach is still owed. */
  predicate NoReattach(prev: seq<Op>, after: Record) {
    forall i :: 0 <= i < |prev| && prev[i].kind == Detach ==> prev[i].tag !in after.tags
  }

  lemma {:induction false} DroppedOps(tags: seq<string>, kept: seq<string>, t: string)
    ensures forall i :: 0 <= i < |Dropped(tags, kept)| ==> Dropped(tags, kept)[i].kind == Detach && Dropped(tags, kept)[i].tag !in kept
    ensures Touches(Dropped(tags, kept), t) <==> t in tags && t !in kept
  {
    hide Touches, Plans, Leaves, Joins;
    if tags == [] {
      NothingTouched(t);
    } else {
      var init, last := tags[..|tags| - 1], tags[|tags| - 1];
      assert tags == init + [last];
      DroppedOps(init, kept, t);
      PlansSnoc(Dropped(init, kept), Op(Detach, last, ""), Detach, t);
      assert Dropped(init, kept) + [] == Dropped(init, kept);
    }
  }

  lemma NothingTouched(t: string)
    ensures !Touches([], t)
  {}

  lemma {:induction false} OwedOps(prev: seq<Op>, kept: seq<string>, t: string)
    ensures forall i :: 0 <= i < |Owed(prev, kept)| ==> Owed(prev, kept)[i].kind == Detach && Owed(prev, kept)[i].tag !in kept
    ensures Touches(Owed(prev, kept), t) <==> Leaves(prev, t) && t !in kept
  {
    hide Touches, Plans, Leaves, Joins;
    if prev == [] {
      NothingTouched(t);
      NoPlans(t);
    } else {
      var init, last := prev[..|prev| - 1], prev[|prev| - 1];
      assert prev == init + [last];
      OwedOps(init, kept, t);
      PlansSnoc(Owed(init, kept), Op(Detach, last.tag, ""), Detach, t);
      assert Owed(init, kept) + [] == Owed(init, kept);
      PlansSnoc(init, last, Detach, t);
      PlansSnoc(prev, last, Detach, t);
    }
  }

  predicate RotatesTag(before: Record, after: Record, prev: seq<Op>, t: string) {
    (before.id != after.id && t in before.tags) || Joins(prev, t)
  }

  predicate AttachesTag(before: Record, after: Record, prev: seq<Op>, t: string) {
    !RotatesTag(before, after, prev, t) && (t !in before.tags || prev != [])
  }

  lemma {:induction false} StaysOps(before: Record, after: Record, flows: map<string, string>, prev: seq<Op>,
                                    tags: seq<string>, t: string)
    ensures forall i :: 0 <= i < |Stays(before, after, flows, prev, tags)| ==>
                          Stays(before, after, flows, prev, tags)[i].kind != Detach && Stays(before, after, flows, prev, tags)[i].tag in tags
    ensures Plans(Stays(before, after, flows, prev, tags), Rotate, t) <==> t in tags && RotatesTag(before, after, prev, t)
    ensures Plans(Stays(before, after, flows, prev, tags), Attach, t) <==> t in tags && AttachesTag(before, after, prev, t)
  {
    hide Plans, Joins;
    if tags == [] {
      NoPlans(t);
    } else {
      var init, last := tags[..|tags| - 1], tags[|tags| - 1];
      assert tags == init + [last];
      StaysOps(before, after, flows, prev, init, t);
      var ops := Stays(before, after, flows, prev, init);
      PlansSnoc(ops, Op(Rotate, last, Flow(flows, last)), Rotate, t);
      PlansSnoc(ops, Op(Attach, last, Flow(flows, last)), Attach, t);
      PlansSnoc(ops, Op(Rotate, last, Flow(flows, last)), Attach, t);
      PlansSnoc(ops, Op(Attach, last, Flow(flows, last)), Rotate, t);
      assert ops + [] == ops;
    }
  }

  lemma PlansConcat(a: seq<Op>, b: seq<Op>, kind: Kind, t: string)
    ensures Plans(a + b, kind, t) <==> Plans(a, kind, t) || Plans(b, kind, t)
    ensures Touches(a + b, t) <==> Touches(a, t) || Touches(b, t)
  {
    assert forall i :: 0 <= i < |a| ==> (a + b)[i] == a[i];
    forall i | 0 <= i < |b|
      ensures (a + b)[|a| + i] == b[i]
    {}
  }

  /** The plan of an edit, tag by tag. */
  lemma DiffOpsOnTag(before: Record, after: Record, flows: map<string, string>, prev: seq<Op>, t: string)
    ensures var ops := DiffOps(before, after, flows, prev);
            && (Plans(ops, Detach, t) <==> t !in after.tags && (t in before.tags || Leaves(prev, t)))
            && (Plans(ops, Rotate, t) <==> t in after.tags && RotatesTag(before, after, prev, t))
            && (Plans(ops, Attach, t) <==> t in after.tags && AttachesTag(before, after, prev, t))
  {
    hide Dropped, Owed, Stays, Joins, RotatesTag, AttachesTag;
    var dropped, owed := Dropped(before.tags, after.tags), Owed(prev, after.tags);
    var stays := Stays(before, after, flows, prev, after.tags);
    DroppedOps(before.tags, after.tags, t);
    OwedOps(prev, after.tags, t);
    StaysOps(before, after, flows, prev, after.tags, t);
    PlansConcat(dropped + owed, stays, Detach, t);
    PlansConcat(dropped + owed, stays, Rotate, t);
    PlansConcat(dropped + owed, stays, Attach, t);
    PlansConcat(dropped, owed, Detach, t);
    PlansConcat(dropped, owed, Rotate, t);
    PlansConcat(dropped, owed, Attach, t);
  }

  lemma DiffOpsFit(before: Record, after: Record, flows: map<string, string>, prev: seq<Op>)
    ensures Fits(DiffOps(before, after, flows, prev), after)
  {
    var ops := DiffOps(before, after, flows, prev);
    forall i | 0 <= i < |ops|
      ensures ops[i].kind == Detach <==> ops[i].tag !in after.tags
    {
      DiffOpsOnTag(before, after, flows, prev, ops[i].tag);
      assert Plans(ops, ops[i].kind, ops[i].tag);
    }
  }

  lemma FitsOnTag(ops: seq<Op>, rec: Record, t: string)
    requires Fits(ops, rec)
    ensures Leaves(ops, t) ==> t !in rec.tags
    ensures Joins(ops, t) ==> t in rec.tags
    ensures Touches(ops, t) <==> Leaves(ops, t) || Joins(ops, t)
    ensures Plans(ops, Attach, t) || Plans(ops, Rotate, t) <==> Joins(ops, t)
    ensures Plans(ops, Detach, t) <==> Leaves(ops, t)
  {}

  /** An edit over an unfinished change: its plan takes the user from wherever they are to the after record. */
  lemma EditKeeps(live: Live, before: Record, prev: seq<Op>, after: Record, flows: map<string, string>)
    requires Settling(live, before, prev) && NoReattach(prev, after)
    ensures Settling(live, after, DiffOps(before, after, flows, prev))
  {
    hide DiffOps, Plans, Touches, Leaves, Joins, Fits;
    var ops := DiffOps(before, after, flows, prev);
    DiffOpsFit(before, after, flows, prev);
    forall t
      ensures t in live ==> t in after.tags || Touches(ops, t)
      ensures t in after.tags && !Touches(ops, t) ==> t in live && live[t] == after.id
      ensures Plans(ops, Attach, t) && t in live ==> live[t] == after.id
    {
      DiffOpsOnTag(before, after, flows, prev, t);
      FitsOnTag(prev, before, t);
      FitsOnTag(ops, after, t);
      NoReattachOnTag(prev, after, t);
      NothingPlanned(t);
    }
  }

  lemma NothingPlanned(t: string)
    ensures !Touches([], t) && !Leaves([], t) && !Joins([], t)
  {}

  lemma NoReattachOnTag(prev: seq<Op>, after: Record, t: string)
    requires NoReattach(prev, after)
    ensures Leaves(prev, t) ==> t !in after.tags
  {}

  /** With nothing unfinished, the plan of an edit is the difference, and it settles the user. */
  lemma CleanEdit(live: Live, before: Record, after: Record, flows: map<string, string>)
    requires live == Exactly(before)
    ensures PushAll(live, after.id, DiffOps(before, after, flows, [])) == Exactly(after)
  {
    hide DiffOps, Settling;
    SettledIsExact(live, before);
    EditKeeps(live, before, [], after, flows);
    FullRunIsExact(live, after, DiffOps(before, after, flows, []));
  }

  // ----- Chains of edits

  /** One edit and the place its apply stops. */
  datatype Attempt = Attempt(after: Record, flows: map<string, string>, stop: Stop)

  /** A user between edits: what is live, what the row says, and the change that was not finished. */
  datatype Moment = Moment(live: Live, rec: Record, ops: seq<Op>)

  function Tried(m: Moment, a: Attempt): Moment
    requires StopsIn(a.stop, DiffOps(m.rec, a.after, a.flows, m.ops))
  {
    var ops := DiffOps(m.rec, a.after, a.flows, m.ops);
    Moment(PushUntil(m.live, a.after.id, ops, a.stop), a.after, ops)
  }

  /** The chain, if each apply stops where it can and no edit re-attaches an owed tag. */
  function Chain(m: Moment, attempts: seq<Attempt>): Option<Moment> {
    if attempts == [] then Some(m)
    else
      match Chain(m, attempts[..|attempts| - 1])
      case None => None
      case Some(before) =>
        var last := attempts[|attempts| - 1];
        if StopsIn(last.stop, DiffOps(before.rec, last.after, last.flows, before.ops)) && NoReattach(before.ops, last.after)
        then Some(Tried(before, last)) else None
  }

  /** However often the applies of a chain of edits stop, the last plan run to the end leaves exactly the last record. */
  lemma {:induction false} ChainsConverge(m: Moment, attempts: seq<Attempt>)
    requires Settling(m.live, m.rec, m.ops) && Chain(m, attempts).Some?
    ensures var last := Chain(m, attempts).value;
            Settling(last.live, last.rec, last.ops) && PushAll(last.live, last.rec.id, last.ops) == Exactly(last.rec)
  {
    hide Settling, DiffOps, NoReattach, StopsIn, PushUntil, Exactly;
    if attempts != [] {
      var before, a := Chain(m, attempts[..|attempts| - 1]).value, attempts[|attempts| - 1];
      ChainsConverge(m, attempts[..|attempts| - 1]);
      EditKeeps(before.live, before.rec, before.ops, a.after, a.flows);
      StoppingKeeps(before.live, a.after, DiffOps(before.rec, a.after, a.flows, before.ops), a.stop);
    }
    var last := Chain(m, attempts).value;
    FullRunIsExact(last.live, last.rec, last.ops);
  }

  // ----- Re-attaching an owed tag

  /** What every unfinished change may have left: nothing yet of what it touches. */
  function Unstarted(rec: Record, prev: seq<Op>): Live { map x | x in rec.tags && !Touches(prev, x) :: rec.id }

  lemma UnstartedIsPossible(rec: Record, prev: seq<Op>, t: string, held: string)
    requires Fits(prev, rec)
    ensures Settling(Unstarted(rec, prev), rec, prev)
    ensures DistinctTags(prev) && Plans(prev, Rotate, t) ==> Settling(Unstarted(rec, prev)[t := held], rec, prev)
    ensures Leaves(prev, t) ==> Settling(Unstarted(rec, prev)[t := held], rec, prev)
  {
    FitsOnTag(prev, rec, t);
    forall x | Plans(prev, Attach, x)
      ensures Touches(prev, x)
    {}
  }

  /** Some state the unfinished change may have left: the owed tag still holds a credential. */
  function Lagging(before: Record, prev: seq<Op>, t: string, held: string): Live { Unstarted(before, prev)[t := held] }

  lemma LaggingIsPossible(before: Record, prev: seq<Op>, t: string, held: string)
    requires Fits(prev, before) && Leaves(prev, t)
    ensures Settling(Lagging(before, prev, t, held), before, prev)
  {
    FitsOnTag(prev, before, t);
    forall x | Plans(prev, Attach, x)
      ensures Touches(prev, x)
    {}
  }

  /** A plain attach does not replace the credential an owed detach left behind. */
  lemma ReattachIsSwallowed(before: Record, prev: seq<Op>, after: Record, flows: map<string, string>, t: string,
                            held: string)
    requires Fits(prev, before) && Leaves(prev, t) && t in after.tags && held != after.id
    ensures var live := Lagging(before, prev, t, held);
            PushAll(live, after.id, DiffOps(before, after, flows, prev)) != Exactly(after)
  {
    hide DiffOps, Lagging, Joins, Leaves, Plans, Touches;
    var live, ops := Lagging(before, prev, t, held), DiffOps(before, after, flows, prev);
    DiffOpsFit(before, after, flows, prev);
    FitsAreApart(ops, after);
    DiffOpsOnTag(before, after, flows, prev, t);
    FitsOnTag(prev, before, t);
    FitsOnTag(ops, after, t);
    LaggingHolds(before, prev, t, held);
    LeavesNothing(prev, t);
    OwedIsAttached(before, prev, after, t);
    RunOnTag(live, after.id, ops, t);
  }

  lemma OwedIsAttached(before: Record, prev: seq<Op>, after: Record, t: string)
    requires Fits(prev, before) && Leaves(prev, t)
    ensures AttachesTag(before, after, prev, t)
  {
    FitsOnTag(prev, before, t);
  }

  lemma LaggingHolds(before: Record, prev: seq<Op>, t: string, held: string)
    ensures Held(Lagging(before, prev, t, held), t) == Some(held)
  {}

  lemma LeavesNothing(prev: seq<Op>, t: string)
    requires Leaves(prev, t)
    ensures prev != []
  {}

  lemma FitsAreApart(ops: seq<Op>, rec: Record)
    requires Fits(ops, rec)
    ensures Apart(ops)
  {}

  /** The exact condition: an edit settles every state its unfinished change may have left if and only if it re-attaches no owed tag. */
  lemma EditsSettleExactly(before: Record, prev: seq<Op>, after: Record, flows: map<string, string>)
    requires Fits(prev, before)
    ensures (forall live :: Settling(live, before, prev) ==> PushAll(live, after.id, DiffOps(before, after, flows, prev)) == Exactly(after))
            <==> NoReattach(prev, after)
  {
    hide DiffOps, Settling, Fits, Lagging, Exactly;
    if NoReattach(prev, after) {
      forall live: Live | Settling(live, before, prev)
        ensures PushAll(live, after.id, DiffOps(before, after, flows, prev)) == Exactly(after)
      {
        EditKeeps(live, before, prev, after, flows);
        FullRunIsExact(live, after, DiffOps(before, after, flows, prev));
      }
    } else {
      var i :| 0 <= i < |prev| && prev[i].kind == Detach && prev[i].tag in after.tags;
      var t, held := prev[i].tag, after.id + "x";
      assert |held| != |after.id|;
      LaggingIsPossible(before, prev, t, held);
      ReattachIsSwallowed(before, prev, after, flows, t, held);
    }
  }

  // ----- Deletes

  lemma {:induction false} TouchedOf(tags: seq<string>, prev: seq<Op>, t: string)
    ensures t in TouchedTags(tags, prev) <==> t in tags || Touches(prev, t)
  {
    if prev == [] {
      NothingTouched(t);
    } else {
      var init, last := prev[..|prev| - 1], prev[|prev| - 1];
      assert prev == init + [last];
      TouchedOf(tags, init, t);
      PlansSnoc(init, last, Detach, t);
    }
  }

  lemma DetachesOf(tags: seq<string>, t: string)
    ensures Leaves(DetachOps(tags), t) <==> t in tags
    ensures Touches(DetachOps(tags), t) <==> t in tags
    ensures !Joins(DetachOps(tags), t) && !Plans(DetachOps(tags), Attach, t)
  {
    var ops := DetachOps(tags);
    if t in tags {
      var i :| 0 <= i < |tags| && tags[i] == t;
      assert ops[i] == Op(Detach, t, "");
    }
  }

  /** A delete takes the user off every inbound that may hold them. */
  lemma DeleteKeeps(live: Live, rec: Record, prev: seq<Op>, tags: seq<string>)
    requires Settling(live, rec, prev) && forall t :: t in rec.tags ==> t in tags
    ensures Settling(live, Record(rec.id, []), DetachOps(TouchedTags(tags, prev)))
  {
    hide DetachOps, TouchedTags, Touches, Plans;
    var ops := DetachOps(TouchedTags(tags, prev));
    forall t
      ensures t in live ==> Touches(ops, t)
      ensures !Plans(ops, Attach, t)
    {
      TouchedOf(tags, prev, t);
      DetachesOf(TouchedTags(tags, prev), t);
    }
    DetachesFit(TouchedTags(tags, prev), rec.id);
  }

  lemma DetachesFit(tags: seq<string>, id: string)
    ensures Fits(DetachOps(tags), Record(id, []))
  {}

  lemma DetachesOnTag(live: Live, id: string, tags: seq<string>, t: string)
    ensures Held(PushAll(live, id, DetachOps(tags)), t) == if t in tags then None else Held(live, t)
  {
    hide DetachOps, Plans, Leaves, Touches, Joins, PushAll;
    var ops := DetachOps(tags);
    DetachesOf(tags, t);
    DetachesFit(tags, "");
    FitsAreApart(ops, Record("", []));
    FitsOnTag(ops, Record("", []), t);
    RunOnTag(live, id, ops, t);
  }

  /**
   * A delete whose mark fails forgets the unfinished change. The next delete then takes the user off every inbound, from
   * every state that change may have left, if and only if the change named no inbound outside the record.
   */
  lemma FailedDeleteExactly(rec: Record, prev: seq<Op>)
    requires Fits(prev, rec)
    ensures (forall live :: Settling(live, rec, prev) ==> PushAll(live, rec.id, DetachOps(TouchedTags(rec.tags, []))) == map[])
            <==> Within(prev, rec.tags)
  {
    hide DetachOps, PushAll, Lagging, Fits;
    assert TouchedTags(rec.tags, []) == rec.tags;
    if i :| 0 <= i < |prev| && prev[i].tag !in rec.tags {
      var t := prev[i].tag;
      OwedOutside(prev, rec, i);
      var live := Lagging(rec, prev, t, "");
      LaggingIsPossible(rec, prev, t, "");
      LaggingHolds(rec, prev, t, "");
      DetachesOnTag(live, rec.id, rec.tags, t);
    } else {
      forall live: Live | Settling(live, rec, prev)
        ensures PushAll(live, rec.id, DetachOps(rec.tags)) == map[]
      {
        forall t
          ensures Held(PushAll(live, rec.id, DetachOps(rec.tags)), t) == Held(map[], t)
        {
          DetachesOnTag(live, rec.id, rec.tags, t);
        }
        HeldEverywhere(PushAll(live, rec.id, DetachOps(rec.tags)), map[]);
      }
    }
  }

  /** A change dropped by a failed write or a restart leaves every state it may have left as the record wants it only if it was empty. */
  lemma DroppedExactly(rec: Record, prev: seq<Op>)
    requires Fits(prev, rec)
    ensures (forall live :: Settling(live, rec, prev) ==> live == Exactly(rec)) <==> prev == []
  {
    hide Settling, Fits;
    if prev == [] {
      forall live | Settling(live, rec, prev)
        ensures live == Exactly(rec)
      {
        SettledIsExact(live, rec);
      }
    } else {
      var t := prev[0].tag;
      UnstartedIsPossible(rec, prev, t, "");
      OwnKind(prev, 0);
      FitsOnTag(prev, rec, t);
      if prev[0].kind == Detach {
        assert t in Unstarted(rec, prev)[t := ""] && t !in Exactly(rec);
      } else {
        assert t !in Unstarted(rec, prev) && t in Exactly(rec);
      }
    }
  }

  lemma OwedOutside(prev: seq<Op>, rec: Record, i: nat)
    requires Fits(prev, rec) && i < |prev| && prev[i].tag !in rec.tags
    ensures Leaves(prev, prev[i].tag)
  {}

  // ----- Disables and enables

  lemma {:induction false} JoinedOf(tags: seq<string>, prev: seq<Op>, t: string)
    ensures t in JoinedTags(tags, prev) <==> t in tags || Joins(prev, t)
    ensures NoRepeats(tags) ==> NoRepeats(JoinedTags(tags, prev))
  {
    hide Joins, Plans, Leaves;
    if prev == [] {
      NothingPlanned(t);
    } else {
      var init, last := prev[..|prev| - 1], prev[|prev| - 1];
      assert prev == init + [last];
      JoinedOf(tags, init, t);
      JoinsSnoc(init, last);
    }
  }

  /** Every tag of the change is one of these. */
  predicate Within(ops: seq<Op>, tags: seq<string>) { forall i :: 0 <= i < |ops| ==> ops[i].tag in tags }

  lemma DisableKeeps(live: Live, rec: Record, prev: seq<Op>)
    requires Settling(live, rec, prev) && Within(prev, rec.tags)
    ensures Settling(live, Record(rec.id, []), DetachOps(JoinedTags(rec.tags, prev)))
  {
    hide DetachOps, JoinedTags, Joins;
    var joined := JoinedTags(rec.tags, prev);
    forall t
      ensures t in live ==> Touches(DetachOps(joined), t)
      ensures !Plans(DetachOps(joined), Attach, t)
    {
      JoinedOf(rec.tags, prev, t);
      DetachesOf(joined, t);
    }
    DetachesFit(joined, rec.id);
  }

  lemma DisableCovers(tags: seq<string>, prev: seq<Op>, older: seq<Op>)
    requires Within(prev, tags) && forall i :: 0 <= i < |older| ==> Touches(prev, older[i].tag)
    ensures Covers(DetachOps(JoinedTags(tags, prev)), older)
  {
    hide DetachOps, JoinedTags, Joins;
    forall i | 0 <= i < |older|
      ensures var ops := DetachOps(JoinedTags(tags, prev));
              Leaves(ops, older[i].tag) && Touches(ops, older[i].tag) && !Plans(ops, Attach, older[i].tag)
    {
      JoinedOf(tags, prev, older[i].tag);
      DetachesOf(JoinedTags(tags, prev), older[i].tag);
    }
  }

  /**
   * A disable takes the user off every inbound, from every state the change it replaces may have left, if and only if that
   * change owed no detach outside the record.
   */
  lemma DisableExactly(rec: Record, prev: seq<Op>)
    requires Fits(prev, rec)
    ensures (forall live :: Settling(live, rec, prev) ==> PushAll(live, rec.id, DetachOps(JoinedTags(rec.tags, prev))) == map[])
            <==> Within(prev, rec.tags)
  {
    hide DetachOps, PushAll, Lagging, Fits, Settling, JoinedTags, Joins, Exactly;
    var joined := JoinedTags(rec.tags, prev);
    if i :| 0 <= i < |prev| && prev[i].tag !in rec.tags {
      var t := prev[i].tag;
      OwedOutside(prev, rec, i);
      FitsOnTag(prev, rec, t);
      JoinedOf(rec.tags, prev, t);
      var live := Lagging(rec, prev, t, "");
      LaggingIsPossible(rec, prev, t, "");
      LaggingHolds(rec, prev, t, "");
      DetachesOnTag(live, rec.id, joined, t);
    } else {
      forall live: Live | Settling(live, rec, prev)
        ensures PushAll(live, rec.id, DetachOps(joined)) == map[]
      {
        DisableKeeps(live, rec, prev);
        FullRunIsExact(live, Record(rec.id, []), DetachOps(joined));
        NothingExactly(rec.id);
      }
    }
  }

  lemma NothingExactly(id: string)
    ensures Exactly(Record(id, [])) == map[]
  {}

  /**
   * An enable, or an add of a disabled user, leaves the record, from every state the disable's change may have left, if and
   * only if that change is settled.
   */
  lemma EnableExactly(was: string, rec: Record, prev: seq<Op>, flows: map<string, string>)
    requires Fits(prev, Record(was, []))
    ensures (forall live :: Settling(live, Record(was, []), prev) ==> PushAll(live, rec.id, AttachOps(rec.tags, flows)) == Exactly(rec))
            <==> prev == []
  {
    hide AttachOps, PushAll, Lagging, Fits, Settling, Exactly;
    var off := Record(was, []);
    NothingExactly(was);
    if prev == [] {
      forall live: Live | Settling(live, off, prev)
        ensures PushAll(live, rec.id, AttachOps(rec.tags, flows)) == Exactly(rec)
      {
        SettledIsExact(live, off);
        AddKeeps(rec, flows);
        FullRunIsExact(live, rec, AttachOps(rec.tags, flows));
      }
    } else {
      var t, held := prev[0].tag, rec.id + "x";
      assert |held| != |rec.id|;
      OwedOutside(prev, off, 0);
      var live := Lagging(off, prev, t, held);
      LaggingIsPossible(off, prev, t, held);
      LaggingHolds(off, prev, t, held);
      AttachesOnTag(live, rec.id, rec.tags, flows, t);
      assert Held(Exactly(rec), t) != Some(held) by { ExactlyHolds(rec, t); }
    }
  }

  lemma ExactlyHolds(rec: Record, t: string)
    ensures Held(Exactly(rec), t) == if t in rec.tags then Some(rec.id) else None
  {}

  lemma AttachesOf(tags: seq<string>, flows: map<string, string>, t: string)
    ensures Plans(AttachOps(tags, flows), Attach, t) <==> t in tags
    ensures !Plans(AttachOps(tags, flows), Rotate, t) && !Leaves(AttachOps(tags, flows), t)
    ensures Apart(AttachOps(tags, flows))
  {
    var ops := AttachOps(tags, flows);
    if t in tags {
      var i :| 0 <= i < |tags| && tags[i] == t;
      assert ops[i].tag == t;
    }
  }

  /** An inbound that holds a credential keeps it, another of the tags gets this one. */
  lemma AttachesOnTag(live: Live, id: string, tags: seq<string>, flows: map<string, string>, t: string)
    ensures Held(PushAll(live, id, AttachOps(tags, flows)), t) ==
            if t in live then Some(live[t]) else if t in tags then Some(id) else None
  {
    hide AttachOps, Plans, Leaves, PushAll, Apart;
    AttachesOf(tags, flows, t);
    RunOnTag(live, id, AttachOps(tags, flows), t);
  }

  // ----- A first add

  lemma AddKeeps(rec: Record, flows: map<string, string>)
    ensures Settling(map[], rec, AttachOps(rec.tags, flows))
  {
    var ops := AttachOps(rec.tags, flows);
    forall t | t in rec.tags
      ensures Touches(ops, t)
    {
      var i :| 0 <= i < |rec.tags| && rec.tags[i] == t;
      assert ops[i].tag == t;
    }
  }

  // ----- Operations of a change that was replaced while a pass was pushing it

  /** The newer change undoes whatever the older one may still push. */
  predicate Covers(ops: seq<Op>, older: seq<Op>) {
    forall i :: 0 <= i < |older| ==>
                  if older[i].kind == Detach then Leaves(ops, older[i].tag)
                  else Touches(ops, older[i].tag) && !Plans(ops, Attach, older[i].tag)
  }

  lemma CoversOnTag(ops: seq<Op>, older: seq<Op>, i: nat)
    requires Covers(ops, older) && i < |older|
    ensures Touches(ops, older[i].tag)
    ensures older[i].kind == Detach ==> Leaves(ops, older[i].tag)
    ensures older[i].kind != Detach ==> !Plans(ops, Attach, older[i].tag)
  {}

  lemma OlderPushKeeps(live: Live, rec: Record, ops: seq<Op>, older: seq<Op>, oldId: string, i: nat)
    requires Settling(live, rec, ops) && Covers(ops, older) && i < |older|
    ensures Settling(Push(live, oldId, older[i]), rec, ops)
    ensures Settling(RemoveUser(live, older[i].tag), rec, ops)
  {
    CoversOnTag(ops, older, i);
    FitsOnTag(ops, rec, older[i].tag);
  }

  lemma {:induction false} OlderRunKeeps(live: Live, rec: Record, ops: seq<Op>, older: seq<Op>, oldId: string, n: nat)
    requires Settling(live, rec, ops) && Covers(ops, older) && n <= |older|
    ensures Settling(PushAll(live, oldId, older[..n]), rec, ops)
  {
    hide Settling, Covers, Push;
    if n > 0 {
      assert older[..n][..n - 1] == older[..n - 1] && older[..n][n - 1] == older[n - 1];
      OlderRunKeeps(live, rec, ops, older, oldId, n - 1);
      OlderPushKeeps(PushAll(live, oldId, older[..n - 1]), rec, ops, older, oldId, n - 1);
    }
  }

  /** The plan of an edit covers the change it replaced. */
  lemma EditCovers(before: Record, prev: seq<Op>, after: Record, flows: map<string, string>)
    requires Fits(prev, before) && NoReattach(prev, after)
    ensures Covers(DiffOps(before, after, flows, prev), prev)
  {
    hide DiffOps, Plans, Touches, Leaves, Joins, Fits;
    var ops := DiffOps(before, after, flows, prev);
    DiffOpsFit(before, after, flows, prev);
    forall i | 0 <= i < |prev|
      ensures if prev[i].kind == Detach then Leaves(ops, prev[i].tag)
              else Touches(ops, prev[i].tag) && !Plans(ops, Attach, prev[i].tag)
    {
      var t := prev[i].tag;
      DiffOpsOnTag(before, after, flows, prev, t);
      FitsOnTag(prev, before, t);
      FitsOnTag(ops, after, t);
      NoReattachOnTag(prev, after, t);
      OwnKind(prev, i);
    }
  }

  lemma OwnKind(ops: seq<Op>, i: nat)
    requires i < |ops|
    ensures Plans(ops, ops[i].kind, ops[i].tag) && Touches(ops, ops[i].tag)
    ensures if ops[i].kind == Detach then Leaves(ops, ops[i].tag) else Joins(ops, ops[i].tag)
  {}

  /** And whatever that one covered. */
  lemma EditCoversOlder(before: Record, prev: seq<Op>, after: Record, flows: map<string, string>, older: seq<Op>)
    requires Fits(prev, before) && NoReattach(prev, after) && Covers(prev, older)
    ensures Covers(DiffOps(before, after, flows, prev), older)
  {
    hide DiffOps, Plans, Touches, Leaves, Joins, Fits;
    var ops := DiffOps(before, after, flows, prev);
    DiffOpsFit(before, after, flows, prev);
    forall i | 0 <= i < |older|
      ensures if older[i].kind == Detach then Leaves(ops, older[i].tag)
              else Touches(ops, older[i].tag) && !Plans(ops, Attach, older[i].tag)
    {
      var t := older[i].tag;
      CoversOnTag(prev, older, i);
      DiffOpsOnTag(before, after, flows, prev, t);
      FitsOnTag(prev, before, t);
      FitsOnTag(ops, after, t);
      NoReattachOnTag(prev, after, t);
    }
  }

  lemma DeleteCovers(tags: seq<string>, prev: seq<Op>, older: seq<Op>)
    requires forall i :: 0 <= i < |older| ==> Touches(prev, older[i].tag)
    ensures Covers(DetachOps(TouchedTags(tags, prev)), older)
  {
    hide DetachOps, TouchedTags, Touches, Leaves, Plans, Joins;
    forall i | 0 <= i < |older|
      ensures var ops := DetachOps(TouchedTags(tags, prev));
              Leaves(ops, older[i].tag) && Touches(ops, older[i].tag) && !Plans(ops, Attach, older[i].tag)
    {
      TouchedOf(tags, prev, older[i].tag);
      DetachesOf(TouchedTags(tags, prev), older[i].tag);
    }
  }

  // ----- One request for an inbound

  predicate DistinctTags(ops: seq<Op>) { forall i, j :: 0 <= i < j < |ops| ==> ops[i].tag != ops[j].tag }

  lemma {:induction false} DroppedDistinct(tags: seq<string>, kept: seq<string>)
    requires NoRepeats(tags)
    ensures DistinctTags(Dropped(tags, kept)) && forall i :: 0 <= i < |Dropped(tags, kept)| ==> Dropped(tags, kept)[i].tag in tags
  {
    if tags != [] {
      DroppedDistinct(tags[..|tags| - 1], kept);
      assert tags == tags[..|tags| - 1] + [tags[|tags| - 1]];
    }
  }

  lemma {:induction false} OwedDistinct(prev: seq<Op>, kept: seq<string>)
    requires DistinctTags(prev)
    ensures DistinctTags(Owed(prev, kept))
    ensures forall i :: 0 <= i < |Owed(prev, kept)| ==> exists j :: 0 <= j < |prev| && prev[j].tag == Owed(prev, kept)[i].tag && prev[j].kind == Detach
  {
    if prev != [] {
      var init := prev[..|prev| - 1];
      OwedDistinct(init, kept);
      var ops := Owed(prev, kept);
      forall i | 0 <= i < |ops|
        ensures exists j :: 0 <= j < |prev| && prev[j].tag == ops[i].tag && prev[j].kind == Detach
      {
        if i < |Owed(init, kept)| {
          var j :| 0 <= j < |init| && init[j].tag == Owed(init, kept)[i].tag && init[j].kind == Detach;
          assert prev[j] == init[j];
        } else {
          assert prev[|prev| - 1].tag == ops[i].tag;
        }
      }
    }
  }

  /** An edit has something to do about the tag. */
  predicate Due(before: Record, after: Record, prev: seq<Op>,
                t: string) { t !in before.tags || before.id != after.id || prev != [] }

  /** The tags named more than once are none it has something to do about. */
  predicate DueOnce(before: Record, after: Record, prev: seq<Op>, tags: seq<string>) {
    forall i, j :: 0 <= i < j < |tags| && tags[i] == tags[j] ==> !Due(before, after, prev, tags[i])
  }

  lemma StayIsDue(before: Record, after: Record, flows: map<string, string>, prev: seq<Op>, t: string)
    ensures var ops := Stay(before, after, flows, prev, t);
            if Due(before, after, prev, t) then |ops| == 1 && ops[0].tag == t else ops == []
  {}

  lemma {:induction false} StaysDistinctExactly(before: Record, after: Record, flows: map<string, string>,
                                                prev: seq<Op>,
                                                tags: seq<string>)
    ensures var ops := Stays(before, after, flows, prev, tags);
            && (DistinctTags(ops) <==> DueOnce(before, after, prev, tags))
            && (forall i :: 0 <= i < |ops| ==> ops[i].tag in tags)
            && (forall t :: t in tags && Due(before, after, prev, t) ==> Touches(ops, t))
  {
    hide Stay, Due, Touches, DistinctTags;
    if tags == [] {
      assert DistinctTags([]) by { NothingDistinct(); }
    } else {
      var init, last := tags[..|tags| - 1], tags[|tags| - 1];
      assert tags == init + [last];
      var ops, one := Stays(before, after, flows, prev, init), Stay(before, after, flows, prev, last);
      StaysDistinctExactly(before, after, flows, prev, init);
      StayIsDue(before, after, flows, prev, last);
      DueOnceSnoc(before, after, prev, init, last);
      if one == [] {
        assert ops + one == ops;
      } else {
        assert one == [one[0]];
        DistinctSnoc(ops, one[0]);
        forall t
          ensures Touches(ops + one, t) <==> Touches(ops, t) || last == t
        {
          PlansSnoc(ops, one[0], Attach, t);
        }
        TouchedIn(ops, last, init);
      }
    }
  }

  lemma NothingDistinct()
    ensures DistinctTags([])
  {}

  lemma TouchedIn(ops: seq<Op>, t: string, tags: seq<string>)
    requires forall i :: 0 <= i < |ops| ==> ops[i].tag in tags
    ensures Touches(ops, t) ==> t in tags
  {}

  lemma DueOnceSnoc(before: Record, after: Record, prev: seq<Op>, init: seq<string>, last: string)
    ensures DueOnce(before, after, prev, init + [last]) <==>
            DueOnce(before, after, prev, init) && (Due(before, after, prev, last) ==> last !in init)
  {
    hide Due;
    var tags := init + [last];
    if DueOnce(before, after, prev, tags) {
      forall i, j | 0 <= i < j < |init| && init[i] == init[j]
        ensures !Due(before, after, prev, init[i])
      {
        assert tags[i] == tags[j];
      }
      if i :| 0 <= i < |init| && init[i] == last {
        assert tags[i] == tags[|init|];
      }
    }
  }

  lemma DistinctSnoc(ops: seq<Op>, op: Op)
    ensures DistinctTags(ops + [op]) <==> DistinctTags(ops) && !Touches(ops, op.tag)
  {
    var all := ops + [op];
    if DistinctTags(all) {
      forall i, j | 0 <= i < j < |ops|
        ensures ops[i].tag != ops[j].tag
      {
        assert all[i].tag != all[j].tag;
      }
      forall i | 0 <= i < |ops|
        ensures ops[i].tag != op.tag
      {
        assert all[i].tag != all[|ops|].tag;
      }
    }
  }

  lemma DistinctParts(a: seq<Op>, b: seq<Op>)
    requires DistinctTags(a + b)
    ensures DistinctTags(b)
  {
    forall i, j | 0 <= i < j < |b|
      ensures b[i].tag != b[j].tag
    {
      assert (a + b)[|a| + i].tag != (a + b)[|a| + j].tag;
    }
  }

  lemma DistinctConcat(a: seq<Op>, b: seq<Op>)
    requires DistinctTags(a) && DistinctTags(b)
    requires forall i, j :: 0 <= i < |a| && 0 <= j < |b| ==> a[i].tag != b[j].tag
    ensures DistinctTags(a + b)
  {}

  /** An edit plans at most one operation per inbound if and only if the selection repeats no inbound it has something to do about. */
  lemma EditPlansOnceExactly(before: Record, prev: seq<Op>, after: Record, flows: map<string, string>)
    requires Fits(prev, before) && DistinctTags(prev) && NoRepeats(before.tags)
    ensures DistinctTags(DiffOps(before, after, flows, prev)) <==> DueOnce(before, after, prev, after.tags)
  {
    hide Dropped, Owed, Stays, Due;
    var dropped, owed := Dropped(before.tags, after.tags), Owed(prev, after.tags);
    var stays := Stays(before, after, flows, prev, after.tags);
    DroppedDistinct(before.tags, after.tags);
    OwedDistinct(prev, after.tags);
    StaysDistinctExactly(before, after, flows, prev, after.tags);
    DroppedOps(before.tags, after.tags, "");
    OwedOps(prev, after.tags, "");
    DistinctConcat(dropped, owed);
    if DistinctTags(stays) {
      DistinctConcat(dropped + owed, stays);
    } else if DistinctTags(dropped + owed + stays) {
      DistinctParts(dropped + owed, stays);
    }
  }

  lemma {:induction false} TouchedDistinct(tags: seq<string>, prev: seq<Op>)
    requires NoRepeats(tags)
    ensures NoRepeats(TouchedTags(tags, prev)) && DistinctTags(DetachOps(TouchedTags(tags, prev)))
  {
    if prev != [] {
      TouchedDistinct(tags, prev[..|prev| - 1]);
    }
  }
}
