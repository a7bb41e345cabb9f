/** The flow a user joins an inbound with: resolved when the operation is planned, and carried into the file's plan. */
module RosterFlows {
  import opened RosterFile
  import opened RosterMachine
  import opened RosterPlan
  import O = RenderOrder
  import P = RenderPlanner

  /** Every operation that puts the user on an inbound has the flow the configuration gives that inbound. */
  predicate Carries(ops: seq<Op>, flows: map<string, string>) {
    forall i :: 0 <= i < |ops| && ops[i].kind != Detach ==> ops[i].flow == if ops[i].tag in flows then flows[ops[i].tag] else ""
  }

  lemma CarriesConcat(a: seq<Op>, b: seq<Op>, flows: map<string, string>)
    requires Carries(a, flows) && Carries(b, flows)
    ensures Carries(a + b, flows)
  {}

  lemma {:induction false} DroppedCarries(tags: seq<string>, kept: seq<string>, flows: map<string, string>)
    ensures Carries(Dropped(tags, kept), flows)
  {
    if tags != [] {
      DroppedCarries(tags[..|tags| - 1], kept, flows);
    }
  }

  lemma {:induction false} OwedCarries(prev: seq<Op>, kept: seq<string>, flows: map<string, string>)
    ensures Carries(Owed(prev, kept), flows)
  {
    if prev != [] {
      OwedCarries(prev[..|prev| - 1], kept, flows);
    }
  }

  lemma {:induction false} StaysCarry(before: Record, after: Record, flows: map<string, string>, prev: seq<Op>, tags: seq<string>)
    ensures Carries(Stays(before, after, flows, prev, tags), flows)
  {
    hide Joins;
    if tags != [] {
      StaysCarry(before, after, flows, prev, tags[..|tags| - 1]);
      CarriesConcat(Stays(before, after, flows, prev, tags[..|tags| - 1]), Stay(before, after, flows, prev, tags[|tags| - 1]), flows);
    }
  }

  /** So it is in every plan: of an edit, and of an add, an enable or a convergence. */
  lemma PlansCarry(before: Record, after: Record, flows: map<string, string>, prev: seq<Op>, tags: seq<string>)
    ensures Carries(DiffOps(before, after, flows, prev), flows) && Carries(AttachOps(tags, flows), flows)
    ensures |AttachOps(tags, flows)| == |tags|
    ensures forall i :: 0 <= i < |tags| ==> AttachOps(tags, flows)[i].kind == Attach && AttachOps(tags, flows)[i].tag == tags[i]
    ensures |DetachOps(tags)| == |tags|
    ensures forall i :: 0 <= i < |tags| ==> DetachOps(tags)[i].kind == Detach && DetachOps(tags)[i].tag == tags[i]
  {
    hide Carries, Dropped, Owed, Stays;
    DroppedCarries(before.tags, after.tags, flows);
    OwedCarries(prev, after.tags, flows);
    StaysCarry(before, after, flows, prev, after.tags);
    CarriesConcat(Dropped(before.tags, after.tags), Owed(prev, after.tags), flows);
    CarriesConcat(Dropped(before.tags, after.tags) + Owed(prev, after.tags), Stays(before, after, flows, prev, after.tags), flows);
    AttachesCarry(tags, flows);
  }

  lemma AttachesCarry(tags: seq<string>, flows: map<string, string>)
    ensures Carries(AttachOps(tags, flows), flows)
  {}

  // ----- Into the plan of a pass

  /** Some queued change asks this of the inbound: its user, its Client ID, the operation's flow. */
  predicate Asked(snap: map<string, Change>, kind: Kind, tag: string, request: P.ClientOp) {
    && request.email in snap && request.id == snap[request.email].id
    && exists i :: 0 <= i < |snap[request.email].ops| && snap[request.email].ops[i] == Op(kind, tag, request.flow)
  }

  lemma {:induction false} RequestsAre(email: string, id: string, ops: seq<Op>, kind: Kind, tag: string, request: P.ClientOp)
    ensures request in Requests(email, id, ops, kind, tag) <==>
            request.email == email && request.id == id && exists i :: 0 <= i < |ops| && ops[i] == Op(kind, tag, request.flow)
  {
    if ops != [] {
      var init, last := ops[..|ops| - 1], ops[|ops| - 1];
      assert ops == init + [last];
      RequestsAre(email, id, init, kind, tag, request);
      if i :| 0 <= i < |ops| && ops[i] == Op(kind, tag, request.flow) {
        assert i < |init| ==> init[i] == ops[i];
      }
      if i :| 0 <= i < |init| && init[i] == Op(kind, tag, request.flow) {
        assert ops[i] == init[i];
      }
      if last == Op(kind, tag, request.flow) {
        assert ops[|init|] == last;
      }
    }
  }

  lemma {:induction false} CollectedAre(emails: seq<string>, snap: map<string, Change>, kind: Kind, tag: string, request: P.ClientOp)
    requires forall e :: e in emails ==> e in snap
    ensures request in Collected(emails, snap, kind, tag) <==> request.email in emails && Asked(snap, kind, tag, request)
  {
    hide Requests;
    if emails != [] {
      var init, last := emails[..|emails| - 1], emails[|emails| - 1];
      assert emails == init + [last];
      CollectedAre(init, snap, kind, tag, request);
      RequestsAre(last, snap[last].id, snap[last].ops, kind, tag, request);
    }
  }

  /** The plan of a pass asks of each inbound what the queued changes ask of it, and nothing else. */
  lemma PlanAsksExactly(plan: P.RenderPlan, emails: seq<string>, snap: map<string, Change>, tag: string, request: P.ClientOp)
    requires (forall e :: e in emails <==> e in snap) && PlanOf(plan, emails, snap)
    ensures request in plan.Adds(tag) <==> Asked(snap, Attach, tag, request)
    ensures request in plan.Sets(tag) <==> Asked(snap, Rotate, tag, request)
    ensures request.email in plan.Removes(tag) <==>
            request.email in snap && exists i :: 0 <= i < |snap[request.email].ops|
                                       && snap[request.email].ops[i].kind == Detach && snap[request.email].ops[i].tag == tag
  {
    hide Collected, P.RenderPlan.Adds, P.RenderPlan.Removes, P.RenderPlan.Sets, O.EmailsOf;
    CollectedAre(emails, snap, Attach, tag, request);
    CollectedAre(emails, snap, Rotate, tag, request);
    DetachedAre(emails, snap, tag, request.email);
  }

  lemma DetachedAre(emails: seq<string>, snap: map<string, Change>, tag: string, email: string)
    requires forall e :: e in emails <==> e in snap
    ensures email in O.EmailsOf(Collected(emails, snap, Detach, tag)) <==>
            email in snap && exists i :: 0 <= i < |snap[email].ops| && snap[email].ops[i].kind == Detach && snap[email].ops[i].tag == tag
  {
    hide Collected;
    var asked := Collected(emails, snap, Detach, tag);
    if email in O.EmailsOf(asked) {
      var k :| 0 <= k < |asked| && asked[k].email == email;
      CollectedAre(emails, snap, Detach, tag, asked[k]);
    }
    if email in snap {
      if i :| 0 <= i < |snap[email].ops| && snap[email].ops[i].kind == Detach && snap[email].ops[i].tag == tag {
        var request := P.ClientOp(email, snap[email].id, snap[email].ops[i].flow);
        CollectedAre(emails, snap, Detach, tag, request);
        var k :| 0 <= k < |asked| && asked[k] == request;
        assert O.EmailsOf(asked)[k] == email;
      }
    }
  }
}
