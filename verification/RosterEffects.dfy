/** What each mutation leaves in the row and in the queue, field by field. */
module RosterEffects {
  import opened Options
  import opened RosterMachine
  import opened RosterPlan
  import opened Sequences
  import U = UserStore

  /** One operation of a kind for each tag, in order, with the flow the configuration gives the tag. */
  predicate OneFor(ops: seq<Op>, kind: Kind, tags: seq<string>, flows: map<string, string>) {
    && |ops| == |tags|
    && forall i :: 0 <= i < |tags| ==> ops[i] == Op(kind, tags[i], if kind != Detach && tags[i] in flows then flows[tags[i]] else "")
  }

  /** A change newer than any before is queued for the user, who carries no mark; nobody else's change or mark moves. */
  ghost predicate QueuedFor(before: Desk, after: Desk, email: string, id: string, ops: seq<Op>, purge: bool) {
    && after.nextGen == before.nextGen + 1
    && (forall e :: e in after.pending <==> e in before.pending || e == email)
    && (forall e :: e in before.pending && e != email ==> after.pending[e] == before.pending[e])
    && after.pending[email] == Change(id, ops, after.nextGen, purge)
    && forall e :: e in after.failed <==> e in before.failed && e != email
  }

  /** The user's change leaves the queue, or there was none; everything else of the queue stays. */
  ghost predicate TakenFrom(before: Desk, after: Desk, email: string) {
    && after.nextGen == before.nextGen && after.failed == before.failed
    && (forall e :: e in after.pending <==> e in before.pending && e != email)
    && forall e :: e in after.pending ==> after.pending[e] == before.pending[e]
  }

  predicate SameQueue(before: Desk, after: Desk) {
    after.nextGen == before.nextGen && after.failed == before.failed && after.pending == before.pending
  }

  /** Some operation is about the tag; one that puts the user there, if only those count. */
  predicate About(ops: seq<Op>, tag: string, joining: bool) {
    exists i :: 0 <= i < |ops| && ops[i].tag == tag && (joining ==> ops[i].kind != Detach)
  }

  /** The record's tags, and behind them those the operations are about. */
  ghost predicate TagsWith(tags: seq<string>, own: seq<string>, prev: seq<Op>, joining: bool) {
    && own <= tags && (forall t :: t in tags <==> t in own || About(prev, t, joining))
    && (NoRepeats(own) ==> NoRepeats(tags))
  }

  lemma AboutLast(init: seq<Op>, last: Op, tag: string, joining: bool)
    ensures About(init + [last], tag, joining) <==> About(init, tag, joining) || (last.tag == tag && (joining ==> last.kind != Detach))
  {
    var all := init + [last];
    if i :| 0 <= i < |all| && all[i].tag == tag && (joining ==> all[i].kind != Detach) {
      assert i < |init| ==> init[i] == all[i];
    }
    if i :| 0 <= i < |init| && init[i].tag == tag && (joining ==> init[i].kind != Detach) {
      assert all[i] == init[i];
    }
    assert all[|init|] == last;
  }

  lemma AttachesAre(tags: seq<string>, flows: map<string, string>)
    ensures OneFor(AttachOps(tags, flows), Attach, tags, flows) && OneFor(DetachOps(tags), Detach, tags, flows)
    ensures AttachOps(tags, flows) == [] <==> tags == []
    ensures DetachOps(tags) == [] <==> tags == []
  {}

  /** An add attaches every selected inbound; without any, nothing is queued and what was stays. */
  lemma AddEffects(desk: Desk, email: string, id: string, tags: seq<string>, x: Context)
    ensures var after := AddTo(desk, email, id, tags, x);
            && after.tables == U.Added(desk.tables, email, id, tags, x.labels, x.now)
            && if tags == [] then SameQueue(desk, after)
               else exists ops :: OneFor(ops, Attach, tags, x.flows) && QueuedFor(desk, after, email, id, ops, false)
  {
    hide AttachOps, U.Added;
    AttachesAre(tags, x.flows);
    if tags != [] {
      assert QueuedFor(desk, AddTo(desk, email, id, tags, x), email, id, AttachOps(tags, x.flows), false);
    }
  }

  /** An edit's plan takes the place of what was queued; an empty plan leaves nothing queued. */
  lemma EditEffects(desk: Desk, email: string, held: seq<string>, newId: Option<string>, tags: seq<string>, x: Context)
    requires email in desk.tables.roster
    ensures var after := EditFrom(desk, email, held, newId, tags, x);
            var stored := desk.tables.roster[email].clientId;
            var id := if newId.Some? then newId.value else stored;
            var prev := if email in desk.pending then desk.pending[email].ops else [];
            var ops := DiffOps(Record(stored, held), Record(id, tags), x.flows, prev);
            && after.tables == U.Edited(desk.tables, email, id, tags, x.labels, x.now)
            && if ops == [] then TakenFrom(desk, after, email) else QueuedFor(desk, after, email, id, ops, false)
  {
    hide DiffOps, U.Edited;
  }

  /** A delete detaches the record's tags and every tag of what was queued, each once, and purges behind that; a failed write only forgets. */
  lemma DeleteEffects(desk: Desk, email: string, now: int, commits: bool)
    requires email in desk.tables.roster
    ensures var after, row := DeleteFrom(desk, email, now, commits), desk.tables.roster[email];
            var prev := if email in desk.pending then desk.pending[email].ops else [];
            if !commits then after.tables == desk.tables && TakenFrom(desk, after, email)
            else
              && after.tables == U.MarkedDeleting(desk.tables, email, now)
              && exists tags :: TagsWith(tags, row.inbounds, prev, false)
                   && exists ops :: OneFor(ops, Detach, tags, map[]) && QueuedFor(desk, after, email, row.clientId, ops, true)
  {
    hide DetachOps, TouchedTags, U.MarkedDeleting, OneFor, QueuedFor, TagsWith;
    var row, prev := desk.tables.roster[email], PendingOps(desk, email);
    var tags := TouchedTags(row.inbounds, prev);
    TouchedAre(row.inbounds, prev);
    AttachesAre(tags, map[]);
    if commits {
      QueuedNow(Taken(desk, email).(tables := U.MarkedDeleting(desk.tables, email, now)), email, row.clientId, DetachOps(tags), true);
      QueuedOver(desk, Taken(desk, email).(tables := U.MarkedDeleting(desk.tables, email, now)), DeleteFrom(desk, email, now, commits),
                 email, row.clientId, DetachOps(tags), true);
    }
  }

  lemma QueuedNow(desk: Desk, email: string, id: string, ops: seq<Op>, purge: bool)
    ensures QueuedFor(desk, Enqueued(desk, email, id, ops, purge), email, id, ops, purge)
  {}

  lemma QueuedOver(before: Desk, taken: Desk, after: Desk, email: string, id: string, ops: seq<Op>, purge: bool)
    requires taken.pending == before.pending - {email} && taken.failed == before.failed && taken.nextGen == before.nextGen
    requires QueuedFor(taken, after, email, id, ops, purge)
    ensures QueuedFor(before, after, email, id, ops, purge)
  {}

  lemma {:induction false} TouchedAre(tags: seq<string>, prev: seq<Op>)
    ensures TagsWith(TouchedTags(tags, prev), tags, prev, false)
  {
    hide About;
    if prev == [] {
      AboutNothing();
    } else {
      var init, last := prev[..|prev| - 1], prev[|prev| - 1];
      assert prev == init + [last];
      TouchedAre(tags, init);
      forall t
        ensures About(prev, t, false) <==> About(init, t, false) || last.tag == t
      {
        AboutLast(init, last, t, false);
      }
      var before := TouchedTags(tags, init);
      if last.tag !in before && NoRepeats(tags) {
        NoRepeatsSnoc(before, last.tag);
      }
    }
  }

  lemma AboutNothing()
    ensures forall t, joining :: !About([], t, joining)
  {}

  lemma {:induction false} JoiningAre(tags: seq<string>, prev: seq<Op>)
    ensures TagsWith(JoinedTags(tags, prev), tags, prev, true)
  {
    hide About;
    if prev == [] {
      AboutNothing();
    } else {
      var init, last := prev[..|prev| - 1], prev[|prev| - 1];
      assert prev == init + [last];
      JoiningAre(tags, init);
      forall t
        ensures About(prev, t, true) <==> About(init, t, true) || (last.tag == t && last.kind != Detach)
      {
        AboutLast(init, last, t, true);
      }
      var before := JoinedTags(tags, init);
      if last.tag !in before && NoRepeats(tags) {
        NoRepeatsSnoc(before, last.tag);
      }
    }
  }

  /** A disable detaches the record's tags and those the queued change was joining. */
  lemma DisableEffects(desk: Desk, email: string, now: int, commits: bool)
    requires email in desk.tables.roster
    ensures var after, row := DisableIn(desk, email, now, commits), desk.tables.roster[email];
            var prev := if email in desk.pending then desk.pending[email].ops else [];
            if !commits then after.tables == desk.tables && TakenFrom(desk, after, email)
            else
              && after.tables == U.Disabled(desk.tables, email, now)
              && exists tags :: TagsWith(tags, row.inbounds, prev, true)
                   && if tags == [] then TakenFrom(desk, after, email)
                      else exists ops :: OneFor(ops, Detach, tags, map[]) && QueuedFor(desk, after, email, row.clientId, ops, false)
  {
    hide DetachOps, JoinedTags, U.Disabled, OneFor, QueuedFor, TagsWith;
    var row, prev := desk.tables.roster[email], PendingOps(desk, email);
    var tags := JoinedTags(row.inbounds, prev);
    JoiningAre(row.inbounds, prev);
    AttachesAre(tags, map[]);
    if commits && tags != [] {
      QueuedNow(Taken(desk, email).(tables := U.Disabled(desk.tables, email, now)), email, row.clientId, DetachOps(tags), false);
      QueuedOver(desk, Taken(desk, email).(tables := U.Disabled(desk.tables, email, now)), DisableIn(desk, email, now, commits),
                 email, row.clientId, DetachOps(tags), false);
    }
  }

  /** An enable attaches the kept attachments; pruned ones are written off first, and a failing write of that stops it there. */
  lemma EnableEffects(desk: Desk, email: string, kept: seq<string>, x: Context, relabels: bool)
    requires email in desk.tables.roster
    ensures var after, row := EnableFrom(desk, email, kept, x, relabels), desk.tables.roster[email];
            var enabled := U.Enabled(desk.tables, email, x.now);
            if kept != row.inbounds && !relabels then after.tables == enabled && SameQueue(desk, after)
            else
              && after.tables == (if kept == row.inbounds then enabled else U.Edited(enabled, email, row.clientId, kept, x.labels, x.now))
              && if kept == [] then SameQueue(desk, after)
                 else exists ops :: OneFor(ops, Attach, kept, x.flows) && QueuedFor(desk, after, email, row.clientId, ops, false)
  {
    hide AttachOps, U.Edited;
    AttachesAre(kept, x.flows);
    var after := EnableFrom(desk, email, kept, x, relabels);
    if kept != [] && (kept == desk.tables.roster[email].inbounds || relabels) {
      assert QueuedFor(desk, after, email, desk.tables.roster[email].clientId, AttachOps(kept, x.flows), false);
    }
  }

  /** Convergence queues the attaches of the record as it was listed. */
  lemma RequeueEffects(desk: Desk, email: string, id: string, tags: seq<string>, x: Context)
    ensures var after := Requeued(desk, email, id, tags, x);
            && after.tables == desk.tables
            && exists ops :: OneFor(ops, Attach, tags, x.flows) && QueuedFor(desk, after, email, id, ops, false)
  {
    hide AttachOps;
    AttachesAre(tags, x.flows);
    assert QueuedFor(desk, Requeued(desk, email, id, tags, x), email, id, AttachOps(tags, x.flows), false);
  }

  /** A recovery queues for each row the detach of its attachments, with the purge behind it, and touches nobody else. */
  lemma {:induction false} RecoverEffects(desk: Desk, emails: seq<string>, e: string)
    requires NoRepeats(emails) && forall email :: email in emails ==> email in desk.tables.roster
    ensures var after := Recovered(desk, emails);
            && (e in emails ==>
                  && e in after.pending && e !in after.failed && after.pending[e].id == desk.tables.roster[e].clientId && after.pending[e].purge
                  && OneFor(after.pending[e].ops, Detach, desk.tables.roster[e].inbounds, map[]))
            && (e !in emails ==>
                  && (e in after.pending <==> e in desk.pending) && (e in desk.pending ==> after.pending[e] == desk.pending[e])
                  && (e in after.failed <==> e in desk.failed))
  {
    hide DetachOps, OneFor;
    if emails != [] {
      var init, last := emails[..|emails| - 1], emails[|emails| - 1];
      assert emails == init + [last];
      RecoverEffects(desk, init, e);
      AttachesAre(desk.tables.roster[last].inbounds, map[]);
    }
  }
}
