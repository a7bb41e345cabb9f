/** Convergence: it lists the rows, looks again, and queues what it listed. When that is right, and what it repairs. */
module RosterConverge {
  import opened Options
  import opened RosterGenerations
  import opened RosterMachine
  import opened RosterPlan
  import opened RosterRuns
  import opened RosterSafety
  import U = UserStore

  // ----- Queueing over a change

  predicate Overwrites(rec: Record, prev: seq<Op>, id: string, tags: seq<string>) {
    (forall t :: t in tags ==> t in rec.tags) && OnlyAttaches(prev, tags) && (prev == [] || id == rec.id)
  }

  /**
   * Queueing attaches over an unfinished change brings every state that change may have left to the record if and only
   * if the record has the tags, and the change does nothing but attach some of them, with the same Client ID.
   */
  lemma OverwriteExactly(rec: Record, prev: seq<Op>, id: string, tags: seq<string>, flows: map<string, string>)
    requires Fits(prev, rec) && DistinctTags(prev)
    ensures (forall live :: Settling(live, rec, prev) ==> PushAll(live, id, AttachOps(tags, flows)) == Exactly(rec))
            <==> Overwrites(rec, prev, id, tags)
  {
    hide Settling, Fits, DistinctTags, PushAll, AttachOps, OnlyAttaches;
    if Overwrites(rec, prev, id, tags) {
      forall live: Live | Settling(live, rec, prev)
        ensures PushAll(live, id, AttachOps(tags, flows)) == Exactly(rec)
      {
        OverwriteIsExact(live, rec, prev, id, tags, flows);
      }
    } else {
      var live := OverwriteFails(rec, prev, id, tags, flows);
    }
  }

  lemma OverwriteIsExact(live: Live, rec: Record, prev: seq<Op>, id: string, tags: seq<string>,
                         flows: map<string, string>)
    requires Settling(live, rec, prev) && Overwrites(rec, prev, id, tags)
    ensures PushAll(live, id, AttachOps(tags, flows)) == Exactly(rec)
  {
    hide Settling, AttachOps, PushAll, OnlyAttaches;
    if id == rec.id {
      OverwriteKeeps(live, rec, prev, tags, flows);
      FullRunIsExact(live, rec, AttachOps(tags, flows));
    } else {
      SettledIsExact(live, rec);
      forall t
        ensures Held(PushAll(live, id, AttachOps(tags, flows)), t) == Held(live, t)
      {
        AttachesOnTag(live, id, tags, flows, t);
      }
      HeldEverywhere(PushAll(live, id, AttachOps(tags, flows)), live);
    }
  }

  lemma OverwriteFails(rec: Record, prev: seq<Op>, id: string, tags: seq<string>,
                       flows: map<string, string>) returns (live: Live)
    requires Fits(prev, rec) && DistinctTags(prev) && !Overwrites(rec, prev, id, tags)
    ensures Settling(live, rec, prev) && PushAll(live, id, AttachOps(tags, flows)) != Exactly(rec)
  {
    hide Settling, PushAll, AttachOps, DistinctTags, Fits;
    live := Unstarted(rec, prev);
    var other := rec.id + "x";
    assert |other| != |rec.id|;
    UnstartedIsPossible(rec, prev, "", "");
    if t :| t in tags && t !in rec.tags {
      AttachesOnTag(live, id, tags, flows, t);
    } else if !OnlyAttaches(prev, tags) {
      var i :| 0 <= i < |prev| && (prev[i].kind != Attach || prev[i].tag !in tags);
      var t := prev[i].tag;
      OwnKind(prev, i);
      FitsOnTag(prev, rec, t);
      UnstartedIsPossible(rec, prev, t, other);
      if prev[i].kind != Attach {
        live := live[t := other];
      }
      AttachesOnTag(live, id, tags, flows, t);
    } else {
      var t := prev[0].tag;
      OwnKind(prev, 0);
      FitsOnTag(prev, rec, t);
      AttachesOnTag(live, id, tags, flows, t);
    }
  }

  // ----- A quiet window

  /** The step is no mutation of this user, and the panel goes on. */
  predicate Quiet(step: Step, email: string) { !(Mutates(step) && step.email == email) && !step.Restart? }

  /** The row is still what convergence listed, and from its look at the queue on nothing is queued. */
  predicate AsListed(s: State, email: string) {
    var t := s.desk.tables;
    match s.pass
    case Converging(listed) => email in listed ==> U.LiveRow(t, email) && RecordAt(t, email) == listed[email]
    case Checked(listed, at, id, tags, _, _) =>
      && (email in listed ==> U.LiveRow(t, email) && RecordAt(t, email) == listed[email])
      && (email == at ==> U.LiveRow(t, email) && t.roster[email].clientId == id && email !in s.desk.pending
                          && forall x :: x in tags ==> x in t.roster[email].inbounds)
    case _ => true
  }

  lemma {:induction false} LackingIsListed(tags: seq<string>, there: set<string>)
    ensures forall t :: t in Lacking(tags, there) <==> t in tags && t !in there
  {
    if tags != [] {
      LackingIsListed(tags[..|tags| - 1], there);
      assert tags == tags[..|tags| - 1] + [tags[|tags| - 1]];
    }
  }

  lemma MutatedElsewhere(s: State, step: Step, email: string)
    requires Mutates(step) && step.email != email && Possible(s, step)
    ensures var s' := Next(s, step);
            && s'.pass == s.pass && (email in s'.desk.pending <==> email in s.desk.pending)
            && (email in s'.desk.tables.roster <==> email in s.desk.tables.roster)
            && (email in s.desk.tables.roster ==> s'.desk.tables.roster[email] == s.desk.tables.roster[email])
  {
    hide DiffOps, DetachOps, TouchedTags, AttachOps, JoinedTags;
  }

  lemma PassIsElsewhere(s: State, step: Step)
    requires (PassStep(step) || step.Start?) && Possible(s, step)
    ensures !Next(s, step).pass.Converging? && !Next(s, step).pass.Checked?
  {
    hide PushAll, Push, RenderFailed, PushFailed, Settled, RenderedFile;
  }

  lemma StaysAsListed(s: State, step: Step, email: string)
    requires AsListed(s, email) && Possible(s, step) && Quiet(step, email)
    ensures AsListed(Next(s, step), email)
  {
    hide Possible, Next;
    if Mutates(step) {
      MutatedElsewhere(s, step, email);
    } else if PassStep(step) || step.Start? {
      PassIsElsewhere(s, step);
    } else {
      ConvergesAsListed(s, step, email);
    }
  }

  lemma ConvergesAsListed(s: State, step: Step, email: string)
    requires AsListed(s, email) && Possible(s, step) && !Mutates(step) && !PassStep(step) && !step.Start? && !step.Restart?
    ensures AsListed(Next(s, step), email)
  {
    hide AttachOps, Recovered, Lacking, RecordAt;
    if step.Check? {
      LackingIsListed(s.pass.listed[step.email].tags, step.there);
      ListedRecord(s.desk.tables, step.email);
    }
  }

  lemma ListedRecord(t: U.Tables, email: string)
    ensures email in t.roster ==> RecordAt(t, email) == Record(t.roster[email].clientId, t.roster[email].inbounds)
  {}

  /** With no mutation of the user between the listing and the queueing, what convergence queues fits. */
  lemma {:induction false} QuietWindow(s: State, steps: seq<Step>, email: string)
    requires s.pass == Idle && RanAny(s, steps).Some? && forall i :: 0 <= i < |steps| ==> Quiet(steps[i], email)
    ensures AsListed(RanAny(s, steps).value, email)
    ensures var s' := RanAny(s, steps).value;
            Possible(s', Requeue) && s'.pass.email == email ==> StillFits(s'.desk, email, s'.pass.id, s'.pass.tags)
  {
    hide Next, Quiet;
    if steps != [] {
      hide Possible;
      QuietWindow(s, steps[..|steps| - 1], email);
      StaysAsListed(RanAny(s, steps[..|steps| - 1]).value, steps[|steps| - 1], email);
    }
  }

  // ----- What convergence is for

  /** A file that lost some of a user's entries gets exactly those back; ids changed by hand and foreign entries stay. */
  lemma ConvergenceRepairsExactly(file: Live, rec: Record, flows: map<string, string>)
    ensures PushAll(file, rec.id, AttachOps(Lacking(rec.tags, file.Keys), flows)) == Exactly(rec)
            <==> forall t :: t in file ==> t in rec.tags && file[t] == rec.id
  {
    hide PushAll, AttachOps, Lacking;
    var lacking := Lacking(rec.tags, file.Keys);
    var after := PushAll(file, rec.id, AttachOps(lacking, flows));
    LackingIsListed(rec.tags, file.Keys);
    forall t
      ensures Held(after, t) == if t in file then Some(file[t]) else if t in rec.tags then Some(rec.id) else None
    {
      AttachesOnTag(file, rec.id, lacking, flows, t);
    }
    if after == Exactly(rec) {
      forall t | t in file
        ensures t in rec.tags && file[t] == rec.id
      {
        assert Held(after, t) == Some(file[t]);
      }
    } else if forall t :: t in file ==> t in rec.tags && file[t] == rec.id {
      forall t
        ensures Held(after, t) == Held(Exactly(rec), t)
      {}
      HeldEverywhere(after, Exactly(rec));
    }
  }
}
