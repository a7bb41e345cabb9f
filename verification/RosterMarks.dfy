/** The marks of failed applies: exactly when a user carries one, and when a mark outlives its change. */
module RosterMarks {
  import opened Options
  import opened RosterGenerations
  import opened RosterLapses
  import opened RosterMachine
  import opened RosterPlan
  import opened RosterRuns
  import U = UserStore

  /** The change a pass took up for a user is still the queued one. */
  predicate StillQueued(s: State, email: string) {
    email in Snap(s.pass) && email in s.desk.pending && s.desk.pending[email].gen == Snap(s.pass)[email].gen
  }

  /** The step is an attempt at the user's queued change, and fails: the render, a push, or the write of a purge. */
  predicate Fails(s: State, step: Step, email: string) {
    StillQueued(s, email) &&
    match step
    case Render(ok) => s.pass.Rendering? && !ok
    case FailPush => s.pass.AtUser? && s.pass.email == email
    case Settle(commits) => s.pass.AtUser? && s.pass.email == email && Snap(s.pass)[email].purge && !commits
    case _ => false
  }

  /** The step settles the user's queued change: everything pushed, and a delete's rows erased. */
  predicate Settles(s: State, step: Step, email: string) {
    && StillQueued(s, email) && step.Settle? && s.pass.AtUser? && s.pass.email == email
    && (Snap(s.pass)[email].purge ==> step.commits)
  }

  /** The step queues a change for the user. */
  ghost predicate Queues(s: State, step: Step, email: string)
    requires Possible(s, step)
  {
    var after := Next(s, step).desk;
    && email in after.pending
    && (email in s.desk.pending ==> after.pending[email].gen != s.desk.pending[email].gen)
    && after.nextGen > s.desk.nextGen
  }

  lemma PassMarks(s: State, step: Step, email: string)
    requires PassStep(step) && Possible(s, step)
    ensures var after := Next(s, step).desk;
            && (email in after.failed <==> Fails(s, step, email) || (email in s.desk.failed && !Settles(s, step, email)))
            && after.nextGen == s.desk.nextGen
  {
    hide Next, Possible;
    PassDesk(s, step);
    PassCases(s, step);
  }

  lemma PassCases(s: State, step: Step)
    requires PassStep(step) && Possible(s, step)
    ensures step.Render? ==> s.pass.Rendering?
    ensures step.FailPush? || step.Settle? ==> s.pass.AtUser? && s.pass.email in s.pass.snap
  {}

  /** Generations stay at or below the counter: whatever is queued is told from what was. */
  predicate Counted(s: State, email: string) { email in s.desk.pending ==> s.desk.pending[email].gen <= s.desk.nextGen }

  lemma MutationMarks(s: State, step: Step, email: string)
    requires Mutates(step) && Possible(s, step) && Counted(s, email)
    ensures var after := Next(s, step).desk;
            && (email in after.failed <==> email in s.desk.failed && !Queues(s, step, email))
            && Counted(Next(s, step), email)
  {
    hide DiffOps, DetachOps, TouchedTags, AttachOps, JoinedTags;
  }

  lemma {:induction false} RecoveredMarks(desk: Desk, emails: seq<string>, email: string)
    requires forall e :: e in emails ==> e in desk.tables.roster
    requires email in desk.pending ==> desk.pending[email].gen <= desk.nextGen
    ensures var after := Recovered(desk, emails);
            && after.nextGen == desk.nextGen + |emails|
            && (email in after.pending ==> after.pending[email].gen <= after.nextGen)
            && (email in emails ==> email in after.pending && after.pending[email].gen > desk.nextGen && email !in after.failed)
            && (email !in emails ==>
                  && (email in after.failed <==> email in desk.failed) && (email in after.pending <==> email in desk.pending)
                  && (email in desk.pending ==> after.pending[email] == desk.pending[email]))
  {
    hide DetachOps;
    if emails != [] {
      RecoveredMarks(desk, emails[..|emails| - 1], email);
      assert emails == emails[..|emails| - 1] + [emails[|emails| - 1]];
    }
  }

  lemma OtherMarks(s: State, step: Step, email: string)
    requires !PassStep(step) && !Mutates(step) && Possible(s, step) && Counted(s, email)
    ensures var after := Next(s, step).desk;
            && (email in after.failed <==> email in s.desk.failed && !step.Restart? && !Queues(s, step, email))
            && Counted(Next(s, step), email)
  {
    hide AttachOps, Recovered;
    if step.Recover? {
      RecoveredMarks(s.desk, step.emails, email);
    }
  }

  /** A step marks a user exactly if it fails their queued change, and clears the mark exactly if it settles or replaces it. */
  lemma MarkedExactly(s: State, step: Step, email: string)
    requires Possible(s, step) && Counted(s, email)
    ensures email in Next(s, step).desk.failed <==>
            || Fails(s, step, email)
            || (email in s.desk.failed && !Settles(s, step, email) && !Queues(s, step, email) && !step.Restart?)
    ensures Counted(Next(s, step), email)
  {
    hide Next, Possible, Snap;
    if PassStep(step) {
      PassMarks(s, step, email);
      PassCounted(s, step, email);
    } else if Mutates(step) {
      MutationMarks(s, step, email);
    } else {
      OtherMarks(s, step, email);
    }
  }

  lemma PassCounted(s: State, step: Step, email: string)
    requires PassStep(step) && Possible(s, step) && Counted(s, email)
    ensures Counted(Next(s, step), email)
  {
    hide Next, Possible;
    PassDesk(s, step);
    PassCases(s, step);
    if step.Settle? && s.pass.email in s.desk.pending {
      assert !Superseded(s.desk, s.pass.email, s.pass.snap[s.pass.email].gen) ==>
          s.pass.snap[s.pass.email].gen == s.desk.pending[s.pass.email].gen;
    }
  }

  /** The last thing that happened to the user's change in a run was that it failed. */
  ghost predicate LastFailed(s: State, steps: seq<Step>, email: string)
    requires RanAny(s, steps).Some?
  {
    steps != [] &&
    var init, last := steps[..|steps| - 1], steps[|steps| - 1];
    var before := RanAny(s, init).value;
    || Fails(before, last, email)
    || (LastFailed(s, init, email) && !Settles(before, last, email) && !Queues(before, last, email) && !last.Restart?)
  }

  /** In every run a user is marked failed exactly if that is the last thing that happened to their change. */
  lemma {:induction false} MarkedIfLastFailed(s: State, steps: seq<Step>, email: string)
    requires RanAny(s, steps).Some? && s.desk.failed == {} && s.desk.pending == map[]
    ensures var after := RanAny(s, steps).value;
            (email in after.desk.failed <==> LastFailed(s, steps, email)) && Counted(after, email)
  {
    hide Possible, Next, Fails, Settles, Queues;
    if steps != [] {
      var init := steps[..|steps| - 1];
      MarkedIfLastFailed(s, init, email);
      MarkedExactly(RanAny(s, init).value, steps[|steps| - 1], email);
    }
  }

  // ----- A mark and its change

  ghost predicate MarksWait(s: State) { forall e :: e in s.desk.failed ==> e in s.desk.pending }

  /** A mutation that takes a failed user's change from the queue and puts none in its place. */
  predicate Drops(desk: Desk, step: Step)
    requires Mutates(step)
  {
    && step.email in desk.failed && step.email in desk.tables.roster
    && match step
       case Add(_, _, _, _, _) => false
       case Edit(email, newId, tags, x) => EditPlan(desk, email, desk.tables.roster[email].inbounds, newId, tags, x) == []
       case Delete(_, _, commits) => !commits
       case Disable(email, _, commits) =>
         !commits || (desk.tables.roster[email].inbounds == [] && forall op :: op in PendingOps(desk, email) ==> op.kind == Detach)
       case Enable(_, _) => false
  }

  lemma {:induction false} NothingJoining(tags: seq<string>, prev: seq<Op>)
    ensures JoinedTags(tags, prev) == [] <==> tags == [] && forall op :: op in prev ==> op.kind == Detach
  {
    if prev != [] {
      NothingJoining(tags, prev[..|prev| - 1]);
      assert forall op :: op in prev <==> op in prev[..|prev| - 1] || op == prev[|prev| - 1];
    }
  }

  lemma MutationDrops(s: State, step: Step)
    requires MarksWait(s) && Mutates(step) && Possible(s, step)
    ensures MarksWait(Next(s, step)) <==> !Drops(s.desk, step)
  {
    hide DiffOps, DetachOps, TouchedTags, AttachOps, JoinedTags;
    var after := Next(s, step).desk;
    if step.Disable? {
      NothingJoining(s.desk.tables.roster[step.email].inbounds, PendingOps(s.desk, step.email));
    }
    assert forall e :: e in after.failed ==> e in s.desk.failed;
    assert forall e :: e != step.email && e in s.desk.pending ==> e in after.pending;
    if Drops(s.desk, step) {
      assert step.email in after.failed && step.email !in after.pending;
    }
  }

  lemma OtherStepsDropNothing(s: State, step: Step)
    requires MarksWait(s) && !Mutates(step) && Possible(s, step)
    ensures MarksWait(Next(s, step))
  {
    hide Possible, Next, Snap;
    if PassStep(step) {
      hide Settled, PushFailed, RenderFailed;
      PassDesk(s, step);
      PassKeeps(s.desk, s.pass, step);
    } else {
      QueueingKeeps(s, step);
    }
  }

  lemma PassKeeps(desk: Desk, p: Pass, step: Step)
    requires forall e :: e in desk.failed ==> e in desk.pending
    ensures var after := DeskAfter(desk, p, step); forall e :: e in after.failed ==> e in after.pending
  {}

  lemma QueueingKeeps(s: State, step: Step)
    requires MarksWait(s) && !Mutates(step) && !PassStep(step) && Possible(s, step)
    ensures MarksWait(Next(s, step))
  {
    hide AttachOps, Recovered, Lacking;
    if step.Recover? {
      forall e | e in Recovered(s.desk, step.emails).failed
        ensures e in Recovered(s.desk, step.emails).pending
      {
        RecoveredFailed(s.desk, step.emails, e);
      }
    }
  }

  lemma {:induction false} RecoveredFailed(desk: Desk, emails: seq<string>, email: string)
    requires forall e :: e in emails ==> e in desk.tables.roster
    requires email in desk.failed ==> email in desk.pending
    ensures var after := Recovered(desk, emails); email in after.failed ==> email in after.pending
  {
    hide DetachOps;
    if emails != [] {
      RecoveredFailed(desk, emails[..|emails| - 1], email);
    }
  }

  /** A mark waits with its change exactly as long as no mutation takes that change and queues none. */
  lemma MarksWaitExactly(s: State, step: Step)
    requires MarksWait(s) && Possible(s, step)
    ensures MarksWait(Next(s, step)) <==> !(Mutates(step) && Drops(s.desk, step))
  {
    hide MarksWait, Next, Possible, Drops;
    if Mutates(step) {
      MutationDrops(s, step);
    } else {
      OtherStepsDropNothing(s, step);
    }
  }

  lemma FailedPush(s: State, email: string, id: string, op: Op)
    requires s.pass == Pushing(s.desk.pending, {email}) && OneQueued(s.(pass := Idle), email, id, op)
    ensures Possible(s, Choose(email)) && Possible(Next(s, Choose(email)), FailPush)
    ensures var s2 := Next(Next(s, Choose(email)), FailPush);
            && Possible(s2, Finish)
            && var s3 := Next(s2, Finish);
               s3.pass == Idle && email in s3.desk.failed && s3.desk.tables == s.desk.tables && s3.desk.pending == s.desk.pending
  {}

  lemma FailedDelete(s: State, email: string)
    requires s.desk.pending.Keys == {email} && email in s.desk.failed && email in s.desk.tables.roster && !s.desk.tables.roster[email].deleting
    ensures Possible(s, Delete(email, 0, false))
    ensures var after := Next(s, Delete(email, 0, false)).desk; after.pending == map[] && email in after.failed
  {}

  /**
   * From a fresh start: a push fails, then the write of a delete. The user is marked failed, nothing is queued, and no
   * pass can start any more to try again.
   */
  lemma MarkOutlivesItsChange()
    ensures var steps := [Add("a", "A", ["x"], None, NOW), Start, Render(true), Choose("a"), FailPush, Finish, Delete("a", 0, false)];
            && RanAny(FRESH, steps).Some?
            && var s := RanAny(FRESH, steps).value;
               "a" in s.desk.failed && s.desk.pending == map[] && s.pass == Idle && !Possible(s, Start)
  {
    var steps := [Add("a", "A", ["x"], None, NOW), Start, Render(true), Choose("a"), FailPush, Finish, Delete("a", 0, false)];
    AddedFirst();
    hide RanAny, Next, Possible;
    var op := Op(Attach, "x", "");
    var s1 := Next(FRESH, steps[0]);
    Rendered(s1, "a", "A", op);
    var s3 := Next(Next(s1, Start), Render(true));
    FailedPush(s3, "a", "A", op);
    var s6 := Next(Next(Next(s3, Choose("a")), FailPush), Finish);
    FailedDelete(s6, "a");
    RanNothing(FRESH);
    assert steps[..0] == [];
    RanOne(FRESH, steps, 0);
    RanOne(FRESH, steps, 1);
    RanOne(FRESH, steps, 2);
    RanOne(FRESH, steps, 3);
    RanOne(FRESH, steps, 4);
    RanOne(FRESH, steps, 5);
    RanOne(FRESH, steps, 6);
    assert steps[..7] == steps;
    NothingToStart(Next(s6, steps[6]));
    DeleteKeepsPass(s6, "a");
  }

  lemma AddedFirst()
    ensures var add := Add("a", "A", ["x"], None, NOW);
            Possible(FRESH, add) && OneQueued(Next(FRESH, add), "a", "A", Op(Attach, "x", ""))
            && Next(FRESH, add).desk.tables.roster == map["a" := U.RosterRow("A", ["x"], false, false, 0, 0)]
  {
    assert AttachOps(["x"], map[]) == [Op(Attach, "x", "")];
  }

  lemma NothingToStart(s: State)
    requires s.desk.pending == map[]
    ensures !Possible(s, Start)
  {}

  lemma DeleteKeepsPass(s: State, email: string)
    requires Possible(s, Delete(email, 0, false))
    ensures Next(s, Delete(email, 0, false)).pass == s.pass
  {}
}
