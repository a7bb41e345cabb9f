/** Generations: what holds of the queue over every run, careful or not. */
module RosterGenerations {
  import opened Options
  import opened RosterMachine
  import opened RosterPlan
  import opened RosterRuns
  import opened RosterSafety
  import U = UserStore

  function Snap(p: Pass): map<string, Change> {
    match p
    case Idle => map[]
    case Converging(_) => map[]
    case Checked(_, _, _, _, _, _) => map[]
    case Rendering(snap) => snap
    case Pushing(snap, _) => snap
    case AtUser(snap, _, _, _, _) => snap
  }

  predicate PassStep(step: Step) {
    step.Render? || step.Choose? || step.Skip? || step.PushOp? || step.HalfPush? || step.FailPush? || step.Settle? || step.Finish?
  }

  /** The queue of one user: generations up to the counter, and a purge exactly for a row marked deleting. */
  predicate QueueOk(s: State, email: string) {
    && (email in s.desk.pending ==> s.desk.pending[email].gen <= s.desk.nextGen)
    && (email in Snap(s.pass) ==> Snap(s.pass)[email].gen <= s.desk.nextGen)
    && (email in s.desk.pending && s.desk.pending[email].purge ==> U.DeletingRow(s.desk.tables, email))
    && (s.recovered && U.DeletingRow(s.desk.tables, email) ==> email in s.desk.pending && s.desk.pending[email].purge)
    && (email in Snap(s.pass) && email in s.desk.pending && Snap(s.pass)[email].gen == s.desk.pending[email].gen ==>
          Snap(s.pass)[email].purge == s.desk.pending[email].purge)
  }

  ghost predicate Queues(s: State) { forall e: string :: QueueOk(s, e) }

  lemma {:induction false} RecoveredQueue(desk: Desk, emails: seq<string>, email: string)
    requires forall e :: e in emails ==> e in desk.tables.roster && U.DeletingRow(desk.tables, e)
    requires email in desk.pending ==> desk.pending[email].gen <= desk.nextGen
    requires email in desk.pending && desk.pending[email].purge ==> U.DeletingRow(desk.tables, email)
    ensures var after := Recovered(desk, emails);
            && after.nextGen >= desk.nextGen
            && (email in after.pending ==> after.pending[email].gen <= after.nextGen)
            && (email in after.pending && after.pending[email].purge ==> U.DeletingRow(desk.tables, email))
            && (email in emails ==> email in after.pending && after.pending[email].purge)
  {
    hide DetachOps;
    if emails != [] {
      RecoveredQueue(desk, emails[..|emails| - 1], email);
      assert emails == emails[..|emails| - 1] + [emails[|emails| - 1]];
    }
  }

  lemma MutationQueue(s: State, step: Step, email: string)
    requires Mutates(step) && Possible(s, step) && QueueOk(s, email)
    ensures QueueOk(Next(s, step), email)
  {
    hide DiffOps, DetachOps, TouchedTags, AttachOps, JoinedTags;
  }

  /** What a step of a pass does to the desk. */
  function DeskAfter(desk: Desk, p: Pass, step: Step): Desk {
    if step == Render(false) then RenderFailed(desk, Snap(p))
    else if step.FailPush? && p.AtUser? && p.email in p.snap then PushFailed(desk, p.email, p.snap[p.email])
    else if step.Settle? && p.AtUser? && p.email in p.snap then Settled(desk, p.email, p.snap[p.email], step.commits)
    else desk
  }

  lemma PassDesk(s: State, step: Step)
    requires PassStep(step) && Possible(s, step)
    ensures var after := Next(s, step);
            && after.desk == DeskAfter(s.desk, s.pass, step) && after.recovered == s.recovered
            && (Snap(after.pass) == Snap(s.pass) || Snap(after.pass) == map[])
  {
    hide PushAll, Push, RenderFailed, PushFailed, Settled;
  }

  lemma PassQueue(s: State, step: Step, email: string)
    requires PassStep(step) && Possible(s, step) && QueueOk(s, email)
    ensures QueueOk(Next(s, step), email)
  {
    hide Next, Possible, Snap;
    PassDesk(s, step);
    if step.Settle? {
      SettleQueue(s, Next(s, step), step, email);
    }
  }

  lemma SettleQueue(s: State, s': State, step: Step, email: string)
    requires QueueOk(s, email) && step.Settle? && s'.desk == DeskAfter(s.desk, s.pass, step) && s'.recovered == s.recovered
    requires Snap(s'.pass) == Snap(s.pass) || Snap(s'.pass) == map[]
    ensures QueueOk(s', email)
  {}

  /** Convergence does not queue over a row that was marked deleting since it looked. */
  predicate Spares(s: State, step: Step) {
    step.Requeue? && s.pass.Checked? && s.recovered ==> !U.DeletingRow(s.desk.tables, s.pass.email)
  }

  lemma OtherQueue(s: State, step: Step, email: string)
    requires !PassStep(step) && !Mutates(step) && Possible(s, step) && Spares(s, step) && QueueOk(s, email)
    ensures QueueOk(Next(s, step), email)
  {
    hide AttachOps, Recovered;
    if step.Recover? {
      RecoveredQueue(s.desk, step.emails, email);
    }
  }

  /** A step keeps the queues, careful or not, exactly if it is not convergence queueing over a deleting row. */
  lemma QueuesKept(s: State, step: Step)
    requires Queues(s) && Possible(s, step)
    ensures Queues(Next(s, step)) <==> Spares(s, step)
  {
    hide QueueOk, Possible, Next;
    if Spares(s, step) {
      SparedQueues(s, step);
    } else {
      RequeueLosesThePurge(s);
    }
  }

  lemma SparedQueues(s: State, step: Step)
    requires Queues(s) && Possible(s, step) && Spares(s, step)
    ensures Queues(Next(s, step))
  {
    hide QueueOk, Possible, Next, Spares;
    forall e: string
      ensures QueueOk(Next(s, step), e)
    {
      assert QueueOk(s, e);
      if Mutates(step) {
        MutationQueue(s, step, e);
      } else if PassStep(step) {
        PassQueue(s, step, e);
      } else {
        OtherQueue(s, step, e);
      }
    }
  }

  lemma RequeueLosesThePurge(s: State)
    requires Possible(s, Requeue) && U.DeletingRow(s.desk.tables, s.pass.email) && s.recovered
    ensures !Queues(Next(s, Requeue))
  {
    hide AttachOps;
    assert !QueueOk(Next(s, Requeue), s.pass.email);
  }

  ghost function RanAny(s: State, steps: seq<Step>): Option<State> {
    if steps == [] then Some(s)
    else
      match RanAny(s, steps[..|steps| - 1])
      case None => None
      case Some(before) => if Possible(before, steps[|steps| - 1]) then Some(Next(before, steps[|steps| - 1])) else None
  }

  lemma RanNothing(s: State)
    ensures RanAny(s, []) == Some(s)
  {}

  lemma RanOne(s: State, steps: seq<Step>, k: nat)
    requires k < |steps| && RanAny(s, steps[..k]).Some? && Possible(RanAny(s, steps[..k]).value, steps[k])
    ensures RanAny(s, steps[..k + 1]) == Some(Next(RanAny(s, steps[..k]).value, steps[k]))
  {
    hide Possible, Next;
    assert steps[..k + 1][..k] == steps[..k] && steps[..k + 1][k] == steps[k];
  }

  lemma {:induction false} RanAnyOn(s: State, a: seq<Step>, b: seq<Step>)
    requires RanAny(s, a).Some?
    ensures RanAny(s, a + b) == RanAny(RanAny(s, a).value, b)
    decreases |b|
  {
    hide Possible, Next;
    if b == [] {
      assert a + b == a;
    } else {
      assert (a + b)[..|a + b| - 1] == a + b[..|b| - 1];
      RanAnyOn(s, a, b[..|b| - 1]);
    }
  }

  /** Every step of the run meets a condition where it is taken. */
  ghost predicate Always(s: State, steps: seq<Step>, ok: (State, Step) -> bool) {
    forall k :: 0 <= k < |steps| && RanAny(s, steps[..k]).Some? ==> ok(RanAny(s, steps[..k]).value, steps[k])
  }

  lemma AlwaysBefore(s: State, steps: seq<Step>, ok: (State, Step) -> bool)
    requires steps != [] && RanAny(s, steps).Some? && Always(s, steps, ok)
    ensures Always(s, steps[..|steps| - 1], ok)
    ensures ok(RanAny(s, steps[..|steps| - 1]).value, steps[|steps| - 1])
  {
    hide Possible, Next;
    var init := steps[..|steps| - 1];
    forall k | 0 <= k < |init| && RanAny(s, init[..k]).Some?
      ensures ok(RanAny(s, init[..k]).value, init[k])
    {
      assert init[..k] == steps[..k] && init[k] == steps[k];
    }
  }

  lemma {:induction false} RunsKeepQueues(s: State, steps: seq<Step>)
    requires Queues(s) && RanAny(s, steps).Some? && Always(s, steps, Spares)
    ensures Queues(RanAny(s, steps).value)
  {
    hide Queues, Possible, Next, Always, Spares;
    if steps != [] {
      AlwaysBefore(s, steps, Spares);
      RunsKeepQueues(s, steps[..|steps| - 1]);
      SparedQueues(RanAny(s, steps[..|steps| - 1]).value, steps[|steps| - 1]);
    }
  }

  lemma FreshQueues()
    ensures Queues(FRESH)
  {}

  /**
   * In every run in which convergence does not queue over a deleting row, a row marked deleting has its purge queued,
   * from a restart's recovery on; and only such a row has one.
   */
  lemma PurgeQueuedExactlyForDeleting(steps: seq<Step>, email: string)
    requires RanAny(FRESH, steps).Some? && Always(FRESH, steps, Spares)
    ensures var s := RanAny(FRESH, steps).value;
            s.recovered ==> (U.DeletingRow(s.desk.tables, email) <==> email in s.desk.pending && s.desk.pending[email].purge)
  {
    hide RanAny;
    FreshQueues();
    RunsKeepQueues(FRESH, steps);
    assert QueueOk(RanAny(FRESH, steps).value, email);
  }

  /** No mutation changes the row or the queued purge of a user marked deleting. */
  lemma DeletingIsLeftAlone(s: State, step: Step, email: string)
    requires Mutates(step) && Possible(s, step) && U.DeletingRow(s.desk.tables, email)
    requires s.desk.tables.roster[email].disabled
    ensures var after := Next(s, step);
            && email in after.desk.tables.roster && after.desk.tables.roster[email] == s.desk.tables.roster[email]
            && (email in s.desk.pending ==> email in after.desk.pending && after.desk.pending[email] == s.desk.pending[email])
  {
    hide DiffOps, DetachOps, TouchedTags, AttachOps, JoinedTags;
  }

  /** A step of a pass changes the queue or the failed mark only of a user whose queued change is the one it snapshotted. */
  lemma PassesTouchOnlyTheirGeneration(s: State, step: Step, email: string)
    requires PassStep(step) && Possible(s, step)
    requires !(email in Snap(s.pass) && email in s.desk.pending && Snap(s.pass)[email].gen == s.desk.pending[email].gen)
    ensures var after := Next(s, step).desk;
            && (email in after.pending <==> email in s.desk.pending)
            && (email in after.pending ==> after.pending[email] == s.desk.pending[email])
            && (email in after.failed <==> email in s.desk.failed)
  {
    hide Next, Possible;
    PassDesk(s, step);
  }

  // ----- A change queued while a pass is under way

  predicate Newer(s: State, email: string, change: Change) {
    && email in s.desk.pending && s.desk.pending[email] == change && email !in s.desk.failed
    && (email in Snap(s.pass) ==> Snap(s.pass)[email].gen != change.gen)
  }

  /** Queueing a change makes it newer than whatever the pass snapshotted, and unfailed. */
  lemma QueuedIsNewer(s: State, step: Step)
    requires Mutates(step) && Possible(s, step) && Queues(s)
    requires var after := Next(s, step).desk; step.email in after.pending && after.nextGen > s.desk.nextGen
    ensures Newer(Next(s, step), step.email, Next(s, step).desk.pending[step.email])
  {
    hide DiffOps, DetachOps, TouchedTags, AttachOps, JoinedTags;
    assert QueueOk(s, step.email);
  }

  /** Steps of the pass, and mutations of other users. */
  predicate Elsewhere(step: Step, email: string) { PassStep(step) || (Mutates(step) && step.email != email) }

  lemma NewerStays(s: State, step: Step, email: string, change: Change)
    requires Newer(s, email, change) && Possible(s, step) && Elsewhere(step, email)
    ensures Newer(Next(s, step), email, change)
  {
    hide Next, Possible;
    if PassStep(step) {
      PassDesk(s, step);
      PassesTouchOnlyTheirGeneration(s, step, email);
    } else {
      MutationElsewhere(s, step, email);
    }
  }

  lemma MutationElsewhere(s: State, step: Step, email: string)
    requires Mutates(step) && Possible(s, step) && step.email != email
    ensures var after := Next(s, step);
            && after.pass == s.pass && (email in after.desk.failed <==> email in s.desk.failed)
            && (email in after.desk.pending <==> email in s.desk.pending)
            && (email in after.desk.pending ==> after.desk.pending[email] == s.desk.pending[email])
  {
    hide DiffOps, DetachOps, TouchedTags, AttachOps, JoinedTags;
  }

  /** At the end of the pass it is still pending, and not failed. */
  lemma {:induction false} NewerStaysToTheEnd(s: State, steps: seq<Step>, email: string, change: Change)
    requires Newer(s, email, change) && RanAny(s, steps).Some?
    requires forall i :: 0 <= i < |steps| ==> Elsewhere(steps[i], email)
    ensures Newer(RanAny(s, steps).value, email, change)
  {
    hide Newer, Possible, Next, Elsewhere;
    if steps != [] {
      NewerStaysToTheEnd(s, steps[..|steps| - 1], email, change);
      NewerStays(RanAny(s, steps[..|steps| - 1]).value, steps[|steps| - 1], email, change);
    }
  }

  // ----- No push before a render

  /** Some earlier step rendered this very snapshot. */
  ghost predicate WasRendered(s: State, steps: seq<Step>, snap: map<string, Change>) {
    exists k :: 0 <= k < |steps| && steps[k] == Render(true)
      && RanAny(s, steps[..k]).Some? && RanAny(s, steps[..k]).value.pass == Rendering(snap)
  }

  lemma RenderedEarlier(s: State, steps: seq<Step>, snap: map<string, Change>)
    requires steps != [] && WasRendered(s, steps[..|steps| - 1], snap)
    ensures WasRendered(s, steps, snap)
  {
    var init := steps[..|steps| - 1];
    var k :| 0 <= k < |init| && init[k] == Render(true) && RanAny(s, init[..k]).Some? && RanAny(s, init[..k]).value.pass == Rendering(snap);
    assert steps[..k] == init[..k] && steps[k] == init[k];
  }

  predicate PushesFrom(p: Pass) { p.Pushing? || p.AtUser? }

  lemma PassAfter(s: State, step: Step)
    requires Possible(s, step) && PushesFrom(Next(s, step).pass)
    ensures if step == Render(true) then s.pass == Rendering(Snap(Next(s, step).pass))
            else PushesFrom(s.pass) && Snap(s.pass) == Snap(Next(s, step).pass)
  {
    hide PushAll, Push, DiffOps, DetachOps, TouchedTags, AttachOps, JoinedTags;
  }

  /** Every pushing pass pushes a snapshot that was rendered successfully before. */
  lemma {:induction false} NoPushBeforeRender(s: State, steps: seq<Step>)
    requires s.pass == Idle && RanAny(s, steps).Some? && PushesFrom(RanAny(s, steps).value.pass)
    ensures WasRendered(s, steps, Snap(RanAny(s, steps).value.pass))
  {
    hide Possible, Next, WasRendered, Snap;
    if steps != [] {
      var init, last := steps[..|steps| - 1], steps[|steps| - 1];
      var before := RanAny(s, init).value;
      PassAfter(before, last);
      if last == Render(true) {
        RenderedNow(s, steps, before);
      } else {
        NoPushBeforeRender(s, init);
        RenderedEarlier(s, steps, Snap(before.pass));
      }
    }
  }

  lemma RenderedNow(s: State, steps: seq<Step>, before: State)
    requires steps != [] && RanAny(s, steps[..|steps| - 1]) == Some(before) && steps[|steps| - 1] == Render(true)
    requires before.pass.Rendering?
    ensures WasRendered(s, steps, before.pass.snap)
  {
    hide RanAny;
    assert steps[|steps| - 1] == Render(true) && RanAny(s, steps[..|steps| - 1]).value.pass == Rendering(before.pass.snap);
  }
}
