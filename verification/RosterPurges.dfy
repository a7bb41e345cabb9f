/** Purges over every run whose steps keep track of where a user may still be: failing writes, disables, restarts included. */
module RosterPurges {
  import opened Options
  import opened RosterGenerations
  import opened RosterMachine
  import opened RosterPlan
  import opened RosterRuns
  import opened RosterSafety
  import U = UserStore

  predicate Purging(pending: Option<Change>) { pending.Some? && pending.value.purge }

  /** The row or the queue names the inbound; once a purge is queued, its detaches must. */
  predicate Named(row: Option<U.RosterRow>, pending: Option<Change>, t: string) {
    (row.Some? && t in row.value.inbounds && !Purging(pending)) || Touches(OpsOf(pending), t)
  }

  // ----- One user

  /** Nothing queued is both left and joined, joins are within a row that is not disabled, purges are for deleting rows. */
  ghost predicate QueuedRight(row: U.RosterRow, change: Change) {
    && Apart(change.ops) && (forall t :: Joins(change.ops, t) ==> t in row.inbounds && !row.disabled)
    && (change.purge ==> row.deleting)
  }

  /** Wherever a credential or a file entry of the user is, row or queue names the inbound. */
  ghost predicate Traced(u: User) {
    match u.row
    case None => u.pending.None? && u.file == map[] && u.live == map[]
    case Some(row) =>
      && (row.deleting ==> row.disabled) && (u.pending.Some? ==> QueuedRight(row, u.pending.value))
      && forall t :: t in u.live || t in u.file ==> Named(u.row, u.pending, t)
  }

  predicate SameChange(u: User, change: Change) { u.pending.Some? && u.pending.value.gen == change.gen }

  /** A user a pass still has before it. */
  ghost predicate Awaited(u: User, change: Change, rendered: bool) {
    && u.row.Some? && Apart(change.ops)
    && if SameChange(u, change) then u.pending.value == change && (rendered ==> forall t :: Leaves(change.ops, t) ==> t !in u.file)
       else forall t :: Joins(change.ops, t) ==> Named(u.row, u.pending, t)
  }

  /** The user a pass is pushing. */
  ghost predicate Visited(u: User, change: Change, done: nat) {
    && Awaited(u, change, true) && done <= |change.ops|
    && (SameChange(u, change) ==> forall i :: 0 <= i < done && change.ops[i].kind == Detach ==> change.ops[i].tag !in u.live)
  }

  ghost predicate PassTraced(s: State, email: string) {
    && (email in Snap(s.pass) ==> Snap(s.pass)[email].gen <= s.desk.nextGen)
    && match s.pass
       case Rendering(snap) => email in snap ==> Awaited(UserAt(s, email), snap[email], false)
       case Pushing(snap, todo) => todo <= snap.Keys && (email in todo ==> Awaited(UserAt(s, email), snap[email], true))
       case AtUser(snap, todo, at, done, half) =>
         && todo <= snap.Keys && at in snap && at !in todo
         && (email in todo ==> Awaited(UserAt(s, email), snap[email], true))
         && (email == at ==>
               && Visited(UserAt(s, email), snap[email], done)
               && (half ==> done < |snap[email].ops| && snap[email].ops[done].kind == Rotate))
       case _ => true
  }

  ghost predicate TracedAt(s: State, email: string) {
    && Traced(UserAt(s, email)) && PassTraced(s, email)
    && (email in s.desk.pending ==> s.desk.pending[email].gen <= s.desk.nextGen)
  }

  ghost predicate AllTraced(s: State) { forall e: string :: TracedAt(s, e) }

  // ----- Steps that replace what is queued

  predicate Replaces(step: Step) { Mutates(step) || step.Requeue? || step.Restart? || step.Recover? }

  function RowAt(desk: Desk, email: string): Option<U.RosterRow> {
    if email in desk.tables.roster then Some(desk.tables.roster[email]) else None
  }

  function PendingAt(desk: Desk, email: string): Option<Change> {
    if email in desk.pending then Some(desk.pending[email]) else None
  }

  /** No inbound that row or queue names for a user is forgotten; convergence queues only what its row has. */
  ghost predicate Tracks(s: State, step: Step) {
    Possible(s, step) && Replaces(step) ==>
      && (forall e, t: string :: Named(RowAt(s.desk, e), PendingAt(s.desk, e), t) ==>
            Named(RowAt(Next(s, step).desk, e), PendingAt(Next(s, step).desk, e), t))
      && (step.Requeue? ==> U.LiveRow(s.desk.tables, s.pass.email)
                            && forall t :: t in s.pass.tags ==> t in s.desk.tables.roster[s.pass.email].inbounds)
  }

  /** A user whose row or queue was replaced: nothing else changed, and nothing was forgotten. */
  ghost predicate Followed(u: User, v: User) {
    && v.live == u.live && v.file == u.file && v.row.Some? && (v.row.value.deleting ==> v.row.value.disabled)
    && (v.pending.Some? ==> QueuedRight(v.row.value, v.pending.value))
    && forall t :: Named(u.row, u.pending, t) ==> Named(v.row, v.pending, t)
  }

  lemma FollowedTraced(u: User, v: User)
    requires Traced(u) && Followed(u, v)
    ensures Traced(v)
  {
    hide QueuedRight, Named;
  }

  lemma FollowedAwaited(u: User, v: User, change: Change, rendered: bool)
    requires Awaited(u, change, rendered) && Followed(u, v)
    requires v.pending == u.pending || (v.pending.Some? ==> v.pending.value.gen != change.gen)
    ensures Awaited(v, change, rendered)
  {
    hide QueuedRight;
  }

  lemma FollowedVisited(u: User, v: User, change: Change, done: nat)
    requires Visited(u, change, done) && Followed(u, v)
    requires v.pending == u.pending || (v.pending.Some? ==> v.pending.value.gen != change.gen)
    ensures Visited(v, change, done)
  {
    hide QueuedRight, Awaited, Named;
    FollowedAwaited(u, v, change, true);
  }

  lemma FollowedAt(s: State, s': State, email: string)
    requires TracedAt(s, email) && Followed(UserAt(s, email), UserAt(s', email)) && s'.pass == s.pass && s'.desk.nextGen >= s.desk.nextGen
    requires var u, v := UserAt(s, email), UserAt(s', email);
             v.pending == u.pending || (v.pending.Some? ==> s.desk.nextGen < v.pending.value.gen <= s'.desk.nextGen)
    ensures TracedAt(s', email)
  {
    hide Traced, Awaited, Followed, Visited;
    var u, v := UserAt(s, email), UserAt(s', email);
    FollowedTraced(u, v);
    if email in Snap(s.pass) {
      var change := Snap(s.pass)[email];
      forall rendered | Awaited(u, change, rendered)
        ensures Awaited(v, change, rendered)
      {
        FollowedAwaited(u, v, change, rendered);
      }
      forall done | Visited(u, change, done)
        ensures Visited(v, change, done)
      {
        FollowedVisited(u, v, change, done);
      }
    }
  }

  lemma AttachesQueued(row: U.RosterRow, id: string, tags: seq<string>, flows: map<string, string>, gen: nat)
    requires !row.disabled && forall t :: t in tags ==> t in row.inbounds
    ensures QueuedRight(row, Change(id, AttachOps(tags, flows), gen, false))
  {
    hide AttachOps, Joins, Plans, Leaves, Apart;
    AttachesOf(tags, flows, "");
    forall t
      ensures Joins(AttachOps(tags, flows), t) ==> t in tags
    {
      AttachesOf(tags, flows, t);
      PlansSnoc(AttachOps(tags, flows), Op(Attach, t, ""), Attach, t);
    }
  }

  lemma DetachesQueued(row: U.RosterRow, id: string, tags: seq<string>, gen: nat, purge: bool)
    requires purge ==> row.deleting
    ensures QueuedRight(row, Change(id, DetachOps(tags), gen, purge))
  {
    hide DetachOps, Joins, Leaves, Touches, Plans, Apart;
    DetachesFit(tags, "");
    FitsAreApart(DetachOps(tags), Record("", []));
    forall t
      ensures !Joins(DetachOps(tags), t)
    {
      DetachesOf(tags, t);
    }
  }

  lemma EditQueued(row: U.RosterRow, before: Record, flows: map<string, string>, prev: seq<Op>, gen: nat)
    requires !row.disabled
    ensures QueuedRight(row, Change(row.clientId, DiffOps(before, Record(row.clientId, row.inbounds), flows, prev), gen, false))
  {
    hide DiffOps, Joins, Leaves, Touches, Plans, Apart, Fits;
    var after := Record(row.clientId, row.inbounds);
    var ops := DiffOps(before, after, flows, prev);
    DiffOpsFit(before, after, flows, prev);
    FitsAreApart(ops, after);
    forall t | Joins(ops, t)
      ensures t in row.inbounds
    {
      FitsOnTag(ops, after, t);
    }
  }

  /** What a mutation queues is queued right. */
  lemma MutationQueued(s: State, step: Step)
    requires Mutates(step) && Possible(s, step) && Traced(UserAt(s, step.email))
    ensures var v := UserAt(Next(s, step), step.email);
            && v.row.Some? && (v.row.value.deleting ==> v.row.value.disabled)
            && (v.pending.Some? ==> QueuedRight(v.row.value, v.pending.value))
  {
    hide QueuedRight, DiffOps, DetachOps, TouchedTags, AttachOps, JoinedTags, Named;
    var u, v, gen := UserAt(s, step.email), UserAt(Next(s, step), step.email), s.desk.nextGen + 1;
    match step
    case Add(_, id, tags, _, x) =>
      AttachesQueued(v.row.value, id, tags, x.flows, gen);
      if u.row.Some? && tags == [] && u.pending.Some? {
        StillQueued(u.row.value, v.row.value, u.pending.value);
      }
    case Edit(email, newId, tags, x) =>
      EditQueued(v.row.value, Record(u.row.value.clientId, u.row.value.inbounds), x.flows, OpsOf(u.pending), gen);
    case Delete(_, _, commits) =>
      if commits {
        DetachesQueued(v.row.value, u.row.value.clientId, TouchedTags(u.row.value.inbounds, OpsOf(u.pending)), gen, true);
      }
    case Disable(_, _, _) => DetachesQueued(v.row.value, u.row.value.clientId, JoinedTags(u.row.value.inbounds, OpsOf(u.pending)), gen, false);
    case Enable(_, x) =>
      AttachesQueued(v.row.value, v.row.value.clientId, v.row.value.inbounds, x.flows, gen);
      if u.pending.Some? {
        StillQueued(u.row.value, v.row.value, u.pending.value);
      }
  }

  /** A disabled row has only detaches queued; they suit any row that is not deleting. */
  lemma StillQueued(row: U.RosterRow, other: U.RosterRow, change: Change)
    requires QueuedRight(row, change) && row.disabled && !row.deleting
    ensures QueuedRight(other, change)
  {}

  // ----- Each step, seen from one user

  lemma SameTraced(s: State, s': State, email: string)
    requires TracedAt(s, email) && SameFor(s, s', email)
    ensures TracedAt(s', email)
  {
    hide Traced, Awaited, Visited;
  }

  lemma TrackedNames(s: State, step: Step, email: string)
    requires Possible(s, step) && Replaces(step) && Tracks(s, step)
    ensures var u, v := UserAt(s, email), UserAt(Next(s, step), email);
            forall t :: Named(u.row, u.pending, t) ==> Named(v.row, v.pending, t)
  {
    hide Possible, Next, Named;
    var u, v := UserAt(s, email), UserAt(Next(s, step), email);
    assert u.row == RowAt(s.desk, email) && u.pending == PendingAt(s.desk, email);
    assert v.row == RowAt(Next(s, step).desk, email) && v.pending == PendingAt(Next(s, step).desk, email);
  }

  lemma MutationFrame(s: State, step: Step)
    requires Mutates(step) && Possible(s, step)
    ensures var s' := Next(s, step);
            var u, v := UserAt(s, step.email), UserAt(s', step.email);
            && s'.pass == s.pass && s'.desk.nextGen >= s.desk.nextGen && v.live == u.live && v.file == u.file
            && (v.pending == u.pending || (v.pending.Some? ==> s.desk.nextGen < v.pending.value.gen <= s'.desk.nextGen))
  {
    hide DiffOps, DetachOps, TouchedTags, AttachOps, JoinedTags;
  }

  lemma MutationTraced(s: State, step: Step, email: string)
    requires Mutates(step) && Possible(s, step) && Tracks(s, step) && TracedAt(s, email)
    ensures TracedAt(Next(s, step), email)
  {
    hide Possible, Next, Tracks, Named, QueuedRight, PassTraced;
    if email == step.email {
      MutationQueued(s, step);
      MutationFrame(s, step);
      TrackedNames(s, step, email);
      FollowedAt(s, Next(s, step), email);
    } else {
      MutationSame(s, step, email);
      SameTraced(s, Next(s, step), email);
    }
  }

  lemma RequeueTraced(s: State, email: string)
    requires Possible(s, Requeue) && Tracks(s, Requeue) && TracedAt(s, email)
    ensures TracedAt(Next(s, Requeue), email)
  {
    hide Tracks, Named, QueuedRight, AttachOps;
    var p, s' := s.pass, Next(s, Requeue);
    if email == p.email {
      TrackedNames(s, Requeue, email);
      RequeueInRow(s);
      AttachesQueued(s.desk.tables.roster[email], p.id, p.tags, p.x.flows, s.desk.nextGen + 1);
      FollowedTraced(UserAt(s, email), UserAt(s', email));
    } else {
      assert UserAt(s', email) == UserAt(s, email);
    }
  }

  lemma RequeueInRow(s: State)
    requires Possible(s, Requeue) && Tracks(s, Requeue)
    ensures U.LiveRow(s.desk.tables, s.pass.email)
    ensures forall t :: t in s.pass.tags ==> t in s.desk.tables.roster[s.pass.email].inbounds
  {
    hide Next, Named;
  }

  lemma RestartTraced(s: State, email: string)
    requires Tracks(s, Restart) && TracedAt(s, email)
    ensures TracedAt(Next(s, Restart), email)
  {
    hide Tracks, Named, QueuedRight;
    TrackedNames(s, Restart, email);
    if email in s.desk.tables.roster {
      FollowedTraced(UserAt(s, email), UserAt(Next(s, Restart), email));
    }
  }

  lemma {:induction false} RecoveredAt(desk: Desk, emails: seq<string>, email: string)
    requires forall e :: e in emails ==> e in desk.tables.roster
    ensures var after := Recovered(desk, emails); after.nextGen >= desk.nextGen
    ensures var after := Recovered(desk, emails); email !in emails ==> PendingAt(after, email) == PendingAt(desk, email)
    ensures var after := Recovered(desk, emails);
            email in emails ==>
              && email in after.pending
              && var row, c := desk.tables.roster[email], after.pending[email];
                 c == Change(row.clientId, DetachOps(row.inbounds), c.gen, true) && desk.nextGen < c.gen <= after.nextGen
  {
    hide DetachOps;
    if emails != [] {
      RecoveredAt(desk, emails[..|emails| - 1], email);
      assert emails == emails[..|emails| - 1] + [emails[|emails| - 1]];
    }
  }

  lemma RecoverTraced(s: State, step: Step, email: string)
    requires step.Recover? && Possible(s, step) && Tracks(s, step) && TracedAt(s, email)
    ensures TracedAt(Next(s, step), email)
  {
    hide Tracks, Named, QueuedRight, Recovered, DetachOps;
    var s' := Next(s, step);
    RecoveredAt(s.desk, step.emails, email);
    if email in step.emails {
      var row := s.desk.tables.roster[email];
      TrackedNames(s, step, email);
      DetachesQueued(row, row.clientId, row.inbounds, s'.desk.pending[email].gen, true);
      FollowedTraced(UserAt(s, email), UserAt(s', email));
    } else {
      assert UserAt(s', email) == UserAt(s, email);
    }
  }

  lemma TouchesSplits(ops: seq<Op>, t: string)
    ensures Touches(ops, t) <==> Leaves(ops, t) || Joins(ops, t)
    ensures Joins(ops, t) <==> Plans(ops, Attach, t) || Plans(ops, Rotate, t)
    ensures Plans(ops, Detach, t) <==> Leaves(ops, t)
  {}

  /** Whatever a change may put on an inbound, its row or queue names. */
  lemma JoinsNamed(u: User, change: Change, rendered: bool, t: string)
    requires Awaited(u, change, rendered) && Joins(change.ops, t)
    ensures Named(u.row, u.pending, t)
  {
    hide Joins, Leaves, Touches, Apart;
    TouchesSplits(change.ops, t);
  }

  lemma RenderedTraced(u: User, change: Change)
    requires Traced(u) && Awaited(u, change, false)
    ensures var v := u.(file := PushAll(u.file, change.id, change.ops)); Traced(v) && Awaited(v, change, true)
  {
    hide Named, QueuedRight, PushAll, Apart, Joins, Leaves, Touches, Plans, Awaited;
    var v := u.(file := PushAll(u.file, change.id, change.ops));
    AwaitedApart(u, change, false);
    forall t
      ensures t in v.file ==> Named(u.row, u.pending, t) && !Leaves(change.ops, t)
    {
      RunOnTag(u.file, change.id, change.ops, t);
      TouchesSplits(change.ops, t);
      if Joins(change.ops, t) {
        JoinsNamed(u, change, false, t);
      }
    }
    AwaitedRendered(u, v, change);
  }

  lemma AwaitedApart(u: User, change: Change, rendered: bool)
    requires Awaited(u, change, rendered)
    ensures Apart(change.ops) && u.row.Some?
  {}

  lemma AwaitedRendered(u: User, v: User, change: Change)
    requires Awaited(u, change, false) && v == u.(file := v.file) && forall t :: t in v.file ==> !Leaves(change.ops, t)
    ensures Awaited(v, change, true)
  {}

  /** One operation reaching the server, or the first half of a rotate. */
  lemma PushedTraced(u: User, change: Change, done: nat, half: bool)
    requires Traced(u) && Visited(u, change, done) && done < |change.ops| && (half ==> change.ops[done].kind == Rotate)
    ensures var v := u.(live := PushedLive(u.live, change, done, half)); Traced(v) && Visited(v, change, done + 1)
    ensures change.ops[done].kind == Rotate ==>
              var v := u.(live := RemoveUser(u.live, change.ops[done].tag)); Traced(v) && Visited(v, change, done)
  {
    hide Named, QueuedRight, Leaves, Touches, Plans;
    var op := change.ops[done];
    if op.kind != Detach {
      assert Joins(change.ops, op.tag);
      JoinsNamed(u, change, true, op.tag);
    }
  }

  lemma RestartedTraced(u: User, change: Change, done: nat)
    requires Visited(u, change, done)
    ensures Visited(u.(live := u.file), change, done)
  {
    hide Named, Apart;
    forall i | 0 <= i < done && change.ops[i].kind == Detach
      ensures Leaves(change.ops, change.ops[i].tag)
    {}
  }

  /** A change pushed to the end: no detached inbound is left, live or in the file. */
  lemma PushedToTheEnd(u: User, change: Change, t: string)
    requires Visited(u, change, |change.ops|) && SameChange(u, change) && Leaves(change.ops, t)
    ensures t !in u.live && t !in u.file
  {
    hide Named, Apart, Joins;
    var i :| 0 <= i < |change.ops| && change.ops[i].tag == t && change.ops[i].kind == Detach;
  }

  /** So a purge whose detaches are done finds the user nowhere, and any other change leaves nothing its row does not name. */
  lemma SettledTraced(u: User, change: Change, commits: bool)
    requires Traced(u) && Visited(u, change, |change.ops|) && SameChange(u, change)
    ensures Traced(SettledUser(u, change, commits))
    ensures change.purge ==> u.live == map[] && u.file == map[]
  {
    hide Named, Visited, Awaited, Joins, Leaves, Touches, Apart;
    SettledParts(u, change);
    var v := SettledUser(u, change, commits);
    forall t | t in u.live || t in u.file
      ensures !change.purge && Named(v.row, v.pending, t)
    {
      NamedParts(u, t);
      TouchesSplits(change.ops, t);
      if Leaves(change.ops, t) {
        PushedToTheEnd(u, change, t);
      }
      if !change.purge {
        InRowNamed(u.row.value, t);
      }
    }
    if change.purge {
      assert forall t :: t !in u.live && t !in u.file;
      assert u.live == map[] && u.file == map[];
    }
    NothingApart();
  }

  lemma NothingApart()
    ensures Apart([]) && forall t :: !Joins([], t)
  {}

  lemma SettledParts(u: User, change: Change)
    requires Visited(u, change, |change.ops|) && SameChange(u, change)
    ensures u.row.Some? && u.pending == Some(change)
  {}

  lemma NamedParts(u: User, t: string)
    requires Traced(u) && (t in u.live || t in u.file) && u.row.Some? && u.pending.Some?
    ensures (t in u.row.value.inbounds && !u.pending.value.purge) || Touches(u.pending.value.ops, t)
  {
    hide QueuedRight;
  }

  lemma InRowNamed(row: U.RosterRow, t: string)
    requires t in row.inbounds
    ensures Named(Some(row), None, t)
  {}

  lemma RenderTraced(s: State, step: Step, email: string)
    requires step.Render? && Possible(s, step) && TracedAt(s, email)
    ensures TracedAt(Next(s, step), email)
  {
    hide Traced, Awaited, PushAll, MutatedDesk, MutationPossible, Lacking, Listed, Recovered, Settled;
    var u, s', snap := UserAt(s, email), Next(s, step), s.pass.snap;
    if step.ok && email in snap {
      RenderedTraced(u, snap[email]);
      assert UserAt(s', email) == u.(file := PushAll(u.file, snap[email].id, snap[email].ops));
    } else {
      assert UserAt(s', email) == u;
    }
  }

  lemma PushTraced(s: State, step: Step, email: string)
    requires (step.PushOp? || step.HalfPush?) && Possible(s, step) && TracedAt(s, email)
    ensures TracedAt(Next(s, step), email)
  {
    hide Traced, Awaited, Visited, PushedLive;
    var u, s', p := UserAt(s, email), Next(s, step), s.pass;
    if email == p.email {
      var change := p.snap[email];
      PushedTraced(u, change, p.done, p.half);
      if step.HalfPush? {
        assert UserAt(s', email) == u.(live := RemoveUser(u.live, change.ops[p.done].tag));
      } else {
        assert UserAt(s', email) == u.(live := PushedLive(u.live, change, p.done, p.half));
      }
    } else {
      assert UserAt(s', email) == u;
    }
  }

  lemma SettleTraced(s: State, step: Step, email: string)
    requires step.Settle? && Possible(s, step) && TracedAt(s, email)
    ensures TracedAt(Next(s, step), email)
  {
    hide Traced, Awaited, Visited, MutatedDesk, MutationPossible, Lacking, Listed, Recovered;
    var u, s', p := UserAt(s, email), Next(s, step), s.pass;
    var change := p.snap[p.email];
    if email == p.email && !Superseded(s.desk, email, change.gen) {
      SettledParts(u, change);
      PurgesDeleting(u);
      SettledTraced(u, change, step.commits);
      assert UserAt(s', email) == SettledUser(u, change, step.commits);
    } else {
      assert UserAt(s', email) == u;
    }
  }

  lemma PurgesDeleting(u: User)
    requires Traced(u)
    ensures Purging(u.pending) ==> u.row.Some? && u.row.value.deleting
  {}

  lemma ChooseTraced(s: State, step: Step, email: string)
    requires (step.Choose? || step.Skip? || step.FailPush? || step.Finish? || step.Start?) && Possible(s, step) && TracedAt(s, email)
    ensures TracedAt(Next(s, step), email)
  {
    hide Traced, Awaited, MutatedDesk, MutationPossible, Lacking, Listed, Recovered, RenderedFile, Settled;
    assert UserAt(Next(s, step), email) == UserAt(s, email);
    if step.Start? && email in s.desk.pending {
      SnapshotAwaited(UserAt(s, email), s.desk.pending[email]);
    }
  }

  lemma SnapshotAwaited(u: User, change: Change)
    requires Traced(u) && u.pending == Some(change)
    ensures Awaited(u, change, false)
  {}

  lemma RestartXrayTraced(s: State, email: string)
    requires TracedAt(s, email)
    ensures TracedAt(Next(s, RestartXray), email)
  {
    hide Traced, Awaited, Visited;
    var u := UserAt(s, email);
    var v := u.(live := u.file);
    assert UserAt(Next(s, RestartXray), email) == v;
    FileTraced(u);
    forall change, rendered | Awaited(u, change, rendered)
      ensures Awaited(v, change, rendered)
    {
      FileAwaited(u, change, rendered);
    }
    if s.pass.AtUser? && s.pass.email == email {
      RestartedTraced(u, s.pass.snap[email], s.pass.done);
    }
  }

  lemma FileTraced(u: User)
    requires Traced(u)
    ensures Traced(u.(live := u.file))
  {
    hide Named, QueuedRight;
  }

  lemma FileAwaited(u: User, change: Change, rendered: bool)
    requires Awaited(u, change, rendered)
    ensures Awaited(u.(live := u.file), change, rendered)
  {}

  /** The steps of convergence that only read. */
  lemma ReadTraced(s: State, step: Step, email: string)
    requires step.List? || step.Check? || step.Overlook? || step.Confirm? || step.EndConverge?
    requires Possible(s, step) && TracedAt(s, email)
    ensures TracedAt(Next(s, step), email)
  {
    hide Traced, Lacking, Listed;
    assert UserAt(Next(s, step), email) == UserAt(s, email);
  }

  lemma StepTraced(s: State, step: Step, email: string)
    requires Possible(s, step) && Tracks(s, step) && TracedAt(s, email)
    ensures TracedAt(Next(s, step), email)
  {
    hide Possible, Next, TracedAt, Tracks;
    if Mutates(step) {
      MutationTraced(s, step, email);
    } else {
      match step
      case Requeue => RequeueTraced(s, email);
      case Restart => RestartTraced(s, email);
      case Recover(_) => RecoverTraced(s, step, email);
      case RestartXray => RestartXrayTraced(s, email);
      case Render(_) => RenderTraced(s, step, email);
      case PushOp => PushTraced(s, step, email);
      case HalfPush => PushTraced(s, step, email);
      case Settle(_) => SettleTraced(s, step, email);
      case Choose(_) => ChooseTraced(s, step, email);
      case Skip(_) => ChooseTraced(s, step, email);
      case FailPush => ChooseTraced(s, step, email);
      case Finish => ChooseTraced(s, step, email);
      case Start => ChooseTraced(s, step, email);
      case _ => ReadTraced(s, step, email);
    }
  }

  // ----- Runs

  lemma {:induction false} RunsStayTraced(s: State, steps: seq<Step>, email: string)
    requires TracedAt(s, email) && RanAny(s, steps).Some? && Always(s, steps, Tracks)
    ensures TracedAt(RanAny(s, steps).value, email)
  {
    hide TracedAt, Possible, Next, Always, Tracks;
    if steps != [] {
      AlwaysBefore(s, steps, Tracks);
      RunsStayTraced(s, steps[..|steps| - 1], email);
      StepTraced(RanAny(s, steps[..|steps| - 1]).value, steps[|steps| - 1], email);
    }
  }

  /** In every run that keeps track, whatever fails: a user's rows are erased only when no entry and no credential is left. */
  lemma TrackedPurgesLeaveNothing(steps: seq<Step>, step: Step, email: string)
    requires RanAny(FRESH, steps).Some? && Always(FRESH, steps, Tracks)
    requires var s := RanAny(FRESH, steps).value;
             Possible(s, step) && email in s.desk.tables.roster && email !in Next(s, step).desk.tables.roster
    ensures step.Settle?
    ensures var s := RanAny(FRESH, steps).value; Of(s.live, email) == map[] && Of(s.file, email) == map[]
  {
    hide RanAny, Possible, Next, TracedAt, Always, Tracks;
    FreshTraced(email);
    RunsStayTraced(FRESH, steps, email);
    var s := RanAny(FRESH, steps).value;
    OnlySettleErases(s, step, email);
    SettleTraced(s, step, email);
    GoneIsNowhere(Next(s, step), email);
  }

  lemma FreshTraced(email: string)
    ensures TracedAt(FRESH, email)
  {}

  lemma GoneIsNowhere(s: State, email: string)
    requires TracedAt(s, email) && email !in s.desk.tables.roster
    ensures Of(s.live, email) == map[] && Of(s.file, email) == map[]
  {}

  // ----- Which steps keep track

  /** What a mutation leaves named of its user. */
  lemma MutationNames(s: State, step: Step, t: string)
    requires Mutates(step) && !step.Add? && Possible(s, step) && TracedAt(s, step.email)
    ensures var u, v := UserAt(s, step.email), UserAt(Next(s, step), step.email);
            var prev := PendingOps(s.desk, step.email);
            && (Named(u.row, u.pending, t) <==> t in u.row.value.inbounds || Touches(prev, t))
            && (step.Edit? ==> (Named(u.row, u.pending, t) ==> Named(v.row, v.pending, t)))
            && (step.Delete? || step.Disable? ==>
                  (Named(v.row, v.pending, t) <==>
                   t in u.row.value.inbounds || (step.commits && if step.Delete? then Touches(prev, t) else Joins(prev, t))))
            && (step.Enable? ==>
                  (Named(v.row, v.pending, t) <==> t in u.row.value.inbounds || (u.row.value.inbounds == [] && Touches(prev, t))))
  {
    hide DiffOps, DetachOps, TouchedTags, AttachOps, JoinedTags, Touches, Joins, QueuedRight, PassTraced;
    var u := UserAt(s, step.email);
    var row, prev := u.row.value, PendingOps(s.desk, step.email);
    PurgesDeleting(u);
    NothingPlanned(t);
    match step
    case Edit(email, newId, tags, x) => EditNames(u, EditedRecord(s.desk.tables, email, newId, tags), x.flows, t);
    case Delete(_, _, _) =>
      TouchedOf(row.inbounds, prev, t);
      DetachesOf(TouchedTags(row.inbounds, prev), t);
    case Disable(_, _, _) =>
      JoinedOf(row.inbounds, prev, t);
      DetachesOf(JoinedTags(row.inbounds, prev), t);
    case Enable(_, x) =>
      AttachesOf(row.inbounds, x.flows, t);
      TouchesSplits(AttachOps(row.inbounds, x.flows), t);
  }

  lemma EditNames(u: User, after: Record, flows: map<string, string>, t: string)
    requires Traced(u) && u.row.Some? && !u.row.value.disabled
    ensures var ops := DiffOps(Record(u.row.value.clientId, u.row.value.inbounds), after, flows, OpsOf(u.pending));
            t in u.row.value.inbounds || Touches(OpsOf(u.pending), t) ==> t in after.tags || Touches(ops, t)
  {
    hide DiffOps, Joins, Leaves, Plans, Touches, Apart;
    var before, prev := Record(u.row.value.clientId, u.row.value.inbounds), OpsOf(u.pending);
    DiffOpsOnTag(before, after, flows, prev, t);
    TouchesSplits(prev, t);
    TouchesSplits(DiffOps(before, after, flows, prev), t);
    NothingPlanned(t);
  }

  lemma TracksItsUser(s: State, step: Step)
    requires Mutates(step) && Possible(s, step)
    ensures var u, v := UserAt(s, step.email), UserAt(Next(s, step), step.email);
            Tracks(s, step) <==> forall t :: Named(u.row, u.pending, t) ==> Named(v.row, v.pending, t)
  {
    hide Possible, Next, Named;
    var s' := Next(s, step);
    if forall t :: Named(UserAt(s, step.email).row, UserAt(s, step.email).pending, t) ==>
                     Named(UserAt(s', step.email).row, UserAt(s', step.email).pending, t) {
      forall e, t: string | Named(RowAt(s.desk, e), PendingAt(s.desk, e), t)
        ensures Named(RowAt(s'.desk, e), PendingAt(s'.desk, e), t)
      {
        assert UserAt(s, e).row == RowAt(s.desk, e) && UserAt(s, e).pending == PendingAt(s.desk, e);
        assert UserAt(s', e).row == RowAt(s'.desk, e) && UserAt(s', e).pending == PendingAt(s'.desk, e);
        if e != step.email {
          MutationSame(s, step, e);
        }
      }
    } else if Tracks(s, step) {
      TrackedNames(s, step, step.email);
    }
  }

  /** The mutations that always keep track. */
  predicate AlwaysTracks(step: Step, inbounds: seq<string>) {
    step.Edit? || (step.Delete? && step.commits) || (step.Enable? && inbounds == [])
  }

  /** The others keep track exactly if the change they drop names only inbounds of the row. */
  lemma MutationsTrackExactly(s: State, step: Step)
    requires Mutates(step) && !step.Add? && Possible(s, step) && TracedAt(s, step.email)
    ensures var inbounds, prev := s.desk.tables.roster[step.email].inbounds, PendingOps(s.desk, step.email);
            Tracks(s, step) <==> AlwaysTracks(step, inbounds) || Within(prev, inbounds)
  {
    var inbounds := s.desk.tables.roster[step.email].inbounds;
    hide Possible, Next, Named, TracedAt, Tracks, Touches, Joins;
    var u, v, prev := UserAt(s, step.email), UserAt(Next(s, step), step.email), PendingOps(s.desk, step.email);
    TracksItsUser(s, step);
    forall t
      ensures Named(u.row, u.pending, t) <==> t in inbounds || Touches(prev, t)
      ensures AlwaysTracks(step, inbounds) && Named(u.row, u.pending, t) ==> Named(v.row, v.pending, t)
      ensures !AlwaysTracks(step, inbounds) ==> (Named(v.row, v.pending, t) <==> t in inbounds)
    {
      MutationNames(s, step, t);
      JoinsInRow(s, step, t);
    }
    WithinTouches(prev, inbounds);
  }

  lemma JoinsInRow(s: State, step: Step, t: string)
    requires Mutates(step) && !step.Add? && Possible(s, step) && TracedAt(s, step.email)
    ensures Joins(PendingOps(s.desk, step.email), t) ==> t in s.desk.tables.roster[step.email].inbounds
  {
    hide Joins, PassTraced;
    NothingPlanned(t);
  }

  lemma WithinTouches(ops: seq<Op>, tags: seq<string>)
    ensures Within(ops, tags) <==> forall t :: Touches(ops, t) ==> t in tags
  {
    if forall t :: Touches(ops, t) ==> t in tags {
      forall i | 0 <= i < |ops|
        ensures ops[i].tag in tags
      {
        assert Touches(ops, ops[i].tag);
      }
    }
  }

  lemma UnqueuedNames(row: U.RosterRow, change: Change)
    ensures Within(change.ops, row.inbounds) <==> forall t :: Named(Some(row), Some(change), t) ==> Named(Some(row), None, t)
  {
    hide Touches;
    WithinTouches(change.ops, row.inbounds);
    forall t
      ensures !Touches([], t)
    {
      NothingPlanned(t);
    }
    if !Within(change.ops, row.inbounds) {
      var t :| Touches(change.ops, t) && t !in row.inbounds;
      assert Named(Some(row), Some(change), t);
    }
  }

  /** A restart keeps track exactly if every queued change names only inbounds of its row. */
  lemma RestartTracksExactly(s: State)
    requires AllTraced(s)
    ensures Tracks(s, Restart) <==>
            forall e :: e in s.desk.pending ==>
                          e in s.desk.tables.roster && Within(s.desk.pending[e].ops, s.desk.tables.roster[e].inbounds)
  {
    hide QueuedRight, PassTraced, Touches, Named, Within;
    var s' := Next(s, Restart);
    forall e: string
      ensures e in s.desk.pending ==>
                && e in s.desk.tables.roster
                && (Within(s.desk.pending[e].ops, s.desk.tables.roster[e].inbounds)
                    <==> forall t :: Named(RowAt(s.desk, e), PendingAt(s.desk, e), t) ==> Named(RowAt(s'.desk, e), PendingAt(s'.desk, e), t))
      ensures e !in s.desk.pending ==> PendingAt(s.desk, e) == PendingAt(s'.desk, e)
    {
      assert TracedAt(s, e);
      if e in s.desk.pending {
        assert e in s.desk.tables.roster;
        var row, change := s.desk.tables.roster[e], s.desk.pending[e];
        UnqueuedNames(row, change);
        assert RowAt(s.desk, e) == RowAt(s'.desk, e) == Some(row);
        assert PendingAt(s.desk, e) == Some(change) && PendingAt(s'.desk, e) == None;
      }
    }
  }
}
