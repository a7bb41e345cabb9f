/** What holds of every user at every step of every run. */
module RosterRuns {
  import opened Options
  import opened RosterMachine
  import opened RosterPlan
  import opened RosterSafety
  import opened Sequences
  import U = UserStore

  /** One user across store, queue, file and running xray. */
  datatype User = User(row: Option<U.RosterRow>, pending: Option<Change>, file: Live, live: Live)

  function UserAt(s: State, email: string): User {
    User(if email in s.desk.tables.roster then Some(s.desk.tables.roster[email]) else None,
         if email in s.desk.pending then Some(s.desk.pending[email]) else None,
         Of(s.file, email), Of(s.live, email))
  }

  /** What the row asks of file and server: nothing while it is disabled, or marked deleting. */
  function Target(row: U.RosterRow): Record { Record(row.clientId, if row.disabled then [] else row.inbounds) }

  function OpsOf(pending: Option<Change>): seq<Op> { if pending.Some? then pending.value.ops else [] }

  predicate ChangeOk(row: U.RosterRow, change: Change) {
    && change.id == row.clientId && change.purge == row.deleting
    && (change.ops == [] ==> change.purge) && DistinctTags(change.ops)
  }

  predicate UserOk(u: User) {
    match u.row
    case None => u.pending.None? && u.file == map[] && u.live == map[]
    case Some(row) =>
      && (row.deleting ==> row.disabled) && NoRepeats(row.inbounds)
      && Settling(u.live, Target(row), OpsOf(u.pending)) && Settling(u.file, Target(row), OpsOf(u.pending))
      && (u.pending.Some? ==> ChangeOk(row, u.pending.value))
      && (row.deleting ==> u.pending.Some?)
  }

  /** A user a pass still has before it: its change is the one of the snapshot, or covers that one. */
  predicate AwaitsPass(u: User, change: Change, rendered: bool) {
    && u.pending.Some? && u.row.Some? && change.gen <= u.pending.value.gen
    && if change.gen == u.pending.value.gen then u.pending.value == change && (rendered ==> u.file == Exactly(Target(u.row.value)))
       else Covers(u.pending.value.ops, change.ops)
  }

  /** The user a pass is pushing. */
  predicate UnderPush(u: User, change: Change, done: nat, half: bool) {
    && AwaitsPass(u, change, true) && done <= |change.ops|
    && (half ==> done < |change.ops| && change.ops[done].kind == Rotate
                 && (change.gen == u.pending.value.gen && change.ops[done].tag in u.live ==> u.live[change.ops[done].tag] == change.id))
    && (change.gen == u.pending.value.gen ==> AllDone(u.live, change.id, change.ops, done))
  }

  predicate PassOk(s: State, email: string) {
    match s.pass
    case Idle => true
    case Converging(listed) => email in listed ==> NoRepeats(listed[email].tags)
    case Checked(listed, at, _, tags, _, _) =>
      (email in listed ==> NoRepeats(listed[email].tags)) && (email == at ==> NoRepeats(tags) && tags != [])
    case Rendering(snap) => email in snap ==> AwaitsPass(UserAt(s, email), snap[email], false)
    case Pushing(snap, todo) => todo <= snap.Keys && (email in todo ==> AwaitsPass(UserAt(s, email), snap[email], true))
    case AtUser(snap, todo, at, done, half) =>
      && todo <= snap.Keys && at in snap && at !in todo
      && (email in todo ==> AwaitsPass(UserAt(s, email), snap[email], true))
      && (email == at ==> UnderPush(UserAt(s, email), snap[email], done, half))
  }

  predicate GenOk(desk: Desk, email: string) { email in desk.pending ==> desk.pending[email].gen <= desk.nextGen }

  ghost predicate Invariant(s: State) {
    forall e: string :: UserOk(UserAt(s, e)) && PassOk(s, e) && GenOk(s.desk, e)
  }

  /** A change whose only operations attach some of these tags. */
  predicate OnlyAttaches(ops: seq<Op>, tags: seq<string>) {
    forall i :: 0 <= i < |ops| ==> ops[i].kind == Attach && ops[i].tag in tags
  }

  /** What convergence is about to queue still fits the row, and overwrites nothing it does not do itself. */
  predicate StillFits(desk: Desk, email: string, id: string, tags: seq<string>) {
    && U.LiveRow(desk.tables, email) && desk.tables.roster[email].clientId == id
    && (forall t :: t in tags ==> t in desk.tables.roster[email].inbounds)
    && OnlyAttaches(PendingOps(desk, email), tags)
  }

  /**
   * The runs the claims are about: edits that re-attach no owed tag, disables that drop none, adds and enables of users
   * with nothing unfinished, no write that fails over an unfinished change, convergence that is not overtaken.
   */
  ghost predicate Careful(s: State, step: Step)
    requires Possible(s, step)
  {
    match step
    case Add(email, _, tags, _, _) => NoRepeats(tags) && email !in s.desk.pending
    case Edit(email, newId, tags, _) =>
      NoRepeats(tags) && NoReattach(PendingOps(s.desk, email), EditedRecord(s.desk.tables, email, newId, tags))
    case Delete(email, _, commits) => commits || email !in s.desk.pending
    case Disable(email, _, commits) =>
      if commits then Within(PendingOps(s.desk, email), s.desk.tables.roster[email].inbounds) else email !in s.desk.pending
    case Enable(email, _) => email !in s.desk.pending
    case Restart => s.desk.pending == map[]
    case Recover(emails) => emails == []
    case Requeue => StillFits(s.desk, s.pass.email, s.pass.id, s.pass.tags)
    case _ => true
  }

  // ----- Mutations, seen from their user

  function Queued(u: User, row: U.RosterRow, ops: seq<Op>, gen: nat, purge: bool): User {
    u.(row := Some(row), pending := if ops == [] && !purge then None else Some(Change(row.clientId, ops, gen, purge)))
  }

  /** A new user, or a disabled one who comes back. */
  lemma AddedUser(u: User, row: U.RosterRow, flows: map<string, string>, gen: nat)
    requires UserOk(u) && u.pending.None? && (u.row.Some? ==> u.row.value.disabled)
    requires !row.disabled && !row.deleting && NoRepeats(row.inbounds)
    ensures UserOk(Queued(u, row, AttachOps(row.inbounds, flows), gen, false))
  {
    hide Settling;
    if u.row.Some? {
      SettledIsExact(u.live, Target(u.row.value));
      SettledIsExact(u.file, Target(u.row.value));
      NothingExactly(u.row.value.clientId);
    }
    AddKeeps(Target(row), flows);
    AttachesDistinct(row.inbounds, flows);
    if row.inbounds == [] {
      assert AttachOps([], flows) == [];
    }
  }

  lemma AttachesDistinct(tags: seq<string>, flows: map<string, string>)
    requires NoRepeats(tags)
    ensures DistinctTags(AttachOps(tags, flows))
  {}

  lemma EditedUser(u: User, row: U.RosterRow, flows: map<string, string>, gen: nat)
    requires UserOk(u) && u.row.Some? && !u.row.value.disabled && !row.disabled && !row.deleting && NoRepeats(row.inbounds)
    requires NoReattach(OpsOf(u.pending), Target(row))
    ensures UserOk(Queued(u, row, DiffOps(Target(u.row.value), Target(row), flows, OpsOf(u.pending)), gen, false))
  {
    hide Settling, DiffOps, NoReattach;
    var before, prev := Target(u.row.value), OpsOf(u.pending);
    EditKeeps(u.live, before, prev, Target(row), flows);
    EditKeeps(u.file, before, prev, Target(row), flows);
    SettlingFits(u.live, before, prev);
    PrevDistinct(u);
    EditPlansOnceExactly(before, prev, Target(row), flows);
  }

  lemma SettlingFits(live: Live, rec: Record, ops: seq<Op>)
    requires Settling(live, rec, ops)
    ensures Fits(ops, rec)
  {}

  lemma PrevDistinct(u: User)
    requires UserOk(u) && u.row.Some?
    ensures DistinctTags(OpsOf(u.pending))
  {
    hide Settling;
  }

  lemma EditAwaits(u: User, row: U.RosterRow, flows: map<string, string>, gen: nat, change: Change, rendered: bool)
    requires UserOk(u) && AwaitsPass(u, change, rendered) && !u.row.value.disabled && gen > u.pending.value.gen
    requires NoReattach(OpsOf(u.pending), Target(row))
    ensures AwaitsPass(Queued(u, row, DiffOps(Target(u.row.value), Target(row), flows, OpsOf(u.pending)), gen, false), change, rendered)
  {
    hide Settling, DiffOps, NoReattach, Covers, DistinctTags;
    var before, prev := Target(u.row.value), OpsOf(u.pending);
    SettlingFits(u.live, before, prev);
    EditCovers(before, prev, Target(row), flows);
    if change.gen != u.pending.value.gen {
      EditCoversOlder(before, prev, Target(row), flows, change.ops);
    }
    NotEmptied(DiffOps(before, Target(row), flows, prev), prev);
  }

  lemma NotEmptied(ops: seq<Op>, older: seq<Op>)
    requires Covers(ops, older) && older != []
    ensures ops != []
  {
    CoversOnTag(ops, older, 0);
  }

  lemma DeletedUser(u: User, row: U.RosterRow, gen: nat)
    requires UserOk(u) && u.row.Some? && !u.row.value.deleting
    requires row.disabled && row.deleting && row.clientId == u.row.value.clientId && row.inbounds == u.row.value.inbounds
    ensures UserOk(Queued(u, row, DetachOps(TouchedTags(row.inbounds, OpsOf(u.pending))), gen, true))
  {
    hide Settling, DetachOps, TouchedTags;
    DeleteKeeps(u.live, Target(u.row.value), OpsOf(u.pending), row.inbounds);
    DeleteKeeps(u.file, Target(u.row.value), OpsOf(u.pending), row.inbounds);
    TouchedDistinct(row.inbounds, OpsOf(u.pending));
  }

  lemma DisabledUser(u: User, row: U.RosterRow, gen: nat)
    requires UserOk(u) && u.row.Some? && !u.row.value.disabled && Within(OpsOf(u.pending), row.inbounds)
    requires row.disabled && !row.deleting && row.clientId == u.row.value.clientId && row.inbounds == u.row.value.inbounds
    ensures UserOk(Queued(u, row, DetachOps(JoinedTags(row.inbounds, OpsOf(u.pending))), gen, false))
  {
    hide Settling, DetachOps, JoinedTags;
    var joined := JoinedTags(row.inbounds, OpsOf(u.pending));
    DisableKeeps(u.live, Target(u.row.value), OpsOf(u.pending));
    DisableKeeps(u.file, Target(u.row.value), OpsOf(u.pending));
    JoinedOf(row.inbounds, OpsOf(u.pending), "");
    DetachesDistinct(joined);
    DetachCount(joined);
  }

  lemma DetachesDistinct(tags: seq<string>)
    requires NoRepeats(tags)
    ensures DistinctTags(DetachOps(tags))
  {}

  lemma DetachCount(tags: seq<string>)
    ensures DetachOps(tags) == [] <==> tags == []
  {}

  lemma DisableAwaits(u: User, row: U.RosterRow, gen: nat, change: Change, rendered: bool)
    requires UserOk(u) && AwaitsPass(u, change, rendered) && gen > u.pending.value.gen && !u.row.value.disabled
    requires Within(OpsOf(u.pending), row.inbounds)
    ensures AwaitsPass(Queued(u, row, DetachOps(JoinedTags(row.inbounds, OpsOf(u.pending))), gen, false), change, rendered)
  {
    hide Settling, DetachOps, JoinedTags, Covers, DistinctTags, Within;
    var prev := OpsOf(u.pending);
    forall i | 0 <= i < |change.ops|
      ensures Touches(prev, change.ops[i].tag)
    {
      if change.gen != u.pending.value.gen {
        CoversOnTag(prev, change.ops, i);
      }
    }
    DisableCovers(row.inbounds, prev, change.ops);
    DisableCovers(row.inbounds, prev, prev);
    NotEmptied(DetachOps(JoinedTags(row.inbounds, prev)), prev);
  }

  lemma EnabledUser(u: User, row: U.RosterRow, flows: map<string, string>, gen: nat)
    requires UserOk(u) && u.pending.None? && u.row.Some? && u.row.value.disabled
    requires !row.disabled && !row.deleting && row.inbounds == u.row.value.inbounds
    ensures UserOk(Queued(u, row, AttachOps(row.inbounds, flows), gen, false))
  {
    hide Settling;
    AddedUser(u, row, flows, gen);
  }

  lemma DeleteAwaits(u: User, row: U.RosterRow, gen: nat, change: Change, rendered: bool)
    requires UserOk(u) && AwaitsPass(u, change, rendered) && gen > u.pending.value.gen
    ensures AwaitsPass(Queued(u, row, DetachOps(TouchedTags(row.inbounds, OpsOf(u.pending))), gen, true), change, rendered)
  {
    hide UserOk, DetachOps, TouchedTags, Covers;
    forall i | 0 <= i < |change.ops|
      ensures Touches(OpsOf(u.pending), change.ops[i].tag)
    {
      if change.gen != u.pending.value.gen {
        CoversOnTag(u.pending.value.ops, change.ops, i);
      }
    }
    DeleteCovers(row.inbounds, OpsOf(u.pending), change.ops);
  }

  lemma RequeuedUser(u: User, tags: seq<string>, flows: map<string, string>, gen: nat)
    requires UserOk(u) && u.row.Some? && !u.row.value.disabled && NoRepeats(tags) && tags != []
    requires OnlyAttaches(OpsOf(u.pending), tags) && forall x :: x in tags ==> x in u.row.value.inbounds
    ensures UserOk(Queued(u, u.row.value, AttachOps(tags, flows), gen, false))
  {
    hide Settling, OnlyAttaches, AttachOps, DistinctTags;
    var rec := Target(u.row.value);
    AttachesDistinct(tags, flows);
    AttachCount(tags, flows);
    OverwriteKeeps(u.live, rec, OpsOf(u.pending), tags, flows);
    OverwriteKeeps(u.file, rec, OpsOf(u.pending), tags, flows);
  }

  lemma OverwriteKeeps(live: Live, rec: Record, prev: seq<Op>, tags: seq<string>, flows: map<string, string>)
    requires Settling(live, rec, prev) && OnlyAttaches(prev, tags) && forall x :: x in tags ==> x in rec.tags
    ensures Settling(live, rec, AttachOps(tags, flows))
  {
    var ops := AttachOps(tags, flows);
    forall t
      ensures t in tags <==> Touches(ops, t)
    {
      if t in tags {
        var i :| 0 <= i < |tags| && tags[i] == t;
        assert ops[i].tag == t;
      }
    }
    forall t | Touches(prev, t)
      ensures Plans(prev, Attach, t) && t in tags
    {}
  }

  // ----- Passes, seen from their user

  lemma RenderedUser(u: User, change: Change)
    requires UserOk(u) && AwaitsPass(u, change, false)
    ensures var v := u.(file := PushAll(u.file, change.id, change.ops)); UserOk(v) && AwaitsPass(v, change, true)
  {
    hide Settling, Covers, DistinctTags, PushAll;
    var rec, ops := Target(u.row.value), OpsOf(u.pending);
    assert change.ops[..|change.ops|] == change.ops;
    if change.gen == u.pending.value.gen {
      FullRunIsExact(u.file, rec, ops);
      PushAllKeeps(u.file, rec, ops, |ops|);
    } else {
      OlderRunKeeps(u.file, rec, ops, change.ops, change.id, |change.ops|);
    }
  }

  lemma HalfPushedUser(u: User, change: Change, done: nat)
    requires UserOk(u) && UnderPush(u, change, done, false) && done < |change.ops| && change.ops[done].kind == Rotate
    ensures var v := u.(live := RemoveUser(u.live, change.ops[done].tag)); UserOk(v) && UnderPush(v, change, done, true)
  {
    hide Settling, Covers;
    var rec, ops := Target(u.row.value), OpsOf(u.pending);
    if change.gen == u.pending.value.gen {
      PushKeeps(u.live, rec, ops, done);
      RemovalKeepsDone(u.live, change.id, ops, done);
    } else {
      OlderPushKeeps(u.live, rec, ops, change.ops, change.id, done);
    }
  }

  lemma RemovalKeepsDone(live: Live, id: string, ops: seq<Op>, n: nat)
    requires n < |ops| && AllDone(live, id, ops, n) && DistinctTags(ops)
    ensures AllDone(RemoveUser(live, ops[n].tag), id, ops, n)
  {}

  /** A rotate's add finds the credential gone, unless the xray restarted on the file in between. */
  lemma SecondHalf(live: Live, change: Change, done: nat)
    requires done < |change.ops| && change.ops[done].kind == Rotate
    ensures change.ops[done].tag !in live ==>
              AddUser(live, change.ops[done].tag, change.id) == Push(live, change.id, change.ops[done])
  {
    if change.ops[done].tag !in live {
      assert RemoveUser(live, change.ops[done].tag) == live;
    }
  }

  /** A restarted xray holds what the file does. */
  lemma RestartedUser(u: User, change: Change, done: nat, half: bool)
    requires UserOk(u) && UnderPush(u, change, done, half)
    ensures UnderPush(u.(live := u.file), change, done, half)
  {
    hide Covers, DistinctTags;
    if change.gen == u.pending.value.gen {
      SettlingFits(u.live, Target(u.row.value), change.ops);
    }
  }

  lemma RestartedOk(u: User)
    requires UserOk(u)
    ensures UserOk(u.(live := u.file))
  {
    hide Settling;
  }

  lemma PushedUser(u: User, change: Change, done: nat, half: bool)
    requires UserOk(u) && UnderPush(u, change, done, half) && done < |change.ops|
    ensures var v := u.(live := PushedLive(u.live, change, done, half)); UserOk(v) && UnderPush(v, change, done + 1, false)
  {
    hide Settling, Covers, Push;
    var rec, ops := Target(u.row.value), OpsOf(u.pending);
    if half && change.ops[done].tag in u.live {
      assert PushedLive(u.live, change, done, half) == u.live;
      return;
    }
    if half {
      SecondHalf(u.live, change, done);
    }
    if change.gen == u.pending.value.gen {
      PushKeeps(u.live, rec, ops, done);
      forall j | 0 <= j < done
        ensures Done(Push(u.live, rec.id, ops[done]), rec.id, ops[j])
      {
        PushKeepsDone(u.live, rec, ops, done, j);
      }
    } else {
      OlderPushKeeps(u.live, rec, ops, change.ops, change.id, done);
    }
  }

  /** A user whose change has just been pushed to the end. */
  lemma PushedOff(u: User, change: Change)
    requires UserOk(u) && UnderPush(u, change, |change.ops|, false) && change.gen == u.pending.value.gen
    ensures u.live == Exactly(Target(u.row.value)) && u.file == Exactly(Target(u.row.value))
  {
    hide Settling, DistinctTags;
    AllDoneIsExact(u.live, Target(u.row.value), change.ops);
  }

  function SettledUser(u: User, change: Change, commits: bool): User {
    if !change.purge then u.(pending := None)
    else if commits then u.(row := None, pending := None)
    else u.(pending := Some(Change(change.id, [], change.gen, true)))
  }

  lemma SettledUserOk(u: User, change: Change, commits: bool)
    requires UserOk(u) && UnderPush(u, change, |change.ops|, false) && change.gen == u.pending.value.gen
    ensures UserOk(SettledUser(u, change, commits))
  {
    hide Settling;
    PushedOff(u, change);
    SettledIsExact(u.live, Target(u.row.value));
    SettledIsExact(u.file, Target(u.row.value));
    NothingExactly(u.row.value.clientId);
  }

  // ----- Steps

  /** What the invariant says of one user. */
  predicate OkAt(s: State, email: string) { UserOk(UserAt(s, email)) && PassOk(s, email) && GenOk(s.desk, email) }

  /** A step that leaves the user, and what the pass has to do with them, alone. */
  predicate SameFor(s: State, s': State, email: string) {
    && UserAt(s', email) == UserAt(s, email) && s'.desk.nextGen >= s.desk.nextGen && s'.pass == s.pass
  }

  lemma SameOk(s: State, s': State, email: string)
    requires OkAt(s, email) && SameFor(s, s', email)
    ensures OkAt(s', email)
  {
    hide UserOk, AwaitsPass, UnderPush;
  }

  lemma AddOk(s: State, step: Step)
    requires step.Add? && Possible(s, step) && Careful(s, step) && OkAt(s, step.email)
    ensures OkAt(Next(s, step), step.email)
  {
    hide Settling, Covers, AllDone, AttachOps;
    var u, s' := UserAt(s, step.email), Next(s, step);
    var row := s'.desk.tables.roster[step.email];
    AddedUser(u, row, step.x.flows, s.desk.nextGen + 1);
    AttachCount(step.tags, step.x.flows);
    assert UserAt(s', step.email) == Queued(u, row, AttachOps(step.tags, step.x.flows), s.desk.nextGen + 1, false);
  }

  lemma AttachCount(tags: seq<string>, flows: map<string, string>)
    ensures AttachOps(tags, flows) == [] <==> tags == []
  {}

  /** A user whose change was replaced while the pass was at it. */
  lemma ReplacedUnderPush(u: User, v: User, change: Change, done: nat, half: bool)
    requires UnderPush(u, change, done, half) && AwaitsPass(v, change, true) && v.live == u.live && change.gen != v.pending.value.gen
    ensures UnderPush(v, change, done, half)
  {}

  /** One mutation of a user the pass may still have before it. */
  lemma ReplacedPassOk(s: State, s': State, email: string)
    requires PassOk(s, email) && s'.pass == s.pass && UserAt(s', email).live == UserAt(s, email).live
    requires forall change, rendered :: AwaitsPass(UserAt(s, email), change, rendered) ==>
               && AwaitsPass(UserAt(s', email), change, rendered)
               && UserAt(s', email).pending.Some? && UserAt(s', email).pending.value.gen > change.gen
    ensures PassOk(s', email)
  {
    hide AwaitsPass;
    if s.pass.AtUser? && s.pass.email == email {
      var change := s.pass.snap[email];
      PushAwaits(UserAt(s, email), change, s.pass.done, s.pass.half);
      ReplacedUnderPush(UserAt(s, email), UserAt(s', email), change, s.pass.done, s.pass.half);
    }
  }

  lemma PushAwaits(u: User, change: Change, done: nat, half: bool)
    requires UnderPush(u, change, done, half)
    ensures AwaitsPass(u, change, true)
  {}

  lemma EditOk(s: State, step: Step)
    requires step.Edit? && Possible(s, step) && Careful(s, step) && OkAt(s, step.email)
    ensures OkAt(Next(s, step), step.email)
  {
    hide Settling, Covers, AllDone, DiffOps, UnderPush, NoReattach, UserOk, PassOk, AwaitsPass;
    var u, s' := UserAt(s, step.email), Next(s, step);
    var row, gen := s'.desk.tables.roster[step.email], s.desk.nextGen + 1;
    LiveTarget(u);
    EditedUser(u, row, step.x.flows, gen);
    var v := Queued(u, row, DiffOps(Target(u.row.value), Target(row), step.x.flows, OpsOf(u.pending)), gen, false);
    assert UserAt(s', step.email) == v;
    forall change, rendered | AwaitsPass(u, change, rendered)
      ensures AwaitsPass(v, change, rendered) && v.pending.Some? && v.pending.value.gen > change.gen
    {
      AwaitsPending(u, change, rendered);
      EditAwaits(u, row, step.x.flows, gen, change, rendered);
      AwaitsPending(v, change, rendered);
    }
    ReplacedPassOk(s, s', step.email);
  }

  lemma LiveTarget(u: User)
    requires u.row.Some? && !u.row.value.disabled
    ensures Target(u.row.value) == Record(u.row.value.clientId, u.row.value.inbounds)
  {}

  lemma AwaitsPending(u: User, change: Change, rendered: bool)
    requires AwaitsPass(u, change, rendered)
    ensures u.pending.Some? && u.row.Some? && change.gen <= u.pending.value.gen
  {}

  lemma DeleteOk(s: State, step: Step)
    requires step.Delete? && Possible(s, step) && Careful(s, step) && OkAt(s, step.email)
    ensures OkAt(Next(s, step), step.email)
  {
    hide Settling, Covers, AllDone, DetachOps, TouchedTags, UnderPush, UserOk, PassOk, AwaitsPass;
    var u, s' := UserAt(s, step.email), Next(s, step);
    if !step.commits {
      assert s'.desk.pending == s.desk.pending;
      assert s' == s;
      return;
    }
    var row, gen := s'.desk.tables.roster[step.email], s.desk.nextGen + 1;
    DeletedUser(u, row, gen);
    var v := Queued(u, row, DetachOps(TouchedTags(row.inbounds, OpsOf(u.pending))), gen, true);
    assert UserAt(s', step.email) == v;
    forall change, rendered | AwaitsPass(u, change, rendered)
      ensures AwaitsPass(v, change, rendered) && v.pending.value.gen > change.gen
    {
      AwaitsPending(u, change, rendered);
      DeleteAwaits(u, row, gen, change, rendered);
      AwaitsPending(v, change, rendered);
    }
    ReplacedPassOk(s, s', step.email);
  }

  lemma DisableOk(s: State, step: Step)
    requires step.Disable? && Possible(s, step) && Careful(s, step) && OkAt(s, step.email)
    ensures OkAt(Next(s, step), step.email)
  {
    hide Settling, Covers, AllDone, DetachOps, JoinedTags, UnderPush, UserOk, PassOk, AwaitsPass, Within;
    var u, s' := UserAt(s, step.email), Next(s, step);
    if !step.commits {
      assert s'.desk.pending == s.desk.pending;
      assert s' == s;
      return;
    }
    var row, gen := s'.desk.tables.roster[step.email], s.desk.nextGen + 1;
    DetachCount(JoinedTags(row.inbounds, OpsOf(u.pending)));
    DisabledUser(u, row, gen);
    var v := Queued(u, row, DetachOps(JoinedTags(row.inbounds, OpsOf(u.pending))), gen, false);
    assert UserAt(s', step.email) == v;
    forall change, rendered | AwaitsPass(u, change, rendered)
      ensures AwaitsPass(v, change, rendered) && v.pending.Some? && v.pending.value.gen > change.gen
    {
      AwaitsPending(u, change, rendered);
      DisableAwaits(u, row, gen, change, rendered);
      AwaitsPending(v, change, rendered);
    }
    ReplacedPassOk(s, s', step.email);
  }

  lemma EnableOk(s: State, step: Step)
    requires step.Enable? && Possible(s, step) && Careful(s, step) && OkAt(s, step.email)
    ensures OkAt(Next(s, step), step.email)
  {
    hide Settling, Covers, AllDone, AttachOps;
    var u, s' := UserAt(s, step.email), Next(s, step);
    var row := s'.desk.tables.roster[step.email];
    EnabledUser(u, row, step.x.flows, s.desk.nextGen + 1);
    AttachCount(row.inbounds, step.x.flows);
    assert UserAt(s', step.email) == Queued(u, row, AttachOps(row.inbounds, step.x.flows), s.desk.nextGen + 1, false);
  }

  lemma MutationSame(s: State, step: Step, email: string)
    requires Mutates(step) && Possible(s, step) && email != step.email
    ensures SameFor(s, Next(s, step), email)
  {
    hide DiffOps, DetachOps, TouchedTags, AttachOps, JoinedTags;
  }

  lemma RequeueOk(s: State, step: Step, email: string)
    requires step.Requeue? && Possible(s, step) && Careful(s, step) && OkAt(s, email)
    ensures OkAt(Next(s, step), email)
  {
    hide Settling, AttachOps, OnlyAttaches;
    var u, s', p := UserAt(s, email), Next(s, step), s.pass;
    if email == p.email {
      RequeuedUser(u, p.tags, p.x.flows, s.desk.nextGen + 1);
      AttachCount(p.tags, p.x.flows);
      assert UserAt(s', email) == Queued(u, u.row.value, AttachOps(p.tags, p.x.flows), s.desk.nextGen + 1, false);
    } else {
      assert UserAt(s', email) == u;
    }
  }

  lemma {:induction false} LackingOnce(tags: seq<string>, there: set<string>)
    requires NoRepeats(tags)
    ensures NoRepeats(Lacking(tags, there)) && forall t :: t in Lacking(tags, there) <==> t in tags && t !in there
  {
    if tags != [] {
      LackingOnce(tags[..|tags| - 1], there);
      assert tags == tags[..|tags| - 1] + [tags[|tags| - 1]];
    }
  }

  /** The other steps of convergence only read. */
  lemma ConvergeOk(s: State, step: Step, email: string)
    requires step.List? || step.Check? || step.Overlook? || step.Confirm? || step.EndConverge?
    requires Possible(s, step) && OkAt(s, email)
    ensures OkAt(Next(s, step), email)
  {
    hide Settling, DistinctTags, Lacking;
    assert UserAt(Next(s, step), email) == UserAt(s, email);
    if step.Check? && email == step.email {
      LackingOnce(s.pass.listed[email].tags, step.there);
    }
  }

  lemma RestartXrayOk(s: State, email: string)
    requires OkAt(s, email)
    ensures OkAt(Next(s, RestartXray), email)
  {
    hide UserOk, AwaitsPass, UnderPush;
    var u := UserAt(s, email);
    assert UserAt(Next(s, RestartXray), email) == u.(live := u.file);
    RestartedOk(u);
    if s.pass.AtUser? && s.pass.email == email {
      RestartedUser(u, s.pass.snap[email], s.pass.done, s.pass.half);
    }
    forall change, rendered | AwaitsPass(u, change, rendered)
      ensures AwaitsPass(u.(live := u.file), change, rendered)
    {
      RestartedAwaits(u, change, rendered);
    }
  }

  lemma RestartedAwaits(u: User, change: Change, rendered: bool)
    requires AwaitsPass(u, change, rendered)
    ensures AwaitsPass(u.(live := u.file), change, rendered)
  {}

  lemma RenderOk(s: State, step: Step, email: string)
    requires step.Render? && Possible(s, step) && OkAt(s, email)
    ensures OkAt(Next(s, step), email)
  {
    hide UserOk, AwaitsPass, PushAll;
    var u, s', snap := UserAt(s, email), Next(s, step), s.pass.snap;
    if step.ok && email in snap {
      RenderedUser(u, snap[email]);
      assert UserAt(s', email) == u.(file := PushAll(u.file, snap[email].id, snap[email].ops));
    } else {
      assert UserAt(s', email) == u;
    }
  }

  lemma PushOk(s: State, step: Step, email: string)
    requires (step.PushOp? || step.HalfPush?) && Possible(s, step) && OkAt(s, email)
    ensures OkAt(Next(s, step), email)
  {
    hide UserOk, AwaitsPass, UnderPush, PushedLive;
    var u, s', p := UserAt(s, email), Next(s, step), s.pass;
    if email == p.email {
      var change := p.snap[email];
      if step.HalfPush? {
        HalfPushedUser(u, change, p.done);
        assert UserAt(s', email) == u.(live := RemoveUser(u.live, change.ops[p.done].tag));
      } else {
        PushedUser(u, change, p.done, p.half);
        assert UserAt(s', email) == u.(live := PushedLive(u.live, change, p.done, p.half));
      }
    } else {
      assert UserAt(s', email) == u;
    }
  }

  lemma SettleOk(s: State, step: Step, email: string)
    requires step.Settle? && Possible(s, step) && OkAt(s, email)
    ensures OkAt(Next(s, step), email)
  {
    hide UserOk, Settling, Covers, AllDone;
    var u, s', p := UserAt(s, email), Next(s, step), s.pass;
    var change := p.snap[p.email];
    if email == p.email && !Superseded(s.desk, email, change.gen) {
      NoHalf(u, change, p.half);
      PurgeIsForDeleting(u, change);
      SettledUserOk(u, change, step.commits);
      assert UserAt(s', email) == SettledUser(u, change, step.commits);
    } else {
      assert UserAt(s', email) == u;
    }
  }

  lemma NoHalf(u: User, change: Change, half: bool)
    requires UnderPush(u, change, |change.ops|, half)
    ensures !half
  {}

  lemma PurgeIsForDeleting(u: User, change: Change)
    requires UserOk(u) && u.row.Some? && u.pending == Some(change)
    ensures change.purge == u.row.value.deleting
  {
    hide Settling;
  }

  lemma ChooseOk(s: State, step: Step, email: string)
    requires (step.Choose? || step.Skip?) && Possible(s, step) && OkAt(s, email)
    ensures OkAt(Next(s, step), email)
  {
    hide UserOk, AwaitsPass;
    var u, s' := UserAt(s, email), Next(s, step);
    assert UserAt(s', email) == u;
    if step.Choose? && email == step.email {
      Untouched(u, s.pass.snap[email]);
    }
  }

  lemma Untouched(u: User, change: Change)
    requires AwaitsPass(u, change, true)
    ensures UnderPush(u, change, 0, false)
  {}

  lemma OtherOk(s: State, step: Step, email: string)
    requires step.Start? || step.FailPush? || step.Finish? || step.Restart? || step.Recover?
    requires Possible(s, step) && Careful(s, step) && OkAt(s, email)
    ensures OkAt(Next(s, step), email)
  {
    hide UserOk, Settling, Covers;
    assert UserAt(Next(s, step), email) == UserAt(s, email);
    if step.Start? && email in s.desk.pending {
      Snapshotted(UserAt(s, email), s.desk.pending[email]);
    }
  }

  lemma Snapshotted(u: User, change: Change)
    requires UserOk(u) && u.pending == Some(change)
    ensures AwaitsPass(u, change, false)
  {}

  lemma StepOk(s: State, step: Step, email: string)
    requires Invariant(s) && Possible(s, step) && Careful(s, step)
    ensures OkAt(Next(s, step), email)
  {
    hide Possible, Careful, Next, UserOk, PassOk, GenOk;
    assert OkAt(s, email);
    match step
    case Add(_, _, _, _, _) => OwnOrSame(s, step, email);
    case Edit(_, _, _, _) => OwnOrSame(s, step, email);
    case Delete(_, _, _) => OwnOrSame(s, step, email);
    case List => ConvergeOk(s, step, email);
    case Check(_, _, _) => ConvergeOk(s, step, email);
    case Overlook(_) => ConvergeOk(s, step, email);
    case Confirm(_) => ConvergeOk(s, step, email);
    case Requeue => RequeueOk(s, step, email);
    case EndConverge => ConvergeOk(s, step, email);
    case RestartXray => RestartXrayOk(s, email);
    case Render(_) => RenderOk(s, step, email);
    case PushOp => PushOk(s, step, email);
    case HalfPush => PushOk(s, step, email);
    case Choose(_) => ChooseOk(s, step, email);
    case Skip(_) => ChooseOk(s, step, email);
    case Settle(_) => SettleOk(s, step, email);
    case Disable(_, _, _) => OwnOrSame(s, step, email);
    case Enable(_, _) => OwnOrSame(s, step, email);
    case _ => OtherOk(s, step, email);
  }

  lemma OwnOrSame(s: State, step: Step, email: string)
    requires Mutates(step) && Possible(s, step) && Careful(s, step) && OkAt(s, email)
    ensures OkAt(Next(s, step), email)
  {
    hide Possible, Careful, Next, OkAt, SameFor;
    if email != step.email {
      MutationSame(s, step, email);
      SameOk(s, Next(s, step), email);
    } else if step.Add? {
      AddOk(s, step);
    } else if step.Edit? {
      EditOk(s, step);
    } else if step.Delete? {
      DeleteOk(s, step);
    } else if step.Disable? {
      DisableOk(s, step);
    } else {
      EnableOk(s, step);
    }
  }

  /** Every careful step keeps the invariant. */
  lemma InvariantKept(s: State, step: Step)
    requires Invariant(s) && Possible(s, step) && Careful(s, step)
    ensures Invariant(Next(s, step))
  {
    hide Possible, Careful, Next, OkAt;
    forall e: string
      ensures UserOk(UserAt(Next(s, step), e)) && PassOk(Next(s, step), e) && GenOk(Next(s, step).desk, e)
    {
      StepOk(s, step, e);
      assert OkAt(Next(s, step), e) ==> UserOk(UserAt(Next(s, step), e)) && PassOk(Next(s, step), e) && GenOk(Next(s, step).desk, e) by {
        OkParts(Next(s, step), e);
      }
    }
  }

  lemma OkParts(s: State, email: string)
    ensures OkAt(s, email) <==> UserOk(UserAt(s, email)) && PassOk(s, email) && GenOk(s.desk, email)
  {}

  // ----- Runs

  const FRESH: State := State(Desk(U.Tables(map[], map[]), map[], {}, 0), map[], map[], Idle, true)

  /** The state a run of careful steps ends in, if every step is possible where it stands. */
  ghost function Ran(s: State, steps: seq<Step>): Option<State> {
    if steps == [] then Some(s)
    else
      match Ran(s, steps[..|steps| - 1])
      case None => None
      case Some(before) =>
        var last := steps[|steps| - 1];
        if Possible(before, last) && Careful(before, last) then Some(Next(before, last)) else None
  }

  lemma {:induction false} RunsKeepTheInvariant(s: State, steps: seq<Step>)
    requires Invariant(s) && Ran(s, steps).Some?
    ensures Invariant(Ran(s, steps).value)
  {
    hide Invariant, Possible, Careful, Next;
    if steps != [] {
      RunsKeepTheInvariant(s, steps[..|steps| - 1]);
      InvariantKept(Ran(s, steps[..|steps| - 1]).value, steps[|steps| - 1]);
    }
  }

  lemma FreshInvariant()
    ensures Invariant(FRESH)
  {}

  /** What the tables ask of file and server for an email. */
  function Wanted(t: U.Tables, email: string): Live {
    if U.LiveRow(t, email) then Exactly(RecordAt(t, email)) else map[]
  }

  /** At any moment of any run, a user with nothing queued holds exactly their row, in the file and live; a disabled one nothing. */
  lemma SettledUsersHoldTheirRow(steps: seq<Step>, email: string)
    requires Ran(FRESH, steps).Some?
    ensures var s := Ran(FRESH, steps).value;
            email !in s.desk.pending ==>
              Of(s.live, email) == Wanted(s.desk.tables, email) && Of(s.file, email) == Wanted(s.desk.tables, email)
  {
    hide Ran, Settling, Exactly;
    FreshInvariant();
    RunsKeepTheInvariant(FRESH, steps);
    var s := Ran(FRESH, steps).value;
    var u := UserAt(s, email);
    assert UserOk(u);
    if email !in s.desk.pending && u.row.Some? {
      SettledIsExact(u.live, Target(u.row.value));
      SettledIsExact(u.file, Target(u.row.value));
      NothingExactly(u.row.value.clientId);
    }
  }

  /** A purge runs only when no file entry and no live credential of the user is left. */
  lemma PurgesLeaveNothing(steps: seq<Step>, step: Step, email: string)
    requires Ran(FRESH, steps).Some?
    requires var s := Ran(FRESH, steps).value;
             && Possible(s, step) && Careful(s, step)
             && email in s.desk.tables.roster && email !in Next(s, step).desk.tables.roster
    ensures var s := Ran(FRESH, steps).value; Of(s.live, email) == map[] && Of(s.file, email) == map[]
    ensures step.Settle?
  {
    hide Ran, Careful, Possible, Invariant;
    FreshInvariant();
    RunsKeepTheInvariant(FRESH, steps);
    var s := Ran(FRESH, steps).value;
    InvariantKept(s, step);
    GoneIsEmpty(Next(s, step), email);
    OnlySettleErases(s, step, email);
  }

  lemma GoneIsEmpty(s: State, email: string)
    requires Invariant(s) && email !in s.desk.tables.roster
    ensures Of(s.live, email) == map[] && Of(s.file, email) == map[]
  {
    assert UserOk(UserAt(s, email));
  }

  lemma OnlySettleErases(s: State, step: Step, email: string)
    requires Possible(s, step) && email in s.desk.tables.roster && email !in Next(s, step).desk.tables.roster
    ensures step.Settle? && Next(s, step).live == s.live && Next(s, step).file == s.file
  {
    hide DiffOps, DetachOps, TouchedTags, AttachOps, PushAll;
  }

  /** A row marked deleting has its purge queued. */
  lemma DeletingIsQueued(steps: seq<Step>, email: string)
    requires Ran(FRESH, steps).Some? && U.DeletingRow(Ran(FRESH, steps).value.desk.tables, email)
    ensures var pending := Ran(FRESH, steps).value.desk.pending; email in pending && pending[email].purge
  {
    hide Ran, Settling;
    FreshInvariant();
    RunsKeepTheInvariant(FRESH, steps);
    assert UserOk(UserAt(Ran(FRESH, steps).value, email));
  }

  /** The file leads the running xray: while a change is pushed, the file already is as its row wants it. */
  lemma FileLeads(steps: seq<Step>)
    requires Ran(FRESH, steps).Some? && AtOp(Ran(FRESH, steps).value.pass)
    ensures var s := Ran(FRESH, steps).value;
            var email := s.pass.email;
            !Superseded(s.desk, email, s.pass.snap[email].gen) ==>
              && email in s.desk.tables.roster
              && Of(s.file, email) == Exactly(Target(s.desk.tables.roster[email]))
  {
    hide Ran, Settling, Covers, AllDone, UserOk;
    FreshInvariant();
    RunsKeepTheInvariant(FRESH, steps);
    var s := Ran(FRESH, steps).value;
    assert PassOk(s, s.pass.email);
  }

  /** Whatever one user's queue holds names each inbound once. */
  lemma QueuedOnce(steps: seq<Step>, email: string)
    requires Ran(FRESH, steps).Some?
    ensures DistinctTags(PendingOps(Ran(FRESH, steps).value.desk, email))
  {
    hide Ran, Settling;
    FreshInvariant();
    RunsKeepTheInvariant(FRESH, steps);
    assert UserOk(UserAt(Ran(FRESH, steps).value, email));
  }
}
