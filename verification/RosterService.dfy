/** The service as the source runs it: a store, a queue of pending changes, and the locked parts of an apply pass. */
module RosterService {
  import opened Options
  import opened RosterMachine
  import opened RosterPlan
  import opened RosterSafety
  import opened Sequences
  import opened StoreEffects
  import U = UserStore

  datatype Reply = Answered(answer: U.Answer) | UnknownInbound

  // ----- Selections

  /** First occurrences, in order. */
  function Deduped(tags: seq<string>): seq<string> {
    if tags == [] then []
    else
      var before := Deduped(tags[..|tags| - 1]);
      if tags[|tags| - 1] in before then before else before + [tags[|tags| - 1]]
  }

  lemma {:induction false} DedupedOnce(tags: seq<string>)
    ensures NoRepeats(Deduped(tags)) && forall t :: t in Deduped(tags) <==> t in tags
  {
    if tags != [] {
      DedupedOnce(tags[..|tags| - 1]);
      assert tags == tags[..|tags| - 1] + [tags[|tags| - 1]];
    }
  }

  /** Each tag where it first appears: what comes later repeats nothing of what came before. */
  lemma {:induction false} DedupedConcat(a: seq<string>, b: seq<string>)
    ensures Deduped(a + b) == Deduped(a) + NewTags(a, b)
    decreases |b|
  {
    if b == [] {
      assert a + b == a;
      assert Deduped(a) + [] == Deduped(a);
    } else {
      var first, rest := [b[0]], b[1..];
      assert a + b == (a + first) + rest;
      DedupedConcat(a + first, rest);
      DedupedOnce(a);
      assert (a + first)[..|a|] == a;
      if b[0] in a {
        SameNewTags(a + first, a, rest);
      } else {
        assert Deduped(a) + first + NewTags(a + first, rest) == Deduped(a) + (first + NewTags(a + first, rest));
      }
    }
  }

  lemma {:induction false} SameNewTags(a: seq<string>, b: seq<string>, more: seq<string>)
    requires forall t :: t in a <==> t in b
    ensures NewTags(a, more) == NewTags(b, more)
    decreases |more|
  {
    if more != [] {
      if more[0] in a {
        SameNewTags(a, b, more[1..]);
      } else {
        SameNewTags(a + [more[0]], b + [more[0]], more[1..]);
      }
    }
  }

  /** The tags the configuration still carries. */
  function StillManaged(tags: seq<string>, view: map<string, string>): seq<string> {
    if tags == [] then []
    else StillManaged(tags[..|tags| - 1], view) + if tags[|tags| - 1] in view then [tags[|tags| - 1]] else []
  }

  /** Tag by tag: the part of a selection that is kept is the kept parts of its parts. */
  lemma {:induction false} PrunedParts(a: seq<string>, b: seq<string>, view: map<string, string>)
    ensures StillManaged(a + b, view) == StillManaged(a, view) + StillManaged(b, view)
    ensures |a| == 1 ==> StillManaged(a, view) == if a[0] in view then a else []
    decreases |b|
  {
    if b == [] {
      assert a + b == a;
    } else {
      assert (a + b)[..|a + b| - 1] == a + b[..|b| - 1];
      PrunedParts(a, b[..|b| - 1], view);
    }
    if |a| == 1 {
      assert a[..0] == [] && StillManaged([], view) == [];
    }
  }

  predicate AllManaged(tags: seq<string>, view: map<string, string>) { forall t :: t in tags ==> t in view }

  lemma {:induction false} ManagedAll(tags: seq<string>, view: map<string, string>)
    requires AllManaged(tags, view)
    ensures StillManaged(tags, view) == tags
  {
    if tags != [] {
      ManagedAll(tags[..|tags| - 1], view);
      assert tags == tags[..|tags| - 1] + [tags[|tags| - 1]];
    }
  }

  lemma {:induction false} PrunedIsShorter(tags: seq<string>, view: map<string, string>)
    ensures |StillManaged(tags, view)| <= |tags|
    ensures |StillManaged(tags, view)| == |tags| <==> StillManaged(tags, view) == tags
  {
    if tags != [] {
      PrunedIsShorter(tags[..|tags| - 1], view);
      assert tags == tags[..|tags| - 1] + [tags[|tags| - 1]];
    }
  }

  method DedupeOrder(tags: seq<string>) returns (ordered: seq<string>)
    ensures ordered == Deduped(tags)
  {
    ordered := [];
    var seen := {};
    for i := 0 to |tags|
      invariant ordered == Deduped(tags[..i]) && forall t :: t in seen <==> t in ordered
    {
      assert tags[..i + 1][..i] == tags[..i];
      if tags[i] !in seen {
        seen := seen + {tags[i]};
        ordered := ordered + [tags[i]];
      }
    }
    assert tags[..|tags|] == tags;
  }

  /** The final selection of an edit: pruned when the stored one is kept, refused when a requested tag is unknown. */
  method Select(selection: seq<string>, view: map<string, string>, keep: bool) returns (known: bool, tags: seq<string>)
    ensures known <==> keep || AllManaged(selection, view)
    ensures known ==> tags == StillManaged(selection, view)
  {
    tags := [];
    for i := 0 to |selection|
      invariant tags == StillManaged(selection[..i], view)
      invariant keep || AllManaged(selection[..i], view)
    {
      assert selection[..i + 1][..i] == selection[..i];
      if selection[i] in view {
        tags := tags + [selection[i]];
      } else if !keep {
        return false, [];
      }
    }
    assert selection[..|selection|] == selection;
    known := true;
  }

  method AttachPlan(tags: seq<string>, view: map<string, string>) returns (ops: seq<Op>)
    ensures ops == AttachOps(tags, view)
  {
    ops := [];
    for i := 0 to |tags|
      invariant ops == AttachOps(tags[..i], view)
    {
      ops := ops + [Op(Attach, tags[i], Flow(view, tags[i]))];
    }
    assert tags[..|tags|] == tags;
  }

  /** A disable detaches the record's tags and what an unfinished change was joining. */
  method PlanDisable(tags: seq<string>, prev: seq<Op>) returns (all: seq<string>)
    ensures all == JoinedTags(tags, prev)
  {
    all := tags;
    for i := 0 to |prev|
      invariant all == JoinedTags(tags, prev[..i])
    {
      assert prev[..i + 1][..i] == prev[..i];
      if prev[i].kind != Detach && prev[i].tag !in all {
        all := all + [prev[i].tag];
      }
    }
    assert prev[..|prev|] == prev;
  }

  /** Convergence's presence drift: the listed tags the file no longer has the client under. */
  method LackingTags(tags: seq<string>, there: set<string>) returns (lacking: seq<string>)
    ensures lacking == Lacking(tags, there)
  {
    lacking := [];
    for i := 0 to |tags|
      invariant lacking == Lacking(tags[..i], there)
    {
      assert tags[..i + 1][..i] == tags[..i];
      if tags[i] !in there {
        lacking := lacking + [tags[i]];
      }
    }
    assert tags[..|tags|] == tags;
  }

  // ----- The running xray, as the pusher sees it

  /** How much of an operation reached the server. */
  datatype Landing = Nothing | Half | Whole

  function Landed(live: Live, id: string, op: Op, landing: Landing): Live {
    match landing
    case Nothing => live
    case Half => RemoveUser(live, op.tag)
    case Whole => Push(live, id, op)
  }

  class Xray {
    var live: map<string, Live>

    method Add(email: string, tag: string, id: string, lands: bool)
      modifies this
      ensures live == old(live)[email := if lands then AddUser(Of(old(live), email), tag, id) else Of(old(live), email)]
    {
      var held := if email in live then live[email] else map[];
      live := live[email := if lands && tag !in held then held[tag := id] else held];
    }

    method Remove(email: string, tag: string, lands: bool)
      modifies this
      ensures live == old(live)[email := if lands then RemoveUser(Of(old(live), email), tag) else Of(old(live), email)]
    {
      var held := if email in live then live[email] else map[];
      live := live[email := if lands then held - {tag} else held];
    }

    /** One operation; call number `fails` is the one that fails, and may have landed all the same. */
    method PushOp(email: string, id: string, op: Op, fails: nat, lands: bool) returns (failed: bool, landing: Landing)
      modifies this
      ensures live == old(live)[email := Landed(Of(old(live), email), id, op, landing)]
      ensures failed <==> fails == 0 || (fails == 1 && op.kind == Rotate)
      ensures !failed ==> landing == Whole
      ensures landing == Half ==> op.kind == Rotate
    {
      if op.kind == Attach {
        Add(email, op.tag, id, fails != 0 || lands);
        return fails == 0, if fails != 0 || lands then Whole else Nothing;
      }
      Remove(email, op.tag, fails != 0 || lands);
      if fails == 0 {
        return true, if !lands then Nothing else if op.kind == Rotate then Half else Whole;
      }
      if op.kind == Rotate {
        Add(email, op.tag, id, fails != 1 || lands);
        return fails == 1, if fails != 1 || lands then Whole else Half;
      }
      return false, Whole;
    }

    /** The pushes of one change, in order, up to the first failure. */
    method PushChange(email: string, change: Change, failsIn: nat, fails: nat, lands: bool)
      returns (failed: bool, ghost stop: Stop)
      modifies this
      ensures StopsIn(stop, change.ops)
      ensures live == old(live)[email := PushUntil(Of(old(live), email), change.id, change.ops, stop)]
      ensures !failed ==> stop == Stop(|change.ops|, false)
    {
      hide Push;
      ghost var start := Of(live, email);
      PushNothing(start, change);
      live := live[email := if email in live then live[email] else map[]];
      for i := 0 to |change.ops|
        invariant live == old(live)[email := PushUntil(start, change.id, change.ops, Stop(i, false))]
      {
        PushNext(start, change, i);
        ghost var before := live;
        var landing;
        failed, landing := PushOp(email, change.id, change.ops[i], if i == failsIn then fails else 2, lands);
        stop := match landing case Nothing => Stop(i, false) case Half => Stop(i, true) case Whole => Stop(i + 1, false);
        assert live == before[email := PushUntil(start, change.id, change.ops, stop)];
        assert live == old(live)[email := PushUntil(start, change.id, change.ops, stop)];
        if failed {
          return;
        }
      }
      failed, stop := false, Stop(|change.ops|, false);
    }
  }

  lemma PushNothing(live: Live, change: Change)
    ensures PushUntil(live, change.id, change.ops, Stop(0, false)) == live
  {
    assert change.ops[..0] == [];
  }

  lemma PushNext(live: Live, change: Change, i: nat)
    requires i < |change.ops|
    ensures PushUntil(live, change.id, change.ops, Stop(i + 1, false)) ==
            Push(PushUntil(live, change.id, change.ops, Stop(i, false)), change.id, change.ops[i])
    ensures change.ops[i].kind == Rotate ==>
              PushUntil(live, change.id, change.ops, Stop(i, true)) ==
              RemoveUser(PushUntil(live, change.id, change.ops, Stop(i, false)), change.ops[i].tag)
  {
    assert change.ops[..i + 1][..i] == change.ops[..i];
  }

  // ----- The service

  datatype SyncState = Synced | SyncPending | SyncFailed

  lemma NoneFailed(failed: set<string>)
    requires failed == {}
    ensures forall e :: e !in failed
  {}

  class Service {
    const store: U.Store
    var pending: map<string, Change>
    var failed: set<string>
    var nextGen: nat

    ghost function View(): Desk
      reads this, store
    {
      Desk(store.Contents(), pending, failed, nextGen)
    }

    constructor (store: U.Store)
      ensures this.store == store && View() == Desk(store.Contents(), map[], {}, 0)
    {
      this.store := store;
      pending, failed, nextGen := map[], {}, 0;
    }

    method TakePending(email: string) returns (prev: seq<Op>)
      modifies this
      ensures View() == Taken(old(View()), email) && prev == PendingOps(old(View()), email)
    {
      prev := if email in pending then pending[email].ops else [];
      pending := pending - {email};
    }

    method Enqueue(email: string, id: string, ops: seq<Op>, purge: bool)
      modifies this
      ensures View() == Enqueued(old(View()), email, id, ops, purge)
    {
      nextGen := nextGen + 1;
      pending := pending[email := Change(id, ops, nextGen, purge)];
      failed := failed - {email};
    }

    method Add(email: string, id: string, inbounds: seq<string>, view: map<string, string>, labels: seq<U.Label>,
               now: int, commits: bool)
      returns (reply: Reply)
      modifies this, store
      ensures !AllManaged(inbounds, view) ==> reply == UnknownInbound && View() == old(View())
      ensures AllManaged(inbounds, view) ==>
                exists found :: U.Finds(old(View()).tables, id, found) &&
                  var expected, tags := U.AddAnswer(old(View()).tables, email, id, found), Deduped(inbounds);
                  if commits && expected.Stored? then
                    && reply == Answered(U.Stored(U.Record(email, id, tags)))
                    && View() == AddTo(old(View()), email, id, tags, Context(view, labels, now))
                  else reply == Answered(if commits then expected else U.Failed) && View() == old(View())
    {
      hide AttachOps;
      DedupedOnce(inbounds);
      var selection := DedupeOrder(inbounds);
      var known, tags := Select(selection, view, false);
      if !known {
        return UnknownInbound;
      }
      ManagedAll(selection, view);
      var ops := AttachPlan(tags, view);
      AttachesCount(tags, view);
      ghost var t := store.Contents();
      var answer := store.AddRosterUser(email, id, tags, labels, now, commits);
      reply := Answered(answer);
      ghost var found :| U.Finds(t, id, found)
        && answer == if !commits then U.Failed
                     else if U.AddAnswer(t, email, id, found).Stored? then U.Stored(U.Record(email, id, tags))
                     else U.AddAnswer(t, email, id, found);
      if answer.Stored? {
        if ops != [] {
          Enqueue(email, id, ops, false);
        }
        assert View() == AddTo(old(View()), email, id, tags, Context(view, labels, now));
      }
      assert tags == Deduped(inbounds);
      assert U.Finds(old(View()).tables, id, found);
    }

    method Edit(email: string, newId: Option<string>, inbounds: Option<seq<string>>, view: map<string, string>,
                labels: seq<U.Label>, now: int, commits: bool) returns (reply: Reply)
      modifies this, store
      ensures var d := old(View());
              if !U.LiveRow(d.tables, email) then reply == Answered(U.NotFound) && View() == d
              else if inbounds.Some? && !AllManaged(inbounds.value, view) then reply == UnknownInbound && View() == d
              else if !commits then reply == Answered(U.Failed) && View() == d
              else if newId.Some? && U.HeldByOther(d.tables, email, newId.value) then
                reply == Answered(U.ClientIdTaken) && View() == d
              else
                var held := d.tables.roster[email].inbounds;
                var kept := StillManaged(held, view);
                var tags, id := if inbounds.None? then kept else inbounds.value, EditedRecord(d.tables, email, newId, []).id;
                && reply == Answered(U.Stored(U.Record(email, id, tags)))
                && View() == EditFrom(d, email, if inbounds.None? then kept else held, newId, tags, Context(view, labels, now))
    {
      hide DiffOps, StillManaged, AllManaged;
      if !U.LiveRow(store.Contents(), email) {
        return Answered(U.NotFound);
      }
      var before := U.RecordOf(store.Contents(), email);
      var known, tags := Select(if inbounds.Some? then inbounds.value else before.inbounds, view, inbounds.None?);
      if !known {
        return UnknownInbound;
      }
      var held := before.inbounds;
      if inbounds.None? {
        held := tags;
      } else {
        ManagedAll(inbounds.value, view);
      }
      var answer := store.EditRosterUser(email, newId, tags, labels, now, commits);
      if !answer.Stored? {
        return Answered(answer);
      }
      var prev := TakePending(email);
      var after := answer.record;
      var ops := PlanEdit(Record(before.clientId, held), Record(after.clientId, after.inbounds), view, prev);
      if ops != [] {
        Enqueue(email, after.clientId, ops, false);
      }
      reply := Answered(answer);
    }

    method Disable(email: string, now: int, commits: bool) returns (disabled: bool)
      modifies this, store
      ensures var d := old(View());
              if !U.LiveRow(d.tables, email) then !disabled && View() == d
              else disabled == commits && View() == DisableIn(d, email, now, commits)
    {
      hide JoinedTags, DetachOps;
      if !U.LiveRow(store.Contents(), email) {
        return false;
      }
      var before := U.RecordOf(store.Contents(), email);
      var prev := TakePending(email);
      var tags := PlanDisable(before.inbounds, prev);
      disabled := store.DisableRosterUser(email, now, commits);
      if disabled && tags != [] {
        var ops := DetachPlan(tags);
        Enqueue(email, before.clientId, ops, false);
      }
    }

    method Delete(email: string, now: int, commits: bool) returns (deleted: bool)
      modifies this, store
      ensures var d := old(View());
              if email !in d.tables.roster || d.tables.roster[email].deleting then !deleted && View() == d
              else deleted == commits && View() == DeleteFrom(d, email, now, commits)
    {
      hide TouchedTags, DetachOps;
      if !U.LiveRow(store.Contents(), email) && !U.DisabledRow(store.Contents(), email) {
        return false;
      }
      var record := U.RecordOf(store.Contents(), email);
      var prev := TakePending(email);
      var ops := PlanDelete(record.inbounds, prev);
      deleted := store.MarkRosterDeleting(email, now, commits);
      if deleted {
        Enqueue(email, record.clientId, ops, true);
      }
    }

    /** The stored attachments re-apply, those to vanished inbounds pruned by a second write. */
    method Enable(email: string, view: map<string, string>, labels: seq<U.Label>, now: int, commits: bool,
                  relabels: bool)
      returns (reply: Reply)
      modifies this, store
      ensures var d := old(View());
              if U.LiveRow(d.tables, email) then reply == Answered(U.Stored(U.RecordOf(d.tables, email))) && View() == d
              else if !U.DisabledRow(d.tables, email) then reply == Answered(U.NotFound) && View() == d
              else if !commits then reply == Answered(U.Failed) && View() == d
              else
                var row := d.tables.roster[email];
                var kept := StillManaged(row.inbounds, view);
                && reply == Answered(if kept == row.inbounds || relabels then U.Stored(U.Record(email, row.clientId, kept)) else U.Failed)
                && View() == EnableFrom(d, email, kept, Context(view, labels, now), relabels)
    {
      hide AttachOps, StillManaged;
      var answer, revived := store.EnableRosterUser(email, now, commits);
      reply := Answered(answer);
      if !revived {
        return;
      }
      var record := answer.record;
      var known, kept := Select(record.inbounds, view, true);
      PrunedIsShorter(record.inbounds, view);
      if |kept| < |record.inbounds| {
        answer := store.EditRosterUser(email, None, kept, labels, now, relabels);
        reply := Answered(answer);
        if !answer.Stored? {
          return;
        }
      }
      var ops := AttachPlan(kept, view);
      AttachesCount(kept, view);
      if ops != [] {
        Enqueue(email, record.clientId, ops, false);
      }
    }

    /** Failed while any user is marked, pending while anything is queued. */
    method Sync() returns (state: SyncState)
      ensures state == SyncFailed <==> exists e :: e in failed
      ensures state == SyncPending <==> (forall e :: e !in failed) && exists e :: e in pending
      ensures state == Synced <==> (forall e :: e !in failed) && forall e :: e !in pending
    {
      if failed != {} {
        return SyncFailed;
      }
      NoneFailed(failed);
      state := if pending.Keys != {} then SyncPending else Synced;
    }

    /** Everybody with a queued change, the failed ones marked as such. */
    method UserStates() returns (states: map<string, SyncState>)
      ensures forall e :: e in states <==> e in pending || e in failed
      ensures forall e :: e in states ==> states[e] == if e in failed then SyncFailed else SyncPending
    {
      states := map e | e in pending.Keys + failed :: if e in failed then SyncFailed else SyncPending;
    }

    /** A failed render, under the lock. */
    method MarkRenderFailed(snap: map<string, Change>)
      modifies this
      ensures View() == RenderFailed(old(View()), snap)
      ensures pending == old(pending)
      ensures forall e :: e in failed <==> e in old(failed) || (e in snap && e in pending && pending[e].gen == snap[e].gen)
    {
      ghost var before := View();
      var emails := snap.Keys;
      while emails != {}
        invariant emails <= snap.Keys && pending == before.pending && nextGen == before.nextGen && store.Contents() == before.tables
        invariant failed == before.failed + set e | e in snap && e !in emails && !Superseded(before, e, snap[e].gen)
        decreases |emails|
      {
        var email :| email in emails;
        if email in pending && pending[email].gen == snap[email].gen {
          failed := failed + {email};
        }
        emails := emails - {email};
      }
    }

    /** The end of one user's pushes, under the lock. */
    method SettleChange(email: string, change: Change, pushFailed: bool, commits: bool)
      modifies this, store
      ensures View() == if pushFailed then PushFailed(old(View()), email, change) else Settled(old(View()), email, change, commits)
      ensures var current := email in old(pending) && old(pending)[email].gen == change.gen;
              var fails := pushFailed || (change.purge && !commits);
              && (!current ==> View() == old(View()))
              && (current ==> failed == if fails then old(failed) + {email} else old(failed) - {email})
              && (current ==> if pushFailed then pending == old(pending)
                              else if change.purge && !commits then pending == old(pending)[email := Change(change.id, [], change.gen, true)]
                              else pending == old(pending) - {email})
              && (current && !fails && change.purge ==> email in old(store.roster) && old(store.roster)[email].deleting ==>
                    email !in store.roster && email !in store.users)
    {
      if email !in pending || pending[email].gen != change.gen {
        return;
      }
      if pushFailed {
        failed := failed + {email};
        return;
      }
      ghost var before := View();
      pending := pending - {email};
      failed := failed - {email};
      if change.purge {
        var purged := store.PurgeRosterUser(email, commits);
        if !purged {
          failed := failed + {email};
          pending := pending[email := Change(change.id, [], change.gen, true)];
          assert pending == before.pending[email := Change(change.id, [], change.gen, true)];
          assert failed == before.failed + {email};
        }
      }
    }

    /** At startup: the rows marked deleting are queued again, if they can be read. */
    method RecoverDeletes(readable: bool)
      modifies this
      ensures var d := old(View());
              if !readable then View() == d
              else
                exists emails :: NoRepeats(emails) && (forall e :: e in emails <==> U.DeletingRow(d.tables, e))
                  && View() == Recovered(d, emails)
    {
      hide DetachOps;
      if !readable {
        return;
      }
      var emails := store.DeletingRosterRecords();
      for i := 0 to |emails|
        invariant forall e :: e in emails[..i] ==> e in old(View()).tables.roster
        invariant View() == Recovered(old(View()), emails[..i])
      {
        assert emails[..i + 1][..i] == emails[..i];
        assert emails[i] in emails;
        var row := store.roster[emails[i]];
        var ops := DetachPlan(row.inbounds);
        Enqueue(emails[i], row.clientId, ops, true);
      }
      assert emails[..|emails|] == emails;
    }
  }

  lemma AttachesCount(tags: seq<string>, view: map<string, string>)
    ensures AttachOps(tags, view) == [] <==> tags == []
  {}

  method DetachPlan(tags: seq<string>) returns (ops: seq<Op>)
    ensures ops == DetachOps(tags)
  {
    ops := [];
    for i := 0 to |tags|
      invariant ops == DetachOps(tags[..i])
    {
      ops := ops + [Op(Detach, tags[i], "")];
    }
    assert tags[..|tags|] == tags;
  }
}
