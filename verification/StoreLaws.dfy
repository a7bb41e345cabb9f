/** What holds of the tables over every sequence of transactions. */
module StoreLaws {
  import opened Options
  import opened UserStore

  /** One committed transaction; a query for a Client ID names the row it found. */
  datatype Transaction =
    | Add(email: string, id: string, inbounds: seq<string>, labels: seq<Label>, found: Option<string>)
    | Edit(email: string, newId: Option<string>, inbounds: seq<string>, labels: seq<Label>)
    | Disable(email: string)
    | Enable(email: string)
    | MarkDeleting(email: string)
    | Purge(email: string)
    | Poll(deltas: seq<Delta>, presence: seq<Presence>, parse: Option<RosterParse>)

  /** A configuration never names a client it gives no label. */
  ghost predicate Allowed(t: Tables, x: Transaction) {
    match x
    case Add(_, id, _, _, found) => Finds(t, id, found)
    case Poll(_, _, Some(parse)) => parse.clients.Keys <= parse.labels.Keys
    case _ => true
  }

  function After(t: Tables, x: Transaction, now: int): Tables {
    match x
    case Add(email, id, inbounds, labels, found) =>
      if AddAnswer(t, email, id, found).Stored? then Added(t, email, id, inbounds, labels, now) else t
    case Edit(email, newId, inbounds, labels) =>
      if !LiveRow(t, email) || (newId.Some? && HeldByOther(t, email, newId.value)) then t
      else Edited(t, email, if newId.Some? then newId.value else t.roster[email].clientId, inbounds, labels, now)
    case Disable(email) => Disabled(t, email, now)
    case Enable(email) => Enabled(t, email, now)
    case MarkDeleting(email) => MarkedDeleting(t, email, now)
    case Purge(email) => Purged(t, email)
    case Poll(deltas, presence, parse) => Polled(t, deltas, presence, parse, now)
  }

  function AfterAll(t: Tables, log: seq<(Transaction, int)>): Tables {
    if log == [] then t else After(AfterAll(t, log[..|log| - 1]), log[|log| - 1].0, log[|log| - 1].1)
  }

  ghost predicate AllAllowed(t: Tables, log: seq<(Transaction, int)>) {
    log != [] ==> AllAllowed(t, log[..|log| - 1]) && Allowed(AfterAll(t, log[..|log| - 1]), log[|log| - 1].0)
  }

  // ----- Consistency

  predicate RowConsistent(t: Tables, email: string)
    requires email in t.roster
  {
    && (t.roster[email].deleting ==> t.roster[email].disabled)
    && email in t.users && t.users[email].disabled == t.roster[email].disabled
  }

  /** Deleting implies disabled; every roster row has a dashboard row with the same flag. */
  predicate Consistent(t: Tables) { forall e :: e in t.roster ==> RowConsistent(t, e) }

  lemma {:induction false} DeltasKeepFlags(users: map<string, UserRow>, deltas: seq<Delta>, now: int)
    ensures forall e :: e in users ==> e in WithDeltas(users, deltas, now) && WithDeltas(users, deltas, now)[e].disabled == users[e].disabled
  {
    if deltas != [] {
      DeltasKeepFlags(users, deltas[..|deltas| - 1], now);
    }
  }

  lemma {:induction false} PresencesKeepFlags(users: map<string, UserRow>, presence: seq<Presence>, now: int)
    ensures forall e :: e in users ==> e in WithPresences(users, presence, now) && WithPresences(users, presence, now)[e].disabled == users[e].disabled
  {
    if presence != [] {
      PresencesKeepFlags(users, presence[..|presence| - 1], now);
    }
  }

  lemma SyncConsistent(t: Tables, parse: RosterParse, now: int)
    requires Consistent(t) && parse.clients.Keys <= parse.labels.Keys
    ensures Consistent(WithRoster(t, parse, now))
  {
    hide Merged;
    var after := WithRoster(t, parse, now);
    forall e | e in after.roster
      ensures RowConsistent(after, e)
    {
      if e in t.roster {
        assert RowConsistent(t, e);
      }
    }
  }

  lemma PollConsistent(t: Tables, deltas: seq<Delta>, presence: seq<Presence>, parse: Option<RosterParse>, now: int)
    requires Consistent(t) && (parse.Some? ==> parse.value.clients.Keys <= parse.value.labels.Keys)
    ensures Consistent(Polled(t, deltas, presence, parse, now))
  {
    hide WithDeltas, WithPresences, WithRoster;
    var moved := WithDeltas(t.users, deltas, now);
    var users := WithPresences(moved, presence, now);
    DeltasKeepFlags(t.users, deltas, now);
    PresencesKeepFlags(moved, presence, now);
    forall e | e in t.roster
      ensures RowConsistent(Tables(t.roster, users), e)
    {
      assert RowConsistent(t, e);
    }
    if parse.Some? {
      SyncConsistent(Tables(t.roster, users), parse.value, now);
    }
  }

  lemma MutationConsistent(t: Tables, x: Transaction, now: int)
    requires Consistent(t) && !x.Poll?
    ensures Consistent(After(t, x, now))
  {
    var after := After(t, x, now);
    forall e | e in after.roster
      ensures RowConsistent(after, e)
    {
      if e in t.roster {
        assert RowConsistent(t, e);
      }
    }
  }

  /** In every reachable state. */
  lemma {:induction false} AlwaysConsistent(t: Tables, log: seq<(Transaction, int)>)
    requires Consistent(t) && AllAllowed(t, log)
    ensures Consistent(AfterAll(t, log))
  {
    hide After;
    if log != [] {
      var init := log[..|log| - 1];
      var (x, now) := log[|log| - 1];
      AlwaysConsistent(t, init);
      var before := AfterAll(t, init);
      if x.Poll? {
        PollConsistent(before, x.deltas, x.presence, x.parse, now);
        PollIsPolled(before, x, now);
      } else {
        MutationConsistent(before, x, now);
      }
    }
  }

  lemma PollIsPolled(t: Tables, x: Transaction, now: int)
    requires x.Poll?
    ensures After(t, x, now) == Polled(t, x.deltas, x.presence, x.parse, now)
  {}

  /** Without a label for every client the flags of the two tables come apart. */
  lemma UnlabelledClientBreaksConsistency()
    ensures var parse := RosterParse(map[], map["a" := Client("id", [])]);
            !Consistent(WithRoster(Tables(map[], map[]), parse, 0))
  {
    var parse := RosterParse(map[], map["a" := Client("id", [])]);
    var after := WithRoster(Tables(map[], map[]), parse, 0);
    assert "a" in after.roster && "a" !in after.users;
    assert !RowConsistent(after, "a");
  }

  // ----- Polls

  predicate NotEarlier(a: Option<int>, b: Option<int>) { a.Some? ==> b.Some? && a.value <= b.value }

  /** A dashboard row after a while: no total smaller, no last-seen earlier. */
  predicate Grown(before: UserRow, after: UserRow) {
    before.up <= after.up && before.down <= after.down && NotEarlier(before.lastSeen, after.lastSeen) && before.firstSeen == after.firstSeen
  }

  predicate AllGrown(before: map<string, UserRow>, after: map<string, UserRow>) {
    forall e :: e in before ==> e in after && Grown(before[e], after[e])
  }

  function UpOf(deltas: seq<Delta>, email: string): nat {
    if deltas == [] then 0
    else UpOf(deltas[..|deltas| - 1], email) + if deltas[|deltas| - 1].email == email then deltas[|deltas| - 1].up else 0
  }

  function DownOf(deltas: seq<Delta>, email: string): nat {
    if deltas == [] then 0
    else DownOf(deltas[..|deltas| - 1], email) + if deltas[|deltas| - 1].email == email then deltas[|deltas| - 1].down else 0
  }

  function StoredUp(users: map<string, UserRow>, email: string): nat { if email in users then users[email].up else 0 }

  function StoredDown(users: map<string, UserRow>,
                      email: string): nat { if email in users then users[email].down else 0 }

  lemma {:induction false} DeltasAddUp(users: map<string, UserRow>, deltas: seq<Delta>, now: int, email: string)
    ensures StoredUp(WithDeltas(users, deltas, now), email) == StoredUp(users, email) + UpOf(deltas, email)
    ensures StoredDown(WithDeltas(users, deltas, now), email) == StoredDown(users, email) + DownOf(deltas, email)
    ensures AllGrown(users, WithDeltas(users, deltas, now))
  {
    if deltas != [] {
      DeltasAddUp(users, deltas[..|deltas| - 1], now, email);
    }
  }

  lemma {:induction false} PresencesAddNothing(users: map<string, UserRow>, presence: seq<Presence>, now: int,
                                               email: string)
    ensures StoredUp(WithPresences(users, presence, now), email) == StoredUp(users, email)
    ensures StoredDown(WithPresences(users, presence, now), email) == StoredDown(users, email)
    ensures AllGrown(users, WithPresences(users, presence, now))
  {
    if presence != [] {
      PresencesAddNothing(users, presence[..|presence| - 1], now, email);
    }
  }

  lemma SyncAddsNothing(t: Tables, parse: RosterParse, now: int, email: string)
    ensures var users := WithRoster(t, parse, now).users;
            && StoredUp(users, email) == StoredUp(t.users, email) && StoredDown(users, email) == StoredDown(t.users, email)
            && AllGrown(t.users, users)
  {
    hide Adopted;
  }

  /** A poll adds exactly its deltas, whatever else it carries. */
  lemma PollAddsItsDeltas(t: Tables, deltas: seq<Delta>, presence: seq<Presence>, parse: Option<RosterParse>,
                          now: int, email: string)
    ensures var after := Polled(t, deltas, presence, parse, now);
            && StoredUp(after.users, email) == StoredUp(t.users, email) + UpOf(deltas, email)
            && StoredDown(after.users, email) == StoredDown(t.users, email) + DownOf(deltas, email)
            && AllGrown(t.users, after.users)
  {
    hide WithDeltas, WithPresences, WithRoster, StoredUp, StoredDown, AllGrown;
    var moved := WithDeltas(t.users, deltas, now);
    var users := WithPresences(moved, presence, now);
    DeltasAddUp(t.users, deltas, now, email);
    PresencesAddNothing(moved, presence, now, email);
    GrownTwice(t.users, moved, users);
    if parse.Some? {
      SyncAddsNothing(Tables(t.roster, users), parse.value, now, email);
      GrownTwice(t.users, users, Polled(t, deltas, presence, parse, now).users);
    }
  }

  lemma GrownTwice(a: map<string, UserRow>, b: map<string, UserRow>, c: map<string, UserRow>)
    requires AllGrown(a, b) && AllGrown(b, c)
    ensures AllGrown(a, c)
  {}

  /** The bytes a log's polls bring for an email. */
  function UpBrought(log: seq<(Transaction, int)>, email: string): nat {
    if log == [] then 0
    else
      var x := log[|log| - 1].0;
      UpBrought(log[..|log| - 1], email) + if x.Poll? then UpOf(x.deltas, email) else 0
  }

  function DownBrought(log: seq<(Transaction, int)>, email: string): nat {
    if log == [] then 0
    else
      var x := log[|log| - 1].0;
      DownBrought(log[..|log| - 1], email) + if x.Poll? then DownOf(x.deltas, email) else 0
  }

  /** No transaction but a user's own purge loses a dashboard row, or any byte, last-seen or first-seen of it. */
  lemma HistoryKept(t: Tables, x: Transaction, now: int, email: string)
    requires Allowed(t, x) && x != Purge(email)
    ensures var after := After(t, x, now);
            && (email in t.users ==> email in after.users && Grown(t.users[email], after.users[email]))
            && StoredUp(after.users, email) == StoredUp(t.users, email) + UpBrought([(x, now)], email)
            && StoredDown(after.users, email) == StoredDown(t.users, email) + DownBrought([(x, now)], email)
  {
    hide Polled;
    assert [(x, now)][..0] == [] && UpBrought([], email) == DownBrought([], email) == 0;
    if x.Poll? {
      PollAddsItsDeltas(t, x.deltas, x.presence, x.parse, now, email);
      PollIsPolled(t, x, now);
    }
  }

  /** Over every log without a purge of the user: the stored totals are what they were, plus what the polls brought. */
  lemma {:induction false} HistoryAdds(t: Tables, log: seq<(Transaction, int)>, email: string)
    requires AllAllowed(t, log) && forall i :: 0 <= i < |log| ==> log[i].0 != Purge(email)
    ensures var after := AfterAll(t, log);
            && (email in t.users ==> email in after.users && Grown(t.users[email], after.users[email]))
            && StoredUp(after.users, email) == StoredUp(t.users, email) + UpBrought(log, email)
            && StoredDown(after.users, email) == StoredDown(t.users, email) + DownBrought(log, email)
  {
    hide After, Allowed, UpOf, DownOf;
    if log != [] {
      var init, x, now := log[..|log| - 1], log[|log| - 1].0, log[|log| - 1].1;
      HistoryAdds(t, init, email);
      HistoryKept(AfterAll(t, init), x, now, email);
      assert [(x, now)][..0] == [] && UpBrought([], email) == DownBrought([], email) == 0;
    }
  }

  /** A roster row after a poll: same credential and flags, its attachments still a prefix. */
  predicate RowKept(before: RosterRow, after: RosterRow) {
    && after.clientId == before.clientId && after.disabled == before.disabled && after.deleting == before.deleting
    && before.inbounds <= after.inbounds && after.created == before.created
    && (before.disabled ==> after == before)
  }

  /** A poll revives nobody, rewrites no Client ID, drops no attachment, and adopts only clients of the parse. */
  lemma PollKeepsTheRoster(t: Tables, deltas: seq<Delta>, presence: seq<Presence>, parse: Option<RosterParse>, now: int)
    requires Consistent(t)
    ensures var after := Polled(t, deltas, presence, parse, now);
            && (forall e :: e in t.roster ==> e in after.roster && RowKept(t.roster[e], after.roster[e]))
            && (forall e :: e in after.roster && e !in t.roster ==>
                  && parse.Some? && e in parse.value.clients
                  && var client := parse.value.clients[e];
                     after.roster[e] == RosterRow(client.clientId, client.inbounds, false, false, now, now))
            && (forall e :: e in t.roster && t.roster[e].disabled ==> e in after.users && after.users[e].disabled)
  {
    hide Merged, WithDeltas, WithPresences;
    var moved := WithDeltas(t.users, deltas, now);
    DeltasKeepFlags(t.users, deltas, now);
    PresencesKeepFlags(moved, presence, now);
    forall e | e in t.roster && t.roster[e].disabled
      ensures e in WithPresences(moved, presence, now) && WithPresences(moved, presence, now)[e].disabled
    {
      assert RowConsistent(t, e);
    }
  }

  lemma {:induction false} MergedHas(tags: seq<string>, more: seq<string>)
    ensures forall x :: x in more ==> x in Merged(tags, more)
    ensures forall x :: x in Merged(tags, more) ==> x in tags || x in more
  {
    if more != [] {
      MergedHas(tags, more[..|more| - 1]);
      assert more == more[..|more| - 1] + [more[|more| - 1]];
    }
  }

  lemma {:induction false} MergedNothing(tags: seq<string>, more: seq<string>)
    requires forall x :: x in more ==> x in tags
    ensures Merged(tags, more) == tags
  {
    if more != [] {
      MergedNothing(tags, more[..|more| - 1]);
    }
  }

  lemma AdoptedOnce(t: Tables, users: map<string, UserRow>, clients: map<string, Client>, now: int, again: int,
                    e: string)
    requires e in t.roster.Keys + clients.Keys
    ensures var t' := Tables(Adopted(t, clients, now), users);
            e in t'.roster && (e in clients ==> AdoptedRow(t', e, clients[e], again) == t'.roster[e])
  {
    if e in clients {
      var client := clients[e];
      if e in t.roster {
        var row := t.roster[e];
        MergedHas(row.inbounds, client.inbounds);
        if !row.disabled {
          MergedNothing(Merged(row.inbounds, client.inbounds), client.inbounds);
        }
      } else {
        MergedNothing(client.inbounds, client.inbounds);
      }
    }
  }

  lemma AdoptedTwice(t: Tables, users: map<string, UserRow>, clients: map<string, Client>, now: int, again: int)
    ensures var once := Adopted(t, clients, now); Adopted(Tables(once, users), clients, again) == once
  {
    hide AdoptedRow;
    var once := Adopted(t, clients, now);
    var twice := Adopted(Tables(once, users), clients, again);
    forall e | e in once
      ensures twice[e] == once[e]
    {
      AdoptedOnce(t, users, clients, now, again, e);
    }
  }

  /** A row that exists, in the second of two rounds. */
  lemma SyncedOnce(t: Tables, roster': map<string, RosterRow>, labels: map<string, seq<Label>>, now: int, again: int,
                   e: string)
    requires Consistent(t) && e in t.users.Keys + labels.Keys
    requires forall x :: x in t.roster ==> x in roster' && roster'[x].disabled == t.roster[x].disabled
    requires forall x :: x in roster' && x !in t.roster ==> x in labels && !roster'[x].disabled
    ensures var once := Synced(t, labels, now);
            var t' := Tables(roster', once);
            e in once && (if e in labels then SyncedRow(t', e, labels[e], again) else MarkMissing(t')[e]) == once[e]
  {
    if e in t.roster {
      assert RowConsistent(t, e);
    }
  }

  /** Applying the same roster again changes nothing. */
  lemma SameRosterTwice(t: Tables, parse: RosterParse, now: int, again: int)
    requires Consistent(t) && parse.clients.Keys <= parse.labels.Keys
    ensures var once := Polled(t, [], [], Some(parse), now); Polled(once, [], [], Some(parse), again) == once
  {
    hide AdoptedRow, SyncedRow, MarkMissing;
    var once := WithRoster(t, parse, now);
    AdoptedTwice(t, once.users, parse.clients, now, again);
    AdoptedFlags(t, parse, now);
    var twice := Synced(once, parse.labels, again);
    forall e | e in t.users.Keys + parse.labels.Keys
      ensures twice[e] == once.users[e]
    {
      SyncedOnce(t, once.roster, parse.labels, now, again, e);
    }
    assert twice == once.users;
  }

  lemma AdoptedFlags(t: Tables, parse: RosterParse, now: int)
    requires parse.clients.Keys <= parse.labels.Keys
    ensures var roster' := Adopted(t, parse.clients, now);
            && (forall x :: x in t.roster ==> x in roster' && roster'[x].disabled == t.roster[x].disabled)
            && (forall x :: x in roster' && x !in t.roster ==> x in parse.labels && !roster'[x].disabled)
  {
    hide Merged;
  }

  // ----- Deleting rows

  /** A row marked deleting survives every transaction but its own purge, unchanged in every field a claim rests on. */
  lemma DeletingKeepsItsClaims(t: Tables, x: Transaction, now: int, email: string)
    requires DeletingRow(t, email) && Consistent(t) && Allowed(t, x) && x != Purge(email)
    ensures var after := After(t, x, now);
            DeletingRow(after, email) && after.roster[email] == t.roster[email]
  {
    assert RowConsistent(t, email);
    if x.Poll? {
      PollKeepsTheRoster(t, x.deltas, x.presence, x.parse, now);
    }
  }

  /** An edit never takes a Client ID another row claims; an add only when the row found is its own disabled row. */
  lemma ClaimsAreRefused(t: Tables, x: Transaction, now: int, holder: string)
    requires (x.Add? || x.Edit?) && Allowed(t, x) && holder in t.roster && x.email != holder
    requires var id := if x.Add? then Some(x.id) else x.newId; id == Some(t.roster[holder].clientId)
    requires x.Add? ==> !(DisabledRow(t, x.email) && t.roster[x.email].clientId == x.id)
    ensures After(t, x, now) == t
  {}

  predicate UniqueIds(t: Tables) {
    forall a, b :: a in t.roster && b in t.roster && a != b ==> t.roster[a].clientId != t.roster[b].clientId
  }

  /** No mutation makes two rows share a Client ID; only adoption can. */
  lemma MutationsKeepIdsUnique(t: Tables, x: Transaction, now: int)
    requires UniqueIds(t) && Allowed(t, x) && !x.Poll?
    ensures UniqueIds(After(t, x, now))
  {}

  /** An email whose row is marked deleting cannot be added, edited, disabled or enabled. */
  lemma DeletingEmailIsRefused(t: Tables, x: Transaction, now: int)
    requires Consistent(t) && (x.Add? || x.Edit? || x.Disable? || x.Enable?) && DeletingRow(t, x.email)
    ensures After(t, x, now) == t
  {
    assert RowConsistent(t, x.email);
    if x.Disable? {
      assert t.users[x.email].(disabled := true) == t.users[x.email];
    }
  }

  /** A purge erases a deleting row from both tables, and nothing else. */
  lemma PurgeErasesOnlyDeleting(t: Tables, email: string, e: string)
    ensures var after := Purged(t, email);
            && (e in after.roster <==> e in t.roster && !(e == email && t.roster[e].deleting))
            && (e in after.users <==> e in t.users && !(e == email && DeletingRow(t, email)))
            && (e in after.roster ==> after.roster[e] == t.roster[e])
            && (e in after.users ==> after.users[e] == t.users[e])
  {}
}
