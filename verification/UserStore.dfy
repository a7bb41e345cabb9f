/** The two durable tables, and what each transaction does to them. */
module UserStore {
  import opened Options
  import opened Sequences

  datatype Label = Label(protocol: string, security: string, transport: string)

  datatype RosterRow = RosterRow(clientId: string, inbounds: seq<string>, disabled: bool, deleting: bool, created: int, updated: int)

  datatype UserRow = UserRow(
    labels: seq<Label>, up: nat, down: nat, lastSeen: Option<int>, lastIps: Option<seq<string>>, disabled: bool, firstSeen: int)

  datatype Tables = Tables(roster: map<string, RosterRow>, users: map<string, UserRow>)

  datatype Record = Record(email: string, clientId: string, inbounds: seq<string>)

  datatype Answer = Stored(record: Record) | EmailTaken | ClientIdTaken | NotFound | Failed

  datatype Delta = Delta(email: string, up: nat, down: nat, seenNow: bool)

  datatype Presence = Presence(email: string, ips: seq<string>, lastSeen: int)

  datatype Client = Client(clientId: string, inbounds: seq<string>)

  datatype RosterParse = RosterParse(labels: map<string, seq<Label>>, clients: map<string, Client>)

  // ----- Reads

  predicate LiveRow(t: Tables, email: string) {
    email in t.roster && !t.roster[email].disabled && !t.roster[email].deleting
  }

  predicate DisabledRow(t: Tables, email: string) {
    email in t.roster && t.roster[email].disabled && !t.roster[email].deleting
  }

  predicate DeletingRow(t: Tables, email: string) { email in t.roster && t.roster[email].deleting }

  function RecordOf(t: Tables, email: string): Record
    requires email in t.roster
  {
    Record(email, t.roster[email].clientId, t.roster[email].inbounds)
  }

  /** Some row a query for a Client ID may answer with; more than one can hold it. */
  ghost predicate Finds(t: Tables, id: string, found: Option<string>) {
    match found
    case None => forall e :: e in t.roster ==> t.roster[e].clientId != id
    case Some(e) => e in t.roster && t.roster[e].clientId == id
  }

  predicate HeldByOther(t: Tables, email: string, id: string) {
    exists e :: e in t.roster && e != email && t.roster[e].clientId == id
  }

  // ----- API mutations

  function NewUser(labels: seq<Label>, now: int): UserRow { UserRow(labels, 0, 0, None, None, false, now) }

  /** The dashboard row of an added or edited user: relabelled and live, its history kept. */
  function Relabelled(t: Tables, email: string, labels: seq<Label>, now: int): UserRow {
    if email in t.users then t.users[email].(labels := labels, disabled := false) else NewUser(labels, now)
  }

  function AddAnswer(t: Tables, email: string, id: string, found: Option<string>): Answer {
    if email in t.roster && (t.roster[email].deleting || !t.roster[email].disabled) then EmailTaken
    else if found.Some? && (found.value != email || email !in t.roster || !t.roster[email].disabled) then ClientIdTaken
    else Stored(Record(email, id, []))
  }

  function Added(t: Tables, email: string, id: string, inbounds: seq<string>, labels: seq<Label>, now: int): Tables {
    var created := if email in t.roster then t.roster[email].created else now;
    Tables(t.roster[email := RosterRow(id, inbounds, false, false, created, now)], t.users[email := Relabelled(t, email, labels, now)])
  }

  /** An edit that carries the stored state. */
  predicate Unedited(t: Tables, email: string, id: string, inbounds: seq<string>, labels: seq<Label>)
    requires email in t.roster
  {
    && email in t.users && t.users[email].labels == labels
    && t.roster[email].clientId == id && t.roster[email].inbounds == inbounds
  }

  function Edited(t: Tables, email: string, id: string, inbounds: seq<string>, labels: seq<Label>, now: int): Tables
    requires email in t.roster
  {
    if Unedited(t, email, id, inbounds, labels) then t
    else
      Tables(t.roster[email := t.roster[email].(clientId := id, inbounds := inbounds, updated := now)],
             t.users[email := Relabelled(t, email, labels, now)])
  }

  function WithUserDisabled(users: map<string, UserRow>, email: string, disabled: bool): map<string, UserRow> {
    if email in users then users[email := users[email].(disabled := disabled)] else users
  }

  function Disabled(t: Tables, email: string, now: int): Tables {
    Tables(if LiveRow(t, email) then t.roster[email := t.roster[email].(disabled := true, updated := now)] else t.roster,
           WithUserDisabled(t.users, email, true))
  }

  function Enabled(t: Tables, email: string, now: int): Tables {
    if !DisabledRow(t, email) then t
    else
      Tables(t.roster[email := t.roster[email].(disabled := false, updated := now)], WithUserDisabled(t.users, email, false))
  }

  function MarkedDeleting(t: Tables, email: string, now: int): Tables {
    Tables(if email in t.roster && !t.roster[email].deleting
           then t.roster[email := t.roster[email].(disabled := true, deleting := true, updated := now)] else t.roster,
           WithUserDisabled(t.users, email, true))
  }

  function Purged(t: Tables, email: string): Tables {
    if DeletingRow(t, email) then Tables(t.roster - {email}, t.users - {email}) else t
  }

  // ----- Polls

  function Later(stored: Option<int>, seen: Option<int>): Option<int> {
    match (stored, seen)
    case (_, None) => stored
    case (None, Some(s)) => Some(if s > 0 then s else 0)
    case (Some(r), Some(s)) => Some(if s > r then s else r)
  }

  function WithDelta(users: map<string, UserRow>, d: Delta, now: int): map<string, UserRow> {
    var seen := if d.seenNow then Some(now) else None;
    if d.email in users then
      var row := users[d.email];
      users[d.email := row.(up := row.up + d.up, down := row.down + d.down, lastSeen := Later(row.lastSeen, seen))]
    else users[d.email := UserRow([], d.up, d.down, seen, None, false, now)]
  }

  function WithDeltas(users: map<string, UserRow>, deltas: seq<Delta>, now: int): map<string, UserRow> {
    if deltas == [] then users else WithDelta(WithDeltas(users, deltas[..|deltas| - 1], now), deltas[|deltas| - 1], now)
  }

  function WithPresence(users: map<string, UserRow>, p: Presence, now: int): map<string, UserRow> {
    var seen := if p.lastSeen > 0 then Some(p.lastSeen) else None;
    var ips := if p.ips == [] then None else Some(p.ips);
    if p.email in users then
      var row := users[p.email];
      users[p.email := row.(lastSeen := Later(row.lastSeen, seen), lastIps := if ips.Some? then ips else row.lastIps)]
    else users[p.email := UserRow([], 0, 0, seen, ips, false, now)]
  }

  function WithPresences(users: map<string, UserRow>, presence: seq<Presence>, now: int): map<string, UserRow> {
    if presence == [] then users else WithPresence(WithPresences(users, presence[..|presence| - 1], now), presence[|presence| - 1], now)
  }

  predicate NotDisabledInRoster(t: Tables, email: string) { email in t.roster && !t.roster[email].disabled }

  predicate DisabledInRoster(roster: map<string, RosterRow>,
                             email: string) { email in roster && roster[email].disabled }

  /** First everybody without a live roster row is disabled. */
  function MarkMissing(t: Tables): map<string, UserRow> {
    map e | e in t.users :: t.users[e].(disabled := t.users[e].disabled || !NotDisabledInRoster(t, e))
  }

  /** Then one parsed email is upserted; the panel's own disabled flag stays. */
  function WithLabels(roster: map<string, RosterRow>, users: map<string, UserRow>, email: string, labels: seq<Label>,
                      now: int): map<string, UserRow> {
    if email in users then
      users[email := users[email].(labels := labels, disabled := DisabledInRoster(roster, email) && users[email].disabled)]
    else users[email := NewUser(labels, now)]
  }

  function SyncedRow(t: Tables, email: string, labels: seq<Label>, now: int): UserRow {
    if email in t.users then
      t.users[email].(labels := labels, disabled := DisabledInRoster(t.roster, email) && MarkMissing(t)[email].disabled)
    else NewUser(labels, now)
  }

  /** The users table once the labels of some of the parsed emails are in. */
  function SyncedFor(t: Tables, labels: map<string, seq<Label>>, done: set<string>, now: int): map<string, UserRow>
    requires done <= labels.Keys
  {
    map e | e in t.users.Keys + done :: if e in done then SyncedRow(t, e, labels[e], now) else MarkMissing(t)[e]
  }

  function Synced(t: Tables, labels: map<string, seq<Label>>, now: int): map<string, UserRow> {
    SyncedFor(t, labels, labels.Keys, now)
  }

  lemma SyncStep(t: Tables, labels: map<string, seq<Label>>, done: set<string>, email: string, now: int)
    requires done <= labels.Keys && email in labels && email !in done
    ensures SyncedFor(t, labels, done + {email}, now) == WithLabels(t.roster, SyncedFor(t, labels, done, now), email, labels[email], now)
  {
    hide MarkMissing;
    if email in t.users {
      MarkMissingKeeps(t, email);
    }
  }

  lemma MarkMissingKeeps(t: Tables, email: string)
    requires email in t.users
    ensures MarkMissing(t).Keys == t.users.Keys
    ensures MarkMissing(t)[email].(disabled := t.users[email].disabled) == t.users[email]
  {}

  function Merged(tags: seq<string>, more: seq<string>): (merged: seq<string>)
    ensures tags <= merged
  {
    if more == [] then tags
    else
      var before := Merged(tags, more[..|more| - 1]);
      if more[|more| - 1] in before then before else before + [more[|more| - 1]]
  }

  function AdoptedRow(t: Tables, email: string, client: Client, now: int): RosterRow {
    if email !in t.roster then RosterRow(client.clientId, client.inbounds, false, false, now, now)
    else
      var row := t.roster[email];
      var merged := Merged(row.inbounds, client.inbounds);
      if row.disabled || |merged| == |row.inbounds| then row else row.(inbounds := merged, updated := now)
  }

  /** The roster table once some of the parsed clients are adopted. */
  function AdoptedFor(t: Tables, clients: map<string, Client>, done: set<string>, now: int): map<string, RosterRow>
    requires done <= clients.Keys
  {
    map e | e in t.roster.Keys + done :: if e in done then AdoptedRow(t, e, clients[e], now) else t.roster[e]
  }

  function Adopted(t: Tables, clients: map<string, Client>, now: int): map<string, RosterRow> {
    AdoptedFor(t, clients, clients.Keys, now)
  }

  lemma AdoptStep(t: Tables, clients: map<string, Client>, done: set<string>, email: string, now: int)
    requires done <= clients.Keys && email in clients && email !in done
    ensures AdoptedFor(t, clients, done + {email}, now) ==
            AdoptedFor(t, clients, done, now)[email := AdoptedRow(t, email, clients[email], now)]
  {
    hide AdoptedRow;
  }

  function WithRoster(t: Tables, parse: RosterParse, now: int): Tables {
    Tables(Adopted(t, parse.clients, now), Synced(t, parse.labels, now))
  }

  function Polled(t: Tables, deltas: seq<Delta>, presence: seq<Presence>, parse: Option<RosterParse>,
                  now: int): Tables {
    var users := WithPresences(WithDeltas(t.users, deltas, now), presence, now);
    match parse
    case None => Tables(t.roster, users)
    case Some(p) => WithRoster(Tables(t.roster, users), p, now)
  }

  // ----- The store

  class Store {
    var roster: map<string, RosterRow>
    var users: map<string, UserRow>

    function Contents(): Tables
      reads this
    {
      Tables(roster, users)
    }

    constructor ()
      ensures Contents() == Tables(map[], map[])
    {
      roster, users := map[], map[];
    }

    /** A transaction that does not commit writes nothing, here and below. */
    method AddRosterUser(email: string, id: string, inbounds: seq<string>, labels: seq<Label>, now: int, commits: bool)
      returns (answer: Answer)
      modifies this
      ensures exists found :: Finds(old(Contents()), id, found) &&
                var expected := AddAnswer(old(Contents()), email, id, found);
                && answer == (if !commits then Failed else if expected.Stored? then Stored(Record(email, id, inbounds)) else expected)
                && Contents() == if answer.Stored? then Added(old(Contents()), email, id, inbounds, labels, now) else old(Contents())
    {
      var found := FindHolder(id);
      if !commits {
        return Failed;
      }
      ghost var before := Contents();
      assert Finds(before, id, found);
      if email in roster && (roster[email].deleting || !roster[email].disabled) {
        return EmailTaken;
      }
      if found.Some? && (found.value != email || email !in roster || !roster[email].disabled) {
        return ClientIdTaken;
      }
      var created := now;
      if email in roster {
        created := roster[email].created;
      }
      roster := roster[email := RosterRow(id, inbounds, false, false, created, now)];
      Relabel(email, labels, now);
      answer := Stored(Record(email, id, inbounds));
    }

    method FindHolder(id: string) returns (found: Option<string>)
      ensures Finds(Contents(), id, found)
    {
      if e :| e in roster && roster[e].clientId == id {
        found := Some(e);
      } else {
        found := None;
      }
    }

    method Relabel(email: string, labels: seq<Label>, now: int)
      modifies this`users
      ensures users == old(users)[email := Relabelled(old(Contents()), email, labels, now)]
    {
      if email in users {
        users := users[email := users[email].(labels := labels, disabled := false)];
      } else {
        users := users[email := NewUser(labels, now)];
      }
    }

    method EditRosterUser(email: string, newId: Option<string>, inbounds: seq<string>, labels: seq<Label>, now: int,
                          commits: bool)
      returns (answer: Answer)
      modifies this
      ensures var before := old(Contents());
              if !commits then answer == Failed && Contents() == before
              else if !LiveRow(before, email) then answer == NotFound && Contents() == before
              else if newId.Some? && HeldByOther(before, email, newId.value) then answer == ClientIdTaken && Contents() == before
              else
                var id := if newId.Some? then newId.value else before.roster[email].clientId;
                && answer == Stored(Record(email, id, inbounds))
                && Contents() == Edited(before, email, id, inbounds, labels, now)
    {
      if !commits {
        return Failed;
      }
      if !LiveRow(Contents(), email) {
        return NotFound;
      }
      var id := roster[email].clientId;
      if newId.Some? {
        if HeldByOther(Contents(), email, newId.value) {
          return ClientIdTaken;
        }
        id := newId.value;
      }
      answer := Stored(Record(email, id, inbounds));
      if Unedited(Contents(), email, id, inbounds, labels) {
        return;
      }
      roster := roster[email := roster[email].(clientId := id, inbounds := inbounds, updated := now)];
      Relabel(email, labels, now);
    }

    method SetUserDisabled(email: string, disabled: bool)
      modifies this`users
      ensures users == WithUserDisabled(old(users), email, disabled)
    {
      if email in users {
        users := users[email := users[email].(disabled := disabled)];
      }
    }

    method DisableRosterUser(email: string, now: int, commits: bool) returns (ok: bool)
      modifies this
      ensures ok == commits
      ensures Contents() == if commits then Disabled(old(Contents()), email, now) else old(Contents())
    {
      if !commits {
        return false;
      }
      if LiveRow(Contents(), email) {
        roster := roster[email := roster[email].(disabled := true, updated := now)];
      }
      SetUserDisabled(email, true);
      ok := true;
    }

    method EnableRosterUser(email: string, now: int, commits: bool) returns (answer: Answer, revived: bool)
      modifies this
      ensures var before := old(Contents());
              if LiveRow(before, email) then answer == Stored(Record(email, before.roster[email].clientId, before.roster[email].inbounds)) && !revived && Contents() == before
              else if !DisabledRow(before, email) then answer == NotFound && !revived && Contents() == before
              else if !commits then answer == Failed && !revived && Contents() == before
              else answer == Stored(Record(email, before.roster[email].clientId, before.roster[email].inbounds)) && revived && Contents() == Enabled(before, email, now)
    {
      revived := false;
      if LiveRow(Contents(), email) {
        return Stored(RecordOf(Contents(), email)), false;
      }
      if !DisabledRow(Contents(), email) {
        return NotFound, false;
      }
      if !commits {
        return Failed, false;
      }
      answer, revived := Stored(RecordOf(Contents(), email)), true;
      roster := roster[email := roster[email].(disabled := false, updated := now)];
      SetUserDisabled(email, false);
    }

    method MarkRosterDeleting(email: string, now: int, commits: bool) returns (ok: bool)
      modifies this
      ensures ok == commits
      ensures Contents() == if commits then MarkedDeleting(old(Contents()), email, now) else old(Contents())
    {
      if !commits {
        return false;
      }
      if email in roster && !roster[email].deleting {
        roster := roster[email := roster[email].(disabled := true, deleting := true, updated := now)];
      }
      SetUserDisabled(email, true);
      ok := true;
    }

    /** The emails of the rows marked deleting, each once. */
    method DeletingRosterRecords() returns (emails: seq<string>)
      ensures NoRepeats(emails) && forall e :: e in emails <==> DeletingRow(Contents(), e)
    {
      emails := [];
      var left := roster.Keys;
      while left != {}
        invariant left <= roster.Keys && NoRepeats(emails)
        invariant forall e :: e in emails <==> DeletingRow(Contents(), e) && e !in left
        decreases |left|
      {
        var email :| email in left;
        if roster[email].deleting {
          NoRepeatsSnoc(emails, email);
          emails := emails + [email];
        }
        left := left - {email};
      }
    }

    method PurgeRosterUser(email: string, commits: bool) returns (ok: bool)
      modifies this
      ensures ok == commits
      ensures Contents() == if commits then Purged(old(Contents()), email) else old(Contents())
    {
      if !commits {
        return false;
      }
      if email in roster && roster[email].deleting {
        users := users - {email};
        roster := roster - {email};
      }
      ok := true;
    }

    method ApplyPoll(deltas: seq<Delta>, presence: seq<Presence>, parse: Option<RosterParse>, now: int,
                     commits: bool) returns (ok: bool)
      modifies this
      ensures ok == commits
      ensures Contents() == if commits then Polled(old(Contents()), deltas, presence, parse, now) else old(Contents())
    {
      if !commits {
        return false;
      }
      for i := 0 to |deltas|
        invariant roster == old(roster) && users == WithDeltas(old(users), deltas[..i], now)
      {
        assert deltas[..i + 1][..i] == deltas[..i];
        users := WithDelta(users, deltas[i], now);
      }
      assert deltas[..|deltas|] == deltas;
      ghost var moved := users;
      for i := 0 to |presence|
        invariant roster == old(roster) && users == WithPresences(moved, presence[..i], now)
      {
        assert presence[..i + 1][..i] == presence[..i];
        users := WithPresence(users, presence[i], now);
      }
      assert presence[..|presence|] == presence;
      if parse.Some? {
        ghost var t := Contents();
        SyncLabels(parse.value.labels, now);
        AdoptClients(parse.value.clients, now);
      }
      ok := true;
    }

    method SyncLabels(labels: map<string, seq<Label>>, now: int)
      modifies this`users
      ensures users == Synced(old(Contents()), labels, now)
    {
      hide SyncedFor, WithLabels;
      ghost var before := Contents();
      users := MarkMissing(Contents());
      NothingSynced(before, labels, now);
      var emails := labels.Keys;
      while emails != {}
        invariant emails <= labels.Keys
        invariant users == SyncedFor(before, labels, labels.Keys - emails, now)
        decreases |emails|
      {
        var email :| email in emails;
        SyncStep(before, labels, labels.Keys - emails, email, now);
        assert labels.Keys - emails + {email} == labels.Keys - (emails - {email});
        users := WithLabels(roster, users, email, labels[email], now);
        emails := emails - {email};
      }
      assert labels.Keys - emails == labels.Keys;
    }

    method AdoptClients(clients: map<string, Client>, now: int)
      modifies this`roster
      ensures roster == Adopted(old(Contents()), clients, now)
    {
      hide AdoptedFor, Merged;
      ghost var before := Contents();
      NothingAdopted(before, clients, now);
      var emails := clients.Keys;
      while emails != {}
        invariant emails <= clients.Keys
        invariant roster == AdoptedFor(before, clients, clients.Keys - emails, now)
        decreases |emails|
      {
        var email :| email in emails;
        var client := clients[email];
        AdoptStep(before, clients, clients.Keys - emails, email, now);
        assert clients.Keys - emails + {email} == clients.Keys - (emails - {email});
        NotYetAdopted(before, clients, clients.Keys - emails, email, now);
        if email in roster && roster[email].disabled {
        } else if email !in roster {
          roster := roster[email := RosterRow(client.clientId, client.inbounds, false, false, now, now)];
        } else {
          var merged := MergeTags(roster[email].inbounds, client.inbounds);
          if |merged| != |roster[email].inbounds| {
            roster := roster[email := roster[email].(inbounds := merged, updated := now)];
          }
        }
        emails := emails - {email};
      }
      assert clients.Keys - emails == clients.Keys;
    }
  }

  lemma NothingSynced(t: Tables, labels: map<string, seq<Label>>, now: int)
    ensures SyncedFor(t, labels, labels.Keys - labels.Keys, now) == MarkMissing(t)
  {}

  lemma NothingAdopted(t: Tables, clients: map<string, Client>, now: int)
    ensures AdoptedFor(t, clients, clients.Keys - clients.Keys, now) == t.roster
  {}

  lemma NotYetAdopted(t: Tables, clients: map<string, Client>, done: set<string>, email: string, now: int)
    requires done <= clients.Keys && email !in done
    ensures var roster := AdoptedFor(t, clients, done, now);
            (email in roster <==> email in t.roster) && (email in roster ==> roster[email] == t.roster[email])
  {}

  method MergeTags(tags: seq<string>, more: seq<string>) returns (merged: seq<string>)
    ensures merged == Merged(tags, more)
  {
    merged := tags;
    for i := 0 to |more|
      invariant merged == Merged(tags, more[..i])
    {
      assert more[..i + 1][..i] == more[..i];
      if more[i] !in merged {
        merged := merged + [more[i]];
      }
    }
    assert more[..|more|] == more;
  }
}
