/** What each transaction leaves in the rows, column by column. */
module StoreEffects {
  import opened Options
  import opened Sequences
  import opened StoreLaws
  import opened UserStore

  // ----- Adoption

  /** The tags of a parse a row lacks, in the parse's order, each once. */
  function NewTags(tags: seq<string>, parsed: seq<string>): seq<string>
    decreases |parsed|
  {
    if parsed == [] then []
    else if parsed[0] in tags then NewTags(tags, parsed[1..])
    else [parsed[0]] + NewTags(tags + [parsed[0]], parsed[1..])
  }

  lemma {:induction false} MergedSplit(tags: seq<string>, a: seq<string>, b: seq<string>)
    ensures Merged(tags, a + b) == Merged(Merged(tags, a), b)
  {
    if b == [] {
      assert a + b == a;
    } else {
      assert (a + b)[..|a + b| - 1] == a + b[..|b| - 1];
      MergedSplit(tags, a, b[..|b| - 1]);
    }
  }

  lemma {:induction false} MergedIs(tags: seq<string>, parsed: seq<string>)
    ensures Merged(tags, parsed) == tags + NewTags(tags, parsed)
    decreases |parsed|
  {
    if parsed == [] {
      assert tags + [] == tags;
    } else {
      var first, rest := [parsed[0]], parsed[1..];
      assert first + rest == parsed && first[..0] == [];
      MergedSplit(tags, first, rest);
      assert Merged(tags, []) == tags;
      var once := if parsed[0] in tags then tags else tags + first;
      assert Merged(tags, first) == once;
      MergedIs(once, rest);
      assert tags + first + NewTags(tags + first, rest) == tags + (first + NewTags(tags + first, rest));
    }
  }

  lemma {:induction false} NewTagsAre(tags: seq<string>, parsed: seq<string>)
    ensures var more := NewTags(tags, parsed);
            && NoRepeats(more) && forall x :: x in more <==> x in parsed && x !in tags
    decreases |parsed|
  {
    if parsed != [] {
      assert forall x :: x in parsed <==> x == parsed[0] || x in parsed[1..];
      if parsed[0] in tags {
        NewTagsAre(tags, parsed[1..]);
      } else {
        var rest := NewTags(tags + [parsed[0]], parsed[1..]);
        NewTagsAre(tags + [parsed[0]], parsed[1..]);
        NoRepeatsCons(parsed[0], rest);
      }
    }
  }

  lemma NoRepeatsCons(x: string, s: seq<string>)
    requires NoRepeats(s) && x !in s
    ensures NoRepeats([x] + s)
  {}

  /** A known row of a live user after a poll that parsed it: the tags it lacked behind its own, and stamped only then. */
  predicate Joined(before: RosterRow, parsed: seq<string>, now: int, after: RosterRow) {
    var more := NewTags(before.inbounds, parsed);
    && after.clientId == before.clientId && after.inbounds == before.inbounds + more
    && after.disabled == before.disabled && after.deleting == before.deleting && after.created == before.created
    && after.updated == if more == [] then before.updated else now
  }

  /** The roster after a poll, row by row. */
  lemma PollRoster(t: Tables, deltas: seq<Delta>, presence: seq<Presence>, parse: Option<RosterParse>, now: int, e: string)
    ensures var roster := Polled(t, deltas, presence, parse, now).roster;
            var parsed := parse.Some? && e in parse.value.clients;
            && (e in roster <==> e in t.roster || parsed)
            && (parsed && e !in t.roster ==>
                  roster[e] == RosterRow(parse.value.clients[e].clientId, parse.value.clients[e].inbounds, false, false, now, now))
            && (e in t.roster && (!parsed || t.roster[e].disabled) ==> roster[e] == t.roster[e])
            && (e in t.roster && parsed && !t.roster[e].disabled ==>
                  Joined(t.roster[e], parse.value.clients[e].inbounds, now, roster[e]))
  {
    hide Merged, NewTags, WithDeltas, WithPresences, Synced;
    if e in t.roster && parse.Some? && e in parse.value.clients {
      MergedIs(t.roster[e].inbounds, parse.value.clients[e].inbounds);
      assert t.roster[e].inbounds + [] == t.roster[e].inbounds;
    }
  }

  // ----- Traffic and presence

  /** The newest of some times; the column never goes below zero once it is compared. */
  predicate Newest(seen: Option<int>, times: set<int>) {
    match seen
    case None => times == {}
    case Some(v) => times != {} && (v in times || v == 0) && forall s :: s in times ==> s <= v
  }

  function StoredTimes(users: map<string, UserRow>, e: string): set<int> {
    if e in users && users[e].lastSeen.Some? then {users[e].lastSeen.value} else {}
  }

  function DeltaTimes(deltas: seq<Delta>, now: int, e: string): set<int> {
    set i | 0 <= i < |deltas| && deltas[i].email == e && deltas[i].seenNow :: now
  }

  function PresenceTimes(presence: seq<Presence>, e: string): set<int> {
    set i | 0 <= i < |presence| && presence[i].email == e && presence[i].lastSeen > 0 :: presence[i].lastSeen
  }

  /** The last report of a user's addresses, behind what was stored. */
  ghost predicate LastReported(before: Option<seq<string>>, presence: seq<Presence>, e: string, after: Option<seq<string>>) {
    if exists i :: Reports(presence, e, i) then exists i :: Reports(presence, e, i) && after == Some(presence[i].ips)
    else after == before
  }

  /** Report i names addresses, and no later one does. */
  predicate Reports(presence: seq<Presence>, e: string, i: int) {
    && 0 <= i < |presence| && presence[i].email == e && presence[i].ips != []
    && forall j :: i < j < |presence| && presence[j].email == e ==> presence[j].ips == []
  }

  predicate NamedIn(deltas: seq<Delta>, e: string) { exists i :: 0 <= i < |deltas| && deltas[i].email == e }

  predicate PresentIn(presence: seq<Presence>, e: string) { exists i :: 0 <= i < |presence| && presence[i].email == e }

  lemma {:induction false} DeltaRow(users: map<string, UserRow>, deltas: seq<Delta>, now: int, e: string)
    ensures var after := WithDeltas(users, deltas, now);
            && (e in after <==> e in users || NamedIn(deltas, e))
            && (e in after ==>
                  && Newest(after[e].lastSeen, StoredTimes(users, e) + DeltaTimes(deltas, now, e))
                  && if e in users then after[e] == users[e].(up := after[e].up, down := after[e].down, lastSeen := after[e].lastSeen)
                     else after[e] == UserRow([], after[e].up, after[e].down, after[e].lastSeen, None, false, now))
  {
    hide NamedIn, DeltaTimes;
    LastNamed(deltas, e);
    if deltas == [] {
      NoTimes(now, e);
    } else {
      var n := |deltas| - 1;
      DeltaRow(users, deltas[..n], now, e);
      LastTime(deltas, now, e);
      if !NamedIn(deltas[..n], e) {
        NobodyMoved(deltas[..n], now, e);
      }
    }
  }

  lemma NoTimes(now: int, e: string)
    ensures DeltaTimes([], now, e) == {} && PresenceTimes([], e) == {}
  {}

  lemma NobodyMoved(deltas: seq<Delta>, now: int, e: string)
    requires !NamedIn(deltas, e)
    ensures DeltaTimes(deltas, now, e) == {}
  {
  }

  lemma LastNamed(deltas: seq<Delta>, e: string)
    ensures NamedIn(deltas, e) <==> deltas != [] && (deltas[|deltas| - 1].email == e || NamedIn(deltas[..|deltas| - 1], e))
  {
    if deltas != [] {
      var n := |deltas| - 1;
      var init := deltas[..n];
      if i :| 0 <= i < |deltas| && deltas[i].email == e {
        assert i < n ==> init[i].email == e;
      }
      if i :| 0 <= i < n && init[i].email == e {
        assert deltas[i].email == e;
      }
    }
  }

  lemma LastTime(deltas: seq<Delta>, now: int, e: string)
    requires deltas != []
    ensures var n := |deltas| - 1;
            DeltaTimes(deltas, now, e) == DeltaTimes(deltas[..n], now, e) + if deltas[n].email == e && deltas[n].seenNow then {now} else {}
  {
    var n := |deltas| - 1;
    var init := deltas[..n];
    forall s | s in DeltaTimes(init, now, e)
      ensures s in DeltaTimes(deltas, now, e)
    {
      var i :| 0 <= i < n && init[i].email == e && init[i].seenNow;
      assert deltas[i].email == e && deltas[i].seenNow;
    }
    forall s | s in DeltaTimes(deltas, now, e)
      ensures s in DeltaTimes(init, now, e) || (s == now && deltas[n].email == e && deltas[n].seenNow)
    {
      var i :| 0 <= i < |deltas| && deltas[i].email == e && deltas[i].seenNow;
      if i < n {
        assert init[i].email == e && init[i].seenNow;
      }
    }
    if deltas[n].email == e && deltas[n].seenNow {
      assert now in DeltaTimes(deltas, now, e);
    }
  }

  lemma LastSeenTime(presence: seq<Presence>, e: string)
    requires presence != []
    ensures var n := |presence| - 1;
            PresenceTimes(presence, e) ==
            PresenceTimes(presence[..n], e) + if presence[n].email == e && presence[n].lastSeen > 0 then {presence[n].lastSeen} else {}
  {
    var n := |presence| - 1;
    var init := presence[..n];
    forall s | s in PresenceTimes(init, e)
      ensures s in PresenceTimes(presence, e)
    {
      var i :| 0 <= i < n && init[i].email == e && init[i].lastSeen > 0 && s == init[i].lastSeen;
      assert presence[i].email == e && presence[i].lastSeen > 0;
    }
    forall s | s in PresenceTimes(presence, e)
      ensures s in PresenceTimes(init, e) || (presence[n].email == e && presence[n].lastSeen > 0 && s == presence[n].lastSeen)
    {
      var i :| 0 <= i < |presence| && presence[i].email == e && presence[i].lastSeen > 0 && s == presence[i].lastSeen;
      if i < n {
        assert init[i].email == e && init[i].lastSeen > 0;
      }
    }
    if presence[n].email == e && presence[n].lastSeen > 0 {
      assert presence[n].lastSeen in PresenceTimes(presence, e);
    }
  }

  lemma LastPresent(presence: seq<Presence>, e: string)
    ensures PresentIn(presence, e) <==>
            presence != [] && (presence[|presence| - 1].email == e || PresentIn(presence[..|presence| - 1], e))
  {
    if presence != [] {
      var n := |presence| - 1;
      var init := presence[..n];
      if i :| 0 <= i < |presence| && presence[i].email == e {
        assert i < n ==> init[i].email == e;
      }
      if i :| 0 <= i < n && init[i].email == e {
        assert presence[i].email == e;
      }
    }
  }

  lemma LastReport(before: Option<seq<string>>, presence: seq<Presence>, e: string, middle: Option<seq<string>>,
                   after: Option<seq<string>>)
    requires presence != [] && LastReported(before, presence[..|presence| - 1], e, middle)
    requires var last := presence[|presence| - 1]; after == if last.email == e && last.ips != [] then Some(last.ips) else middle
    ensures LastReported(before, presence, e, after)
  {
    var n := |presence| - 1;
    var init, last := presence[..n], presence[n];
    if last.email == e && last.ips != [] {
      assert Reports(presence, e, n);
    } else {
      forall i
        ensures Reports(presence, e, i) <==> Reports(init, e, i)
      {
        if Reports(init, e, i) {
          forall j | i < j < |presence| && presence[j].email == e
            ensures presence[j].ips == []
          {
            if j < n {
              assert init[j] == presence[j];
            }
          }
        }
        if Reports(presence, e, i) {
          assert i < n;
          assert forall j :: i < j < n ==> init[j] == presence[j];
        }
      }
    }
  }

  lemma {:induction false} PresenceRow(users: map<string, UserRow>, presence: seq<Presence>, now: int, e: string, times: set<int>)
    requires e in users ==> Newest(users[e].lastSeen, times)
    requires e !in users ==> times == {}
    ensures var after := WithPresences(users, presence, now);
            && (e in after <==> e in users || PresentIn(presence, e))
            && (e in after ==>
                  && Newest(after[e].lastSeen, times + PresenceTimes(presence, e))
                  && LastReported(if e in users then users[e].lastIps else None, presence, e, after[e].lastIps)
                  && if e in users then after[e] == users[e].(lastSeen := after[e].lastSeen, lastIps := after[e].lastIps)
                     else after[e] == UserRow([], 0, 0, after[e].lastSeen, after[e].lastIps, false, now))
  {
    hide PresentIn, PresenceTimes, LastReported;
    LastPresent(presence, e);
    var after := WithPresences(users, presence, now);
    if presence == [] {
      NoTimes(now, e);
      if e in users {
        NoReport(users[e].lastIps, e);
      }
    } else {
      var n := |presence| - 1;
      var middle := WithPresences(users, presence[..n], now);
      PresenceRow(users, presence[..n], now, e, times);
      LastSeenTime(presence, e);
      if e in after {
        var before := if e in users then users[e].lastIps else None;
        if e !in middle {
          NobodyReports(presence[..n], e);
        }
        LastReport(before, presence, e, if e in middle then middle[e].lastIps else before, after[e].lastIps);
        assert times + PresenceTimes(presence[..n], e) + {presence[n].lastSeen} == times + (PresenceTimes(presence[..n], e) + {presence[n].lastSeen});
        if e !in middle {
          NobodySeen(presence[..n], e);
        }
      }
    }
  }

  lemma NoReport(before: Option<seq<string>>, e: string)
    ensures LastReported(before, [], e, before)
  {}

  lemma NobodyReports(presence: seq<Presence>, e: string)
    requires !PresentIn(presence, e)
    ensures forall before :: LastReported(before, presence, e, before)
  {
    forall before: Option<seq<string>>
      ensures LastReported(before, presence, e, before)
    {
      assert forall i :: Reports(presence, e, i) ==> PresentIn(presence, e);
    }
  }

  lemma NobodySeen(presence: seq<Presence>, e: string)
    requires !PresentIn(presence, e)
    ensures PresenceTimes(presence, e) == {}
  {
  }

  /** The dashboard after a poll, row by row and column by column. */
  lemma PollUsers(t: Tables, deltas: seq<Delta>, presence: seq<Presence>, parse: Option<RosterParse>, now: int, e: string)
    ensures var before, after := t.users, Polled(t, deltas, presence, parse, now).users;
            var known, labelled := e in before, parse.Some? && e in parse.value.labels;
            && (e in after <==> known || NamedIn(deltas, e) || PresentIn(presence, e) || labelled)
            && (e in after ==>
                  && after[e].up == (if known then before[e].up else 0) + UpOf(deltas, e)
                  && after[e].down == (if known then before[e].down else 0) + DownOf(deltas, e)
                  && Newest(after[e].lastSeen, StoredTimes(before, e) + DeltaTimes(deltas, now, e) + PresenceTimes(presence, e))
                  && LastReported(if known then before[e].lastIps else None, presence, e, after[e].lastIps)
                  && after[e].firstSeen == (if known then before[e].firstSeen else now)
                  && after[e].labels == (if labelled then parse.value.labels[e] else if known then before[e].labels else [])
                  && ((e in t.roster ==> known) ==>
                        after[e].disabled ==
                        (if parse.None? then known && before[e].disabled
                         else if e in t.roster then t.roster[e].disabled || (!labelled && before[e].disabled)
                         else !labelled)))
  {
    hide WithDeltas, WithPresences, Newest, LastReported, NamedIn, PresentIn, DeltaTimes, PresenceTimes, Adopted, UpOf, DownOf;
    var moved := WithDeltas(t.users, deltas, now);
    var users := WithPresences(moved, presence, now);
    var after := Polled(t, deltas, presence, parse, now).users;
    var times := StoredTimes(t.users, e) + DeltaTimes(deltas, now, e);
    DeltaRow(t.users, deltas, now, e);
    if e !in moved {
      NobodyMoved(deltas, now, e);
    }
    PresenceRow(moved, presence, now, e, times);
    PollAddsItsDeltas(t, deltas, presence, parse, now, e);
    if e !in users {
      NobodyReports(presence, e);
      NobodySeen(presence, e);
      NeverSeen();
    }
  }

  lemma NeverSeen()
    ensures Newest(None, {})
  {}

  // ----- Mutations

  /** A mutation touches no row but its user's. */
  lemma OthersUntouched(t: Tables, x: Transaction, now: int, e: string)
    requires !x.Poll? && e != x.email
    ensures var after := After(t, x, now);
            && (e in after.roster <==> e in t.roster) && (e in t.roster ==> after.roster[e] == t.roster[e])
            && (e in after.users <==> e in t.users) && (e in t.users ==> after.users[e] == t.users[e])
  {}

  /** A dashboard row that is relabelled and live, its history kept or begun. */
  predicate Shown(t: Tables, email: string, labels: seq<Label>, now: int, after: Tables) {
    && email in after.users
    && after.users[email] == if email in t.users then t.users[email].(labels := labels, disabled := false)
                             else UserRow(labels, 0, 0, None, None, false, now)
  }

  /** An add is refused for its email while a row has it that is not merely disabled, for its Client ID while another has that. */
  lemma AddDecides(t: Tables, email: string, id: string, inbounds: seq<string>, labels: seq<Label>, found: Option<string>, now: int)
    requires Finds(t, id, found)
    ensures var answer, after := AddAnswer(t, email, id, found), After(t, Add(email, id, inbounds, labels, found), now);
            var taken := email in t.roster && (!t.roster[email].disabled || t.roster[email].deleting);
            && (answer == EmailTaken <==> taken)
            && (answer == ClientIdTaken ==> exists e :: e in t.roster && t.roster[e].clientId == id)
            && (UniqueIds(t) && !taken ==>
                  (answer == ClientIdTaken <==> exists e :: e in t.roster && e != email && t.roster[e].clientId == id))
            && (answer == EmailTaken || answer == ClientIdTaken || answer.Stored?)
            && (!answer.Stored? ==> after == t)
            && (answer.Stored? ==>
                  && email in after.roster
                  && after.roster[email] ==
                     RosterRow(id, inbounds, false, false, if email in t.roster then t.roster[email].created else now, now)
                  && Shown(t, email, labels, now, after))
  {}

  /** An edit of a live user stores the credential and attachments it asks for, stamped unless nothing differs. */
  lemma EditDecides(t: Tables, email: string, newId: Option<string>, inbounds: seq<string>, labels: seq<Label>, now: int)
    ensures var after := After(t, Edit(email, newId, inbounds, labels), now);
            var live := email in t.roster && !t.roster[email].disabled && !t.roster[email].deleting;
            var taken := newId.Some? && exists e :: e in t.roster && e != email && t.roster[e].clientId == newId.value;
            if !live || taken then after == t
            else
              var before := t.roster[email];
              var id := if newId.Some? then newId.value else before.clientId;
              var same := id == before.clientId && inbounds == before.inbounds && email in t.users && t.users[email].labels == labels;
              && (same ==> after == t)
              && (!same ==>
                    && email in after.roster
                    && after.roster[email] == RosterRow(id, inbounds, false, false, before.created, now)
                    && Shown(t, email, labels, now, after))
  {}

  /** Disable, enable and delete move flags only. */
  lemma FlagsDecide(t: Tables, x: Transaction, now: int)
    requires x.Disable? || x.Enable? || x.MarkDeleting?
    ensures var after, e := After(t, x, now), x.email;
            var known := e in t.roster;
            var was := if known then t.roster[e] else RosterRow("", [], false, false, 0, 0);
            var changes := known && !was.deleting && (x.Disable? ==> !was.disabled) && (x.Enable? ==> was.disabled);
            var off := !x.Enable?;
            && (e in after.roster <==> known) && (e in after.users <==> e in t.users)
            && (known ==>
                  after.roster[e] ==
                  if changes then RosterRow(was.clientId, was.inbounds, off, x.MarkDeleting?, was.created, now) else was)
            && (e in t.users ==> after.users[e] == t.users[e].(disabled := if changes || off then off else t.users[e].disabled))
  {}
}
