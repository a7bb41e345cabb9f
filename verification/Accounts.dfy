/** What the tables hold of a user's traffic, as a function of the readings alone. */
module Accounts {
  import opened Options
  import opened StoreEffects
  import opened StoreLaws
  import opened TrafficCollector
  import opened UserStore

  /**
   * A user's account since the process started or the user was last purged: what the row held then, whether there was a row
   * at first contact, the readings, and how many of them no transaction has stored yet.
   */
  datatype Account = Account(opening: Bytes, known: bool, readings: seq<Raw>, unsaved: nat)

  function RowBytes(t: Tables, e: string): Bytes {
    if e in t.users then Bytes(t.users[e].up, t.users[e].down) else Bytes(0, 0)
  }

  function ReadingsOf(raws: seq<Raw>, e: string): seq<Raw> {
    if raws == [] then []
    else ReadingsOf(raws[..|raws| - 1], e) + if raws[|raws| - 1].email == e then [raws[|raws| - 1]] else []
  }

  /** The account once the readings of a poll are in. */
  function Reading(a: Account, raws: seq<Raw>, known: bool, e: string): Account {
    var more := ReadingsOf(raws, e);
    a.(known := if a.readings == [] && more != [] then known else a.known, readings := a.readings + more, unsaved := a.unsaved + |more|)
  }

  function AccountAfter(t: Tables, a: Account, event: Event, e: string): Account {
    match event
    case Mutates(_, _) => a
    case Purges(email, commits) => if email != e then a else Account(if commits then Bytes(0, 0) else RowBytes(t, e), false, [], 0)
    case Polls(p) =>
      if !p.queried || !p.read then a
      else
        var read := Reading(a, p.raws, e in t.users, e);
        if p.commits then read.(unsaved := 0) else read
  }

  function AccountOf(ts: seq<Tables>, events: seq<Event>, e: string): Account
    requires |ts| == |events| + 1
    decreases |events|
  {
    if events == [] then Account(RowBytes(ts[0], e), false, [], 0)
    else
      var n := |events| - 1;
      AccountAfter(ts[n], AccountOf(ts[..n + 1], events[..n], e), events[n], e)
  }

  // ----- What a reading is worth

  /** What a counter moved between two readings; one that fell has started over. */
  function Moved(first: nat, end: nat): nat { if end >= first then end - first else end }

  /** The first reading of a user without a row is entered whole, that of a user with one not at all. */
  function Worth(a: Account, i: nat): Bytes
    requires i < |a.readings|
  {
    var r := a.readings[i];
    if i == 0 then if a.known then Bytes(0, 0) else Bytes(r.up, r.down)
    else Bytes(Moved(a.readings[i - 1].up, r.up), Moved(a.readings[i - 1].down, r.down))
  }

  function WorthOf(a: Account, first: nat, end: nat): Bytes
    requires first <= end <= |a.readings|
    decreases end
  {
    if first == end then Bytes(0, 0)
    else
      var before, last := WorthOf(a, first, end - 1), Worth(a, end - 1);
      Bytes(before.up + last.up, before.down + last.down)
  }

  /** A reading shows activity if it moved a counter; a first one never does. */
  predicate Active(a: Account, i: nat)
    requires i < |a.readings|
  {
    i > 0 && (Moved(a.readings[i - 1].up, a.readings[i].up) > 0 || Moved(a.readings[i - 1].down, a.readings[i].down) > 0)
  }

  predicate ActiveFrom(a: Account, first: nat) { exists i :: first <= i < |a.readings| && Active(a, i) }

  // ----- One user's memory

  /** The trackers stand at the last reading and have counted what the readings moved. */
  predicate Tracks(m: Memory, a: Account, e: string) {
    && (e in m.trackers <==> a.readings != []) && (e in m.seeded <==> a.readings != [])
    && (e in m.trackers ==>
          var p, n := m.trackers[e], |a.readings|;
          && PairOk(p) && p.up.seen && p.down.seen && !p.up.credit && !p.down.credit
          && p.up.lastRaw == a.readings[n - 1].up && p.down.lastRaw == a.readings[n - 1].down
          && Bytes(p.up.total, p.down.total) == WorthOf(a, 1, n))
  }

  predicate Pends(m: Memory, a: Account, e: string) {
    && a.unsaved <= |a.readings| && (e in m.pending <==> a.unsaved > 0)
    && (e in m.pending ==>
          && m.pending[e].bytes == WorthOf(a, |a.readings| - a.unsaved, |a.readings|)
          && (m.pending[e].seenNow <==> ActiveFrom(a, |a.readings| - a.unsaved)))
  }

  predicate Kept(t: Tables, a: Account, e: string) {
    && a.unsaved <= |a.readings|
    && var stored := WorthOf(a, 0, |a.readings| - a.unsaved);
       RowBytes(t, e) == Bytes(a.opening.up + stored.up, a.opening.down + stored.down)
  }

  // ----- One more reading

  function Longer(a: Account, raw: Raw, known: bool): Account {
    a.(known := if a.readings == [] then known else a.known, readings := a.readings + [raw], unsaved := a.unsaved + 1)
  }

  lemma {:induction false} WorthKept(a: Account, raw: Raw, known: bool, first: nat, end: nat)
    requires first <= end <= |a.readings|
    ensures WorthOf(Longer(a, raw, known), first, end) == WorthOf(a, first, end)
    decreases end
  {
    if first != end {
      WorthKept(a, raw, known, first, end - 1);
    }
  }

  lemma ActiveKept(a: Account, raw: Raw, known: bool, first: nat)
    requires first <= |a.readings|
    ensures var longer := Longer(a, raw, known);
            ActiveFrom(longer, first) <==> ActiveFrom(a, first) || Active(longer, |a.readings|)
  {
    var longer := Longer(a, raw, known);
    if i :| first <= i < |a.readings| && Active(a, i) {
      assert Active(longer, i);
    }
    if i :| first <= i < |longer.readings| && Active(longer, i) {
      assert i < |a.readings| ==> Active(a, i);
    }
  }

  lemma ReadingTracked(m: Memory, a: Account, raw: Raw, existing: set<string>, elapsed: int)
    requires MemoryOk(m) && Tracks(m, a, raw.email)
    ensures var longer, fed := Longer(a, raw, raw.email in existing), FedPair(TrackersFor(m, raw.email), raw, elapsed);
            var worth := Worth(longer, |a.readings|);
            && Tracks(Noted(m, raw, existing, elapsed), longer, raw.email)
            && (a.readings != [] ==> Bytes(fed.up.lastDelta, fed.down.lastDelta) == worth)
            && (a.readings == [] ==> fed.up.lastDelta == 0 && fed.down.lastDelta == 0)
  {
    var e, longer, n := raw.email, Longer(a, raw, raw.email in existing), |a.readings|;
    if a.readings == [] {
      assert WorthOf(longer, 1, 1) == Bytes(0, 0);
    } else {
      WorthKept(a, raw, e in existing, 1, n);
      assert WorthOf(longer, 1, n + 1) == Bytes(WorthOf(longer, 1, n).up + Worth(longer, n).up, WorthOf(longer, 1, n).down + Worth(longer, n).down);
    }
  }

  /** What a reading enters into the pending delta. */
  lemma ReadingEntered(m: Memory, a: Account, raw: Raw, existing: set<string>, elapsed: int)
    requires MemoryOk(m) && Tracks(m, a, raw.email)
    ensures var after, longer, was := Noted(m, raw, existing, elapsed), Longer(a, raw, raw.email in existing), PendingOf(m, raw.email);
            && raw.email in after.pending
            && after.pending[raw.email] ==
               PendingDelta(Plus(was.bytes, Worth(longer, |a.readings|)), was.seenNow || Active(longer, |a.readings|))
  {
    hide FedPair, TrackersFor, WorthOf, Moved;
    var longer, n := Longer(a, raw, raw.email in existing), |a.readings|;
    ReadingTracked(m, a, raw, existing, elapsed);
    TracksSeeded(m, a, raw.email);
    hide Tracks;
    var fed := FedPair(TrackersFor(m, raw.email), raw, elapsed);
    if n == 0 {
      assert Worth(longer, 0) == if longer.known then Bytes(0, 0) else Bytes(raw.up, raw.down);
    } else {
      assert Bytes(fed.up.lastDelta, fed.down.lastDelta) == Worth(longer, n);
    }
  }

  lemma ReadingPends(m: Memory, a: Account, raw: Raw, existing: set<string>, elapsed: int)
    requires MemoryOk(m) && Tracks(m, a, raw.email) && Pends(m, a, raw.email)
    ensures Pends(Noted(m, raw, existing, elapsed), Longer(a, raw, raw.email in existing), raw.email)
  {
    hide Tracks, Noted, WorthOf, ActiveFrom, Worth, Active;
    var e, known, n := raw.email, raw.email in existing, |a.readings|;
    var longer, first := Longer(a, raw, known), n - a.unsaved;
    ReadingEntered(m, a, raw, existing, elapsed);
    WorthKept(a, raw, known, first, n);
    ActiveKept(a, raw, known, first);
    WorthNext(longer, first);
    NothingActive(a);
  }

  lemma TracksSeeded(m: Memory, a: Account, e: string)
    requires Tracks(m, a, e)
    ensures e in m.seeded <==> a.readings != []
  {}

  lemma WorthNext(a: Account, first: nat)
    requires a.readings != [] && first < |a.readings|
    ensures var n := |a.readings| - 1;
            WorthOf(a, first, n + 1) == Bytes(WorthOf(a, first, n).up + Worth(a, n).up, WorthOf(a, first, n).down + Worth(a, n).down)
  {}

  lemma NothingActive(a: Account)
    ensures !ActiveFrom(a, |a.readings|) && WorthOf(a, |a.readings|, |a.readings|) == Bytes(0, 0)
  {}

  // ----- One poll

  lemma OtherReading(m: Memory, a: Account, raw: Raw, existing: set<string>, elapsed: int, e: string)
    requires MemoryOk(m) && Tracks(m, a, e) && Pends(m, a, e) && e != raw.email
    ensures var after := Noted(m, raw, existing, elapsed); Tracks(after, a, e) && Pends(after, a, e)
  {
    hide FedPair, TrackersFor, WorthOf, ActiveFrom;
  }

  lemma {:induction false} ReadingsTracked(m: Memory, a: Account, raws: seq<Raw>, existing: set<string>, elapsed: int, e: string)
    requires MemoryOk(m) && Tracks(m, a, e) && Pends(m, a, e)
    ensures var after, longer := NotedAll(m, raws, existing, elapsed), Reading(a, raws, e in existing, e);
            Tracks(after, longer, e) && Pends(after, longer, e)
  {
    hide Tracks, Pends, Noted;
    var longer := Reading(a, raws, e in existing, e);
    if raws == [] {
      assert a.readings + [] == a.readings;
      assert longer == a;
    } else {
      var init, raw := raws[..|raws| - 1], raws[|raws| - 1];
      var before, middle := NotedAll(m, init, existing, elapsed), Reading(a, init, e in existing, e);
      ReadingsTracked(m, a, init, existing, elapsed, e);
      if raw.email == e {
        assert longer.readings == middle.readings + [raw];
        assert longer == Longer(middle, raw, e in existing);
        ReadingTracked(before, middle, raw, existing, elapsed);
        ReadingPends(before, middle, raw, existing, elapsed);
      } else {
        assert ReadingsOf(raws, e) == ReadingsOf(init, e) + [] == ReadingsOf(init, e);
        OtherReading(before, middle, raw, existing, elapsed, e);
      }
    }
  }

  lemma {:induction false} WorthUnread(a: Account, raws: seq<Raw>, known: bool, e: string, end: nat)
    requires end <= |a.readings|
    ensures WorthOf(Reading(a, raws, known, e), 0, end) == WorthOf(a, 0, end)
    decreases end
  {
    hide ReadingsOf;
    if end > 0 {
      WorthUnread(a, raws, known, e, end - 1);
    }
  }

  lemma {:induction false} WorthSplit(a: Account, middle: nat, end: nat)
    requires middle <= end <= |a.readings|
    ensures var x, y, z := WorthOf(a, 0, middle), WorthOf(a, middle, end), WorthOf(a, 0, end);
            z == Bytes(x.up + y.up, x.down + y.down)
    decreases end
  {
    hide Worth;
    if middle != end {
      WorthSplit(a, middle, end - 1);
    }
  }

  /** Everything unsaved is stored. */
  lemma AllSaved(m: Memory, t: Tables, t': Tables, a: Account, e: string)
    requires Pends(m, a, e) && Kept(t, a, e)
    requires RowBytes(t', e) == Plus(RowBytes(t, e), PendingOf(m, e).bytes)
    ensures Kept(t', a.(unsaved := 0), e) && Pends(m.(pending := map[]), a.(unsaved := 0), e)
  {
    hide WorthOf, ActiveFrom, RowBytes;
    var n := |a.readings|;
    WorthSplit(a, n - a.unsaved, n);
    SameWorth(a, 0, n);
    NothingActive(a);
  }

  lemma {:induction false} SameWorth(a: Account, first: nat, end: nat)
    requires first <= end <= |a.readings|
    ensures WorthOf(a.(unsaved := 0), first, end) == WorthOf(a, first, end)
    decreases end
  {
    if first != end {
      SameWorth(a, first, end - 1);
    }
  }

  /** The same account, however many of its readings are stored. */
  lemma TracksAnyway(m: Memory, m': Memory, a: Account, e: string)
    requires Tracks(m, a, e) && m'.trackers == m.trackers && m'.seeded == m.seeded
    ensures Tracks(m', a.(unsaved := 0), e)
  {
    if a.readings != [] {
      SameWorth(a, 1, |a.readings|);
    }
  }

  lemma PolledRowBytes(t: Tables, deltas: seq<Delta>, presence: seq<Presence>, parse: Option<RosterParse>, now: int, e: string)
    ensures RowBytes(Polled(t, deltas, presence, parse, now), e) == Plus(RowBytes(t, e), Bytes(UpOf(deltas, e), DownOf(deltas, e)))
  {
    hide Polled, UpOf, DownOf;
    PollAddsItsDeltas(t, deltas, presence, parse, now, e);
  }

  lemma PollAccounted(m: Memory, t: Tables, a: Account, p: Round, m': Memory, t': Tables, e: string)
    requires MemoryOk(m) && Collects(m, t, p, m', t') && Tracks(m, a, e) && Pends(m, a, e) && Kept(t, a, e)
    ensures var after := AccountAfter(t, a, Polls(p), e); Tracks(m', after, e) && Pends(m', after, e) && Kept(t', after, e)
  {
    hide Polled, NotedAll, Lists, UpOf, DownOf, Tracks, Pends, ReadingsOf, RowBytes;
    var after := AccountAfter(t, a, Polls(p), e);
    if !p.queried {
      PolledRowBytes(t, [], [], p.parse, p.now, e);
      NoDeltas(e);
      PlusNone(RowBytes(t, e));
    } else if p.read {
      var noted, read := NotedAll(m, p.raws, t.users.Keys, p.elapsed), Reading(a, p.raws, e in t.users, e);
      ReadingsTracked(m, a, p.raws, t.users.Keys, p.elapsed, e);
      PendsWithin(m, a, e);
      WorthUnread(a, p.raws, e in t.users, e, |a.readings| - a.unsaved);
      assert Kept(t, read, e);
      if p.commits {
        var deltas :| Lists(deltas, noted.pending) && t' == Polled(t, deltas, p.presence, p.parse, p.now);
        ListsCarry(deltas, noted, e);
        PolledRowBytes(t, deltas, p.presence, p.parse, p.now, e);
        AllSaved(noted, t, t', read, e);
        TracksAnyway(noted, m', read, e);
      }
    }
  }

  lemma PendsWithin(m: Memory, a: Account, e: string)
    requires Pends(m, a, e)
    ensures a.unsaved <= |a.readings|
  {}

  // ----- Every run

  lemma PurgeAccounted(m: Memory, t: Tables, a: Account, email: string, commits: bool, e: string)
    requires Tracks(m, a, e) && Pends(m, a, e) && Kept(t, a, e) && DeletingRow(t, email)
    ensures var after, m', t' := AccountAfter(t, a, Purges(email, commits), e), Forgotten(m, email), if commits then Purged(t, email) else t;
            Tracks(m', after, e) && Pends(m', after, e) && Kept(t', after, e)
  {
    hide WorthOf, ActiveFrom;
    NothingActive(Account(Bytes(0, 0), false, [], 0));
    NothingActive(Account(RowBytes(t, e), false, [], 0));
  }

  lemma MutationAccounted(t: Tables, a: Account, x: StoreLaws.Transaction, now: int, e: string)
    requires !x.Poll? && !x.Purge? && Kept(t, a, e)
    ensures Kept(After(t, x, now), a, e)
  {
    hide WorthOf;
    MutationsKeepBytes(t, x, now, e);
    assert RowBytes(After(t, x, now), e) == RowBytes(t, e) by { StoredRow(t, e); StoredRow(After(t, x, now), e); }
  }

  lemma StoredRow(t: Tables, e: string)
    ensures RowBytes(t, e) == StoredBytes(t, e)
  {}

  lemma {:induction false} AccountsHold(ms: seq<Memory>, ts: seq<Tables>, events: seq<Event>, e: string)
    requires Run(ms, ts, events)
    ensures var n, a := |events|, AccountOf(ts, events, e);
            MemoryOk(ms[n]) && Tracks(ms[n], a, e) && Pends(ms[n], a, e) && Kept(ts[n], a, e)
    decreases |events|
  {
    hide Happens, Tracks, Pends, Kept, AccountAfter, MemoryOk;
    BooksBalance(ms, ts, events, e);
    if events == [] {
      NothingYet(ts[0], e);
    } else {
      var n := |events| - 1;
      RunPrefix(ms, ts, events);
      AccountsHold(ms[..n + 1], ts[..n + 1], events[..n], e);
      EventAccounted(ms[n], ts[n], AccountOf(ts[..n + 1], events[..n], e), events[n], ms[n + 1], ts[n + 1], e);
    }
  }

  lemma NothingYet(t: Tables, e: string)
    ensures var m, a := Memory(map[], {}, map[]), Account(RowBytes(t, e), false, [], 0);
            Tracks(m, a, e) && Pends(m, a, e) && Kept(t, a, e)
  {}

  lemma EventAccounted(m: Memory, t: Tables, a: Account, event: Event, m': Memory, t': Tables, e: string)
    requires MemoryOk(m) && Happens(m, t, event, m', t') && Tracks(m, a, e) && Pends(m, a, e) && Kept(t, a, e)
    ensures var after := AccountAfter(t, a, event, e); Tracks(m', after, e) && Pends(m', after, e) && Kept(t', after, e)
  {
    hide After, Collects, Tracks, Pends, Kept, Purged, Forgotten;
    match event
    case Polls(p) => PollAccounted(m, t, a, p, m', t', e);
    case Mutates(x, now) => MutationAccounted(t, a, x, now, e);
    case Purges(email, commits) => PurgeAccounted(m, t, a, email, commits, e);
  }

  /**
   * In every run, whatever fails: a row holds what it opened with and the worth of the readings stored since, what is
   * pending is the worth of the others, and the trackers have counted all of them but the first.
   */
  lemma AccountsAreReadings(ms: seq<Memory>, ts: seq<Tables>, events: seq<Event>, e: string)
    requires Run(ms, ts, events)
    ensures var m, t, a := ms[|events|], ts[|events|], AccountOf(ts, events, e);
            var n := |a.readings|;
            && a.unsaved <= n
            && var stored, pending, counted := WorthOf(a, 0, n - a.unsaved), WorthOf(a, n - a.unsaved, n), if n > 0 then WorthOf(a, 1, n) else Bytes(0, 0);
               && (if e in t.users then t.users[e].up else 0) == a.opening.up + stored.up
               && (if e in t.users then t.users[e].down else 0) == a.opening.down + stored.down
               && (e in m.pending <==> a.unsaved > 0)
               && (e in m.pending ==> m.pending[e].bytes == pending && (m.pending[e].seenNow <==> ActiveFrom(a, n - a.unsaved)))
               && (e in m.trackers <==> n > 0)
               && (e in m.trackers ==> m.trackers[e].up.total == counted.up && m.trackers[e].down.total == counted.down)
  {
    hide Run, WorthOf, ActiveFrom, AccountOf;
    AccountsHold(ms, ts, events, e);
  }

  /** A stored poll marks a user seen at its time exactly if a reading not stored before showed activity, presence aside. */
  lemma PollShowsActivity(ms: seq<Memory>, ts: seq<Tables>, events: seq<Event>, e: string, p: Round, m': Memory, t': Tables)
    requires Run(ms, ts, events) && MemoryOk(ms[|events|]) && Collects(ms[|events|], ts[|events|], p, m', t')
    requires p.queried && p.read && p.commits
    ensures var t, a := ts[|events|], AccountOf(ts, events, e);
            var read := Reading(a, p.raws, e in t.users, e);
            && read.unsaved <= |read.readings|
            && (e in t'.users ==>
                  Newest(t'.users[e].lastSeen,
                         StoredTimes(t.users, e) + (if ActiveFrom(read, |read.readings| - read.unsaved) then {p.now} else {})
                         + PresenceTimes(p.presence, e)))
  {
    hide Happens, WorthOf, ActiveFrom, AccountOf, Newest, StoredTimes, PresenceTimes, NotedAll, Polled, Lists, ReadingsOf, Tracks, DeltaTimes;
    hide LastReported, NamedIn, PresentIn, UpOf, DownOf;
    var m, t, a := ms[|events|], ts[|events|], AccountOf(ts, events, e);
    AccountsHold(ms, ts, events, e);
    ReadingsTracked(m, a, p.raws, t.users.Keys, p.elapsed, e);
    var noted := NotedAll(m, p.raws, t.users.Keys, p.elapsed);
    var read := Reading(a, p.raws, e in t.users, e);
    var deltas :| Lists(deltas, noted.pending) && t' == Polled(t, deltas, p.presence, p.parse, p.now);
    PollUsers(t, deltas, p.presence, p.parse, p.now, e);
    ListedActivity(deltas, noted.pending, p.now, e);
    NothingActive(read);
  }

  lemma ListedActivity(deltas: seq<Delta>, pending: map<string, PendingDelta>, now: int, e: string)
    requires Lists(deltas, pending)
    ensures DeltaTimes(deltas, now, e) == if e in pending && pending[e].seenNow then {now} else {}
  {
    if e in pending {
      var i :| 0 <= i < |deltas| && deltas[i].email == e;
      assert deltas[i] == AsDelta(e, pending[e]);
      assert forall j :: 0 <= j < |deltas| && deltas[j].email == e ==> j == i;
    }
  }
}
