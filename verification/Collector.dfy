/** Traffic from counter to table: trackers, first-contact seeds, and deltas that wait until a poll is stored. */
module TrafficCollector {
  import opened Options
  import opened StoreLaws
  import opened UserStore
  import T = Traffic

  datatype Raw = Raw(email: string, up: nat, down: nat)

  /** Upload and download together. */
  datatype Bytes = Bytes(up: nat, down: nat)

  const NONE: Bytes := Bytes(0, 0)

  function Plus(a: Bytes, b: Bytes): Bytes { Bytes(a.up + b.up, a.down + b.down) }

  datatype PendingDelta = PendingDelta(bytes: Bytes, seenNow: bool)

  datatype Pair = Pair(up: T.Counter, down: T.Counter)

  datatype Memory = Memory(trackers: map<string, Pair>, seeded: set<string>, pending: map<string, PendingDelta>)

  // ----- One reading

  predicate PairOk(p: Pair) { |p.up.window| == 2 && |p.down.window| == 2 }

  predicate MemoryOk(m: Memory) { forall e :: e in m.trackers ==> PairOk(m.trackers[e]) }

  const FRESH_PAIR: Pair := Pair(T.NewCounter(false), T.NewCounter(false))

  function TrackersFor(m: Memory, email: string): (p: Pair)
    requires MemoryOk(m)
    ensures PairOk(p)
  {
    if email in m.trackers then m.trackers[email] else FRESH_PAIR
  }

  function FedPair(p: Pair, raw: Raw, elapsed: int): (fed: Pair)
    requires PairOk(p)
    ensures PairOk(fed)
  {
    Pair(T.Fed(p.up, T.Reading(raw.up, elapsed)), T.Fed(p.down, T.Reading(raw.down, elapsed)))
  }

  function PendingOf(m: Memory, email: string): PendingDelta {
    if email in m.pending then m.pending[email] else PendingDelta(NONE, false)
  }

  /** First contact with a user the store has no row for. */
  predicate Seeds(m: Memory, raw: Raw, existing: set<string>) { raw.email !in m.seeded && raw.email !in existing }

  function Noted(m: Memory, raw: Raw, existing: set<string>, elapsed: int): Memory
    requires MemoryOk(m)
  {
    var fed := FedPair(TrackersFor(m, raw.email), raw, elapsed);
    var delta := if Seeds(m, raw, existing) then Bytes(raw.up, raw.down) else Bytes(fed.up.lastDelta, fed.down.lastDelta);
    var seenNow := !Seeds(m, raw, existing) && fed.up.lastDelta + fed.down.lastDelta > 0;
    var was := PendingOf(m, raw.email);
    Memory(m.trackers[raw.email := fed], m.seeded + {raw.email},
           m.pending[raw.email := PendingDelta(Plus(was.bytes, delta), was.seenNow || seenNow)])
  }

  function NotedAll(m: Memory, raws: seq<Raw>, existing: set<string>, elapsed: int): (after: Memory)
    requires MemoryOk(m)
    ensures MemoryOk(after)
  {
    if raws == [] then m else Noted(NotedAll(m, raws[..|raws| - 1], existing, elapsed), raws[|raws| - 1], existing, elapsed)
  }

  // ----- One poll

  predicate DistinctEmails(deltas: seq<Delta>) {
    forall i, j :: 0 <= i < j < |deltas| ==> deltas[i].email != deltas[j].email
  }

  function AsDelta(email: string, p: PendingDelta): Delta { Delta(email, p.bytes.up, p.bytes.down, p.seenNow) }

  /** The pending map as the list a transaction carries, in whatever order the map is walked. */
  predicate Lists(deltas: seq<Delta>, pending: map<string, PendingDelta>) {
    && DistinctEmails(deltas)
    && (forall i :: 0 <= i < |deltas| ==> deltas[i].email in pending && deltas[i] == AsDelta(deltas[i].email, pending[deltas[i].email]))
    && (forall e :: e in pending ==> exists i :: 0 <= i < |deltas| && deltas[i].email == e)
  }

  /** What a poll meets: the query, the read of the existing rows, and the transaction may each fail. */
  datatype Round = Round(raws: seq<Raw>, presence: seq<Presence>, parse: Option<RosterParse>, elapsed: int, now: int,
                       queried: bool, read: bool, commits: bool)

  ghost predicate Collects(m: Memory, t: Tables, p: Round, m': Memory, t': Tables)
    requires MemoryOk(m)
  {
    if !p.queried then m' == m && t' == if p.parse.Some? && p.commits then Polled(t, [], [], p.parse, p.now) else t
    else if !p.read then m' == m && t' == t
    else
      var noted := NotedAll(m, p.raws, t.users.Keys, p.elapsed);
      if !p.commits then m' == noted && t' == t
      else exists deltas :: Lists(deltas, noted.pending) && m' == noted.(pending := map[]) && t' == Polled(t, deltas, p.presence, p.parse, p.now)
  }

  // ----- The books

  function StoredBytes(t: Tables, email: string): Bytes { Bytes(StoredUp(t.users, email), StoredDown(t.users, email)) }

  /** What a user's trackers counted since their baselines. */
  function Counted(m: Memory, email: string): Bytes {
    if email in m.trackers then Bytes(m.trackers[email].up.total, m.trackers[email].down.total) else NONE
  }

  /** Where a user's account opened, and the seed entered at first contact. */
  datatype Books = Books(opening: map<string, Bytes>, seeds: map<string, Bytes>)

  function Entry(m: map<string, Bytes>, email: string): Bytes { if email in m then m[email] else NONE }

  /** Nothing is lost and nothing is counted twice. */
  predicate Balanced(m: Memory, t: Tables, b: Books, email: string) {
    Plus(StoredBytes(t, email), PendingOf(m, email).bytes) ==
    Plus(Plus(Entry(b.opening, email), Entry(b.seeds, email)), Counted(m, email))
  }

  /** A tracker is there once its user is, counting from a baseline it was never credited. */
  predicate TrackerOk(m: Memory, b: Books, email: string) {
    && (email in m.trackers <==> email in m.seeded)
    && (email in b.seeds ==> email in m.seeded)
    && (email in m.trackers ==>
          var p := m.trackers[email];
          PairOk(p) && p.up.seen && p.down.seen && !p.up.credit && !p.down.credit)
  }

  function SeedsAfter(m: Memory, b: Books, raw: Raw, existing: set<string>): Books {
    if Seeds(m, raw, existing) then b.(seeds := b.seeds[raw.email := Bytes(raw.up, raw.down)]) else b
  }

  function SeedsAfterAll(m: Memory, b: Books, raws: seq<Raw>, existing: set<string>, elapsed: int): Books
    requires MemoryOk(m)
  {
    if raws == [] then b
    else
      var init := raws[..|raws| - 1];
      SeedsAfter(NotedAll(m, init, existing, elapsed), SeedsAfterAll(m, b, init, existing, elapsed), raws[|raws| - 1], existing)
  }

  /** A tracker's total grows by its last delta; a first reading moves neither. */
  lemma FedGrows(t: T.Counter, r: T.Reading)
    requires |t.window| == 2 && !t.credit && (t.seen || t == T.NewCounter(false))
    ensures var fed := T.Fed(t, r); fed.total == t.total + fed.lastDelta && fed.seen && !fed.credit && (!t.seen ==> fed.lastDelta == 0)
  {}

  lemma FedPairGrows(m: Memory, b: Books, raw: Raw, elapsed: int)
    requires MemoryOk(m) && TrackerOk(m, b, raw.email)
    ensures var fed, was := FedPair(TrackersFor(m, raw.email), raw, elapsed), Counted(m, raw.email);
            && fed.up.total == was.up + fed.up.lastDelta && fed.down.total == was.down + fed.down.lastDelta
            && fed.up.seen && fed.down.seen && !fed.up.credit && !fed.down.credit
            && (raw.email !in m.seeded ==> fed.up.lastDelta == 0 && fed.down.lastDelta == 0)
  {
    hide T.Fed, T.NewCounter;
    var p := TrackersFor(m, raw.email);
    FreshCounter();
    FedGrows(p.up, T.Reading(raw.up, elapsed));
    FedGrows(p.down, T.Reading(raw.down, elapsed));
  }

  lemma FreshCounter()
    ensures var t := T.NewCounter(false); |t.window| == 2 && !t.credit && !t.seen && t.total == 0
  {}

  lemma PlusNone(a: Bytes)
    ensures Plus(a, NONE) == a == Plus(NONE, a)
  {}

  /** A delta entered on both sides. */
  lemma PlusBoth(stored: Bytes, pending: Bytes, entered: Bytes, counted: Bytes, delta: Bytes)
    requires Plus(stored, pending) == Plus(entered, counted)
    ensures Plus(stored, Plus(pending, delta)) == Plus(entered, Plus(counted, delta))
    ensures Plus(stored, Plus(pending, delta)) == Plus(Plus(entered, delta), counted)
  {}

  lemma NotedOther(m: Memory, t: Tables, b: Books, raw: Raw, existing: set<string>, elapsed: int, email: string)
    requires MemoryOk(m) && Balanced(m, t, b, email) && TrackerOk(m, b, email) && email != raw.email
    ensures var m', b' := Noted(m, raw, existing, elapsed), SeedsAfter(m, b, raw, existing);
            Balanced(m', t, b', email) && TrackerOk(m', b', email)
  {
    hide FedPair, StoredBytes, TrackersFor, Plus;
  }

  lemma NotedOwn(m: Memory, t: Tables, b: Books, raw: Raw, existing: set<string>, elapsed: int)
    requires MemoryOk(m) && Balanced(m, t, b, raw.email) && TrackerOk(m, b, raw.email)
    ensures var m', b' := Noted(m, raw, existing, elapsed), SeedsAfter(m, b, raw, existing);
            Balanced(m', t, b', raw.email) && TrackerOk(m', b', raw.email)
  {
    hide FedPair, StoredBytes, TrackersFor, Plus;
    var fed := FedPair(TrackersFor(m, raw.email), raw, elapsed);
    var counted, pending, entered := Counted(m, raw.email), PendingOf(m, raw.email).bytes, Entry(b.opening, raw.email);
    FedPairGrows(m, b, raw, elapsed);
    PlusIs(counted, Bytes(fed.up.lastDelta, fed.down.lastDelta));
    if Seeds(m, raw, existing) {
      PlusNone(entered);
      PlusBoth(StoredBytes(t, raw.email), pending, entered, counted, Bytes(raw.up, raw.down));
    } else {
      PlusBoth(StoredBytes(t, raw.email), pending, Plus(entered, Entry(b.seeds, raw.email)), counted,
               Bytes(fed.up.lastDelta, fed.down.lastDelta));
    }
  }

  lemma PlusIs(a: Bytes, b: Bytes)
    ensures Plus(a, b) == Bytes(a.up + b.up, a.down + b.down)
  {}

  lemma NotedBalances(m: Memory, t: Tables, b: Books, raw: Raw, existing: set<string>, elapsed: int, email: string)
    requires MemoryOk(m) && Balanced(m, t, b, email) && TrackerOk(m, b, email)
    ensures var m', b' := Noted(m, raw, existing, elapsed), SeedsAfter(m, b, raw, existing);
            Balanced(m', t, b', email) && TrackerOk(m', b', email)
  {
    hide Noted, Balanced, TrackerOk, SeedsAfter;
    if email == raw.email {
      NotedOwn(m, t, b, raw, existing, elapsed);
    } else {
      NotedOther(m, t, b, raw, existing, elapsed, email);
    }
  }

  lemma {:induction false} NotedAllBalances(m: Memory, t: Tables, b: Books, raws: seq<Raw>, existing: set<string>,
                                            elapsed: int, email: string)
    requires MemoryOk(m) && Balanced(m, t, b, email) && TrackerOk(m, b, email)
    ensures var m', b' := NotedAll(m, raws, existing, elapsed), SeedsAfterAll(m, b, raws, existing, elapsed);
            Balanced(m', t, b', email) && TrackerOk(m', b', email)
  {
    hide Balanced, TrackerOk, Noted, SeedsAfter;
    if raws != [] {
      var init := raws[..|raws| - 1];
      NotedAllBalances(m, t, b, init, existing, elapsed, email);
      NotedBalances(NotedAll(m, init, existing, elapsed), t, SeedsAfterAll(m, b, init, existing, elapsed),
                    raws[|raws| - 1], existing, elapsed, email);
    }
  }

  lemma {:induction false} ListedBytes(deltas: seq<Delta>, email: string)
    requires DistinctEmails(deltas)
    ensures (forall i :: 0 <= i < |deltas| ==> deltas[i].email != email) ==> UpOf(deltas, email) == 0 && DownOf(deltas, email) == 0
    ensures forall i :: 0 <= i < |deltas| && deltas[i].email == email ==>
                          UpOf(deltas, email) == deltas[i].up && DownOf(deltas, email) == deltas[i].down
  {
    if deltas != [] {
      ListedBytes(deltas[..|deltas| - 1], email);
    }
  }

  /** The list carries each user's pending bytes, whatever its order. */
  lemma ListsCarry(deltas: seq<Delta>, m: Memory, email: string)
    requires Lists(deltas, m.pending)
    ensures UpOf(deltas, email) == PendingOf(m, email).bytes.up && DownOf(deltas, email) == PendingOf(m, email).bytes.down
  {
    ListedBytes(deltas, email);
    if email in m.pending {
      var i :| 0 <= i < |deltas| && deltas[i].email == email;
    }
  }

  function BooksAfter(m: Memory, t: Tables, b: Books, p: Round): Books
    requires MemoryOk(m)
  {
    if p.queried && p.read then SeedsAfterAll(m, b, p.raws, t.users.Keys, p.elapsed) else b
  }

  /** What was pending is stored. */
  lemma StoredBalances(m: Memory, t: Tables, t': Tables, b: Books, email: string)
    requires Balanced(m, t, b, email) && TrackerOk(m, b, email)
    requires StoredBytes(t', email) == Plus(StoredBytes(t, email), PendingOf(m, email).bytes)
    ensures Balanced(m.(pending := map[]), t', b, email) && TrackerOk(m.(pending := map[]), b, email)
  {
    hide StoredBytes, Plus;
    PlusNone(StoredBytes(t', email));
  }

  lemma SameStoreBalances(m: Memory, t: Tables, t': Tables, b: Books, email: string)
    requires Balanced(m, t, b, email) && StoredBytes(t', email) == StoredBytes(t, email)
    ensures Balanced(m, t', b, email)
  {}

  lemma PolledBytes(t: Tables, deltas: seq<Delta>, presence: seq<Presence>, parse: Option<RosterParse>, now: int,
                    email: string)
    ensures StoredBytes(Polled(t, deltas, presence, parse, now), email) ==
            Plus(StoredBytes(t, email), Bytes(UpOf(deltas, email), DownOf(deltas, email)))
  {
    hide Polled, StoredUp, StoredDown, UpOf, DownOf, AllGrown;
    PollAddsItsDeltas(t, deltas, presence, parse, now, email);
  }

  /** A poll keeps the books balanced, whichever of its three calls fail. */
  lemma PollBalances(m: Memory, t: Tables, b: Books, p: Round, m': Memory, t': Tables, email: string)
    requires MemoryOk(m) && Collects(m, t, p, m', t') && Balanced(m, t, b, email) && TrackerOk(m, b, email)
    ensures MemoryOk(m') && Balanced(m', t', BooksAfter(m, t, b, p), email) && TrackerOk(m', BooksAfter(m, t, b, p), email)
  {
    hide Polled, NotedAll, SeedsAfterAll, Lists, StoredBytes, UpOf, DownOf, Balanced, TrackerOk;
    if !p.queried {
      PolledBytes(t, [], [], p.parse, p.now, email);
      NoDeltas(email);
      SameStoreBalances(m, t, t', b, email);
    } else if p.read {
      var noted := NotedAll(m, p.raws, t.users.Keys, p.elapsed);
      NotedAllBalances(m, t, b, p.raws, t.users.Keys, p.elapsed, email);
      if p.commits {
        var deltas :| Lists(deltas, noted.pending) && t' == Polled(t, deltas, p.presence, p.parse, p.now);
        ListsCarry(deltas, noted, email);
        PolledBytes(t, deltas, p.presence, p.parse, p.now, email);
        StoredBalances(noted, t, t', BooksAfter(m, t, b, p), email);
      }
    }
  }

  lemma NoDeltas(email: string)
    ensures UpOf([], email) == 0 && DownOf([], email) == 0
  {}

  // ----- Runs

  /** A poll, a roster mutation, or a user's purge: memory first, then the tables if that write commits. */
  datatype Event = Polls(poll: Round) | Mutates(x: Transaction, now: int) | Purges(email: string, commits: bool)

  function Forgotten(m: Memory, email: string): Memory {
    Memory(m.trackers - {email}, m.seeded - {email}, m.pending - {email})
  }

  ghost predicate Happens(m: Memory, t: Tables, event: Event, m': Memory, t': Tables)
    requires MemoryOk(m)
  {
    match event
    case Polls(p) => Collects(m, t, p, m', t')
    case Mutates(x, now) => !x.Poll? && !x.Purge? && m' == m && t' == After(t, x, now)
    case Purges(email, commits) =>
      DeletingRow(t, email) && m' == Forgotten(m, email) && t' == if commits then Purged(t, email) else t
  }

  /** A purge closes the account; one that is not written reopens it at what the row still holds. */
  function BooksClosed(t: Tables, b: Books, email: string, commits: bool): Books {
    Books(if commits then b.opening - {email} else b.opening[email := StoredBytes(t, email)], b.seeds - {email})
  }

  function BooksThrough(m: Memory, t: Tables, b: Books, event: Event): Books
    requires MemoryOk(m)
  {
    match event
    case Polls(p) => BooksAfter(m, t, b, p)
    case Mutates(_, _) => b
    case Purges(email, commits) => BooksClosed(t, b, email, commits)
  }

  lemma MutationsKeepBytes(t: Tables, x: Transaction, now: int, email: string)
    requires !x.Poll? && !x.Purge?
    ensures StoredBytes(After(t, x, now), email) == StoredBytes(t, email)
  {}

  lemma PurgeBalances(m: Memory, t: Tables, b: Books, purged: string, commits: bool, email: string)
    requires Balanced(m, t, b, email) && TrackerOk(m, b, email) && DeletingRow(t, purged)
    ensures var m', b' := Forgotten(m, purged), BooksClosed(t, b, purged, commits);
            Balanced(m', if commits then Purged(t, purged) else t, b', email) && TrackerOk(m', b', email)
  {
    hide Plus, StoredBytes;
    PlusNone(NONE);
    PlusNone(StoredBytes(t, email));
    PurgedBytes(t, purged, email);
  }

  lemma PurgedBytes(t: Tables, purged: string, email: string)
    requires DeletingRow(t, purged)
    ensures StoredBytes(Purged(t, purged), email) == if email == purged then NONE else StoredBytes(t, email)
  {}

  lemma EventBalances(m: Memory, t: Tables, b: Books, event: Event, m': Memory, t': Tables, email: string)
    requires MemoryOk(m) && Happens(m, t, event, m', t') && Balanced(m, t, b, email) && TrackerOk(m, b, email)
    ensures MemoryOk(m') && Balanced(m', t', BooksThrough(m, t, b, event), email) && TrackerOk(m', BooksThrough(m, t, b, event), email)
  {
    hide After, Collects, BooksAfter, Balanced, TrackerOk, Purged, StoredBytes;
    match event
    case Polls(p) => PollBalances(m, t, b, p, m', t', email);
    case Mutates(x, now) =>
      MutationsKeepBytes(t, x, now, email);
      SameStoreBalances(m, t, t', b, email);
    case Purges(e, commits) => PurgeBalances(m, t, b, e, commits, email);
  }

  /** A run of a process: its states, one more than its events. */
  ghost predicate Run(ms: seq<Memory>, ts: seq<Tables>, events: seq<Event>) {
    && |ms| == |ts| == |events| + 1 && ms[0] == Memory(map[], {}, map[])
    && forall i :: 0 <= i < |events| ==> MemoryOk(ms[i]) && Happens(ms[i], ts[i], events[i], ms[i + 1], ts[i + 1])
  }

  function BooksOf(ms: seq<Memory>, ts: seq<Tables>, events: seq<Event>): Books
    requires |ms| == |ts| == |events| + 1 && forall i :: 0 <= i < |events| ==> MemoryOk(ms[i])
    decreases |events|
  {
    if events == [] then Books(map e | e in ts[0].users :: StoredBytes(ts[0], e), map[])
    else
      var n := |events| - 1;
      BooksThrough(ms[n], ts[n], BooksOf(ms[..n + 1], ts[..n + 1], events[..n]), events[n])
  }

  lemma OpeningBalances(t: Tables, email: string)
    ensures var b := Books(map e | e in t.users :: StoredBytes(t, e), map[]);
            Balanced(Memory(map[], {}, map[]), t, b, email) && TrackerOk(Memory(map[], {}, map[]), b, email)
  {
    hide StoredUp, StoredDown;
    if email !in t.users {
      NothingStored(t, email);
    }
  }

  lemma NothingStored(t: Tables, email: string)
    requires email !in t.users
    ensures StoredBytes(t, email) == NONE
  {}

  /**
   * In every run, whatever fails: what is stored and what is pending make up the opening balance, the first-contact
   * seed, and what the trackers counted.
   */
  lemma {:induction false} BooksBalance(ms: seq<Memory>, ts: seq<Tables>, events: seq<Event>, email: string)
    requires Run(ms, ts, events)
    ensures var n, b := |events|, BooksOf(ms, ts, events);
            MemoryOk(ms[n]) && Balanced(ms[n], ts[n], b, email) && TrackerOk(ms[n], b, email)
    decreases |events|
  {
    hide Happens, Balanced, TrackerOk, BooksThrough, MemoryOk;
    if events == [] {
      OpeningBalances(ts[0], email);
      NothingRemembered();
    } else {
      var n := |events| - 1;
      RunPrefix(ms, ts, events);
      BooksBalance(ms[..n + 1], ts[..n + 1], events[..n], email);
      EventBalances(ms[n], ts[n], BooksOf(ms[..n + 1], ts[..n + 1], events[..n]), events[n], ms[n + 1], ts[n + 1],
                    email);
    }
  }

  lemma NothingRemembered()
    ensures MemoryOk(Memory(map[], {}, map[]))
  {}

  lemma RunPrefix(ms: seq<Memory>, ts: seq<Tables>, events: seq<Event>)
    requires Run(ms, ts, events) && events != []
    ensures var n := |events| - 1; Run(ms[..n + 1], ts[..n + 1], events[..n])
  {
    hide Happens, MemoryOk;
    var n := |events| - 1;
    forall i | 0 <= i < n
      ensures MemoryOk(ms[..n + 1][i]) && Happens(ms[..n + 1][i], ts[..n + 1][i], events[..n][i], ms[..n + 1][i + 1], ts[..n + 1][i + 1])
    {
      assert MemoryOk(ms[i]) && Happens(ms[i], ts[i], events[i], ms[i + 1], ts[i + 1]);
    }
  }

  // ----- The collector

  /** The roster waiting to be stored, and its version. */
  datatype Waiting = Waiting(parse: Option<RosterParse>, version: nat)

  /** The latest roster takes the place of the waiting one, unless its version is stored or waits already. */
  function Sampled(waiting: Waiting, stored: nat, latest: RosterParse, version: nat): Waiting {
    if version > 0 && version != stored && version != waiting.version then Waiting(Some(latest), version) else waiting
  }

  class Collector {
    const store: Store
    var trackers: map<string, Pair>
    var seeded: set<string>
    var pending: map<string, PendingDelta>
    var pendingRoster: Option<RosterParse>
    var pendingVersion: nat
    var rosterVersion: nat

    function Remembered(): Memory
      reads this
    {
      Memory(trackers, seeded, pending)
    }

    /** A roster is pending exactly while its version is not the persisted one. */
    predicate Valid()
      reads this
    {
      MemoryOk(Remembered()) && (pendingRoster.None? <==> pendingVersion == rosterVersion)
    }

    constructor (store: Store)
      ensures this.store == store && Valid() && Remembered() == Memory(map[], {}, map[])
      ensures pendingRoster == None && pendingVersion == 0 && rosterVersion == 0
    {
      this.store := store;
      trackers, seeded, pending := map[], {}, map[];
      pendingRoster, pendingVersion, rosterVersion := None, 0, 0;
    }

    /** Version 0 means the configuration never parsed. */
    method SampleRoster(latest: RosterParse, version: nat)
      requires Valid()
      modifies this`pendingRoster, this`pendingVersion
      ensures Valid() && Remembered() == old(Remembered())
      ensures Waiting(pendingRoster, pendingVersion) ==
              Sampled(Waiting(old(pendingRoster), old(pendingVersion)), rosterVersion, latest, version)
      ensures version == 0 || version == rosterVersion || version == old(pendingVersion) ==>
                pendingRoster == old(pendingRoster) && pendingVersion == old(pendingVersion)
      ensures version != 0 && version != rosterVersion && version != old(pendingVersion) ==>
                pendingRoster == Some(latest) && pendingVersion == version
    {
      if version > 0 && version != rosterVersion && version != pendingVersion {
        pendingRoster := Some(latest);
        pendingVersion := version;
      }
    }

    method FlushRoster(now: int, commits: bool)
      requires Valid()
      modifies this`pendingRoster, this`rosterVersion, store
      ensures Valid() && Remembered() == old(Remembered())
      ensures var parse := old(pendingRoster);
              if parse.Some? && commits
              then store.Contents() == Polled(old(store.Contents()), [], [], parse, now) && pendingRoster == None && rosterVersion == pendingVersion
              else store.Contents() == old(store.Contents()) && pendingRoster == parse && rosterVersion == old(rosterVersion)
    {
      if pendingRoster.None? {
        return;
      }
      var ok := store.ApplyPoll([], [], pendingRoster, now, commits);
      if ok {
        rosterVersion := pendingVersion;
        pendingRoster := None;
      }
    }

    method Note(raw: Raw, existing: set<string>, elapsed: int)
      requires Valid()
      modifies this`trackers, this`seeded, this`pending
      ensures Valid() && Remembered() == Noted(old(Remembered()), raw, existing, elapsed)
    {
      hide T.Fed;
      var pair := if raw.email in trackers then trackers[raw.email] else FRESH_PAIR;
      var fed := FedPair(pair, raw, elapsed);
      trackers := trackers[raw.email := fed];
      var delta := Bytes(fed.up.lastDelta, fed.down.lastDelta);
      var seenNow := delta.up + delta.down > 0;
      if raw.email !in seeded {
        seeded := seeded + {raw.email};
        if raw.email !in existing {
          delta := Bytes(raw.up, raw.down);
          seenNow := false;
        }
      }
      assert seeded == old(seeded) + {raw.email};
      var was := if raw.email in pending then pending[raw.email] else PendingDelta(NONE, false);
      pending := pending[raw.email := PendingDelta(Plus(was.bytes, delta), was.seenNow || seenNow)];
    }

    method ListPending() returns (deltas: seq<Delta>)
      ensures Lists(deltas, pending)
    {
      deltas := [];
      var left := pending.Keys;
      while left != {}
        invariant left <= pending.Keys && DistinctEmails(deltas)
        invariant forall i :: 0 <= i < |deltas| ==>
                    && deltas[i].email in pending && deltas[i].email !in left
                    && deltas[i] == AsDelta(deltas[i].email, pending[deltas[i].email])
        invariant forall e :: e in pending && e !in left ==> exists i :: 0 <= i < |deltas| && deltas[i].email == e
        decreases |left|
      {
        var email :| email in left;
        ghost var before := deltas;
        deltas := deltas + [AsDelta(email, pending[email])];
        left := left - {email};
        forall e | e in pending && e !in left
          ensures exists i :: 0 <= i < |deltas| && deltas[i].email == e
        {
          if e == email {
            assert deltas[|before|].email == e;
          } else {
            var i :| 0 <= i < |before| && before[i].email == e;
            assert deltas[i].email == e;
          }
        }
      }
    }

    /** One poll, up to the snapshot it answers with. */
    method Collect(raws: seq<Raw>, presence: seq<Presence>, latest: RosterParse, version: nat, elapsed: int, now: int,
                   queried: bool, read: bool, commits: bool)
      requires Valid()
      modifies this, store
      ensures Valid()
      ensures var sample := Sampled(Waiting(old(pendingRoster), old(pendingVersion)), old(rosterVersion), latest, version);
              && Collects(old(Remembered()), old(store.Contents()),
                          Round(raws, presence, sample.parse, elapsed, now, queried, read, commits), Remembered(), store.Contents())
              && pendingVersion == sample.version
              && if sample.parse.Some? && commits && (read || !queried) then pendingRoster == None && rosterVersion == sample.version
                 else pendingRoster == sample.parse && rosterVersion == old(rosterVersion)
    {
      hide Polled, Noted, Lists, Collects;
      SampleRoster(latest, version);
      ghost var parse, sampled := pendingRoster, pendingVersion;
      ghost var poll := Round(raws, presence, parse, elapsed, now, queried, read, commits);
      ghost var m, t := Remembered(), store.Contents();
      if !queried {
        FlushRoster(now, commits);
        CollectsUnqueried(m, t, poll, store.Contents());
        return;
      }
      if !read {
        CollectsUnread(m, t, poll);
        return;
      }
      var existing := store.users.Keys;
      for i := 0 to |raws|
        invariant Valid() && store.Contents() == t && Remembered() == NotedAll(m, raws[..i], existing, elapsed)
        invariant pendingRoster == parse && pendingVersion == sampled && rosterVersion == old(rosterVersion)
      {
        assert raws[..i + 1][..i] == raws[..i];
        Note(raws[i], existing, elapsed);
      }
      assert raws[..|raws|] == raws;
      var deltas := ListPending();
      ghost var noted := Remembered();
      var ok := store.ApplyPoll(deltas, presence, pendingRoster, now, commits);
      if !ok {
        CollectsUncommitted(m, t, poll);
        return;
      }
      pending := map[];
      if pendingRoster.Some? {
        rosterVersion := pendingVersion;
        pendingRoster := None;
      }
      CollectsAll(m, t, poll, deltas);
    }

    method Purge(email: string)
      requires Valid()
      modifies this`trackers, this`seeded, this`pending
      ensures Valid() && Remembered() == Forgotten(old(Remembered()), email)
    {
      trackers := trackers - {email};
      seeded := seeded - {email};
      pending := pending - {email};
    }
  }

  lemma CollectsUnqueried(m: Memory, t: Tables, p: Round, t': Tables)
    requires MemoryOk(m) && !p.queried && t' == if p.parse.Some? && p.commits then Polled(t, [], [], p.parse, p.now) else t
    ensures Collects(m, t, p, m, t')
  {}

  lemma CollectsUnread(m: Memory, t: Tables, p: Round)
    requires MemoryOk(m) && p.queried && !p.read
    ensures Collects(m, t, p, m, t)
  {}

  lemma CollectsUncommitted(m: Memory, t: Tables, p: Round)
    requires MemoryOk(m) && p.queried && p.read && !p.commits
    ensures Collects(m, t, p, NotedAll(m, p.raws, t.users.Keys, p.elapsed), t)
  {}

  lemma CollectsAll(m: Memory, t: Tables, p: Round, deltas: seq<Delta>)
    requires MemoryOk(m) && p.queried && p.read && p.commits
    requires Lists(deltas, NotedAll(m, p.raws, t.users.Keys, p.elapsed).pending)
    ensures Collects(m, t, p, NotedAll(m, p.raws, t.users.Keys, p.elapsed).(pending := map[]), Polled(t, deltas, p.presence, p.parse, p.now))
  {
    hide Lists, Polled, NotedAll;
  }
}
