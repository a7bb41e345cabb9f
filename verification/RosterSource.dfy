/** The roster a configuration parse hands off, and the version that moves only when it changes. */
module RosterSource {
  import opened Options
  import opened Sequences
  import opened UserStore

  // ----- Gathering the roster

  datatype ConfigClient = ConfigClient(email: string, id: string, flow: string)

  /** The labels' other ingredients, stream security and network, are kept as written. */
  datatype Inbound = Inbound(tag: string, protocol: string, vless: bool, security: string, network: string, clients: seq<ConfigClient>)

  /** How a client on an inbound is labelled; protocol, security and transport spellings are the configuration's business. */
  type Labelling = (Inbound, string) -> Label

  datatype Entry = Entry(inbound: Inbound, client: ConfigClient)

  /** The client entries that have an identity, inbound by inbound. */
  function Entries(inbounds: seq<Inbound>): seq<Entry> {
    if inbounds == [] then [] else Entries(inbounds[..|inbounds| - 1]) + Listed(inbounds[|inbounds| - 1], inbounds[|inbounds| - 1].clients)
  }

  function Listed(inbound: Inbound, clients: seq<ConfigClient>): seq<Entry> {
    if clients == [] || inbound.protocol == "" then []
    else
      var last := clients[|clients| - 1];
      Listed(inbound, clients[..|clients| - 1]) + if last.email == "" then [] else [Entry(inbound, last)]
  }

  /** One label for each inbound the email appears on, exact duplicates collapsed. */
  function LabelsOf(naming: Labelling, entries: seq<Entry>, email: string): seq<Label> {
    if entries == [] then []
    else
      var before, last := LabelsOf(naming, entries[..|entries| - 1], email), entries[|entries| - 1];
      if last.client.email != email || naming(last.inbound, last.client.flow) in before then before
      else before + [naming(last.inbound, last.client.flow)]
  }

  function TagsOf(entries: seq<Entry>, email: string): seq<string> {
    if entries == [] then []
    else
      var before, last := TagsOf(entries[..|entries| - 1], email), entries[|entries| - 1];
      if last.client.email != email || !last.inbound.vless || last.inbound.tag == "" || last.inbound.tag in before then before
      else before + [last.inbound.tag]
  }

  /** The first VLESS entry's Client ID. */
  function IdOf(entries: seq<Entry>, email: string): Option<string> {
    if entries == [] then None
    else
      var before, last := IdOf(entries[..|entries| - 1], email), entries[|entries| - 1];
      if before.Some? || last.client.email != email || !last.inbound.vless then before else Some(last.client.id)
  }

  /** The roster, email by email. */
  ghost predicate Gathers(parse: RosterParse, naming: Labelling, entries: seq<Entry>) {
    forall e: string :: GathersFor(parse, naming, entries, e)
  }

  predicate GathersFor(parse: RosterParse, naming: Labelling, entries: seq<Entry>, e: string) {
    && (e in parse.labels <==> LabelsOf(naming, entries, e) != [])
    && (e in parse.labels ==> parse.labels[e] == LabelsOf(naming, entries, e))
    && (e in parse.clients <==> IdOf(entries, e).Some?)
    && (e in parse.clients ==> parse.clients[e] == Client(IdOf(entries, e).value, TagsOf(entries, e)))
  }

  lemma {:induction false} ListedMember(naming: Labelling, entries: seq<Entry>, email: string)
    ensures LabelsOf(naming, entries, email) != [] <==> exists i :: 0 <= i < |entries| && entries[i].client.email == email
    ensures IdOf(entries, email).Some? <==> exists i :: 0 <= i < |entries| && entries[i].client.email == email && entries[i].inbound.vless
  {
    if entries != [] {
      var n := |entries| - 1;
      ListedMember(naming, entries[..n], email);
      assert entries == entries[..n] + [entries[n]];
      var last := entries[n];
      if last.client.email == email && naming(last.inbound, last.client.flow) in LabelsOf(naming, entries[..n], email) {
        assert LabelsOf(naming, entries[..n], email) != [];
      }
    }
  }

  /** Every client has a label: the store's syncing rests on it. */
  lemma ClientsAreLabelled(parse: RosterParse, naming: Labelling, entries: seq<Entry>)
    requires Gathers(parse, naming, entries)
    ensures parse.clients.Keys <= parse.labels.Keys
  {
    forall e | e in parse.clients
      ensures e in parse.labels
    {
      assert GathersFor(parse, naming, entries, e);
      ListedMember(naming, entries, e);
    }
  }

  predicate AttachesAt(entry: Entry, email: string, tag: string) {
    entry.client.email == email && entry.inbound.vless && entry.inbound.tag == tag
  }

  predicate Attached(entries: seq<Entry>, email: string, tag: string) {
    exists i :: 0 <= i < |entries| && AttachesAt(entries[i], email, tag)
  }

  lemma AttachedSnoc(init: seq<Entry>, last: Entry, email: string, tag: string)
    ensures Attached(init + [last], email, tag) <==> Attached(init, email, tag) || AttachesAt(last, email, tag)
  {
    var entries := init + [last];
    assert entries[|init|] == last;
    assert forall i :: 0 <= i < |init| ==> entries[i] == init[i];
  }

  /** Attachments: the tagged VLESS inbounds that list the email, each once. */
  lemma {:induction false} TagsAre(entries: seq<Entry>, email: string)
    ensures NoRepeats(TagsOf(entries, email))
    ensures forall t :: t in TagsOf(entries, email) <==> t != "" && Attached(entries, email, t)
  {
    hide Attached, NoRepeats;
    if entries == [] {
      NothingAttached(email);
    } else {
      var init, last := entries[..|entries| - 1], entries[|entries| - 1];
      assert entries == init + [last];
      TagsAre(init, email);
      forall t
        ensures Attached(entries, email, t) <==> Attached(init, email, t) || AttachesAt(last, email, t)
      {
        AttachedSnoc(init, last, email, t);
      }
      if last.inbound.tag !in TagsOf(init, email) {
        NoRepeatsSnoc(TagsOf(init, email), last.inbound.tag);
      }
    }
  }

  lemma NothingAttached(email: string)
    ensures NoRepeats<string>([]) && forall t :: !Attached([], email, t)
  {}

  /** They stand in the order of the configuration: each tag where it first appears. */
  predicate FirstAt(entries: seq<Entry>, email: string, tag: string, i: nat) {
    i < |entries| && AttachesAt(entries[i], email, tag) && forall k :: 0 <= k < i ==> !AttachesAt(entries[k], email, tag)
  }

  lemma {:induction false} TagsInOrder(entries: seq<Entry>, email: string, a: nat, b: nat) returns (i: nat, j: nat)
    requires a < b < |TagsOf(entries, email)|
    ensures FirstAt(entries, email, TagsOf(entries, email)[a], i) && FirstAt(entries, email, TagsOf(entries, email)[b], j) && i < j
  {
    var n := |entries| - 1;
    var tags, before := TagsOf(entries, email), TagsOf(entries[..n], email);
    TagsAre(entries[..n], email);
    if b < |before| {
      i, j := TagsInOrder(entries[..n], email, a, b);
    } else {
      assert tags[a] in before && tags[b] == entries[n].inbound.tag && tags[b] !in before;
      i := FirstOf(entries[..n], email, tags[a]);
      j := n;
    }
    FirstLater(entries, email, tags[a], i);
    if b < |before| {
      FirstLater(entries, email, tags[b], j);
    }
  }

  lemma FirstLater(entries: seq<Entry>, email: string, tag: string, i: nat)
    requires entries != [] && FirstAt(entries[..|entries| - 1], email, tag, i)
    ensures FirstAt(entries, email, tag, i)
  {}

  lemma {:induction false} FirstOf(entries: seq<Entry>, email: string, tag: string) returns (i: nat)
    requires tag in TagsOf(entries, email)
    ensures FirstAt(entries, email, tag, i)
  {
    var n := |entries| - 1;
    var before := TagsOf(entries[..n], email);
    TagsAre(entries, email);
    TagsAre(entries[..n], email);
    if tag in before {
      i := FirstOf(entries[..n], email, tag);
      FirstLater(entries, email, tag, i);
    } else {
      i := n;
      forall k | 0 <= k < n
        ensures !AttachesAt(entries[k], email, tag)
      {
        assert entries[..n][k] == entries[k];
      }
    }
  }

  method BuildRosterParse(naming: Labelling, inbounds: seq<Inbound>) returns (parse: RosterParse)
    ensures Gathers(parse, naming, Entries(inbounds))
  {
    hide LabelsOf, IdOf, TagsOf, Listed;
    parse := RosterParse(map[], map[]);
    NothingGathered(naming);
    for i := 0 to |inbounds|
      invariant Gathers(parse, naming, Entries(inbounds[..i]))
    {
      assert inbounds[..i + 1][..i] == inbounds[..i];
      ghost var before := Entries(inbounds[..i]);
      var inbound := inbounds[i];
      ListedNothing(inbound, inbound.clients);
      assert before + [] == before;
      if inbound.protocol != "" {
        for j := 0 to |inbound.clients|
          invariant Gathers(parse, naming, before + Listed(inbound, inbound.clients[..j]))
        {
          var client := inbound.clients[j];
          ListedNext(inbound, inbound.clients, j);
          if client.email != "" {
            ghost var entries := before + Listed(inbound, inbound.clients[..j]);
            assert before + (Listed(inbound, inbound.clients[..j]) + [Entry(inbound, client)]) == entries + [Entry(inbound, client)];
            parse := AddEntry(parse, naming, entries, inbound, client);
          } else {
            assert Listed(inbound, inbound.clients[..j]) + [] == Listed(inbound, inbound.clients[..j]);
          }
        }
        assert inbound.clients[..|inbound.clients|] == inbound.clients;
      }
    }
    assert inbounds[..|inbounds|] == inbounds;
  }

  method AddEntry(parse: RosterParse, naming: Labelling, ghost entries: seq<Entry>, inbound: Inbound,
                  client: ConfigClient)
    returns (more: RosterParse)
    requires Gathers(parse, naming, entries)
    ensures Gathers(more, naming, entries + [Entry(inbound, client)])
  {
    hide LabelsOf, IdOf, TagsOf, Gathers;
    var email, own := client.email, naming(inbound, client.flow);
    var labels, clients := parse.labels, parse.clients;
    var had := if email in labels then labels[email] else [];
    if own !in had {
      labels := labels[email := had + [own]];
    }
    if inbound.vless {
      var collected := if email in clients then clients[email] else Client(client.id, []);
      if inbound.tag != "" && inbound.tag !in collected.inbounds {
        collected := Client(collected.clientId, collected.inbounds + [inbound.tag]);
      }
      clients := clients[email := collected];
    }
    more := RosterParse(labels, clients);
    forall e: string
      ensures GathersFor(more, naming, entries + [Entry(inbound, client)], e)
    {
      GathersEach(parse, naming, entries, e);
      NextEntry(naming, entries, Entry(inbound, client), e);
      NoTagsWithoutId(entries, e);
    }
    GathersAll(more, naming, entries + [Entry(inbound, client)]);
  }

  lemma GathersEach(parse: RosterParse, naming: Labelling, entries: seq<Entry>, e: string)
    requires Gathers(parse, naming, entries)
    ensures GathersFor(parse, naming, entries, e)
  {}

  lemma GathersAll(parse: RosterParse, naming: Labelling, entries: seq<Entry>)
    requires forall e: string :: GathersFor(parse, naming, entries, e)
    ensures Gathers(parse, naming, entries)
  {}

  lemma {:induction false} NoTagsWithoutId(entries: seq<Entry>, email: string)
    ensures IdOf(entries, email).None? ==> TagsOf(entries, email) == []
  {
    if entries != [] {
      NoTagsWithoutId(entries[..|entries| - 1], email);
    }
  }

  lemma NextEntry(naming: Labelling, entries: seq<Entry>, next: Entry, e: string)
    ensures var own, vless, tag := naming(next.inbound, next.client.flow), next.inbound.vless, next.inbound.tag;
            var all := entries + [next];
            && LabelsOf(naming, all, e) ==
               (if e == next.client.email && own !in LabelsOf(naming, entries, e) then LabelsOf(naming, entries, e) + [own] else LabelsOf(naming, entries, e))
            && IdOf(all, e) == (if IdOf(entries, e).None? && e == next.client.email && vless then Some(next.client.id) else IdOf(entries, e))
            && TagsOf(all, e) ==
               (if e == next.client.email && vless && tag != "" && tag !in TagsOf(entries, e) then TagsOf(entries, e) + [tag] else TagsOf(entries, e))
  {
    assert (entries + [next])[..|entries|] == entries;
  }

  lemma NothingGathered(naming: Labelling)
    ensures Gathers(RosterParse(map[], map[]), naming, Entries([]))
  {}

  lemma ListedNothing(inbound: Inbound, clients: seq<ConfigClient>)
    ensures Listed(inbound, clients[..0]) == []
    ensures inbound.protocol == "" ==> Listed(inbound, clients) == []
  {}

  lemma ListedNext(inbound: Inbound, clients: seq<ConfigClient>, j: nat)
    requires j < |clients| && inbound.protocol != ""
    ensures Listed(inbound, clients[..j + 1]) ==
            Listed(inbound, clients[..j]) + if clients[j].email == "" then [] else [Entry(inbound, clients[j])]
  {
    assert clients[..j + 1][..j] == clients[..j];
  }

  // ----- Versions

  /** One successful parse: the roster and the version it is at; 0 and no roster before the first. */
  datatype Parsed = Parsed(roster: Option<RosterParse>, version: nat)

  const UNPARSED: Parsed := Parsed(None, 0)

  predicate SameRoster(a: RosterParse, b: RosterParse) {
    && a.labels.Keys == b.labels.Keys && (forall e :: e in a.labels ==> a.labels[e] == b.labels[e])
    && a.clients.Keys == b.clients.Keys
    && forall e :: e in a.clients ==> a.clients[e].clientId == b.clients[e].clientId && a.clients[e].inbounds == b.clients[e].inbounds
  }

  function ParseSource(previous: Parsed, roster: RosterParse): Parsed {
    Parsed(Some(roster),
           if previous.roster.None? || !SameRoster(previous.roster.value, roster) then previous.version + 1 else previous.version)
  }

  function AfterParses(rosters: seq<RosterParse>): Parsed {
    if rosters == [] then UNPARSED else ParseSource(AfterParses(rosters[..|rosters| - 1]), rosters[|rosters| - 1])
  }

  /** How often the roster really changed, the first parse included. */
  function Changes(rosters: seq<RosterParse>): nat {
    if rosters == [] then 0
    else
      var n := |rosters| - 1;
      Changes(rosters[..n]) + if n == 0 || rosters[n - 1] != rosters[n] then 1 else 0
  }

  lemma SameIsEqual(a: RosterParse, b: RosterParse)
    ensures SameRoster(a, b) <==> a == b
  {
    if SameRoster(a, b) {
      assert a.labels == b.labels;
      forall e | e in a.clients
        ensures a.clients[e] == b.clients[e]
      {}
      assert a.clients == b.clients;
    }
  }

  /** The version counts the real changes. */
  lemma {:induction false} VersionCountsChanges(rosters: seq<RosterParse>)
    ensures AfterParses(rosters).version == Changes(rosters)
    ensures AfterParses(rosters).roster == if rosters == [] then None else Some(rosters[|rosters| - 1])
  {
    hide SameRoster;
    if rosters != [] {
      var n := |rosters| - 1;
      VersionCountsChanges(rosters[..n]);
      if n > 0 {
        SameIsEqual(rosters[n - 1], rosters[n]);
        assert rosters[..n][n - 1] == rosters[n - 1];
      }
    }
  }

  /** A consumer that has seen a version has seen its roster: the version never falls, and stands still only with the roster. */
  lemma {:induction false} SameVersionSameRoster(rosters: seq<RosterParse>, i: nat)
    requires i <= |rosters|
    ensures AfterParses(rosters[..i]).version <= AfterParses(rosters).version
    ensures i > 0 && AfterParses(rosters[..i]).version == AfterParses(rosters).version ==> AfterParses(rosters[..i]).roster == AfterParses(rosters).roster
    ensures i == 0 && rosters != [] ==> AfterParses(rosters).version > 0
    decreases |rosters|
  {
    hide SameRoster;
    if i == |rosters| {
      assert rosters[..i] == rosters;
    } else {
      var n := |rosters| - 1;
      assert rosters[..n][..i] == rosters[..i];
      SameVersionSameRoster(rosters[..n], i);
      VersionCountsChanges(rosters[..n]);
      if n > 0 {
        SameIsEqual(rosters[n - 1], rosters[n]);
      }
    }
  }
}
