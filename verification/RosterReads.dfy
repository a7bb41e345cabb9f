/** The roster of a configuration, read off its inbounds by position. */
module RosterReads {
  import opened Options
  import opened RosterSource
  import opened Sequences
  import opened UserStore

  /** Client j of inbound i is the email's; inbounds without a protocol and clients without an email name nobody. */
  predicate Names(inbounds: seq<Inbound>, i: int, j: int, e: string) {
    && 0 <= i < |inbounds| && inbounds[i].protocol != ""
    && 0 <= j < |inbounds[i].clients| && inbounds[i].clients[j].email == e && e != ""
  }

  predicate NamesOnVless(inbounds: seq<Inbound>, i: int, j: int, e: string) { Names(inbounds, i, j, e) && inbounds[i].vless }

  /** Nothing on a VLESS inbound names the email earlier in the configuration. */
  ghost predicate FirstOnVless(inbounds: seq<Inbound>, i: int, j: int, e: string) {
    && NamesOnVless(inbounds, i, j, e)
    && forall k, l :: NamesOnVless(inbounds, k, l, e) ==> i < k || (i == k && j <= l)
  }

  // ----- Entries

  lemma {:induction false} ListedAre(inbound: Inbound, clients: seq<ConfigClient>, entry: RosterSource.Entry)
    ensures entry in Listed(inbound, clients) <==>
            && inbound.protocol != "" && entry.inbound == inbound && entry.client.email != ""
            && entry.client in clients
  {
    if clients != [] {
      var init, last := clients[..|clients| - 1], clients[|clients| - 1];
      assert clients == init + [last];
      ListedAre(inbound, init, entry);
    }
  }

  lemma {:induction false} EntriesAre(inbounds: seq<Inbound>, entry: RosterSource.Entry)
    ensures entry in Entries(inbounds) <==>
            exists i, j :: Names(inbounds, i, j, entry.client.email) && entry == Entry(inbounds[i], inbounds[i].clients[j])
  {
    hide Listed;
    var e := entry.client.email;
    if inbounds != [] {
      var init, last := inbounds[..|inbounds| - 1], inbounds[|inbounds| - 1];
      assert inbounds == init + [last];
      EntriesAre(init, entry);
      ListedAre(last, last.clients, entry);
      if i, j :| Names(init, i, j, e) && entry == Entry(init[i], init[i].clients[j]) {
        assert Names(inbounds, i, j, e) && inbounds[i] == init[i];
      }
      if i, j :| Names(inbounds, i, j, e) && entry == Entry(inbounds[i], inbounds[i].clients[j]) {
        if i < |init| {
          assert Names(init, i, j, e) && inbounds[i] == init[i];
        }
      }
      if entry in Listed(last, last.clients) {
        var j :| 0 <= j < |last.clients| && last.clients[j] == entry.client;
        assert Names(inbounds, |init|, j, e);
      }
    }
  }

  // ----- The Client ID

  lemma {:induction false} IdConcat(a: seq<RosterSource.Entry>, b: seq<RosterSource.Entry>, e: string)
    ensures IdOf(a + b, e) == if IdOf(a, e).Some? then IdOf(a, e) else IdOf(b, e)
  {
    if b == [] {
      assert a + b == a;
    } else {
      assert (a + b)[..|a + b| - 1] == a + b[..|b| - 1];
      IdConcat(a, b[..|b| - 1], e);
    }
  }

  lemma {:induction false} ListedId(inbound: Inbound, clients: seq<ConfigClient>, e: string)
    ensures match IdOf(Listed(inbound, clients), e)
            case None => !inbound.vless || inbound.protocol == "" || e == "" || forall j :: 0 <= j < |clients| ==> clients[j].email != e
            case Some(id) =>
              && inbound.vless && inbound.protocol != "" && e != ""
              && exists j :: 0 <= j < |clients| && clients[j].email == e && clients[j].id == id && forall l :: 0 <= l < j ==> clients[l].email != e
  {
    if clients != [] {
      var init, last := clients[..|clients| - 1], clients[|clients| - 1];
      assert clients == init + [last];
      ListedId(inbound, init, e);
      if inbound.protocol != "" {
        IdConcat(Listed(inbound, init), if last.email == "" then [] else [Entry(inbound, last)], e);
        assert Listed(inbound, init) + [] == Listed(inbound, init);
        assert [Entry(inbound, last)][..0] == [] && IdOf([], e).None?;
        if IdOf(Listed(inbound, init), e).Some? {
          var j :| 0 <= j < |init| && init[j].email == e && init[j].id == IdOf(Listed(inbound, init), e).value
            && forall l :: 0 <= l < j ==> init[l].email != e;
          assert clients[j] == init[j] && forall l :: 0 <= l < j ==> clients[l] == init[l];
        } else if inbound.vless && e != "" && last.email == e {
          assert forall l :: 0 <= l < |init| ==> clients[l] == init[l];
          assert clients[|init|].id == last.id;
        }
      }
    }
  }

  /** The Client ID is the one of the first entry on a VLESS inbound, and there is none if no such inbound names the email. */
  lemma {:induction false} IdIs(inbounds: seq<Inbound>, e: string)
    ensures match IdOf(Entries(inbounds), e)
            case None => forall i, j :: !NamesOnVless(inbounds, i, j, e)
            case Some(id) => exists i, j :: FirstOnVless(inbounds, i, j, e) && inbounds[i].clients[j].id == id
  {
    hide IdOf, Listed;
    if inbounds == [] {
      NoId(e);
    } else {
      var init, last := inbounds[..|inbounds| - 1], inbounds[|inbounds| - 1];
      assert inbounds == init + [last];
      IdIs(init, e);
      IdConcat(Entries(init), Listed(last, last.clients), e);
      ListedId(last, last.clients, e);
      assert forall i, j :: i < |init| ==> (NamesOnVless(inbounds, i, j, e) <==> NamesOnVless(init, i, j, e));
      if IdOf(Entries(init), e).Some? {
        var i, j :| FirstOnVless(init, i, j, e) && init[i].clients[j].id == IdOf(Entries(init), e).value;
        assert inbounds[i] == init[i] && FirstOnVless(inbounds, i, j, e);
      } else if IdOf(Listed(last, last.clients), e).Some? {
        var j :| 0 <= j < |last.clients| && last.clients[j].email == e && last.clients[j].id == IdOf(Listed(last, last.clients), e).value
          && forall l :: 0 <= l < j ==> last.clients[l].email != e;
        assert FirstOnVless(inbounds, |init|, j, e);
      }
    }
  }

  lemma NoId(e: string)
    ensures IdOf(Entries([]), e) == None
  {}

  // ----- Labels

  /** Some entry of the email is labelled so. */
  predicate LabelAt(naming: Labelling, entries: seq<RosterSource.Entry>, e: string, shown: Label) {
    exists k :: 0 <= k < |entries| && entries[k].client.email == e && naming(entries[k].inbound, entries[k].client.flow) == shown
  }

  ghost predicate LabelIn(naming: Labelling, inbounds: seq<Inbound>, e: string, shown: Label) {
    exists i, j :: Names(inbounds, i, j, e) && naming(inbounds[i], inbounds[i].clients[j].flow) == shown
  }

  ghost predicate TagIn(inbounds: seq<Inbound>, e: string, tag: string) {
    exists i, j :: NamesOnVless(inbounds, i, j, e) && inbounds[i].tag == tag
  }

  lemma {:induction false} LabelsAre(naming: Labelling, entries: seq<RosterSource.Entry>, e: string)
    ensures NoRepeats(LabelsOf(naming, entries, e))
    ensures forall shown :: shown in LabelsOf(naming, entries, e) <==> LabelAt(naming, entries, e, shown)
    ensures entries != [] ==> LabelsOf(naming, entries[..|entries| - 1], e) <= LabelsOf(naming, entries, e)
  {
    if entries != [] {
      var init, last := entries[..|entries| - 1], entries[|entries| - 1];
      LabelsAre(naming, init, e);
      var own := naming(last.inbound, last.client.flow);
      if last.client.email == e && own !in LabelsOf(naming, init, e) {
        NoRepeatsSnoc(LabelsOf(naming, init, e), own);
      }
      forall shown
        ensures LabelAt(naming, entries, e, shown) <==> LabelAt(naming, init, e, shown) || (last.client.email == e && own == shown)
      {
        LabelLast(naming, entries, e, shown);
      }
      hide LabelAt;
    }
  }

  lemma LabelLast(naming: Labelling, entries: seq<RosterSource.Entry>, e: string, shown: Label)
    requires entries != []
    ensures var last := entries[|entries| - 1];
            LabelAt(naming, entries, e, shown) <==>
            LabelAt(naming, entries[..|entries| - 1], e, shown) || (last.client.email == e && naming(last.inbound, last.client.flow) == shown)
  {
    var init := entries[..|entries| - 1];
    assert forall k :: 0 <= k < |init| ==> init[k] == entries[k];
  }

  // ----- The roster

  lemma EntryAt(inbounds: seq<Inbound>, k: nat) returns (i: int, j: int)
    requires k < |Entries(inbounds)|
    ensures var entry := Entries(inbounds)[k];
            Names(inbounds, i, j, entry.client.email) && entry == Entry(inbounds[i], inbounds[i].clients[j])
  {
    hide Entries;
    var entry := Entries(inbounds)[k];
    EntriesAre(inbounds, entry);
    i, j :| Names(inbounds, i, j, entry.client.email) && entry == Entry(inbounds[i], inbounds[i].clients[j]);
  }

  lemma NamedAt(inbounds: seq<Inbound>, i: int, j: int, e: string) returns (k: nat)
    requires Names(inbounds, i, j, e)
    ensures k < |Entries(inbounds)| && Entries(inbounds)[k] == Entry(inbounds[i], inbounds[i].clients[j])
  {
    hide Entries;
    EntriesAre(inbounds, Entry(inbounds[i], inbounds[i].clients[j]));
    k :| k < |Entries(inbounds)| && Entries(inbounds)[k] == Entry(inbounds[i], inbounds[i].clients[j]);
  }

  lemma LabelledAt(naming: Labelling, inbounds: seq<Inbound>, e: string, shown: Label)
    ensures LabelAt(naming, Entries(inbounds), e, shown) <==> LabelIn(naming, inbounds, e, shown)
  {
    hide Entries;
    var entries := Entries(inbounds);
    if LabelAt(naming, entries, e, shown) {
      var k :| 0 <= k < |entries| && entries[k].client.email == e && naming(entries[k].inbound, entries[k].client.flow) == shown;
      var i, j := EntryAt(inbounds, k);
    }
    if LabelIn(naming, inbounds, e, shown) {
      var i, j :| Names(inbounds, i, j, e) && naming(inbounds[i], inbounds[i].clients[j].flow) == shown;
      var k := NamedAt(inbounds, i, j, e);
    }
  }

  lemma ListedAt(inbounds: seq<Inbound>, e: string)
    ensures (exists k :: 0 <= k < |Entries(inbounds)| && Entries(inbounds)[k].client.email == e) <==> exists i, j :: Names(inbounds, i, j, e)
  {
    hide Entries;
    if k :| 0 <= k < |Entries(inbounds)| && Entries(inbounds)[k].client.email == e {
      var i, j := EntryAt(inbounds, k);
    }
    if i, j :| Names(inbounds, i, j, e) {
      var k := NamedAt(inbounds, i, j, e);
    }
  }

  lemma AttachedAt(inbounds: seq<Inbound>, e: string, tag: string)
    ensures Attached(Entries(inbounds), e, tag) <==> TagIn(inbounds, e, tag)
  {
    hide Entries;
    var entries := Entries(inbounds);
    if k :| 0 <= k < |entries| && AttachesAt(entries[k], e, tag) {
      var i, j := EntryAt(inbounds, k);
      assert NamesOnVless(inbounds, i, j, e) && inbounds[i].tag == tag;
    }
    if TagIn(inbounds, e, tag) {
      var i, j :| NamesOnVless(inbounds, i, j, e) && inbounds[i].tag == tag;
      var k := NamedAt(inbounds, i, j, e);
      assert AttachesAt(entries[k], e, tag);
    }
  }

  /**
   * Who is in the roster of a configuration: labelled is whoever some inbound names, with the labels of those entries, each
   * once; a client is whoever a VLESS inbound names, with the Client ID of the first such entry and the tags of those inbounds.
   */
  lemma RosterIs(parse: RosterParse, naming: Labelling, inbounds: seq<Inbound>, e: string)
    requires Gathers(parse, naming, Entries(inbounds))
    ensures e in parse.labels <==> exists i, j :: Names(inbounds, i, j, e)
    ensures e in parse.labels ==>
              NoRepeats(parse.labels[e]) && forall shown :: shown in parse.labels[e] <==> LabelIn(naming, inbounds, e, shown)
    ensures e in parse.clients <==> exists i, j :: NamesOnVless(inbounds, i, j, e)
    ensures e in parse.clients ==>
              && (exists i, j :: FirstOnVless(inbounds, i, j, e) && parse.clients[e].clientId == inbounds[i].clients[j].id)
              && NoRepeats(parse.clients[e].inbounds)
              && forall tag :: tag in parse.clients[e].inbounds <==> tag != "" && TagIn(inbounds, e, tag)
  {
    hide LabelsOf, IdOf, TagsOf, Attached, LabelAt, LabelIn, TagIn, Entries, NoRepeats;
    var entries := Entries(inbounds);
    assert GathersFor(parse, naming, entries, e);
    ListedMember(naming, entries, e);
    ListedAt(inbounds, e);
    IdIs(inbounds, e);
    LabelsAre(naming, entries, e);
    TagsAre(entries, e);
    forall shown
      ensures LabelAt(naming, entries, e, shown) <==> LabelIn(naming, inbounds, e, shown)
    {
      LabelledAt(naming, inbounds, e, shown);
    }
    forall tag
      ensures Attached(entries, e, tag) <==> TagIn(inbounds, e, tag)
    {
      AttachedAt(inbounds, e, tag);
    }
  }
}
