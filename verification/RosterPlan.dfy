/** One user's change: the operations planned for it, and what pushing them does to the running xray. */
module RosterPlan {
  datatype Kind = Attach | Detach | Rotate

  /** The flow is resolved when the operation is planned. */
  datatype Op = Op(kind: Kind, tag: string, flow: string)

  /** What a roster row asks for: one Client ID on some inbounds. */
  datatype Record = Record(id: string, tags: seq<string>)

  /** One user on the running xray: the credential each inbound holds for the email. */
  type Live = map<string, string>

  // ----- Pushing

  /** An add of a present user reads as applied. */
  function AddUser(live: Live, tag: string, id: string): Live { if tag in live then live else live[tag := id] }

  /** So does a remove of an absent one. */
  function RemoveUser(live: Live, tag: string): Live { live - {tag} }

  function Push(live: Live, id: string, op: Op): Live {
    match op.kind
    case Attach => AddUser(live, op.tag, id)
    case Detach => RemoveUser(live, op.tag)
    case Rotate => AddUser(RemoveUser(live, op.tag), op.tag, id)
  }

  function PushAll(live: Live, id: string, ops: seq<Op>): Live {
    if ops == [] then live else Push(PushAll(live, id, ops[..|ops| - 1]), id, ops[|ops| - 1])
  }

  /** Where a pass stops: behind `done` operations, possibly between the next one's remove and add. */
  datatype Stop = Stop(done: nat, half: bool)

  predicate StopsIn(stop: Stop, ops: seq<Op>) {
    stop.done <= |ops| && (stop.half ==> stop.done < |ops| && ops[stop.done].kind == Rotate)
  }

  function PushUntil(live: Live, id: string, ops: seq<Op>, stop: Stop): Live
    requires StopsIn(stop, ops)
  {
    var reached := PushAll(live, id, ops[..stop.done]);
    if stop.half then RemoveUser(reached, ops[stop.done].tag) else reached
  }

  /** The record, exactly. */
  function Exactly(rec: Record): Live { map t | t in rec.tags :: rec.id }

  // ----- Planning

  predicate Joins(ops: seq<Op>, tag: string) {
    exists i :: 0 <= i < |ops| && ops[i].tag == tag && ops[i].kind != Detach
  }

  predicate Leaves(ops: seq<Op>, tag: string) {
    exists i :: 0 <= i < |ops| && ops[i].tag == tag && ops[i].kind == Detach
  }

  predicate Touches(ops: seq<Op>, tag: string) {
    exists i :: 0 <= i < |ops| && ops[i].tag == tag
  }

  predicate Plans(ops: seq<Op>, kind: Kind, tag: string) {
    exists i :: 0 <= i < |ops| && ops[i].tag == tag && ops[i].kind == kind
  }

  /** The tags the before record had and the after record does not keep. */
  function Dropped(tags: seq<string>, kept: seq<string>): seq<Op> {
    if tags == [] then []
    else Dropped(tags[..|tags| - 1], kept) + if tags[|tags| - 1] in kept then [] else [Op(Detach, tags[|tags| - 1], "")]
  }

  /** The detaches an unfinished change still owes. */
  function Owed(prev: seq<Op>, kept: seq<string>): seq<Op> {
    if prev == [] then []
    else
      var last := prev[|prev| - 1];
      Owed(prev[..|prev| - 1], kept) + if last.kind == Detach && last.tag !in kept then [Op(Detach, last.tag, "")] else []
  }

  function Flow(flows: map<string, string>, tag: string): string { if tag in flows then flows[tag] else "" }

  /** What a kept or joined tag needs. */
  function Stay(before: Record, after: Record, flows: map<string, string>, prev: seq<Op>, tag: string): seq<Op> {
    if (before.id != after.id && tag in before.tags) || Joins(prev, tag) then [Op(Rotate, tag, Flow(flows, tag))]
    else if tag !in before.tags || prev != [] then [Op(Attach, tag, Flow(flows, tag))]
    else []
  }

  function Stays(before: Record, after: Record, flows: map<string, string>, prev: seq<Op>, tags: seq<string>): seq<Op> {
    if tags == [] then []
    else Stays(before, after, flows, prev, tags[..|tags| - 1]) + Stay(before, after, flows, prev, tags[|tags| - 1])
  }

  /** The edit's plan, merged with the previous change if that one never finished. */
  function DiffOps(before: Record, after: Record, flows: map<string, string>, prev: seq<Op>): seq<Op> {
    Dropped(before.tags, after.tags) + Owed(prev, after.tags) + Stays(before, after, flows, prev, after.tags)
  }

  function DetachOps(tags: seq<string>): seq<Op> {
    seq(|tags|, i requires 0 <= i < |tags| => Op(Detach, tags[i], ""))
  }

  function AttachOps(tags: seq<string>, flows: map<string, string>): seq<Op> {
    seq(|tags|, i requires 0 <= i < |tags| => Op(Attach, tags[i], Flow(flows, tags[i])))
  }

  /** A delete detaches the record's tags and every tag an unfinished change touched. */
  function TouchedTags(tags: seq<string>, prev: seq<Op>): seq<string> {
    if prev == [] then tags
    else
      var before := TouchedTags(tags, prev[..|prev| - 1]);
      if prev[|prev| - 1].tag in before then before else before + [prev[|prev| - 1].tag]
  }

  /** A disable only those it was joining. */
  function JoinedTags(tags: seq<string>, prev: seq<Op>): seq<string> {
    if prev == [] then tags
    else
      var before, last := JoinedTags(tags, prev[..|prev| - 1]), prev[|prev| - 1];
      if last.kind == Detach || last.tag in before then before else before + [last.tag]
  }

  // ----- The loops of the source

  method PlanEdit(before: Record, after: Record, flows: map<string, string>, prev: seq<Op>) returns (ops: seq<Op>)
    ensures ops == DiffOps(before, after, flows, prev)
  {
    hide Stay, Joins, Dropped, Owed, Stays;
    var joined := {};
    NothingJoined();
    assert prev[..0] == [];
    for i := 0 to |prev|
      invariant forall t :: t in joined <==> Joins(prev[..i], t)
    {
      assert prev[..i + 1] == prev[..i] + [prev[i]];
      JoinsSnoc(prev[..i], prev[i]);
      if prev[i].kind != Detach {
        joined := joined + {prev[i].tag};
      }
    }
    assert prev[..|prev|] == prev;
    ops := [];
    NothingLeft(before, after, flows, prev);
    assert before.tags[..0] == [] && after.tags[..0] == [];
    for i := 0 to |before.tags|
      invariant ops == Dropped(before.tags[..i], after.tags)
    {
      DroppedNext(before.tags, i, after.tags);
      if before.tags[i] !in after.tags {
        ops := ops + [Op(Detach, before.tags[i], "")];
      }
    }
    assert before.tags[..|before.tags|] == before.tags;
    ghost var leaves := ops;
    for i := 0 to |prev|
      invariant ops == leaves + Owed(prev[..i], after.tags)
    {
      OwedNext(prev, i, after.tags);
      if prev[i].kind == Detach && prev[i].tag !in after.tags {
        ops := ops + [Op(Detach, prev[i].tag, "")];
      }
    }
    ghost var owed := ops;
    for i := 0 to |after.tags|
      invariant ops == owed + Stays(before, after, flows, prev, after.tags[..i])
    {
      var tag := after.tags[i];
      StaysNext(before, after, flows, prev, after.tags, i);
      StayCases(before, after, flows, prev, tag);
      if (before.id != after.id && tag in before.tags) || tag in joined {
        ops := ops + [Op(Rotate, tag, Flow(flows, tag))];
      } else if tag !in before.tags {
        ops := ops + [Op(Attach, tag, Flow(flows, tag))];
      } else if prev != [] {
        ops := ops + [Op(Attach, tag, Flow(flows, tag))];
      }
    }
    assert after.tags[..|after.tags|] == after.tags;
  }

  lemma NothingLeft(before: Record, after: Record, flows: map<string, string>, prev: seq<Op>)
    ensures Dropped([], after.tags) == [] && Owed([], after.tags) == [] && Stays(before, after, flows, prev, []) == []
  {}

  lemma DroppedNext(tags: seq<string>, i: nat, kept: seq<string>)
    requires i < |tags|
    ensures Dropped(tags[..i + 1], kept) == Dropped(tags[..i], kept) + if tags[i] in kept then [] else [Op(Detach, tags[i], "")]
  {
    assert tags[..i + 1][..i] == tags[..i];
  }

  lemma OwedNext(prev: seq<Op>, i: nat, kept: seq<string>)
    requires i < |prev|
    ensures Owed(prev[..i + 1], kept) ==
            Owed(prev[..i], kept) + if prev[i].kind == Detach && prev[i].tag !in kept then [Op(Detach, prev[i].tag, "")] else []
  {
    assert prev[..i + 1][..i] == prev[..i];
  }

  lemma StaysNext(before: Record, after: Record, flows: map<string, string>, prev: seq<Op>, tags: seq<string>, i: nat)
    requires i < |tags|
    ensures Stays(before, after, flows, prev, tags[..i + 1]) ==
            Stays(before, after, flows, prev, tags[..i]) + Stay(before, after, flows, prev, tags[i])
  {
    hide Stay;
    assert tags[..i + 1][..i] == tags[..i];
  }

  lemma NothingJoined()
    ensures forall t :: !Joins([], t)
  {}

  lemma JoinsSnoc(ops: seq<Op>, op: Op)
    ensures forall t :: Joins(ops + [op], t) <==> Joins(ops, t) || (op.kind != Detach && op.tag == t)
  {
    var all := ops + [op];
    forall t
      ensures Joins(all, t) <==> Joins(ops, t) || (op.kind != Detach && op.tag == t)
    {
      if Joins(ops, t) {
        var i :| 0 <= i < |ops| && ops[i].tag == t && ops[i].kind != Detach;
        assert all[i] == ops[i];
      }
      if op.kind != Detach && op.tag == t {
        assert all[|ops|] == op;
      }
    }
  }

  lemma StayCases(before: Record, after: Record, flows: map<string, string>, prev: seq<Op>, tag: string)
    ensures Stay(before, after, flows, prev, tag) ==
            if (before.id != after.id && tag in before.tags) || Joins(prev, tag) then [Op(Rotate, tag, Flow(flows, tag))]
            else if tag !in before.tags || prev != [] then [Op(Attach, tag, Flow(flows, tag))]
            else []
  {}

  method PlanDelete(tags: seq<string>, prev: seq<Op>) returns (ops: seq<Op>)
    ensures ops == DetachOps(TouchedTags(tags, prev))
  {
    var all := tags;
    for i := 0 to |prev|
      invariant all == TouchedTags(tags, prev[..i])
    {
      assert prev[..i + 1][..i] == prev[..i];
      if prev[i].tag !in all {
        all := all + [prev[i].tag];
      }
    }
    assert prev[..|prev|] == prev;
    ops := [];
    for i := 0 to |all|
      invariant ops == DetachOps(all[..i])
    {
      ops := ops + [Op(Detach, all[i], "")];
    }
    assert all[..|all|] == all;
  }
}
