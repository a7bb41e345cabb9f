/** Runs from a fresh start in which the service loses what it promises: each a lemma with its steps. */
module RosterLapses {
  import opened Options
  import opened RosterGenerations
  import opened RosterMachine
  import opened RosterPlan
  import opened RosterRuns
  import opened RosterSafety
  import U = UserStore

  const NOW: Context := Context(map[], [], 0)

  /** A pass over one user whose change is one operation, nothing failing. */
  function OnePass(email: string): seq<Step> { [Start, Render(true), Choose(email), PushOp, Settle(true), Finish] }

  predicate OneQueued(s: State, email: string, id: string, op: Op) {
    && s.pass == Idle && s.desk.pending.Keys == {email}
    && var c := s.desk.pending[email]; c == Change(id, [op], c.gen, false)
  }

  lemma Rendered(s: State, email: string, id: string, op: Op)
    requires OneQueued(s, email, id, op)
    ensures Possible(s, Start) && Possible(Next(s, Start), Render(true))
    ensures var s2 := Next(Next(s, Start), Render(true));
            s2.desk == s.desk && s2.live == s.live && s2.pass == Pushing(s.desk.pending, {email}) && s2.recovered == s.recovered
  {
    hide RenderedFile;
  }

  lemma Pushed(s: State, email: string, id: string, op: Op)
    requires s.pass == Pushing(s.desk.pending, {email}) && OneQueued(s.(pass := Idle), email, id, op)
    ensures Possible(s, Choose(email)) && Possible(Next(s, Choose(email)), PushOp)
    ensures var s2 := Next(Next(s, Choose(email)), PushOp);
            s2.desk == s.desk && s2.pass == AtUser(s.desk.pending, {}, email, 1, false) && s2.recovered == s.recovered
            && Of(s2.live, email) == Push(Of(s.live, email), id, op)
  {
    hide Push;
  }

  lemma Finished(s: State, email: string, id: string, op: Op)
    requires s.pass == AtUser(s.desk.pending, {}, email, 1, false) && OneQueued(s.(pass := Idle), email, id, op)
    ensures Possible(s, Settle(true)) && Possible(Next(s, Settle(true)), Finish)
    ensures var s2 := Next(Next(s, Settle(true)), Finish);
            && s2.desk.pending == map[] && s2.desk.tables == s.desk.tables && s2.pass == Idle && s2.live == s.live
            && s2.recovered == s.recovered
  {}

  lemma PassOverOne(s: State, email: string, id: string, op: Op) returns (s': State)
    requires OneQueued(s, email, id, op)
    ensures RanAny(s, OnePass(email)) == Some(s')
    ensures s'.pass == Idle && s'.desk.pending == map[] && s'.desk.tables == s.desk.tables && s'.recovered == s.recovered
    ensures Of(s'.live, email) == Push(Of(s.live, email), id, op)
  {
    hide RanAny, Possible, Next, Push;
    var steps := OnePass(email);
    Rendered(s, email, id, op);
    var s2 := Next(Next(s, Start), Render(true));
    Pushed(s2, email, id, op);
    var s4 := Next(Next(s2, Choose(email)), PushOp);
    Finished(s4, email, id, op);
    s' := Next(Next(s4, Settle(true)), Finish);
    RanNothing(s);
    assert steps[..0] == [];
    RanOne(s, steps, 0);
    RanOne(s, steps, 1);
    RanOne(s, steps, 2);
    RanOne(s, steps, 3);
    RanOne(s, steps, 4);
    RanOne(s, steps, 5);
    assert steps[..6] == steps;
  }

  // ----- The common start: a user on one inbound, applied

  function Row(id: string, tags: seq<string>): U.RosterRow { U.RosterRow(id, tags, false, false, 0, 0) }

  function FirstUser(): seq<Step> { [Add("a", "A", ["x"], None, NOW)] + OnePass("a") }

  lemma Alone(s: State, step: Step)
    requires Possible(s, step)
    ensures RanAny(s, [step]) == Some(Next(s, step))
  {
    hide Possible, Next;
    RanNothing(s);
    assert [step][..0] == [] && [step][..1] == [step];
    RanOne(s, [step], 0);
  }

  /** Then: A on x, in store, file and server. */
  lemma FirstUserApplied() returns (s: State)
    ensures RanAny(FRESH, FirstUser()) == Some(s)
    ensures s.pass == Idle && s.desk.pending == map[] && s.desk.tables.roster == map["a" := Row("A", ["x"])] && s.recovered
    ensures Of(s.live, "a") == map["x" := "A"]
  {
    hide RanAny;
    var add := Add("a", "A", ["x"], None, NOW);
    assert AttachOps(["x"], map[]) == [Op(Attach, "x", "")];
    Alone(FRESH, add);
    var added := Next(FRESH, add);
    s := PassOverOne(added, "a", "A", Op(Attach, "x", ""));
    RanAnyOn(FRESH, [add], OnePass("a"));
  }

  /** One more edit takes A off x; its detach is still owed. */
  lemma DetachIsOwed() returns (s: State)
    ensures RanAny(FRESH, FirstUser() + [Edit("a", None, [], NOW)]) == Some(s)
    ensures s.pass == Idle && s.desk.tables.roster == map["a" := Row("A", [])] && s.recovered
    ensures OneQueued(s, "a", "A", Op(Detach, "x", "")) && Of(s.live, "a") == map["x" := "A"]
  {
    hide RanAny, OnePass;
    var before := FirstUserApplied();
    var edit := Edit("a", None, [], NOW);
    OffPlan();
    Alone(before, edit);
    s := Next(before, edit);
    RanAnyOn(FRESH, FirstUser(), [edit]);
  }

  lemma OffPlan()
    ensures DiffOps(Record("A", ["x"]), Record("A", []), map[], []) == [Op(Detach, "x", "")]
  {
    assert ["x"][..0] == [];
    assert Dropped([], []) == [];
    assert Dropped(["x"], []) == Dropped(["x"][..0], []) + [Op(Detach, "x", "")];
    assert Owed([], []) == [] && Stays(Record("A", ["x"]), Record("A", []), map[], [], []) == [];
  }

  // ----- A delete whose mark fails over an unfinished change

  /** Deleted twice, the first time without a commit: nothing is left to detach. */
  lemma DeletedTwice(s: State, email: string)
    requires s.pass == Idle && U.LiveRow(s.desk.tables, email) && s.desk.tables.roster[email].inbounds == []
    requires email in s.desk.pending && !s.desk.pending[email].purge
    ensures Possible(s, Delete(email, 0, false))
    ensures var once := Next(s, Delete(email, 0, false));
            && Possible(once, Delete(email, 0, true))
            && var twice := Next(once, Delete(email, 0, true));
               && twice.pass == Idle && twice.live == s.live && U.DeletingRow(twice.desk.tables, email)
               && email in twice.desk.pending && twice.desk.pending[email].ops == [] && twice.desk.pending[email].purge
  {
    assert TouchedTags([], []) == [] && DetachOps([]) == [];
  }

  /** A purge with nothing to detach goes through, whatever is live. */
  lemma EmptyPurge(s: State, email: string)
    requires s.pass == Idle && U.DeletingRow(s.desk.tables, email)
    requires email in s.desk.pending && s.desk.pending[email].ops == [] && s.desk.pending[email].purge
    ensures Possible(s, Start)
    ensures var s1 := Next(s, Start);
            && Possible(s1, Render(true))
            && var s2 := Next(s1, Render(true));
               && Possible(s2, Choose(email))
               && var s3 := Next(s2, Choose(email));
                  && Possible(s3, Settle(true))
                  && var s4 := Next(s3, Settle(true));
                     s4.live == s.live && email !in s4.desk.tables.roster
  {
    hide PushAll, RenderedFile;
    var s1 := Next(s, Start);
    var s2 := Next(s1, Render(true));
    assert s2.pass == Pushing(s.desk.pending, s.desk.pending.Keys) && s2.desk == s.desk && s2.live == s.live;
    EmptySettle(s2, email);
  }

  lemma EmptySettle(s: State, email: string)
    requires s.pass == Pushing(s.desk.pending, s.desk.pending.Keys) && U.DeletingRow(s.desk.tables, email)
    requires email in s.desk.pending && s.desk.pending[email].ops == [] && s.desk.pending[email].purge
    ensures Possible(s, Choose(email))
    ensures var s1 := Next(s, Choose(email));
            && Possible(s1, Settle(true))
            && var s2 := Next(s1, Settle(true));
               s2.live == s.live && email !in s2.desk.tables.roster
  {}

  /** The owed detach is forgotten with the taken change; the next delete purges over a live credential. */
  lemma FailedDeleteStrandsACredential(s: State, email: string, tag: string)
    requires s.pass == Idle && U.LiveRow(s.desk.tables, email) && s.desk.tables.roster[email].inbounds == []
    requires email in s.desk.pending && s.desk.pending[email].ops == [Op(Detach, tag, "")] && !s.desk.pending[email].purge
    requires tag in Of(s.live, email)
    ensures var steps := [Delete(email, 0, false), Delete(email, 0, true), Start, Render(true), Choose(email), Settle(true)];
            && RanAny(s, steps).Some?
            && email !in RanAny(s, steps).value.desk.tables.roster
            && tag in Of(RanAny(s, steps).value.live, email)
  {
    var steps := [Delete(email, 0, false), Delete(email, 0, true), Start, Render(true), Choose(email), Settle(true)];
    hide RanAny, Possible, Next;
    DeletedTwice(s, email);
    EmptyPurge(Next(Next(s, steps[0]), steps[1]), email);
    RanNothing(s);
    assert steps[..0] == [];
    RanOne(s, steps, 0);
    RanOne(s, steps, 1);
    RanOne(s, steps, 2);
    RanOne(s, steps, 3);
    RanOne(s, steps, 4);
    RanOne(s, steps, 5);
    assert steps[..6] == steps;
  }

  /** From a fresh start: the user is erased from every table, and A still connects on x. */
  lemma ErasedUserStillConnects() returns (steps: seq<Step>)
    ensures RanAny(FRESH, steps).Some?
    ensures var s := RanAny(FRESH, steps).value;
            "a" !in s.desk.tables.roster && "x" in Of(s.live, "a")
  {
    hide RanAny, FirstUser;
    var s := DetachIsOwed();
    var prefix := FirstUser() + [Edit("a", None, [], NOW)];
    var more := [Delete("a", 0, false), Delete("a", 0, true), Start, Render(true), Choose("a"), Settle(true)];
    FailedDeleteStrandsACredential(s, "a", "x");
    RanAnyOn(FRESH, prefix, more);
    steps := prefix + more;
  }

  // ----- An edit that re-attaches the owed tag

  lemma BackPlan()
    ensures DiffOps(Record("A", []), Record("B", ["x"]), map[], [Op(Detach, "x", "")]) == [Op(Attach, "x", "")]
  {
    var before, after, prev := Record("A", []), Record("B", ["x"]), [Op(Detach, "x", "")];
    assert prev[..0] == [] && ["x"][..0] == [];
    assert Dropped([], ["x"]) == [] && Owed([], ["x"]) == [] && Owed(prev, ["x"]) == Owed(prev[..0], ["x"]) + [];
    assert !Joins(prev, "x");
    assert Stays(before, after, map[], prev, []) == [];
    assert Stays(before, after, map[], prev, ["x"]) == Stays(before, after, map[], prev, ["x"][..0]) + Stay(before, after, map[], prev, "x");
  }

  /** From a fresh start: everything reads as applied, the row says B, and x still holds A. */
  lemma OldCredentialStays() returns (steps: seq<Step>)
    ensures RanAny(FRESH, steps).Some?
    ensures var s := RanAny(FRESH, steps).value;
            && s.pass == Idle && s.desk.pending == map[] && s.desk.tables.roster == map["a" := Row("B", ["x"])]
            && Of(s.live, "a") == map["x" := "A"]
  {
    hide RanAny, FirstUser, OnePass;
    var s := DetachIsOwed();
    var off, back := Edit("a", None, [], NOW), Edit("a", Some("B"), ["x"], NOW);
    BackPlan();
    Alone(s, back);
    var edited := Next(s, back);
    var s' := PassOverOne(edited, "a", "B", Op(Attach, "x", ""));
    RanAnyOn(s, [back], OnePass("a"));
    RanAnyOn(FRESH, FirstUser() + [off], [back] + OnePass("a"));
    steps := FirstUser() + [off] + ([back] + OnePass("a"));
  }

  // ----- Convergence overtaken between its second look and its queueing

  function Looks(): seq<Step> { [List, Check("a", {}, NOW), Confirm(true)] }

  /** Convergence is about to queue A on x. */
  predicate AboutToQueue(s: State) {
    && s.pass == Checked(map[], "a", "A", ["x"], NOW, true) && s.desk.pending == map[] && s.recovered
    && s.desk.tables.roster == map["a" := Row("A", ["x"])] && Of(s.live, "a") == map["x" := "A"]
  }

  lemma ThreeSteps(s: State, a: Step, b: Step, c: Step)
    requires Possible(s, a) && Possible(Next(s, a), b) && Possible(Next(Next(s, a), b), c)
    ensures RanAny(s, [a, b, c]) == Some(Next(Next(Next(s, a), b), c))
  {
    hide Possible, Next, RanAny;
    var steps := [a, b, c];
    RanNothing(s);
    assert steps[..0] == [] && steps[..3] == steps;
    RanOne(s, steps, 0);
    RanOne(s, steps, 1);
    RanOne(s, steps, 2);
  }

  lemma Lists(s: State)
    requires s.pass == Idle && s.desk.tables.roster == map["a" := Row("A", ["x"])]
    ensures Possible(s, List) && Next(s, List) == s.(pass := Converging(map["a" := Record("A", ["x"])]))
  {
    assert Listed(s.desk.tables) == map["a" := Record("A", ["x"])];
  }

  lemma Checks(s: State)
    requires s.pass == Converging(map["a" := Record("A", ["x"])]) && s.desk.pending == map[]
    requires U.LiveRow(s.desk.tables, "a")
    ensures Possible(s, Check("a", {}, NOW)) && Possible(Next(s, Check("a", {}, NOW)), Confirm(true))
    ensures Next(Next(s, Check("a", {}, NOW)), Confirm(true)) == s.(pass := Checked(map[], "a", "A", ["x"], NOW, true))
  {
    hide MutatedDesk, MutationPossible, Listed, Recovered;
    assert ["x"][..0] == [] && Lacking([], {}) == [];
    assert Lacking(["x"], {}) == ["x"];
  }

  lemma TwiceLooked(s: State) returns (s': State)
    requires s.pass == Idle && s.desk.pending == map[] && s.desk.tables.roster == map["a" := Row("A", ["x"])] && s.recovered
    requires Of(s.live, "a") == map["x" := "A"]
    ensures RanAny(s, Looks()) == Some(s') && AboutToQueue(s')
  {
    hide RanAny, Possible, Next;
    Lists(s);
    var listed := Next(s, List);
    Checks(listed);
    s' := Next(Next(listed, Check("a", {}, NOW)), Confirm(true));
    ThreeSteps(s, List, Check("a", {}, NOW), Confirm(true));
  }

  predicate Overtakes(step: Step) {
    && (step.Edit? || step.Delete?) && step.email == "a" && (step.Edit? ==> step.newId != None) && (step.Delete? ==> step.commits)
  }

  lemma MutatesMeanwhile(s: State, mutation: Step)
    requires AboutToQueue(s) && Overtakes(mutation) && Possible(s, mutation)
    ensures var s' := Next(s, mutation);
            && s' == s.(desk := s'.desk) && s'.desk.tables.roster.Keys == {"a"} && s'.desk.pending.Keys <= {"a"}
  {
    hide DiffOps, TouchedTags, DetachOps;
  }

  lemma QueuesAndEnds(s: State)
    requires s.pass == Checked(map[], "a", "A", ["x"], NOW, true) && s.desk.pending.Keys <= {"a"}
    ensures Possible(s, Requeue) && Possible(Next(s, Requeue), EndConverge)
    ensures var s' := Next(Next(s, Requeue), EndConverge);
            && s'.desk.tables == s.desk.tables && s'.live == s.live && s'.recovered == s.recovered
            && OneQueued(s', "a", "A", Op(Attach, "x", ""))
  {
    hide MutatedDesk, MutationPossible, Listed, Recovered;
    assert AttachOps(["x"], map[]) == [Op(Attach, "x", "")];
  }

  lemma OvertakenAt(before: State, mutation: Step) returns (s: State)
    requires AboutToQueue(before) && Overtakes(mutation) && Possible(before, mutation)
    ensures RanAny(before, [mutation, Requeue, EndConverge]) == Some(s)
    ensures s.desk.tables == Next(before, mutation).desk.tables && s.live == before.live && s.recovered
    ensures OneQueued(s, "a", "A", Op(Attach, "x", ""))
  {
    hide RanAny, Possible, Next;
    MutatesMeanwhile(before, mutation);
    var mutated := Next(before, mutation);
    QueuesAndEnds(mutated);
    s := Next(Next(mutated, Requeue), EndConverge);
    ThreeSteps(before, mutation, Requeue, EndConverge);
  }

  /** What is left once the mutation is in, convergence has queued, and it has ended. */
  lemma Overtaken(mutation: Step) returns (s: State, before: State)
    requires Overtakes(mutation)
    ensures AboutToQueue(before) && Possible(before, mutation)
    ensures RanAny(FRESH, FirstUser() + (Looks() + [mutation, Requeue, EndConverge])) == Some(s)
    ensures s.desk.tables == Next(before, mutation).desk.tables && s.live == before.live && s.recovered
    ensures OneQueued(s, "a", "A", Op(Attach, "x", ""))
  {
    hide RanAny, FirstUser, Next, OneQueued, Looks;
    var applied := FirstUserApplied();
    before := TwiceLooked(applied);
    var rest := [mutation, Requeue, EndConverge];
    s := OvertakenAt(before, mutation);
    RanAnyOn(applied, Looks(), rest);
    RanAnyOn(FRESH, FirstUser(), Looks() + rest);
  }

  /** An edit that lands there is undone: all reads as applied, the row says B, and x holds A. */
  lemma ConvergenceUndoesAnEdit() returns (steps: seq<Step>)
    ensures RanAny(FRESH, steps).Some?
    ensures var s := RanAny(FRESH, steps).value;
            && s.pass == Idle && s.desk.pending == map[] && s.desk.tables.roster == map["a" := Row("B", ["x"])]
            && Of(s.live, "a") == map["x" := "A"]
  {
    hide RanAny, FirstUser, OnePass, Looks, DiffOps;
    var edit := Edit("a", Some("B"), ["x"], NOW);
    var s, before := Overtaken(edit);
    var s' := PassOverOne(s, "a", "A", Op(Attach, "x", ""));
    RanAnyOn(FRESH, FirstUser() + (Looks() + [edit, Requeue, EndConverge]), OnePass("a"));
    steps := FirstUser() + (Looks() + [edit, Requeue, EndConverge]) + OnePass("a");
  }

  /** A delete that lands there loses its purge: the row stays marked deleting, and nothing queued will erase it. */
  lemma ConvergenceDropsAPurge() returns (steps: seq<Step>)
    ensures RanAny(FRESH, steps).Some?
    ensures var s := RanAny(FRESH, steps).value;
            && s.recovered && U.DeletingRow(s.desk.tables, "a") && s.desk.pending.Keys == {"a"} && !s.desk.pending["a"].purge
  {
    hide RanAny, FirstUser, Looks, DetachOps, TouchedTags;
    var delete := Delete("a", 0, true);
    var s, before := Overtaken(delete);
    steps := FirstUser() + (Looks() + [delete, Requeue, EndConverge]);
  }

  // ----- Disables and enables over an unfinished change

  /** A disable drops the owed detach: nothing is queued any more, the row is disabled, and A still connects on x. */
  lemma DisabledUserStillConnects() returns (steps: seq<Step>)
    ensures RanAny(FRESH, steps).Some?
    ensures var s := RanAny(FRESH, steps).value;
            && U.DisabledRow(s.desk.tables, "a") && s.desk.pending == map[] && Of(s.live, "a") == map["x" := "A"]
  {
    hide RanAny, FirstUser;
    var s := DetachIsOwed();
    var off, disable := Edit("a", None, [], NOW), Disable("a", 0, true);
    assert [Op(Detach, "x", "")][..0] == [] && JoinedTags([], []) == [];
    assert JoinedTags([], [Op(Detach, "x", "")]) == [];
    Alone(s, disable);
    RanAnyOn(FRESH, FirstUser() + [off], [disable]);
    steps := FirstUser() + [off] + [disable];
  }

  lemma RotatePlan()
    ensures DiffOps(Record("A", ["x"]), Record("B", ["x"]), map[], []) == [Op(Rotate, "x", "")]
  {
    var before, after := Record("A", ["x"]), Record("B", ["x"]);
    assert ["x"][..0] == [];
    assert Dropped([], ["x"]) == [] && Owed([], ["x"]) == [];
    assert Dropped(["x"], ["x"]) == Dropped(["x"][..0], ["x"]) + [];
    assert Stays(before, after, map[], [], []) == [];
    assert Stays(before, after, map[], [], ["x"]) == Stays(before, after, map[], [], ["x"][..0]) + Stay(before, after, map[], [], "x");
  }

  /** The same user, another Client ID stored, the rotation not applied yet. */
  predicate Rotating(s: State) {
    && s.pass == Idle && s.desk.tables.roster == map["a" := Row("B", ["x"])] && Of(s.live, "a") == map["x" := "A"]
    && OneQueued(s, "a", "B", Op(Rotate, "x", ""))
  }

  lemma RotationIsQueued() returns (s: State)
    ensures RanAny(FRESH, FirstUser() + [Edit("a", Some("B"), ["x"], NOW)]) == Some(s) && Rotating(s)
  {
    hide RanAny, OnePass, FirstUser;
    var before := FirstUserApplied();
    var edit := Edit("a", Some("B"), ["x"], NOW);
    RotatePlan();
    Alone(before, edit);
    s := Next(before, edit);
    RanAnyOn(FRESH, FirstUser(), [edit]);
  }

  lemma DisabledOverRotation(s: State)
    requires Rotating(s)
    ensures Possible(s, Disable("a", 0, true))
    ensures var s' := Next(s, Disable("a", 0, true));
            && s'.pass == Idle && s'.live == s.live && U.DisabledRow(s'.desk.tables, "a")
            && s'.desk.tables.roster == map["a" := Row("B", ["x"]).(disabled := true)]
            && s'.desk.pending.Keys == {"a"}
  {
    assert [Op(Rotate, "x", "")][..0] == [] && JoinedTags(["x"], []) == ["x"];
    assert JoinedTags(["x"], [Op(Rotate, "x", "")]) == ["x"];
  }

  lemma EnabledAgain(s: State)
    requires s.pass == Idle && s.desk.tables.roster == map["a" := Row("B", ["x"]).(disabled := true)] && s.desk.pending.Keys == {"a"}
    ensures Possible(s, Enable("a", NOW))
    ensures var s' := Next(s, Enable("a", NOW));
            && s'.live == s.live && s'.desk.tables.roster == map["a" := Row("B", ["x"])] && OneQueued(s', "a", "B", Op(Attach, "x", ""))
  {
    assert AttachOps(["x"], map[]) == [Op(Attach, "x", "")];
  }

  /** A disable and an enable over an unapplied rotation: all reads as applied, the row says B, and x holds A. */
  lemma EnabledUserKeepsTheOldCredential() returns (steps: seq<Step>)
    ensures RanAny(FRESH, steps).Some?
    ensures var s := RanAny(FRESH, steps).value;
            && s.pass == Idle && s.desk.pending == map[] && s.desk.tables.roster == map["a" := Row("B", ["x"])]
            && Of(s.live, "a") == map["x" := "A"]
  {
    hide RanAny, FirstUser, OnePass, Possible, Next;
    var s := RotationIsQueued();
    var disable, enable := Disable("a", 0, true), Enable("a", NOW);
    DisabledOverRotation(s);
    var off := Next(s, disable);
    EnabledAgain(off);
    var on := Next(off, enable);
    var s' := PassOverOne(on, "a", "B", Op(Attach, "x", ""));
    Alone(s, disable);
    Alone(off, enable);
    var start := FirstUser() + [Edit("a", Some("B"), ["x"], NOW)];
    RanAnyOn(FRESH, start, [disable]);
    RanAnyOn(FRESH, start + [disable], [enable]);
    RanAnyOn(FRESH, start + [disable] + [enable], OnePass("a"));
    steps := start + [disable] + [enable] + OnePass("a");
  }
}
