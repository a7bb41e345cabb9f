/** A pass in which nothing fails applies everything that is queued. */
module RosterProgress {
  import opened Options
  import opened RosterGenerations
  import opened RosterMachine
  import opened RosterPlan
  import opened RosterRuns
  import opened RosterSafety

  /** Steps of passes only. */
  predicate Passing(steps: seq<Step>) { forall i :: 0 <= i < |steps| ==> PassStep(steps[i]) || steps[i].Start? }

  /** Some careful run of passes leads from one state to the other. */
  ghost predicate Reaches(s: State, s': State) { exists steps :: Ran(s, steps) == Some(s') && Passing(steps) }

  lemma {:induction false} RanOn(s: State, a: seq<Step>, b: seq<Step>)
    requires Ran(s, a).Some?
    ensures Ran(s, a + b) == Ran(Ran(s, a).value, b)
    decreases |b|
  {
    hide Possible, Careful, Next;
    if b == [] {
      assert a + b == a;
    } else {
      assert (a + b)[..|a + b| - 1] == a + b[..|b| - 1];
      RanOn(s, a, b[..|b| - 1]);
    }
  }

  lemma ReachesOn(s: State, s1: State, s2: State)
    requires Reaches(s, s1) && Reaches(s1, s2)
    ensures Reaches(s, s2)
  {
    hide Ran;
    var a :| Ran(s, a) == Some(s1) && Passing(a);
    var b :| Ran(s1, b) == Some(s2) && Passing(b);
    RanOn(s, a, b);
    assert Passing(a + b);
  }

  lemma ReachesItself(s: State)
    ensures Reaches(s, s)
  {
    assert Ran(s, []) == Some(s) && Passing([]);
  }

  lemma OneStep(s: State, step: Step)
    requires Possible(s, step) && Careful(s, step) && (PassStep(step) || step.Start?)
    ensures Reaches(s, Next(s, step))
  {
    hide Possible, Careful, Next;
    assert [step][..0] == [];
    assert Ran(s, []) == Some(s);
    assert Ran(s, [step]) == Some(Next(s, step)) && Passing([step]);
  }

  /** The pushes of one user's change, none of them failing. */
  lemma {:induction false} PushesThrough(s: State) returns (s': State)
    requires s.pass.AtUser? && s.pass.email in s.pass.snap && s.pass.done <= |s.pass.snap[s.pass.email].ops| && !s.pass.half
    ensures Reaches(s, s') && s'.desk == s.desk
    ensures var p := s.pass; s'.pass == AtUser(p.snap, p.todo, p.email, |p.snap[p.email].ops|, false)
    decreases |s.pass.snap[s.pass.email].ops| - s.pass.done
  {
    hide Reaches, PushedLive;
    if s.pass.done == |s.pass.snap[s.pass.email].ops| {
      s' := s;
      ReachesItself(s);
    } else {
      OneStep(s, PushOp);
      s' := PushesThrough(Next(s, PushOp));
      ReachesOn(s, Next(s, PushOp), s');
    }
  }

  /** What is left of a pass nobody interferes with: the queue holds exactly the users still to come, as snapshotted. */
  predicate Undisturbed(s: State) {
    && s.pass.Pushing? && s.desk.pending.Keys == s.pass.todo && s.pass.todo <= s.pass.snap.Keys
    && forall e :: e in s.pass.todo ==> s.desk.pending[e] == s.pass.snap[e]
  }

  lemma VisitUser(s: State, email: string) returns (s': State)
    requires Undisturbed(s) && email in s.pass.todo
    ensures Reaches(s, s') && Undisturbed(s') && s'.pass == Pushing(s.pass.snap, s.pass.todo - {email})
  {
    hide Reaches, Ran;
    OneStep(s, Choose(email));
    var chosen := Next(s, Choose(email));
    var pushed := PushesThrough(chosen);
    ReachesOn(s, chosen, pushed);
    OneStep(pushed, Settle(true));
    s' := Next(pushed, Settle(true));
    ReachesOn(s, pushed, s');
  }

  lemma {:induction false} VisitAll(s: State) returns (s': State)
    requires s.pass.Pushing? && Undisturbed(s)
    ensures Reaches(s, s') && Undisturbed(s') && s'.pass.todo == {}
    decreases |s.pass.todo|
  {
    hide Reaches, Undisturbed;
    if s.pass.todo == {} {
      s' := s;
      ReachesItself(s);
    } else {
      var email :| email in s.pass.todo;
      var visited := VisitUser(s, email) by { assert Undisturbed(s); }
      s' := VisitAll(visited);
      ReachesOn(s, visited, s');
    }
  }

  /** From an idle state a pass in which nothing fails empties the queue. */
  lemma CleanPassDrains(s: State) returns (s': State)
    requires s.pass == Idle
    ensures Reaches(s, s') && s'.pass == Idle && s'.desk.pending == map[]
  {
    hide Reaches, RenderedFile;
    if s.desk.pending == map[] {
      s' := s;
      ReachesItself(s);
    } else {
      var started := Next(s, Start);
      OneStep(s, Start);
      var rendered := Next(started, Render(true));
      OneStep(started, Render(true));
      ReachesOn(s, started, rendered);
      assert Undisturbed(rendered);
      var visited := VisitAll(rendered);
      ReachesOn(s, rendered, visited);
      OneStep(visited, Finish);
      s' := Next(visited, Finish);
      ReachesOn(s, visited, s');
    }
  }

  /** So however a run went, one clean pass brings every user's file entries and live credentials to what is stored. */
  lemma CleanPassSettlesEverybody(steps: seq<Step>) returns (more: seq<Step>)
    requires Ran(FRESH, steps).Some? && Ran(FRESH, steps).value.pass == Idle
    ensures Ran(FRESH, steps + more).Some?
    ensures var s := Ran(FRESH, steps + more).value;
            forall e: string :: Of(s.live, e) == Wanted(s.desk.tables, e) && Of(s.file, e) == Wanted(s.desk.tables, e)
  {
    hide Ran, Wanted;
    var s := Ran(FRESH, steps).value;
    var s' := CleanPassDrains(s);
    more :| Ran(s, more) == Some(s') && Passing(more);
    RanOn(FRESH, steps, more);
    forall e: string
      ensures Of(s'.live, e) == Wanted(s'.desk.tables, e) && Of(s'.file, e) == Wanted(s'.desk.tables, e)
    {
      SettledUsersHoldTheirRow(steps + more, e);
    }
  }
}
