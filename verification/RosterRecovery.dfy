/** A restart forgets the queue: what its recovery of interrupted deletes is for, and what is lost without it. */
module RosterRecovery {
  import opened Options
  import opened RosterGenerations
  import opened RosterMachine
  import opened RosterPlan
  import opened RosterProgress
  import opened RosterPurges
  import opened RosterRuns
  import U = UserStore

  // ----- Without a recovery

  predicate DeletingIsDisabled(t: U.Tables, email: string) {
    email in t.roster && t.roster[email].deleting ==> t.roster[email].disabled
  }

  lemma FlagsKept(s: State, step: Step, email: string)
    requires Possible(s, step) && DeletingIsDisabled(s.desk.tables, email)
    ensures DeletingIsDisabled(Next(s, step).desk.tables, email)
  {
    hide Possible, Next;
    if Mutates(step) {
      MutationFlags(s, step, email);
    } else if PassStep(step) {
      PassDesk(s, step);
    } else {
      OtherFlags(s, step);
    }
  }

  lemma MutationFlags(s: State, step: Step, email: string)
    requires Mutates(step) && Possible(s, step) && DeletingIsDisabled(s.desk.tables, email)
    ensures DeletingIsDisabled(Next(s, step).desk.tables, email)
  {
    hide DiffOps, DetachOps, TouchedTags, AttachOps, JoinedTags;
  }

  lemma OtherFlags(s: State, step: Step)
    requires !Mutates(step) && !PassStep(step) && Possible(s, step)
    ensures Next(s, step).desk.tables == s.desk.tables
  {
    hide Recovered, AttachOps, Lacking, Listed;
  }

  lemma {:induction false} RunsKeepFlags(steps: seq<Step>, email: string)
    requires RanAny(FRESH, steps).Some?
    ensures DeletingIsDisabled(RanAny(FRESH, steps).value.desk.tables, email)
  {
    hide Possible, Next;
    if steps != [] {
      RunsKeepFlags(steps[..|steps| - 1], email);
      FlagsKept(RanAny(FRESH, steps[..|steps| - 1]).value, steps[|steps| - 1], email);
    }
  }

  predicate Listing(p: Pass, email: string) {
    ((p.Converging? || p.Checked?) && email in p.listed) || (p.Checked? && email == p.email)
  }

  /** The row is marked deleting, and neither queue nor pass nor convergence knows of it. */
  predicate Stranded(s: State, email: string, row: U.RosterRow) {
    && email in s.desk.tables.roster && s.desk.tables.roster[email] == row && row.deleting && row.disabled
    && email !in s.desk.pending && email !in Snap(s.pass) && !Listing(s.pass, email)
  }

  lemma StaysStranded(s: State, step: Step, email: string, row: U.RosterRow)
    requires Stranded(s, email, row) && Possible(s, step) && !step.Recover?
    ensures Stranded(Next(s, step), email, row)
  {
    hide Possible, Next, Snap, Listing;
    if Mutates(step) {
      StrandedMutation(s, step, email);
    } else if PassStep(step) {
      PassDesk(s, step);
      PassLists(s, step, email);
      PassErasesItsOwn(s, step, email);
    } else {
      StrandedElse(s, step, email, row);
    }
  }

  /** No mutation is possible on such a row. */
  lemma StrandedMutation(s: State, step: Step, email: string)
    requires Mutates(step) && Possible(s, step) && U.DeletingRow(s.desk.tables, email) && s.desk.tables.roster[email].disabled
    ensures step.email != email
    ensures var after := Next(s, step);
            && after.pass == s.pass && email in after.desk.tables.roster
            && after.desk.tables.roster[email] == s.desk.tables.roster[email]
            && (email in after.desk.pending <==> email in s.desk.pending)
  {
    hide DiffOps, DetachOps, TouchedTags, AttachOps, JoinedTags;
  }

  lemma PassLists(s: State, step: Step, email: string)
    requires PassStep(step) && Possible(s, step)
    ensures !Listing(Next(s, step).pass, email)
  {
    hide PushAll, Push, RenderFailed, PushFailed, Settled, RenderedFile, MutatedDesk, MutationPossible, Listed, Lacking;
  }

  lemma PassErasesItsOwn(s: State, step: Step, email: string)
    requires PassStep(step) && Possible(s, step)
    requires email in s.desk.tables.roster && (email !in s.desk.pending || email !in Snap(s.pass))
    ensures var t := Next(s, step).desk.tables; email in t.roster && t.roster[email] == s.desk.tables.roster[email]
    ensures email !in s.desk.pending ==> email !in Next(s, step).desk.pending
  {
    hide Possible, Next;
    PassDesk(s, step);
  }

  lemma StrandedElse(s: State, step: Step, email: string, row: U.RosterRow)
    requires Stranded(s, email, row) && !Mutates(step) && !PassStep(step) && !step.Recover? && Possible(s, step)
    ensures Stranded(Next(s, step), email, row)
  {
    hide AttachOps, Lacking, MutatedDesk, MutationPossible;
  }

  lemma {:induction false} RunsStayStranded(s: State, steps: seq<Step>, email: string, row: U.RosterRow)
    requires Stranded(s, email, row) && RanAny(s, steps).Some? && forall i :: 0 <= i < |steps| ==> !steps[i].Recover?
    ensures Stranded(RanAny(s, steps).value, email, row)
  {
    hide Possible, Next, Stranded;
    if steps != [] {
      RunsStayStranded(s, steps[..|steps| - 1], email, row);
      StaysStranded(RanAny(s, steps[..|steps| - 1]).value, steps[|steps| - 1], email, row);
    }
  }

  /** After a restart whose recovery fails, whatever else happens: no deleting row is ever queued again, none is erased. */
  lemma WithoutRecoveryNothingIsPurged(before: seq<Step>, more: seq<Step>, email: string)
    requires RanAny(FRESH, before).Some? && U.DeletingRow(RanAny(FRESH, before).value.desk.tables, email)
    requires RanAny(FRESH, before + [Restart] + more).Some? && forall i :: 0 <= i < |more| ==> !more[i].Recover?
    ensures var s := RanAny(FRESH, before + [Restart] + more).value;
            && email !in s.desk.pending && email in s.desk.tables.roster
            && s.desk.tables.roster[email] == RanAny(FRESH, before).value.desk.tables.roster[email]
  {
    hide RanAny;
    RunsKeepFlags(before, email);
    var s := RanAny(FRESH, before).value;
    RanRestart(s);
    RanAnyOn(FRESH, before, [Restart]);
    RanAnyOn(FRESH, before + [Restart], more);
    RunsStayStranded(Next(s, Restart), more, email, s.desk.tables.roster[email]);
  }

  lemma RanRestart(s: State)
    ensures RanAny(s, [Restart]) == Some(Next(s, Restart))
  {
    assert [Restart][..0] == [] && RanAny(s, []) == Some(s);
  }

  // ----- With it

  lemma {:induction false} CarefulIsAny(s: State, steps: seq<Step>)
    requires Ran(s, steps).Some?
    ensures RanAny(s, steps) == Ran(s, steps)
  {
    hide Possible, Next, Careful;
    if steps != [] {
      CarefulIsAny(s, steps[..|steps| - 1]);
    }
  }

  /** A row of a user the recovery queued, over the passes that follow: as it was, until it is erased. */
  predicate Doomed(s: State, email: string, row: U.RosterRow) {
    QueueOk(s, email) && s.recovered && (email in s.desk.tables.roster ==> s.desk.tables.roster[email] == row)
  }

  lemma StaysDoomed(s: State, step: Step, email: string, row: U.RosterRow)
    requires Doomed(s, email, row) && Possible(s, step) && (PassStep(step) || step.Start?)
    ensures Doomed(Next(s, step), email, row)
  {
    hide Possible, Next, QueueOk;
    if PassStep(step) {
      PassQueue(s, step, email);
      PassDesk(s, step);
    } else {
      OtherQueue(s, step, email);
      StartsWith(s);
    }
  }

  lemma StartsWith(s: State)
    requires Possible(s, Start)
    ensures Next(s, Start).desk == s.desk && Next(s, Start).recovered == s.recovered
  {}

  lemma {:induction false} RunsStayDoomed(s: State, steps: seq<Step>, email: string, row: U.RosterRow)
    requires Doomed(s, email, row) && RanAny(s, steps).Some? && Passing(steps)
    ensures Doomed(RanAny(s, steps).value, email, row)
  {
    hide Possible, Next, Doomed;
    if steps != [] {
      RunsStayDoomed(s, steps[..|steps| - 1], email, row);
      StaysDoomed(RanAny(s, steps[..|steps| - 1]).value, steps[|steps| - 1], email, row);
    }
  }

  lemma RecoveryDooms(s: State, emails: seq<string>, email: string)
    requires Possible(s, Recover(emails)) && email in emails
    ensures Doomed(Next(s, Recover(emails)), email, s.desk.tables.roster[email])
  {
    hide Recovered, DetachOps;
    RecoveredAt(s.desk, emails, email);
  }

  /** A recovery and one pass in which nothing fails erase every row marked deleting. */
  lemma RecoveryErases(s: State, emails: seq<string>) returns (pass: seq<Step>)
    requires Possible(s, Recover(emails))
    ensures Passing(pass) && RanAny(s, [Recover(emails)] + pass).Some?
    ensures var after := RanAny(s, [Recover(emails)] + pass).value;
            forall e :: U.DeletingRow(s.desk.tables, e) ==> e !in after.desk.tables.roster && e !in after.desk.pending
  {
    hide Possible, Recovered, Doomed, RanAny;
    var recovered := Next(s, Recover(emails));
    RecoverIdle(s, emails);
    var after := CleanPassDrains(recovered);
    pass :| Ran(recovered, pass) == Some(after) && Passing(pass);
    CarefulIsAny(recovered, pass);
    RanAnyOn(s, [Recover(emails)], pass);
    forall e | U.DeletingRow(s.desk.tables, e)
      ensures e !in after.desk.tables.roster
    {
      RecoveryDooms(s, emails, e);
      RunsStayDoomed(recovered, pass, e, s.desk.tables.roster[e]);
      DrainedIsGone(after, e, s.desk.tables.roster[e]);
    }
  }

  lemma RecoverIdle(s: State, emails: seq<string>)
    requires Possible(s, Recover(emails))
    ensures Next(s, Recover(emails)).pass == Idle && forall e :: U.DeletingRow(s.desk.tables, e) ==> e in emails
    ensures RanAny(s, [Recover(emails)]) == Some(Next(s, Recover(emails)))
  {
    hide Recovered;
    assert [Recover(emails)][..0] == [] && RanAny(s, []) == Some(s);
  }

  lemma DrainedIsGone(s: State, email: string, row: U.RosterRow)
    requires Doomed(s, email, row) && row.deleting && s.desk.pending == map[]
    ensures email !in s.desk.tables.roster
  {}
}
