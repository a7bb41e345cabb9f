/** The write path as a state machine: the store and the queue, the file, the running xray, and one apply pass. */
module RosterMachine {
  import opened Options
  import opened RosterPlan
  import opened RosterSafety
  import U = UserStore

  /** A stored change that is not applied yet. */
  datatype Change = Change(id: string, ops: seq<Op>, gen: nat, purge: bool)

  /** What the service itself holds, with the tables behind it. */
  datatype Desk = Desk(tables: U.Tables, pending: map<string, Change>, failed: set<string>, nextGen: nat)

  // ----- The queue

  function PendingOps(desk: Desk, email: string): seq<Op> {
    if email in desk.pending then desk.pending[email].ops else []
  }

  function Taken(desk: Desk, email: string): Desk { desk.(pending := desk.pending - {email}) }

  function Enqueued(desk: Desk, email: string, id: string, ops: seq<Op>, purge: bool): Desk {
    desk.(nextGen := desk.nextGen + 1,
          pending := desk.pending[email := Change(id, ops, desk.nextGen + 1, purge)],
          failed := desk.failed - {email})
  }

  predicate Superseded(desk: Desk, email: string, gen: nat) { email !in desk.pending || desk.pending[email].gen != gen }

  // ----- Mutations

  function RecordAt(t: U.Tables, email: string): Record
    requires email in t.roster
  {
    Record(t.roster[email].clientId, t.roster[email].inbounds)
  }

  /** What a mutation carries besides its subject: the resolved flows, the dashboard labels, the clock. */
  datatype Context = Context(flows: map<string, string>, labels: seq<U.Label>, now: int)

  function AddTo(desk: Desk, email: string, id: string, tags: seq<string>, x: Context): Desk {
    var stored := desk.(tables := U.Added(desk.tables, email, id, tags, x.labels, x.now));
    if tags == [] then stored else Enqueued(stored, email, id, AttachOps(tags, x.flows), false)
  }

  function EditedRecord(t: U.Tables, email: string, newId: Option<string>, tags: seq<string>): Record
    requires email in t.roster
  {
    Record(if newId.Some? then newId.value else t.roster[email].clientId, tags)
  }

  function EditPlan(desk: Desk, email: string, held: seq<string>, newId: Option<string>, tags: seq<string>,
                    x: Context): seq<Op>
    requires email in desk.tables.roster
  {
    var before := Record(desk.tables.roster[email].clientId, held);
    DiffOps(before, EditedRecord(desk.tables, email, newId, tags), x.flows, PendingOps(desk, email))
  }

  /** An edit planned against the tags the configuration still carries. */
  function EditFrom(desk: Desk, email: string, held: seq<string>, newId: Option<string>, tags: seq<string>,
                    x: Context): Desk
    requires email in desk.tables.roster
  {
    var after, ops := EditedRecord(desk.tables, email, newId, tags), EditPlan(desk, email, held, newId, tags, x);
    var stored := Taken(desk, email).(tables := U.Edited(desk.tables, email, after.id, tags, x.labels, x.now));
    if ops == [] then stored else Enqueued(stored, email, after.id, ops, false)
  }

  function EditIn(desk: Desk, email: string, newId: Option<string>, tags: seq<string>, x: Context): Desk
    requires email in desk.tables.roster
  {
    EditFrom(desk, email, desk.tables.roster[email].inbounds, newId, tags, x)
  }

  /** The pending change is taken before the store is asked: when the mark fails, it is gone. */
  function DeleteFrom(desk: Desk, email: string, now: int, commits: bool): Desk
    requires email in desk.tables.roster
  {
    var rec := RecordAt(desk.tables, email);
    if !commits then Taken(desk, email)
    else
      Enqueued(Taken(desk, email).(tables := U.MarkedDeleting(desk.tables, email, now)), email, rec.id,
               DetachOps(TouchedTags(rec.tags, PendingOps(desk, email))), true)
  }

  function DisableIn(desk: Desk, email: string, now: int, commits: bool): Desk
    requires email in desk.tables.roster
  {
    var rec := RecordAt(desk.tables, email);
    var tags := JoinedTags(rec.tags, PendingOps(desk, email));
    if !commits then Taken(desk, email)
    else
      var stored := Taken(desk, email).(tables := U.Disabled(desk.tables, email, now));
      if tags == [] then stored else Enqueued(stored, email, rec.id, DetachOps(tags), false)
  }

  /** An enable keeps the attachments the configuration still carries; pruning the others is a second write. */
  function EnableFrom(desk: Desk, email: string, kept: seq<string>, x: Context, relabels: bool): Desk
    requires email in desk.tables.roster
  {
    var rec := RecordAt(desk.tables, email);
    var enabled := desk.(tables := U.Enabled(desk.tables, email, x.now));
    if kept != rec.tags && !relabels then enabled
    else
      var stored := if kept == rec.tags then enabled else enabled.(tables := U.Edited(enabled.tables, email, rec.id, kept, x.labels, x.now));
      if kept == [] then stored else Enqueued(stored, email, rec.id, AttachOps(kept, x.flows), false)
  }

  function EnableIn(desk: Desk, email: string, x: Context): Desk
    requires email in desk.tables.roster
  {
    EnableFrom(desk, email, desk.tables.roster[email].inbounds, x, true)
  }

  /** The listed attachments a file lost, in order. */
  function Lacking(tags: seq<string>, there: set<string>): seq<string> {
    if tags == [] then []
    else Lacking(tags[..|tags| - 1], there) + if tags[|tags| - 1] in there then [] else [tags[|tags| - 1]]
  }

  /** Convergence lists the rows that are live. */
  function Listed(t: U.Tables): map<string, Record> { map e | e in t.roster && U.LiveRow(t, e) :: RecordAt(t, e) }

  /** And queues the record as it was listed, whatever is queued by then. */
  function Requeued(desk: Desk, email: string, id: string, tags: seq<string>, x: Context): Desk {
    Enqueued(desk, email, id, AttachOps(tags, x.flows), false)
  }

  /** The rows awaiting their purge are queued again, one after the other. */
  function Recovered(desk: Desk, emails: seq<string>): (after: Desk)
    requires forall e :: e in emails ==> e in desk.tables.roster
    ensures after.tables == desk.tables
  {
    if emails == [] then desk
    else
      var last := emails[|emails| - 1];
      var rec := RecordAt(desk.tables, last);
      Enqueued(Recovered(desk, emails[..|emails| - 1]), last, rec.id, DetachOps(rec.tags), true)
  }

  // ----- What a pass does to the queue

  /** A failed render fails every change of the snapshot that was not replaced meanwhile. */
  function RenderFailed(desk: Desk, snap: map<string, Change>): Desk {
    desk.(failed := desk.failed + set e | e in snap && !Superseded(desk, e, snap[e].gen))
  }

  function PushFailed(desk: Desk, email: string, change: Change): Desk {
    if Superseded(desk, email, change.gen) then desk else desk.(failed := desk.failed + {email})
  }

  /** A pushed change leaves the queue; a delete's then purges, or stays queued when the purge cannot be written. */
  function Settled(desk: Desk, email: string, change: Change, commits: bool): Desk {
    if Superseded(desk, email, change.gen) then desk
    else
      var left := desk.(pending := desk.pending - {email}, failed := desk.failed - {email});
      if !change.purge then left
      else if commits then left.(tables := U.Purged(desk.tables, email))
      else left.(pending := desk.pending[email := Change(change.id, [], change.gen, true)], failed := desk.failed + {email})
  }

  // ----- The machine

  /** Where the apply loop stands: it converges and applies, one at a time. */
  datatype Pass =
    | Idle
    | Converging(listed: map<string, Record>)
    | Checked(listed: map<string, Record>, email: string, id: string, tags: seq<string>, x: Context, confirmed: bool)
    | Rendering(snap: map<string, Change>)
    | Pushing(snap: map<string, Change>, todo: set<string>)
    | AtUser(snap: map<string, Change>, todo: set<string>, email: string, done: nat, half: bool)

  datatype State = State(desk: Desk, file: map<string, Live>, live: map<string, Live>, pass: Pass, recovered: bool)

  datatype Step =
    | Add(email: string, id: string, tags: seq<string>, found: Option<string>, x: Context)
    | Edit(email: string, newId: Option<string>, tags: seq<string>, x: Context)
    | Delete(email: string, now: int, commits: bool)
    | Disable(email: string, now: int, commits: bool)
    | Enable(email: string, x: Context)
    | List
    | Check(email: string, there: set<string>, x: Context)
    | Overlook(email: string)
    | Confirm(answered: bool)
    | Requeue
    | EndConverge
    | Restart
    | RestartXray
    | Recover(emails: seq<string>)
    | Start
    | Render(ok: bool)
    | Choose(email: string)
    | Skip(email: string)
    | PushOp
    | HalfPush
    | FailPush
    | Settle(commits: bool)
    | Finish

  function Of(m: map<string, Live>, email: string): Live { if email in m then m[email] else map[] }

  predicate Mutates(step: Step) { step.Add? || step.Edit? || step.Delete? || step.Disable? || step.Enable? }

  /** The mutations that are not refused, and have something to do. */
  ghost predicate MutationPossible(t: U.Tables, step: Step)
    requires Mutates(step)
  {
    match step
    case Add(email, id, _, found, _) => U.Finds(t, id, found) && U.AddAnswer(t, email, id, found).Stored?
    case Edit(email, newId, _, _) => U.LiveRow(t, email) && (newId.Some? ==> !U.HeldByOther(t, email, newId.value))
    case Delete(email, _, _) => email in t.roster && !t.roster[email].deleting
    case Disable(email, _, _) => U.LiveRow(t, email)
    case Enable(email, _) => U.DisabledRow(t, email)
  }

  predicate AtOp(p: Pass) { p.AtUser? && p.email in p.snap && p.done < |p.snap[p.email].ops| }

  predicate Visits(s: State, email: string, superseded: bool) {
    && s.pass.Pushing? && email in s.pass.todo && email in s.pass.snap
    && Superseded(s.desk, email, s.pass.snap[email].gen) == superseded
  }

  ghost predicate Possible(s: State, step: Step) {
    var t := s.desk.tables;
    if Mutates(step) then MutationPossible(t, step)
    else
      match step
      case List => s.pass == Idle
      case Check(email, there, _) =>
        && s.pass.Converging? && email in s.pass.listed && email !in s.desk.pending
        && Lacking(s.pass.listed[email].tags, there) != []
      case Overlook(email) => s.pass.Converging? && email in s.pass.listed
      case Confirm(_) => s.pass.Checked? && !s.pass.confirmed
      case Requeue => s.pass.Checked? && s.pass.confirmed
      case EndConverge => s.pass == Converging(map[])
      case Recover(emails) => s.pass == Idle && forall e :: e in emails <==> U.DeletingRow(t, e)
      case Start => s.pass == Idle && s.desk.pending != map[]
      case Render(_) => s.pass.Rendering?
      case Choose(email) => Visits(s, email, false)
      case Skip(email) => Visits(s, email, true)
      case PushOp => AtOp(s.pass)
      case HalfPush => AtOp(s.pass) && !s.pass.half && s.pass.snap[s.pass.email].ops[s.pass.done].kind == Rotate
      case FailPush => s.pass.AtUser? && s.pass.email in s.pass.snap && s.pass.done <= |s.pass.snap[s.pass.email].ops| != 0
      case Settle(_) => s.pass.AtUser? && s.pass.email in s.pass.snap && s.pass.done == |s.pass.snap[s.pass.email].ops|
      case Finish => s.pass.Pushing? && s.pass.todo == {}
      case _ => true
  }

  ghost function MutatedDesk(desk: Desk, step: Step): Desk
    requires Mutates(step) && MutationPossible(desk.tables, step)
  {
    match step
    case Add(email, id, tags, _, x) => AddTo(desk, email, id, tags, x)
    case Edit(email, newId, tags, x) => EditIn(desk, email, newId, tags, x)
    case Delete(email, now, commits) => DeleteFrom(desk, email, now, commits)
    case Disable(email, now, commits) => DisableIn(desk, email, now, commits)
    case Enable(email, x) => EnableIn(desk, email, x)
  }

  /** The file after a successful render of the snapshot: the operations of every change, whole. */
  function RenderedFile(file: map<string, Live>, snap: map<string, Change>): map<string, Live> {
    map e | e in file.Keys + snap.Keys :: if e in snap then PushAll(Of(file, e), snap[e].id, snap[e].ops) else file[e]
  }

  /** The second half of a rotate only adds. */
  function PushedLive(live: Live, change: Change, done: nat, half: bool): Live
    requires done < |change.ops|
  {
    var op := change.ops[done];
    if half then AddUser(live, op.tag, change.id) else Push(live, change.id, op)
  }

  ghost function Next(s: State, step: Step): State
    requires Possible(s, step)
  {
    var p := s.pass;
    if Mutates(step) then s.(desk := MutatedDesk(s.desk, step))
    else
      match step
      case List => s.(pass := Converging(Listed(s.desk.tables)))
      case Check(email, there, x) =>
        s.(pass := Checked(p.listed - {email}, email, p.listed[email].id, Lacking(p.listed[email].tags, there), x, false))
      case Overlook(email) => s.(pass := Converging(p.listed - {email}))
      case Confirm(answered) =>
        s.(pass := if answered && !U.LiveRow(s.desk.tables, p.email) then Converging(p.listed) else p.(confirmed := true))
      case Requeue => s.(desk := Requeued(s.desk, p.email, p.id, p.tags, p.x), pass := Converging(p.listed))
      case EndConverge => s.(pass := Idle)
      case Restart => State(Desk(s.desk.tables, map[], {}, 0), s.file, s.live, Idle, false)
      case RestartXray => s.(live := s.file)
      case Recover(emails) => s.(desk := Recovered(s.desk, emails), recovered := true)
      case Start => s.(pass := Rendering(s.desk.pending))
      case Render(ok) =>
        if ok then s.(file := RenderedFile(s.file, p.snap), pass := Pushing(p.snap, p.snap.Keys))
        else s.(desk := RenderFailed(s.desk, p.snap), pass := Idle)
      case Choose(email) => s.(pass := AtUser(p.snap, p.todo - {email}, email, 0, false))
      case Skip(email) => s.(pass := Pushing(p.snap, p.todo - {email}))
      case PushOp =>
        s.(live := s.live[p.email := PushedLive(Of(s.live, p.email), p.snap[p.email], p.done, p.half)],
           pass := AtUser(p.snap, p.todo, p.email, p.done + 1, false))
      case HalfPush =>
        s.(live := s.live[p.email := RemoveUser(Of(s.live, p.email), p.snap[p.email].ops[p.done].tag)],
           pass := AtUser(p.snap, p.todo, p.email, p.done, true))
      case FailPush => s.(desk := PushFailed(s.desk, p.email, p.snap[p.email]), pass := Pushing(p.snap, p.todo))
      case Settle(commits) => s.(desk := Settled(s.desk, p.email, p.snap[p.email], commits), pass := Pushing(p.snap, p.todo))
      case Finish => s.(pass := Idle)
      case _ => s
  }
}
