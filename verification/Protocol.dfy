// All roles over one ledger, interleaved at every write. A role's load, decision and first persisted
// write are one atomic step; everything it still has to do after that waits in a thread whose items
// run one by one between the steps of the other roles, and a crash may drop the rest of a thread at
// any point. A step that is not possible in a state leaves it as it is, so a run is any sequence of
// steps whatever.
module Protocol {
  import opened Ids
  import opened Time
  import opened Ledger
  import T = Task
  import Runs = TaskRuns
  import V = Verifier
  import Transition

  datatype Todo = Do(write: Write) | Run(effect: T.Effect)

  /** The one Verifier: idle, or running commands on the head it loaded, with the commands it listed. */
  datatype Checking = NoCheck | Checking(task: BeadId, head: Sha, commands: seq<string>)

  /** The one Integrator: idle, or landing the head it loaded. `moved` is main before and after the
      fast-forward. */
  datatype Landing =
    | NoLanding
    | Landing(mergeBead: BeadId, task: BeadId, branch: Branch, head: Sha, moved: Option<(Sha, Sha)>)

  /** A finished verify run. */
  datatype Proof = Proof(task: BeadId, head: Sha, commands: seq<string>, results: seq<V.RunResult>)

  /** `listed` is what the Verifier's pass read off the verify beads when it began. `proofs` and `merged` are
      history: the verify runs that ended, the `Merged` events persisted. */
  datatype Sys = Sys(
    store: Store,
    main: Sha,
    threads: seq<seq<Todo>>,
    picked: set<BeadId>,
    claimed: set<BeadId>,
    listed: map<BeadId, VerifyMeta>,
    checking: Checking,
    landing: Landing,
    proofs: set<Proof>,
    merged: multiset<BeadId>)

  datatype Step =
    | Pick(id: BeadId)
    | TakeClaim(id: BeadId)
    | ClaimLease(id: BeadId, holder: AgentId, now: Timestamp, ttl: Duration)
    | Work(id: BeadId, event: T.Event)
    | Reap(id: BeadId, now: Timestamp)
    | EscalateTask(id: BeadId, reason: T.IncidentReason)
    | Repair(id: BeadId, branch: Branch, head: Sha)
    | CancelTask(id: BeadId, actor: string)
    | RetryTask(id: BeadId, note: string)
    | HandClose(id: BeadId)
    | PlanBead(bead: NewBead)
    | PlanVerify(id: BeadId, verify: VerifyMeta)
    | PlanNeeds(id: BeadId, blocker: BeadId)
    | WriteNote(id: BeadId, text: string)
    | CheckList
    | CheckStart(verifyBead: BeadId, prepare: seq<string>)
    | CheckEnd(results: seq<V.RunResult>)
    | CheckAbort
    | LandStart(mergeBead: BeadId)
    | RemoteAhead(to: Sha)
    | LandMove(to: Sha)
    | LandRollback
    | LandDone
    | LandRejected(detail: string)
    | LandAbort
    | Progress(thread: nat)
    | Crash(thread: nat)

  // ---- steps ------------------------------------------------------------------------------------------

  function Effects(effects: seq<T.Effect>): seq<Todo> {
    seq(|effects|, i requires 0 <= i < |effects| => Run(effects[i]))
  }

  function Writes(writes: seq<Write>): seq<Todo> {
    seq(|writes|, i requires 0 <= i < |writes| => Do(writes[i]))
  }

  /** Load `id`, apply `event`, persist: one step. The rest of the workflow, and `after` it, waits. */
  function Fire(s: Sys, id: BeadId, event: T.Event, after: seq<Todo>): Sys {
    if !s.store.IsTask(id) || s.store.TaskOf(id).Apply(event).Refused? then s
    else
      var was := s.store.TaskOf(id);
      var Accepted(now, effects) := was.Apply(event);
      var unclaim := if now.state.Open? && !was.state.Open? then [Do(Unclaim(id))] else [];
      s.(store := s.store.With(id, s.store.beads[id].(meta := Some(MetaOf(now)))),
         threads := s.threads + [unclaim + Effects(effects) + after],
         merged := if event.Merged? then s.merged + multiset{id} else s.merged)
  }

  function DoWrite(s: Sys, w: Write): Sys {
    match Written(s.store, w)
    case Some(next) => s.(store := next)
    case None => s
  }

  predicate IsWorkerEvent(e: T.Event) {
    e.Heartbeat? || e.Submit? || e.Release? || e.ProviderStopped?
  }

  /** A bead the Planner may create: a task is fresh and names an existing verify bead. */
  predicate Plannable(s: Store, bead: NewBead) {
    if bead.kind.Task?
    then
      && bead.meta.Some? && Runs.IsFresh(bead.meta.value.IntoTask(s.next))
      && bead.meta.value.verifyBead in s.beads && s.beads[bead.meta.value.verifyBead].kind == Some(Verify)
    else bead.meta.None?
  }

  function Advance(s: Sys, i: nat): Sys
    requires i < |s.threads| && s.threads[i] != []
  {
    var rest := s.threads[i][1..];
    match s.threads[i][0]
    case Do(w) =>
      if Written(s.store, w).Some? then DoWrite(s, w).(threads := s.threads[i := rest])
      else s.(threads := s.threads[i := []])
    case Run(effect) => s.(threads := s.threads[i := Writes(Transition.EffectWrites(s.store, effect)) + rest])
  }

  /** The Integrator looks at one merge bead: a stale one is closed, a matching one starts to land. */
  function StartLanding(s: Sys, mb: BeadId): Sys {
    if mb !in s.store.beads || s.store.beads[mb].kind != Some(Merge) || s.store.beads[mb].merge.None? then s
    else
      var meta := s.store.beads[mb].merge.value;
      if meta.task !in s.store.beads then s
      else if s.store.beads[meta.task].status.Closed? then s.(threads := s.threads + [[Do(Close(mb))]])
      else if !s.store.IsTask(meta.task) then s
      else if s.store.StateOf(meta.task) != T.Mergeable(meta.branch, meta.head)
      then s.(threads := s.threads + [[Do(Close(mb))]])
      else s.(landing := Landing(mb, meta.task, meta.branch, meta.head, None))
  }

  /** The verify data of all active verify beads. */
  function VerifyListing(s: Store): map<BeadId, VerifyMeta> {
    map vb | vb in s.beads && s.IsActive(vb, Verify) && s.beads[vb].verify.Some? :: s.beads[vb].verify.value
  }

  function Next(s: Sys, step: Step): Sys {
    match step
    case Pick(id) =>
      if s.store.IsReady(id, Task) && s.store.IsTask(id) && s.store.StateOf(id).Open?
      then s.(picked := s.picked + {id}) else s
    case TakeClaim(id) =>
      if id in s.picked && id in s.store.beads && !s.store.beads[id].status.InProgress?
      then s.(store := Claimed(s.store, id), claimed := s.claimed + {id}) else s
    case ClaimLease(id, holder, now, ttl) =>
      if id in s.claimed then Fire(s, id, T.Claim(holder, now, ttl), []) else s
    case Work(id, event) => if IsWorkerEvent(event) then Fire(s, id, event, []) else s
    case Reap(id, now) => Fire(s, id, T.LeaseExpired(now), [])
    case EscalateTask(id, reason) => Fire(s, id, T.Escalate(reason), [])
    case Repair(id, branch, head) => DoWrite(s, Create(Transition.MergeBead(id, branch, head)))
    case CancelTask(id, actor) => Fire(s, id, T.Cancel(actor), [])
    case RetryTask(id, note) => Fire(s, id, T.OperatorRetry(note), [])
    case HandClose(id) => DoWrite(s, Close(id))
    case PlanBead(bead) => if Plannable(s.store, bead) then DoWrite(s, Create(bead)) else s
    case PlanVerify(id, verify) =>
      if id in s.store.beads && s.store.beads[id].kind == Some(Verify) then DoWrite(s, SetVerify(id, verify)) else s
    case PlanNeeds(id, blocker) =>
      if id in s.store.beads && s.store.beads[id].kind == Some(Verify) then DoWrite(s, AddNeeds(id, blocker)) else s
    case WriteNote(id, text) => DoWrite(s, Note(id, text))
    case CheckList => if s.checking.NoCheck? then s.(listed := VerifyListing(s.store)) else s
    case CheckStart(vb, prepare) =>
      if s.checking.NoCheck? && vb in s.listed then
        var meta := s.listed[vb];
        if s.store.IsTask(meta.task) && s.store.StateOf(meta.task).InVerify?
        then s.(checking := Checking(meta.task, s.store.StateOf(meta.task).head, prepare + meta.commands))
        else s
      else s
    case CheckEnd(results) =>
      if s.checking.Checking? && V.IsRunOf(s.checking.commands, results)
      then
        var c := s.checking;
        Fire(s.(checking := NoCheck, proofs := s.proofs + {Proof(c.task, c.head, c.commands, results)}),
             c.task, V.Verdict(c.commands, results), [])
      else s
    case CheckAbort => s.(checking := NoCheck)
    case LandStart(mb) => if s.landing.NoLanding? then StartLanding(s, mb) else s
    case RemoteAhead(to) =>
      if s.landing.Landing? && s.landing.moved.None? && Ancestor(s.main, to) then s.(main := to) else s
    case LandMove(to) =>
      if CanMove(s, to) then s.(main := to, landing := s.landing.(moved := Some((s.main, to)))) else s
    case LandRollback =>
      if s.landing.Landing? && s.landing.moved.Some? && s.main == s.landing.moved.value.1
      then s.(main := s.landing.moved.value.0, landing := NoLanding) else s
    case LandDone =>
      if s.landing.Landing? && s.landing.moved.Some?
      then Fire(s.(landing := NoLanding), s.landing.task, T.Merged(s.landing.moved.value.1),
                [Do(Close(s.landing.mergeBead))])
      else s
    case LandRejected(detail) =>
      if s.landing.Landing? && s.landing.moved.None?
      then Fire(s.(landing := NoLanding), s.landing.task, T.MergeFailed(detail), [Do(Close(s.landing.mergeBead))])
      else s
    case LandAbort => s.(landing := NoLanding)
    case Progress(i) => if i < |s.threads| && s.threads[i] != [] then Advance(s, i) else s
    case Crash(i) => if i < |s.threads| then s.(threads := s.threads[i := []]) else s
  }

  /** The Integrator can fast-forward main to `to` now. */
  predicate CanMove(s: Sys, to: Sha) {
    AboutToMove(s) && Ancestor(s.main, to)
  }

  /** A landing is in progress that has not moved main yet. */
  predicate AboutToMove(s: Sys) {
    s.landing.Landing? && s.landing.moved.None?
  }

  function Exec(s: Sys, steps: seq<Step>): Sys {
    if steps == [] then s
    else Next(Exec(s, steps[..|steps| - 1]), steps[|steps| - 1])
  }

  /** A ledger before the run: nothing in flight, every task naming a verify bead that is not a task. */
  ghost predicate Start(s: Sys) {
    && s.store.Valid() && VerifyBeadsApart(s.store)
    && s.threads == [] && s.picked == {} && s.claimed == {} && s.listed == map[]
    && s.checking.NoCheck? && s.landing.NoLanding?
    && s.proofs == {} && s.merged == multiset{}
  }

  // ---- how the ledger grows ----------------------------------------------------------------------------

  ghost predicate VerifyBeadsApart(s: Store) {
    forall t :: s.IsTask(t) ==>
      var v := s.beads[t].meta.value.verifyBead;
      v in s.beads && s.beads[v].kind != Some(Task)
  }

  /** Beads are never removed and keep their kind and merge data; a task keeps its verify bead and,
      once closed or canceled, its state. */
  ghost predicate Grows(a: Store, b: Store) {
    && a.next <= b.next && b.Valid()
    && forall x :: x in a.beads ==>
         && x in b.beads
         && b.beads[x].kind == a.beads[x].kind
         && b.beads[x].merge == a.beads[x].merge
         && (a.beads[x].meta.Some? ==>
              && b.beads[x].meta.Some?
              && b.beads[x].meta.value.verifyBead == a.beads[x].meta.value.verifyBead
              && (a.TaskAt(x).Terminal() ==> b.TaskAt(x).state == a.TaskAt(x).state))
  }
}
