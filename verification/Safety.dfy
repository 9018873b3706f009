// Safety of every run of the protocol: what the ledger keeps, when main moves, what was verified.
module Safety {
  import opened Ids
  import opened Ledger
  import opened Protocol
  import T = Task
  import Runs = TaskRuns
  import V = Verifier
  import Transition

  // ---- what may wait in a thread ---------------------------------------------------------------------

  /** Writes waiting in threads never touch task metadata or create tasks, and close a task bead only
      when the task is stored as closed. */
  predicate Fits(st: Store, w: Write) {
    match w
    case Close(x) => x in st.beads && (st.beads[x].kind == Some(Task) ==> st.IsTask(x) && st.StateOf(x).Closed?)
    case Create(bead) => bead.kind != Task && bead.meta.None?
    case Note(_, _) => true
    case Unclaim(_) => true
    case SetMeta(_, _) => false
    case SetVerify(_, _) => false
    case AddNeeds(_, _) => false
  }

  predicate FitsTodo(st: Store, todo: Todo) {
    match todo
    case Do(w) => Fits(st, w)
    case Run(CloseTaskBead(t)) => st.IsTask(t) && st.StateOf(t).Closed?
    case Run(CloseVerifyBead(v)) => v in st.beads && st.beads[v].kind != Some(Task)
    case Run(_) => true
  }

  ghost predicate AllFit(st: Store, thread: seq<Todo>) {
    forall todo :: todo in thread ==> FitsTodo(st, todo)
  }

  ghost predicate ThreadsFit(s: Sys) {
    forall thread :: thread in s.threads ==> AllFit(s.store, thread)
  }

  lemma FitsGrows(a: Store, b: Store, thread: seq<Todo>)
    requires Grows(a, b) && AllFit(a, thread)
    ensures AllFit(b, thread)
  {
    forall todo | todo in thread
      ensures FitsTodo(b, todo)
    {
      assert FitsTodo(a, todo);
    }
  }

  lemma {:induction false} MergeClosesFit(st: Store, listed: seq<BeadId>, task: BeadId)
    requires forall id :: id in listed ==> st.IsActive(id, Merge)
    ensures forall w :: w in Transition.MergeCloses(st, listed, task) ==> Fits(st, w)
  {
    if listed != [] {
      assert listed[0] in listed && forall id :: id in listed[1..] ==> id in listed;
      MergeClosesFit(st, listed[1..], task);
    }
  }

  lemma EffectWritesFit(st: Store, effect: T.Effect)
    requires st.Valid() && FitsTodo(st, Run(effect))
    ensures AllFit(st, Writes(Transition.EffectWrites(st, effect)))
  {
    if effect.CloseMergeBeads? {
      ListingIsExact(st, Merge);
      MergeClosesFit(st, Listing(st, Merge), effect.task);
    }
    var writes := Transition.EffectWrites(st, effect);
    forall w | w in writes
      ensures Fits(st, w)
    {
    }
    forall todo | todo in Writes(writes)
      ensures FitsTodo(st, todo)
    {
      var i :| 0 <= i < |writes| && Writes(writes)[i] == todo;
      assert writes[i] in writes && Fits(st, writes[i]);
    }
  }

  // ---- every step grows the ledger ---------------------------------------------------------------------

  lemma GrowsTransitive(a: Store, b: Store, c: Store)
    requires Grows(a, b) && Grows(b, c)
    ensures Grows(a, c)
  {
    forall x | x in a.beads
      ensures c.beads[x].kind == a.beads[x].kind && c.beads[x].merge == a.beads[x].merge
    {
      assert x in b.beads;
    }
  }

  lemma WriteGrows(st: Store, w: Write)
    requires st.Valid() && !w.SetMeta? && Written(st, w).Some?
    ensures Grows(st, Written(st, w).value)
  {
  }

  lemma WriteKeepsApart(st: Store, w: Write)
    requires st.Valid() && !w.SetMeta? && Written(st, w).Some? && VerifyBeadsApart(st)
    requires w.Create? ==> w.bead.meta.None? || Plannable(st, w.bead)
    ensures VerifyBeadsApart(Written(st, w).value)
  {
    hide Runs.IsFresh;
    var next := Written(st, w).value;
    forall t | next.IsTask(t)
      ensures var v := next.beads[t].meta.value.verifyBead;
              v in next.beads && next.beads[v].kind != Some(Task)
    {
      assert t in st.beads ==> st.IsTask(t);
    }
  }

  /** What an accepted event leaves alone, and what it promises about terminal states. */
  lemma ApplyKeeps(t: T.Task, event: T.Event)
    requires t.Apply(event).Accepted?
    ensures !t.Terminal()
    ensures t.Apply(event).task.id == t.id && t.Apply(event).task.verifyBead == t.verifyBead
    ensures event.Merged? <==> t.Apply(event).task.state.Closed?
    ensures forall e :: e in t.Apply(event).effects ==>
              && (e.CloseTaskBead? ==> e.task == t.id && event.Merged?)
              && (e.CloseVerifyBead? ==> e.verify == t.verifyBead)
  {
  }

  /** What a fired event does to the store: nothing, or new metadata for its own task only. */
  lemma FireGrows(s: Sys, id: BeadId, event: T.Event, after: seq<Todo>)
    requires s.store.Valid()
    ensures var next := Fire(s, id, event, after);
            && Grows(s.store, next.store)
            && next.store.needs == s.store.needs && next.store.next == s.store.next
            && next.store.beads.Keys == s.store.beads.Keys
            && forall x :: x in s.store.beads ==>
                 && next.store.beads[x].status == s.store.beads[x].status
                 && (x != id ==> next.store.beads[x] == s.store.beads[x])
  {
    hide T.Task.Apply;
    if s.store.IsTask(id) && s.store.TaskOf(id).Apply(event).Accepted? {
      ApplyKeeps(s.store.TaskOf(id), event);
    }
  }

  lemma FireKeepsApart(s: Sys, id: BeadId, event: T.Event, after: seq<Todo>)
    requires VerifyBeadsApart(s.store)
    ensures VerifyBeadsApart(Fire(s, id, event, after).store)
  {
    hide T.Task.Apply;
    if s.store.IsTask(id) && s.store.TaskOf(id).Apply(event).Accepted? {
      ApplyKeeps(s.store.TaskOf(id), event);
      var next := Fire(s, id, event, after).store;
      forall t | next.IsTask(t)
        ensures var v := next.beads[t].meta.value.verifyBead; v in next.beads && next.beads[v].kind != Some(Task)
      {
        assert s.store.IsTask(t);
      }
    }
  }

  /** The merge bead being landed exists and says what is being landed. */
  predicate LandingBead(s: Sys) {
    s.landing.Landing? ==>
      var mb := s.landing.mergeBead;
      && mb in s.store.beads && s.store.beads[mb].kind == Some(Merge)
      && s.store.beads[mb].merge == Some(MergeMeta(s.landing.task, s.landing.branch, s.landing.head))
  }

  // ---- the core invariant ----------------------------------------------------------------------------------

  /** `Merged` was persisted at most once per task, and only for tasks that are stored as closed. */
  ghost predicate MergedOnce(s: Sys) {
    forall t :: t in s.merged ==> s.merged[t] == 1 && s.store.IsTask(t) && s.store.StateOf(t).Closed?
  }

  ghost predicate Core(s: Sys) {
    && s.store.Valid() && VerifyBeadsApart(s.store)
    && ThreadsFit(s)
    && MergedOnce(s)
    && LandingBead(s)
  }

  lemma GrowsKeepsMerged(a: Sys, b: Sys)
    requires MergedOnce(a) && Grows(a.store, b.store) && a.merged == b.merged
    ensures MergedOnce(b)
  {
    forall t | t in b.merged
      ensures b.merged[t] == 1 && b.store.IsTask(t) && b.store.StateOf(t).Closed?
    {
      assert a.store.IsTask(t) && a.store.TaskAt(t).Terminal();
    }
  }

  lemma GrowsKeepsThreads(a: Sys, b: Sys)
    requires ThreadsFit(a) && Grows(a.store, b.store) && a.threads == b.threads
    ensures ThreadsFit(b)
  {
    forall thread | thread in b.threads
      ensures AllFit(b.store, thread)
    {
      FitsGrows(a.store, b.store, thread);
    }
  }

  lemma CoreWrite(s: Sys, w: Write)
    requires Core(s) && !w.SetMeta? && (w.Create? ==> w.bead.meta.None? || Plannable(s.store, w.bead))
    ensures Core(DoWrite(s, w)) && Grows(s.store, DoWrite(s, w).store)
  {
    if Written(s.store, w).Some? {
      WriteGrows(s.store, w);
      WriteKeepsApart(s.store, w);
      GrowsKeepsThreads(s, DoWrite(s, w));
      GrowsKeepsMerged(s, DoWrite(s, w));
    }
  }

  lemma CoreFire(s: Sys, id: BeadId, event: T.Event, after: seq<Todo>)
    requires Core(s) && AllFit(s.store, after)
    ensures Core(Fire(s, id, event, after)) && Grows(s.store, Fire(s, id, event, after).store)
  {
    hide Fire, AllFit, MergedOnce, VerifyBeadsApart, LandingBead, ThreadsFit;
    FireGrows(s, id, event, after);
    FireKeepsApart(s, id, event, after);
    FireThreadsFit(s, id, event, after);
    FireMergesOnce(s, id, event, after);
    FireKeepsLandingBead(s, id, event, after);
  }

  lemma FireThreadsFit(s: Sys, id: BeadId, event: T.Event, after: seq<Todo>)
    requires Core(s) && AllFit(s.store, after)
    ensures ThreadsFit(Fire(s, id, event, after))
  {
    hide T.Task.Apply, AllFit, Grows;
    var next := Fire(s, id, event, after);
    FireGrows(s, id, event, after);
    if s.store.IsTask(id) && s.store.TaskOf(id).Apply(event).Accepted? {
      FiredThreadFits(s, id, event, after);
      forall t | t in next.threads
        ensures AllFit(next.store, t)
      {
        if t in s.threads {
          FitsGrows(s.store, next.store, t);
        }
      }
    }
  }

  lemma FireMergesOnce(s: Sys, id: BeadId, event: T.Event, after: seq<Todo>)
    requires s.store.Valid() && MergedOnce(s)
    ensures MergedOnce(Fire(s, id, event, after))
  {
    hide T.Task.Apply, Grows;
    FireGrows(s, id, event, after);
    if s.store.IsTask(id) && s.store.TaskOf(id).Apply(event).Accepted? {
      ApplyKeeps(s.store.TaskOf(id), event);
      GrowsKeepsMerged(s, s.(store := Fire(s, id, event, after).store));
      assert id !in s.merged;
    }
  }

  lemma FireKeepsLandingBead(s: Sys, id: BeadId, event: T.Event, after: seq<Todo>)
    requires LandingBead(s)
    ensures LandingBead(Fire(s, id, event, after))
  {
    hide T.Task.Apply;
  }

  /** What waits after a fired event fits the ledger it left. */
  lemma FiredThreadFits(s: Sys, id: BeadId, event: T.Event, after: seq<Todo>)
    requires Core(s) && AllFit(s.store, after)
    requires s.store.IsTask(id) && s.store.TaskOf(id).Apply(event).Accepted?
    ensures var next := Fire(s, id, event, after);
            |next.threads| == |s.threads| + 1 && AllFit(next.store, next.threads[|s.threads|])
  {
    hide T.Task.Apply, Grows;
    var was, next := s.store.TaskOf(id), Fire(s, id, event, after);
    FireGrows(s, id, event, after);
    ApplyKeeps(was, event);
    FitsGrows(s.store, next.store, after);
    assert next.store.IsTask(id) && next.store.StateOf(id) == was.Apply(event).task.state;
    assert AllFit(next.store, Effects(was.Apply(event).effects));
  }

  /** One item of a thread leaves the ledger alone or performs one write that fits it. */
  lemma AdvanceWrites(s: Sys, i: nat)
    requires Core(s) && i < |s.threads| && s.threads[i] != []
    ensures var todo := s.threads[i][0];
            if todo.Do? && Written(s.store, todo.write).Some?
            then Fits(s.store, todo.write) && Advance(s, i).store == Written(s.store, todo.write).value
            else Advance(s, i).store == s.store
  {
    hide Written, Fits, Grows;
    assert s.threads[i] in s.threads && s.threads[i][0] in s.threads[i];
    assert FitsTodo(s.store, s.threads[i][0]);
  }

  lemma CoreAdvance(s: Sys, i: nat)
    requires Core(s) && i < |s.threads| && s.threads[i] != []
    ensures Core(Advance(s, i)) && Grows(s.store, Advance(s, i).store)
  {
    var thread := s.threads[i];
    assert thread in s.threads;
    assert AllFit(s.store, thread) && thread[0] in thread;
    var next := Advance(s, i);
    if thread[0].Do? {
      CoreWrite(s, thread[0].write);
    } else {
      EffectWritesFit(s.store, thread[0].effect);
    }
    var mid := s.(store := next.store);
    GrowsKeepsThreads(s, mid);
    forall t | t in next.threads
      ensures AllFit(next.store, t)
    {
      if t !in mid.threads {
        assert t == next.threads[i];
        assert AllFit(next.store, thread);
      }
    }
  }

  lemma CoreTake(s: Sys, id: BeadId)
    requires Core(s)
    ensures Core(s.(store := Claimed(s.store, id), claimed := s.claimed + {id}))
    ensures Grows(s.store, Claimed(s.store, id))
  {
    var next := s.(store := Claimed(s.store, id), claimed := s.claimed + {id});
    assert forall t :: next.store.IsTask(t) ==> s.store.IsTask(t);
    GrowsKeepsThreads(s, next);
    GrowsKeepsMerged(s, next);
  }

  lemma CoreStartLanding(s: Sys, mb: BeadId)
    requires Core(s)
    ensures Core(StartLanding(s, mb)) && Grows(s.store, StartLanding(s, mb).store)
  {
    hide StartLanding, Grows, Fits;
    StartLandingShapes(s, mb);
    var next := StartLanding(s, mb);
    CoreSame(s, s);
    if next.threads != s.threads {
      CloseOfMergeFits(s.store, mb);
      forall thread | thread in next.threads
        ensures AllFit(next.store, thread)
      {
      }
    }
  }

  /** A look at a merge bead changes nothing, leaves a close of it waiting, or starts to land what it says. */
  lemma StartLandingShapes(s: Sys, mb: BeadId)
    ensures var next := StartLanding(s, mb);
            || next == s
            || (&& mb in s.store.beads && s.store.beads[mb].kind == Some(Merge)
                && next == s.(threads := s.threads + [[Do(Close(mb))]]))
            || (&& mb in s.store.beads && s.store.beads[mb].kind == Some(Merge) && next.landing.Landing?
                && next == s.(landing := next.landing) && next.landing.mergeBead == mb
                && s.store.beads[mb].merge == Some(MergeMeta(next.landing.task, next.landing.branch,
                                                             next.landing.head)))
  {
  }

  lemma CloseOfMergeFits(st: Store, mb: BeadId)
    requires mb in st.beads && st.beads[mb].kind == Some(Merge)
    ensures AllFit(st, [Do(Close(mb))])
  {
  }

  lemma CoreLandEnd(s: Sys, event: T.Event)
    requires Core(s)
    ensures s.landing.Landing? ==>
              var next := Fire(s.(landing := NoLanding), s.landing.task, event, [Do(Close(s.landing.mergeBead))]);
              Core(next) && Grows(s.store, next.store)
  {
    if s.landing.Landing? {
      CoreFire(s.(landing := NoLanding), s.landing.task, event, [Do(Close(s.landing.mergeBead))]);
    }
  }

  lemma CoreCrash(s: Sys, i: nat)
    requires Core(s) && i < |s.threads|
    ensures Core(s.(threads := s.threads[i := []])) && Grows(s.store, s.store)
  {
    var next := s.(threads := s.threads[i := []]);
    forall t | t in next.threads
      ensures AllFit(next.store, t)
    {
      if t != [] {
        assert t in s.threads;
      }
    }
  }

  lemma CoreSame(a: Sys, b: Sys)
    requires Core(a) && a.store == b.store && a.threads == b.threads && a.merged == b.merged
    requires b.landing.NoLanding? || (a.landing.Landing? && b.landing == a.landing.(moved := b.landing.moved))
    ensures Core(b) && Grows(a.store, b.store)
  {
  }

  predicate IsCheckStep(step: Step) {
    step.CheckList? || step.CheckStart? || step.CheckEnd? || step.CheckAbort?
  }

  lemma CoreCheck(s: Sys, step: Step)
    requires Core(s) && IsCheckStep(step)
    ensures Core(Next(s, step)) && Grows(s.store, Next(s, step).store)
  {
    hide Fire, V.Verdict, Core, Grows;
    CoreSame(s, s);
    var next := Next(s, step);
    if step.CheckEnd? {
      if s.checking.Checking? && V.IsRunOf(s.checking.commands, step.results) {
        var c := s.checking;
        var ended := s.(checking := NoCheck, proofs := s.proofs + {Proof(c.task, c.head, c.commands, step.results)});
        CoreSame(s, ended);
        CoreFire(ended, c.task, V.Verdict(c.commands, step.results), []);
      }
    } else {
      CoreSame(s, next);
    }
  }

  predicate IsLandStep(step: Step) {
    || step.LandStart? || step.RemoteAhead? || step.LandMove? || step.LandRollback?
    || step.LandDone? || step.LandRejected? || step.LandAbort?
  }

  lemma CoreLand(s: Sys, step: Step)
    requires Core(s) && IsLandStep(step)
    ensures Core(Next(s, step)) && Grows(s.store, Next(s, step).store)
  {
    hide Fire, StartLanding, Core, Grows;
    CoreSame(s, s);
    var next := Next(s, step);
    if step.LandStart? {
      CoreStartLanding(s, step.mergeBead);
    } else if step.LandDone? {
      if s.landing.Landing? && s.landing.moved.Some? { CoreLandEnd(s, T.Merged(s.landing.moved.value.1)); }
    } else if step.LandRejected? {
      CoreLandEnd(s, T.MergeFailed(step.detail));
    } else {
      CoreSame(s, next);
    }
  }

  predicate IsPlanStep(step: Step) {
    step.PlanBead? || step.PlanVerify? || step.PlanNeeds? || step.WriteNote? || step.HandClose? || step.Repair?
  }

  lemma CorePlan(s: Sys, step: Step)
    requires Core(s) && IsPlanStep(step)
    ensures Core(Next(s, step)) && Grows(s.store, Next(s, step).store)
  {
    hide DoWrite, Plannable, Core, Grows;
    CoreSame(s, s);
    match step
    case Repair(id, branch, head) => CoreWrite(s, Create(Transition.MergeBead(id, branch, head)));
    case HandClose(id) => CoreWrite(s, Close(id));
    case PlanBead(bead) => if Plannable(s.store, bead) { CoreWrite(s, Create(bead)); }
    case PlanVerify(id, verify) => CoreWrite(s, SetVerify(id, verify));
    case PlanNeeds(id, blocker) => CoreWrite(s, AddNeeds(id, blocker));
    case WriteNote(id, text) => CoreWrite(s, Note(id, text));
  }

  /** The event a step of a worker, the Steward or an operator fires, if it fires one. */
  function FiredBy(s: Sys, step: Step): Option<(BeadId, T.Event)> {
    match step
    case ClaimLease(id, holder, now, ttl) => if id in s.claimed then Some((id, T.Claim(holder, now, ttl))) else None
    case Work(id, event) => if IsWorkerEvent(event) then Some((id, event)) else None
    case Reap(id, now) => Some((id, T.LeaseExpired(now)))
    case EscalateTask(id, reason) => Some((id, T.Escalate(reason)))
    case CancelTask(id, actor) => Some((id, T.Cancel(actor)))
    case RetryTask(id, note) => Some((id, T.OperatorRetry(note)))
    case _ => None
  }

  lemma CoreFired(s: Sys, step: Step)
    requires Core(s) && FiredBy(s, step).Some?
    ensures Next(s, step) == Fire(s, FiredBy(s, step).value.0, FiredBy(s, step).value.1, [])
    ensures Core(Next(s, step)) && Grows(s.store, Next(s, step).store)
  {
    hide Fire, Core, Grows;
    CoreFire(s, FiredBy(s, step).value.0, FiredBy(s, step).value.1, []);
  }

  lemma CoreOther(s: Sys, step: Step)
    requires Core(s) && FiredBy(s, step).None?
    requires !IsPlanStep(step) && !IsLandStep(step) && !IsCheckStep(step)
    ensures Core(Next(s, step)) && Grows(s.store, Next(s, step).store)
  {
    hide Fire, Advance, Claimed, Core, Grows;
    CoreSame(s, s);
    match step
    case Pick(id) => CoreSame(s, Next(s, step));
    case TakeClaim(id) => CoreTake(s, id);
    case Progress(i) => if i < |s.threads| && s.threads[i] != [] { CoreAdvance(s, i); }
    case Crash(i) => if i < |s.threads| { CoreCrash(s, i); }
    case _ =>
  }

  /** Any step of any role, polite or not, keeps the core invariant and only grows the ledger. */
  lemma CoreStep(s: Sys, step: Step)
    requires Core(s)
    ensures Core(Next(s, step)) && Grows(s.store, Next(s, step).store)
  {
    hide Next, Core, Grows;
    if FiredBy(s, step).Some? {
      CoreFired(s, step);
    } else if IsPlanStep(step) {
      CorePlan(s, step);
    } else if IsLandStep(step) {
      CoreLand(s, step);
    } else if IsCheckStep(step) {
      CoreCheck(s, step);
    } else {
      CoreOther(s, step);
    }
  }

  // ---- which steps touch a task -----------------------------------------------------------------------------

  /** The event any step fires, if it fires one. */
  function Fired(s: Sys, step: Step): Option<(BeadId, T.Event)> {
    match step
    case CheckEnd(results) =>
      if s.checking.Checking? && V.IsRunOf(s.checking.commands, results)
      then Some((s.checking.task, V.Verdict(s.checking.commands, results))) else None
    case LandDone =>
      if s.landing.Landing? && s.landing.moved.Some?
      then Some((s.landing.task, T.Merged(s.landing.moved.value.1))) else None
    case LandRejected(detail) =>
      if s.landing.Landing? && s.landing.moved.None?
      then Some((s.landing.task, T.MergeFailed(detail))) else None
    case _ => FiredBy(s, step)
  }

  /** Only the fired event changes task metadata, and only its own task's. */
  ghost predicate Changes(a: Store, b: Store, fired: Option<(BeadId, T.Event)>) {
    forall x :: x in a.beads ==>
      && x in b.beads
      && if fired == None || fired.value.0 != x || !a.IsTask(x) || a.TaskOf(x).Apply(fired.value.1).Refused?
         then b.beads[x].meta == a.beads[x].meta
         else b.beads[x].meta == Some(MetaOf(a.TaskOf(x).Apply(fired.value.1).task))
  }

  lemma FireChanges(s: Sys, id: BeadId, event: T.Event, after: seq<Todo>)
    ensures Changes(s.store, Fire(s, id, event, after).store, Some((id, event)))
  {
    hide T.Task.Apply;
  }

  lemma ChangesFired(s: Sys, step: Step)
    requires Fired(s, step).Some?
    ensures Changes(s.store, Next(s, step).store, Fired(s, step))
  {
    hide Next, Fired, Fire, Changes;
    var from, after := FiredAs(s, step);
    FireChanges(from, Fired(s, step).value.0, Fired(s, step).value.1, after);
  }

  lemma WriteChangesNothing(s: Sys, w: Write)
    requires s.store.Valid() && !w.SetMeta?
    ensures Changes(s.store, DoWrite(s, w).store, None)
  {
  }

  lemma AdvanceChangesNothing(s: Sys, i: nat)
    requires Core(s) && i < |s.threads| && s.threads[i] != []
    ensures Changes(s.store, Advance(s, i).store, None)
  {
    assert s.threads[i] in s.threads && s.threads[i][0] in s.threads[i];
    if s.threads[i][0].Do? {
      WriteChangesNothing(s, s.threads[i][0].write);
    }
  }

  /** What an unfired step may do to the ledger: one write, one item of a thread, a claim, or nothing. */
  lemma UnfiredStore(s: Sys, step: Step)
    requires Fired(s, step).None? && !step.LandStart?
    ensures var store := Next(s, step).store;
            || store == s.store
            || (step.TakeClaim? && store == Claimed(s.store, step.id))
            || (step.Progress? && step.thread < |s.threads| && s.threads[step.thread] != []
                && store == Advance(s, step.thread).store)
            || (WriteOf(step).Some? && store == DoWrite(s, WriteOf(step).value).store)
  {
    hide Fire, Advance, DoWrite, V.Verdict, Plannable, StartLanding;
  }

  /** The write a step performs directly. */
  function WriteOf(step: Step): (w: Option<Write>)
    ensures w.Some? ==> !w.value.SetMeta?
  {
    match step
    case Repair(id, branch, head) => Some(Create(Transition.MergeBead(id, branch, head)))
    case HandClose(id) => Some(Close(id))
    case PlanBead(bead) => Some(Create(bead))
    case PlanVerify(id, verify) => Some(SetVerify(id, verify))
    case PlanNeeds(id, blocker) => Some(AddNeeds(id, blocker))
    case WriteNote(id, text) => Some(Note(id, text))
    case _ => None
  }

  lemma ChangesUnfired(s: Sys, step: Step)
    requires Core(s) && Fired(s, step).None?
    ensures Changes(s.store, Next(s, step).store, None)
  {
    hide Next, Core, Advance, DoWrite, V.Verdict;
    CoreValid(s);
    if step.LandStart? {
      LandStartSame(s, step);
    } else {
      UnfiredStore(s, step);
      if WriteOf(step).Some? {
        WriteChangesNothing(s, WriteOf(step).value);
      } else if step.Progress? && step.thread < |s.threads| && s.threads[step.thread] != [] {
        AdvanceChangesNothing(s, step.thread);
      }
    }
  }

  lemma CoreValid(s: Sys)
    requires Core(s)
    ensures s.store.Valid()
  {
  }

  lemma CoreStartLandingSame(s: Sys, mb: BeadId)
    ensures StartLanding(s, mb).store == s.store
  {
  }

  lemma StepChanges(s: Sys, step: Step)
    requires Core(s)
    ensures Changes(s.store, Next(s, step).store, Fired(s, step))
  {
    hide Next, Changes, Core;
    if Fired(s, step).Some? {
      ChangesFired(s, step);
    } else {
      ChangesUnfired(s, step);
    }
  }

  // ---- status changes -------------------------------------------------------------------------------------------

  /** A step closes an open bead only by hand, or by a waiting write that fits. */
  lemma StepCloses(s: Sys, step: Step, x: BeadId)
    requires Core(s) && x in s.store.beads && !s.store.beads[x].status.Closed? && s.store.beads[x].kind == Some(Task)
    requires step != HandClose(x)
    requires x in Next(s, step).store.beads && Next(s, step).store.beads[x].status.Closed?
    ensures s.store.IsTask(x) && s.store.StateOf(x).Closed?
  {
    hide V.Verdict, Plannable, Runs.IsFresh, T.Task.Apply, Next, Core, Advance;
    if step.Progress? {
      if step.thread < |s.threads| && s.threads[step.thread] != [] {
        ProgressAdvances(s, step);
        AdvanceCloses(s, step.thread, x);
      } else {
        NoProgress(s, step);
      }
    } else if step == TakeClaim(x) {
      ClaimClosesNothing(s, x);
    } else {
      StatusKept(s, step, x);
    }
  }

  lemma ClaimClosesNothing(s: Sys, x: BeadId)
    requires x in s.store.beads && !s.store.beads[x].status.Closed?
    ensures x in Next(s, TakeClaim(x)).store.beads && !Next(s, TakeClaim(x)).store.beads[x].status.Closed?
  {
  }

  lemma ProgressAdvances(s: Sys, step: Step)
    requires step.Progress? && step.thread < |s.threads| && s.threads[step.thread] != []
    ensures Next(s, step) == Advance(s, step.thread)
  {
  }

  lemma NoProgress(s: Sys, step: Step)
    requires step.Progress? && !(step.thread < |s.threads| && s.threads[step.thread] != [])
    ensures Next(s, step) == s
  {
  }

  lemma AdvanceCloses(s: Sys, i: nat, x: BeadId)
    requires Core(s) && i < |s.threads| && s.threads[i] != []
    requires x in s.store.beads && !s.store.beads[x].status.Closed? && s.store.beads[x].kind == Some(Task)
    requires x in Advance(s, i).store.beads && Advance(s, i).store.beads[x].status.Closed?
    ensures s.store.IsTask(x) && s.store.StateOf(x).Closed?
  {
    hide Advance, Core;
    AdvanceWrites(s, i);
  }

  lemma FireKeepsStatus(s: Sys, id: BeadId, event: T.Event, after: seq<Todo>, x: BeadId)
    requires x in s.store.beads
    ensures x in Fire(s, id, event, after).store.beads
    ensures Fire(s, id, event, after).store.beads[x].status == s.store.beads[x].status
  {
    hide T.Task.Apply;
  }

  lemma StatusKept(s: Sys, step: Step, x: BeadId)
    requires Core(s) && x in s.store.beads && !step.Progress? && step != HandClose(x) && step != TakeClaim(x)
    ensures x in Next(s, step).store.beads
    ensures Next(s, step).store.beads[x].status == s.store.beads[x].status
  {
    hide Next, Core, V.Verdict;
    CoreValid(s);
    assert x < s.store.next;
    if Fired(s, step).Some? {
      StatusKeptFired(s, step, x);
    } else if step.LandStart? {
      LandStartSame(s, step);
    } else {
      StatusKeptPlain(s, step, x);
    }
  }

  lemma LandStartSame(s: Sys, step: Step)
    requires step.LandStart?
    ensures Next(s, step).store == s.store
  {
    CoreStartLandingSame(s, step.mergeBead);
  }

  lemma StatusKeptPlain(s: Sys, step: Step, x: BeadId)
    requires x in s.store.beads && x < s.store.next && Fired(s, step).None? && !step.LandStart?
    requires !step.Progress? && step != HandClose(x) && step != TakeClaim(x)
    ensures x in Next(s, step).store.beads
    ensures Next(s, step).store.beads[x].status == s.store.beads[x].status
  {
    hide Next, Fired, Advance;
    UnfiredStore(s, step);
  }

  lemma StatusKeptFired(s: Sys, step: Step, x: BeadId)
    requires x in s.store.beads && Fired(s, step).Some?
    ensures x in Next(s, step).store.beads
    ensures Next(s, step).store.beads[x].status == s.store.beads[x].status
  {
    hide Next, Fired, Fire;
    var from, after := FiredAs(s, step);
    FireKeepsStatus(from, Fired(s, step).value.0, Fired(s, step).value.1, after, x);
  }

  /** A step that fires an event is that event fired in the same ledger. */
  lemma FiredAs(s: Sys, step: Step) returns (from: Sys, after: seq<Todo>)
    requires Fired(s, step).Some?
    ensures from == s.(checking := from.checking, proofs := from.proofs, landing := from.landing)
    ensures Next(s, step) == Fire(from, Fired(s, step).value.0, Fired(s, step).value.1, after)
  {
    hide Fire, V.Verdict;
    from, after := s, [];
    if step.CheckEnd? {
      var c := s.checking;
      from := s.(checking := NoCheck, proofs := s.proofs + {Proof(c.task, c.head, c.commands, step.results)});
    } else if step.LandDone? || step.LandRejected? {
      from, after := s.(landing := NoLanding), [Do(Close(s.landing.mergeBead))];
    }
  }
}
