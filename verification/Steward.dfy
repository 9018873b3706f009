// The Steward's sweep: lease reaping, budget enforcement, repair of lost merge beads, epic closing.
module Steward {
  import opened Ids
  import opened Time
  import opened Budget
  import opened Ledger
  import F = Frames
  import T = Task
  import Transition

  datatype Report = Report(reaped: nat, escalated: nat, epicsClosed: nat, repaired: nat, errors: nat)

  const NO_REPORT := Report(0, 0, 0, 0, 0)

  datatype Decision = LetBe | Reap(now: Timestamp) | EscalateOver(exceeded: Exceeded)

  /** What to do about one task right now: reap an expired lease, stop a session whose wall clock,
      projected to `now`, is over budget. */
  function Decide(bead: Bead, now: Timestamp): Decision {
    if bead.meta.None? || !bead.meta.value.state.Leased? then LetBe
    else
      var meta := bead.meta.value;
      if meta.state.lease.IsExpired(now) then Reap(now)
      else
        match meta.budget.Check(meta.usage.AddWallClock(Since(now, meta.state.lease.claimedAt)))
        case Within => LetBe
        case Over(exceeded) => EscalateOver(exceeded)
  }

  function EventOf(d: Decision): T.Event
    requires !d.LetBe?
  {
    match d
    case Reap(now) => T.LeaseExpired(now)
    case EscalateOver(exceeded) => T.Escalate(T.BudgetSpent(exceeded))
  }

  /** The ledger, the writes it may still perform, the counters so far. */
  datatype Sweeping = Sweeping(store: Store, left: nat, report: Report)

  function TaskSwept(w: Sweeping, id: BeadId, bead: Bead, now: Timestamp): Sweeping {
    var d := Decide(bead, now);
    if d.LetBe? then w
    else
      var r := Transition.Applied(w.store, id, EventOf(d), w.left);
      Sweeping(r.store, r.left,
               if r.ended.Failed? then w.report.(errors := w.report.errors + 1)
               else if d.Reap? then w.report.(reaped := w.report.reaped + 1)
               else w.report.(escalated := w.report.escalated + 1))
  }

  function TasksSwept(w: Sweeping, seen: Store, listed: seq<BeadId>, now: Timestamp): Sweeping
    requires forall id :: id in listed ==> id in seen.beads
    decreases |listed|
  {
    if listed == [] then w
    else TasksSwept(TaskSwept(w, listed[0], seen.beads[listed[0]], now), seen, listed[1..], now)
  }

  /** Some bead in `merges` is a merge bead for `task`. */
  predicate HasMerge(s: Store, merges: seq<BeadId>, task: BeadId) {
    exists m :: m in merges && Transition.IsMergeFor(s, m, task)
  }

  function MergeRepaired(w: Sweeping, seen: Store, merges: seq<BeadId>, id: BeadId): Sweeping
    requires id in seen.beads
  {
    var bead := seen.beads[id];
    if bead.meta.None? || !bead.meta.value.state.Mergeable? || HasMerge(seen, merges, id) then w
    else
      var state := bead.meta.value.state;
      var r := PerformOne(w.store, Create(Transition.MergeBead(id, state.branch, state.head)), w.left);
      Sweeping(r.store, r.left,
               if r.ended.Failed? then w.report.(errors := w.report.errors + 1)
               else w.report.(repaired := w.report.repaired + 1))
  }

  function MergesRepaired(w: Sweeping, seen: Store, merges: seq<BeadId>, listed: seq<BeadId>): Sweeping
    requires forall id :: id in listed ==> id in seen.beads
    decreases |listed|
  {
    if listed == [] then w
    else MergesRepaired(MergeRepaired(w, seen, merges, listed[0]), seen, merges, listed[1..])
  }

  /** Beads that are context, not work. */
  predicate IsContext(bead: Bead) {
    bead.kind == Some(Reference) || bead.kind == Some(Contract)
  }

  predicate IsContextIn(s: Store, id: BeadId) {
    id in s.beads && IsContext(s.beads[id])
  }

  predicate HasWork(s: Store, children: seq<BeadId>) {
    exists c :: c in children && !IsContextIn(s, c)
  }

  predicate WorkDone(s: Store, children: seq<BeadId>) {
    forall c :: c in children && !IsContextIn(s, c) ==> s.IsClosed(c)
  }

  /** Closes of the context beads among `children` that are still open. */
  function ContextCloses(s: Store, children: seq<BeadId>): seq<Write> {
    if children == [] then []
    else (if IsContextIn(s, children[0]) && !s.IsClosed(children[0]) then [Close(children[0])] else [])
         + ContextCloses(s, children[1..])
  }

  /** Close an epic when it has work and all of it is closed, its open context beads first. */
  function EpicSwept(w: Sweeping, epic: BeadId): Sweeping {
    var children := ChildrenOf(w.store, epic);
    if !HasWork(w.store, children) || !WorkDone(w.store, children) then w
    else
      var r := Perform(w.store, ContextCloses(w.store, children) + [Close(epic)], w.left);
      Sweeping(r.store, r.left,
               if r.ended.Failed? then w.report.(errors := w.report.errors + 1)
               else w.report.(epicsClosed := w.report.epicsClosed + 1))
  }

  function EpicsSwept(w: Sweeping, listed: seq<BeadId>): Sweeping
    decreases |listed|
  {
    if listed == [] then w else EpicsSwept(EpicSwept(w, listed[0]), listed[1..])
  }

  lemma {:induction false} TasksSweptValid(w: Sweeping, seen: Store, listed: seq<BeadId>, now: Timestamp)
    requires w.store.Valid() && forall id :: id in listed ==> id in seen.beads
    ensures TasksSwept(w, seen, listed, now).store.Valid()
    decreases |listed|
  {
    hide Transition.Applied;
    if listed != [] {
      var d := Decide(seen.beads[listed[0]], now);
      if !d.LetBe? {
        F.AppliedFrame(w.store, listed[0], EventOf(d), w.left);
      }
      TasksSweptValid(TaskSwept(w, listed[0], seen.beads[listed[0]], now), seen, listed[1..], now);
    }
  }

  function Reaped(s: Store, now: Timestamp, allowed: nat): (w: Sweeping)
    requires s.Valid()
    ensures w.store.Valid()
  {
    ListingIsExact(s, Task);
    TasksSweptValid(Sweeping(s, allowed, NO_REPORT), s, Listing(s, Task), now);
    TasksSwept(Sweeping(s, allowed, NO_REPORT), s, Listing(s, Task), now)
  }

  function Repaired(w: Sweeping): Sweeping
    requires w.store.Valid()
  {
    ListingIsExact(w.store, Task);
    MergesRepaired(w, w.store, Listing(w.store, Merge), Listing(w.store, Task))
  }

  /** A whole sweep at `now`: the tasks, the lost merge beads, the finished epics. */
  function Swept(s: Store, now: Timestamp, allowed: nat): Sweeping
    requires s.Valid()
  {
    var repaired := Repaired(Reaped(s, now, allowed));
    EpicsSwept(repaired, Listing(repaired.store, Epic))
  }

  // ---- the roles' code ------------------------------------------------------------------------------------

  method SweepTask(store: BeadStore, id: BeadId, bead: Bead, now: Timestamp, report: Report)
      returns (swept: Report)
    requires store.Valid()
    modifies store
    ensures store.Valid()
    ensures Sweeping(store.View(), store.writesAllowed, swept)
         == TaskSwept(Sweeping(old(store.View()), old(store.writesAllowed), report), id, bead, now)
  {
    swept := report;
    var decision := Decide(bead, now);
    if decision.LetBe? {
      return;
    }
    var ended, _ := Transition.ApplyEvent(store, id, EventOf(decision));
    if ended.Failed? {
      swept := swept.(errors := swept.errors + 1);
    } else if decision.Reap? {
      swept := swept.(reaped := swept.reaped + 1);
    } else {
      swept := swept.(escalated := swept.escalated + 1);
    }
  }

  method SweepTasks(store: BeadStore, now: Timestamp) returns (report: Report)
    requires store.Valid()
    modifies store
    ensures store.Valid()
    ensures Sweeping(store.View(), store.writesAllowed, report)
         == Reaped(old(store.View()), now, old(store.writesAllowed))
  {
    ghost var seen := store.View();
    ghost var ids := Listing(seen, Task);
    ListingIsExact(seen, Task);
    report := NO_REPORT;
    var tasks := store.ListActive(Task);
    for i := 0 to |tasks|
      invariant store.Valid()
      invariant TasksSwept(Sweeping(store.View(), store.writesAllowed, report), seen, ids[i..], now)
             == Reaped(seen, now, old(store.writesAllowed))
    {
      assert ids[i..][1..] == ids[i + 1..] && ids[i..][0] == ids[i];
      report := SweepTask(store, tasks[i].0, tasks[i].1, now, report);
    }
  }

  /** The tasks that an active merge bead names. */
  method OpenMerges(store: BeadStore) returns (open: set<BeadId>)
    requires store.Valid()
    ensures forall t :: t in open <==> HasMerge(store.View(), Listing(store.View(), Merge), t)
  {
    hide ListUpTo;
    ghost var seen, merges := store.View(), Listing(store.View(), Merge);
    var listed := store.ListActive(Merge);
    open := {};
    for i := 0 to |listed|
      invariant forall t :: t in open <==> exists k :: 0 <= k < i && Transition.IsMergeFor(seen, merges[k], t)
    {
      if listed[i].1.merge.Some? {
        open := open + {listed[i].1.merge.value.task};
      }
    }
    assert forall t :: t in open <==> HasMerge(seen, merges, t);
  }

  method RepairMergeBeads(store: BeadStore, report: Report) returns (repaired: Report)
    requires store.Valid()
    modifies store
    ensures store.Valid()
    ensures Sweeping(store.View(), store.writesAllowed, repaired)
         == Repaired(Sweeping(old(store.View()), old(store.writesAllowed), report))
  {
    hide ListUpTo, PerformOne, HasMerge;
    ghost var seen := store.View();
    ghost var ids := Listing(seen, Task);
    ghost var merges := Listing(seen, Merge);
    ListingIsExact(seen, Task);
    ListingIsExact(seen, Merge);
    repaired := report;
    var open := OpenMerges(store);
    var tasks := store.ListActive(Task);
    for i := 0 to |tasks|
      invariant store.Valid()
      invariant MergesRepaired(Sweeping(store.View(), store.writesAllowed, repaired), seen, merges, ids[i..])
             == Repaired(Sweeping(seen, old(store.writesAllowed), report))
    {
      assert ids[i..][1..] == ids[i + 1..] && ids[i..][0] == ids[i];
      var (id, bead) := tasks[i];
      if bead.meta.Some? && bead.meta.value.state.Mergeable? && id !in open {
        var state := bead.meta.value.state;
        var ended := store.Do(Create(Transition.MergeBead(id, state.branch, state.head)));
        if ended.Done? {
          repaired := repaired.(repaired := repaired.repaired + 1);
        } else {
          repaired := repaired.(errors := repaired.errors + 1);
        }
      }
    }
  }

  method SweepEpic(store: BeadStore, epic: BeadId, report: Report) returns (swept: Report)
    requires store.Valid()
    modifies store
    ensures store.Valid()
    ensures Sweeping(store.View(), store.writesAllowed, swept)
         == EpicSwept(Sweeping(old(store.View()), old(store.writesAllowed), report), epic)
  {
    hide Perform, PerformOne;
    swept := report;
    ghost var s := store.View();
    ghost var ids := ChildrenOf(s, epic);
    var children := store.Children(epic);
    var hasWork, workDone := false, true;
    for i := 0 to |children|
      invariant hasWork <==> exists k :: 0 <= k < i && !IsContextIn(s, ids[k])
      invariant workDone <==> forall k :: 0 <= k < i && !IsContextIn(s, ids[k]) ==> s.IsClosed(ids[k])
    {
      if !IsContext(children[i].1) {
        hasWork, workDone := true, workDone && children[i].1.status.Closed?;
      }
    }
    assert hasWork <==> HasWork(s, ids);
    assert workDone <==> WorkDone(s, ids);
    if !hasWork || !workDone {
      return;
    }
    var ended := Done;
    ghost var whole := Perform(s, ContextCloses(s, ids) + [Close(epic)], store.writesAllowed);
    for i := 0 to |children|
      invariant store.Valid() && ended.Done?
      invariant Perform(store.View(), ContextCloses(s, ids[i..]) + [Close(epic)], store.writesAllowed) == whole
    {
      var (id, bead) := children[i];
      ghost var rest := ContextCloses(s, ids[i + 1..]) + [Close(epic)];
      assert ids[i..][1..] == ids[i + 1..] && ids[i..][0] == id;
      if IsContext(bead) && !bead.status.Closed? {
        assert ContextCloses(s, ids[i..]) + [Close(epic)] == [Close(id)] + rest;
        PerformCons(store.View(), Close(id), rest, store.writesAllowed);
        ended := store.Do(Close(id));
        if ended.Failed? {
          swept := swept.(errors := swept.errors + 1);
          return;
        }
      } else {
        assert ContextCloses(s, ids[i..]) + [Close(epic)] == rest;
      }
    }
    assert ContextCloses(s, ids[|children|..]) + [Close(epic)] == [Close(epic)];
    PerformCons(store.View(), Close(epic), [], store.writesAllowed);
    ended := store.Do(Close(epic));
    if ended.Failed? {
      swept := swept.(errors := swept.errors + 1);
    } else {
      swept := swept.(epicsClosed := swept.epicsClosed + 1);
    }
  }

  method SweepEpics(store: BeadStore, report: Report) returns (swept: Report)
    requires store.Valid()
    modifies store
    ensures store.Valid()
    ensures Sweeping(store.View(), store.writesAllowed, swept)
         == EpicsSwept(Sweeping(old(store.View()), old(store.writesAllowed), report), Listing(old(store.View()), Epic))
  {
    swept := report;
    ghost var s := store.View();
    ghost var ids := Listing(s, Epic);
    var epics := store.ListActive(Epic);
    for i := 0 to |epics|
      invariant store.Valid()
      invariant EpicsSwept(Sweeping(store.View(), store.writesAllowed, swept), ids[i..])
             == EpicsSwept(Sweeping(s, old(store.writesAllowed), report), ids)
    {
      assert ids[i..][1..] == ids[i + 1..] && ids[i..][0] == ids[i];
      swept := SweepEpic(store, epics[i].0, swept);
    }
  }

  method Sweep(store: BeadStore, now: Timestamp) returns (report: Report)
    requires store.Valid()
    modifies store
    ensures store.Valid()
    ensures Sweeping(store.View(), store.writesAllowed, report)
         == Swept(old(store.View()), now, old(store.writesAllowed))
  {
    report := SweepTasks(store, now);
    report := RepairMergeBeads(store, report);
    report := SweepEpics(store, report);
  }
}
