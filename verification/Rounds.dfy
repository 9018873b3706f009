// What an error-free sweep leaves behind, and what two rounds of sweep and integration pass do.
module Rounds {
  import opened Ids
  import opened Time
  import B = Budget
  import opened Ledger
  import opened Sequences
  import F = Frames
  import I = Integrator
  import S = Steward
  import T = Task
  import Table = TaskTable
  import Transition

  // ---- the tasks of a sweep -------------------------------------------------------------------------------

  /** Every decision the Steward makes about a loadable task is an event the task accepts, and it leaves
      the task `Open` or in an incident. */
  lemma DecisionsAreAccepted(s: Store, id: BeadId, now: Timestamp)
    requires s.IsTask(id) && !S.Decide(s.beads[id], now).LetBe?
    ensures var d := S.Decide(s.beads[id], now);
            var o := s.TaskOf(id).Apply(S.EventOf(d));
            && o.Accepted? && (o.task.state.Open? || o.task.state.Incident?)
            && (d.Reap? ==> S.EventOf(d) == T.LeaseExpired(now))
            && (d.EscalateOver? ==> o.task.state == T.Incident(T.BudgetSpent(d.exceeded)))
  {
  }

  /** The metadata a swept task ends with. */
  function SweptMeta(s: Store, id: BeadId, now: Timestamp): Meta
    requires s.IsTask(id)
  {
    var d := S.Decide(s.beads[id], now);
    if d.LetBe? then s.beads[id].meta.value
    else
      var o := s.TaskOf(id).Apply(S.EventOf(d));
      if o.Accepted? then MetaOf(o.task) else s.beads[id].meta.value
  }

  /** `id` ends in `after` as the decision about it in `seen` says. */
  predicate AsDecided(seen: Store, after: Store, id: BeadId, now: Timestamp)
    requires id in seen.beads && seen.beads[id].kind == Some(Task)
  {
    && id in after.beads && after.beads[id].kind == Some(Task)
    && if seen.beads[id].meta.None? || S.Decide(seen.beads[id], now).LetBe?
       then after.beads[id] == seen.beads[id]
       else after.beads[id].meta == Some(SweptMeta(seen, id, now))
  }

  /** `AsDecided` looks at nothing but the bead. */
  lemma AsDecidedCarries(a: Store, a': Store, b: Store, b': Store, id: BeadId, now: Timestamp)
    requires id in a.beads && a.beads[id].kind == Some(Task)
    requires id in a'.beads && a'.beads[id] == a.beads[id]
    requires id in b.beads && id in b'.beads && b.beads[id] == b'.beads[id]
    ensures AsDecided(a, b, id, now) <==> AsDecided(a', b', id, now)
  {
  }

  /** One listed task after another: each ends as its own decision says, nothing else changes but new
      incident beads. */
  lemma {:induction false} TasksSweptFacts(w: S.Sweeping, seen: Store, listed: seq<BeadId>, now: Timestamp)
    requires w.store.Valid() && Distinct(listed)
    requires forall id :: id in listed ==>
               && id in seen.beads && seen.beads[id].kind == Some(Task)
               && id in w.store.beads && w.store.beads[id] == seen.beads[id]
    ensures var r := S.TasksSwept(w, seen, listed, now);
            && r.report.errors >= w.report.errors && r.report.repaired == w.report.repaired
            && F.Touches(w.store, r.store, set id | id in listed, {Incident})
            && (r.report.errors == w.report.errors ==> forall id :: id in listed ==> AsDecided(seen, r.store, id, now))
    decreases |listed|
  {
    hide Transition.Applied, T.Task.Apply, S.Decide, S.EventOf, AsDecided, SweptMeta, S.TaskSwept, F.Touches;
    var ids := set id | id in listed;
    if listed == [] {
      F.TouchesNothing(w.store, ids, {Incident});
    } else {
      var id := listed[0];
      var step := S.TaskSwept(w, id, seen.beads[id], now);
      TaskSweptFacts(w, id, now);
      var rest := set x | x in listed[1..];
      assert id !in rest;
      assert {id} + rest == ids;
      forall x | x in listed[1..]
        ensures x in seen.beads && seen.beads[x].kind == Some(Task) && x in step.store.beads
                && step.store.beads[x] == seen.beads[x]
      {
        assert x in listed && x != id;
        F.Untouched(w.store, step.store, {id}, {Incident}, x);
      }
      F.Untouched(w.store, step.store, {id}, {Incident}, id);
      TasksSweptFacts(step, seen, listed[1..], now);
      var r := S.TasksSwept(w, seen, listed, now);
      assert r == S.TasksSwept(step, seen, listed[1..], now);
      F.TouchesTogether(w.store, step.store, r.store, {id}, rest, {Incident});
      F.Untouched(step.store, r.store, rest, {Incident}, id);
      AsDecidedCarries(w.store, seen, step.store, r.store, id, now);
      assert forall x :: x in listed <==> x == id || x in listed[1..];
    }
  }

  lemma TaskSweptFacts(w: S.Sweeping, id: BeadId, now: Timestamp)
    requires w.store.Valid() && id in w.store.beads && w.store.beads[id].kind == Some(Task)
    ensures var r := S.TaskSwept(w, id, w.store.beads[id], now);
            && r.report.errors >= w.report.errors && r.report.repaired == w.report.repaired
            && F.Touches(w.store, r.store, {id}, {Incident})
            && (r.report.errors == w.report.errors ==> AsDecided(w.store, r.store, id, now))
  {
    hide T.Task.Apply, Transition.Applied;
    var d := S.Decide(w.store.beads[id], now);
    if !d.LetBe? {
      F.AppliedFrame(w.store, id, S.EventOf(d), w.left);
    }
  }

  lemma ReapedFacts(s: Store, now: Timestamp, allowed: nat)
    requires s.Valid()
    ensures var r := S.Reaped(s, now, allowed);
            && F.Touches(s, r.store, set id | id in Listing(s, Task), {Incident})
            && r.report.repaired == 0
            && (forall id :: r.store.IsActive(id, Task) ==> s.IsActive(id, Task))
            && (r.report.errors == 0 ==> forall id :: s.IsActive(id, Task) ==> AsDecided(s, r.store, id, now))
  {
    hide Transition.Applied, T.Task.Apply, S.Decide;
    ListingIsExact(s, Task);
    TasksSweptFacts(S.Sweeping(s, allowed, S.NO_REPORT), s, Listing(s, Task), now);
  }

  // ---- the repair of merge beads --------------------------------------------------------------------------

  /** `m` is an active merge bead for the task's stored branch and head. */
  predicate IsMergeOf(s: Store, m: BeadId, task: BeadId) {
    && s.IsActive(m, Merge) && s.IsTask(task) && s.StateOf(task).Mergeable?
    && s.beads[m].merge == Some(MergeMeta(task, s.StateOf(task).branch, s.StateOf(task).head))
  }

  /** From `a` to `b` nothing changed but new active merge beads, each for a mergeable task of `a`. */
  ghost predicate OnlyMergesAdded(a: Store, b: Store) {
    && a.next <= b.next && b.Valid()
    && (forall x :: x in a.beads ==> x in b.beads && b.beads[x] == a.beads[x])
    && (forall x :: x in b.beads && x !in a.beads ==>
          b.IsActive(x, Merge) && b.beads[x].meta.None? && b.beads[x].merge.Some?)
  }

  lemma {:induction false} MergesRepairedFacts(w: S.Sweeping, seen: Store, merges: seq<BeadId>, listed: seq<BeadId>)
    requires w.store.Valid() && OnlyMergesAdded(seen, w.store)
    requires forall id :: id in listed ==> id in seen.beads && seen.IsActive(id, Task)
    ensures var r := S.MergesRepaired(w, seen, merges, listed);
            && r.report.errors >= w.report.errors && r.report.repaired >= w.report.repaired
            && r.report.reaped == w.report.reaped && r.report.escalated == w.report.escalated
            && OnlyMergesAdded(w.store, r.store) && OnlyMergesAdded(seen, r.store)
            && (r.report.errors == w.report.errors ==>
                  forall id :: id in listed && seen.beads[id].IsMergeable() && !S.HasMerge(seen, merges, id) ==>
                    exists m :: IsMergeOf(r.store, m, id))
    decreases |listed|
  {
    hide S.HasMerge, S.MergeRepaired, OnlyMergesAdded, IsMergeOf;
    if listed == [] {
      NothingAdded(w.store);
    } else {
      var id := listed[0];
      var step := S.MergeRepaired(w, seen, merges, id);
      MergeRepairedFacts(w, seen, merges, id);
      AddedTogether(seen, w.store, step.store);
      MergesRepairedFacts(step, seen, merges, listed[1..]);
      var r := S.MergesRepaired(w, seen, merges, listed);
      AddedTogether(w.store, step.store, r.store);
      if r.report.errors == w.report.errors && seen.beads[id].IsMergeable() && !S.HasMerge(seen, merges, id) {
        MergeStays(step.store, r.store, w.store.next, id);
      }
    }
  }

  lemma MergeRepairedFacts(w: S.Sweeping, seen: Store, merges: seq<BeadId>, id: BeadId)
    requires w.store.Valid() && OnlyMergesAdded(seen, w.store) && seen.IsActive(id, Task)
    ensures var r := S.MergeRepaired(w, seen, merges, id);
            && r.report.errors >= w.report.errors && r.report.repaired >= w.report.repaired
            && r.report.reaped == w.report.reaped && r.report.escalated == w.report.escalated
            && OnlyMergesAdded(w.store, r.store) && r.store.Valid()
            && (r.report.errors == w.report.errors && seen.beads[id].IsMergeable() && !S.HasMerge(seen, merges, id) ==>
                  IsMergeOf(r.store, w.store.next, id))
  {
    hide S.HasMerge;
  }

  lemma NothingAdded(s: Store)
    requires s.Valid()
    ensures OnlyMergesAdded(s, s)
  {
  }

  lemma AddedTogether(a: Store, b: Store, c: Store)
    requires OnlyMergesAdded(a, b) && OnlyMergesAdded(b, c)
    ensures OnlyMergesAdded(a, c)
  {
  }

  lemma MergeStays(a: Store, b: Store, m: BeadId, task: BeadId)
    requires OnlyMergesAdded(a, b) && IsMergeOf(a, m, task)
    ensures IsMergeOf(b, m, task)
  {
  }

  /** After an error-free repair every active mergeable task has an active merge bead; a task that had
      none has one for its stored branch and head. */
  lemma RepairedFacts(w: S.Sweeping)
    requires w.store.Valid()
    ensures var r := S.Repaired(w);
            && r.report.errors >= w.report.errors
            && r.report.reaped == w.report.reaped && r.report.escalated == w.report.escalated
            && OnlyMergesAdded(w.store, r.store)
            && (r.report.errors == w.report.errors ==>
                  forall id :: w.store.IsActive(id, Task) && w.store.beads[id].IsMergeable() ==>
                    && (exists m :: r.store.IsActive(m, Merge) && Transition.IsMergeFor(r.store, m, id))
                    && ((exists m :: w.store.IsActive(m, Merge) && Transition.IsMergeFor(w.store, m, id))
                        || exists m :: IsMergeOf(r.store, m, id)))
  {
    ListingIsExact(w.store, Task);
    ListingIsExact(w.store, Merge);
    MergesRepairedFacts(w, w.store, Listing(w.store, Merge), Listing(w.store, Task));
    var r := S.Repaired(w);
    forall m, id | IsMergeOf(r.store, m, id)
      ensures r.store.IsActive(m, Merge) && Transition.IsMergeFor(r.store, m, id)
    {
    }
    forall m, id | w.store.IsActive(m, Merge) && Transition.IsMergeFor(w.store, m, id)
      ensures r.store.IsActive(m, Merge) && Transition.IsMergeFor(r.store, m, id)
    {
    }
    forall id | w.store.IsActive(id, Task) && S.HasMerge(w.store, Listing(w.store, Merge), id)
      ensures exists m :: w.store.IsActive(m, Merge) && Transition.IsMergeFor(w.store, m, id)
    {
      var m :| m in Listing(w.store, Merge) && Transition.IsMergeFor(w.store, m, id);
      assert w.store.IsActive(m, Merge) && Transition.IsMergeFor(w.store, m, id);
    }
  }

  // ---- the epics ------------------------------------------------------------------------------------------

  predicate EpicOrContext(bead: Bead) {
    bead.kind == Some(Epic) || S.IsContext(bead)
  }

  /** From `a` to `b` no bead came or went, and only epics and context beads changed. */
  ghost predicate SameWork(a: Store, b: Store) {
    && b.Valid() && b.beads.Keys == a.beads.Keys
    && forall x :: x in a.beads ==>
         && b.beads[x].kind == a.beads[x].kind
         && (!EpicOrContext(a.beads[x]) ==> b.beads[x] == a.beads[x])
  }

  lemma {:induction false} ContextClosesWithin(s: Store, children: seq<BeadId>)
    ensures forall w :: w in S.ContextCloses(s, children) ==> w.Close? && S.IsContextIn(s, w.id)
    decreases |children|
  {
    if children != [] {
      ContextClosesWithin(s, children[1..]);
    }
  }

  lemma EpicSweptFacts(w: S.Sweeping, epic: BeadId)
    requires w.store.Valid() && epic in w.store.beads && w.store.beads[epic].kind == Some(Epic)
    ensures var r := S.EpicSwept(w, epic);
            && SameWork(w.store, r.store) && r.report.errors >= w.report.errors
            && r.report.reaped == w.report.reaped && r.report.escalated == w.report.escalated
            && r.report.repaired == w.report.repaired
  {
    var children := ChildrenOf(w.store, epic);
    var writes := S.ContextCloses(w.store, children) + [Close(epic)];
    var touched := set x | x in w.store.beads && EpicOrContext(w.store.beads[x]);
    ContextClosesWithin(w.store, children);
    F.PerformTouches(w.store, writes, w.left, touched, {});
  }

  lemma {:induction false} ClosesDone(s: Store, writes: seq<Write>, allowed: nat)
    requires s.Valid() && (forall w :: w in writes ==> w.Close?) && Perform(s, writes, allowed).ended.Done?
    ensures var r := Perform(s, writes, allowed).store;
            && (forall w :: w in writes ==> r.IsClosed(w.id))
            && forall x :: s.IsClosed(x) ==> r.IsClosed(x)
    decreases |writes|
  {
    if writes != [] {
      assert writes[0] in writes;
      var one := PerformOne(s, writes[0], allowed);
      ClosesDone(one.store, writes[1..], one.left);
    }
  }

  lemma {:induction false} ContextIsListed(s: Store, children: seq<BeadId>, c: BeadId)
    requires c in children && S.IsContextIn(s, c) && !s.IsClosed(c)
    ensures Close(c) in S.ContextCloses(s, children)
    decreases |children|
  {
    if c != children[0] {
      ContextIsListed(s, children[1..], c);
    }
  }

  /** A child of the epic that is neither a reference nor a contract. */
  predicate IsWorkOf(s: Store, c: BeadId, epic: BeadId) {
    && c in s.beads && s.beads[c].parent == Some(epic)
    && s.beads[c].kind != Some(Reference) && s.beads[c].kind != Some(Contract)
  }

  lemma WorkMeans(s: Store, epic: BeadId)
    requires s.Valid()
    ensures S.HasWork(s, ChildrenOf(s, epic)) <==> exists c :: IsWorkOf(s, c, epic)
    ensures S.WorkDone(s, ChildrenOf(s, epic)) <==> forall c :: IsWorkOf(s, c, epic) ==> s.beads[c].status.Closed?
  {
    ChildrenAreExact(s, epic);
    assert forall c :: IsWorkOf(s, c, epic) <==> c in ChildrenOf(s, epic) && !S.IsContextIn(s, c);
  }

  /** An epic is closed exactly when it has work and all of it is closed, and then none of its children is
      left open: its context beads are closed with it. */
  lemma EpicClosesWithItsChildren(w: S.Sweeping, epic: BeadId)
    requires w.store.Valid() && epic in w.store.beads && w.store.beads[epic].kind == Some(Epic)
             && !w.store.IsClosed(epic)
    requires S.EpicSwept(w, epic).report.errors == w.report.errors
    ensures var children, r := ChildrenOf(w.store, epic), S.EpicSwept(w, epic);
            && (r.store.IsClosed(epic) <==> S.HasWork(w.store, children) && S.WorkDone(w.store, children))
            && (r.store.IsClosed(epic) ==> forall c :: c in children ==> r.store.IsClosed(c))
            && (!r.store.IsClosed(epic) ==> r == w)
    ensures var s, r := w.store, S.EpicSwept(w, epic);
            r.store.IsClosed(epic) <==>
              && (exists c :: IsWorkOf(s, c, epic))
              && forall c :: IsWorkOf(s, c, epic) ==> s.beads[c].status.Closed?
  {
    WorkMeans(w.store, epic);
    var children := ChildrenOf(w.store, epic);
    var writes := S.ContextCloses(w.store, children) + [Close(epic)];
    if S.HasWork(w.store, children) && S.WorkDone(w.store, children) {
      ContextClosesWithin(w.store, children);
      ClosesDone(w.store, writes, w.left);
      assert Close(epic) in writes;
      forall c | c in children
        ensures Perform(w.store, writes, w.left).store.IsClosed(c)
      {
        if S.IsContextIn(w.store, c) && !w.store.IsClosed(c) {
          ContextIsListed(w.store, children, c);
          assert Close(c) in writes;
        }
      }
    }
  }

  lemma {:induction false} EpicsSweptFacts(w: S.Sweeping, listed: seq<BeadId>)
    requires w.store.Valid()
    requires forall e :: e in listed ==> e in w.store.beads && w.store.beads[e].kind == Some(Epic)
    ensures var r := S.EpicsSwept(w, listed);
            && SameWork(w.store, r.store) && r.report.errors >= w.report.errors
            && r.report.reaped == w.report.reaped && r.report.escalated == w.report.escalated
            && r.report.repaired == w.report.repaired
    decreases |listed|
  {
    hide S.EpicSwept;
    if listed != [] {
      EpicSweptFacts(w, listed[0]);
      EpicsSweptFacts(S.EpicSwept(w, listed[0]), listed[1..]);
    }
  }

  // ---- the whole sweep ------------------------------------------------------------------------------------

  /** Nothing about the bead needs the Steward at `now`. */
  ghost predicate Settled(s: Store, id: BeadId, now: Timestamp) {
    s.IsActive(id, Task) && s.beads[id].meta.Some? ==>
      && (s.StateOf(id).Leased? ==>
            var meta := s.beads[id].meta.value;
            var spent := meta.usage.AddWallClock(Since(now, meta.state.lease.claimedAt));
            && now < meta.state.lease.expires
            && spent.attempts < meta.budget.attempts
            && spent.tokens <= meta.budget.tokens
            && spent.wallClock <= meta.budget.wallClock)
      && (s.StateOf(id).Mergeable? ==> exists m :: s.IsActive(m, Merge) && Transition.IsMergeFor(s, m, id))
  }

  lemma SweptFacts(s: Store, now: Timestamp, allowed: nat)
    requires s.Valid()
    ensures var reaped := S.Reaped(s, now, allowed);
            var repaired := S.Repaired(reaped);
            var r := S.Swept(s, now, allowed);
            && SameWork(repaired.store, r.store)
            && (r.report.errors == 0 ==> reaped.report.errors == 0 && repaired.report.errors == 0)
            && r.report.reaped == reaped.report.reaped && r.report.escalated == reaped.report.escalated
            && r.report.repaired == repaired.report.repaired
  {
    ReapedFacts(s, now, allowed);
    var repaired := S.Repaired(S.Reaped(s, now, allowed));
    RepairedFacts(S.Reaped(s, now, allowed));
    ListingIsExact(repaired.store, Epic);
    EpicsSweptFacts(repaired, Listing(repaired.store, Epic));
  }

  /** The task beads right after the reaping. */
  lemma DecidedOnce(s: Store, after: Store, id: BeadId, now: Timestamp)
    requires s.IsActive(id, Task) && AsDecided(s, after, id, now)
    ensures S.Decide(after.beads[id], now).LetBe?
  {
    if s.IsTask(id) && !S.Decide(s.beads[id], now).LetBe? {
      hide T.Task.Apply;
      DecisionsAreAccepted(s, id, now);
    }
  }

  /** A sweep without errors leaves every active task settled: a lease still held is unexpired and inside
      its budget with the wall clock projected to `now`, and a mergeable task has an active merge bead. */
  lemma SweepSettlesEveryTask(s: Store, now: Timestamp, allowed: nat)
    requires s.Valid() && S.Swept(s, now, allowed).report.errors == 0
    ensures forall id :: Settled(S.Swept(s, now, allowed).store, id, now)
  {
    hide S.Swept, S.Repaired, S.Reaped, S.Decide, AsDecided, T.Task.Apply, Settled;
    var reaped := S.Reaped(s, now, allowed);
    var repaired := S.Repaired(reaped);
    var r := S.Swept(s, now, allowed);
    SweptFacts(s, now, allowed);
    ReapedFacts(s, now, allowed);
    RepairedFacts(reaped);
    forall id
      ensures Settled(r.store, id, now)
    {
      if r.store.IsActive(id, Task) && r.store.beads[id].meta.Some? {
        assert id in repaired.store.beads && r.store.beads[id] == repaired.store.beads[id];
        assert id in reaped.store.beads && repaired.store.beads[id] == reaped.store.beads[id];
        assert reaped.store.IsActive(id, Task);
        DecidedOnce(s, reaped.store, id, now);
        if r.store.StateOf(id).Mergeable? {
          var m :| (repaired.store.IsActive(m, Merge) && Transition.IsMergeFor(repaired.store, m, id));
          assert r.store.IsActive(m, Merge) && Transition.IsMergeFor(r.store, m, id);
        }
        LetBeIsSettled(r.store, id, now);
      } else {
        NoTaskIsSettled(r.store, id, now);
      }
    }
  }

  lemma LetBeIsSettled(s: Store, id: BeadId, now: Timestamp)
    requires s.IsTask(id) && S.Decide(s.beads[id], now).LetBe?
    requires s.StateOf(id).Mergeable? ==> exists m :: s.IsActive(m, Merge) && Transition.IsMergeFor(s, m, id)
    ensures Settled(s, id, now)
  {
  }

  lemma NoTaskIsSettled(s: Store, id: BeadId, now: Timestamp)
    requires s.IsActive(id, Task) ==> s.beads[id].meta.None?
    ensures Settled(s, id, now)
  {
  }

  lemma {:induction false} TasksSweptQuiet(w: S.Sweeping, seen: Store, listed: seq<BeadId>, now: Timestamp)
    requires forall id :: id in listed ==> id in seen.beads && S.Decide(seen.beads[id], now).LetBe?
    ensures S.TasksSwept(w, seen, listed, now) == w
    decreases |listed|
  {
    if listed != [] {
      TasksSweptQuiet(w, seen, listed[1..], now);
    }
  }

  lemma {:induction false} MergesRepairedQuiet(w: S.Sweeping, seen: Store, merges: seq<BeadId>, listed: seq<BeadId>)
    requires forall id :: id in listed ==>
               id in seen.beads
               && (seen.beads[id].meta.Some? && seen.beads[id].meta.value.state.Mergeable? ==>
                    S.HasMerge(seen, merges, id))
    ensures S.MergesRepaired(w, seen, merges, listed) == w
    decreases |listed|
  {
    hide S.HasMerge;
    if listed != [] {
      MergesRepairedQuiet(w, seen, merges, listed[1..]);
    }
  }

  /** A sweep over settled tasks reaps, escalates and repairs nothing, and leaves every bead that is not an
      epic or a context bead as it was. */
  lemma SweepOfSettledTasks(s: Store, now: Timestamp, allowed: nat)
    requires s.Valid() && forall id :: Settled(s, id, now)
    ensures var r := S.Swept(s, now, allowed);
            r.report.reaped == 0 && r.report.escalated == 0 && r.report.repaired == 0 && SameWork(s, r.store)
  {
    hide S.Swept;
    ListingIsExact(s, Task);
    ListingIsExact(s, Merge);
    forall id | id in Listing(s, Task)
      ensures S.Decide(s.beads[id], now).LetBe?
      ensures s.beads[id].meta.Some? && s.beads[id].meta.value.state.Mergeable? ==> S.HasMerge(s, Listing(s, Merge), id)
    {
      assert Settled(s, id, now);
      if s.beads[id].meta.Some? && s.beads[id].meta.value.state.Mergeable? {
        var m :| s.IsActive(m, Merge) && Transition.IsMergeFor(s, m, id);
        assert m in Listing(s, Merge) && Transition.IsMergeFor(s, m, id);
      }
    }
    var w := S.Sweeping(s, allowed, S.NO_REPORT);
    TasksSweptQuiet(w, s, Listing(s, Task), now);
    MergesRepairedQuiet(w, s, Listing(s, Merge), Listing(s, Task));
    assert S.Repaired(S.Reaped(s, now, allowed)) == w;
    SweptFacts(s, now, allowed);
  }

  /** What the Steward does about a bead: nothing unless it is a leased task; then reap it exactly when its lease is
      over, else stop it exactly when the session, as long as it has lasted, breaks a limit, naming the first. */
  lemma DecideIff(bead: Bead, now: Timestamp)
    ensures var d := S.Decide(bead, now);
            if bead.meta.None? || !bead.meta.value.state.Leased? then d.LetBe?
            else
              var meta := bead.meta.value;
              var lasted := Table.Span(meta.state.lease.claimedAt, now);
              var usage := meta.usage.(wallClock := Min(meta.usage.wallClock + lasted, U64_MAX));
              && (d == S.Reap(now) <==> now >= meta.state.lease.expires)
              && (d.LetBe? <==> now < meta.state.lease.expires && Table.InBudget(meta.budget, usage))
              && (d.EscalateOver? ==> Table.Breaks(meta.budget, usage, d.exceeded))
  {
    hide B.Limits.Check;
    if bead.meta.Some? && bead.meta.value.state.Leased? {
      var meta := bead.meta.value;
      var lasted := Table.Span(meta.state.lease.claimedAt, now);
      assert Since(now, meta.state.lease.claimedAt) == lasted;
      Table.CheckIff(meta.budget, meta.usage.(wallClock := Min(meta.usage.wallClock + lasted, U64_MAX)));
    }
  }

  /** A task that is due stays due: whatever the clock shows later, the decision about the same bead is
      again to act. */
  lemma DecisionsStand(bead: Bead, now: Timestamp, later: Timestamp)
    requires now <= later && !S.Decide(bead, now).LetBe?
    ensures !S.Decide(bead, later).LetBe?
  {
    hide B.Limits.Check;
    var meta := bead.meta.value;
    var claimed := meta.state.lease.claimedAt;
    if !meta.state.lease.IsExpired(now) {
      B.CheckIsMonotone(meta.budget, meta.usage.AddWallClock(Since(now, claimed)),
                        meta.usage.AddWallClock(Since(later, claimed)));
    }
  }

  /** After a sweep without errors, another has nothing to do, at the same time or with a clock that was
      set back. */
  lemma SecondSweepIsQuiet(s: Store, now: Timestamp, allowed: nat, earlier: Timestamp, again: nat)
    requires s.Valid() && S.Swept(s, now, allowed).report.errors == 0 && earlier <= now
    ensures var once := S.Swept(s, now, allowed).store;
            once.Valid()
            && var r := S.Swept(once, earlier, again);
            r.report.reaped == 0 && r.report.escalated == 0 && r.report.repaired == 0 && SameWork(once, r.store)
  {
    hide S.Swept;
    SweptFacts(s, now, allowed);
    SweepSettlesEveryTask(s, now, allowed);
    var once := S.Swept(s, now, allowed).store;
    forall id
      ensures Settled(once, id, earlier)
    {
      assert Settled(once, id, now);
      if once.IsTask(id) && once.StateOf(id).Leased? && !S.Decide(once.beads[id], earlier).LetBe? {
        DecisionsStand(once.beads[id], earlier, now);
      }
    }
    SweepOfSettledTasks(once, earlier, again);
  }

  // ---- the report -------------------------------------------------------------------------------------------

  /** What one task adds to which counter: a reaping or a stop that was carried out, or an error. */
  lemma TaskSweptCounts(w: S.Sweeping, id: BeadId, now: Timestamp)
    requires w.store.Valid() && w.store.IsTask(id)
    ensures var was, r := w.report, S.TaskSwept(w, id, w.store.beads[id], now);
            var d := S.Decide(w.store.beads[id], now);
            r.report ==
              if d.LetBe? then was
              else if r.report.errors > was.errors
              then S.Report(was.reaped, was.escalated, was.epicsClosed, was.repaired, was.errors + 1)
              else if d.Reap? then S.Report(was.reaped + 1, was.escalated, was.epicsClosed, was.repaired, was.errors)
              else S.Report(was.reaped, was.escalated + 1, was.epicsClosed, was.repaired, was.errors)
    ensures var r, d := S.TaskSwept(w, id, w.store.beads[id], now), S.Decide(w.store.beads[id], now);
            !d.LetBe? ==> (r.report.errors > w.report.errors
                           <==> Transition.Applied(w.store, id, S.EventOf(d), w.left).ended.Failed?)
  {
    hide Transition.Applied, S.Decide, S.EventOf;
  }

  /** A merge bead that was opened counts as one repair, an epic that was closed as one closed epic. */
  lemma RepairAndEpicCounts(w: S.Sweeping, seen: Store, merges: seq<BeadId>, id: BeadId, epic: BeadId)
    requires id in seen.beads
    ensures var was, r := w.report, S.MergeRepaired(w, seen, merges, id);
            r.report ==
              if r.store != w.store then S.Report(was.reaped, was.escalated, was.epicsClosed, was.repaired + 1,
                                                  was.errors)
              else S.Report(was.reaped, was.escalated, was.epicsClosed, was.repaired, r.report.errors)
    ensures var was, r := w.report, S.EpicSwept(w, epic);
            r.report == S.Report(was.reaped, was.escalated, r.report.epicsClosed, was.repaired, r.report.errors)
            && r.report.epicsClosed + r.report.errors
               == was.epicsClosed + was.errors
                  + (if S.HasWork(w.store, ChildrenOf(w.store, epic)) && S.WorkDone(w.store, ChildrenOf(w.store, epic))
                     then 1 else 0)
            && r.report.errors >= was.errors && r.report.epicsClosed >= was.epicsClosed
            && (r.report.epicsClosed > was.epicsClosed ==> r.store.IsClosed(epic))
  {
    hide S.HasMerge, S.HasWork, S.WorkDone, S.ContextCloses, Transition.MergeBead;
    var state := if seen.beads[id].meta.Some? && seen.beads[id].meta.value.state.Mergeable?
                 then seen.beads[id].meta.value.state else T.Mergeable("", []);
    assert Written(w.store, Create(Transition.MergeBead(id, state.branch, state.head))).value.next != w.store.next;
    PerformAppend(w.store, S.ContextCloses(w.store, ChildrenOf(w.store, epic)), [Close(epic)], w.left);
    var closed := Perform(w.store, S.ContextCloses(w.store, ChildrenOf(w.store, epic)), w.left);
    PerformCons(closed.store, Close(epic), [], closed.left);
  }

  // ---- the integration pass ---------------------------------------------------------------------------------

  /** No longer anything to land for `id`. */
  predicate NotWaiting(s: Store, id: BeadId) {
    !(s.IsActive(id, Task) && s.beads[id].IsMergeable())
  }

  /** What an integration pass never does: make a task mergeable or change what one waits with, reopen a
      merge bead, or create anything but incident beads. */
  ghost predicate Landing(a: Store, b: Store) {
    && a.next <= b.next && b.Valid()
    && (forall x :: x in a.beads ==>
          && x in b.beads && b.beads[x].kind == a.beads[x].kind && b.beads[x].merge == a.beads[x].merge
          && (a.beads[x].kind == Some(Merge) ==> b.beads[x].status == a.beads[x].status || b.IsClosed(x))
          && (NotWaiting(a, x) ==> NotWaiting(b, x))
          && (b.beads[x].IsMergeable() ==> a.beads[x].meta == b.beads[x].meta))
    && (forall x :: x in b.beads && x !in a.beads ==> b.beads[x].kind == Some(Incident))
  }

  lemma LandingTransitive(a: Store, b: Store, c: Store)
    requires Landing(a, b) && Landing(b, c)
    ensures Landing(a, c)
  {
    forall x | x in a.beads
      ensures
        && x in c.beads && c.beads[x].kind == a.beads[x].kind && c.beads[x].merge == a.beads[x].merge
        && (a.beads[x].kind == Some(Merge) ==> c.beads[x].status == a.beads[x].status || c.IsClosed(x))
        && (NotWaiting(a, x) ==> NotWaiting(c, x))
        && (c.beads[x].IsMergeable() ==> a.beads[x].meta == c.beads[x].meta)
    {
      assert x in b.beads;
    }
  }

  lemma CloseLands(s: Store, mb: BeadId, allowed: nat)
    requires s.Valid()
    ensures var r := PerformOne(s, Close(mb), allowed);
            Landing(s, r.store) && (r.ended.Done? ==> r.store.IsClosed(mb))
  {
  }

  /** Recording a landing or a rejection on a task that was not closed. */
  lemma AppliedLands(s: Store, task: BeadId, event: T.Event, allowed: nat)
    requires s.Valid() && s.IsTask(task) && s.StateOf(task).Mergeable? && !s.IsClosed(task)
    requires event.Merged? || event.MergeFailed?
    requires Transition.Applied(s, task, event, allowed).ended.Done?
    ensures var r := Transition.Applied(s, task, event, allowed);
            Landing(s, r.store) && NotWaiting(r.store, task)
  {
    hide Transition.Applied, T.Task.Apply;
    F.AppliedFrame(s, task, event, allowed);
    LandedIsNotMergeable(s.TaskOf(task), event);
    if event.Merged? {
      F.MergedOnlyCloses(s, task, event.merged, allowed);
    }
  }

  lemma LandedIsNotMergeable(t: T.Task, event: T.Event)
    requires t.state.Mergeable? && (event.Merged? || event.MergeFailed?)
    ensures t.Apply(event).Accepted? ==> !t.Apply(event).task.state.Mergeable?
  {
  }

  lemma {:induction false} ErrorsGrow(p: I.Pass, seen: Store, listed: seq<BeadId>, attempts: seq<I.Attempt>)
    requires |attempts| == |listed| && forall mb :: mb in listed ==> mb in seen.beads
    ensures I.PassOver(p, seen, listed, attempts).report.errors >= p.report.errors
    decreases |listed|
  {
    hide I.Recorded;
    if listed != [] {
      var merge := seen.beads[listed[0]].merge;
      var step := if merge.None? then p.(report := I.Counted(p.report, I.DidSkip))
          else I.OneDone(p, listed[0], merge.value, attempts[0]);
      ErrorsGrow(step, seen, listed[1..], attempts[1..]);
    }
  }

  /** One merge bead handled without an error: it is closed, and a task that waited with exactly its
      branch and head waits no longer. */
  lemma OneDoneFacts(p: I.Pass, mb: BeadId, meta: MergeMeta, attempt: I.Attempt)
    requires p.store.Valid() && mb in p.store.beads && p.store.beads[mb].kind == Some(Merge)
    ensures var q := I.OneDone(p, mb, meta, attempt);
            && q.report.errors >= p.report.errors
            && (q.report.errors == p.report.errors ==>
                  && Landing(p.store, q.store) && q.store.IsClosed(mb)
                  && (IsTaskMergeable(p.store, meta) ==> NotWaiting(q.store, meta.task)))
  {
    hide Transition.Applied, Landing;
    var s := p.store;
    CloseLands(s, mb, p.left);
    var q := I.OneDone(p, mb, meta, attempt);
    if q.report.errors == p.report.errors && meta.task in s.beads && !s.IsClosed(meta.task)
        && IsTaskMergeable(s, meta) {
      var event := if attempt.Lands? then T.Merged(attempt.head) else T.MergeFailed(attempt.detail);
      var applied := Transition.Applied(s, meta.task, event, p.left);
      AppliedLands(s, meta.task, event, p.left);
      LandingBead(s, applied.store, mb);
      CloseLands(applied.store, mb, applied.left);
      LandingTransitive(s, applied.store, q.store);
      LandingBead(s, applied.store, meta.task);
      LandingBead(applied.store, q.store, meta.task);
    }
  }

  /** The task of the merge bead waits to be merged with exactly the bead's branch and head. */
  predicate IsTaskMergeable(s: Store, meta: MergeMeta) {
    s.IsTask(meta.task) && s.StateOf(meta.task) == T.Mergeable(meta.branch, meta.head)
  }

  lemma LandingBead(a: Store, b: Store, x: BeadId)
    requires Landing(a, b) && x in a.beads
    ensures b.Valid() && x in b.beads && b.beads[x].kind == a.beads[x].kind && b.beads[x].merge == a.beads[x].merge
    ensures NotWaiting(a, x) ==> NotWaiting(b, x)
    ensures a.IsClosed(x) && a.beads[x].kind == Some(Merge) ==> b.IsClosed(x)
    ensures b.beads[x].IsMergeable() ==> a.beads[x].meta == b.beads[x].meta
  {
  }

  /** The bead is closed, and a task that waited for exactly this merge waits no longer. */
  ghost predicate Handled(seen: Store, after: Store, mb: BeadId)
    requires mb in seen.beads
  {
    seen.beads[mb].merge.Some? ==>
      && after.IsClosed(mb)
      && (IsTaskMergeable(seen, seen.beads[mb].merge.value) ==> NotWaiting(after, seen.beads[mb].merge.value.task))
  }

  /** The pass has got from `seen` to `now`, handles one more bead, and goes on to `end`. */
  lemma HandledStays(seen: Store, now: Store, next: Store, end: Store, mb: BeadId, meta: MergeMeta)
    requires Landing(seen, now) && Landing(now, next) && Landing(next, end)
    requires mb in seen.beads && seen.beads[mb].kind == Some(Merge) && seen.beads[mb].merge == Some(meta)
    requires next.IsClosed(mb) && (IsTaskMergeable(now, meta) ==> NotWaiting(next, meta.task))
    ensures Handled(seen, end, mb)
  {
    assert mb in now.beads && mb in next.beads;
    if IsTaskMergeable(seen, meta) {
      assert meta.task in now.beads;
      assert NotWaiting(next, meta.task);
    }
  }

  /** A pass without errors handles every listed merge bead. */
  lemma {:induction false} PassFacts(p: I.Pass, seen: Store, listed: seq<BeadId>, attempts: seq<I.Attempt>)
    requires |attempts| == |listed| && Landing(seen, p.store)
    requires forall mb :: mb in listed ==> mb in seen.beads && seen.beads[mb].kind == Some(Merge)
    requires I.PassOver(p, seen, listed, attempts).report.errors == p.report.errors
    ensures var q := I.PassOver(p, seen, listed, attempts);
            Landing(p.store, q.store) && Landing(seen, q.store) && forall mb :: mb in listed ==>
              Handled(seen, q.store, mb)
    decreases |listed|
  {
    hide I.OneDone, Landing, Handled;
    if listed == [] {
      LandingSelf(seen, p.store);
    } else {
      var mb := listed[0];
      var merge := seen.beads[mb].merge;
      LandingBead(seen, p.store, mb);
      var step := if merge.None? then p.(report := I.Counted(p.report, I.DidSkip))
          else I.OneDone(p, mb, merge.value, attempts[0]);
      var q := I.PassOver(p, seen, listed, attempts);
      assert q == I.PassOver(step, seen, listed[1..], attempts[1..]);
      ErrorsGrow(step, seen, listed[1..], attempts[1..]);
      if merge.Some? {
        OneDoneFacts(p, mb, merge.value, attempts[0]);
        LandingTransitive(seen, p.store, step.store);
      }
      PassFacts(step, seen, listed[1..], attempts[1..]);
      if merge.Some? {
        LandingTransitive(p.store, step.store, q.store);
        HandledStays(seen, p.store, step.store, q.store, mb, merge.value);
      } else {
        UnmarkedIsHandled(seen, q.store, mb);
      }
      assert forall x :: x in listed ==> x == mb || x in listed[1..];
    }
  }

  lemma LandingSelf(seen: Store, now: Store)
    requires Landing(seen, now)
    ensures Landing(now, now)
  {
  }

  lemma UnmarkedIsHandled(seen: Store, after: Store, mb: BeadId)
    requires mb in seen.beads && seen.beads[mb].merge.None?
    ensures Handled(seen, after, mb)
  {
  }

  // ---- two rounds ---------------------------------------------------------------------------------------------

  /** A pass without errors closes every active merge bead that names a task. */
  lemma PassClosesMergeBeads(s: Store, attempts: seq<I.Attempt>, allowed: nat)
    requires s.Valid() && |attempts| == |Listing(s, Merge)|
    requires I.Integrated(s, attempts, allowed).report.errors == 0
    ensures var q := I.Integrated(s, attempts, allowed).store;
            && Landing(s, q) && (forall m :: q.IsActive(m, Merge) ==> q.beads[m].merge.None?)
            && forall m :: s.IsActive(m, Merge) ==> Handled(s, q, m)
  {
    hide I.PassOver;
    ListingIsExact(s, Merge);
    PassFacts(I.Pass(s, allowed, I.NO_REPORT), s, Listing(s, Merge), attempts);
    var q := I.Integrated(s, attempts, allowed).store;
    assert forall m :: s.IsActive(m, Merge) ==> Handled(s, q, m);
    forall m | q.IsActive(m, Merge)
      ensures q.beads[m].merge.None?
    {
      assert m in s.beads;
      if s.IsActive(m, Merge) {
        assert Handled(s, q, m);
      }
    }
  }

  /** With no active merge bead naming a task, a sweep without errors gives every active mergeable task
      one for its stored branch and head. */
  lemma SweepAfterClosing(s: Store, now: Timestamp, allowed: nat)
    requires s.Valid() && forall m :: s.IsActive(m, Merge) ==> s.beads[m].merge.None?
    requires S.Swept(s, now, allowed).report.errors == 0
    ensures var r := S.Swept(s, now, allowed).store;
            r.Valid() && forall id :: !NotWaiting(r, id) ==> exists m :: IsMergeOf(r, m, id)
  {
    hide S.Swept, S.Repaired, S.Reaped, AsDecided, T.Task.Apply, ListUpTo;
    var reaped := S.Reaped(s, now, allowed);
    var repaired := S.Repaired(reaped);
    var r := S.Swept(s, now, allowed);
    SweptFacts(s, now, allowed);
    ReapedFacts(s, now, allowed);
    RepairedFacts(reaped);
    ListingIsExact(s, Task);
    forall m | reaped.store.IsActive(m, Merge)
      ensures reaped.store.beads[m].merge.None?
    {
      assert m in s.beads;
    }
    forall id | !NotWaiting(r.store, id)
      ensures exists m :: IsMergeOf(r.store, m, id)
    {
      assert id in repaired.store.beads && r.store.beads[id] == repaired.store.beads[id];
      assert id in reaped.store.beads && repaired.store.beads[id] == reaped.store.beads[id];
      var m :| IsMergeOf(repaired.store, m, id);
      assert IsMergeOf(r.store, m, id);
    }
  }

  /** Whatever mix of missing, duplicate or stale merge beads the ledger starts with: an integration pass,
      then a sweep, then another pass, all without errors, leave no active task mergeable. */
  lemma TwoRoundsLandOrReopenEverything(
      s: Store, first: seq<I.Attempt>, allowed: nat, now: Timestamp, second: seq<I.Attempt>)
    requires s.Valid() && |first| == |Listing(s, Merge)| && I.Integrated(s, first, allowed).report.errors == 0
    requires var passed := I.Integrated(s, first, allowed);
             && passed.store.Valid() && S.Swept(passed.store, now, passed.left).report.errors == 0
             && var swept := S.Swept(passed.store, now, passed.left);
             && swept.store.Valid() && |second| == |Listing(swept.store, Merge)|
             && I.Integrated(swept.store, second, swept.left).report.errors == 0
    ensures var passed := I.Integrated(s, first, allowed);
            var swept := S.Swept(passed.store, now, passed.left);
            var last := I.Integrated(swept.store, second, swept.left).store;
            forall id :: last.IsActive(id, Task) ==> !last.beads[id].IsMergeable()
  {
    hide S.Swept, I.Integrated;
    var passed := I.Integrated(s, first, allowed);
    var swept := S.Swept(passed.store, now, passed.left);
    var last := I.Integrated(swept.store, second, swept.left).store;
    PassClosesMergeBeads(s, first, allowed);
    SweepAfterClosing(passed.store, now, passed.left);
    PassClosesMergeBeads(swept.store, second, swept.left);
    forall id | last.IsActive(id, Task)
      ensures NotWaiting(last, id)
    {
      assert id in swept.store.beads;
      if !NotWaiting(swept.store, id) {
        var m :| IsMergeOf(swept.store, m, id);
        assert Handled(swept.store, last, m);
      }
    }
  }

  /** A task waiting to land its second branch, and a merge bead left over from its first. */
  const TWO_BRANCHES: Store := Store(
    map[0 := Bead(Some(Task), Open, "", None,
                  Some(Meta(7, [], B.Limits(1, 1, 1), B.NO_USAGE, 0, 0, T.Mergeable("second", [1]))), None, None, None),
        1 := Bead(Some(Merge), Open, "", None, None, None, Some(MergeMeta(0, "first", [0])), None)],
    map[], 2)

  /** One round is not enough: a merge bead left over from another branch keeps the sweep from opening the
      right one, and the pass that follows only closes it. */
  lemma OneRoundIsNotEnough()
    ensures exists s: Store, attempts: seq<I.Attempt> ::
              && s.Valid() && var swept := S.Swept(s, 0, 9);
              && swept.report.errors == 0 && swept.store.Valid() && |attempts| == |Listing(swept.store, Merge)|
              && var passed := I.Integrated(swept.store, attempts, swept.left);
              && passed.report.errors == 0 && !NotWaiting(passed.store, 0)
  {
    hide S.Swept, I.Integrated, NotWaiting;
    ListsOfTwo(TWO_BRANCHES);
    SweepOpensNothing();
    PassOnlyCloses();
    assert |[I.Fails]| == |Listing(TWO_BRANCHES, Merge)|;
  }

  lemma SweepOpensNothing()
    ensures TWO_BRANCHES.Valid() && S.Swept(TWO_BRANCHES, 0, 9) == S.Sweeping(TWO_BRANCHES, 9, S.NO_REPORT)
  {
    var s := TWO_BRANCHES;
    ListsOfTwo(s);
    assert Transition.IsMergeFor(s, 1, 0);
    assert 1 in Listing(s, Merge);
    var w := S.Sweeping(s, 9, S.NO_REPORT);
    TasksSweptQuiet(w, s, Listing(s, Task), 0);
    MergesRepairedQuiet(w, s, Listing(s, Merge), Listing(s, Task));
  }

  lemma PassOnlyCloses()
    requires TWO_BRANCHES.Valid() && Listing(TWO_BRANCHES, Merge) == [1]
    ensures var passed := I.Integrated(TWO_BRANCHES, [I.Fails], 9);
            passed.report.errors == 0 && !NotWaiting(passed.store, 0)
  {
    var s := TWO_BRANCHES;
    assert Listing(s, Merge)[1..] == [];
    assert I.Integrated(s, [I.Fails], 9) == I.OneDone(I.Pass(s, 9, I.NO_REPORT), 1, s.beads[1].merge.value, I.Fails);
  }

  lemma ListsOfTwo(s: Store)
    requires s.next == 2 && s.IsActive(0, Task) && s.IsActive(1, Merge)
    ensures Listing(s, Task) == [0] && Listing(s, Merge) == [1] && Listing(s, Epic) == []
  {
    assert forall kind :: ListUpTo(s, kind, 0) == [];
    assert ListUpTo(s, Task, 1) == [0];
    assert ListUpTo(s, Merge, 1) == [];
    assert ListUpTo(s, Epic, 1) == [];
    assert ListUpTo(s, Epic, 2) == [];
  }
}
