// What a whole sweep does to the epics, and what its report counts, whatever fails on the way.
module SweepLaws {
  import opened Ids
  import opened Time
  import opened Ledger
  import opened Sequences
  import opened Rounds
  import C = CompletedCalls
  import S = Steward
  import T = Task
  import Table = TaskTable
  import Transition

  // ---- no bead stalls the others --------------------------------------------------------------------------

  /** How many of the listed tasks are to be reaped or stopped. */
  function Due(seen: Store, listed: seq<BeadId>, now: Timestamp): nat
    requires forall id :: id in listed ==> id in seen.beads
  {
    if listed == [] then 0
    else (if S.Decide(seen.beads[listed[0]], now).LetBe? then 0 else 1) + Due(seen, listed[1..], now)
  }

  /** How many of the listed tasks wait for a landing that no bead in `merges` asks for. */
  function Lost(seen: Store, merges: seq<BeadId>, listed: seq<BeadId>): nat
    requires forall id :: id in listed ==> id in seen.beads
  {
    if listed == [] then 0
    else
      (if seen.beads[listed[0]].meta.Some? && seen.beads[listed[0]].meta.value.state.Mergeable?
          && !S.HasMerge(seen, merges, listed[0]) then 1 else 0)
      + Lost(seen, merges, listed[1..])
  }

  /** How many of the listed epics have work, all of it closed. */
  function Complete(s: Store, listed: seq<BeadId>): nat {
    if listed == [] then 0 else (if IsComplete(s, listed[0]) then 1 else 0) + Complete(s, listed[1..])
  }

  predicate IsComplete(s: Store, epic: BeadId) {
    && (exists c :: c in s.beads && IsWorkOf(s, c, epic))
    && forall c :: c in s.beads && IsWorkOf(s, c, epic) ==> s.beads[c].status.Closed?
  }

  /** Each task that is to be reaped or stopped is counted once, as that or as an error, whatever became of those
      before it. */
  lemma {:induction false} EveryDueTaskIsCounted(w: S.Sweeping, seen: Store, listed: seq<BeadId>, now: Timestamp)
    requires forall id :: id in listed ==> id in seen.beads
    ensures var was, r := w.report, S.TasksSwept(w, seen, listed, now).report;
            && r.reaped + r.escalated + r.errors == was.reaped + was.escalated + was.errors + Due(seen, listed, now)
            && r.reaped >= was.reaped && r.escalated >= was.escalated && r.errors >= was.errors
            && r.repaired == was.repaired && r.epicsClosed == was.epicsClosed
    decreases |listed|
  {
    hide Transition.Applied, S.Decide;
    if listed != [] {
      EveryDueTaskIsCounted(S.TaskSwept(w, listed[0], seen.beads[listed[0]], now), seen, listed[1..], now);
    }
  }

  /** So is each task that lost its merge bead, as repaired or as an error. */
  lemma {:induction false} EveryLostMergeIsCounted(w: S.Sweeping, seen: Store, merges: seq<BeadId>, listed: seq<BeadId>)
    requires forall id :: id in listed ==> id in seen.beads
    ensures var was, r := w.report, S.MergesRepaired(w, seen, merges, listed).report;
            && r.repaired + r.errors == was.repaired + was.errors + Lost(seen, merges, listed)
            && r.repaired >= was.repaired && r.errors >= was.errors
            && r.reaped == was.reaped && r.escalated == was.escalated && r.epicsClosed == was.epicsClosed
    decreases |listed|
  {
    hide S.HasMerge, PerformOne;
    if listed != [] {
      EveryLostMergeIsCounted(S.MergeRepaired(w, seen, merges, listed[0]), seen, merges, listed[1..]);
    }
  }

  // ---- closes and nothing else ----------------------------------------------------------------------------

  /** From `a` to `b` beads were closed, if anything. */
  ghost predicate Closing(a: Store, b: Store) {
    && b.Valid() && b.beads.Keys == a.beads.Keys
    && forall x :: x in a.beads ==> b.beads[x] == a.beads[x] || b.beads[x] == a.beads[x].(status := Closed)
  }

  lemma {:induction false} ClosesClose(s: Store, writes: seq<Write>, allowed: nat)
    requires s.Valid() && forall w :: w in writes ==> w.Close?
    ensures var r := Perform(s, writes, allowed);
            && Closing(s, r.store)
            && (forall x :: x in s.beads && Close(x) !in writes ==> r.store.beads[x] == s.beads[x])
            && (r.ended.Done? ==> forall w :: w in writes ==> r.store.IsClosed(w.id))
    decreases |writes|
  {
    if writes != [] {
      assert writes[0] in writes;
      var one := PerformOne(s, writes[0], allowed);
      if one.ended.Done? {
        ClosesClose(one.store, writes[1..], one.left);
        assert forall w :: w in writes <==> w == writes[0] || w in writes[1..];
      }
    }
  }

  /** One epic's turn: it is closed, with its open context beads, exactly when it is complete; nothing else is. */
  lemma EpicTurn(w: S.Sweeping, epic: BeadId)
    requires w.store.Valid() && epic in w.store.beads && w.store.beads[epic].kind == Some(Epic)
    ensures var s, r := w.store, S.EpicSwept(w, epic);
            && Closing(s, r.store)
            && (forall x :: x in s.beads && x != epic && !S.IsContextIn(s, x) ==> r.store.beads[x] == s.beads[x])
            && (!IsComplete(s, epic) ==> r == w)
            && (IsComplete(s, epic) ==>
                  && r.report.epicsClosed + r.report.errors == w.report.epicsClosed + w.report.errors + 1
                  && r.report.epicsClosed >= w.report.epicsClosed && r.report.errors >= w.report.errors
                  && (r.report.errors == w.report.errors ==> r.store.IsClosed(epic)))
  {
    var s, children := w.store, ChildrenOf(w.store, epic);
    WorkMeans(s, epic);
    assert IsComplete(s, epic) <==> S.HasWork(s, children) && S.WorkDone(s, children);
    var writes := S.ContextCloses(s, children) + [Close(epic)];
    ContextClosesWithin(s, children);
    ClosesClose(s, writes, w.left);
    assert Close(epic) in writes;
  }

  // ---- all epics ------------------------------------------------------------------------------------------

  /** All work of the epic is closed in `s`, or is an epic among `earlier` that `r` has closed. */
  ghost predicate Finishes(s: Store, r: Store, earlier: seq<BeadId>, epic: BeadId) {
    && (exists c :: c in s.beads && IsWorkOf(s, c, epic))
    && forall c :: c in s.beads && IsWorkOf(s, c, epic) ==> s.IsClosed(c) || (c in earlier && r.IsClosed(c))
  }

  ghost predicate AllSettled(s: Store, r: Store, listed: seq<BeadId>) {
    forall i :: 0 <= i < |listed| ==> (r.IsClosed(listed[i]) <==> Finishes(s, r, listed[..i], listed[i]))
  }

  lemma {:induction false} EpicsTurns(w: S.Sweeping, listed: seq<BeadId>)
    requires w.store.Valid() && Distinct(listed)
    requires forall e :: e in listed ==>
               e in w.store.beads && w.store.beads[e].kind == Some(Epic) && !w.store.IsClosed(e)
    ensures var s, r := w.store, S.EpicsSwept(w, listed);
            && Closing(s, r.store) && r.report.errors >= w.report.errors
            && (forall x :: x in s.beads && x !in listed && !S.IsContextIn(s, x) ==> r.store.beads[x] == s.beads[x])
            && (r.report.errors == w.report.errors ==> AllSettled(s, r.store, listed))
    decreases |listed|
  {
    hide S.EpicSwept, Finishes, IsComplete, Closing;
    if listed == [] {
      NothingCloses(w.store);
    } else {
      var e, rest := listed[0], listed[1..];
      var step, r := S.EpicSwept(w, e), S.EpicsSwept(w, listed);
      EpicTurn(w, e);
      assert e !in rest;
      OthersStayOpen(w.store, step.store, e, rest);
      EpicsTurns(step, rest);
      ClosingTogether(w.store, step.store, r.store);
      if r.report.errors == w.report.errors {
        forall i | 0 <= i < |listed|
          ensures r.store.IsClosed(listed[i]) <==> Finishes(w.store, r.store, listed[..i], listed[i])
        {
          if i == 0 {
            FirstFinishes(w.store, step.store, r.store, e);
          } else {
            assert listed[i] == rest[i - 1] && listed[..i] == [e] + rest[..i - 1];
            FinishesBefore(w.store, step.store, r.store, e, rest[..i - 1], listed[i]);
          }
        }
      }
    }
  }

  lemma NothingCloses(s: Store)
    requires s.Valid()
    ensures Closing(s, s)
  {
  }

  lemma ClosingTogether(a: Store, b: Store, c: Store)
    requires Closing(a, b) && Closing(b, c)
    ensures Closing(a, c)
    ensures forall x :: x in a.beads ==> (S.IsContextIn(a, x) <==> S.IsContextIn(b, x))
  {
  }

  lemma OthersStayOpen(a: Store, b: Store, e: BeadId, rest: seq<BeadId>)
    requires Closing(a, b) && e !in rest
    requires forall x :: x in a.beads && x != e && !S.IsContextIn(a, x) ==> b.beads[x] == a.beads[x]
    requires forall x :: x in rest ==> x in a.beads && a.beads[x].kind == Some(Epic) && !a.IsClosed(x)
    ensures forall x :: x in rest ==> x in b.beads && b.beads[x].kind == Some(Epic) && !b.IsClosed(x)
    ensures b.Valid()
  {
  }

  lemma FirstFinishes(s: Store, b: Store, r: Store, e: BeadId)
    requires e in s.beads && s.beads[e].kind == Some(Epic) && !s.IsClosed(e)
    requires Closing(s, b) && Closing(b, r) && r.beads[e] == b.beads[e]
    requires if IsComplete(s, e) then b.IsClosed(e) else b == s
    ensures r.IsClosed(e) <==> Finishes(s, r, [], e)
  {
  }

  lemma FinishesBefore(s: Store, b: Store, r: Store, e: BeadId, earlier: seq<BeadId>, epic: BeadId)
    requires Closing(s, b) && Closing(b, r) && e in s.beads && !s.IsClosed(e)
    requires s.beads[e].kind == Some(Epic) && r.beads[e] == b.beads[e]
    requires forall x :: x in s.beads && x != e && !S.IsContextIn(s, x) ==> b.beads[x] == s.beads[x]
    ensures Finishes(b, r, earlier, epic) <==> Finishes(s, r, [e] + earlier, epic)
  {
    assert forall c :: c in s.beads ==> (IsWorkOf(b, c, epic) <==> IsWorkOf(s, c, epic));
    forall c | c in s.beads && IsWorkOf(s, c, epic)
      ensures b.IsClosed(c) || (c in earlier && r.IsClosed(c))
              <==> s.IsClosed(c) || (c in [e] + earlier && r.IsClosed(c))
    {
      assert c in [e] + earlier <==> c == e || c in earlier;
    }
  }

  /** Each epic that was complete before any was closed is counted, as closed or as an error. */
  lemma {:induction false} EveryCompleteEpicIsCounted(w: S.Sweeping, listed: seq<BeadId>)
    requires w.store.Valid()
    requires forall e :: e in listed ==> e in w.store.beads && w.store.beads[e].kind == Some(Epic)
    ensures var was, r := w.report, S.EpicsSwept(w, listed).report;
            && r.epicsClosed + r.errors >= was.epicsClosed + was.errors + Complete(w.store, listed)
            && r.epicsClosed >= was.epicsClosed && r.errors >= was.errors
            && r.reaped == was.reaped && r.escalated == was.escalated && r.repaired == was.repaired
    decreases |listed|
  {
    hide S.EpicSwept, IsComplete, Closing;
    if listed != [] {
      var step := S.EpicSwept(w, listed[0]);
      EpicTurn(w, listed[0]);
      EpicSweptFacts(w, listed[0]);
      StillEpics(w.store, step.store, listed[1..]);
      CompleteStays(w.store, step.store, listed[1..]);
      EveryCompleteEpicIsCounted(step, listed[1..]);
    }
  }

  lemma StillEpics(a: Store, b: Store, listed: seq<BeadId>)
    requires Closing(a, b) && forall e :: e in listed ==> e in a.beads && a.beads[e].kind == Some(Epic)
    ensures b.Valid() && forall e :: e in listed ==> e in b.beads && b.beads[e].kind == Some(Epic)
  {
  }

  lemma {:induction false} CompleteStays(a: Store, b: Store, listed: seq<BeadId>)
    requires Closing(a, b)
    ensures Complete(b, listed) >= Complete(a, listed)
  {
    if listed != [] {
      CompleteStays(a, b, listed[1..]);
      assert forall c :: c in a.beads ==> (IsWorkOf(b, c, listed[0]) <==> IsWorkOf(a, c, listed[0]));
    }
  }

  // ---- the whole sweep ------------------------------------------------------------------------------------

  /** Nothing that an epic looks at differs: new beads have no parent, and only tasks changed, none by being closed
      or opened again. */
  ghost predicate SameForEpics(a: Store, b: Store) {
    && b.Valid()
    && (forall x :: x in a.beads ==>
          && x in b.beads && b.beads[x].kind == a.beads[x].kind && b.beads[x].parent == a.beads[x].parent
          && (b.beads[x].status.Closed? <==> a.beads[x].status.Closed?)
          && (a.beads[x].kind != Some(Task) ==> b.beads[x] == a.beads[x]))
    && forall x :: x in b.beads && x !in a.beads ==> b.beads[x].parent.None? && b.beads[x].kind != Some(Epic)
  }

  lemma SameTogether(a: Store, b: Store, c: Store)
    requires SameForEpics(a, b) && SameForEpics(b, c)
    ensures SameForEpics(a, c)
  {
  }

  lemma TaskTurn(w: S.Sweeping, id: BeadId, bead: Bead, now: Timestamp)
    requires w.store.Valid() && !w.store.IsClosed(id)
    requires S.TaskSwept(w, id, bead, now).report.errors == w.report.errors
    ensures SameForEpics(w.store, S.TaskSwept(w, id, bead, now).store)
  {
    hide Transition.Applied, T.Task.Apply, S.Decide;
    var d := S.Decide(bead, now);
    if !d.LetBe? {
      var e := S.EventOf(d);
      C.CompletesIff(w.store, id, e, w.left);
      var r := Transition.Applied(w.store, id, e, w.left);
      if r.ended.Done? {
        Table.AcceptedLeadsTo(w.store.TaskOf(id), e);
        LeftIsSame(w.store, id, e, w.store.TaskOf(id).Apply(e).task, r.store);
      }
    } else {
      NothingDiffers(w.store);
    }
  }

  lemma LeftIsSame(s: Store, id: BeadId, e: T.Event, next: T.Task, r: Store)
    requires s.Valid() && s.IsTask(id) && C.Left(s, id, e, next, r)
    requires !next.state.Closed? && !next.state.Canceled?
    requires next.state.Open? && !s.StateOf(id).Open? ==> !s.beads[id].status.Closed?
    ensures SameForEpics(s, r)
  {
  }

  lemma {:induction false} TasksTurns(w: S.Sweeping, seen: Store, listed: seq<BeadId>, now: Timestamp)
    requires w.store.Valid()
    requires forall id :: id in listed ==> id in seen.beads && id in w.store.beads && !w.store.IsClosed(id)
    requires S.TasksSwept(w, seen, listed, now).report.errors == w.report.errors
    ensures SameForEpics(w.store, S.TasksSwept(w, seen, listed, now).store)
    decreases |listed|
  {
    hide SameForEpics, S.TaskSwept;
    if listed == [] {
      NothingDiffers(w.store);
    } else {
      var step := S.TaskSwept(w, listed[0], seen.beads[listed[0]], now);
      EveryDueTaskIsCounted(w, seen, listed[..1], now);
      EveryDueTaskIsCounted(step, seen, listed[1..], now);
      assert S.TasksSwept(w, seen, listed[..1], now) == step by { assert listed[..1][1..] == []; }
      TaskTurn(w, listed[0], seen.beads[listed[0]], now);
      StillOpen(w.store, step.store, listed[1..]);
      TasksTurns(step, seen, listed[1..], now);
      SameTogether(w.store, step.store, S.TasksSwept(w, seen, listed, now).store);
    }
  }

  lemma StillOpen(a: Store, b: Store, ids: seq<BeadId>)
    requires SameForEpics(a, b) && forall id :: id in ids ==> id in a.beads && !a.IsClosed(id)
    ensures b.Valid() && forall id :: id in ids ==> id in b.beads && !b.IsClosed(id)
  {
  }

  lemma NothingDiffers(s: Store)
    requires s.Valid()
    ensures SameForEpics(s, s)
  {
  }

  lemma {:induction false} MergesTurns(w: S.Sweeping, seen: Store, merges: seq<BeadId>, listed: seq<BeadId>)
    requires w.store.Valid() && forall id :: id in listed ==> id in seen.beads
    ensures var r := S.MergesRepaired(w, seen, merges, listed);
            SameForEpics(w.store, r.store)
    decreases |listed|
  {
    hide SameForEpics, S.MergeRepaired;
    if listed == [] {
      NothingDiffers(w.store);
    } else {
      var step := S.MergeRepaired(w, seen, merges, listed[0]);
      MergeTurn(w, seen, merges, listed[0]);
      MergesTurns(step, seen, merges, listed[1..]);
      SameTogether(w.store, step.store, S.MergesRepaired(w, seen, merges, listed).store);
    }
  }

  lemma MergeTurn(w: S.Sweeping, seen: Store, merges: seq<BeadId>, id: BeadId)
    requires w.store.Valid() && id in seen.beads
    ensures var r := S.MergeRepaired(w, seen, merges, id); SameForEpics(w.store, r.store) && r.store.Valid()
  {
    hide S.HasMerge;
  }

  /** All work of the epic was closed, or is an active epic of a smaller id that the sweep closed too. */
  ghost predicate FinishedBy(s: Store, r: Store, epic: BeadId) {
    && (exists c :: c in s.beads && IsWorkOf(s, c, epic))
    && forall c :: c in s.beads && IsWorkOf(s, c, epic) ==>
         s.beads[c].status.Closed? || (c < epic && s.IsActive(c, Epic) && r.IsClosed(c))
  }

  /** A sweep without errors closes exactly the active epics that have work, all of it closed before the sweep or closed
      by it before their turn; that a child is an epic listed later is the one reason to wait for the next sweep. */
  lemma SweepClosesFinishedEpics(s: Store, now: Timestamp, allowed: nat)
    requires s.Valid() && S.Swept(s, now, allowed).report.errors == 0
    ensures var r := S.Swept(s, now, allowed).store;
            forall e :: s.IsActive(e, Epic) ==> (r.IsClosed(e) <==> FinishedBy(s, r, e))
  {
    hide SameForEpics, Finishes, Closing, S.TasksSwept, S.MergesRepaired, S.EpicsSwept;
    var reaped := S.Reaped(s, now, allowed);
    var before := S.Repaired(reaped);
    var r := S.Swept(s, now, allowed);
    SweptFacts(s, now, allowed);
    ListingIsExact(s, Task);
    ListingIsExact(reaped.store, Task);
    TasksTurns(S.Sweeping(s, allowed, S.NO_REPORT), s, Listing(s, Task), now);
    MergesTurns(reaped, reaped.store, Listing(reaped.store, Merge), Listing(reaped.store, Task));
    SameTogether(s, reaped.store, before.store);
    SameIsValid(s, before.store);
    var epics := Listing(before.store, Epic);
    ListingIsExact(before.store, Epic);
    EpicsTurns(before, epics);
    forall e | s.IsActive(e, Epic)
      ensures r.store.IsClosed(e) <==> FinishedBy(s, r.store, e)
    {
      SameEpics(s, before.store, e);
      var i :| 0 <= i < |epics| && epics[i] == e;
      assert r.store.IsClosed(epics[i]) <==> Finishes(before.store, r.store, epics[..i], epics[i]);
      FinishedIsFinishes(s, before.store, r.store, epics, i);
    }
  }

  lemma SameIsValid(a: Store, b: Store)
    requires SameForEpics(a, b)
    ensures b.Valid()
  {
  }

  lemma SameEpics(a: Store, b: Store, e: BeadId)
    requires SameForEpics(a, b)
    ensures a.IsActive(e, Epic) <==> b.IsActive(e, Epic)
  {
  }

  lemma FinishedIsFinishes(s: Store, b: Store, r: Store, epics: seq<BeadId>, i: nat)
    requires SameForEpics(s, b) && i < |epics|
    requires forall e :: e in epics <==> b.IsActive(e, Epic)
    requires forall j, k :: 0 <= j < k < |epics| ==> epics[j] < epics[k]
    ensures FinishedBy(s, r, epics[i]) <==> Finishes(b, r, epics[..i], epics[i])
  {
    var e := epics[i];
    assert forall c :: c in b.beads && IsWorkOf(b, c, e) <==> c in s.beads && IsWorkOf(s, c, e);
    forall c
      ensures c in epics[..i] <==> c < e && b.IsActive(c, Epic)
    {
      if c < e && b.IsActive(c, Epic) {
        var k :| 0 <= k < |epics| && epics[k] == c;
        assert k < i;
      }
    }
    forall c
      ensures s.IsActive(c, Epic) <==> b.IsActive(c, Epic)
    {
      SameEpics(s, b, c);
    }
  }
}
