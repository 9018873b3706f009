// The Worker: claim one ready task, run a session while renewing the lease, then give the result, the
// task, or nothing back. What the session does and what the clock shows are inputs.
module Worker {
  import opened Ids
  import opened Time
  import opened Ledger
  import C = CompletedCalls
  import F = Frames
  import P = Protocol
  import R = RoleRuns
  import Runs = TaskRuns
  import T = Task
  import Table = TaskTable
  import Transition

  /** How a model session ended. */
  datatype Outcome = Outcome(providerStop: bool, isError: bool, text: string, tokens: Tokens)

  /** Clock readings at the heartbeats before it ended, and how it ended (`None`: the harness failed). */
  datatype Session = Session(ticks: seq<Timestamp>, outcome: Option<Outcome>)

  /** What the world outside the ledger answers: the clock, the base commit, the session, the agent's
      blocked note, the commit made of the worktree. */
  datatype World = World(
    claimedAt: Timestamp,
    resumed: bool,
    from: Option<Sha>,
    session: Session,
    blocked: Option<string>,
    head: Option<Sha>,
    endedAt: Timestamp)

  datatype Report = NothingReady | RaceLost | CouldNot | Stopped | GaveBack | Submitted(head: Sha)

  // ---- picking ------------------------------------------------------------------------------------------------------

  predicate Claimable(s: Store, id: BeadId) {
    s.IsReady(id, Task) && s.beads[id].meta.Some? && s.beads[id].meta.value.state.Open?
  }

  lemma {:induction false} ReadyIsExact(s: Store, kind: Kind, n: nat)
    ensures forall id: BeadId :: id in ReadyUpTo(s, kind, n) <==> id < n && s.IsReady(id, kind)
    ensures forall i, j :: 0 <= i < j < |ReadyUpTo(s, kind, n)| ==> ReadyUpTo(s, kind, n)[i] < ReadyUpTo(s, kind, n)[j]
  {
    if n > 0 {
      ReadyIsExact(s, kind, n - 1);
      var shorter := ReadyUpTo(s, kind, n - 1);
      assert forall i :: 0 <= i < |shorter| ==> shorter[i] in shorter;
    }
  }

  function FirstClaimable(s: Store, listed: seq<BeadId>): Option<BeadId> {
    if listed == [] then None
    else if Claimable(s, listed[0]) then Some(listed[0])
    else FirstClaimable(s, listed[1..])
  }

  /** The task a worker would claim now. */
  function ToClaim(s: Store): Option<BeadId> {
    FirstClaimable(s, ReadyUpTo(s, Task, s.next))
  }

  lemma {:induction false} FirstClaimableIsClaimable(s: Store, listed: seq<BeadId>)
    ensures FirstClaimable(s, listed).Some? ==> Claimable(s, FirstClaimable(s, listed).value)
  {
    hide Claimable;
    if listed != [] {
      FirstClaimableIsClaimable(s, listed[1..]);
    }
  }

  /** The first claimable task. */
  method Pick(store: BeadStore) returns (picked: Option<(BeadId, Bead)>)
    requires store.Valid()
    ensures picked.Some? ==>
              var id := picked.value.0;
              && Claimable(store.View(), id) && picked.value.1 == store.View().beads[id]
              && forall other: BeadId :: other < id ==> !Claimable(store.View(), other)
    ensures picked.None? ==> forall id :: !Claimable(store.View(), id)
    ensures ToClaim(store.View()) == if picked.Some? then Some(picked.value.0) else None
  {
    ghost var s := store.View();
    ReadyIsExact(s, Task, s.next);
    var ready := store.Ready(Task);
    ghost var ids := ReadyUpTo(s, Task, s.next);
    for i := 0 to |ready|
      invariant forall k :: 0 <= k < i ==> !Claimable(s, ids[k])
      invariant FirstClaimable(s, ids[i..]) == ToClaim(s)
    {
      var (id, bead) := ready[i];
      assert ids[i] in ids && ids[i..][1..] == ids[i + 1..];
      if bead.meta.Some? && bead.meta.value.state.Open? {
        forall other: BeadId | other < id
          ensures !Claimable(s, other)
        {
          if other in ids {
            var k :| 0 <= k < |ids| && ids[k] == other;
          }
        }
        return Some((id, bead));
      }
    }
    picked := None;
  }

  // ---- what a session tells the task --------------------------------------------------------------------------------

  /** A claim by the agent, its heartbeats, and at most one ending: nothing else, in this order. */
  ghost predicate IsConversation(agent: AgentId, events: seq<T.Event>) {
    forall i :: 0 <= i < |events| ==>
      if i == 0 then events[i].Claim? && events[i].holder == agent
      else
        || (events[i].Heartbeat? && events[i].holder == agent)
        || (i == |events| - 1 && IsEnding(agent, events[i]))
  }

  predicate IsEnding(agent: AgentId, e: T.Event) {
    (e.Submit? || e.Release? || e.ProviderStopped?) && e.holder == agent
  }

  /** From `a` to `b` task `id` took `events`, in order, and nothing else happened to any task. */
  ghost predicate Told(a: Store, b: Store, id: BeadId, events: seq<T.Event>) {
    && a.IsTask(id) && b.IsTask(id) && b.TaskOf(id) == Runs.After(a.TaskOf(id), events)
    && F.Touches(a, b, {id}, {Incident}) && F.OnlyMetaOf(a, b, id)
  }

  predicate IsWorkers(e: T.Event) {
    e.Claim? || e.Heartbeat? || e.Submit? || e.Release? || e.ProviderStopped?
  }

  /** One more event through the workflow, with the store dying anywhere: it took effect or it did not. */
  lemma TellOne(a: Store, b: Store, id: BeadId, events: seq<T.Event>, event: T.Event, allowed: nat) returns (took: bool)
    requires Told(a, b, id, events) && IsWorkers(event)
    ensures var r := Transition.Applied(b, id, event, allowed);
            && Told(a, r.store, id, if took then events + [event] else events)
            && (r.ended.Done? ==> took && b.TaskOf(id).Apply(event).Accepted?)
  {
    hide T.Task.Apply, Transition.Applied, Runs.After, F.MergesOf, F.Touches;
    F.TouchesValid(a, b, {id}, {Incident});
    F.AppliedFrame(b, id, event, allowed);
    F.AppliedIsAllOrNothing(b, id, event, allowed);
    var r := Transition.Applied(b, id, event, allowed);
    F.TouchesTogether(a, b, r.store, {id}, {id}, {Incident});
    assert {id} + {id} == {id};
    Runs.AfterSnoc(a.TaskOf(id), events, event);
    took := r.ended.Done? || r.store.TaskOf(id) != b.TaskOf(id);
  }

  /** The ledger's claim changes no task. */
  lemma ClaimTellsNothing(s: Store, id: BeadId)
    requires s.Valid() && s.IsTask(id)
    ensures Told(s, Claimed(s, id), id, [])
  {
  }

  // ---- heartbeats ---------------------------------------------------------------------------------------------------

  function Beats(agent: AgentId, ticks: seq<Timestamp>): seq<T.Event> {
    seq(|ticks|, i requires 0 <= i < |ticks| => T.Heartbeat(agent, ticks[i]))
  }

  /** Give the events to the task one after the other, up to the first that fails. */
  function AllTold(s: Store, id: BeadId, events: seq<T.Event>, allowed: nat): Ran
    decreases |events|
  {
    if events == [] then Ran(s, allowed, Done)
    else
      var first := Transition.Applied(s, id, events[0], allowed);
      if first.ended.Done? then AllTold(first.store, id, events[1..], first.left) else first
  }

  /** Give one event to the task, noting whether it took effect. */
  method Tell(store: BeadStore, id: BeadId, event: T.Event, ghost start: Store, ghost before: seq<T.Event>)
      returns (ended: Ended, ghost events: seq<T.Event>)
    requires store.Valid() && Told(start, store.View(), id, before) && IsWorkers(event)
    modifies store
    ensures store.Valid() && Told(start, store.View(), id, events)
    ensures Ran(store.View(), store.writesAllowed, ended)
         == Transition.Applied(old(store.View()), id, event, old(store.writesAllowed))
    ensures events == before + [event] || (events == before && ended.Failed?)
  {
    hide Told, Transition.Applied, T.Task.Apply;
    var took := TellOne(start, store.View(), id, before, event, store.writesAllowed);
    var now;
    ended, now := Transition.ApplyEvent(store, id, event);
    events := if took then before + [event] else before;
  }

  /** Renew the lease at every tick until the session is over; a heartbeat that fails loses the session. */
  method RunWithHeartbeats(store: BeadStore, id: BeadId, agent: AgentId, session: Session,
                           ghost start: Store, ghost before: seq<T.Event>)
      returns (outcome: Option<Outcome>, ghost events: seq<T.Event>, ghost ended: Ended)
    requires store.Valid() && Told(start, store.View(), id, before)
    modifies store
    ensures store.Valid() && Told(start, store.View(), id, events)
    ensures Ran(store.View(), store.writesAllowed, ended)
         == AllTold(old(store.View()), id, Beats(agent, session.ticks), old(store.writesAllowed))
    ensures outcome == if ended.Done? then session.outcome else None
    ensures exists k :: 0 <= k <= |session.ticks| && events == before + Beats(agent, session.ticks[..k])
                        && (outcome.Some? ==> k == |session.ticks|)
    ensures outcome.Some? ==> outcome == session.outcome && events == before + Beats(agent, session.ticks)
  {
    hide Told, Transition.Applied, T.Task.Apply;
    events, ended := before, Done;
    ghost var beats := Beats(agent, session.ticks);
    assert events == before + Beats(agent, session.ticks[..0]);
    for i := 0 to |session.ticks|
      invariant store.Valid() && Told(start, store.View(), id, events) && ended.Done?
      invariant events == before + Beats(agent, session.ticks[..i])
      invariant AllTold(store.View(), id, beats[i..], store.writesAllowed)
             == AllTold(old(store.View()), id, beats, old(store.writesAllowed))
    {
      var beat := T.Heartbeat(agent, session.ticks[i]);
      assert beats[i..][0] == beat && beats[i..][1..] == beats[i + 1..];
      var told;
      told, events := Tell(store, id, beat, start, events);
      assert Beats(agent, session.ticks[..i + 1]) == Beats(agent, session.ticks[..i]) + [beat];
      if told.Failed? {
        return None, events, told;
      }
    }
    assert session.ticks[..|session.ticks|] == session.ticks;
    outcome := session.outcome;
  }

  // ---- one session --------------------------------------------------------------------------------------------------

  /** Whether the session's result is worth verifying: it changed the branch, or was resumed from it, and it
      did not declare itself blocked. */
  predicate Verifiable(w: World, head: Sha) {
    (Some(head) != w.from || w.resumed) && w.blocked.None?
  }

  /** Why the task is given back, for its next attempt to read. */
  function ReleaseNote(w: World, outcome: Outcome): string {
    var why := if w.blocked.Some? then "blocked" else if outcome.isError then "harness error" else "no changes made";
    var reason := if w.blocked.Some? then w.blocked.value else outcome.text;
    "released: " + why + ": " + if |reason| <= 600 then reason else reason[..600]
  }

  function ErrorNote(outcome: Outcome): string {
    "harness reported an error: " + outcome.text
  }

  /** What the worker tells the task when the session is over. */
  function EndingOf(agent: AgentId, branch: Branch, w: World, head: Sha, outcome: Outcome): T.Event {
    if outcome.providerStop then T.ProviderStopped(agent)
    else if !Verifiable(w, head) then T.Release(agent, w.endedAt, ReleaseNote(w, outcome), w.blocked.Some?)
    else T.Submit(agent, branch, head, w.endedAt, outcome.tokens)
  }

  // ---- what a session does to the ledger ----------------------------------------------------------------------

  /** The ledger's claim, then the lease. */
  function Leased(s: Store, id: BeadId, agent: AgentId, ttl: Duration, claimedAt: Timestamp, allowed: nat): Ran {
    if allowed == 0 then Ran(s, 0, Failed(Unavailable))
    else Transition.Applied(Claimed(s, id), id, T.Claim(agent, claimedAt, ttl), allowed - 1)
  }

  /** The heartbeats, then the ending and the note that goes with it. */
  function Finished(s: Store, id: BeadId, agent: AgentId, branch: Branch, w: World, allowed: nat): Ran {
    var beaten := AllTold(s, id, Beats(agent, w.session.ticks), allowed);
    if beaten.ended.Failed? || w.head.None? || w.session.outcome.None? then beaten
    else
      var outcome := w.session.outcome.value;
      var ending := EndingOf(agent, branch, w, w.head.value, outcome);
      var told := Transition.Applied(beaten.store, id, ending, beaten.left);
      if told.ended.Done? && ending.Submit? && outcome.isError
      then PerformOne(told.store, Note(id, ErrorNote(outcome)), told.left) else told
  }

  /** A whole session on the first claimable task, with the store dying after `allowed` writes. */
  function Worked(s: Store, agent: AgentId, ttl: Duration, branch: Branch, w: World, allowed: nat): Ran {
    match ToClaim(s)
    case None => Ran(s, allowed, Done)
    case Some(id) =>
      FirstClaimableIsClaimable(s, ReadyUpTo(s, Task, s.next));
      if s.beads[id].status.InProgress? then Ran(s, if allowed == 0 then 0 else allowed - 1, Done)
      else
        var leased := Leased(s, id, agent, ttl, w.claimedAt, allowed);
        if leased.ended.Failed? || s.beads[id].meta.value.verifyBead !in leased.store.beads || w.from.None? then leased
        else Finished(leased.store, id, agent, branch, w, leased.left)
  }

  /** The note of a task that is given back: why, then at most 600 characters of the agent's own words. */
  predicate SaysWhy(w: World, outcome: Outcome, note: string) {
    exists n: nat | n <= 600 ::
      if w.blocked.Some? then n <= |w.blocked.value| && (n == 600 || n == |w.blocked.value|)
                              && note == "released: blocked: " + w.blocked.value[..n]
      else
        && n <= |outcome.text| && (n == 600 || n == |outcome.text|)
        && note == (if outcome.isError then "released: harness error: " else "released: no changes made: ")
           + outcome.text[..n]
  }

  /** The report tells how the conversation ended, and why so: a provider stop; a task given back with nothing
      new to verify or declared blocked; a changed or resumed head that is not blocked, submitted with the tokens
      of the session and the time at its end. */
  ghost predicate Reports(report: Report, agent: AgentId, branch: Branch, w: World, events: seq<T.Event>) {
    match report
    case NothingReady => events == []
    case RaceLost => events == []
    case CouldNot => true
    case Stopped =>
      && events != [] && w.session.outcome.Some? && w.session.outcome.value.providerStop
      && events[|events| - 1] == T.ProviderStopped(agent)
    case GaveBack =>
      && events != [] && w.session.outcome.Some? && !w.session.outcome.value.providerStop
      && ((w.head == w.from && !w.resumed) || w.blocked.Some?)
      && events[|events| - 1].Release?
      && events[|events| - 1] == T.Release(agent, w.endedAt, events[|events| - 1].note, w.blocked.Some?)
      && SaysWhy(w, w.session.outcome.value, events[|events| - 1].note)
    case Submitted(head) =>
      && events != [] && w.session.outcome.Some? && !w.session.outcome.value.providerStop
      && w.head == Some(head) && (w.head != w.from || w.resumed) && w.blocked.None?
      && events[|events| - 1] == T.Submit(agent, branch, head, w.endedAt, w.session.outcome.value.tokens)
  }

  /** The task after a session that ended: a provider stop leaves it as it was; the others charge the session's
      length, a submission its tokens too, a release an attempt. */
  ghost predicate Charged(report: Report, branch: Branch, w: World, t: T.Task, after: T.Task) {
    var length := Table.Span(w.claimedAt, w.endedAt);
    match report
    case Stopped => after == t
    case GaveBack =>
      && after.usage.attempts == Min(t.usage.attempts + 1, U32_MAX) && after.usage.tokens == t.usage.tokens
      && after.usage.wallClock == Min(t.usage.wallClock + length, U64_MAX)
      && !after.state.Leased?
    case Submitted(head) =>
      && w.session.outcome.Some?
      && after.usage.attempts == t.usage.attempts
      && after.usage.tokens == Min(t.usage.tokens + w.session.outcome.value.tokens, U64_MAX)
      && after.usage.wallClock == Min(t.usage.wallClock + length, U64_MAX)
      && after.state == T.InVerify(branch, head)
    case _ => true
  }

  /** The task's notes after such a session: a release leaves its note, a submission after an error of the harness
      what the harness said; nothing else leaves any. */
  ghost predicate NotesAfter(report: Report, w: World, events: seq<T.Event>, was: Option<string>, now: Option<string>) {
    match report
    case Stopped => now == was
    case GaveBack => events != [] && events[|events| - 1].Release?
        && now == Some(C.Below(was, events[|events| - 1].note))
    case Submitted(_) =>
      && w.session.outcome.Some?
      && now == if w.session.outcome.value.isError
                then Some(C.Below(was, "harness reported an error: " + w.session.outcome.value.text)) else was
    case _ => true
  }

  lemma EndingSaysWhy(w: World, outcome: Outcome)
    ensures SaysWhy(w, outcome, ReleaseNote(w, outcome))
  {
    var reason := if w.blocked.Some? then w.blocked.value else outcome.text;
    var n := if |reason| <= 600 then |reason| else 600;
    assert reason[..n] == if |reason| <= 600 then reason else reason[..600];
    assert "released: " + "blocked" + ": " == "released: blocked: ";
    assert "released: " + "harness error" + ": " == "released: harness error: ";
    assert "released: " + "no changes made" + ": " == "released: no changes made: ";
  }

  /** A session that ended charges the task for itself. */
  lemma SessionCharges(t: T.Task, report: Report, agent: AgentId, branch: Branch, ttl: Duration, w: World,
                       events: seq<T.Event>, ending: T.Event)
    requires t.state.Open? && (report.Stopped? || report.GaveBack? || report.Submitted?)
    requires events == [T.Claim(agent, w.claimedAt, ttl)] + Beats(agent, w.session.ticks) + [ending]
    requires Reports(report, agent, branch, w, events)
    ensures Charged(report, branch, w, t, Runs.After(t, events))
  {
    hide T.Task.Apply, Runs.After, SaysWhy;
    var before := [T.Claim(agent, w.claimedAt, ttl)] + Beats(agent, w.session.ticks);
    assert events[|events| - 1] == ending;
    BeatsOnlyRenew(t, agent, w.claimedAt, ttl, w.session.ticks);
    Runs.AfterSnoc(t, before, ending);
    var leased := Runs.After(t, before);
    Table.AcceptedIff(leased, ending);
    Table.AcceptedLeadsTo(leased, ending);
    Table.AcceptedCharges(leased, ending);
    if report.Stopped? {
      StoppedSessionIsUncharged(t, agent, w.claimedAt, ttl, w.session.ticks);
    }
  }

  /** A call that completes with an event that leaves no note keeps the notes. */
  lemma CompletedNotes(s: Store, id: BeadId, e: T.Event, allowed: nat)
    requires s.Valid() && Transition.Applied(s, id, e, allowed).ended.Done?
    ensures s.IsTask(id)
    ensures var r := Transition.Applied(s, id, e, allowed).store;
            && id in r.beads
            && (e.Claim? || e.Heartbeat? || e.Submit? || e.ProviderStopped? ==> r.beads[id].notes == s.beads[id].notes)
            && (e.Claim? ==> r.beads.Keys == s.beads.Keys)
            && (e.Release? ==> r.beads[id].notes == Some(C.Below(s.beads[id].notes, e.note)))
  {
    hide T.Task.Apply, Transition.Applied;
    C.CompletesIff(s, id, e, allowed);
    Table.AcceptedLeadsTo(s.TaskOf(id), e);
  }

  lemma {:induction false} BeatsKeepNotes(s: Store, id: BeadId, beats: seq<T.Event>, allowed: nat)
    requires s.Valid() && id in s.beads && forall e :: e in beats ==> e.Heartbeat?
    requires AllTold(s, id, beats, allowed).ended.Done?
    ensures var r := AllTold(s, id, beats, allowed).store; id in r.beads && r.beads[id].notes == s.beads[id].notes
    decreases |beats|
  {
    hide Transition.Applied;
    if beats != [] {
      assert beats[0] in beats;
      F.AppliedFrame(s, id, beats[0], allowed);
      CompletedNotes(s, id, beats[0], allowed);
      var first := Transition.Applied(s, id, beats[0], allowed);
      BeatsKeepNotes(first.store, id, beats[1..], first.left);
    }
  }

  /** Claim the first claimable task in the ledger, then lease it. */
  method Take(store: BeadStore, agent: AgentId, ttl: Duration, claimedAt: Timestamp)
      returns (report: Report, leased: Option<T.Task>, id: BeadId, ghost events: seq<T.Event>)
    requires store.Valid()
    modifies store
    ensures store.Valid()
    ensures report.NothingReady? || report.RaceLost? || report.CouldNot?
    ensures report.NothingReady? ==> store.View() == old(store.View()) && forall t :: !Claimable(store.View(), t)
    ensures !report.NothingReady? ==>
              && Claimable(old(store.View()), id) && (forall t: BeadId :: t < id ==> !Claimable(old(store.View()), t))
              && Told(old(store.View()), store.View(), id, events)
    ensures ToClaim(old(store.View())) == if report.NothingReady? then None else Some(id)
    ensures var s, allowed := old(store.View()), old(store.writesAllowed);
            if report.NothingReady? then store.View() == s && store.writesAllowed == allowed && leased.None?
            else if s.beads[id].status.InProgress?
            then store.View() == s && leased.None? && store.writesAllowed == if allowed == 0 then 0 else allowed - 1
            else
              var r := Leased(s, id, agent, ttl, claimedAt, allowed);
              && store.View() == r.store && store.writesAllowed == r.left && leased.Some? == r.ended.Done?
              && (leased.Some? ==> leased.value.verifyBead == s.beads[id].meta.value.verifyBead)
    ensures events == [T.Claim(agent, claimedAt, ttl)] || (events == [] && leased.None?)
    ensures leased.Some? ==> report.CouldNot?
    ensures report.NothingReady? || report.RaceLost? ==> events == []
    ensures leased.Some? ==>
              && id in store.View().beads && store.View().beads[id].notes == old(store.View()).beads[id].notes
              && store.View().beads.Keys == old(store.View()).beads.Keys
  {
    hide T.Task.Apply, Transition.Applied, Told, ToClaim;
    ghost var s := store.View();
    leased, id, events := None, 0, [];
    var picked := Pick(store);
    if picked.None? {
      return NothingReady, None, 0, [];
    }
    id := picked.value.0;
    report := CouldNot;
    ClaimTellsNothing(s, id);
    TellsNothing(s, id);
    var won, claimed := store.TryClaim(id);
    if claimed.Failed? {
      return;
    }
    if !won {
      return RaceLost, None, id, [];
    }
    var claim := T.Claim(agent, claimedAt, ttl);
    var took := TellOne(s, store.View(), id, [], claim, store.writesAllowed);
    ClaimKeepsVerifyBead(store.View(), id, claim);
    ghost var taken, left := store.View(), store.writesAllowed;
    var ended, now := Transition.ApplyEvent(store, id, claim);
    assert [] + [claim] == [claim];
    events := if took then [claim] else [];
    leased := if ended.Done? then now else None;
    if ended.Done? {
      CompletedNotes(taken, id, claim, left);
    }
  }

  lemma ClaimKeepsVerifyBead(s: Store, id: BeadId, claim: T.Event)
    requires s.IsTask(id) && claim.Claim?
    ensures var o := s.TaskOf(id).Apply(claim); o.Accepted? ==> o.task.verifyBead == s.beads[id].meta.value.verifyBead
  {
  }

  /** Claim the first claimable task and work on it once. However it ends, and wherever the store dies, the
      task took a claim, heartbeats and at most one ending, in this order, and no other task changed; and the
      whole is a run of the protocol by worker steps alone. */
  method WorkOnce(store: BeadStore, agent: AgentId, ttl: Duration, branch: Branch, w: World, ghost start: P.Sys)
      returns (report: Report, ghost id: BeadId, ghost events: seq<T.Event>, ghost steps: seq<P.Step>)
    requires store.Valid() && start.store == store.View() && R.Idle(start)
    modifies store
    ensures store.Valid()
    ensures var r := Worked(old(store.View()), agent, ttl, branch, w, old(store.writesAllowed));
            store.View() == r.store && store.writesAllowed == r.left
    ensures R.Leads(R.Worker, start, steps, store.View())
    ensures report.NothingReady? ==> store.View() == old(store.View()) && forall t :: !Claimable(store.View(), t)
    ensures !report.NothingReady? ==>
              && Claimable(old(store.View()), id) && (forall t: BeadId :: t < id ==> !Claimable(old(store.View()), t))
              && Told(old(store.View()), store.View(), id, events)
    ensures IsConversation(agent, events) && Reports(report, agent, branch, w, events)
    ensures report.Stopped? || report.GaveBack? || report.Submitted? ==>
              && events == [T.Claim(agent, w.claimedAt, ttl)] + Beats(agent, w.session.ticks) + [events[|events| - 1]]
              && old(store.View()).beads[id].meta.value.verifyBead in old(store.View()).beads
              && w.from.Some? && w.head.Some? && store.View().IsTask(id)
              && Charged(report, branch, w, old(store.View()).TaskOf(id), store.View().TaskOf(id))
              && NotesAfter(report, w, events, old(store.View()).beads[id].notes, store.View().beads[id].notes)
    ensures var s := old(store.View());
            ToClaim(s).Some? && CanFinish(s, ToClaim(s).value, ttl, w, old(store.writesAllowed)) ==>
              report.Stopped? || report.GaveBack? || report.Submitted?
  {
    hide Told, R.Leads, Leased, Finished, ToClaim;
    steps := WorkOnceIsARun(start, agent, ttl, branch, w, store.writesAllowed);
    HealthySessionCompletes(store.View(), agent, ttl, branch, w, store.writesAllowed);
    var task, leased;
    report, leased, task, events := Take(store, agent, ttl, w.claimedAt);
    id := task;
    if leased.None? {
      return;
    }
    var verify := store.Show(leased.value.verifyBead);
    if verify.None? || w.from.None? {
      return;
    }
    report, events := Finish(store, task, agent, ttl, branch, w, start.store, events);
    if !report.CouldNot? {
      ToldIsAfter(start.store, store.View(), id, events);
      SessionCharges(start.store.TaskOf(id), report, agent, branch, ttl, w, events, events[|events| - 1]);
    }
  }

  // ---- when a session cannot fail -----------------------------------------------------------------------------------

  /** Nothing outside the lease goes wrong: nobody else holds the ledger's claim, the task's verify bead exists, the
      worktree and the session answer, the beats are in time, and the store outlives the writes. */
  predicate CanFinish(s: Store, id: BeadId, ttl: Duration, w: World, allowed: nat) {
    && id in s.beads && !s.beads[id].status.InProgress?
    && s.beads[id].meta.Some? && s.beads[id].meta.value.verifyBead in s.beads
    && w.from.Some? && w.head.Some? && w.session.outcome.Some?
    && w.claimedAt >= 0 && Spaced(w.claimedAt, ttl, w.session.ticks)
    && allowed >= |w.session.ticks| + 5
  }

  /** The agent's lease in the ledger, which runs `ttl` beyond `last`. */
  ghost predicate Held(s: Store, id: BeadId, agent: AgentId, claimedAt: Timestamp, ttl: Duration, last: Timestamp) {
    && s.Valid() && s.IsTask(id) && s.StateOf(id).Leased?
    && s.StateOf(id).lease.holder == agent && s.StateOf(id).lease.claimedAt == claimedAt
    && s.StateOf(id).lease.expires >= Min(I64_MAX, last + ttl)
    && s.StateOf(id).lease.expires >= Min(I64_MAX, claimedAt + ttl)
  }

  predicate InTime(last: Timestamp, claimedAt: Timestamp, ttl: Duration, ticks: seq<Timestamp>) {
    forall i :: 0 <= i < |ticks| ==>
      claimedAt <= ticks[i] < I64_MAX && ticks[i] < Before(last, ticks, i) + ttl
  }

  /** A claim, a beat and a submission take one write, the task's new metadata. */
  lemma OneWrite(s: Store, id: BeadId, e: T.Event, allowed: nat)
    requires s.Valid() && s.IsTask(id) && (e.Claim? || e.Heartbeat? || e.Submit?)
    requires s.TaskOf(id).Apply(e).Accepted? && allowed > 0
    ensures Transition.Applied(s, id, e, allowed) == Ran(
              s.With(id, s.beads[id].(meta := Some(MetaOf(s.TaskOf(id).Apply(e).task)))), allowed - 1, Done)
  {
    hide T.Task.Apply;
    var t := s.TaskOf(id);
    Table.AcceptedIff(t, e);
    Table.AcceptedLeadsTo(t, e);
    Table.AcceptedAsks(t, e);
    PerformCons(s, SetMeta(id, MetaOf(t.Apply(e).task)), [], allowed);
  }

  lemma ClaimHolds(s: Store, id: BeadId, agent: AgentId, ttl: Duration, claimedAt: Timestamp, allowed: nat)
    requires s.Valid() && s.IsTask(id) && s.StateOf(id).Open? && claimedAt >= 0 && allowed > 1
    ensures var r := Leased(s, id, agent, ttl, claimedAt, allowed);
            && r.ended.Done? && r.left == allowed - 2 && Held(r.store, id, agent, claimedAt, ttl, claimedAt)
            && r.store.beads.Keys == s.beads.Keys
  {
    hide T.Task.Apply, Transition.Applied;
    var claim := T.Claim(agent, claimedAt, ttl);
    Table.AcceptedIff(s.TaskOf(id), claim);
    Table.AcceptedLeadsTo(s.TaskOf(id), claim);
    OneWrite(Claimed(s, id), id, claim, allowed - 1);
  }

  lemma {:induction false} BeatsHold(s: Store, id: BeadId, agent: AgentId, claimedAt: Timestamp, ttl: Duration,
                                     last: Timestamp, ticks: seq<Timestamp>, allowed: nat)
    requires Held(s, id, agent, claimedAt, ttl, last) && 0 <= claimedAt && InTime(last, claimedAt, ttl, ticks)
    requires allowed >= |ticks|
    ensures var r := AllTold(s, id, Beats(agent, ticks), allowed);
            && r.ended.Done? && r.left == allowed - |ticks|
            && exists to :: Held(r.store, id, agent, claimedAt, ttl, to)
    decreases |ticks|
  {
    hide T.Task.Apply, Transition.Applied, Held, InTime;
    if ticks != [] {
      BeatHolds(s, id, agent, claimedAt, ttl, last, ticks, allowed);
      var first := Transition.Applied(s, id, T.Heartbeat(agent, ticks[0]), allowed);
      assert Beats(agent, ticks)[1..] == Beats(agent, ticks[1..]);
      BeatsHold(first.store, id, agent, claimedAt, ttl, ticks[0], ticks[1..], first.left);
    }
  }

  lemma BeatHolds(s: Store, id: BeadId, agent: AgentId, claimedAt: Timestamp, ttl: Duration, last: Timestamp,
                  ticks: seq<Timestamp>, allowed: nat)
    requires Held(s, id, agent, claimedAt, ttl, last) && 0 <= claimedAt && InTime(last, claimedAt, ttl, ticks)
    requires ticks != [] && allowed > 0
    ensures InTime(ticks[0], claimedAt, ttl, ticks[1..])
    ensures var r := Transition.Applied(s, id, T.Heartbeat(agent, ticks[0]), allowed);
            r.ended.Done? && r.left == allowed - 1 && Held(r.store, id, agent, claimedAt, ttl, ticks[0])
  {
    hide T.Task.Apply, Transition.Applied;
    assert ticks[0] < Before(last, ticks, 0) + ttl;
    forall i | 0 <= i < |ticks| - 1
      ensures claimedAt <= ticks[1..][i] < I64_MAX && ticks[1..][i] < Before(ticks[0], ticks[1..], i) + ttl
    {
      assert ticks[i + 1] < Before(last, ticks, i + 1) + ttl;
    }
    BeatInTime(s.TaskOf(id), agent, claimedAt, ttl, ticks[0]);
    OneWrite(s, id, T.Heartbeat(agent, ticks[0]), allowed);
  }

  /** The agent that holds the lease may end the session in any of the three ways. */
  lemma EndingCompletes(s: Store, id: BeadId, agent: AgentId, e: T.Event, allowed: nat)
    requires s.Valid() && s.IsTask(id) && s.StateOf(id).Leased? && s.StateOf(id).lease.holder == agent
    requires IsEnding(agent, e) && allowed >= 3
    ensures var r := Transition.Applied(s, id, e, allowed);
            r.ended.Done? && (e.Submit? ==> r.left == allowed - 1 && id in r.store.beads)
  {
    hide T.Task.Apply, Transition.Applied;
    Table.AcceptedIff(s.TaskOf(id), e);
    Table.AcceptedLeadsTo(s.TaskOf(id), e);
    C.CompletesIff(s, id, e, allowed);
    if e.Submit? {
      OneWrite(s, id, e, allowed);
    }
  }

  /** A session on a claimable task in which nothing else goes wrong runs to its end: no beat and no ending is
      refused. */
  lemma HealthySessionCompletes(s: Store, agent: AgentId, ttl: Duration, branch: Branch, w: World, allowed: nat)
    requires s.Valid()
    ensures ToClaim(s).Some? && CanFinish(s, ToClaim(s).value, ttl, w, allowed) ==>
              var id := ToClaim(s).value;
              var leased := Leased(s, id, agent, ttl, w.claimedAt, allowed);
              && leased.ended.Done? && s.beads[id].meta.value.verifyBead in leased.store.beads
              && Finished(leased.store, id, agent, branch, w, leased.left).ended.Done?
              && Worked(s, agent, ttl, branch, w, allowed).ended.Done?
  {
    hide ToClaim, Leased, AllTold, Transition.Applied, Held, ReleaseNote, ErrorNote, Verifiable, InTime;
    ToClaimIsFirst(s);
    FirstClaimableIsClaimable(s, ReadyUpTo(s, Task, s.next));
    if ToClaim(s).Some? && CanFinish(s, ToClaim(s).value, ttl, w, allowed) {
      var id := ToClaim(s).value;
      ClaimHolds(s, id, agent, ttl, w.claimedAt, allowed);
      var leased := Leased(s, id, agent, ttl, w.claimedAt, allowed);
      SpacedIsInTime(w.claimedAt, ttl, w.session.ticks);
      BeatsHold(leased.store, id, agent, w.claimedAt, ttl, w.claimedAt, w.session.ticks, leased.left);
      var beaten := AllTold(leased.store, id, Beats(agent, w.session.ticks), leased.left);
      HeldIsLeased(beaten.store, id, agent, w.claimedAt, ttl);
      EndingCompletes(beaten.store, id, agent, EndingOf(agent, branch, w, w.head.value, w.session.outcome.value),
                      beaten.left);
    }
  }

  lemma SpacedIsInTime(claimedAt: Timestamp, ttl: Duration, ticks: seq<Timestamp>)
    requires Spaced(claimedAt, ttl, ticks)
    ensures InTime(claimedAt, claimedAt, ttl, ticks)
  {
  }

  lemma HeldIsLeased(s: Store, id: BeadId, agent: AgentId, claimedAt: Timestamp, ttl: Duration)
    requires exists to :: Held(s, id, agent, claimedAt, ttl, to)
    ensures s.Valid() && s.IsTask(id) && s.StateOf(id).Leased? && s.StateOf(id).lease.holder == agent
  {
  }

  lemma ToldHas(a: Store, b: Store, id: BeadId, events: seq<T.Event>)
    requires Told(a, b, id, events)
    ensures id in b.beads
  {
  }

  lemma ToldIsAfter(a: Store, b: Store, id: BeadId, events: seq<T.Event>)
    requires Told(a, b, id, events)
    ensures a.IsTask(id) && b.IsTask(id) && b.TaskOf(id) == Runs.After(a.TaskOf(id), events)
  {
  }

  /** Heartbeats while the session lasts, then the ending. */
  method Finish(store: BeadStore, id: BeadId, agent: AgentId, ttl: Duration, branch: Branch, w: World,
                ghost start: Store, ghost before: seq<T.Event>)
      returns (report: Report, ghost events: seq<T.Event>)
    requires store.Valid() && Told(start, store.View(), id, before) && before == [T.Claim(agent, w.claimedAt, ttl)]
    modifies store
    ensures store.Valid() && Told(start, store.View(), id, events)
    ensures var r := Finished(old(store.View()), id, agent, branch, w, old(store.writesAllowed));
            store.View() == r.store && store.writesAllowed == r.left
    ensures IsConversation(agent, events) && Reports(report, agent, branch, w, events)
    ensures report.CouldNot? || report.Stopped? || report.GaveBack? || report.Submitted?
    ensures report.CouldNot? ==>
              || w.head.None? || w.session.outcome.None?
              || Finished(old(store.View()), id, agent, branch, w, old(store.writesAllowed)).ended.Failed?
    ensures !report.CouldNot? ==>
              && w.head.Some? && events == before + Beats(agent, w.session.ticks) + [events[|events| - 1]]
              && id in old(store.View()).beads && id in store.View().beads
              && NotesAfter(report, w, events, old(store.View()).beads[id].notes, store.View().beads[id].notes)
  {
    hide Told, AllTold, Transition.Applied, ReleaseNote, SaysWhy;
    ToldHas(start, store.View(), id, before);
    ghost var s, allowed := store.View(), store.writesAllowed;
    report := CouldNot;
    var outcome;
    ghost var beaten;
    outcome, events, beaten := RunWithHeartbeats(store, id, agent, w.session, start, before);
    BeatsAreAConversation(agent, before[0], w.session.ticks);
    ghost var k :| 0 <= k <= |w.session.ticks| && events == before + Beats(agent, w.session.ticks[..k]);
    if w.head.None? || outcome.None? {
      return;
    }
    var ending := EndingOf(agent, branch, w, w.head.value, outcome.value);
    var ended;
    BeatsKeepNotes(s, id, Beats(agent, w.session.ticks), allowed);
    EndingSaysWhy(w, outcome.value);
    ghost var now, left := store.View(), store.writesAllowed;
    ended, events := Tell(store, id, ending, start, events);
    if ended.Failed? {
      return;
    }
    CompletedNotes(now, id, ending, left);
    if ending.Submit? && outcome.value.isError {
      NoteTellsNothing(start, store.View(), id, events, ErrorNote(outcome.value), store.writesAllowed);
      ended := store.Do(Note(id, ErrorNote(outcome.value)));
      if ended.Failed? {
        return;
      }
    }
    report := if ending.ProviderStopped? then Stopped else if ending.Release? then GaveBack
        else Submitted(w.head.value);
  }

  // ---- a session is a run of the protocol -----------------------------------------------------------------------

  lemma {:induction false} AllToldIsARun(start: P.Sys, before: seq<P.Step>, b: Store, id: BeadId,
                                         events: seq<T.Event>, allowed: nat)
      returns (steps: seq<P.Step>)
    requires R.Leads(R.Worker, start, before, b) && forall e :: e in events ==> P.IsWorkerEvent(e)
    ensures R.Leads(R.Worker, start, steps, AllTold(b, id, events, allowed).store)
    decreases |events|
  {
    hide R.Leads, Transition.Applied;
    steps := before;
    if events != [] {
      assert events[0] in events;
      var first := Transition.Applied(b, id, events[0], allowed);
      steps := R.WorkIsARun(start, before, b, id, events[0], allowed);
      if first.ended.Done? {
        steps := AllToldIsARun(start, steps, first.store, id, events[1..], first.left);
      }
    }
  }

  lemma FinishIsARun(start: P.Sys, before: seq<P.Step>, b: Store, id: BeadId, agent: AgentId, branch: Branch,
                     w: World, allowed: nat)
      returns (steps: seq<P.Step>)
    requires R.Leads(R.Worker, start, before, b)
    ensures R.Leads(R.Worker, start, steps, Finished(b, id, agent, branch, w, allowed).store)
  {
    hide R.Leads, Transition.Applied, AllTold, ReleaseNote, ErrorNote, Verifiable;
    var beaten := AllTold(b, id, Beats(agent, w.session.ticks), allowed);
    steps := AllToldIsARun(start, before, b, id, Beats(agent, w.session.ticks), allowed);
    if beaten.ended.Done? && w.head.Some? && w.session.outcome.Some? {
      var outcome := w.session.outcome.value;
      var ending := EndingOf(agent, branch, w, w.head.value, outcome);
      var told := Transition.Applied(beaten.store, id, ending, beaten.left);
      steps := R.WorkIsARun(start, steps, beaten.store, id, ending, beaten.left);
      if told.ended.Done? && ending.Submit? && outcome.isError {
        steps := R.NoteIsARun(start, steps, told.store, id, ErrorNote(outcome), told.left);
      }
    }
  }

  /** Whatever a session does to the ledger, cut off anywhere, worker steps of the protocol do. */
  lemma WorkOnceIsARun(start: P.Sys, agent: AgentId, ttl: Duration, branch: Branch, w: World, allowed: nat)
      returns (steps: seq<P.Step>)
    requires R.Idle(start)
    ensures R.Leads(R.Worker, start, steps, Worked(start.store, agent, ttl, branch, w, allowed).store)
  {
    hide R.Leads, Transition.Applied, ToClaim, Finished;
    var s := start.store;
    steps := [];
    R.LeadsNowhere(R.Worker, start);
    FirstClaimableIsClaimable(s, ReadyUpTo(s, Task, s.next));
    ToClaimIsFirst(s);
    if ToClaim(s).Some? && !s.beads[ToClaim(s).value].status.InProgress? && allowed > 0 {
      var id := ToClaim(s).value;
      var leased := Leased(s, id, agent, ttl, w.claimedAt, allowed);
      steps := R.LeaseIsARun(start, id, agent, w.claimedAt, ttl, allowed - 1);
      if leased.ended.Done? && s.beads[id].meta.value.verifyBead in leased.store.beads && w.from.Some? {
        steps := FinishIsARun(start, steps, leased.store, id, agent, branch, w, leased.left);
      }
    }
  }

  lemma ToClaimIsFirst(s: Store)
    ensures ToClaim(s) == FirstClaimable(s, ReadyUpTo(s, Task, s.next))
  {
  }

  lemma TellsNothing(s: Store, id: BeadId)
    requires s.Valid() && s.IsTask(id)
    ensures Told(s, s, id, [])
  {
  }

  lemma NoteTellsNothing(a: Store, b: Store, id: BeadId, events: seq<T.Event>, text: string, allowed: nat)
    requires Told(a, b, id, events)
    ensures Told(a, PerformOne(b, Note(id, text), allowed).store, id, events)
  {
    hide Runs.After;
    F.PerformTouches(b, [Note(id, text)], allowed, {id}, {Incident});
    PerformCons(b, Note(id, text), [], allowed);
    F.TouchesTogether(a, b, PerformOne(b, Note(id, text), allowed).store, {id}, {id}, {Incident});
    assert {id} + {id} == {id};
  }

  /** A claim and any number of heartbeats, with or without an ending. */
  lemma BeatsAreAConversation(agent: AgentId, claim: T.Event, ticks: seq<Timestamp>)
    requires claim.Claim? && claim.holder == agent
    ensures forall k :: 0 <= k <= |ticks| ==> IsConversation(agent, [claim] + Beats(agent, ticks[..k]))
    ensures forall e :: IsEnding(agent, e) ==> IsConversation(agent, [claim] + Beats(agent, ticks) + [e])
  {
  }

  // ---- what follows -------------------------------------------------------------------------------------------------

  /** Claiming an open task and beating changes nothing but the lease. */
  lemma {:induction false} BeatsOnlyRenew(t: T.Task, agent: AgentId, claimedAt: Timestamp, ttl: Duration,
                                          ticks: seq<Timestamp>)
    requires t.state.Open?
    ensures var after := Runs.After(t, [T.Claim(agent, claimedAt, ttl)] + Beats(agent, ticks));
            && after.state.Leased? && after.state.lease.holder == agent && after.state.lease.claimedAt == claimedAt
            && after == t.(state := after.state)
    decreases |ticks|
  {
    hide T.Task.Apply, Runs.After;
    var claim := T.Claim(agent, claimedAt, ttl);
    if ticks == [] {
      ClaimOnlyLeases(t, agent, claimedAt, ttl);
      assert [claim] + Beats(agent, ticks) == [] + [claim];
    } else {
      var n := |ticks| - 1;
      var before, beat := [claim] + Beats(agent, ticks[..n]), T.Heartbeat(agent, ticks[n]);
      BeatsOnlyRenew(t, agent, claimedAt, ttl, ticks[..n]);
      BeatOnlyRenews(Runs.After(t, before), agent, ticks[n]);
      Runs.AfterSnoc(t, before, beat);
      assert [claim] + Beats(agent, ticks) == before + [beat];
    }
  }

  lemma ClaimOnlyLeases(t: T.Task, agent: AgentId, claimedAt: Timestamp, ttl: Duration)
    requires t.state.Open?
    ensures var after := Runs.After(t, [] + [T.Claim(agent, claimedAt, ttl)]);
            && after.state.Leased? && after.state.lease.holder == agent && after.state.lease.claimedAt == claimedAt
            && after == t.(state := after.state)
  {
    Runs.AfterSnoc(t, [], T.Claim(agent, claimedAt, ttl));
  }

  lemma BeatOnlyRenews(t: T.Task, agent: AgentId, now: Timestamp)
    requires t.state.Leased?
    ensures var o := t.Apply(T.Heartbeat(agent, now));
            o.Accepted? ==>
              && o.task.state.Leased? && o.task == t.(state := o.task.state)
              && o.task.state.lease == t.state.lease.(expires := o.task.state.lease.expires)
  {
  }

  /** A session the provider cut off leaves the task exactly as it was before the claim. */
  lemma StoppedSessionIsUncharged(t: T.Task, agent: AgentId, claimedAt: Timestamp, ttl: Duration, ticks: seq<Timestamp>)
    requires t.state.Open?
    ensures Runs.After(t, [T.Claim(agent, claimedAt, ttl)] + Beats(agent, ticks) + [T.ProviderStopped(agent)]) == t
  {
    BeatsOnlyRenew(t, agent, claimedAt, ttl, ticks);
    Runs.AfterSnoc(t, [T.Claim(agent, claimedAt, ttl)] + Beats(agent, ticks), T.ProviderStopped(agent));
  }

  /** The clock reading before the beat at `i`. */
  function Before(claimedAt: Timestamp, ticks: seq<Timestamp>, i: nat): Timestamp
    requires i < |ticks|
  {
    if i == 0 then claimedAt else ticks[i - 1]
  }

  /** Every beat comes less than `ttl` after the one before it, the first after the claim. */
  predicate Spaced(claimedAt: Timestamp, ttl: Duration, ticks: seq<Timestamp>) {
    forall i :: 0 <= i < |ticks| ==>
      claimedAt <= ticks[i] < I64_MAX && ticks[i] < Before(claimedAt, ticks, i) + ttl
  }

  /** A worker that beats in time keeps its lease to the end of the session: no heartbeat is refused, and the
      lease still runs `ttl` beyond the last one. */
  lemma {:induction false} BeatsInTimeKeepTheLease(
      t: T.Task, agent: AgentId, claimedAt: Timestamp, ttl: Duration, ticks: seq<Timestamp>)
    requires t.state.Open? && claimedAt >= 0 && Spaced(claimedAt, ttl, ticks)
    ensures var events := [T.Claim(agent, claimedAt, ttl)] + Beats(agent, ticks);
            var after := Runs.After(t, events);
            && Runs.Log(t, events) == events
            && after.state.Leased? && after.state.lease.holder == agent && after.state.lease.claimedAt == claimedAt
            && after.state.lease.expires >= Min(I64_MAX, (if ticks == [] then claimedAt else ticks[|ticks| - 1]) + ttl)
            && after.state.lease.expires >= Min(I64_MAX, claimedAt + ttl)
    decreases |ticks|
  {
    hide T.Task.Apply, Runs.After, Runs.Log, Spaced;
    var claim := T.Claim(agent, claimedAt, ttl);
    if ticks == [] {
      assert [claim] + Beats(agent, ticks) == [] + [claim];
      ClaimLeases(t, agent, claimedAt, ttl);
    } else {
      var n := |ticks| - 1;
      var before, beat := [claim] + Beats(agent, ticks[..n]), T.Heartbeat(agent, ticks[n]);
      SpacedPrefix(claimedAt, ttl, ticks);
      BeatsInTimeKeepTheLease(t, agent, claimedAt, ttl, ticks[..n]);
      assert [claim] + Beats(agent, ticks) == before + [beat];
      Runs.AfterSnoc(t, before, beat);
      Runs.LogSnoc(t, before, beat);
      BeatInTime(Runs.After(t, before), agent, claimedAt, ttl, ticks[n]);
    }
  }

  lemma SpacedPrefix(claimedAt: Timestamp, ttl: Duration, ticks: seq<Timestamp>)
    requires ticks != [] && Spaced(claimedAt, ttl, ticks)
    ensures var n := |ticks| - 1;
            && Spaced(claimedAt, ttl, ticks[..n]) && claimedAt <= ticks[n] < I64_MAX
            && ticks[n] < (if ticks[..n] == [] then claimedAt else ticks[..n][n - 1]) + ttl
  {
    var n := |ticks| - 1;
    forall i | 0 <= i <= n
      ensures claimedAt <= ticks[i] < I64_MAX && ticks[i] < Before(claimedAt, ticks, i) + ttl
    {
    }
    forall i | 0 <= i < n
      ensures ticks[..n][i] == ticks[i] && Before(claimedAt, ticks[..n], i) == Before(claimedAt, ticks, i)
    {
    }
    assert Before(claimedAt, ticks, n) == if n == 0 then claimedAt else ticks[..n][n - 1];
  }

  lemma ClaimLeases(t: T.Task, agent: AgentId, claimedAt: Timestamp, ttl: Duration)
    requires t.state.Open? && claimedAt >= 0
    ensures var claim := T.Claim(agent, claimedAt, ttl);
            var after := Runs.After(t, [] + [claim]);
            && Runs.Log(t, [] + [claim]) == [] + [claim]
            && after.state.Leased? && after.state.lease.holder == agent && after.state.lease.claimedAt == claimedAt
            && after.state.lease.expires == Min(I64_MAX, claimedAt + ttl)
  {
    Runs.AfterSnoc(t, [], T.Claim(agent, claimedAt, ttl));
    Runs.LogSnoc(t, [], T.Claim(agent, claimedAt, ttl));
  }

  lemma BeatInTime(t: T.Task, agent: AgentId, claimedAt: Timestamp, ttl: Duration, now: Timestamp)
    requires t.state.Leased? && t.state.lease.holder == agent && t.state.lease.claimedAt == claimedAt
             && 0 <= claimedAt <= now
    requires now < t.state.lease.expires && t.state.lease.expires >= Min(I64_MAX, claimedAt + ttl)
    ensures var o := t.Apply(T.Heartbeat(agent, now));
            && o.Accepted? && o.task.state.Leased?
            && o.task.state.lease.holder == agent && o.task.state.lease.claimedAt == claimedAt
            && o.task.state.lease.expires >= Min(I64_MAX, now + ttl)
            && o.task.state.lease.expires >= Min(I64_MAX, claimedAt + ttl)
  {
  }
}
