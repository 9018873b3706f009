// The state machine event by event: who may send what and when, where it leads, what it charges and what it
// asks of the ledger. Conditions are on state, holder, clock and counters; nothing here looks at how the
// machine decides.
module TaskTable {
  import opened Ids
  import opened Time
  import opened Text
  import opened Budget
  import opened Task
  import opened TaskRuns
  import L = Lease

  // ---- when an event is accepted --------------------------------------------------------------------------

  /** The agent holds the task's lease. */
  predicate Holds(t: Task, agent: AgentId) {
    t.state.Leased? && t.state.lease.holder == agent
  }

  predicate IsHolders(e: Event) {
    e.Heartbeat? || e.Submit? || e.Release? || e.ProviderStopped?
  }

  /** The events a task takes, by its state, the holder of its lease and the clock. */
  predicate Takes(t: Task, e: Event) {
    match e
    case Claim(_, _, _) => t.state.Open?
    case Heartbeat(agent, now) => Holds(t, agent) && now < t.state.lease.expires
    case Submit(agent, _, _, _, _) => Holds(t, agent)
    case Release(agent, _, _, _) => Holds(t, agent)
    case ProviderStopped(agent) => Holds(t, agent)
    case LeaseExpired(now) => t.state.Leased? && now >= t.state.lease.expires
    case VerifyPassed => t.state.InVerify?
    case VerifyBlocked(_) => t.state.InVerify?
    case VerifyFailed(_) => t.state.InVerify?
    case Merged(_) => t.state.Mergeable?
    case MergeFailed(_) => t.state.Mergeable?
    case Escalate(_) => t.state.Open? || t.state.Leased? || t.state.InVerify? || t.state.Mergeable?
    case Cancel(_) => !t.state.Closed? && !t.state.Canceled?
    case OperatorRetry(_) => t.state.Incident?
  }

  /** The acceptance table: each of the fourteen events is accepted exactly when the task takes it. */
  lemma AcceptedIff(t: Task, e: Event)
    ensures t.Apply(e).Accepted? <==> Takes(t, e)
  {
  }

  /** Why an event is refused: a holder's event on another's lease names both agents, the holder's own late
      heartbeat names the expiry, anything else is not allowed in the state. */
  lemma RefusedBecause(t: Task, e: Event)
    requires !Takes(t, e)
    ensures t.Apply(e) == Refused(
              if IsHolders(e) && t.state.Leased? && t.state.lease.holder != e.holder
              then NotHolder(t.id, e.holder, t.state.lease.holder)
              else if e.Heartbeat? && Holds(t, e.holder) then LeaseOver(t.id, t.state.lease.expires)
              else NotAllowed(t.id, t.state, e))
  {
  }

  // ---- where it leads -------------------------------------------------------------------------------------

  /** The limits a usage breaks, in the order in which they are reported. */
  predicate Breaks(limits: Limits, usage: Usage, exceeded: Exceeded) {
    match exceeded
    case AttemptLimit(used, limit) => used == usage.attempts >= limits.attempts == limit
    case TokenLimit(used, limit) => usage.attempts < limits.attempts && used == usage.tokens > limits.tokens == limit
    case WallClockLimit(used, limit) =>
      && usage.attempts < limits.attempts && usage.tokens <= limits.tokens
      && used == usage.wallClock > limits.wallClock == limit
  }

  predicate InBudget(limits: Limits, usage: Usage) {
    usage.attempts < limits.attempts && usage.tokens <= limits.tokens && usage.wallClock <= limits.wallClock
  }

  /** A check finds nothing exactly when every limit is kept, and else the first one that is not. */
  lemma CheckIff(limits: Limits, usage: Usage)
    ensures limits.Check(usage).Within? <==> InBudget(limits, usage)
    ensures forall x :: limits.Check(usage) == Over(x) <==> Breaks(limits, usage, x)
  {
  }

  /** A task that is given back with the usage `now` is open again if that is within budget, else an incident
      that names the limit. */
  predicate GivenBack(t: Task, now: Usage, state: State) {
    if InBudget(t.budget, now) then state.Open?
    else state.Incident? && state.reason.BudgetSpent? && Breaks(t.budget, now, state.reason.exceeded)
  }

  /** The state the event leads to; `now` is the usage after it. */
  predicate LeadsTo(t: Task, e: Event, now: Usage, state: State)
    requires Takes(t, e)
  {
    match e
    case Claim(agent, at, ttl) =>
      state.Leased? && state.lease.holder == agent && state.lease.claimedAt == at
      && state.lease.expires == Min(at + Min(ttl, I64_MAX), I64_MAX)
    case Heartbeat(agent, at) =>
      var lease := t.state.lease;
      state.Leased? && state.lease.holder == agent && state.lease.claimedAt == lease.claimedAt
      && state.lease.expires == Min(at + Span(lease.claimedAt, lease.expires), I64_MAX)
    case Submit(_, branch, head, _, _) => state == InVerify(branch, head)
    case LeaseExpired(_) =>
      if t.leaseExpiries < 2 then state.Open? else state == Incident(LeaseStorm(Min(t.leaseExpiries + 1, U32_MAX)))
    case Release(_, _, note, blocked) =>
      if blocked && t.blockedReleases >= 1
      then state == Incident(ReleaseLoop(Min(t.blockedReleases + 1, U32_MAX), FirstLine(note)))
      else GivenBack(t, now, state)
    case ProviderStopped(_) => state.Open?
    case VerifyPassed => state == Mergeable(t.state.branch, t.state.head)
    case VerifyBlocked(note) => state == Incident(Environment(FirstLine(note)))
    case VerifyFailed(_) => GivenBack(t, now, state)
    case Merged(commit) => state == Closed(commit)
    case MergeFailed(detail) =>
      if InBudget(t.budget, now) then state.Open? else state == Incident(MergeConflict(detail))
    case Escalate(reason) => state == Incident(reason)
    case Cancel(actor) => state == Canceled(actor)
    case OperatorRetry(_) => state.Open?
  }

  /** Seconds from one time to a later one, none if it is earlier, as far as a timestamp can hold. */
  function Span(from: Timestamp, to: Timestamp): nat {
    if to < from then 0 else Min(to - from, I64_MAX)
  }

  /** Every accepted event leads where the table says, and neither renames a task nor moves its verify bead, its
      base or its budget. */
  lemma AcceptedLeadsTo(t: Task, e: Event)
    requires Takes(t, e)
    ensures t.Apply(e).Accepted?
    ensures var next := t.Apply(e).task;
            && LeadsTo(t, e, next.usage, next.state)
            && next.id == t.id && next.verifyBead == t.verifyBead && next.base == t.base && next.budget == t.budget
  {
  }

  // ---- what it charges ------------------------------------------------------------------------------------

  /** The length of the session an event ends, which it charges to the task. */
  function Session(t: Task, e: Event): nat {
    if t.state.Leased? && (e.Submit? || e.Release? || e.LeaseExpired?) then Span(t.state.lease.claimedAt, e.now) else 0
  }

  /** Each counter after an accepted event: a submission charges its tokens and the session's length; a release
      and an expiry charge the length; a release, a failed verification and a failed merge charge an attempt;
      an expiry counts as one; blocked releases count until a submission or another release; a retry forgets
      everything. */
  lemma AcceptedCharges(t: Task, e: Event)
    requires Takes(t, e)
    ensures t.Apply(e).Accepted?
    ensures var next := t.Apply(e).task;
            if e.OperatorRetry? then next.usage == Usage(0, 0, 0) && next.leaseExpiries == next.blockedReleases == 0
            else
              && next.usage.tokens == Min(t.usage.tokens + (if e.Submit? then e.tokens else 0), U64_MAX)
              && next.usage.wallClock == Min(t.usage.wallClock + Session(t, e), U64_MAX)
              && next.usage.attempts
                 == Min(t.usage.attempts + (if e.Release? || e.VerifyFailed? || e.MergeFailed? then 1 else 0), U32_MAX)
              && next.leaseExpiries == Min(t.leaseExpiries + (if e.LeaseExpired? then 1 else 0), U32_MAX)
              && next.blockedReleases
                 == (if e.Submit? || (e.Release? && !e.blocked) then 0
                     else Min(t.blockedReleases + (if e.Release? then 1 else 0), U32_MAX))
  {
  }

  // ---- what it asks of the ledger ---------------------------------------------------------------------------

  /** The note an accepted event leaves on the task, if any; `next` is the state it leads to. */
  function NoteOf(t: Task, e: Event, next: State): seq<string> {
    match e
    case LeaseExpired(now) =>
      if next.Open? && t.state.Leased?
      then ["lease held by " + t.state.lease.holder + " expired at " + Decimal(now)] else []
    case Release(_, _, note, _) => [note]
    case VerifyBlocked(note) => [note]
    case VerifyFailed(note) => [note]
    case MergeFailed(detail) => if next.Open? then ["merge failed: " + detail] else []
    case Cancel(actor) => ["canceled by " + actor]
    case OperatorRetry(note) => ["incident resolved by operator: " + note]
    case _ => []
  }

  /** The effects of an accepted event: its note, the incident bead if it leads to an incident, and what a passed
      verification, a merge and a cancel do to merge beads and to the task's own. No others, each once. */
  lemma AcceptedAsks(t: Task, e: Event)
    requires Takes(t, e)
    ensures t.Apply(e).Accepted?
    ensures var Accepted(next, effects) := t.Apply(e);
            var notes := NoteOf(t, e, next.state);
            effects ==
              (if e.Cancel? then [CloseMergeBeads(t.id)] else [])
              + (if notes == [] then [] else [AppendNote(t.id, notes[0])])
              + (if next.state.Incident? then [OpenIncidentBead(t.id, next.state.reason)] else [])
              + (if next.state.Mergeable? then [OpenMergeBead(t.id, next.state.branch, next.state.head)] else [])
              + (if next.state.Closed? then [CloseTaskBead(t.id), CloseVerifyBead(t.verifyBead)] else [])
  {
  }

  // ---- who speaks for a lease -----------------------------------------------------------------------------

  /** Event `i` of the log belongs to the lease that the claim at `j` granted: since then there were only
      heartbeats. */
  predicate OnLeaseOf(log: seq<Event>, j: nat, i: nat) {
    && j < i < |log| && log[j].Claim? && IsHolders(log[i]) && log[i].holder == log[j].holder
    && forall k :: j < k < i ==> log[k].Heartbeat? && log[k].holder == log[j].holder
  }

  /** Over any run from a fresh task, every heartbeat, submission, release and provider stop that was accepted
      came from the agent of the last claim before it, on the lease of that very claim. */
  lemma OnlyTheHolderSpeaks(start: Task, events: seq<Event>, i: nat)
    requires IsFresh(start) && i < |Log(start, events)| && IsHolders(Log(start, events)[i])
    ensures exists j :: OnLeaseOf(Log(start, events), j, i)
  {
    LogFacts(start, events);
  }

  /** The log's holder events are on the lease of a claim; while the task is leased, so is the present. */
  ghost predicate SpokenFor(t: Task, log: seq<Event>) {
    && (forall i: nat :: i < |log| && IsHolders(log[i]) ==> exists j: nat :: OnLeaseOf(log, j, i))
    && (t.state.Leased? ==> exists j: nat :: HeldSince(log, j, t.state.lease.holder))
  }

  ghost predicate HeldSince(log: seq<Event>, j: nat, agent: AgentId) {
    && j < |log| && log[j].Claim? && log[j].holder == agent
    && forall k :: j < k < |log| ==> log[k].Heartbeat? && log[k].holder == agent
  }

  lemma {:induction false} LogFacts(start: Task, events: seq<Event>)
    requires IsFresh(start)
    ensures SpokenFor(After(start, events), Log(start, events))
  {
    hide Task.Apply;
    if events != [] {
      var n := |events| - 1;
      var t, log := After(start, events[..n]), Log(start, events[..n]);
      LogFacts(start, events[..n]);
      if t.Apply(events[n]).Accepted? {
        SpokenForOn(t, log, events[n]);
      }
    }
  }

  lemma SpokenForOn(t: Task, log: seq<Event>, e: Event)
    requires SpokenFor(t, log) && t.Apply(e).Accepted?
    ensures SpokenFor(t.Apply(e).task, log + [e])
  {
    hide Task.Apply;
    AcceptedIff(t, e);
    AcceptedLeadsTo(t, e);
    var more, next := log + [e], t.Apply(e).task;
    forall i: nat | i < |more| && IsHolders(more[i])
      ensures exists j: nat :: OnLeaseOf(more, j, i)
    {
      if i < |log| {
        var j: nat :| OnLeaseOf(log, j, i);
        assert OnLeaseOf(more, j, i);
      } else {
        var j: nat :| HeldSince(log, j, e.holder);
        assert OnLeaseOf(more, j, i);
      }
    }
    if next.state.Leased? {
      if e.Claim? {
        assert HeldSince(more, |log|, e.holder);
      } else {
        var j: nat :| HeldSince(log, j, e.holder);
        assert HeldSince(more, j, e.holder);
      }
    }
  }

  /** So a late submission does not take over: an agent whose lease expired and was granted to another is refused
      by name, and the task stays with the other. */
  lemma LateSubmissionIsRefused(start: Task, first: AgentId, second: AgentId, branch: Branch, head: Sha)
    requires IsFresh(start) && first != second
    ensures var t := After(start, [Claim(first, 0, 10), LeaseExpired(10), Claim(second, 11, 10)]);
            && t.state.Leased? && t.state.lease == L.Lease(second, 11, 21)
            && t.Apply(Submit(first, branch, head, 12, 0)) == Refused(NotHolder(t.id, first, second))
  {
    var claim, expiry, again := Claim(first, 0, 10), LeaseExpired(10), Claim(second, 11, 10);
    AfterSnoc(start, [], claim);
    AfterSnoc(start, [claim], expiry);
    AfterSnoc(start, [claim, expiry], again);
    assert [] + [claim] == [claim] && [claim] + [expiry] == [claim, expiry];
    assert [claim, expiry] + [again] == [claim, expiry, again];
  }
}
