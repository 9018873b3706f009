// The task state machine: a total (state, event) table with leases, budgets and escalation counters.
module Task {
  import opened Ids
  import opened Time
  import opened Text
  import opened Budget
  import L = Lease

  datatype IncidentReason =
    | BudgetSpent(exceeded: Exceeded)
    | LeaseStorm(expiries: Attempts)
    | MergeConflict(detail: string)
    | Manual(detail: string)
    | Environment(detail: string)
    | ReleaseLoop(releases: Attempts, detail: string)

  datatype State =
    | Open
    | Leased(lease: L.Lease)
    | InVerify(branch: Branch, head: Sha)
    | Mergeable(branch: Branch, head: Sha)
    | Closed(merged: Sha)
    | Incident(reason: IncidentReason)
    | Canceled(actor: string)

  datatype Event =
    | Claim(holder: AgentId, now: Timestamp, ttl: Duration)
    | Heartbeat(holder: AgentId, now: Timestamp)
    | Submit(holder: AgentId, branch: Branch, head: Sha, now: Timestamp, tokens: Tokens)
    | LeaseExpired(now: Timestamp)
    | Release(holder: AgentId, now: Timestamp, note: string, blocked: bool)
    | ProviderStopped(holder: AgentId)
    | VerifyPassed
    | VerifyBlocked(note: string)
    | VerifyFailed(note: string)
    | Merged(merged: Sha)
    | MergeFailed(detail: string)
    | Escalate(reason: IncidentReason)
    | Cancel(actor: string)
    | OperatorRetry(note: string)

  datatype Effect =
    | OpenMergeBead(task: BeadId, branch: Branch, head: Sha)
    | OpenIncidentBead(task: BeadId, reason: IncidentReason)
    | AppendNote(task: BeadId, note: string)
    | CloseTaskBead(task: BeadId)
    | CloseVerifyBead(verify: BeadId)
    | CloseMergeBeads(task: BeadId)

  datatype Illegal =
    | NotAllowed(id: BeadId, state: State, event: Event)
    | NotHolder(id: BeadId, actor: AgentId, holder: AgentId)
    | LeaseOver(id: BeadId, expires: Timestamp)

  datatype Outcome =
    | Accepted(task: Task, effects: seq<Effect>)
    | Refused(why: Illegal)

  const MAX_LEASE_EXPIRIES: Attempts := 3
  const MAX_BLOCKED_RELEASES: Attempts := 2

  datatype Task = Task(
    id: BeadId,
    verifyBead: BeadId,
    base: Sha,
    budget: Limits,
    usage: Usage,
    leaseExpiries: Attempts,
    blockedReleases: Attempts,
    state: State) {

    /** Still somewhere between `Open` and `Mergeable`. */
    predicate Active() {
      state.Open? || state.Leased? || state.InVerify? || state.Mergeable?
    }

    predicate Terminal() {
      state.Closed? || state.Canceled?
    }

    function Escalated(reason: IncidentReason, before: seq<Effect>): Outcome {
      Accepted(this.(state := Incident(reason)), before + [OpenIncidentBead(id, reason)])
    }

    /** Back to `Open` while the budget holds, otherwise an incident naming the exceeded limit. */
    function Reopened(note: string): Outcome {
      match budget.Check(usage)
      case Within => Accepted(this.(state := Open), [AppendNote(id, note)])
      case Over(exceeded) => Escalated(BudgetSpent(exceeded), [AppendNote(id, note)])
    }

    /** Why a holder's event is refused, if it is: only the lease holder may send it. */
    function ByHolder(holder: AgentId, event: Event, accepted: Outcome): Outcome {
      if !state.Leased? then Refused(NotAllowed(id, state, event))
      else if state.lease.holder != holder then Refused(NotHolder(id, holder, state.lease.holder))
      else accepted
    }

    function Elapsed(now: Timestamp): Duration {
      if state.Leased? then Since(now, state.lease.claimedAt) else 0
    }

    function Renewed(now: Timestamp): Outcome
      requires state.Leased?
    {
      if state.lease.IsExpired(now) then Refused(LeaseOver(id, state.lease.expires))
      else
        var ttl := Since(state.lease.expires, state.lease.claimedAt);
        Accepted(this.(state := Leased(state.lease.Renew(now, ttl))), [])
    }

    function Submitted(branch: Branch, head: Sha, now: Timestamp, tokens: Tokens): Outcome {
      Accepted(
        this.(usage := usage.AddTokens(tokens).AddWallClock(Elapsed(now)),
              blockedReleases := 0,
              state := InVerify(branch, head)),
        [])
    }

    function Reaped(now: Timestamp): Outcome
      requires state.Leased?
    {
      var expiries := Incr(leaseExpiries);
      var t := this.(usage := usage.AddWallClock(Elapsed(now)), leaseExpiries := expiries);
      if expiries >= MAX_LEASE_EXPIRIES then t.Escalated(LeaseStorm(expiries), [])
      else
        var note := "lease held by " + state.lease.holder + " expired at " + Decimal(now);
        Accepted(t.(state := Open), [AppendNote(id, note)])
    }

    function Released(now: Timestamp, note: string, blocked: bool): Outcome {
      var releases := if blocked then Incr(blockedReleases) else 0;
      var t := this.(usage := usage.AddWallClock(Elapsed(now)).AddAttempt(), blockedReleases := releases);
      if blocked && releases >= MAX_BLOCKED_RELEASES
      then t.Escalated(ReleaseLoop(releases, FirstLine(note)), [AppendNote(id, note)])
      else t.Reopened(note)
    }

    function MergeRefused(detail: string): Outcome {
      var t := this.(usage := usage.AddAttempt());
      if t.budget.Check(t.usage).Within?
      then Accepted(t.(state := Open), [AppendNote(id, "merge failed: " + detail)])
      else t.Escalated(MergeConflict(detail), [])
    }

    function Apply(event: Event): Outcome {
      var illegal := Refused(NotAllowed(id, state, event));
      match event
      case Claim(holder, now, ttl) =>
        if state.Open? then Accepted(this.(state := Leased(L.Grant(holder, now, ttl))), []) else illegal
      case Heartbeat(holder, now) =>
        ByHolder(holder, event, if state.Leased? then Renewed(now) else illegal)
      case Submit(holder, branch, head, now, tokens) =>
        ByHolder(holder, event, Submitted(branch, head, now, tokens))
      case LeaseExpired(now) =>
        if state.Leased? && state.lease.IsExpired(now) then Reaped(now) else illegal
      case Release(holder, now, note, blocked) =>
        ByHolder(holder, event, Released(now, note, blocked))
      case ProviderStopped(holder) =>
        ByHolder(holder, event, Accepted(this.(state := Open), []))
      case VerifyPassed =>
        if state.InVerify?
        then Accepted(this.(state := Mergeable(state.branch, state.head)),
                      [OpenMergeBead(id, state.branch, state.head)])
        else illegal
      case VerifyBlocked(note) =>
        if state.InVerify? then Escalated(Environment(FirstLine(note)), [AppendNote(id, note)]) else illegal
      case VerifyFailed(note) =>
        if state.InVerify? then this.(usage := usage.AddAttempt()).Reopened(note) else illegal
      case Merged(merged) =>
        if state.Mergeable?
        then Accepted(this.(state := Closed(merged)), [CloseTaskBead(id), CloseVerifyBead(verifyBead)])
        else illegal
      case MergeFailed(detail) =>
        if state.Mergeable? then MergeRefused(detail) else illegal
      case Escalate(reason) =>
        if Active() then Escalated(reason, []) else illegal
      case Cancel(actor) =>
        if Terminal() then illegal
        else
          Accepted(this.(state := Canceled(actor)),
                   [CloseMergeBeads(id), AppendNote(id, "canceled by " + actor)])
      case OperatorRetry(note) =>
        if state.Incident?
        then
          Accepted(
            this.(usage := NO_USAGE, leaseExpiries := 0, blockedReleases := 0, state := Open),
            [AppendNote(id, "incident resolved by operator: " + note)])
        else illegal
    }
  }

  /** A fresh task. */
  function New(id: BeadId, verifyBead: BeadId, base: Sha, budget: Limits): Task {
    Task(id, verifyBead, base, budget, NO_USAGE, 0, 0, Open)
  }
}
