// Whole runs of one task: what holds after any sequence of events whatever, accepted or refused.
// The specifications below read only the log of accepted events, never the task's own counters.
module TaskRuns {
  import opened Ids
  import opened Time
  import opened Budget
  import opened Task
  import L = Lease

  /** Just created: `Open`, nothing used, all counters at zero. */
  predicate IsFresh(t: Task) {
    t == New(t.id, t.verifyBead, t.base, t.budget)
  }

  /** The task after offering it `events` in order; a refused event persists nothing. */
  function After(t: Task, events: seq<Event>): Task {
    if events == [] then t
    else
      var n := |events| - 1;
      var before := After(t, events[..n]);
      match before.Apply(events[n])
      case Accepted(next, _) => next
      case Refused(_) => before
  }

  /** The events of the run that were accepted, in order. */
  function Log(t: Task, events: seq<Event>): seq<Event> {
    if events == [] then []
    else
      var n := |events| - 1;
      var log := Log(t, events[..n]);
      if After(t, events[..n]).Apply(events[n]).Accepted? then log + [events[n]] else log
  }

  lemma AfterSnoc(t: Task, events: seq<Event>, event: Event)
    ensures After(t, events + [event])
         == if After(t, events).Apply(event).Accepted? then After(t, events).Apply(event).task else After(t, events)
  {
    hide Task.Apply;
    assert (events + [event])[..|events|] == events;
  }

  lemma LogSnoc(t: Task, events: seq<Event>, event: Event)
    ensures Log(t, events + [event])
         == if After(t, events).Apply(event).Accepted? then Log(t, events) + [event] else Log(t, events)
  {
    hide Task.Apply;
    assert (events + [event])[..|events|] == events;
  }

  /** What a count over the log may look for. */
  datatype Mark = Charged | Expired | Working | Stopped | Retried | Landed

  predicate Marks(mark: Mark, e: Event) {
    match mark
    case Charged => e.VerifyFailed? || e.MergeFailed? || e.Release?
    case Expired => e.LeaseExpired?
    case Working => !e.Heartbeat?
    case Stopped => e.ProviderStopped?
    case Retried => e.OperatorRetry?
    case Landed => e.Merged?
  }

  function Count(log: seq<Event>, mark: Mark): nat {
    if log == [] then 0
    else Count(log[..|log| - 1], mark) + if Marks(mark, log[|log| - 1]) then 1 else 0
  }

  lemma CountSnoc(log: seq<Event>, e: Event, mark: Mark)
    ensures Count(log + [e], mark) == Count(log, mark) + if Marks(mark, e) then 1 else 0
  {
    assert (log + [e])[..|log|] == log;
  }

  /** The part of the log after the last operator retry. */
  function SinceRetry(log: seq<Event>): seq<Event> {
    if log == [] then []
    else
      var n := |log| - 1;
      if log[n].OperatorRetry? then [] else SinceRetry(log[..n]) + [log[n]]
  }

  /** The part of the log from the last claim on. */
  function SinceClaim(log: seq<Event>): seq<Event> {
    if log == [] then []
    else
      var n := |log| - 1;
      if log[n].Claim? then [log[n]] else SinceClaim(log[..n]) + [log[n]]
  }

  // ---- accounting -------------------------------------------------------------------------


  function TokenSum(log: seq<Event>): nat {
    if log == [] then 0
    else
      var n := |log| - 1;
      TokenSum(log[..n]) + if log[n].Submit? then log[n].tokens else 0
  }

  /** When the current or last lease was claimed; 0 when there was none. */
  function ClaimedAt(log: seq<Event>): Timestamp {
    if log == [] then 0
    else
      var n := |log| - 1;
      if log[n].Claim? then log[n].now else ClaimedAt(log[..n])
  }

  /** Total length of the leases that ended in a submission, a release or an expiry. */
  function WallClockSum(log: seq<Event>): nat {
    if log == [] then 0
    else
      var n := |log| - 1;
      WallClockSum(log[..n]) +
      if log[n].Submit? || log[n].Release? || log[n].LeaseExpired?
      then Since(log[n].now, ClaimedAt(log[..n])) else 0
  }

  /** Blocked releases since the last submission or plain release. */
  function BlockedStreak(log: seq<Event>): nat {
    if log == [] then 0
    else
      var n := |log| - 1;
      if log[n].Submit? || (log[n].Release? && !log[n].blocked) then 0
      else BlockedStreak(log[..n]) + if log[n].Release? then 1 else 0
  }

  /** Every counter of `t` is what the log says it must be. */
  ghost predicate Accounted(t: Task, log: seq<Event>) {
    var recent := SinceRetry(log);
    && t.usage.attempts == Min(Count(recent, Charged), U32_MAX)
    && t.leaseExpiries == Min(Count(recent, Expired), U32_MAX)
    && t.usage.tokens == Min(TokenSum(recent), U64_MAX)
    && t.usage.wallClock == Min(WallClockSum(recent), U64_MAX)
    && t.blockedReleases == Min(BlockedStreak(recent), U32_MAX)
    && (t.state.Leased? ==> t.state.lease.claimedAt == ClaimedAt(recent))
  }

  lemma SumsSnoc(log: seq<Event>, e: Event)
    ensures TokenSum(log + [e]) == TokenSum(log) + if e.Submit? then e.tokens else 0
    ensures ClaimedAt(log + [e]) == if e.Claim? then e.now else ClaimedAt(log)
    ensures WallClockSum(log + [e]) == WallClockSum(log) +
              if e.Submit? || e.Release? || e.LeaseExpired? then Since(e.now, ClaimedAt(log)) else 0
    ensures BlockedStreak(log + [e]) ==
              if e.Submit? || (e.Release? && !e.blocked) then 0
              else BlockedStreak(log) + if e.Release? then 1 else 0
    ensures SinceRetry(log + [e]) == if e.OperatorRetry? then [] else SinceRetry(log) + [e]
  {
    assert (log + [e])[..|log|] == log;
  }

  lemma SumsEmpty()
    ensures TokenSum([]) == WallClockSum([]) == BlockedStreak([]) == 0
    ensures Count([], Charged) == Count([], Expired) == 0
  {
  }

  /** What each accepted event adds to each counter. */
  lemma CounterTable(t: Task, event: Event)
    requires t.Apply(event).Accepted?
    ensures var next := t.Apply(event).task;
            if event.OperatorRetry?
            then next.usage == NO_USAGE && next.leaseExpiries == 0 && next.blockedReleases == 0
            else
              && next.usage.attempts == (if Marks(Charged, event) then Incr(t.usage.attempts) else t.usage.attempts)
              && next.leaseExpiries == (if event.LeaseExpired? then Incr(t.leaseExpiries) else t.leaseExpiries)
              && next.usage.tokens == AddU64(t.usage.tokens, if event.Submit? then event.tokens else 0)
              && next.blockedReleases ==
                   (if event.Submit? || (event.Release? && !event.blocked) then 0
                    else if event.Release? then Incr(t.blockedReleases) else t.blockedReleases)
    ensures var next := t.Apply(event).task;
            !event.OperatorRetry? ==>
              if event.Submit? || event.Release? || event.LeaseExpired?
              then
                && t.state.Leased?
                && next.usage.wallClock == AddU64(t.usage.wallClock, Since(event.now, t.state.lease.claimedAt))
              else next.usage.wallClock == t.usage.wallClock
    ensures var next := t.Apply(event).task;
            next.state.Leased? ==>
              if event.Claim? then next.state.lease.claimedAt == event.now
              else t.state.Leased? && next.state.lease.claimedAt == t.state.lease.claimedAt
    ensures event.OperatorRetry? ==> t.Apply(event).task.state.Open?
  {
  }

  lemma AccountedStep(t: Task, log: seq<Event>, event: Event)
    requires Accounted(t, log) && t.Apply(event).Accepted?
    ensures Accounted(t.Apply(event).task, log + [event])
  {
    hide Task.Apply, Since, SinceRetry, Count, TokenSum, WallClockSum, BlockedStreak, ClaimedAt;
    CounterTable(t, event);
    SumsSnoc(log, event);
    SumsEmpty();
    var recent := SinceRetry(log);
    SumsSnoc(recent, event);
    CountSnoc(recent, event, Charged);
    CountSnoc(recent, event, Expired);
  }

  /** Exact accounting: after any run from a fresh task, each counter is the (saturated) count or sum
      over the accepted events since the last operator retry. */
  lemma {:induction false} ExactAccounting(start: Task, events: seq<Event>)
    requires IsFresh(start)
    ensures Accounted(After(start, events), Log(start, events))
  {
    hide Task.Apply;
    if events != [] {
      var n := |events| - 1;
      ExactAccounting(start, events[..n]);
      if After(start, events[..n]).Apply(events[n]).Accepted? {
        AccountedStep(After(start, events[..n]), Log(start, events[..n]), events[n]);
      }
    }
  }

  /** Provider stops, escalations, cancels, heartbeats, claims and blocked or passed verifications
      charge nothing: no counter moves. */
  lemma UnchargedEvents(t: Task, event: Event)
    requires t.Apply(event).Accepted?
    requires event.ProviderStopped? || event.Escalate? || event.Cancel? || event.VerifyBlocked?
          || event.VerifyPassed? || event.Heartbeat? || event.Claim? || event.Merged?
    ensures var next := t.Apply(event).task;
            && next.usage == t.usage
            && next.leaseExpiries == t.leaseExpiries
            && next.blockedReleases == t.blockedReleases
  {
  }

  // ---- state invariant --------------------------------------------------------------------

  /** What every reachable task satisfies when its attempts budget is at least one. */
  predicate InLimits(t: Task) {
    && t.usage.attempts <= t.budget.attempts
    && t.leaseExpiries <= MAX_LEASE_EXPIRIES
    && t.blockedReleases <= MAX_BLOCKED_RELEASES
    && (t.Active() ==>
      && t.usage.attempts < t.budget.attempts
      && t.leaseExpiries < MAX_LEASE_EXPIRIES
      && t.blockedReleases < MAX_BLOCKED_RELEASES)
    && (t.state.Open? || t.state.Leased? ==> t.usage.tokens <= t.budget.tokens)
  }

  lemma InLimitsStep(t: Task, event: Event)
    requires InLimits(t) && t.budget.attempts >= 1 && t.Apply(event).Accepted?
    ensures InLimits(t.Apply(event).task)
    ensures t.Apply(event).task.budget == t.budget
  {
  }

  lemma {:induction false} ReachableInLimits(start: Task, events: seq<Event>)
    requires IsFresh(start)
    requires start.budget.attempts >= 1
    ensures InLimits(After(start, events)) && After(start, events).budget == start.budget
  {
    hide Task.Apply;
    if events != [] {
      var n := |events| - 1;
      ReachableInLimits(start, events[..n]);
      if After(start, events[..n]).Apply(events[n]).Accepted? {
        InLimitsStep(After(start, events[..n]), events[n]);
      }
    }
  }

  /** No counter of a task with a positive attempts budget ever saturates: the attempts used are
      exactly the failed verifications, failed merges and releases, and never exceed the budget. */
  lemma AttemptsAreExact(start: Task, events: seq<Event>)
    requires IsFresh(start)
    requires start.budget.attempts >= 1
    ensures var recent := SinceRetry(Log(start, events));
            var t := After(start, events);
            && t.usage.attempts == Count(recent, Charged) <= start.budget.attempts
            && t.leaseExpiries == Count(recent, Expired) <= 3
            && t.blockedReleases == BlockedStreak(recent) <= 2
  {
    ExactAccounting(start, events);
    ReachableInLimits(start, events);
    SaturationShows(start, events);
  }

  /** A saturated count below the budget of 2^32 - 1 is the count itself; at the budget of
      2^32 - 1 the task is no longer active, so nothing more is charged. */
  lemma {:induction false} SaturationShows(start: Task, events: seq<Event>)
    requires IsFresh(start)
    requires start.budget.attempts >= 1
    ensures Count(SinceRetry(Log(start, events)), Charged) <= start.budget.attempts
  {
    hide Task.Apply, InLimits;
    if events != [] {
      var n := |events| - 1;
      var before := After(start, events[..n]);
      SaturationShows(start, events[..n]);
      ExactAccounting(start, events[..n]);
      ReachableInLimits(start, events[..n]);
      var log := Log(start, events[..n]);
      if before.Apply(events[n]).Accepted? {
        SumsSnoc(log, events[n]);
        CountSnoc(SinceRetry(log), events[n], Charged);
        if Marks(Charged, events[n]) {
          ChargedHasRoom(before, events[n]);
        }
      }
    }
  }

  lemma ChargedHasRoom(t: Task, e: Event)
    requires InLimits(t) && t.Apply(e).Accepted? && Marks(Charged, e)
    ensures t.usage.attempts < t.budget.attempts
  {
  }

  // ---- termination measure ------------------------------------------------------------------


  /** How many more events other than heartbeats the task can accept without provider stops and
      operator retries. */
  function Potential(t: Task): nat
    requires InLimits(t)
  {
    if t.Terminal() then 0
    else if t.state.Incident? then 1
    else
      var open := 4 * (t.budget.attempts - t.usage.attempts) + 2 * (MAX_LEASE_EXPIRIES - t.leaseExpiries) - 1;
      open - match t.state
        case Leased(_) => 1
        case InVerify(_, _) => 2
        case Mergeable(_, _) => 3
        case _ => 0
  }

  /** Every accepted event other than a heartbeat, a provider stop and an operator retry uses up
      some potential; a provider stop gives back no more than the claim it undoes took. */
  lemma PotentialStep(t: Task, event: Event)
    requires InLimits(t) && t.budget.attempts >= 1 && t.Apply(event).Accepted?
    ensures InLimits(t.Apply(event).task)
    ensures var next := t.Apply(event).task;
            if event.Heartbeat? then Potential(next) == Potential(t)
            else if event.ProviderStopped? then Potential(next) == Potential(t) + 1
            else if event.OperatorRetry? then Potential(t) == 1 && Potential(next) == 4 * t.budget.attempts + 5
            else Potential(next) < Potential(t)
  {
    InLimitsStep(t, event);
  }

  lemma FreshPotential(start: Task)
    requires IsFresh(start) && start.budget.attempts >= 1
    ensures InLimits(start) && Potential(start) == 4 * start.budget.attempts + 5
    ensures forall mark :: Count([], mark) == 0
  {
  }

  lemma {:induction false} PotentialRun(start: Task, events: seq<Event>)
    requires IsFresh(start)
    requires start.budget.attempts >= 1
    ensures InLimits(After(start, events))
    ensures var log := Log(start, events);
            Count(log, Working) + Potential(After(start, events))
            <= (4 * start.budget.attempts + 5) * (1 + Count(log, Retried)) + 2 * Count(log, Stopped)
  {
    hide Task.Apply, InLimits, Potential, Count;
    ReachableInLimits(start, events);
    if events == [] {
      FreshPotential(start);
    } else {
      var n := |events| - 1;
      PotentialRun(start, events[..n]);
      ReachableInLimits(start, events[..n]);
      var before := After(start, events[..n]);
      var log := Log(start, events[..n]);
      if before.Apply(events[n]).Accepted? {
        PotentialStep(before, events[n]);
        var allowance := 4 * start.budget.attempts + 5;
        var retries := Count(log, Retried);
        assert allowance * (1 + (retries + 1)) == allowance * (1 + retries) + allowance;
        CountSnoc(log, events[n], Working);
        CountSnoc(log, events[n], Stopped);
        CountSnoc(log, events[n], Retried);
      }
    }
  }

  /** A fresh task accepts at most 4A + 5 events other than heartbeats for its first start and for
      each operator retry, plus two for each provider stop, where A is its attempts budget. */
  lemma BoundedProgress(start: Task, events: seq<Event>)
    requires IsFresh(start)
    requires start.budget.attempts >= 1
    ensures var log := Log(start, events);
            Count(log, Working)
            <= (4 * start.budget.attempts + 5) * (1 + Count(log, Retried)) + 2 * Count(log, Stopped)
  {
    PotentialRun(start, events);
  }

  /** Offering `events` to `t` leads to `next`, accepting `works` events other than heartbeats, of
      which `stops` are provider stops and none is an operator retry. */
  ghost predicate Leads(t: Task, events: seq<Event>, next: Task, works: nat, stops: nat) {
    && After(t, events) == next
    && Count(Log(t, events), Working) == works
    && Count(Log(t, events), Stopped) == stops
    && Count(Log(t, events), Retried) == 0
  }

  lemma {:induction false} LeadsOn(t: Task, first: seq<Event>, second: seq<Event>)
    ensures After(t, first + second) == After(After(t, first), second)
    ensures forall mark :: Count(Log(t, first + second), mark)
              == Count(Log(t, first), mark) + Count(Log(After(t, first), second), mark)
  {
    hide Task.Apply, After, Log, Count;
    if second == [] {
      assert first + second == first;
      NothingOffered(After(t, first));
    } else {
      var n := |second| - 1;
      var e, before := second[n], first + second[..n];
      LeadsOn(t, first, second[..n]);
      assert first + second == before + [e] && second == second[..n] + [e];
      AfterSnoc(t, before, e);
      LogSnoc(t, before, e);
      AfterSnoc(After(t, first), second[..n], e);
      LogSnoc(After(t, first), second[..n], e);
      forall mark
        ensures Count(Log(t, first + second), mark)
             == Count(Log(t, first), mark) + Count(Log(After(t, first), second), mark)
      {
        CountSnoc(Log(t, before), e, mark);
        CountSnoc(Log(After(t, first), second[..n]), e, mark);
      }
    }
  }

  lemma NothingOffered(t: Task)
    ensures After(t, []) == t && forall mark :: Count(Log(t, []), mark) == 0
  {
  }

  lemma Then(t: Task, first: seq<Event>, mid: Task, w1: nat, s1: nat, second: seq<Event>, next: Task, w2: nat, s2: nat)
    requires Leads(t, first, mid, w1, s1) && Leads(mid, second, next, w2, s2)
    ensures Leads(t, first + second, next, w1 + w2, s1 + s2)
  {
    LeadsOn(t, first, second);
  }

  lemma One(t: Task, e: Event)
    requires t.Apply(e).Accepted? && !e.Heartbeat? && !e.OperatorRetry?
    ensures Leads(t, [e], t.Apply(e).task, 1, if e.ProviderStopped? then 1 else 0)
  {
    hide Task.Apply;
    assert [e][..0] == [];
    assert After(t, []) == t && Log(t, []) == [];
    assert Log(t, [e]) == [] + [e];
    CountSnoc([], e, Working);
    CountSnoc([], e, Stopped);
    CountSnoc([], e, Retried);
  }

  const CLAIM := Claim("w", 0, 0)
  const STOP: seq<Event> := [CLAIM] + [ProviderStopped("w")]
  const EXPIRE: seq<Event> := [CLAIM] + [LeaseExpired(0)]
  const REJECT: seq<Event> := [CLAIM] + [Submit("w", "b", [], 0, 0)] + [VerifyPassed] + [MergeFailed("")]

  /** `Open`, with `attempts` charged and `expiries` leases expired in no time and for no tokens. */
  function Idle(start: Task, attempts: Attempts, expiries: Attempts): Task {
    start.(usage := Usage(0, 0, attempts), leaseExpiries := expiries, state := Open)
  }

  lemma TwoSteps(t: Task, a: Event, b: Event)
    requires !a.Heartbeat? && !a.OperatorRetry? && !b.Heartbeat? && !b.OperatorRetry? && !a.ProviderStopped?
    requires t.Apply(a).Accepted? && t.Apply(a).task.Apply(b).Accepted?
    ensures Leads(t, [a] + [b], t.Apply(a).task.Apply(b).task, 2, if b.ProviderStopped? then 1 else 0)
  {
    hide Task.Apply;
    var mid := t.Apply(a).task;
    One(t, a);
    One(mid, b);
    Then(t, [a], mid, 1, 0, [b], mid.Apply(b).task, 1, if b.ProviderStopped? then 1 else 0);
  }

  lemma RejectLeads(start: Task, attempts: Attempts, expiries: Attempts)
    requires IsFresh(start) && attempts < start.budget.attempts
    ensures var last := Idle(start, attempts, expiries)
              .(state := Mergeable("b", []), blockedReleases := 0).Apply(MergeFailed("")).task;
            && Leads(Idle(start, attempts, expiries), REJECT, last, 4, 0)
            && (if attempts + 1 < start.budget.attempts then last == Idle(start, attempts + 1, expiries)
                else last.state.Incident?)
  {
    var t := Idle(start, attempts, expiries);
    var submit := Submit("w", "b", [], 0, 0);
    var checked := t.Apply(CLAIM).task.Apply(submit).task;
    var ready := checked.Apply(VerifyPassed).task;
    assert ready == t.(state := Mergeable("b", []));
    TwoSteps(t, CLAIM, submit);
    TwoSteps(checked, VerifyPassed, MergeFailed(""));
    Then(t, [CLAIM] + [submit], checked, 2, 0, [VerifyPassed] + [MergeFailed("")], ready.Apply(MergeFailed("")).task,
         2, 0);
    assert ([CLAIM] + [submit]) + ([VerifyPassed] + [MergeFailed("")]) == REJECT;
  }

  /** The longest run: every provider stop first, then every expiry that still reopens, then a failed
      merge for each attempt, and a cancel of the incident. */
  function Longest(stops: nat, attempts: nat): seq<Event> {
    if stops > 0 then STOP + Longest(stops - 1, attempts)
    else EXPIRE + (EXPIRE + Rejections(attempts))
  }

  function Rejections(attempts: nat): seq<Event> {
    if attempts == 0 then [Cancel("")] else REJECT + Rejections(attempts - 1)
  }

  lemma {:induction false} RejectionsLead(start: Task, used: Attempts)
    requires IsFresh(start) && used < start.budget.attempts
    ensures var events := Rejections(start.budget.attempts - used);
            Leads(Idle(start, used, 2), events, After(Idle(start, used, 2), events),
                  4 * (start.budget.attempts - used) + 1, 0)
    decreases start.budget.attempts - used
  {
    hide Task.Apply;
    var t := Idle(start, used, 2);
    RejectLeads(start, used, 2);
    var mid := After(t, REJECT);
    var left := start.budget.attempts - used;
    if left == 1 {
      CancelIncident(mid);
      One(mid, Cancel(""));
      Then(t, REJECT, mid, 4, 0, [Cancel("")], mid.Apply(Cancel("")).task, 1, 0);
      assert Rejections(0) == [Cancel("")];
      assert Rejections(1) == REJECT + Rejections(0);
    } else {
      RejectionsLead(start, used + 1);
      var next := After(mid, Rejections(left - 1));
      Then(t, REJECT, mid, 4, 0, Rejections(left - 1), next, 4 * (left - 1) + 1, 0);
    }
  }

  lemma CancelIncident(t: Task)
    requires t.state.Incident?
    ensures t.Apply(Cancel("")).Accepted?
  {
  }

  lemma ExpiriesLead(start: Task)
    requires IsFresh(start) && start.budget.attempts >= 1
    ensures Leads(start, EXPIRE + EXPIRE, Idle(start, 0, 2), 4, 0)
  {
    var once := Idle(start, 0, 1);
    assert start.Apply(CLAIM).task.Apply(LeaseExpired(0)).task == once;
    TwoSteps(start, CLAIM, LeaseExpired(0));
    assert once.Apply(CLAIM).task.Apply(LeaseExpired(0)).task == Idle(start, 0, 2);
    TwoSteps(once, CLAIM, LeaseExpired(0));
    Then(start, EXPIRE, once, 2, 0, EXPIRE, Idle(start, 0, 2), 2, 0);
  }

  /** The bound is exact: for every attempts budget and every number of provider stops some run
      without retries reaches it. */
  lemma {:induction false} BoundIsReached(start: Task, stops: nat)
    requires IsFresh(start) && start.budget.attempts >= 1
    ensures var events := Longest(stops, start.budget.attempts);
            Leads(start, events, After(start, events), 4 * start.budget.attempts + 5 + 2 * stops, stops)
  {
    hide Task.Apply, After, Log, Count, Rejections, Leads;
    var a := start.budget.attempts;
    if stops == 0 {
      ExpiriesLead(start);
      RejectionsLead(start, 0);
      var next := After(Idle(start, 0, 2), Rejections(a));
      Then(start, EXPIRE + EXPIRE, Idle(start, 0, 2), 4, 0, Rejections(a), next, 4 * a + 1, 0);
      assert (EXPIRE + EXPIRE) + Rejections(a) == Longest(0, a);
    } else {
      StopLeads(start);
      BoundIsReached(start, stops - 1);
      var next := After(start, Longest(stops - 1, a));
      Then(start, STOP, start, 2, 1, Longest(stops - 1, a), next, 4 * a + 5 + 2 * (stops - 1), stops - 1);
    }
  }

  lemma StopLeads(start: Task)
    requires IsFresh(start)
    ensures Leads(start, STOP, start, 2, 1)
  {
    assert start.Apply(CLAIM).task.Apply(ProviderStopped("w")).task == start;
    TwoSteps(start, CLAIM, ProviderStopped("w"));
  }

  // ---- landing at most once -----------------------------------------------------------------

  lemma LandedStep(t: Task, event: Event)
    requires t.Apply(event).Accepted?
    ensures !t.state.Closed?
    ensures t.Apply(event).task.state.Closed? <==> event.Merged?
  {
  }

  /** `Merged` is accepted at most once in a run, and exactly when the task ends up closed. */
  lemma {:induction false} MergedAtMostOnce(start: Task, events: seq<Event>)
    requires IsFresh(start)
    ensures Count(Log(start, events), Landed) == if After(start, events).state.Closed? then 1 else 0
  {
    hide Task.Apply;
    if events != [] {
      var n := |events| - 1;
      var before := After(start, events[..n]);
      MergedAtMostOnce(start, events[..n]);
      CountSnoc(Log(start, events[..n]), events[n], Landed);
      if before.Apply(events[n]).Accepted? {
        LandedStep(before, events[n]);
      }
    }
  }

  /** Nothing is ever accepted in `Closed` or `Canceled`: a task that reached either stays as it is. */
  lemma {:induction false} TerminalIsFinal(t: Task, events: seq<Event>)
    requires t.Terminal()
    ensures After(t, events) == t && Log(t, events) == []
  {
    if events != [] {
      TerminalIsFinal(t, events[..|events| - 1]);
    }
  }

  // ---- leases ---------------------------------------------------------------------------------

  /** The sum of the heartbeats' distances from the claim. */
  function Credit(beats: seq<Event>, claimed: Timestamp): int
    requires forall e :: e in beats ==> e.Heartbeat?
  {
    if beats == [] then 0
    else
      var n := |beats| - 1;
      Credit(beats[..n], claimed) + (beats[n].now - claimed)
  }

  /** The claim of the current lease followed by its accepted heartbeats. */
  ghost predicate IsLeaseLog(lease: seq<Event>) {
    && lease != [] && lease[0].Claim?
    && forall k :: 1 <= k < |lease| ==> lease[k].Heartbeat?
  }

  /** The clock never showed a time before the epoch or before the claim. */
  ghost predicate ClockRan(lease: seq<Event>)
    requires IsLeaseLog(lease)
  {
    && lease[0].now >= 0
    && forall k :: 1 <= k < |lease| ==> lease[k].now >= lease[0].now
  }

  /** The lease is its claim followed by its heartbeats: holder and claim time are the claim's, and
      it expires at the claim time, plus the granted span, plus the distance of every heartbeat from
      the claim (saturated at the last timestamp). */
  ghost predicate InClosedForm(lease: L.Lease, log: seq<Event>) {
    && IsLeaseLog(log)
    && lease.holder == log[0].holder
    && lease.claimedAt == log[0].now
    && (ClockRan(log) ==>
      lease.expires == Min(I64_MAX, log[0].now + log[0].ttl + Credit(log[1..], log[0].now)))
  }

  lemma HeartbeatKeepsClosedForm(t: Task, log: seq<Event>, beat: Event)
    requires t.state.Leased? && InClosedForm(t.state.lease, log)
    requires beat.Heartbeat? && t.Apply(beat).Accepted?
    ensures t.Apply(beat).task.state.Leased?
    ensures InClosedForm(t.Apply(beat).task.state.lease, log + [beat])
  {
    var longer := log + [beat];
    assert longer[1..][..|log| - 1] == log[1..];
    if ClockRan(longer) {
      assert forall k :: 1 <= k < |log| ==> log[k] == longer[k];
      CreditIsNonNegative(log[1..], log[0].now);
    }
  }

  lemma OnlyClaimsAndBeatsLease(t: Task, event: Event)
    requires t.Apply(event).Accepted? && t.Apply(event).task.state.Leased?
    ensures event.Claim? || (event.Heartbeat? && t.state.Leased?)
    ensures event.Claim? ==> t.Apply(event).task.state.lease == L.Grant(event.holder, event.now, event.ttl)
  {
  }

  /** After any run, a leased task's lease is in closed form over the events accepted since its last
      claim, all of which are heartbeats. */
  lemma {:induction false} LeaseClosedForm(start: Task, events: seq<Event>)
    requires IsFresh(start)
    requires After(start, events).state.Leased?
    ensures InClosedForm(After(start, events).state.lease, SinceClaim(Log(start, events)))
  {
    hide Task.Apply;
    var n := |events| - 1;
    var before := After(start, events[..n]);
    var log := Log(start, events[..n]);
    if before.Apply(events[n]).Refused? {
      LeaseClosedForm(start, events[..n]);
    } else {
      assert (log + [events[n]])[..|log|] == log;
      OnlyClaimsAndBeatsLease(before, events[n]);
      if events[n].Heartbeat? {
        LeaseClosedForm(start, events[..n]);
        HeartbeatKeepsClosedForm(before, SinceClaim(log), events[n]);
      }
    }
  }

  lemma {:induction false} CreditIsNonNegative(beats: seq<Event>, claimed: Timestamp)
    requires forall e :: e in beats ==> e.Heartbeat? && e.now >= claimed
    ensures Credit(beats, claimed) >= 0
    ensures beats != [] ==> Credit(beats, claimed) >= beats[|beats| - 1].now - claimed
  {
    if beats != [] {
      CreditIsNonNegative(beats[..|beats| - 1], claimed);
    }
  }

  /** A worker that beats again within the granted span of its last accepted beat (or its claim) is
      never refused and never reaped. */
  lemma LiveWorkerKeepsItsLease(start: Task, events: seq<Event>, now: Timestamp)
    requires IsFresh(start)
    requires After(start, events).state.Leased?
    requires var lease := SinceClaim(Log(start, events));
             IsLeaseLog(lease) && ClockRan(lease) && now < lease[|lease| - 1].now + lease[0].ttl
    requires now < I64_MAX
    ensures var t := After(start, events);
            && t.Apply(Heartbeat(t.state.lease.holder, now)).Accepted?
            && t.Apply(LeaseExpired(now)).Refused?
  {
    hide After, Log, SinceClaim;
    LeaseClosedForm(start, events);
    var lease := SinceClaim(Log(start, events));
    CreditIsNonNegative(lease[1..], lease[0].now);
  }

  /** `lease.rs` promises that a renewal runs from `now`, so that beats accumulate no credit. That
      holds exactly when every earlier beat of the lease came in the very second of the claim. */
  lemma RenewalRunsFromNowIff(start: Task, events: seq<Event>)
    requires IsFresh(start)
    requires After(start, events).state.Leased?
    requires var lease := SinceClaim(Log(start, events));
             && IsLeaseLog(lease) && ClockRan(lease) && |lease| >= 2
             && lease[0].now + lease[0].ttl + Credit(lease[1..], lease[0].now) <= I64_MAX
    ensures var lease := SinceClaim(Log(start, events));
            && InClosedForm(After(start, events).state.lease, lease)
            && (After(start, events).state.lease.expires == lease[|lease| - 1].now + lease[0].ttl
                <==> forall k :: 1 <= k < |lease| - 1 ==> lease[k].now == lease[0].now)
  {
    hide Task.Apply, After, Log, SinceClaim;
    LeaseClosedForm(start, events);
    var lease := SinceClaim(Log(start, events));
    var earlier := lease[1..|lease| - 1];
    assert lease[1..][..|lease| - 2] == earlier;
    CreditIsZeroIff(earlier, lease[0].now);
    assert forall k :: 0 <= k < |earlier| ==> earlier[k] == lease[k + 1];
    assert forall k :: 1 <= k < |lease| - 1 ==> lease[k] == earlier[k - 1];
  }

  /** The first early beat already breaks the promise: claimed at 0 for 10 seconds, with beats at 5 and at
      6, the lease runs to 21 and not to 16, and a reaper is refused until then. */
  lemma HeartbeatsAccumulateCredit(start: Task, holder: AgentId)
    requires IsFresh(start) && start.budget.attempts > 0
    ensures var t := After(start, [Claim(holder, 0, 10), Heartbeat(holder, 5), Heartbeat(holder, 6)]);
            && t.state.Leased? && t.state.lease.expires == 21
            && forall now :: t.Apply(LeaseExpired(now)).Accepted? <==> now >= 21
  {
    var claim, first, second := Claim(holder, 0, 10), Heartbeat(holder, 5), Heartbeat(holder, 6);
    AfterSnoc(start, [], claim);
    AfterSnoc(start, [claim], first);
    AfterSnoc(start, [claim, first], second);
    assert [] + [claim] == [claim] && [claim] + [first] == [claim, first];
    assert [claim, first] + [second] == [claim, first, second];
  }

  lemma {:induction false} CreditIsZeroIff(beats: seq<Event>, claimed: Timestamp)
    requires forall e :: e in beats ==> e.Heartbeat? && e.now >= claimed
    ensures Credit(beats, claimed) == 0 <==> forall k :: 0 <= k < |beats| ==> beats[k].now == claimed
  {
    if beats != [] {
      var n := |beats| - 1;
      CreditIsZeroIff(beats[..n], claimed);
      CreditIsNonNegative(beats[..n], claimed);
      assert forall k :: 0 <= k < n ==> beats[..n][k] == beats[k];
    }
  }

  // ---- effects --------------------------------------------------------------------------------

  /** The beads an accepted event opens mirror the state it leads to: a merge bead exactly on the way to
      `Mergeable`, for the stored branch and head, an incident bead exactly on the way to `Incident`, for
      its reason. */
  lemma OpenedBeadsMirrorTheState(t: Task, event: Event)
    requires t.Apply(event).Accepted?
    ensures var Accepted(next, effects) := t.Apply(event);
            && (next.state.Mergeable? <==> event.VerifyPassed?)
            && (forall x, b, h :: OpenMergeBead(x, b, h) in effects <==> x == t.id && next.state == Mergeable(b, h))
            && (forall x, r :: OpenIncidentBead(x, r) in effects <==> x == t.id && next.state == Incident(r))
  {
  }

  /** So do the beads it closes: the task and its verify bead exactly when it is landed, its merge beads
      exactly when it is canceled. Notes go to the task; a verdict or a release leaves its note first. */
  lemma ClosedBeadsMirrorTheState(t: Task, event: Event)
    requires t.Apply(event).Accepted?
    ensures var Accepted(next, effects) := t.Apply(event);
            && (forall x :: CloseTaskBead(x) in effects <==> x == t.id && next.state.Closed?)
            && (forall v :: CloseVerifyBead(v) in effects <==> v == t.verifyBead && next.state.Closed?)
            && (forall x :: CloseMergeBeads(x) in effects <==> x == t.id && next.state.Canceled?)
            && (forall x, n :: AppendNote(x, n) in effects ==> x == t.id)
            && (event.VerifyFailed? || event.VerifyBlocked? || event.Release? ==>
                  effects != [] && effects[0] == AppendNote(t.id, event.note))
  {
  }
}
