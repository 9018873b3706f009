// Per-task budgets: what a task may consume before it becomes an incident.
module Budget {
  import opened Time

  datatype Usage = Usage(tokens: Tokens, wallClock: Duration, attempts: Attempts) {
    function AddTokens(n: Tokens): Usage {
      this.(tokens := AddU64(tokens, n))
    }

    function AddWallClock(d: Duration): Usage {
      this.(wallClock := AddU64(wallClock, d))
    }

    function AddAttempt(): Usage {
      this.(attempts := Incr(attempts))
    }
  }

  const NO_USAGE := Usage(0, 0, 0)

  datatype Exceeded =
    | TokenLimit(used: nat, limit: nat)
    | WallClockLimit(used: nat, limit: nat)
    | AttemptLimit(used: nat, limit: nat)

  datatype Verdict = Within | Over(exceeded: Exceeded)

  datatype Limits = Limits(tokens: Tokens, wallClock: Duration, attempts: Attempts) {
    /** The first exceeded limit, attempts first. Attempts are exhausted at the limit, the other two
        only beyond it. */
    function Check(usage: Usage): Verdict {
      if usage.attempts >= attempts then Over(AttemptLimit(usage.attempts, attempts))
      else if usage.tokens > tokens then Over(TokenLimit(usage.tokens, tokens))
      else if usage.wallClock > wallClock then Over(WallClockLimit(usage.wallClock, wallClock))
      else Within
    }
  }

  /** A usage that is at least another in every component is over whenever the smaller one is. */
  lemma CheckIsMonotone(limits: Limits, less: Usage, more: Usage)
    requires less.tokens <= more.tokens && less.wallClock <= more.wallClock && less.attempts <= more.attempts
    requires limits.Check(less).Over?
    ensures limits.Check(more).Over?
  {
  }
}
