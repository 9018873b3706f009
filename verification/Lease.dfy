// Claim leases: who holds a task and until when.
module Lease {
  import opened Ids
  import opened Time

  datatype Lease = Lease(holder: AgentId, claimedAt: Timestamp, expires: Timestamp) {
    predicate IsExpired(now: Timestamp) {
      now >= expires
    }

    function Renew(now: Timestamp, ttl: Duration): Lease {
      this.(expires := Plus(now, ttl))
    }
  }

  function Grant(holder: AgentId, now: Timestamp, ttl: Duration): Lease {
    Lease(holder, now, Plus(now, ttl))
  }
}
