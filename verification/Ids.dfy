// Names of things. Bead ids are numbers in creation order; the ledger's listing order is their order.
module Ids {
  type BeadId = nat
  type AgentId = string
  type Branch = string

  /** One change to the project. */
  type Patch = nat

  /** A commit is its history, oldest patch first, so two commits are equal exactly when their
      histories are. */
  type Sha = seq<Patch>

  /** `a` is an ancestor of `b` (or `b` itself). */
  predicate Ancestor(a: Sha, b: Sha) {
    a <= b
  }
}
