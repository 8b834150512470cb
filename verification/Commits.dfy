/** How a database commit fares, wherever one is awaited. */
module Commits {
  /** Whether it takes effect and whether it raises; it may raise after it took effect. */
  datatype CommitFate = CommitFate(applied: bool, raised: bool)

  predicate PossibleCommit(c: CommitFate) {
    c.applied || c.raised
  }
}
