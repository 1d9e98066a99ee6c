/** Identifiers shared by the planner, the execution graph and the session. Names and locks are
    only ever compared for equality; the strings they are in the program play no part. */
module Nodes {
  datatype Name = Name(id: nat)

  /** Runtime.Lock; NoLock is the empty string. */
  datatype Lock = NoLock | Lock(id: nat)

  /** A vertex of the execution graph: a target, "@scope/P/start", "@barrier/P/i", or the empty
      string, which the graph container ignores. */
  datatype Node = Nil | Target(name: Name) | ScopeStart(name: Name) | Barrier(name: Name, index: nat)
}
