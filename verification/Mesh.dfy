/** Naming of mesh nodes, shared by the daemon's components. */
module Mesh {

  /** A WireGuard public key. */
  type Key = nat

  /** peerMatches: a node answers to its name and to the text of each of its mesh addresses. */
  predicate PeerMatches(name: string, meshIPs: seq<string>, nameOrIP: string) {
    name == nameOrIP || nameOrIP in meshIPs
  }
}
