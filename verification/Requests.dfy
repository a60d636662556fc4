/** Completed requests as paired from the route journal (bench/snapshot_roi.py). */
module Requests {
  import opened Common

  // A run of leading blocks that share one age, oldest-served last.
  datatype AgeRun = AgeRun(blocks: nat, age: nat)

  // What the start record says about one candidate upstream.
  datatype Candidate = Candidate(upstream: nat, overlap: nat, ages: seq<AgeRun>)

  // The fixed part of a request. `candidates` keeps the insertion order of the
  // source's dictionary.
  datatype Info = Info(
    container: string,
    start: int,
    finish: int,
    upstream: nat,
    prompt: Amount,
    cached: Amount,
    completion: Amount,
    totalBlocks: nat,
    requestBytes: nat,
    chunkBytes: nat,
    candidates: seq<Candidate>)
  {
    // Pairing clamps the cached count to the prompt.
    predicate Clamped() { cached <= prompt }
  }

  // A continuation: the request that last served the deepest block, where it
  // was served, and how long ago.
  datatype Link = Link(predecessor: nat, upstream: nat, gap: nat)

  // A request with what linking adds to it.
  datatype Turn = Turn(info: Info, link: Option<Link>, consumed: Option<int>)

  // Retention horizon in milliseconds; None never expires.
  type Horizon = Option<nat>

  predicate Within(h: Horizon, h': Horizon) {
    h'.None? || (h.Some? && h.value <= h'.value)
  }
}
