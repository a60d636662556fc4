/**
 Where the uncached tokens went (bench/snapshot_roi.py, analyze): every uncached
 prompt token is attributed to exactly one cause.
 */
module Decomposition {
  import opened Common
  import opened Requests
  import opened CacheCredit

  datatype Policy = Policy(minTokens: real, minFraction: real, censorWindow: int)

  datatype Parts = Parts(
    recoverable: real,
    continuationNew: real,
    continuationBelowFloor: real,
    nearStart: real,
    newOrFork: real)
  {
    function Plus(other: Parts): Parts {
      Parts(recoverable + other.recoverable,
            continuationNew + other.continuationNew,
            continuationBelowFloor + other.continuationBelowFloor,
            nearStart + other.nearStart,
            newOrFork + other.newOrFork)
    }
    function Sum(): real { recoverable + continuationNew + continuationBelowFloor + nearStart + newOrFork }
    predicate NonNegative() {
      && recoverable >= 0.0 && continuationNew >= 0.0 && continuationBelowFloor >= 0.0
      && nearStart >= 0.0 && newOrFork >= 0.0
    }
  }

  const NOTHING := Parts(0.0, 0.0, 0.0, 0.0, 0.0)

  predicate Linked(requests: seq<Turn>) {
    forall i :: 0 <= i < |requests| ==> LinkInRange(Infos(requests), requests[i]) && requests[i].info.Clamped()
  }

  function Infos(requests: seq<Turn>): seq<Info> {
    seq(|requests|, i requires 0 <= i < |requests| => requests[i].info)
  }

  // Gain at the infinite horizon on any replica.
  function Gain(requests: seq<Turn>, r: Turn, policy: Policy): real
    requires LinkInRange(Infos(requests), r)
  {
    Avoidable(Infos(requests), r, None, true, policy.minTokens, policy.minFraction)
  }

  predicate NearStart(r: Turn, firstSeen: map<string, int>, policy: Policy) {
    var seen := if r.info.container in firstSeen then firstSeen[r.info.container] else r.info.start;
    r.info.start - seen < policy.censorWindow
  }

  // The prompt split at three marks: cached, cached plus gain, and for a
  // continuation the predecessor's prompt.
  function PartsOf(requests: seq<Turn>, r: Turn, firstSeen: map<string, int>, policy: Policy): Parts
    requires LinkInRange(Infos(requests), r)
  {
    var gain := Gain(requests, r, policy);
    var known := r.info.cached + gain;
    if r.link.Some? then
      var seen := MaxReal(known, MinReal(r.info.prompt, requests[r.link.value.predecessor].info.prompt));
      NOTHING.(recoverable := gain, continuationBelowFloor := seen - known, continuationNew := r.info.prompt - seen)
    else if NearStart(r, firstSeen, policy) then
      NOTHING.(recoverable := gain, nearStart := r.info.prompt - known)
    else
      NOTHING.(recoverable := gain, newOrFork := r.info.prompt - known)
  }

  function Total(requests: seq<Turn>, k: nat, firstSeen: map<string, int>, policy: Policy): Parts
    requires Linked(requests) && k <= |requests|
  {
    if k == 0 then NOTHING
    else Total(requests, k - 1, firstSeen, policy).Plus(PartsOf(requests, requests[k - 1], firstSeen, policy))
  }

  function Prompt(requests: seq<Turn>, k: nat): real
    requires k <= |requests|
  {
    if k == 0 then 0.0 else Prompt(requests, k - 1) + requests[k - 1].info.prompt
  }

  function Cached(requests: seq<Turn>, k: nat): real
    requires k <= |requests|
  {
    if k == 0 then 0.0 else Cached(requests, k - 1) + requests[k - 1].info.cached
  }

  // One request: no part is negative and together they are its uncached tokens.
  // What a continuation leaves below the noise floor really is below it.
  lemma {:induction false} RequestConserves(requests: seq<Turn>, r: Turn, firstSeen: map<string, int>, policy: Policy)
    requires LinkInRange(Infos(requests), r) && r.info.Clamped()
    ensures var parts := PartsOf(requests, r, firstSeen, policy);
            && parts.NonNegative()
            && parts.Sum() == r.info.prompt - r.info.cached
            && (parts.continuationBelowFloor == 0.0 ||
                parts.continuationBelowFloor < NoiseFloor(r.info, policy.minTokens, policy.minFraction))
            && (parts.recoverable > 0.0 ==> parts.continuationBelowFloor == 0.0)
  {
    hide Hypothetical, NoiseFloor;
    AvoidableMonotone(Infos(requests), r, None, None, true, policy.minTokens, policy.minFraction);
    if r.link.Some? {
      LinkIsCredited(Infos(requests), r, |r.info.candidates|);
      HypotheticalAtLeast(Infos(requests), r);
    }
  }

  // At the infinite horizon a linked predecessor's prompt is always credited.
  lemma {:induction false} LinkIsCredited(infos: seq<Info>, r: Turn, k: nat)
    requires LinkInRange(infos, r) && k <= |r.info.candidates| && r.link.Some?
    ensures Credit(infos, r, None, true, k) >= MinReal(r.info.prompt, infos[r.link.value.predecessor].prompt)
  {
    hide CandidateCredit;
    if k > 0 { LinkIsCredited(infos, r, k - 1); }
  }

  lemma {:induction false} HypotheticalAtLeast(infos: seq<Info>, r: Turn)
    requires LinkInRange(infos, r) && r.link.Some?
    ensures Hypothetical(infos, r, None, true) >= MinReal(r.info.prompt, infos[r.link.value.predecessor].prompt)
    ensures Hypothetical(infos, r, None, true) >= r.info.cached
  {
    LinkIsCredited(infos, r, |r.info.candidates|);
    CreditAtLeastCached(infos, r, None, true, |r.info.candidates|);
  }

  // All requests: tokens are conserved.
  lemma {:induction false} Conserves(requests: seq<Turn>, k: nat, firstSeen: map<string, int>, policy: Policy)
    requires Linked(requests) && k <= |requests|
    ensures Total(requests, k, firstSeen, policy).NonNegative()
    ensures Total(requests, k, firstSeen, policy).Sum() == Prompt(requests, k) - Cached(requests, k)
  {
    hide PartsOf;
    if k > 0 {
      Conserves(requests, k - 1, firstSeen, policy);
      RequestConserves(requests, requests[k - 1], firstSeen, policy);
    }
  }

  // The accumulation loop of the report.
  method Decompose(requests: seq<Turn>, firstSeen: map<string, int>, policy: Policy) returns (parts: Parts)
    requires Linked(requests)
    ensures parts == Total(requests, |requests|, firstSeen, policy)
    ensures parts.NonNegative()
    ensures parts.Sum() == Prompt(requests, |requests|) - Cached(requests, |requests|)
  {
    hide Avoidable;
    var infos := Infos(requests);
    parts := NOTHING;
    for k := 0 to |requests|
      invariant parts == Total(requests, k, firstSeen, policy)
    {
      var r := requests[k];
      var gain := AvoidableTokens(infos, r, None, true, policy.minTokens, policy.minFraction);
      AvoidableMonotone(infos, r, None, None, true, policy.minTokens, policy.minFraction);
      var uncached := r.info.prompt - r.info.cached;
      parts := parts.(recoverable := parts.recoverable + gain);
      var rest := uncached - gain;
      if r.link.Some? {
        var predecessor := requests[r.link.value.predecessor];
        var more := MaxReal(0.0, r.info.prompt - MaxReal(r.info.cached + gain, predecessor.info.prompt));
        parts := parts.(continuationNew := parts.continuationNew + MinReal(rest, more),
                        continuationBelowFloor := parts.continuationBelowFloor + MaxReal(0.0, rest - more));
      } else if r.info.start - (if r.info.container in firstSeen then firstSeen[r.info.container] else r.info.start)
                < policy.censorWindow {
        parts := parts.(nearStart := parts.nearStart + rest);
      } else {
        parts := parts.(newOrFork := parts.newOrFork + rest);
      }
    }
    Conserves(requests, |requests|, firstSeen, policy);
  }
}
