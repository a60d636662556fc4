/**
 The counterfactual cache credit of one request (bench/snapshot_roi.py): how many
 prompt tokens a retention tier with a given horizon could have supplied, and
 the shortest horizon that would have recovered a miss.
 */
module CacheCredit {
  import opened Common
  import opened Requests

  // Prefixes of at least this many canonical bytes are measured by request size.
  const CANONICAL_LIMIT := 0x20_0000

  // ----- Leading blocks no older than the horizon

  // Blocks of the leading runs whose age is within h.
  function LeadingBlocks(ages: seq<AgeRun>, h: nat): nat {
    if ages == [] || ages[0].age > h then 0 else ages[0].blocks + LeadingBlocks(ages[1..], h)
  }

  predicate AllWithin(ages: seq<AgeRun>, h: nat) {
    forall i :: 0 <= i < |ages| ==> ages[i].age <= h
  }

  // Blocks past the recorded runs inherit the age of the last run.
  function FreshSpec(overlap: nat, ages: seq<AgeRun>, horizon: Horizon): nat {
    if horizon.None? then overlap
    else if ages != [] && AllWithin(ages, horizon.value) then overlap
    else Min(LeadingBlocks(ages, horizon.value), overlap)
  }

  method FreshBlocks(overlap: nat, ages: seq<AgeRun>, horizon: Horizon) returns (blocks: nat)
    ensures blocks == FreshSpec(overlap, ages, horizon)
  {
    if horizon.None? { return overlap; }
    var leading := 0;
    for i := 0 to |ages|
      invariant AllWithin(ages[..i], horizon.value)
      invariant LeadingBlocks(ages, horizon.value) == leading + LeadingBlocks(ages[i..], horizon.value)
    {
      if ages[i].age > horizon.value {
        return Min(leading, overlap);
      }
      assert ages[i..][1..] == ages[i + 1..];
      leading := leading + ages[i].blocks;
    }
    assert ages[..|ages|] == ages;
    if ages != [] && ages[|ages| - 1].age <= horizon.value { return overlap; }
    return Min(leading, overlap);
  }

  lemma {:induction false} LeadingBlocksMonotone(ages: seq<AgeRun>, h: nat, h': nat)
    requires h <= h'
    ensures LeadingBlocks(ages, h) <= LeadingBlocks(ages, h')
  {
    if ages != [] { LeadingBlocksMonotone(ages[1..], h, h'); }
  }

  // Nothing changes between two horizons that no recorded age separates.
  lemma {:induction false} LeadingBlocksStep(ages: seq<AgeRun>, h: nat, h': nat)
    requires forall i :: 0 <= i < |ages| ==> (ages[i].age <= h <==> ages[i].age <= h')
    ensures LeadingBlocks(ages, h) == LeadingBlocks(ages, h')
  {
    if ages != [] { LeadingBlocksStep(ages[1..], h, h'); }
  }

  lemma {:induction false} FreshMonotone(overlap: nat, ages: seq<AgeRun>, h: Horizon, h': Horizon)
    requires Within(h, h')
    ensures FreshSpec(overlap, ages, h) <= FreshSpec(overlap, ages, h') <= overlap
  {
    if h'.Some? { LeadingBlocksMonotone(ages, h.value, h'.value); }
  }

  // ----- Blocks to tokens

  function CanonicalBytes(r: Info): nat {
    var canonical := r.totalBlocks * r.chunkBytes;
    if r.requestBytes > 0 then
      if canonical < CANONICAL_LIMIT then Min(canonical, r.requestBytes) else r.requestBytes
    else canonical
  }

  function TokensForBlocks(r: Info, blocks: nat): real {
    var canonical := CanonicalBytes(r);
    if canonical <= 0 then 0.0
    else MinReal(r.prompt, (blocks * r.chunkBytes) as real / canonical as real * r.prompt)
  }

  lemma {:induction false} Scale(a: nat, b: nat, k: nat, d: nat, w: Amount)
    requires a <= b && d > 0
    ensures 0.0 <= (a * k) as real / d as real * w <= (b * k) as real / d as real * w
  {
    assert a * k <= b * k by { assert (b - a) * k >= 0; assert b * k - a * k == (b - a) * k; }
    DivMonotone((a * k) as real, (b * k) as real, d as real);
    MulMonotone((a * k) as real / d as real, (b * k) as real / d as real, w);
    MulNonNegative((a * k) as real / d as real, w);
  }

  // Block credit grows with the blocks and never exceeds the prompt.
  lemma {:induction false} TokensMonotone(r: Info, blocks: nat, more: nat)
    requires blocks <= more
    ensures 0.0 <= TokensForBlocks(r, blocks) <= TokensForBlocks(r, more) <= r.prompt
  {
    hide CanonicalBytes;
    if CanonicalBytes(r) > 0 { Scale(blocks, more, r.chunkBytes, CanonicalBytes(r), r.prompt); }
  }

  // Up to the canonical size, tokens are proportional to bytes; beyond it they are
  // the whole prompt.
  lemma {:induction false} TokensProportional(r: Info, blocks: nat)
    requires CanonicalBytes(r) > 0
    ensures blocks * r.chunkBytes <= CanonicalBytes(r) ==>
              TokensForBlocks(r, blocks) * CanonicalBytes(r) as real == (blocks * r.chunkBytes) as real * r.prompt
    ensures blocks * r.chunkBytes >= CanonicalBytes(r) ==> TokensForBlocks(r, blocks) == r.prompt
  {
    var bytes, size := (blocks * r.chunkBytes) as real, CanonicalBytes(r) as real;
    Ratio(bytes, size, r.prompt);
  }

  lemma {:induction false} Ratio(x: real, d: real, w: Amount)
    requires x >= 0.0 && d > 0.0
    ensures x / d * w * d == x * w
    ensures x <= d ==> x / d * w <= w
    ensures x >= d ==> x / d * w >= w
  {
    var q := x / d;
    assert q * d == x;
    assert q * w * d == (q * d) * w;
    if x <= d {
      assert q <= 1.0;
      MulMonotone(q, 1.0, w);
    }
    if x >= d {
      assert q >= 1.0;
      MulMonotone(1.0, q, w);
    }
  }

  // ----- The credit

  predicate InScope(r: Info, upstream: nat, anyReplica: bool) {
    anyReplica || upstream == r.upstream
  }

  function LinkCredit(infos: seq<Info>, r: Turn, horizon: Horizon, anyReplica: bool): real
    requires LinkInRange(infos, r)
  {
    if r.link.Some? && InScope(r.info, r.link.value.upstream, anyReplica)
       && (horizon.None? || r.link.value.gap <= horizon.value)
    then MinReal(r.info.prompt, infos[r.link.value.predecessor].prompt)
    else 0.0
  }

  predicate LinkInRange(infos: seq<Info>, r: Turn) {
    r.link.Some? ==> r.link.value.predecessor < |infos|
  }

  function CandidateCredit(r: Info, c: Candidate, horizon: Horizon, anyReplica: bool): real {
    if InScope(r, c.upstream, anyReplica) then TokensForBlocks(r, FreshSpec(c.overlap, c.ages, horizon)) else 0.0
  }

  // Largest credit of the first k candidates, the link and the observed cache.
  function Credit(infos: seq<Info>, r: Turn, horizon: Horizon, anyReplica: bool, k: nat): real
    requires LinkInRange(infos, r) && k <= |r.info.candidates|
  {
    if k == 0 then MaxReal(r.info.cached, LinkCredit(infos, r, horizon, anyReplica))
    else MaxReal(Credit(infos, r, horizon, anyReplica, k - 1),
                 CandidateCredit(r.info, r.info.candidates[k - 1], horizon, anyReplica))
  }

  function Hypothetical(infos: seq<Info>, r: Turn, horizon: Horizon, anyReplica: bool): real
    requires LinkInRange(infos, r)
  {
    Credit(infos, r, horizon, anyReplica, |r.info.candidates|)
  }

  method HypotheticalCached(infos: seq<Info>, r: Turn, horizon: Horizon, anyReplica: bool) returns (credit: real)
    requires LinkInRange(infos, r)
    ensures credit == Hypothetical(infos, r, horizon, anyReplica)
  {
    credit := r.info.cached;
    if r.link.Some? && (anyReplica || r.link.value.upstream == r.info.upstream) {
      if horizon.None? || r.link.value.gap <= horizon.value {
        credit := MaxReal(credit, MinReal(r.info.prompt, infos[r.link.value.predecessor].prompt));
      }
    }
    for k := 0 to |r.info.candidates|
      invariant credit == Credit(infos, r, horizon, anyReplica, k)
    {
      var c := r.info.candidates[k];
      if !anyReplica && c.upstream != r.info.upstream {
        CreditAtLeastCached(infos, r, horizon, anyReplica, k);
        continue;
      }
      var blocks := FreshBlocks(c.overlap, c.ages, horizon);
      credit := MaxReal(credit, TokensForBlocks(r.info, blocks));
    }
  }

  lemma {:induction false} CreditAtLeastCached(infos: seq<Info>, r: Turn, horizon: Horizon, anyReplica: bool, k: nat)
    requires LinkInRange(infos, r) && k <= |r.info.candidates|
    ensures Credit(infos, r, horizon, anyReplica, k) >= r.info.cached
  {
    if k > 0 { CreditAtLeastCached(infos, r, horizon, anyReplica, k - 1); }
  }

  // On every path the credit lies between what was cached and the prompt, and
  // it never falls as the horizon grows.
  lemma {:induction false} CreditMonotone(infos: seq<Info>, r: Turn, h: Horizon, h': Horizon, anyReplica: bool, k: nat)
    requires LinkInRange(infos, r) && k <= |r.info.candidates| && Within(h, h') && r.info.Clamped()
    ensures r.info.cached <= Credit(infos, r, h, anyReplica, k) <= Credit(infos, r, h', anyReplica, k) <= r.info.prompt
  {
    if k > 0 {
      CreditMonotone(infos, r, h, h', anyReplica, k - 1);
      var c := r.info.candidates[k - 1];
      FreshMonotone(c.overlap, c.ages, h, h');
      TokensMonotone(r.info, FreshSpec(c.overlap, c.ages, h), FreshSpec(c.overlap, c.ages, h'));
    }
  }

  // A tier shared by all replicas supplies at least what a local one does.
  lemma {:induction false} CreditByScope(infos: seq<Info>, r: Turn, h: Horizon, k: nat)
    requires LinkInRange(infos, r) && k <= |r.info.candidates|
    ensures Credit(infos, r, h, false, k) <= Credit(infos, r, h, true, k)
  {
    hide TokensForBlocks;
    if k > 0 {
      CreditByScope(infos, r, h, k - 1);
      var c := r.info.candidates[k - 1];
      TokensMonotone(r.info, FreshSpec(c.overlap, c.ages, h), FreshSpec(c.overlap, c.ages, h));
    }
  }

  // ----- Avoidable tokens

  function NoiseFloor(r: Info, minTokens: real, minFraction: real): real {
    MaxReal(minTokens, minFraction * r.prompt)
  }

  function Avoidable(infos: seq<Info>, r: Turn, horizon: Horizon, anyReplica: bool, minTokens: real, minFraction: real): real
    requires LinkInRange(infos, r)
  {
    var gain := Hypothetical(infos, r, horizon, anyReplica) - r.info.cached;
    if gain < NoiseFloor(r.info, minTokens, minFraction) then 0.0 else gain
  }

  method AvoidableTokens(infos: seq<Info>, r: Turn, horizon: Horizon, anyReplica: bool, minTokens: real, minFraction: real)
    returns (gain: real)
    requires LinkInRange(infos, r)
    ensures gain == Avoidable(infos, r, horizon, anyReplica, minTokens, minFraction)
  {
    var credit := HypotheticalCached(infos, r, horizon, anyReplica);
    gain := credit - r.info.cached;
    if gain < NoiseFloor(r.info, minTokens, minFraction) { gain := 0.0; }
  }

  lemma {:induction false} AvoidableMonotone(infos: seq<Info>, r: Turn, h: Horizon, h': Horizon, anyReplica: bool, minTokens: real, minFraction: real)
    requires LinkInRange(infos, r) && Within(h, h') && r.info.Clamped()
    ensures 0.0 <= Avoidable(infos, r, h, anyReplica, minTokens, minFraction)
                <= Avoidable(infos, r, h', anyReplica, minTokens, minFraction)
                <= r.info.prompt - r.info.cached
  {
    CreditMonotone(infos, r, h, h', anyReplica, |r.info.candidates|);
  }

  lemma {:induction false} AvoidableByScope(infos: seq<Info>, r: Turn, h: Horizon, minTokens: real, minFraction: real)
    requires LinkInRange(infos, r)
    ensures Avoidable(infos, r, h, false, minTokens, minFraction) <= Avoidable(infos, r, h, true, minTokens, minFraction)
  {
    hide NoiseFloor;
    CreditByScope(infos, r, h, |r.info.candidates|);
    CreditAtLeastCached(infos, r, h, true, |r.info.candidates|);
  }

  // ----- The shortest useful horizon

  // Instants at which the credit can change: the link gap and the recorded ages.
  function AgesOf(ages: seq<AgeRun>): set<nat> { set i | 0 <= i < |ages| :: ages[i].age }

  function Instants(r: Turn, anyReplica: bool, k: nat): set<nat>
    requires k <= |r.info.candidates|
  {
    if k == 0 then (if r.link.Some? then {r.link.value.gap} else {})
    else
      Instants(r, anyReplica, k - 1) +
      (if InScope(r.info, r.info.candidates[k - 1].upstream, anyReplica) then AgesOf(r.info.candidates[k - 1].ages) else {})
  }

  // No instant of s lies in (h, h'].
  ghost predicate Unseparated(s: set<nat>, h: nat, h': nat) {
    forall x :: x in s ==> (x <= h <==> x <= h')
  }

  // The credit is a step function: it changes only at the instants.
  lemma {:induction false} CreditStep(infos: seq<Info>, r: Turn, h: nat, h': nat, anyReplica: bool, k: nat)
    requires LinkInRange(infos, r) && k <= |r.info.candidates|
    requires Unseparated(Instants(r, anyReplica, k), h, h')
    ensures Credit(infos, r, Some(h), anyReplica, k) == Credit(infos, r, Some(h'), anyReplica, k)
  {
    if k > 0 {
      CreditStep(infos, r, h, h', anyReplica, k - 1);
      var c := r.info.candidates[k - 1];
      if InScope(r.info, c.upstream, anyReplica) {
        forall i | 0 <= i < |c.ages|
          ensures c.ages[i].age <= h <==> c.ages[i].age <= h'
        {
          assert c.ages[i].age in AgesOf(c.ages);
        }
        LeadingBlocksStep(c.ages, h, h');
      }
    }
  }

  // Below every instant nothing beyond the observed cache is credited.
  lemma {:induction false} CreditBelowInstants(infos: seq<Info>, r: Turn, h: nat, anyReplica: bool, k: nat)
    requires LinkInRange(infos, r) && k <= |r.info.candidates|
    requires forall x :: x in Instants(r, anyReplica, k) ==> h < x
    ensures Credit(infos, r, Some(h), anyReplica, k) == r.info.cached
  {
    if k == 0 {
      assert r.link.Some? ==> r.link.value.gap in Instants(r, anyReplica, 0);
    } else {
      assert Instants(r, anyReplica, k - 1) <= Instants(r, anyReplica, k);
      CreditBelowInstants(infos, r, h, anyReplica, k - 1);
      var c := r.info.candidates[k - 1];
      if InScope(r.info, c.upstream, anyReplica) {
        if c.ages != [] {
          assert c.ages[0].age in AgesOf(c.ages);
          assert c.ages[0].age in Instants(r, anyReplica, k);
        }
        assert FreshSpec(c.overlap, c.ages, Some(h)) == 0;
        NoBlocks(r.info);
      }
    }
  }

  lemma {:induction false} NoBlocks(r: Info)
    ensures TokensForBlocks(r, 0) == 0.0
  {
    if CanonicalBytes(r) > 0 {
      assert 0 * r.chunkBytes == 0;
      assert (0 * r.chunkBytes) as real / CanonicalBytes(r) as real == 0.0;
    }
  }

  // The greatest instant not above h, if any.
  lemma {:induction false} InstantBelow(s: set<nat>, h: nat) returns (best: Option<nat>)
    ensures best.None? ==> forall x :: x in s ==> h < x
    ensures best.Some? ==> best.value in s && best.value <= h && Unseparated(s, best.value, h)
  {
    best := None;
    var rest := s;
    while rest != {}
      invariant rest <= s
      invariant best.None? ==> forall x :: x in s && x !in rest ==> h < x
      invariant best.Some? ==> best.value in s && best.value <= h &&
                               forall x :: x in s && x !in rest ==> (x <= best.value <==> x <= h)
      decreases rest
    {
      var x :| x in rest;
      rest := rest - {x};
      if x <= h && (best.None? || best.value < x) { best := Some(x); }
    }
  }

  ghost predicate Recovers(infos: seq<Info>, r: Turn, h: Horizon, anyReplica: bool, minTokens: real, minFraction: real)
    requires LinkInRange(infos, r)
  {
    Avoidable(infos, r, h, anyReplica, minTokens, minFraction) > 0.0
  }

  // Any horizon that recovers the miss does so at an instant no later.
  lemma {:induction false} RecoversAtInstant(infos: seq<Info>, r: Turn, h: nat, anyReplica: bool, minTokens: real, minFraction: real)
    returns (x: nat)
    requires LinkInRange(infos, r) && Recovers(infos, r, Some(h), anyReplica, minTokens, minFraction)
    ensures x in Instants(r, anyReplica, |r.info.candidates|) && x <= h
    ensures Recovers(infos, r, Some(x), anyReplica, minTokens, minFraction)
  {
    var s := Instants(r, anyReplica, |r.info.candidates|);
    var best := InstantBelow(s, h);
    if best.None? {
      CreditBelowInstants(infos, r, h, anyReplica, |r.info.candidates|);
      assert false;
    }
    x := best.value;
    CreditStep(infos, r, x, h, anyReplica, |r.info.candidates|);
  }

  // ----- Finite horizons against the infinite one

  // The request as the recorded ages see it: a candidate without age runs
  // offers nothing at any finite horizon.
  function DatedCandidate(c: Candidate): Candidate {
    if c.ages == [] then c.(overlap := 0) else c
  }

  function Dated(r: Turn): Turn {
    r.(info := r.info.(candidates := seq(|r.info.candidates|,
      i requires 0 <= i < |r.info.candidates| => DatedCandidate(r.info.candidates[i]))))
  }

  // Once the horizon covers every instant, only undated overlap is missing.
  lemma {:induction false} CreditBeyondInstants(infos: seq<Info>, r: Turn, h: nat, anyReplica: bool, k: nat)
    requires LinkInRange(infos, r) && k <= |r.info.candidates|
    requires forall x :: x in Instants(r, anyReplica, k) ==> x <= h
    ensures Credit(infos, r, Some(h), anyReplica, k) == Credit(infos, Dated(r), None, anyReplica, k)
  {
    hide TokensForBlocks;
    if k == 0 {
      assert r.link.Some? ==> r.link.value.gap in Instants(r, anyReplica, 0);
    } else {
      assert Instants(r, anyReplica, k - 1) <= Instants(r, anyReplica, k);
      CreditBeyondInstants(infos, r, h, anyReplica, k - 1);
      var c := r.info.candidates[k - 1];
      assert Dated(r).info.candidates[k - 1] == DatedCandidate(c);
      if InScope(r.info, c.upstream, anyReplica) {
        forall i | 0 <= i < |c.ages|
          ensures c.ages[i].age <= h
        {
          assert c.ages[i].age in AgesOf(c.ages);
          assert c.ages[i].age in Instants(r, anyReplica, k);
        }
        assert FreshSpec(c.overlap, c.ages, Some(h)) == DatedCandidate(c).overlap;
        SameTokens(r, DatedCandidate(c).overlap);
      }
    }
  }

  lemma {:induction false} SameTokens(r: Turn, blocks: nat)
    ensures TokensForBlocks(Dated(r).info, blocks) == TokensForBlocks(r.info, blocks)
  {}

  lemma {:induction false} UpperBound(s: set<nat>) returns (h: nat)
    ensures forall x :: x in s ==> x <= h
  {
    h := 0;
    var rest := s;
    while rest != {}
      invariant rest <= s
      invariant forall x :: x in s && x !in rest ==> x <= h
      decreases rest
    {
      var x :| x in rest;
      rest := rest - {x};
      if h < x { h := x; }
    }
  }

  // Some finite horizon recovers the miss exactly when the dated part of the
  // request does at the infinite horizon.
  lemma {:induction false} FiniteRecovery(infos: seq<Info>, r: Turn, anyReplica: bool, minTokens: real, minFraction: real)
    requires LinkInRange(infos, r) && r.info.Clamped()
    ensures (exists h: nat :: Recovers(infos, r, Some(h), anyReplica, minTokens, minFraction))
        <==> Recovers(infos, Dated(r), None, anyReplica, minTokens, minFraction)
  {
    hide Credit;
    var n := |r.info.candidates|;
    var top := UpperBound(Instants(r, anyReplica, n));
    CreditBeyondInstants(infos, r, top, anyReplica, n);
    assert Recovers(infos, r, Some(top), anyReplica, minTokens, minFraction)
      <==> Recovers(infos, Dated(r), None, anyReplica, minTokens, minFraction);
    forall h: nat | Recovers(infos, r, Some(h), anyReplica, minTokens, minFraction)
      ensures Recovers(infos, r, Some(top), anyReplica, minTokens, minFraction)
    {
      var x := RecoversAtInstant(infos, r, h, anyReplica, minTokens, minFraction);
      AvoidableMonotone(infos, r, Some(x), Some(top), anyReplica, minTokens, minFraction);
    }
  }

  ghost predicate FullyDated(r: Turn, anyReplica: bool) {
    forall c :: c in r.info.candidates && InScope(r.info, c.upstream, anyReplica) && c.overlap > 0 ==> c.ages != []
  }

  // When every overlap carries ages, the dated request is worth the same.
  lemma {:induction false} DatedCredit(infos: seq<Info>, r: Turn, anyReplica: bool, k: nat)
    requires LinkInRange(infos, r) && k <= |r.info.candidates| && FullyDated(r, anyReplica)
    ensures Credit(infos, Dated(r), None, anyReplica, k) == Credit(infos, r, None, anyReplica, k)
  {
    hide TokensForBlocks;
    if k > 0 {
      SameTokens(r, r.info.candidates[k - 1].overlap);
      DatedCredit(infos, r, anyReplica, k - 1);
      assert r.info.candidates[k - 1] in r.info.candidates;
      assert Dated(r).info.candidates[k - 1] == DatedCandidate(r.info.candidates[k - 1]);
    }
  }

  // No finite horizon recovers the miss exactly when the dated request gains
  // nothing; with ages everywhere, when the request itself gains nothing.
  lemma {:induction false} UnreachableGain(infos: seq<Info>, r: Turn, anyReplica: bool, minTokens: real, minFraction: real)
    requires LinkInRange(infos, r) && r.info.Clamped()
    ensures (forall h: nat :: !Recovers(infos, r, Some(h), anyReplica, minTokens, minFraction))
        <==> !Recovers(infos, Dated(r), None, anyReplica, minTokens, minFraction)
    ensures FullyDated(r, anyReplica) ==>
              ((forall h: nat :: !Recovers(infos, r, Some(h), anyReplica, minTokens, minFraction))
               <==> Avoidable(infos, r, None, anyReplica, minTokens, minFraction) == 0.0)
  {
    hide Credit;
    FiniteRecovery(infos, r, anyReplica, minTokens, minFraction);
    AvoidableMonotone(infos, r, None, None, anyReplica, minTokens, minFraction);
    if FullyDated(r, anyReplica) { DatedCredit(infos, r, anyReplica, |r.info.candidates|); }
  }

  // An undated candidate can hold an infinite-horizon gain no finite horizon
  // reaches.
  lemma {:induction false} UndatedGainIsUnreachable()
    ensures exists r: Turn ::
              && LinkInRange([], r) && r.info.Clamped()
              && Recovers([], r, None, true, 1.0, 0.0)
              && forall h: nat :: !Recovers([], r, Some(h), true, 1.0, 0.0)
  {
    var info := Info("lb", 1, 2, 0, 10.0, 0.0, 0.0, 1, 0, 1, [Candidate(0, 1, [])]);
    var r := Turn(info, None, None);
    assert CanonicalBytes(info) == 1;
    assert TokensForBlocks(info, 1) == 10.0 by {
      assert (1 * info.chunkBytes) as real / 1.0 * info.prompt == 10.0;
    }
    assert Credit([], r, None, true, 1) == 10.0 by {
      assert Credit([], r, None, true, 0) == 0.0;
    }
    assert Recovers([], r, None, true, 1.0, 0.0);
    forall h: nat
      ensures !Recovers([], r, Some(h), true, 1.0, 0.0)
    {
      assert Instants(r, true, 0) == {} && Instants(r, true, 1) == {};
      CreditBelowInstants([], r, h, true, 1);
    }
  }

  method CollectInstants(r: Turn, anyReplica: bool) returns (instants: set<nat>)
    ensures instants == Instants(r, anyReplica, |r.info.candidates|)
  {
    instants := {};
    if r.link.Some? { instants := instants + {r.link.value.gap}; }
    for k := 0 to |r.info.candidates|
      invariant instants == Instants(r, anyReplica, k)
    {
      var c := r.info.candidates[k];
      if anyReplica || c.upstream == r.info.upstream {
        instants := instants + AgesOf(c.ages);
      }
    }
  }

  // The least element of a non-empty set: the next instant in sorted order.
  method Least(s: set<nat>) returns (x: nat)
    requires s != {}
    ensures x in s && forall y :: y in s ==> x <= y
  {
    x :| x in s;
    var rest := s - {x};
    while rest != {}
      invariant rest <= s && x in s
      invariant forall y :: y in s && y !in rest ==> x <= y
      decreases rest
    {
      var y :| y in rest;
      rest := rest - {y};
      if y < x { x := y; }
    }
  }

  // The result is least among all horizons, not only among the tried instants.
  method RequiredHorizon(infos: seq<Info>, r: Turn, anyReplica: bool, minTokens: real, minFraction: real)
    returns (horizon: Option<nat>)
    requires LinkInRange(infos, r)
    ensures horizon.Some? ==>
              && Recovers(infos, r, horizon, anyReplica, minTokens, minFraction)
              && forall h: nat :: h < horizon.value ==> !Recovers(infos, r, Some(h), anyReplica, minTokens, minFraction)
    ensures horizon.None? ==>
              forall h: nat :: !Recovers(infos, r, Some(h), anyReplica, minTokens, minFraction)
    ensures r.info.Clamped() ==>
              (horizon.None? <==> !Recovers(infos, Dated(r), None, anyReplica, minTokens, minFraction))
    ensures r.info.Clamped() && FullyDated(r, anyReplica) ==>
              (horizon.None? <==> Avoidable(infos, r, None, anyReplica, minTokens, minFraction) == 0.0)
  {
    hide Avoidable, Instants;
    if r.info.Clamped() { UnreachableGain(infos, r, anyReplica, minTokens, minFraction); }
    var s := CollectInstants(r, anyReplica);
    var rest := s;
    while rest != {}
      invariant rest <= s
      invariant forall x :: x in s && x !in rest ==> !Recovers(infos, r, Some(x), anyReplica, minTokens, minFraction)
      invariant forall x, y :: x in s && x !in rest && y in rest ==> x <= y
      decreases rest
    {
      var next := Least(rest);
      var gain := AvoidableTokens(infos, r, Some(next), anyReplica, minTokens, minFraction);
      if gain > 0.0 {
        forall h: nat | h < next
          ensures !Recovers(infos, r, Some(h), anyReplica, minTokens, minFraction)
        {
          if Recovers(infos, r, Some(h), anyReplica, minTokens, minFraction) {
            var x := RecoversAtInstant(infos, r, h, anyReplica, minTokens, minFraction);
            assert false;
          }
        }
        return Some(next);
      }
      rest := rest - {next};
    }
    forall h: nat
      ensures !Recovers(infos, r, Some(h), anyReplica, minTokens, minFraction)
    {
      if Recovers(infos, r, Some(h), anyReplica, minTokens, minFraction) {
        var x := RecoversAtInstant(infos, r, h, anyReplica, minTokens, minFraction);
      }
    }
    return None;
  }
}
