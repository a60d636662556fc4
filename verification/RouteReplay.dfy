/**
 Static replay of recorded routing decisions (bench/route_replay.py): which blocks
 a horizon credits, how affinity enters the score, which upstream wins, and
 whether a record agrees with its own block ages.
 */
module RouteReplay {
  import opened Common
  import opened RouteOrder
  import opened CacheCredit
  import opened AgeRuns
  import Requests

  type AgeRun = Requests.AgeRun
  type Horizon = Requests.Horizon

  datatype Basis = Absolute | Marginal | Relative

  // One candidate of a start record. Absent or malformed age runs are None, an
  // absent stale count reads as zero.
  datatype Candidate = Candidate(
    upstream: nat,
    healthy: bool,
    overlapBlocks: nat,
    staleBlocks: Option<int>,
    ages: Option<seq<AgeRun>>,
    horizonMs: Option<int>,
    affinityBlocks: int,
    load: int,
    requestLoad: Option<int>)

  // A start record. `observed` says it carries a horizon observation; a cap that
  // is not an integer and a basis outside the known three are None.
  datatype Record = Record(
    observed: bool,
    enforce: bool,
    cap: Option<int>,
    basis: Option<Basis>,
    laneRestricted: bool,
    rotation: nat,
    candidates: seq<Candidate>)

  // ----- Overlap

  // Served overlap regardless of age. In enforce mode the journal holds the fresh
  // count and the trimmed rest separately.
  function RawOverlap(enforce: bool, c: Candidate): Result<nat> {
    if !enforce then Ok(c.overlapBlocks)
    else
      var stale := if c.staleBlocks.None? then 0 else c.staleBlocks.value;
      if stale < 0 then Err else Ok(c.overlapBlocks + stale)
  }

  // Leading served blocks no older than the horizon.
  function Credited(enforce: bool, c: Candidate, horizon: Horizon): Result<nat> {
    var raw := RawOverlap(enforce, c);
    if raw.Err? || horizon.None? then raw
    else if c.ages.None? then Err
    else Ok(CreditedBlocks(raw.value, c.ages.value, horizon.value))
  }

  method CreditedOverlap(enforce: bool, c: Candidate, horizon: Horizon) returns (r: Result<nat>)
    ensures r == Credited(enforce, c, horizon)
  {
    var raw := RawOverlap(enforce, c);
    if raw.Err? || horizon.None? { return raw; }
    if c.ages.None? { return Err; }
    var ages, recent := c.ages.value, 0;
    var i := 0;
    while i < |ages|
      invariant i <= |ages|
      invariant LeadingBlocks(ages, horizon.value) == recent + LeadingBlocks(ages[i..], horizon.value)
      decreases |ages| - i
    {
      if ages[i].age > horizon.value { break; }
      assert ages[i..][1..] == ages[i + 1..];
      recent := recent + ages[i].blocks;
      i := i + 1;
    }
    return Ok(Min(recent, raw.value));
  }

  // A longer horizon never credits fewer blocks, and never more than were served.
  lemma {:induction false} CreditedMonotone(enforce: bool, c: Candidate, h: Horizon, h': Horizon)
    requires Requests.Within(h, h') && Credited(enforce, c, h).Ok? && Credited(enforce, c, h').Ok?
    ensures Credited(enforce, c, h).value <= Credited(enforce, c, h').value <= RawOverlap(enforce, c).value
  {
    if h'.Some? { LeadingBlocksMonotone(c.ages.value, h.value, h'.value); }
  }

  // ----- Affinity

  predicate Numbers(cs: seq<Candidate>) {
    && (forall i :: 0 <= i < |cs| ==> cs[i].upstream < |cs|)
    && (forall i, j :: 0 <= i < j < |cs| ==> cs[i].upstream != cs[j].upstream)
  }

  // What each upstream was credited; a later candidate of the same upstream wins.
  function OverlapMap(record: Record, horizon: Horizon, k: nat): map<nat, nat>
    requires k <= |record.candidates|
  {
    if k == 0 then map[]
    else
      var c := record.candidates[k - 1];
      OverlapMap(record, horizon, k - 1)[c.upstream := CreditOf(record, c, horizon)]
  }

  function CreditOf(record: Record, c: Candidate, horizon: Horizon): nat {
    var r := Credited(record.enforce, c, horizon);
    if r.Ok? then r.value else 0
  }

  predicate Covers(overlaps: map<nat, nat>, cs: seq<Candidate>) {
    forall i :: 0 <= i < |cs| ==> cs[i].upstream in overlaps
  }

  // Least overlap among the healthy candidates.
  function Floor(cs: seq<Candidate>, overlaps: map<nat, nat>): (floor: Option<nat>)
    requires Covers(overlaps, cs)
    ensures floor.None? <==> forall i :: 0 <= i < |cs| ==> !cs[i].healthy
    ensures floor.Some? ==> exists i :: 0 <= i < |cs| && cs[i].healthy && overlaps[cs[i].upstream] == floor.value
    ensures floor.Some? ==> forall i :: 0 <= i < |cs| && cs[i].healthy ==> floor.value <= overlaps[cs[i].upstream]
  {
    if cs == [] then None
    else
      var rest := Floor(cs[..|cs| - 1], overlaps);
      var c := cs[|cs| - 1];
      if !c.healthy then rest
      else if rest.Some? && rest.value <= overlaps[c.upstream] then rest
      else Some(overlaps[c.upstream])
  }

  // Greatest overlap among the healthy candidates.
  function Lead(cs: seq<Candidate>, overlaps: map<nat, nat>): (lead: Option<nat>)
    requires Covers(overlaps, cs)
    ensures lead.None? <==> forall i :: 0 <= i < |cs| ==> !cs[i].healthy
    ensures lead.Some? ==> exists i :: 0 <= i < |cs| && cs[i].healthy && overlaps[cs[i].upstream] == lead.value
    ensures lead.Some? ==> forall i :: 0 <= i < |cs| && cs[i].healthy ==> overlaps[cs[i].upstream] <= lead.value
  {
    if cs == [] then None
    else
      var rest := Lead(cs[..|cs| - 1], overlaps);
      var c := cs[|cs| - 1];
      if !c.healthy then rest
      else if rest.Some? && rest.value >= overlaps[c.upstream] then rest
      else Some(overlaps[c.upstream])
  }

  function OrZero(x: Option<nat>): nat { if x.Some? then x.value else 0 }

  function AffinityFrom(basis: Basis, overlap: nat, floor: nat, lead: nat, cap: nat): nat {
    match basis
    case Absolute => Min(overlap, cap)
    case Marginal => Min(Max(overlap - floor, 0), cap)
    case Relative => Max(Min(lead, cap) - Min(Max(lead - overlap, 0), cap), 0)
  }

  function Affinity(basis: Basis, overlap: nat, cs: seq<Candidate>, overlaps: map<nat, nat>, cap: nat): nat
    requires Covers(overlaps, cs)
  {
    AffinityFrom(basis, overlap, OrZero(Floor(cs, overlaps)), OrZero(Lead(cs, overlaps)), cap)
  }

  // No basis credits more than the cap or more than the overlap of a healthy
  // candidate.
  lemma {:induction false} AffinityBounded(basis: Basis, i: nat, cs: seq<Candidate>, overlaps: map<nat, nat>, cap: nat)
    requires Covers(overlaps, cs) && i < |cs| && cs[i].healthy
    ensures Affinity(basis, overlaps[cs[i].upstream], cs, overlaps, cap) <= Min(overlaps[cs[i].upstream], cap)
  {}

  // The overlaps when every peer holds that many more blocks.
  function Shared(overlaps: map<nat, nat>, more: nat): map<nat, nat> {
    map u | u in overlaps :: overlaps[u] + more
  }

  // Marginal affinity ignores a prefix that every peer holds.
  lemma {:induction false} MarginalIgnoresSharedPrefix(cs: seq<Candidate>, overlaps: map<nat, nat>, more: nat, cap: nat, i: nat)
    requires Covers(overlaps, cs) && i < |cs| && cs[i].healthy
    ensures Covers(Shared(overlaps, more), cs)
    ensures Affinity(Marginal, Shared(overlaps, more)[cs[i].upstream], cs, Shared(overlaps, more), cap)
         == Affinity(Marginal, overlaps[cs[i].upstream], cs, overlaps, cap)
  {
    var shared := Shared(overlaps, more);
    assert Floor(cs, shared).Some? && Floor(cs, overlaps).Some?;
    var j :| 0 <= j < |cs| && cs[j].healthy && overlaps[cs[j].upstream] == Floor(cs, overlaps).value;
    var k :| 0 <= k < |cs| && cs[k].healthy && shared[cs[k].upstream] == Floor(cs, shared).value;
    assert Floor(cs, overlaps).value <= overlaps[cs[k].upstream] && Floor(cs, shared).value <= shared[cs[j].upstream];
  }

  // Relative affinity is the leader's, less the blocks this candidate trails by.
  lemma {:induction false} RelativeMeasuresTrail(overlap: nat, floor: nat, lead: nat, cap: nat)
    requires overlap <= lead
    ensures AffinityFrom(Relative, lead, floor, lead, cap) == Min(lead, cap)
    ensures AffinityFrom(Relative, lead, floor, lead, cap) - AffinityFrom(Relative, overlap, floor, lead, cap)
         == Min(lead - overlap, cap)
  {}

  // Between two candidates the relative affinities differ by the capped difference
  // of their overlaps only while the lesser trails the leader within the cap or the
  // greater is the leader (or the question is void); never by more.
  lemma {:induction false} RelativeDifference(lesser: nat, greater: nat, floor: nat, lead: nat, cap: nat)
    requires lesser <= greater <= lead
    ensures var difference := AffinityFrom(Relative, greater, floor, lead, cap) - AffinityFrom(Relative, lesser, floor, lead, cap);
            && 0 <= difference <= Min(greater - lesser, cap)
            && (difference == Min(greater - lesser, cap) <==>
                lead - lesser <= cap || greater == lead || greater == lesser || cap == 0)
  {}

  // Among candidates the relative affinity counts from the healthy one with most blocks.
  lemma {:induction false} RelativeToLeader(cs: seq<Candidate>, overlaps: map<nat, nat>, l: nat, overlap: nat, cap: nat)
    requires Covers(overlaps, cs) && l < |cs| && cs[l].healthy
    requires forall i :: 0 <= i < |cs| && cs[i].healthy ==> overlaps[cs[i].upstream] <= overlaps[cs[l].upstream]
    ensures Affinity(Relative, overlap, cs, overlaps, cap) == AffinityFrom(Relative, overlap, 0, overlaps[cs[l].upstream], cap)
  {
    hide Floor;
    assert Lead(cs, overlaps).Some?;
  }

  // Among three healthy candidates with 20, 15 and 5 blocks and a cap of ten, the last would
  // recompute ten blocks more than the second; their affinities differ by five.
  lemma {:induction false} RelativeUnderstates()
    ensures exists cs: seq<Candidate>, overlaps: map<nat, nat> ::
              && |cs| == 3 && Covers(overlaps, cs) && (forall i :: 0 <= i < 3 ==> cs[i].healthy && cs[i].upstream == i)
              && overlaps == map[0 := 20, 1 := 15, 2 := 5]
              && Affinity(Relative, 15, cs, overlaps, 10) - Affinity(Relative, 5, cs, overlaps, 10) == 5 < Min(15 - 5, 10)
  {
    var c := Candidate(0, true, 20, None, None, None, 0, 0, None);
    var cs := [c, c.(upstream := 1, overlapBlocks := 15), c.(upstream := 2, overlapBlocks := 5)];
    var overlaps: map<nat, nat> := map[0 := 20, 1 := 15, 2 := 5];
    RelativeToLeader(cs, overlaps, 0, 15, 10);
    RelativeToLeader(cs, overlaps, 0, 5, 10);
    hide Affinity;
    assert Affinity(Relative, 15, cs, overlaps, 10) - Affinity(Relative, 5, cs, overlaps, 10) == 5;
  }

  // ----- Scoring

  datatype Policy = Policy(alpha: real, cap: nat, tieBreak: TieBreak, projected: bool, horizon: Horizon, basis: Basis)

  predicate LoadKnown(c: Candidate, projected: bool) {
    projected ==> c.requestLoad.Some? && c.requestLoad.value > 0
  }

  function ScoredLoad(c: Candidate, projected: bool): int {
    if projected && c.requestLoad.Some? then c.load + c.requestLoad.value - 1 else c.load
  }

  function LoadMap(cs: seq<Candidate>, projected: bool, k: nat): map<nat, int>
    requires k <= |cs|
  {
    if k == 0 then map[] else LoadMap(cs, projected, k - 1)[cs[k - 1].upstream := ScoredLoad(cs[k - 1], projected)]
  }

  predicate Replayable(record: Record, policy: Policy) {
    forall i :: 0 <= i < |record.candidates| ==>
      && Credited(record.enforce, record.candidates[i], policy.horizon).Ok?
      && LoadKnown(record.candidates[i], policy.projected)
  }

  lemma {:induction false} MapsCover(record: Record, policy: Policy, k: nat)
    requires k <= |record.candidates|
    ensures forall i :: 0 <= i < k ==> record.candidates[i].upstream in OverlapMap(record, policy.horizon, k)
    ensures forall i :: 0 <= i < k ==> record.candidates[i].upstream in LoadMap(record.candidates, policy.projected, k)
  {
    if k > 0 { MapsCover(record, policy, k - 1); }
  }

  ghost function Overlaps(record: Record, policy: Policy): (overlaps: map<nat, nat>)
    ensures Covers(overlaps, record.candidates)
  {
    MapsCover(record, policy, |record.candidates|);
    OverlapMap(record, policy.horizon, |record.candidates|)
  }

  ghost function Loads(record: Record, policy: Policy): (loads: map<nat, int>)
    ensures forall i :: 0 <= i < |record.candidates| ==> record.candidates[i].upstream in loads
  {
    MapsCover(record, policy, |record.candidates|);
    LoadMap(record.candidates, policy.projected, |record.candidates|)
  }

  function Score(affinity: nat, alpha: real, load: int): real { affinity as real - alpha * load as real }

  function ScoreOne(c: Candidate, policy: Policy, cs: seq<Candidate>, overlaps: map<nat, nat>, loads: map<nat, int>): Scored
    requires Covers(overlaps, cs) && c.upstream in overlaps && c.upstream in loads
  {
    var overlap, load := overlaps[c.upstream], loads[c.upstream];
    var affinity := Affinity(policy.basis, overlap, cs, overlaps, policy.cap);
    Scored(c.upstream, c.healthy, overlap, load, Score(affinity, policy.alpha, load))
  }

  // The candidates as the comparator sees them.
  ghost function ScoredList(record: Record, policy: Policy): (s: seq<Scored>)
    ensures |s| == |record.candidates|
    ensures forall i :: 0 <= i < |s| ==>
              s[i] == ScoreOne(record.candidates[i], policy, record.candidates, Overlaps(record, policy), Loads(record, policy))
  {
    var overlaps, loads := Overlaps(record, policy), Loads(record, policy);
    seq(|record.candidates|, i requires 0 <= i < |record.candidates| =>
      ScoreOne(record.candidates[i], policy, record.candidates, overlaps, loads))
  }

  function RuleOf(record: Record, policy: Policy): Rule {
    Rule(policy.tieBreak, record.rotation, |record.candidates|)
  }

  // Position i wins: healthy if anyone is, with the best score of its health
  // class, and with a transitive rule before all others.
  ghost predicate Wins(rule: Rule, s: seq<Scored>, i: nat)
    requires rule.count > 0 && i < |s|
  {
    && (forall j :: 0 <= j < |s| && s[j].healthy ==> s[i].healthy)
    && (forall j :: 0 <= j < |s| && s[j].healthy == s[i].healthy ==> s[j].score <= s[i].score)
    && (Numbered(s, rule.count) && (rule.tieBreak == Overlap || Acyclic(rule, s)) ==> IsFirst(rule, s, s[i]))
  }

  ghost predicate IsWinner(record: Record, policy: Policy, upstream: nat)
    requires record.candidates != []
  {
    var s := ScoredList(record, policy);
    exists i :: 0 <= i < |s| && s[i].upstream == upstream && Wins(RuleOf(record, policy), s, i)
  }

  method BuildMaps(record: Record, policy: Policy) returns (ok: bool, overlaps: map<nat, nat>, loads: map<nat, int>)
    ensures ok <==> Replayable(record, policy)
    ensures ok ==> overlaps == Overlaps(record, policy) && loads == Loads(record, policy)
  {
    overlaps, loads := map[], map[];
    for k := 0 to |record.candidates|
      invariant overlaps == OverlapMap(record, policy.horizon, k)
      invariant forall i :: 0 <= i < k ==> Credited(record.enforce, record.candidates[i], policy.horizon).Ok?
    {
      var credited := CreditedOverlap(record.enforce, record.candidates[k], policy.horizon);
      if credited.Err? { return false, overlaps, loads; }
      overlaps := overlaps[record.candidates[k].upstream := credited.value];
    }
    for k := 0 to |record.candidates|
      invariant loads == LoadMap(record.candidates, policy.projected, k)
      invariant forall i :: 0 <= i < k ==> LoadKnown(record.candidates[i], policy.projected)
    {
      var c := record.candidates[k];
      var load := c.load;
      if policy.projected {
        if c.requestLoad.None? || c.requestLoad.value <= 0 { return false, overlaps, loads; }
        load := load + c.requestLoad.value - 1;
      }
      loads := loads[c.upstream := load];
    }
    ok := true;
  }

  method Choose(record: Record, policy: Policy) returns (r: Result<Option<nat>>)
    ensures record.candidates == [] ==> r == Ok(None)
    ensures record.candidates != [] ==> (r.Ok? <==> Replayable(record, policy))
    ensures record.candidates != [] && r.Ok? ==> r.value.Some? && IsWinner(record, policy, r.value.value)
  {
    hide ScoreOne, IsWinner;
    if record.candidates == [] { return Ok(None); }
    var ok, overlaps, loads := BuildMaps(record, policy);
    if !ok { return Err; }
    var cs := record.candidates;
    var scored := seq(|cs|, i requires 0 <= i < |cs| => ScoreOne(cs[i], policy, cs, overlaps, loads));
    assert scored == ScoredList(record, policy);
    var rule := RuleOf(record, policy);
    var sorted := SortCandidates(rule, scored);
    HeadIsWinner(record, policy, sorted);
    r := Ok(Some(sorted[0].upstream));
  }

  lemma {:induction false} HeadIsWinner(record: Record, policy: Policy, sorted: seq<Scored>)
    requires record.candidates != [] && Settled(RuleOf(record, policy), sorted)
    requires multiset(sorted) == multiset(ScoredList(record, policy))
    ensures sorted != [] && IsWinner(record, policy, sorted[0].upstream)
  {
    hide ScoreOne;
    var i := SortedHeadWins(RuleOf(record, policy), ScoredList(record, policy), sorted);
  }

  lemma {:induction false} SortedHeadWins(rule: Rule, scored: seq<Scored>, sorted: seq<Scored>) returns (head: nat)
    requires rule.count == |scored| > 0 && Settled(rule, sorted) && multiset(sorted) == multiset(scored)
    ensures sorted != [] && head < |scored| && scored[head] == sorted[0] && Wins(rule, scored, head)
  {
    SameMembers(scored, sorted);
    assert sorted[0] in sorted;
    head :| 0 <= head < |scored| && scored[head] == sorted[0];
    forall j | 0 <= j < |scored|
      ensures scored[j].healthy ==> sorted[0].healthy
      ensures scored[j].healthy == sorted[0].healthy ==> scored[j].score <= sorted[0].score
    {
      assert scored[j] in sorted;
      var i :| 0 <= i < |sorted| && sorted[i] == scored[j];
      HeadIsBest(rule, sorted, i);
    }
    if Numbered(scored, rule.count) && (rule.tieBreak == Overlap || Acyclic(rule, scored)) {
      PermutedNumbers(scored, sorted, rule.count);
      HeadIgnoresOrder(rule, sorted, sorted);
    }
  }

  // Rearranging numbered candidates keeps them numbered.
  lemma {:induction false} PermutedNumbers(s: seq<Scored>, t: seq<Scored>, count: nat)
    requires multiset(s) == multiset(t) && Numbered(s, count)
    ensures Numbered(t, count)
  {
    SameMembers(s, t);
    forall i | 0 <= i < |t|
      ensures t[i].upstream < count
    {
      assert t[i] in s;
    }
    forall i, j | 0 <= i < j < |t|
      ensures t[i].upstream != t[j].upstream
    {
      if t[i].upstream == t[j].upstream {
        assert t[i] in s && t[j] in s;
        assert t[i] == t[j];
        Twice(t, i, j);
        OnlyOnce(s, t[i]);
        assert false;
      }
    }
  }

  lemma {:induction false} Twice(t: seq<Scored>, i: nat, j: nat)
    requires i < j < |t| && t[i] == t[j]
    ensures multiset(t)[t[i]] >= 2
  {
    assert t == t[..j] + [t[j]] + t[j + 1..];
    assert t[i] in t[..j];
  }

  lemma {:induction false} OnlyOnce(s: seq<Scored>, x: Scored)
    requires x in s && forall i, j :: 0 <= i < j < |s| ==> s[i].upstream != s[j].upstream
    ensures multiset(s)[x] == 1
  {
    var i :| 0 <= i < |s| && s[i] == x;
    assert s == s[..i] + [x] + s[i + 1..];
    assert x !in s[..i] && x !in s[i + 1..];
  }

  // ----- The order of the candidate list does not matter

  // Each upstream of a numbered record is credited its own candidate's blocks.
  lemma {:induction false} MapsAt(record: Record, policy: Policy, k: nat, i: nat)
    requires Numbers(record.candidates) && i < k <= |record.candidates|
    ensures var c := record.candidates[i];
            && c.upstream in OverlapMap(record, policy.horizon, k)
            && OverlapMap(record, policy.horizon, k)[c.upstream] == CreditOf(record, c, policy.horizon)
            && c.upstream in LoadMap(record.candidates, policy.projected, k)
            && LoadMap(record.candidates, policy.projected, k)[c.upstream] == ScoredLoad(c, policy.projected)
  {
    if i < k - 1 { MapsAt(record, policy, k - 1, i); }
  }

  // The same candidates in another order.
  ghost predicate Reordered(record: Record, other: Record) {
    && record == other.(candidates := record.candidates)
    && |record.candidates| == |other.candidates|
    && (forall c :: c in record.candidates <==> c in other.candidates)
  }

  lemma {:induction false} SameMaps(record: Record, other: Record, policy: Policy, c: Candidate)
    requires Reordered(record, other) && Numbers(record.candidates) && Numbers(other.candidates)
    requires c in record.candidates
    ensures c.upstream in Overlaps(record, policy) && c.upstream in Overlaps(other, policy)
    ensures Overlaps(record, policy)[c.upstream] == Overlaps(other, policy)[c.upstream]
    ensures c.upstream in Loads(record, policy) && c.upstream in Loads(other, policy)
    ensures Loads(record, policy)[c.upstream] == Loads(other, policy)[c.upstream]
  {
    assert c in other.candidates;
    var i :| 0 <= i < |record.candidates| && record.candidates[i] == c;
    var j :| 0 <= j < |other.candidates| && other.candidates[j] == c;
    MapsAt(record, policy, |record.candidates|, i);
    MapsAt(other, policy, |other.candidates|, j);
  }

  // Every candidate of cs is also in other, with the same overlap.
  ghost predicate Embeds(cs: seq<Candidate>, other: seq<Candidate>, m: map<nat, nat>, m': map<nat, nat>) {
    forall c :: c in cs ==>
      c in other && c.upstream in m && c.upstream in m' && m[c.upstream] == m'[c.upstream]
  }

  // Floor and lead look only at which candidates there are.
  lemma {:induction false} PeersBound(cs: seq<Candidate>, other: seq<Candidate>, m: map<nat, nat>, m': map<nat, nat>)
    requires Covers(m, cs) && Covers(m', other) && Embeds(cs, other, m, m')
    ensures Floor(cs, m).Some? ==> Floor(other, m').Some? && Floor(other, m').value <= Floor(cs, m).value
    ensures Lead(cs, m).Some? ==> Lead(other, m').Some? && Lead(other, m').value >= Lead(cs, m).value
  {
    if Floor(cs, m).Some? {
      var i :| 0 <= i < |cs| && cs[i].healthy && m[cs[i].upstream] == Floor(cs, m).value;
      assert cs[i] in cs;
      var j :| 0 <= j < |other| && other[j] == cs[i];
    }
    if Lead(cs, m).Some? {
      var i :| 0 <= i < |cs| && cs[i].healthy && m[cs[i].upstream] == Lead(cs, m).value;
      assert cs[i] in cs;
      var j :| 0 <= j < |other| && other[j] == cs[i];
    }
  }

  lemma {:induction false} ReorderedEmbeds(record: Record, other: Record, policy: Policy)
    requires Reordered(record, other) && Numbers(record.candidates) && Numbers(other.candidates)
    ensures Embeds(record.candidates, other.candidates, Overlaps(record, policy), Overlaps(other, policy))
  {
    forall c | c in record.candidates
      ensures c in other.candidates && c.upstream in Overlaps(record, policy) && c.upstream in Overlaps(other, policy)
      ensures Overlaps(record, policy)[c.upstream] == Overlaps(other, policy)[c.upstream]
    {
      SameMaps(record, other, policy, c);
    }
  }

  lemma {:induction false} EqualPeers(cs: seq<Candidate>, other: seq<Candidate>, m: map<nat, nat>, m': map<nat, nat>)
    requires Covers(m, cs) && Covers(m', other) && Embeds(cs, other, m, m') && Embeds(other, cs, m', m)
    ensures Floor(cs, m) == Floor(other, m') && Lead(cs, m) == Lead(other, m')
  {
    hide Embeds;
    PeersBound(cs, other, m, m');
    PeersBound(other, cs, m', m);
  }

  lemma {:induction false} ReorderedBack(record: Record, other: Record)
    requires Reordered(record, other)
    ensures Reordered(other, record)
  {}

  lemma {:induction false} SamePeers(record: Record, other: Record, policy: Policy)
    requires Reordered(record, other) && Numbers(record.candidates) && Numbers(other.candidates)
    ensures Floor(record.candidates, Overlaps(record, policy)) == Floor(other.candidates, Overlaps(other, policy))
    ensures Lead(record.candidates, Overlaps(record, policy)) == Lead(other.candidates, Overlaps(other, policy))
  {
    hide Overlaps, Reordered, Numbers, Embeds;
    ReorderedBack(record, other);
    ReorderedEmbeds(record, other, policy);
    ReorderedEmbeds(other, record, policy);
    EqualPeers(record.candidates, other.candidates, Overlaps(record, policy), Overlaps(other, policy));
  }

  lemma {:induction false} SameScore(record: Record, other: Record, policy: Policy, c: Candidate)
    requires Reordered(record, other) && Numbers(record.candidates) && Numbers(other.candidates)
    requires c in record.candidates
    requires c.upstream in Overlaps(record, policy) && c.upstream in Overlaps(other, policy)
    requires c.upstream in Loads(record, policy) && c.upstream in Loads(other, policy)
    ensures ScoreOne(c, policy, record.candidates, Overlaps(record, policy), Loads(record, policy))
         == ScoreOne(c, policy, other.candidates, Overlaps(other, policy), Loads(other, policy))
  {
    hide Overlaps, Loads, Score, AffinityFrom, Reordered, Numbers;
    SameMaps(record, other, policy, c);
    SamePeers(record, other, policy);
  }

  lemma {:induction false} SameScores(record: Record, other: Record, policy: Policy, x: Scored)
    requires Reordered(record, other) && Numbers(record.candidates) && Numbers(other.candidates)
    ensures x in ScoredList(record, policy) ==> x in ScoredList(other, policy)
  {
    hide ScoreOne, Overlaps, Loads;
    var s, t := ScoredList(record, policy), ScoredList(other, policy);
    if x in s {
      var i :| 0 <= i < |s| && s[i] == x;
      var c := record.candidates[i];
      SameMaps(record, other, policy, c);
      SameScore(record, other, policy, c);
      assert c in other.candidates;
      var j :| 0 <= j < |other.candidates| && other.candidates[j] == c;
      assert t[j] == x;
    }
  }

  // With the overlap tie-break two orders of one candidate list have the same winner.
  lemma {:induction false} WinnerIgnoresOrder(record: Record, other: Record, policy: Policy, u: nat, v: nat)
    requires record.candidates != [] && policy.tieBreak == Overlap
    requires Reordered(record, other) && Numbers(record.candidates) && Numbers(other.candidates)
    requires IsWinner(record, policy, u) && IsWinner(other, policy, v)
    ensures u == v
  {
    hide ScoreOne, Reordered, Rule.Compare, Numbered, Numbers;
    var s, t, rule := ScoredList(record, policy), ScoredList(other, policy), RuleOf(record, policy);
    assert RuleOf(other, policy) == rule by { SameRule(record, other, policy); }
    ReorderedBack(record, other);
    ListNumbered(record, policy);
    ListNumbered(other, policy);
    forall x
      ensures x in s <==> x in t
    {
      SameScores(record, other, policy, x);
      SameScores(other, record, policy, x);
    }
    var i :| 0 <= i < |s| && s[i].upstream == u && Wins(rule, s, i);
    var j :| 0 <= j < |t| && t[j].upstream == v && Wins(rule, t, j);
    FirstIsUnique(rule, s, s[i], t[j]);
  }

  lemma {:induction false} SameRule(record: Record, other: Record, policy: Policy)
    requires Reordered(record, other)
    ensures RuleOf(record, policy) == RuleOf(other, policy) && (record.candidates != [] <==> other.candidates != [])
  {}

  lemma {:induction false} ListNumbered(record: Record, policy: Policy)
    requires Numbers(record.candidates)
    ensures Numbered(ScoredList(record, policy), |record.candidates|)
  {}

  // ----- Below the cap the three bases decide alike

  // What a basis takes off every healthy candidate when no overlap reaches the cap.
  ghost function Shift(record: Record, policy: Policy): nat {
    if policy.basis == Marginal then OrZero(Floor(record.candidates, Overlaps(record, policy))) else 0
  }

  ghost predicate BelowCap(record: Record, policy: Policy) {
    forall i :: 0 <= i < |record.candidates| && record.candidates[i].healthy ==>
      Overlaps(record, policy)[record.candidates[i].upstream] <= policy.cap
  }

  lemma {:induction false} AffinityShifts(record: Record, policy: Policy, i: nat)
    requires i < |record.candidates| && record.candidates[i].healthy && BelowCap(record, policy)
    ensures var overlaps := Overlaps(record, policy);
            Affinity(policy.basis, overlaps[record.candidates[i].upstream], record.candidates, overlaps, policy.cap)
              == overlaps[record.candidates[i].upstream] - Shift(record, policy)
  {
    hide Overlaps;
    var lead := Lead(record.candidates, Overlaps(record, policy));
    var j :| 0 <= j < |record.candidates| && record.candidates[j].healthy &&
             Overlaps(record, policy)[record.candidates[j].upstream] == lead.value;
  }

  ghost function AffinityAt(record: Record, policy: Policy, i: nat): nat
    requires i < |record.candidates|
  {
    var overlaps := Overlaps(record, policy);
    Affinity(policy.basis, overlaps[record.candidates[i].upstream], record.candidates, overlaps, policy.cap)
  }

  predicate Healthy(record: Record, i: int) { 0 <= i < |record.candidates| && record.candidates[i].healthy }

  ghost predicate EqualGap(record: Record, policy: Policy, basis: Basis, i: nat, j: nat)
    requires i < |record.candidates| && j < |record.candidates|
  {
    AffinityAt(record, policy, i) - AffinityAt(record, policy, j)
    == AffinityAt(record, policy.(basis := basis), i) - AffinityAt(record, policy.(basis := basis), j)
  }

  // Under both bases any two healthy candidates are equally far apart.
  ghost predicate EqualGaps(record: Record, policy: Policy, basis: Basis) {
    forall i, j :: Healthy(record, i) && Healthy(record, j) ==> EqualGap(record, policy, basis, i, j)
  }

  // Equal gaps leave comparisons as they were.
  lemma {:induction false} BasisKeepsComparison(record: Record, policy: Policy, basis: Basis, i: nat, j: nat)
    requires i < |record.candidates| && record.candidates[i].healthy && EqualGaps(record, policy, basis)
    requires j < |record.candidates| && record.candidates[j].healthy
    ensures var s, t := ScoredList(record, policy), ScoredList(record, policy.(basis := basis));
            var rule := RuleOf(record, policy);
            rule.Compare(s[i], s[j]) == rule.Compare(t[i], t[j])
  {
    hide Rank, Affinity;
    var other := policy.(basis := basis);
    assert Overlaps(record, policy) == Overlaps(record, other) && Loads(record, policy) == Loads(record, other);
    assert Healthy(record, i) && Healthy(record, j) && EqualGap(record, policy, basis, i, j);
  }

  // Bases with equal gaps choose the same upstream.
  lemma {:induction false} EqualGapsAgree(record: Record, policy: Policy, basis: Basis, u: nat, v: nat)
    requires Numbers(record.candidates) && policy.tieBreak == Overlap && EqualGaps(record, policy, basis)
    requires exists i :: 0 <= i < |record.candidates| && record.candidates[i].healthy
    requires IsWinner(record, policy, u) && IsWinner(record, policy.(basis := basis), v)
    ensures u == v
  {
    hide ScoreOne, Overlaps, Loads, EqualGaps, Wins, Rule.Compare, Numbered;
    var s, t, rule := ScoredList(record, policy), ScoredList(record, policy.(basis := basis)), RuleOf(record, policy);
    ListNumbered(record, policy);
    ListNumbered(record, policy.(basis := basis));
    ListFlags(record, policy);
    ListFlags(record, policy.(basis := basis));
    var i :| 0 <= i < |s| && s[i].upstream == u && Wins(rule, s, i);
    var j :| 0 <= j < |t| && t[j].upstream == v && Wins(rule, t, j);
    WinnersHealthy(rule, s, i);
    WinnersHealthy(rule, t, j);
    BasisKeepsComparison(record, policy, basis, i, j);
    SameWinner(rule, s, t, i, j);
  }

  // Below the cap all three bases choose alike.
  lemma {:induction false} BasesAgree(record: Record, policy: Policy, basis: Basis, u: nat, v: nat)
    requires Numbers(record.candidates) && policy.tieBreak == Overlap && BelowCap(record, policy)
    requires exists i :: 0 <= i < |record.candidates| && record.candidates[i].healthy
    requires IsWinner(record, policy, u) && IsWinner(record, policy.(basis := basis), v)
    ensures u == v
  {
    hide IsWinner;
    GapsBelowCap(record, policy, basis);
    EqualGapsAgree(record, policy, basis, u, v);
  }

  lemma {:induction false} GapsBelowCap(record: Record, policy: Policy, basis: Basis)
    requires BelowCap(record, policy)
    ensures EqualGaps(record, policy, basis)
  {
    hide Affinity, Shift;
    var other := policy.(basis := basis);
    assert Overlaps(record, policy) == Overlaps(record, other);
    forall i | 0 <= i < |record.candidates| && record.candidates[i].healthy
      ensures AffinityAt(record, policy, i) - AffinityAt(record, other, i) == Shift(record, other) - Shift(record, policy)
    {
      AffinityShifts(record, policy, i);
      AffinityShifts(record, other, i);
    }
  }

  // No three healthy candidates.
  ghost predicate AtMostTwo(record: Record) {
    forall i, j, k :: Healthy(record, i) && Healthy(record, j) && Healthy(record, k) ==> i == j || j == k || k == i
  }

  // For two replicas the marginal and the relative basis choose alike, whatever the cap.
  lemma {:induction false} TwoReplicasAgree(record: Record, policy: Policy, u: nat, v: nat)
    requires Numbers(record.candidates) && policy.tieBreak == Overlap && policy.basis == Marginal && AtMostTwo(record)
    requires exists i :: 0 <= i < |record.candidates| && record.candidates[i].healthy
    requires IsWinner(record, policy, u) && IsWinner(record, policy.(basis := Relative), v)
    ensures u == v
  {
    hide IsWinner;
    GapsOfTwo(record, policy);
    EqualGapsAgree(record, policy, Relative, u, v);
  }

  lemma {:induction false} GapsOfTwo(record: Record, policy: Policy)
    requires policy.basis == Marginal && AtMostTwo(record)
    ensures EqualGaps(record, policy, Relative)
  {
    hide EqualGap;
    forall i, j | Healthy(record, i) && Healthy(record, j)
      ensures EqualGap(record, policy, Relative, i, j)
    {
      GapOfPair(record, policy, i, j);
    }
  }

  lemma {:induction false} GapOfPair(record: Record, policy: Policy, i: nat, j: nat)
    requires policy.basis == Marginal && AtMostTwo(record) && Healthy(record, i) && Healthy(record, j)
    ensures EqualGap(record, policy, Relative, i, j)
  {
    hide Floor, Lead;
    var cs, overlaps := record.candidates, Overlaps(record, policy);
    assert overlaps == Overlaps(record, policy.(basis := Relative));
    if i != j { ExtremesOfTwo(record, overlaps, i, j); }
  }

  // With two healthy candidates one is the floor and the other the lead.
  lemma {:induction false} ExtremesOfTwo(record: Record, overlaps: map<nat, nat>, i: nat, j: nat)
    requires Covers(overlaps, record.candidates) && AtMostTwo(record) && Healthy(record, i) && Healthy(record, j) && i != j
    ensures var a, b := overlaps[record.candidates[i].upstream], overlaps[record.candidates[j].upstream];
            && Floor(record.candidates, overlaps) == Some(Min(a, b))
            && Lead(record.candidates, overlaps) == Some(Max(a, b))
  {
    hide Floor, Lead;
    var cs := record.candidates;
    var floor, lead := Floor(cs, overlaps), Lead(cs, overlaps);
    var low :| 0 <= low < |cs| && cs[low].healthy && overlaps[cs[low].upstream] == floor.value;
    var high :| 0 <= high < |cs| && cs[high].healthy && overlaps[cs[high].upstream] == lead.value;
    assert Healthy(record, low) && Healthy(record, high);
  }

  lemma {:induction false} WinnersHealthy(rule: Rule, s: seq<Scored>, i: nat)
    requires rule.count > 0 && i < |s| && Wins(rule, s, i)
    requires exists j :: 0 <= j < |s| && s[j].healthy
    ensures s[i].healthy
  {}

  lemma {:induction false} SameWinner(rule: Rule, s: seq<Scored>, t: seq<Scored>, i: nat, j: nat)
    requires rule.count == |s| == |t| && i < |s| && j < |s| && rule.tieBreak == Overlap
    requires Numbered(s, |s|) && Numbered(t, |s|) && Wins(rule, s, i) && Wins(rule, t, j)
    requires forall k :: 0 <= k < |s| ==> s[k].upstream == t[k].upstream
    requires rule.Compare(s[i], s[j]) == rule.Compare(t[i], t[j])
    ensures i == j
  {
    hide Rule.Compare;
    if i != j {
      assert s[j] in s && t[i] in t;
      assert s[i].upstream != s[j].upstream;
      assert rule.Before(s[i], s[j]) && rule.Before(t[j], t[i]);
      Antisymmetric(rule, t[i], t[j]);
      assert false;
    }
  }

  lemma {:induction false} ListFlags(record: Record, policy: Policy)
    ensures forall i :: 0 <= i < |record.candidates| ==>
              && ScoredList(record, policy)[i].healthy == record.candidates[i].healthy
              && ScoredList(record, policy)[i].upstream == record.candidates[i].upstream
  {}

  // ----- Records against their own ages

  predicate HorizonValid(c: Candidate) { c.horizonMs.None? || c.horizonMs.value >= 0 }

  // What the recorded overlap ought to be.
  function Expected(record: Record, c: Candidate): Result<nat> {
    if !record.enforce then RawOverlap(false, c)
    else if !HorizonValid(c) then Err
    else Credited(true, c, if c.horizonMs.None? then None else Some(c.horizonMs.value))
  }

  function RecordedMap(cs: seq<Candidate>, k: nat): map<nat, nat>
    requires k <= |cs|
  {
    if k == 0 then map[] else RecordedMap(cs, k - 1)[cs[k - 1].upstream := cs[k - 1].overlapBlocks]
  }

  lemma {:induction false} RecordedCovers(cs: seq<Candidate>, k: nat)
    requires k <= |cs|
    ensures forall i :: 0 <= i < k ==> cs[i].upstream in RecordedMap(cs, k)
  {
    if k > 0 { RecordedCovers(cs, k - 1); }
  }

  ghost function Recorded(cs: seq<Candidate>): (m: map<nat, nat>)
    ensures Covers(m, cs)
  {
    RecordedCovers(cs, |cs|);
    RecordedMap(cs, |cs|)
  }

  // A record that agrees with its ages: every overlap is the credited one and,
  // unless a lane hid some peers, every affinity follows from the overlaps.
  ghost predicate Consistent(record: Record) {
    && record.cap.Some? && record.cap.value >= 0
    && record.basis.Some?
    && (forall i :: 0 <= i < |record.candidates| ==>
          Expected(record, record.candidates[i]) == Ok(record.candidates[i].overlapBlocks))
    && (record.basis.value == Absolute || !record.laneRestricted ==>
          forall i :: 0 <= i < |record.candidates| ==> AffinityAgrees(record, record.candidates[i]))
  }

  ghost predicate AffinityAgrees(record: Record, c: Candidate)
    requires record.cap.Some? && record.cap.value >= 0 && record.basis.Some?
  {
    var overlaps := Recorded(record.candidates);
    c.upstream in overlaps &&
    c.affinityBlocks == Affinity(record.basis.value, overlaps[c.upstream], record.candidates, overlaps, record.cap.value)
  }

  method RecordMismatch(record: Record) returns (flagged: bool)
    ensures flagged <==> record.observed && !Consistent(record)
  {
    if !record.observed { return false; }
    if record.cap.None? || record.cap.value < 0 { return true; }
    if record.basis.None? { return true; }
    var cs, expected := record.candidates, map[];
    for k := 0 to |cs|
      invariant expected == RecordedMap(cs, k)
      invariant forall i :: 0 <= i < k ==> Expected(record, cs[i]) == Ok(cs[i].overlapBlocks)
    {
      var c := cs[k];
      var value;
      if record.enforce {
        if c.horizonMs.Some? && c.horizonMs.value < 0 { return true; }
        value := CreditedOverlap(true, c, if c.horizonMs.None? then None else Some(c.horizonMs.value));
      } else {
        value := RawOverlap(false, c);
      }
      if value.Err? || c.overlapBlocks != value.value { return true; }
      expected := expected[c.upstream := value.value];
    }
    if record.basis.value != Absolute && record.laneRestricted { return false; }
    assert expected == Recorded(cs);
    for k := 0 to |cs|
      invariant forall i :: 0 <= i < k ==> AffinityAgrees(record, cs[i])
    {
      var c := cs[k];
      if c.affinityBlocks != Affinity(record.basis.value, expected[c.upstream], cs, expected, record.cap.value) {
        assert !AffinityAgrees(record, c);
        return true;
      }
    }
    return false;
  }

  // ----- Records the router writes in enforce mode

  // One candidate written from its walk over the served blocks.
  predicate WrittenFrom(c: Candidate, loc: Locality) {
    && c.overlapBlocks == loc.freshBlocks
    && c.staleBlocks == Some(loc.StaleBlocks())
    && c.ages == Some(loc.ages)
    && c.horizonMs == (if loc.horizonMs.None? then None else Some(loc.horizonMs.value))
  }

  // An enforce-mode record of the router: overlaps, stale counts and ages from
  // each candidate's walk, affinities from the overlaps.
  ghost predicate Written(record: Record, served: seq<seq<Option<nat>>>, horizons: seq<Option<nat>>) {
    && record.observed && record.enforce
    && record.cap.Some? && record.cap.value >= 0 && record.basis.Some?
    && |record.candidates| == |served| == |horizons|
    && (forall i :: 0 <= i < |served| ==> WrittenFrom(record.candidates[i], WalkOf(served[i], horizons[i])))
    && (forall i :: 0 <= i < |served| ==> AffinityAgrees(record, record.candidates[i]))
  }

  // The walk's fresh count can be read from its runs: always without a horizon,
  // and with one when the ages are readable.
  predicate ReadsBack(served: seq<Option<nat>>, horizon: Option<nat>) {
    horizon.None? || Readable(FoundPrefix(served), horizon.value)
  }

  lemma {:induction false} WrittenRoundTrip(c: Candidate, served: seq<Option<nat>>, horizon: Option<nat>)
    requires WrittenFrom(c, WalkOf(served, horizon))
    ensures RawOverlap(true, c) == Ok(WalkOf(served, horizon).raw)
    ensures Credited(true, c, WalkOf(served, horizon).horizonMs) == Ok(WalkOf(served, horizon).freshBlocks)
        <==> ReadsBack(served, horizon)
  {
    hide Readable;
    if horizon.Some? {
      LeadingWithinBounds(FoundPrefix(served), horizon.value);
      ReplayReadsWalk(served, horizon.value);
    }
  }

  // A written record is flagged exactly when some walk's ages are not readable.
  lemma {:induction false} WrittenRecordsAgree(record: Record, served: seq<seq<Option<nat>>>, horizons: seq<Option<nat>>)
    requires Written(record, served, horizons)
    ensures Consistent(record) <==> forall i :: 0 <= i < |served| ==> ReadsBack(served[i], horizons[i])
  {
    hide ReadsBack;
    forall i | 0 <= i < |served|
      ensures Expected(record, record.candidates[i]) == Ok(record.candidates[i].overlapBlocks)
          <==> ReadsBack(served[i], horizons[i])
    {
      WrittenRoundTrip(record.candidates[i], served[i], horizons[i]);
    }
  }

  // Up to 64 runs of equal ages nothing is dropped, and a walk reads back exactly
  // when its cut is clean.
  lemma {:induction false} ShortWalksReadBack(served: seq<Option<nat>>, horizon: nat)
    requires RunCount(InMillis(FoundPrefix(served))) <= MAX_AGE_RUNS
    ensures ReadsBack(served, Some(horizon)) <==> CleanCut(FoundPrefix(served), horizon)
  {
    FewRunsKept(InMillis(FoundPrefix(served)));
  }
}
