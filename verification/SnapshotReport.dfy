/**
 The retention report end to end (bench/snapshot_roi.py, analyze): from journal
 lines through pairing and linking to the token decomposition and the tier sizes.
 */
module SnapshotReport {
  import opened Common
  import opened Requests
  import Pairing
  import LinkTurns
  import CacheCredit
  import Decomposition
  import LiveSet

  // Avoidable tokens with replicas apart and shared, one entry per horizon.
  datatype Gains = Gains(local: seq<real>, shared: seq<real>)

  datatype Report = Report(
    turns: seq<Turn>,
    chainStarts: seq<int>,
    gains: Gains,
    parts: Decomposition.Parts,
    all: seq<LiveSet.Tier>,
    useful: seq<LiveSet.Tier>)

  ghost function LinksOf(turns: seq<Turn>): (links: seq<Option<Link>>)
    ensures |links| == |turns| && forall i :: 0 <= i < |links| ==> links[i] == turns[i].link
  {
    seq(|turns|, i requires 0 <= i < |turns| => turns[i].link)
  }

  // Cached counts are clamped, links are the full scan's, and a tail is consumed
  // when its first continuation starts, never before it finished.
  ghost predicate WellLinked(turns: seq<Turn>) {
    && (forall i :: 0 <= i < |turns| ==> turns[i].info.Clamped() && LinkTurns.IsBestLink(Decomposition.Infos(turns), i, turns[i].link))
    && (forall i :: 0 <= i < |turns| ==>
          LinkTurns.FirstContinuation(Decomposition.Infos(turns), LinksOf(turns), i, turns[i].consumed))
    && (forall i :: 0 <= i < |turns| && turns[i].consumed.Some? ==> turns[i].info.finish <= turns[i].consumed.value)
  }

  // The turns are the journal's paired requests, in order.
  ghost predicate FromJournal(lines: seq<Pairing.Line>, filter: Pairing.Filter, turns: seq<Turn>) {
    exists paired: seq<Pairing.Paired> :: IsSource(lines, filter, turns, paired)
  }

  ghost predicate IsSource(lines: seq<Pairing.Line>, filter: Pairing.Filter, turns: seq<Turn>, paired: seq<Pairing.Paired>) {
    && Pairing.IsPaired(lines, |lines|, filter, paired) && Pairing.Ordered(paired)
    && |turns| == |paired| && forall i :: 0 <= i < |turns| ==> turns[i].info == paired[i].info
  }

  lemma {:induction false} WellLinkedIsLinked(turns: seq<Turn>)
    requires WellLinked(turns)
    ensures Decomposition.Linked(turns)
  {
    forall i | 0 <= i < |turns|
      ensures CacheCredit.LinkInRange(Decomposition.Infos(turns), turns[i])
    {
      if turns[i].link.Some? {
        var k :| LinkTurns.BestVia(Decomposition.Infos(turns), i, k, turns[i].link.value);
      }
    }
  }

  method Wrap(infos: seq<Info>) returns (requests: seq<LinkTurns.Request>)
    ensures |requests| == |infos| && LinkTurns.Distinct(requests)
    ensures forall i :: 0 <= i < |infos| ==> fresh(requests[i]) && requests[i].info == infos[i]
                                             && requests[i].link == None && requests[i].consumed == None && requests[i].chainStart == 0
  {
    requests := [];
    for i := 0 to |infos|
      invariant |requests| == i && LinkTurns.Distinct(requests)
      invariant forall k :: 0 <= k < i ==> fresh(requests[k]) && requests[k].info == infos[k]
                                           && requests[k].link == None && requests[k].consumed == None && requests[k].chainStart == 0
    {
      var request := new LinkTurns.Request(infos[i]);
      requests := requests + [request];
    }
  }

  method Views(requests: seq<LinkTurns.Request>) returns (turns: seq<Turn>)
    ensures |turns| == |requests| && forall i :: 0 <= i < |turns| ==> turns[i] == requests[i].View()
  {
    turns := [];
    for i := 0 to |requests|
      invariant |turns| == i && forall k :: 0 <= k < i ==> turns[k] == requests[k].View()
    {
      turns := turns + [requests[i].View()];
    }
  }

  method Fields(paired: seq<Pairing.Paired>) returns (infos: seq<Info>)
    ensures |infos| == |paired| && forall i :: 0 <= i < |infos| ==> infos[i] == paired[i].info
  {
    infos := [];
    for i := 0 to |paired|
      invariant |infos| == i && forall k :: 0 <= k < i ==> infos[k] == paired[k].info
    {
      infos := infos + [paired[i].info];
    }
  }

  lemma {:induction false} PairedAreClamped(lines: seq<Pairing.Line>, filter: Pairing.Filter, paired: seq<Pairing.Paired>)
    requires Pairing.IsPaired(lines, |lines|, filter, paired)
    ensures forall i :: 0 <= i < |paired| ==> paired[i].info.Clamped()
  {
    forall i | 0 <= i < |paired|
      ensures paired[i].info.Clamped()
    {
      assert paired[i] in paired && Pairing.Fits(lines, |lines|, filter, paired[i]);
    }
  }

  method ChainStarts(requests: seq<LinkTurns.Request>) returns (starts: seq<int>)
    ensures |starts| == |requests| && forall i :: 0 <= i < |starts| ==> starts[i] == requests[i].chainStart
  {
    starts := [];
    for i := 0 to |requests|
      invariant |starts| == i && forall k :: 0 <= k < i ==> starts[k] == requests[k].chainStart
    {
      starts := starts + [requests[i].chainStart];
    }
  }

  // The links of well-linked turns point back, within one container.
  lemma {:induction false} WellLinkedPointsBack(turns: seq<Turn>)
    requires WellLinked(turns)
    ensures LinkTurns.Backward(Decomposition.Infos(turns), LinksOf(turns))
    ensures LinkTurns.SameContainer(Decomposition.Infos(turns), LinksOf(turns))
  {
    hide LinkTurns.IsBestLink;
    LinkTurns.BestLinksAreBackward(Decomposition.Infos(turns), LinksOf(turns));
    LinkTurns.BestLinksShareContainer(Decomposition.Infos(turns), LinksOf(turns));
  }

  // Paired requests stand in order of finish within their container.
  lemma {:induction false} JournalByFinish(lines: seq<Pairing.Line>, filter: Pairing.Filter, turns: seq<Turn>)
    requires FromJournal(lines, filter, turns)
    ensures LinkTurns.ByFinish(Decomposition.Infos(turns))
  {
    var paired :| IsSource(lines, filter, turns, paired);
    forall i, j | 0 <= i < j < |turns| && turns[i].info.container == turns[j].info.container
      ensures turns[i].info.finish <= turns[j].info.finish
    {
      assert Pairing.Before(paired[i], paired[j]);
    }
  }

  // In a journal whose turns do not finish before they start: a turn on whose walk no
  // link joins two instants of the same millisecond has its conversation's start,
  // unless the conversation starts at time zero.
  lemma {:induction false} JournalChainStarts(lines: seq<Pairing.Line>, filter: Pairing.Filter, turns: seq<Turn>, path: seq<nat>, i: nat)
    requires FromJournal(lines, filter, turns) && WellLinked(turns) && i < |turns|
    requires LinkTurns.Proper(Decomposition.Infos(turns)) && LinkTurns.ToRoot(LinksOf(turns), path, i)
    requires forall p :: 0 <= p < |path| - 1 ==> !LinkTurns.SameInstant(Decomposition.Infos(turns), path[p + 1], path[p])
    ensures LinkTurns.Backward(Decomposition.Infos(turns), LinksOf(turns))
    ensures var root := turns[path[|path| - 1]].info.start;
            LinkTurns.ChainStart(Decomposition.Infos(turns), LinksOf(turns), i) == root <==>
              root != 0 || |path| == 1 || turns[path[1]].info.start == 0
  {
    hide FromJournal, WellLinked, LinkTurns.ChainStart;
    WellLinkedPointsBack(turns);
    JournalByFinish(lines, filter, turns);
    LinkTurns.ChainStartOfWalk(Decomposition.Infos(turns), LinksOf(turns), path, i);
  }

  // Pair, wrap and link.
  method LinkJournal(lines: seq<Pairing.Line>, filter: Pairing.Filter)
    returns (turns: seq<Turn>, starts: seq<int>, firstSeen: map<string, int>)
    ensures FromJournal(lines, filter, turns)
    ensures WellLinked(turns)
    ensures LinkTurns.Backward(Decomposition.Infos(turns), LinksOf(turns)) && |starts| == |turns|
    ensures forall i :: 0 <= i < |starts| ==> starts[i] == LinkTurns.ChainStart(Decomposition.Infos(turns), LinksOf(turns), i)
    ensures Pairing.IsFirstSeen(lines, |lines|, firstSeen)
  {
    hide Pairing.IsPaired, Pairing.Ordered, Pairing.IsFirstSeen, LinkTurns.IsBestLink, LinkTurns.FirstContinuation,
      LinkTurns.Backward, LinkTurns.ChainStart;
    var paired;
    paired, firstSeen := Pairing.PairRequests(lines, filter);
    PairedAreClamped(lines, filter, paired);
    var infos := Fields(paired);
    var requests := Wrap(infos);
    LinkTurns.LinkAll(requests);
    turns := Views(requests);
    starts := ChainStarts(requests);
    assert Decomposition.Infos(turns) == LinkTurns.InfosOf(requests);
    assert LinksOf(turns) == LinkTurns.LinksOf(requests);
    assert IsSource(lines, filter, turns, paired);
  }

  // ----- Avoidable tokens per horizon

  function TotalAvoidable(turns: seq<Turn>, k: nat, h: Horizon, anyReplica: bool, policy: Decomposition.Policy): real
    requires Decomposition.Linked(turns) && k <= |turns|
  {
    if k == 0 then 0.0
    else
      TotalAvoidable(turns, k - 1, h, anyReplica, policy) +
      CacheCredit.Avoidable(Decomposition.Infos(turns), turns[k - 1], h, anyReplica, policy.minTokens, policy.minFraction)
  }

  method SumAvoidable(turns: seq<Turn>, infos: seq<Info>, h: Horizon, anyReplica: bool, policy: Decomposition.Policy)
    returns (total: real)
    requires Decomposition.Linked(turns) && infos == Decomposition.Infos(turns)
    ensures total == TotalAvoidable(turns, |turns|, h, anyReplica, policy)
  {
    total := 0.0;
    for k := 0 to |turns|
      invariant total == TotalAvoidable(turns, k, h, anyReplica, policy)
    {
      var gain := CacheCredit.AvoidableTokens(infos, turns[k], h, anyReplica, policy.minTokens, policy.minFraction);
      total := total + gain;
    }
  }

  // Totals grow with the horizon and with the scope and never exceed what was uncached.
  lemma {:induction false} TotalsGrow(turns: seq<Turn>, k: nat, h: Horizon, h': Horizon, any: bool, any': bool, policy: Decomposition.Policy)
    requires Decomposition.Linked(turns) && k <= |turns| && Within(h, h') && (any ==> any')
    ensures 0.0 <= TotalAvoidable(turns, k, h, any, policy) <= TotalAvoidable(turns, k, h', any', policy)
                <= Decomposition.Prompt(turns, k) - Decomposition.Cached(turns, k)
  {
    if k > 0 {
      TotalsGrow(turns, k - 1, h, h', any, any', policy);
      var infos := Decomposition.Infos(turns);
      CacheCredit.AvoidableMonotone(infos, turns[k - 1], h, h', any, policy.minTokens, policy.minFraction);
      CacheCredit.AvoidableMonotone(infos, turns[k - 1], h', h', any', policy.minTokens, policy.minFraction);
      CacheCredit.AvoidableByScope(infos, turns[k - 1], h', policy.minTokens, policy.minFraction);
    }
  }

  // What the decomposition calls recoverable is the shared tier's total without a horizon.
  lemma {:induction false} RecoverableIsReference(turns: seq<Turn>, k: nat, firstSeen: map<string, int>, policy: Decomposition.Policy)
    requires Decomposition.Linked(turns) && k <= |turns|
    ensures Decomposition.Total(turns, k, firstSeen, policy).recoverable == TotalAvoidable(turns, k, None, true, policy)
  {
    if k > 0 { RecoverableIsReference(turns, k - 1, firstSeen, policy); }
  }

  ghost predicate GainsFit(turns: seq<Turn>, horizons: seq<Horizon>, policy: Decomposition.Policy, local: seq<real>, shared: seq<real>)
    requires Decomposition.Linked(turns)
  {
    && |local| == |shared| == |horizons|
    && forall i :: 0 <= i < |horizons| ==>
         && local[i] == TotalAvoidable(turns, |turns|, horizons[i], false, policy)
         && shared[i] == TotalAvoidable(turns, |turns|, horizons[i], true, policy)
  }

  method MeasureGains(turns: seq<Turn>, horizons: seq<Horizon>, policy: Decomposition.Policy) returns (gains: Gains)
    requires Decomposition.Linked(turns)
    ensures GainsFit(turns, horizons, policy, gains.local, gains.shared)
  {
    hide TotalAvoidable;
    var infos := Decomposition.Infos(turns);
    var local: seq<real>, shared: seq<real> := [], [];
    for i := 0 to |horizons|
      invariant |local| == |shared| == i && GainsFit(turns, horizons[..i], policy, local, shared)
    {
      var apart := SumAvoidable(turns, infos, horizons[i], false, policy);
      var together := SumAvoidable(turns, infos, horizons[i], true, policy);
      local, shared := local + [apart], shared + [together];
    }
    assert horizons[..|horizons|] == horizons;
    gains := Gains(local, shared);
  }

  // ----- Tier sizes per horizon

  // The tier has the true peaks and the true means over the window.
  ghost predicate TierFits(turns: seq<Turn>, h: Horizon, useful: bool, stateBytes: Amount, kvBytesPerToken: Amount, tier: LiveSet.Tier) {
    var tails := LiveSet.Tails(turns, h, useful);
    && LiveSet.IsPeak(tails, 1.0, 0.0, tier.peakSnapshots as real)
    && LiveSet.IsPeak(tails, stateBytes, kvBytesPerToken, tier.peakBytes)
    && MeansFit(turns, tails, stateBytes, kvBytesPerToken, tier)
  }

  ghost predicate MeansFit(turns: seq<Turn>, tails: seq<LiveSet.Tail>, stateBytes: Amount, kvBytesPerToken: Amount, tier: LiveSet.Tier) {
    && (tails == [] ==> tier.meanSnapshots == tier.meanBytes == 0.0)
    && (tails != [] ==>
          turns != [] &&
          var last := LiveSet.LastFinish(turns);
          var duration := Max(1, last - LiveSet.FirstFinish(tails)) as real;
          && tier.meanSnapshots == LiveSet.Area(tails, last, 1.0, 0.0) / duration
          && tier.meanBytes == LiveSet.Area(tails, last, stateBytes, kvBytesPerToken) / duration)
  }

  method MeasureTiers(turns: seq<Turn>, horizons: seq<Horizon>, stateBytes: Amount, kvBytesPerToken: Amount, useful: bool)
    returns (tiers: seq<LiveSet.Tier>)
    ensures |tiers| == |horizons|
    ensures forall i :: 0 <= i < |tiers| ==> TierFits(turns, horizons[i], useful, stateBytes, kvBytesPerToken, tiers[i])
  {
    hide LiveSet.IsPeak, LiveSet.Tails, LiveSet.Area;
    tiers := [];
    for i := 0 to |horizons|
      invariant |tiers| == i
      invariant forall k :: 0 <= k < i ==> TierFits(turns, horizons[k], useful, stateBytes, kvBytesPerToken, tiers[k])
    {
      var tier := LiveSet.MeasureTier(turns, horizons[i], stateBytes, kvBytesPerToken, useful);
      tiers := tiers + [tier];
    }
  }

  predicate NoLarger(a: LiveSet.Tier, b: LiveSet.Tier) {
    a.peakSnapshots <= b.peakSnapshots && a.peakBytes <= b.peakBytes
  }

  lemma {:induction false} TiersOrdered(turns: seq<Turn>, h: Horizon, u: bool, h': Horizon, u': bool,
                                        stateBytes: Amount, kvBytesPerToken: Amount, a: LiveSet.Tier, b: LiveSet.Tier)
    requires LiveSet.TierWithin(h, u, h', u')
    requires TierFits(turns, h, u, stateBytes, kvBytesPerToken, a) && TierFits(turns, h', u', stateBytes, kvBytesPerToken, b)
    ensures NoLarger(a, b)
  {
    LiveSet.PeaksGrow(turns, h, u, h', u', 1.0, 0.0, a.peakSnapshots as real, b.peakSnapshots as real);
    LiveSet.PeaksGrow(turns, h, u, h', u', stateBytes, kvBytesPerToken, a.peakBytes, b.peakBytes);
  }

  // ----- analyze

  // The report's figures against each other: uncached tokens are fully attributed,
  // a longer horizon never recovers less nor needs less room, sharing never
  // recovers less, nothing recovers more than the recoverable part, and the tails
  // that would be read never need more room than the whole tier.
  ghost predicate Coherent(report: Report, horizons: seq<Horizon>) {
    && |report.gains.local| == |report.gains.shared| == |report.all| == |report.useful| == |horizons|
    && report.parts.NonNegative()
    && report.parts.Sum()
       == Decomposition.Prompt(report.turns, |report.turns|) - Decomposition.Cached(report.turns, |report.turns|)
    && (forall i :: 0 <= i < |horizons| ==>
          && 0.0 <= report.gains.local[i] <= report.gains.shared[i] <= report.parts.recoverable
          && NoLarger(report.useful[i], report.all[i]))
    && (forall i, j :: 0 <= i < |horizons| && 0 <= j < |horizons| && Within(horizons[i], horizons[j]) ==>
          && report.gains.local[i] <= report.gains.local[j]
          && report.gains.shared[i] <= report.gains.shared[j]
          && NoLarger(report.all[i], report.all[j])
          && NoLarger(report.useful[i], report.useful[j]))
  }

  // The report of a journal. It is coherent for every journal and every horizon list.
  method Analyze(lines: seq<Pairing.Line>, filter: Pairing.Filter, policy: Decomposition.Policy,
                 horizons: seq<Horizon>, stateBytes: Amount, kvBytesPerToken: Amount)
    returns (report: Report)
    ensures FromJournal(lines, filter, report.turns) && WellLinked(report.turns)
    ensures LinkTurns.Backward(Decomposition.Infos(report.turns), LinksOf(report.turns)) && |report.chainStarts| == |report.turns|
    ensures forall i :: 0 <= i < |report.turns| ==>
              report.chainStarts[i] == LinkTurns.ChainStart(Decomposition.Infos(report.turns), LinksOf(report.turns), i)
    ensures Decomposition.Linked(report.turns) && GainsFit(report.turns, horizons, policy, report.gains.local, report.gains.shared)
    ensures exists firstSeen :: Pairing.IsFirstSeen(lines, |lines|, firstSeen)
              && report.parts == Decomposition.Total(report.turns, |report.turns|, firstSeen, policy)
    ensures Coherent(report, horizons)
    ensures forall i :: 0 <= i < |horizons| ==>
              && TierFits(report.turns, horizons[i], false, stateBytes, kvBytesPerToken, report.all[i])
              && TierFits(report.turns, horizons[i], true, stateBytes, kvBytesPerToken, report.useful[i])
  {
    hide WellLinked, FromJournal, Decomposition.Linked, Decomposition.Total, GainsFit, TierFits, Coherent, Pairing.IsFirstSeen;
    var turns, starts, firstSeen := LinkJournal(lines, filter);
    WellLinkedIsLinked(turns);
    var gains := MeasureGains(turns, horizons, policy);
    var parts := Decomposition.Decompose(turns, firstSeen, policy);
    var all := MeasureTiers(turns, horizons, stateBytes, kvBytesPerToken, false);
    var useful := MeasureTiers(turns, horizons, stateBytes, kvBytesPerToken, true);
    report := Report(turns, starts, gains, parts, all, useful);
    ReportIsCoherent(report, horizons, firstSeen, policy, stateBytes, kvBytesPerToken);
  }

  lemma {:induction false} ReportIsCoherent(report: Report, horizons: seq<Horizon>, firstSeen: map<string, int>,
                                            policy: Decomposition.Policy, stateBytes: Amount, kvBytesPerToken: Amount)
    requires Decomposition.Linked(report.turns)
    requires GainsFit(report.turns, horizons, policy, report.gains.local, report.gains.shared)
    requires report.parts == Decomposition.Total(report.turns, |report.turns|, firstSeen, policy)
    requires |report.all| == |report.useful| == |horizons|
    requires forall i :: 0 <= i < |horizons| ==>
               && TierFits(report.turns, horizons[i], false, stateBytes, kvBytesPerToken, report.all[i])
               && TierFits(report.turns, horizons[i], true, stateBytes, kvBytesPerToken, report.useful[i])
    ensures Coherent(report, horizons)
  {
    hide TierFits, TotalAvoidable, Decomposition.Total, NoLarger;
    var turns := report.turns;
    Decomposition.Conserves(turns, |turns|, firstSeen, policy);
    RecoverableIsReference(turns, |turns|, firstSeen, policy);
    forall i | 0 <= i < |horizons|
      ensures 0.0 <= report.gains.local[i] <= report.gains.shared[i] <= report.parts.recoverable
      ensures NoLarger(report.useful[i], report.all[i])
    {
      TotalsGrow(turns, |turns|, horizons[i], horizons[i], false, true, policy);
      TotalsGrow(turns, |turns|, horizons[i], None, true, true, policy);
      TiersOrdered(turns, horizons[i], true, horizons[i], false, stateBytes, kvBytesPerToken, report.useful[i], report.all[i]);
    }
    forall i, j | 0 <= i < |horizons| && 0 <= j < |horizons| && Within(horizons[i], horizons[j])
      ensures report.gains.local[i] <= report.gains.local[j] && report.gains.shared[i] <= report.gains.shared[j]
      ensures NoLarger(report.all[i], report.all[j]) && NoLarger(report.useful[i], report.useful[j])
    {
      TotalsGrow(turns, |turns|, horizons[i], horizons[j], false, false, policy);
      TotalsGrow(turns, |turns|, horizons[i], horizons[j], true, true, policy);
      TiersOrdered(turns, horizons[i], false, horizons[j], false, stateBytes, kvBytesPerToken, report.all[i], report.all[j]);
      TiersOrdered(turns, horizons[i], true, horizons[j], true, stateBytes, kvBytesPerToken, report.useful[i], report.useful[j]);
    }
  }
}
