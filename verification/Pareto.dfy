/**
 Range dominance and the Pareto frontier (bench/slo_pareto_report.py): goodput per
 repetition and service-level objective, ranges over repetitions, and which
 configurations no peer beats.
 */
module Pareto {
  import opened Common

  datatype Request = Request(correct: bool, ttft: real, tpot: real)

  datatype Slo = Slo(ttft: real, tpot: real)

  // One measured repetition.
  datatype Cell = Cell(requests: seq<Request>, gpuHours: real) {
    predicate Valid() { gpuHours > 0.0 }
    predicate Eligible() { forall i :: 0 <= i < |requests| ==> requests[i].correct }
  }

  // ----- Goodput

  predicate Qualifies(r: Request, slo: Slo) { r.correct && r.ttft <= slo.ttft && r.tpot <= slo.tpot }

  function Qualified(requests: seq<Request>, slo: Slo): nat {
    if requests == [] then 0
    else Qualified(requests[..|requests| - 1], slo) + (if Qualifies(requests[|requests| - 1], slo) then 1 else 0)
  }

  // Qualified requests per GPU hour; a repetition with a wrong answer counts as zero.
  function Goodput(cell: Cell, slo: Slo): real
    requires cell.Valid()
  {
    if cell.Eligible() then Qualified(cell.requests, slo) as real / cell.gpuHours else 0.0
  }

  method MeasureGoodput(cell: Cell, slo: Slo) returns (goodput: real)
    requires cell.Valid()
    ensures goodput == Goodput(cell, slo)
  {
    var qualified, eligible := 0, true;
    for i := 0 to |cell.requests|
      invariant qualified == Qualified(cell.requests[..i], slo)
      invariant eligible <==> forall k :: 0 <= k < i ==> cell.requests[k].correct
    {
      assert cell.requests[..i + 1][..i] == cell.requests[..i];
      var r := cell.requests[i];
      eligible := eligible && r.correct;
      if r.correct && r.ttft <= slo.ttft && r.tpot <= slo.tpot { qualified := qualified + 1; }
    }
    assert cell.requests[..|cell.requests|] == cell.requests;
    goodput := if eligible then qualified as real / cell.gpuHours else 0.0;
  }

  // A looser objective never lowers the goodput.
  lemma {:induction false} LooserQualifiesMore(requests: seq<Request>, a: Slo, b: Slo)
    requires a.ttft <= b.ttft && a.tpot <= b.tpot
    ensures Qualified(requests, a) <= Qualified(requests, b) <= |requests|
  {
    if requests != [] { LooserQualifiesMore(requests[..|requests| - 1], a, b); }
  }

  lemma {:induction false} LooserGoodput(cell: Cell, a: Slo, b: Slo)
    requires cell.Valid() && a.ttft <= b.ttft && a.tpot <= b.tpot
    ensures 0.0 <= Goodput(cell, a) <= Goodput(cell, b)
  {
    LooserQualifiesMore(cell.requests, a, b);
    DivMonotone(Qualified(cell.requests, a) as real, Qualified(cell.requests, b) as real, cell.gpuHours);
  }

  // ----- Ranges over repetitions

  datatype Range = Range(low: real, high: real) {
    predicate Contains(v: real) { low <= v <= high }
  }

  // The exact range of a non-empty list of values.
  ghost predicate IsRange(values: seq<real>, r: Range) {
    && (forall i :: 0 <= i < |values| ==> r.low <= values[i] <= r.high)
    && (exists i :: 0 <= i < |values| && values[i] == r.low)
    && (exists i :: 0 <= i < |values| && values[i] == r.high)
  }

  method RangeOf(values: seq<real>) returns (r: Range)
    requires values != []
    ensures IsRange(values, r)
  {
    r := Range(values[0], values[0]);
    for i := 1 to |values|
      invariant IsRange(values[..i], r)
    {
      ghost var before := r;
      assert values[..i + 1] == values[..i] + [values[i]];
      r := Range(MinReal(r.low, values[i]), MaxReal(r.high, values[i]));
      ghost var low :| 0 <= low < i && values[..i][low] == before.low;
      ghost var high :| 0 <= high < i && values[..i][high] == before.high;
      assert values[..i + 1][if before.low <= values[i] then low else i] == r.low;
      assert values[..i + 1][if before.high >= values[i] then high else i] == r.high;
    }
    assert values[..|values|] == values;
  }

  // A configuration's objective ranges, one per objective.
  type Ranges = seq<Range>

  predicate Proper(r: Ranges) { forall i :: 0 <= i < |r| ==> r[i].low <= r[i].high }

  // ----- Dominance

  predicate DominatesSpec(left: Ranges, right: Ranges)
    requires |left| == |right|
  {
    && (forall i :: 0 <= i < |left| ==> left[i].low >= right[i].high)
    && (exists i :: 0 <= i < |left| && left[i].low > right[i].high)
  }

  method Dominates(left: Ranges, right: Ranges) returns (result: bool)
    requires |left| == |right|
    ensures result == DominatesSpec(left, right)
  {
    var noWorse, better := true, false;
    for i := 0 to |left|
      invariant noWorse <==> forall k :: 0 <= k < i ==> left[k].low >= right[k].high
      invariant better <==> exists k :: 0 <= k < i && left[k].low > right[k].high
    {
      noWorse := noWorse && left[i].low >= right[i].high;
      better := better || left[i].low > right[i].high;
    }
    result := noWorse && better;
  }

  lemma {:induction false} DominanceIsStrict(r: Ranges)
    requires Proper(r)
    ensures !DominatesSpec(r, r)
  {}

  lemma {:induction false} DominanceIsTransitive(a: Ranges, b: Ranges, c: Ranges)
    requires |a| == |b| == |c| && Proper(b) && DominatesSpec(a, b) && DominatesSpec(b, c)
    ensures DominatesSpec(a, c)
  {
    var i :| 0 <= i < |a| && a[i].low > b[i].high;
    assert a[i].low > c[i].high;
  }

  // Values measured for each objective, by repetition.
  type Measured = seq<seq<real>>

  ghost predicate Summarises(m: Measured, r: Ranges) {
    |m| == |r| && forall i :: 0 <= i < |m| ==> IsRange(m[i], r[i])
  }

  // Dominance of the ranges says exactly that whichever repetitions are compared,
  // left is never worse and on one objective always better.
  lemma {:induction false} DominanceOfRepetitions(m: Measured, n: Measured, left: Ranges, right: Ranges)
    requires Summarises(m, left) && Summarises(n, right) && |m| == |n|
    ensures DominatesSpec(left, right) <==>
            && (forall i, a, b :: 0 <= i < |m| && 0 <= a < |m[i]| && 0 <= b < |n[i]| ==> m[i][a] >= n[i][b])
            && (exists i :: 0 <= i < |m| && AlwaysBetter(m[i], n[i]))
  {
    forall i | 0 <= i < |m|
      ensures left[i].low >= right[i].high <==>
              forall a, b :: 0 <= a < |m[i]| && 0 <= b < |n[i]| ==> m[i][a] >= n[i][b]
      ensures left[i].low > right[i].high <==> AlwaysBetter(m[i], n[i])
    {
      var a :| 0 <= a < |m[i]| && m[i][a] == left[i].low;
      var b :| 0 <= b < |n[i]| && n[i][b] == right[i].high;
    }
  }

  predicate AlwaysBetter(left: seq<real>, right: seq<real>) {
    forall a, b :: 0 <= a < |left| && 0 <= b < |right| ==> left[a] > right[b]
  }

  // The ranges of some objective share a value.
  predicate OverlapSpec(left: Ranges, right: Ranges)
    requires |left| == |right|
  {
    exists i :: 0 <= i < |left| && left[i].low <= right[i].high && right[i].low <= left[i].high
  }

  lemma {:induction false} OverlapMeansCommonValue(left: Ranges, right: Ranges)
    requires |left| == |right| && Proper(left) && Proper(right)
    ensures OverlapSpec(left, right) <==>
            exists i, v :: 0 <= i < |left| && left[i].Contains(v) && right[i].Contains(v)
  {
    if OverlapSpec(left, right) {
      var i :| 0 <= i < |left| && left[i].low <= right[i].high && right[i].low <= left[i].high;
      var v := MaxReal(left[i].low, right[i].low);
      assert left[i].Contains(v) && right[i].Contains(v);
    }
  }

  method RangesOverlap(left: Ranges, right: Ranges) returns (result: bool)
    requires |left| == |right|
    ensures result == OverlapSpec(left, right)
  {
    result := false;
    for i := 0 to |left|
      invariant result <==> exists k :: 0 <= k < i && left[k].low <= right[k].high && right[k].low <= left[k].high
    {
      result := result || (left[i].low <= right[i].high && right[i].low <= left[i].high);
    }
  }

  // ----- The report

  datatype Summary = Summary(domain: string, workload: string, eligible: bool, ranges: Ranges)

  predicate Comparable(s: seq<Summary>, objectives: nat) {
    forall i :: 0 <= i < |s| ==> |s[i].ranges| == objectives && Proper(s[i].ranges)
  }

  predicate Peers(s: seq<Summary>, i: nat, j: nat)
    requires i < |s| && j < |s|
  {
    i != j && s[i].eligible && s[j].eligible && s[i].domain == s[j].domain && s[i].workload == s[j].workload
  }

  // Configuration j beats configuration i.
  predicate Beats(s: seq<Summary>, objectives: nat, j: nat, i: nat)
    requires Comparable(s, objectives) && i < |s| && j < |s|
  {
    Peers(s, i, j) && DominatesSpec(s[j].ranges, s[i].ranges)
  }

  function BeatenBy(s: seq<Summary>, objectives: nat, i: nat): set<nat>
    requires Comparable(s, objectives) && i < |s|
  {
    set j: nat | j < |s| && Beats(s, objectives, j, i)
  }

  datatype Verdict = Ineligible | Dominated | NonDominated

  predicate OnFrontier(s: seq<Summary>, objectives: nat, i: nat)
    requires Comparable(s, objectives) && i < |s|
  {
    s[i].eligible && BeatenBy(s, objectives, i) == {}
  }

  // Some peer's ranges overlap those of configuration i.
  predicate Uncertain(s: seq<Summary>, objectives: nat, i: nat)
    requires Comparable(s, objectives) && i < |s|
  {
    exists j :: 0 <= j < |s| && Peers(s, i, j) && OverlapSpec(s[i].ranges, s[j].ranges)
  }

  method Classify(s: seq<Summary>, objectives: nat)
    returns (verdicts: seq<Verdict>, dominatedBy: seq<set<nat>>, uncertain: seq<bool>)
    requires Comparable(s, objectives)
    ensures |verdicts| == |dominatedBy| == |uncertain| == |s|
    ensures forall i :: 0 <= i < |s| ==> (verdicts[i] == Ineligible <==> !s[i].eligible)
    ensures forall i :: 0 <= i < |s| ==> (verdicts[i] == NonDominated <==> OnFrontier(s, objectives, i))
    ensures forall i :: 0 <= i < |s| ==> dominatedBy[i] == BeatenBy(s, objectives, i)
    ensures forall i :: 0 <= i < |s| ==> (uncertain[i] <==> Uncertain(s, objectives, i))
  {
    hide DominatesSpec, OverlapSpec;
    verdicts, dominatedBy, uncertain := [], [], [];
    for i := 0 to |s|
      invariant |verdicts| == |dominatedBy| == |uncertain| == i
      invariant forall k :: 0 <= k < i ==> (verdicts[k] == Ineligible <==> !s[k].eligible)
      invariant forall k :: 0 <= k < i ==> (verdicts[k] == NonDominated <==> OnFrontier(s, objectives, k))
      invariant forall k :: 0 <= k < i ==> dominatedBy[k] == BeatenBy(s, objectives, k)
      invariant forall k :: 0 <= k < i ==> (uncertain[k] <==> Uncertain(s, objectives, k))
    {
      if !s[i].eligible {
        assert BeatenBy(s, objectives, i) == {};
        verdicts, dominatedBy, uncertain := verdicts + [Ineligible], dominatedBy + [{}], uncertain + [false];
        continue;
      }
      var beaten: set<nat>, overlap := {}, false;
      for j := 0 to |s|
        invariant beaten == set k: nat | k < j && Beats(s, objectives, k, i)
        invariant overlap <==> exists k :: 0 <= k < j && Peers(s, i, k) && OverlapSpec(s[i].ranges, s[k].ranges)
      {
        if i != j && s[j].eligible && s[j].domain == s[i].domain && s[j].workload == s[i].workload {
          var dominates := Dominates(s[j].ranges, s[i].ranges);
          if dominates { beaten := beaten + {j}; }
          var overlaps := RangesOverlap(s[i].ranges, s[j].ranges);
          overlap := overlap || overlaps;
        }
      }
      verdicts := verdicts + [if beaten != {} then Dominated else NonDominated];
      dominatedBy, uncertain := dominatedBy + [beaten], uncertain + [overlap];
    }
  }

  lemma {:induction false} BeatsIsTransitive(s: seq<Summary>, objectives: nat, a: nat, b: nat, c: nat)
    requires Comparable(s, objectives) && a < |s| && b < |s| && c < |s|
    requires Beats(s, objectives, a, b) && Beats(s, objectives, b, c)
    ensures Beats(s, objectives, a, c)
  {
    DominanceIsTransitive(s[a].ranges, s[b].ranges, s[c].ranges);
    DominanceIsStrict(s[a].ranges);
  }

  // Every dominated configuration is beaten by one on the frontier.
  lemma {:induction false} DominatorOnFrontier(s: seq<Summary>, objectives: nat, i: nat) returns (j: nat)
    requires Comparable(s, objectives) && i < |s| && s[i].eligible && BeatenBy(s, objectives, i) != {}
    ensures j < |s| && Beats(s, objectives, j, i) && OnFrontier(s, objectives, j)
    decreases BeatenBy(s, objectives, i)
  {
    j :| j in BeatenBy(s, objectives, i);
    if BeatenBy(s, objectives, j) != {} {
      forall k | k in BeatenBy(s, objectives, j)
        ensures k in BeatenBy(s, objectives, i)
      {
        BeatsIsTransitive(s, objectives, k, j, i);
      }
      assert j !in BeatenBy(s, objectives, j);
      var k := DominatorOnFrontier(s, objectives, j);
      BeatsIsTransitive(s, objectives, k, j, i);
      j := k;
    }
  }

  // Every cohort with an eligible member has one on the frontier.
  lemma {:induction false} FrontierIsNotEmpty(s: seq<Summary>, objectives: nat, i: nat) returns (j: nat)
    requires Comparable(s, objectives) && i < |s| && s[i].eligible
    ensures j < |s| && OnFrontier(s, objectives, j) && s[j].domain == s[i].domain && s[j].workload == s[i].workload
  {
    j := i;
    if BeatenBy(s, objectives, i) != {} { j := DominatorOnFrontier(s, objectives, i); }
  }

  // ----- From measured repetitions to the frontier

  // The measured repetitions of one configuration.
  datatype Configuration = Configuration(domain: string, workload: string, repetitions: seq<Cell>) {
    predicate Valid() { repetitions != [] && forall i :: 0 <= i < |repetitions| ==> repetitions[i].Valid() }
    predicate Eligible() { forall i :: 0 <= i < |repetitions| ==> repetitions[i].Eligible() }
  }

  // Goodput by repetition.
  function Values(c: Configuration, slo: Slo): (values: seq<real>)
    requires c.Valid()
    ensures |values| == |c.repetitions| && forall i :: 0 <= i < |values| ==> values[i] == Goodput(c.repetitions[i], slo)
  {
    seq(|c.repetitions|, i requires 0 <= i < |c.repetitions| => Goodput(c.repetitions[i], slo))
  }

  // Goodput by objective and repetition.
  function MeasuredFor(c: Configuration, slos: seq<Slo>): (m: Measured)
    requires c.Valid()
    ensures |m| == |slos| && forall k :: 0 <= k < |m| ==> m[k] == Values(c, slos[k])
  {
    seq(|slos|, k requires 0 <= k < |slos| => Values(c, slos[k]))
  }

  ghost predicate SummaryOf(c: Configuration, slos: seq<Slo>, s: Summary)
    requires c.Valid()
  {
    && s.domain == c.domain && s.workload == c.workload && (s.eligible <==> c.Eligible())
    && Summarises(MeasuredFor(c, slos), s.ranges)
  }

  method Measure(c: Configuration, slo: Slo) returns (values: seq<real>)
    requires c.Valid()
    ensures values == Values(c, slo)
  {
    hide Goodput;
    values := [];
    for i := 0 to |c.repetitions|
      invariant |values| == i && forall k :: 0 <= k < i ==> values[k] == Goodput(c.repetitions[k], slo)
    {
      var goodput := MeasureGoodput(c.repetitions[i], slo);
      values := values + [goodput];
    }
  }

  method Summarise(c: Configuration, slos: seq<Slo>) returns (s: Summary)
    requires c.Valid()
    ensures SummaryOf(c, slos, s) && Proper(s.ranges) && |s.ranges| == |slos|
  {
    var ranges: Ranges := [];
    for k := 0 to |slos|
      invariant |ranges| == k && Proper(ranges)
      invariant forall j :: 0 <= j < k ==> IsRange(Values(c, slos[j]), ranges[j])
    {
      var values := Measure(c, slos[k]);
      var range := RangeOf(values);
      assert range.low <= values[0] <= range.high;
      ranges := ranges + [range];
    }
    s := Summary(c.domain, c.workload, c.Eligible(), ranges);
  }

  predicate AllValid(cs: seq<Configuration>) { forall i :: 0 <= i < |cs| ==> cs[i].Valid() }

  // Whichever repetitions are compared, the goodput of c is never below that of d, and for
  // one objective always above it.
  ghost predicate NeverWorse(c: Configuration, d: Configuration, slos: seq<Slo>)
    requires c.Valid() && d.Valid()
  {
    && (forall k, a, b :: 0 <= k < |slos| && 0 <= a < |c.repetitions| && 0 <= b < |d.repetitions| ==>
          Goodput(c.repetitions[a], slos[k]) >= Goodput(d.repetitions[b], slos[k]))
    && (exists k :: 0 <= k < |slos| && Above(c, d, slos[k]))
  }

  ghost predicate Above(c: Configuration, d: Configuration, slo: Slo)
    requires c.Valid() && d.Valid()
  {
    forall a, b :: 0 <= a < |c.repetitions| && 0 <= b < |d.repetitions| ==>
      Goodput(c.repetitions[a], slo) > Goodput(d.repetitions[b], slo)
  }

  // Configuration j outdoes its eligible peer i.
  ghost predicate Outdoes(cs: seq<Configuration>, slos: seq<Slo>, j: nat, i: nat)
    requires AllValid(cs) && i < |cs| && j < |cs|
  {
    && i != j && cs[i].Eligible() && cs[j].Eligible() && cs[i].domain == cs[j].domain && cs[i].workload == cs[j].workload
    && NeverWorse(cs[j], cs[i], slos)
  }

  ghost predicate SummariesOf(cs: seq<Configuration>, slos: seq<Slo>, s: seq<Summary>)
    requires AllValid(cs)
  {
    |s| == |cs| && Comparable(s, |slos|) && forall i :: 0 <= i < |s| ==> SummaryOf(cs[i], slos, s[i])
  }

  // Beating by ranges is outdoing by repetitions.
  lemma {:induction false} BeatsExactly(cs: seq<Configuration>, slos: seq<Slo>, s: seq<Summary>, j: nat, i: nat)
    requires AllValid(cs) && SummariesOf(cs, slos, s) && i < |cs| && j < |cs|
    ensures Beats(s, |slos|, j, i) <==> Outdoes(cs, slos, j, i)
  {
    hide Goodput, IsRange, DominatesSpec, NeverWorse;
    DominanceOfRepetitions(MeasuredFor(cs[j], slos), MeasuredFor(cs[i], slos), s[j].ranges, s[i].ranges);
    MeasuredCompare(cs[j], cs[i], slos);
  }

  lemma {:induction false} MeasuredCompare(c: Configuration, d: Configuration, slos: seq<Slo>)
    requires c.Valid() && d.Valid()
    ensures var m, n := MeasuredFor(c, slos), MeasuredFor(d, slos);
            NeverWorse(c, d, slos) <==>
            && (forall i, a, b :: 0 <= i < |m| && 0 <= a < |m[i]| && 0 <= b < |n[i]| ==> m[i][a] >= n[i][b])
            && (exists i :: 0 <= i < |m| && AlwaysBetter(m[i], n[i]))
  {
    hide Goodput;
    var m, n := MeasuredFor(c, slos), MeasuredFor(d, slos);
    forall k | 0 <= k < |slos|
      ensures Above(c, d, slos[k]) <==> AlwaysBetter(m[k], n[k])
    {
      assert m[k] == Values(c, slos[k]) && n[k] == Values(d, slos[k]);
    }
  }

  // The report from the measurements: which configurations are outdone, by which, and for
  // each of those one on the frontier that outdoes it.
  method BuildReport(cs: seq<Configuration>, slos: seq<Slo>) returns (verdicts: seq<Verdict>, dominatedBy: seq<set<nat>>)
    requires AllValid(cs)
    ensures |verdicts| == |dominatedBy| == |cs|
    ensures forall i :: 0 <= i < |cs| ==> (verdicts[i] == Ineligible <==> !cs[i].Eligible())
    ensures forall i :: 0 <= i < |cs| ==> dominatedBy[i] == set j: nat | j < |cs| && Outdoes(cs, slos, j, i)
    ensures forall i :: 0 <= i < |cs| ==> (verdicts[i] == Dominated <==> dominatedBy[i] != {})
    ensures forall i :: 0 <= i < |cs| && verdicts[i] == Dominated ==>
              exists j :: j in dominatedBy[i] && j < |cs| && verdicts[j] == NonDominated
  {
    hide SummaryOf, DominatesSpec, Outdoes;
    var s: seq<Summary> := [];
    for i := 0 to |cs|
      invariant |s| == i && Comparable(s, |slos|) && forall k :: 0 <= k < i ==> SummaryOf(cs[k], slos, s[k])
    {
      var one := Summarise(cs[i], slos);
      s := s + [one];
    }
    var uncertain;
    verdicts, dominatedBy, uncertain := Classify(s, |slos|);
    forall i | 0 <= i < |cs|
      ensures s[i].eligible <==> cs[i].Eligible()
      ensures dominatedBy[i] == set j: nat | j < |cs| && Outdoes(cs, slos, j, i)
      ensures verdicts[i] == Dominated <==> dominatedBy[i] != {}
      ensures verdicts[i] == Dominated ==> exists j :: j in dominatedBy[i] && j < |cs| && verdicts[j] == NonDominated
    {
      SummaryEligible(cs[i], slos, s[i]);
      forall j: nat | j < |cs|
        ensures Beats(s, |slos|, j, i) <==> Outdoes(cs, slos, j, i)
      {
        BeatsExactly(cs, slos, s, j, i);
      }
      if verdicts[i] == Dominated {
        var j := DominatorOnFrontier(s, |slos|, i);
        assert j in dominatedBy[i] && verdicts[j] == NonDominated;
      }
    }
  }

  lemma {:induction false} SummaryEligible(c: Configuration, slos: seq<Slo>, s: Summary)
    requires c.Valid() && SummaryOf(c, slos, s)
    ensures s.eligible <==> c.Eligible()
  {}
}
