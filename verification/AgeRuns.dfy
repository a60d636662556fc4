/**
 Block ages as the router journals them (src/affinity_horizon.rs, Locality::walk)
 and as the analyses read them back (bench/route_replay.py, bench/snapshot_roi.py).
 The router compares full durations; the journal keeps whole milliseconds in at
 most 64 runs.
 */
module AgeRuns {
  import opened Common
  import opened Requests
  import opened CacheCredit

  const MAX_AGE_RUNS := 64
  const U64_MAX := 0xFFFF_FFFF_FFFF_FFFF
  const NANOS_PER_MILLI := 1_000_000

  // Durations are nanoseconds; milliseconds saturate.
  function Millis(nanos: nat): nat {
    Min(nanos / NANOS_PER_MILLI, U64_MAX)
  }

  lemma {:induction false} MillisMonotone(a: nat, b: nat)
    requires a <= b
    ensures Millis(a) <= Millis(b)
  {}

  datatype Locality = Locality(raw: nat, freshBlocks: nat, ages: seq<AgeRun>, horizonMs: Option<nat>) {
    function StaleBlocks(): nat {
      if raw >= freshBlocks then raw - freshBlocks else 0
    }
  }

  // ----- Specification

  // Ages of the leading blocks that were found in the index.
  function FoundPrefix(served: seq<Option<nat>>): seq<nat> {
    if served == [] || served[0].None? then [] else [served[0].value] + FoundPrefix(served[1..])
  }

  // How many leading ages are within the limit.
  function LeadingWithin(ages: seq<nat>, limit: nat): nat {
    if ages == [] || ages[0] > limit then 0 else 1 + LeadingWithin(ages[1..], limit)
  }

  function FreshCount(ages: seq<nat>, horizon: Option<nat>): nat {
    if horizon.None? then |ages| else LeadingWithin(ages, horizon.value)
  }

  // The journal's run-length encoding, with its cap on the number of runs.
  function AddBlock(runs: seq<AgeRun>, age: nat): seq<AgeRun> {
    if runs != [] && runs[|runs| - 1].age == age then runs[|runs| - 1 := AgeRun(runs[|runs| - 1].blocks + 1, age)]
    else if |runs| < MAX_AGE_RUNS then runs + [AgeRun(1, age)]
    else runs
  }

  function Runs(ages: seq<nat>): seq<AgeRun> {
    if ages == [] then [] else AddBlock(Runs(ages[..|ages| - 1]), Millis(ages[|ages| - 1]))
  }

  function Blocks(runs: seq<AgeRun>): nat {
    if runs == [] then 0 else runs[0].blocks + Blocks(runs[1..])
  }

  function WalkOf(served: seq<Option<nat>>, horizon: Option<nat>): Locality {
    var found := FoundPrefix(served);
    Locality(|found|, FreshCount(found, horizon), Runs(found),
             if horizon.Some? then Some(Millis(horizon.value)) else None)
  }

  // ----- The walk

  lemma {:induction false} FoundPrefixAt(served: seq<Option<nat>>, n: nat)
    requires n <= |served| && forall i :: 0 <= i < n ==> served[i].Some?
    requires n == |served| || served[n].None?
    ensures |FoundPrefix(served)| == n
    ensures forall i :: 0 <= i < n ==> FoundPrefix(served)[i] == served[i].value
  {
    if n > 0 { FoundPrefixAt(served[1..], n - 1); }
  }

  lemma {:induction false} LeadingWithinAt(ages: seq<nat>, limit: nat, n: nat)
    requires n <= |ages| && forall i :: 0 <= i < n ==> ages[i] <= limit
    requires n == |ages| || ages[n] > limit
    ensures LeadingWithin(ages, limit) == n
  {
    if n > 0 { LeadingWithinAt(ages[1..], limit, n - 1); }
  }

  lemma {:induction false} LeadingWithinBounds(ages: seq<nat>, limit: nat)
    ensures var n := LeadingWithin(ages, limit);
            && n <= |ages|
            && (forall i :: 0 <= i < n ==> ages[i] <= limit)
            && (n < |ages| ==> ages[n] > limit)
  {
    if ages != [] && ages[0] <= limit {
      LeadingWithinBounds(ages[1..], limit);
      var n := LeadingWithin(ages[1..], limit);
      forall i | 0 <= i < n + 1
        ensures ages[i] <= limit
      {
        if i > 0 { assert ages[1..][i - 1] == ages[i]; }
      }
    }
  }

  // One more block: it joins the last run, starts a new one, or is dropped.
  method PushAge(runs: seq<AgeRun>, ageMs: nat) returns (more: seq<AgeRun>)
    ensures more == AddBlock(runs, ageMs)
  {
    more := runs;
    if runs != [] && runs[|runs| - 1].age == ageMs {
      more := runs[|runs| - 1 := AgeRun(runs[|runs| - 1].blocks + 1, ageMs)];
    } else if |runs| < MAX_AGE_RUNS {
      more := runs + [AgeRun(1, ageMs)];
    }
  }

  lemma {:induction false} RunsAppend(found: seq<nat>, age: nat)
    ensures Runs(found + [age]) == AddBlock(Runs(found), Millis(age))
  {
    hide Millis, AddBlock;
    assert (found + [age])[..|found|] == found;
  }

  // The blocks counted as fresh among those found so far: all of them, or those before
  // the first one past the horizon.
  predicate CountedFresh(found: seq<nat>, horizon: Option<nat>, recent: nat, done: bool) {
    && recent <= |found| && (done <==> recent < |found|)
    && (horizon.None? ==> !done)
    && (horizon.Some? ==> forall k :: 0 <= k < recent ==> found[k] <= horizon.value)
    && (horizon.Some? && done ==> found[recent] > horizon.value)
  }

  lemma {:induction false} CountNext(found: seq<nat>, horizon: Option<nat>, recent: nat, done: bool, age: nat)
    requires CountedFresh(found, horizon, recent, done)
    ensures var counts := !done && (horizon.None? || age <= horizon.value);
            CountedFresh(found + [age], horizon, if counts then recent + 1 else recent, !counts)
  {
    var more := found + [age];
    assert more[|found|] == age && forall k :: 0 <= k < |found| ==> more[k] == found[k];
  }

  lemma {:induction false} CountedIsFresh(found: seq<nat>, horizon: Option<nat>, recent: nat, done: bool)
    requires CountedFresh(found, horizon, recent, done)
    ensures recent == FreshCount(found, horizon)
  {
    if horizon.Some? { LeadingWithinAt(found, horizon.value, recent); }
  }

  method Walk(served: seq<Option<nat>>, horizon: Option<nat>) returns (locality: Locality)
    ensures locality == WalkOf(served, horizon)
  {
    hide Millis, AddBlock, Runs, CountedFresh, FreshCount, FoundPrefix;
    var raw: nat, recent: nat, runs: seq<AgeRun>, freshDone := 0, 0, [], false;
    ghost var found: seq<nat> := [];
    NothingFound(horizon);
    var i := 0;
    while i < |served|
      invariant i <= |served| && raw == i == |found|
      invariant forall k :: 0 <= k < i ==> served[k] == Some(found[k])
      invariant runs == Runs(found)
      invariant CountedFresh(found, horizon, recent, freshDone)
      decreases |served| - i
    {
      if served[i].None? { break; }
      var age := served[i].value;
      raw := raw + 1;
      RunsAppend(found, age);
      CountNext(found, horizon, recent, freshDone, age);
      runs := PushAge(runs, Millis(age));
      if !freshDone && (horizon.None? || age <= horizon.value) {
        recent := recent + 1;
      } else {
        freshDone := true;
      }
      found := found + [age];
      i := i + 1;
    }
    FoundPrefixAt(served, i);
    assert found == FoundPrefix(served);
    CountedIsFresh(found, horizon, recent, freshDone);
    locality := Locality(raw, recent, runs, if horizon.Some? then Some(Millis(horizon.value)) else None);
  }

  lemma {:induction false} NothingFound(horizon: Option<nat>)
    ensures CountedFresh([], horizon, 0, false) && Runs([]) == []
  {}

  // ----- Reading the runs back

  function InMillis(ages: seq<nat>): (ms: seq<nat>)
    ensures |ms| == |ages| && forall i :: 0 <= i < |ms| ==> ms[i] == Millis(ages[i])
  {
    seq(|ages|, i requires 0 <= i < |ages| => Millis(ages[i]))
  }

  // Some recorded run is older than h.
  predicate SeesStale(runs: seq<AgeRun>, h: nat) { !AllWithin(runs, h) }

  lemma {:induction false} AppendRun(runs: seq<AgeRun>, run: AgeRun, h: nat)
    ensures Blocks(runs + [run]) == Blocks(runs) + run.blocks
    ensures LeadingBlocks(runs + [run], h)
         == if AllWithin(runs, h) && run.age <= h then Blocks(runs) + run.blocks else LeadingBlocks(runs, h)
    ensures AllWithin(runs, h) ==> LeadingBlocks(runs, h) == Blocks(runs)
    ensures AllWithin(runs + [run], h) <==> AllWithin(runs, h) && run.age <= h
  {
    var all := runs + [run];
    assert all[|runs|] == run && forall i :: 0 <= i < |runs| ==> all[i] == runs[i];
    if runs != [] {
      assert all[1..] == runs[1..] + [run];
      AppendRun(runs[1..], run, h);
      assert AllWithin(runs, h) <==> runs[0].age <= h && AllWithin(runs[1..], h) by {
        assert forall i :: 0 < i < |runs| ==> runs[i] == runs[1..][i - 1];
      }
    }
  }

  lemma {:induction false} AppendAge(ages: seq<nat>, age: nat, h: nat)
    ensures LeadingWithin(ages + [age], h)
         == if LeadingWithin(ages, h) == |ages| && age <= h then |ages| + 1 else LeadingWithin(ages, h)
  {
    if ages != [] {
      assert (ages + [age])[1..] == ages[1..] + [age];
      AppendAge(ages[1..], age, h);
      LeadingWithinBounds(ages[1..], h);
    }
  }

  // What reading the runs against h tells about the ages, for any number of
  // blocks: exact if a stale run was recorded or no block was dropped.
  predicate Answers(runs: seq<AgeRun>, ms: seq<nat>, h: nat) {
    && Blocks(runs) <= |ms|
    && (|runs| < MAX_AGE_RUNS ==> Blocks(runs) == |ms|)
    && (SeesStale(runs, h) ==> LeadingBlocks(runs, h) == LeadingWithin(ms, h) < |ms|)
    && (!SeesStale(runs, h) ==> LeadingBlocks(runs, h) == Blocks(runs))
    && (!SeesStale(runs, h) && Blocks(runs) == |ms| ==> LeadingWithin(ms, h) == |ms|)
  }

  lemma {:induction false} AnswersStep(runs: seq<AgeRun>, ms: seq<nat>, age: nat, h: nat)
    requires Answers(runs, ms, h)
    ensures Answers(AddBlock(runs, age), ms + [age], h)
  {
    AppendAge(ms, age, h);
    LeadingWithinBounds(ms, h);
    if runs != [] && runs[|runs| - 1].age == age {
      var init, last := runs[..|runs| - 1], runs[|runs| - 1];
      assert runs == init + [last];
      assert AddBlock(runs, age) == init + [AgeRun(last.blocks + 1, age)];
      AppendRun(init, last, h);
      AppendRun(init, AgeRun(last.blocks + 1, age), h);
    } else if |runs| < MAX_AGE_RUNS {
      AppendRun(runs, AgeRun(1, age), h);
    }
  }

  lemma {:induction false} RunsAnswer(ages: seq<nat>, h: nat)
    ensures Answers(Runs(ages), InMillis(ages), h)
  {
    if ages != [] {
      var front, age := ages[..|ages| - 1], Millis(ages[|ages| - 1]);
      RunsAnswer(front, h);
      assert InMillis(ages) == InMillis(front) + [age];
      AnswersStep(Runs(front), InMillis(front), age, h);
    }
  }

  // Truncation can only make a block look fresher.
  lemma {:induction false} TruncationGap(ages: seq<nat>, horizon: nat)
    ensures var f, p := LeadingWithin(ages, horizon), LeadingWithin(InMillis(ages), Millis(horizon));
            && f <= p
            && (f == p <==> f >= |ages| || Millis(ages[f]) > Millis(horizon))
  {
    var ms := InMillis(ages);
    var f, p := LeadingWithin(ages, horizon), LeadingWithin(ms, Millis(horizon));
    LeadingWithinBounds(ages, horizon);
    LeadingWithinBounds(ms, Millis(horizon));
    if p < f {
      MillisMonotone(ages[p], horizon);
    }
  }

  // Leading blocks a reader credits, given the overlap and the recorded runs.
  function CreditedBlocks(overlap: nat, ages: seq<AgeRun>, h: nat): nat {
    Min(LeadingBlocks(ages, h), overlap)
  }

  // The first block past the horizon is also past it in whole milliseconds.
  predicate CleanCut(found: seq<nat>, horizon: nat) {
    var f := LeadingWithin(found, horizon);
    f >= |found| || Millis(found[f]) > Millis(horizon)
  }

  // ----- What the cap on runs keeps

  // Runs of equal ages.
  function RunCount(ms: seq<nat>): nat {
    if ms == [] then 0
    else
      RunCount(ms[..|ms| - 1]) + (if |ms| == 1 || ms[|ms| - 1] != ms[|ms| - 2] then 1 else 0)
  }

  // The longest prefix of at most 64 runs.
  function Kept(ms: seq<nat>): (e: nat)
    ensures e <= |ms|
  {
    if ms == [] then 0
    else
      var e := Kept(ms[..|ms| - 1]);
      if e == |ms| - 1 && RunCount(ms) <= MAX_AGE_RUNS then |ms| else e
  }

  function Count(ms: seq<nat>, age: nat): nat {
    if ms == [] then 0 else Count(ms[..|ms| - 1], age) + (if ms[|ms| - 1] == age then 1 else 0)
  }

  // Blocks past the kept prefix that have the age of its last block: they still
  // join the last run.
  function Rejoined(ms: seq<nat>): nat {
    var e := Kept(ms);
    if e == 0 then 0 else Count(ms[e..], ms[e - 1])
  }

  // The runs hold the kept prefix and what rejoins it.
  ghost predicate Records(runs: seq<AgeRun>, ms: seq<nat>) {
    var e := Kept(ms);
    && Blocks(runs) == e + Rejoined(ms)
    && |runs| == (if e == |ms| then RunCount(ms) else MAX_AGE_RUNS)
    && |runs| <= MAX_AGE_RUNS
    && (ms != [] ==> e > 0 && runs != [] && runs[|runs| - 1].age == ms[e - 1])
  }

  predicate PrefixWithin(ms: seq<nat>, e: nat, h: nat)
    requires e <= |ms|
  {
    forall i :: 0 <= i < e ==> ms[i] <= h
  }

  // One more block.
  lemma {:induction false} KeptStep(ms: seq<nat>, age: nat)
    ensures ms == [] ==> Kept(ms) == RunCount(ms) == 0
    ensures Kept(ms) == |ms| ==> RunCount(ms) <= MAX_AGE_RUNS
    ensures var more := ms + [age];
            && RunCount(more) == RunCount(ms) + (if ms == [] || ms[|ms| - 1] != age then 1 else 0)
            && Kept(more) == (if Kept(ms) == |ms| && RunCount(more) <= MAX_AGE_RUNS then |more| else Kept(ms))
  {
    assert (ms + [age])[..|ms|] == ms;
  }

  lemma {:induction false} RejoinStep(ms: seq<nat>, age: nat)
    requires ms != [] && 0 < Kept(ms) == Kept(ms + [age])
    ensures Rejoined(ms + [age]) == Rejoined(ms) + (if age == ms[Kept(ms) - 1] then 1 else 0)
  {
    var e, more := Kept(ms), ms + [age];
    assert more[e..] == ms[e..] + [age];
    assert more[e..][..|ms| - e] == ms[e..];
  }

  lemma {:induction false} NothingRejoins(ms: seq<nat>)
    requires Kept(ms) == |ms|
    ensures Rejoined(ms) == 0
  {
    assert ms[|ms|..] == [];
  }

  lemma {:induction false} RecordsStep(runs: seq<AgeRun>, ms: seq<nat>, age: nat)
    requires Records(runs, ms)
    ensures Records(AddBlock(runs, age), ms + [age])
  {
    hide RunCount, Rejoined, Kept;
    KeptStep(ms, age);
    if ms == [] {
      assert ms + [age] == [age];
      NothingRejoins([age]);
      AppendRun([], AgeRun(1, age), 0);
      assert AddBlock(runs, age) == [] + [AgeRun(1, age)];
    } else {
      BlocksStep(runs, ms, age);
    }
  }

  lemma {:induction false} BlocksStep(runs: seq<AgeRun>, ms: seq<nat>, age: nat)
    requires Records(runs, ms) && ms != []
    ensures Blocks(AddBlock(runs, age)) == Kept(ms + [age]) + Rejoined(ms + [age])
  {
    hide RunCount, Rejoined, Kept;
    KeptStep(ms, age);
    if Kept(ms) == |ms| { NothingRejoins(ms); }
    if Kept(ms + [age]) == |ms| + 1 { NothingRejoins(ms + [age]); } else { RejoinStep(ms, age); }
    var init, last := runs[..|runs| - 1], runs[|runs| - 1];
    assert runs == init + [last];
    if last.age == age {
      assert AddBlock(runs, age) == init + [AgeRun(last.blocks + 1, age)];
      AppendRun(init, last, 0);
      AppendRun(init, AgeRun(last.blocks + 1, age), 0);
    } else if |runs| < MAX_AGE_RUNS {
      AppendRun(runs, AgeRun(1, age), 0);
    }
  }

  lemma {:induction false} PrefixStep(ms: seq<nat>, age: nat, e: nat, h: nat)
    requires e <= |ms|
    ensures PrefixWithin(ms + [age], e, h) <==> PrefixWithin(ms, e, h)
    ensures PrefixWithin(ms + [age], |ms| + 1, h) <==> PrefixWithin(ms, |ms|, h) && age <= h
  {
    var more := ms + [age];
    assert more[|ms|] == age && forall i :: 0 <= i < |ms| ==> more[i] == ms[i];
  }

  lemma {:induction false} WithinStep(runs: seq<AgeRun>, ms: seq<nat>, age: nat, h: nat)
    requires Records(runs, ms) && (AllWithin(runs, h) <==> PrefixWithin(ms, Kept(ms), h))
    ensures AllWithin(AddBlock(runs, age), h) <==> PrefixWithin(ms + [age], Kept(ms + [age]), h)
  {
    hide RunCount, Rejoined, Kept, Blocks;
    KeptStep(ms, age);
    PrefixStep(ms, age, Kept(ms), h);
    if runs != [] && runs[|runs| - 1].age == age {
      var after := AddBlock(runs, age);
      assert forall i :: 0 <= i < |runs| ==> after[i].age == runs[i].age;
      assert ms != [] ==> age == ms[Kept(ms) - 1];
    } else if |runs| < MAX_AGE_RUNS {
      AppendRun(runs, AgeRun(1, age), h);
    }
  }

  // What the journal keeps of a walk: the blocks of the kept prefix and those that
  // rejoin its last run, and a stale run exactly if the kept prefix has a stale block.
  lemma {:induction false} RunsRecord(ages: seq<nat>, h: nat)
    ensures Records(Runs(ages), InMillis(ages))
    ensures AllWithin(Runs(ages), h) <==> PrefixWithin(InMillis(ages), Kept(InMillis(ages)), h)
  {
    if ages != [] {
      var front, age := ages[..|ages| - 1], Millis(ages[|ages| - 1]);
      RunsRecord(front, h);
      assert InMillis(ages) == InMillis(front) + [age];
      RecordsStep(Runs(front), InMillis(front), age);
      WithinStep(Runs(front), InMillis(front), age, h);
    }
  }

  // When the replay reads a walk back, from the ages alone. If the kept prefix is
  // everything or shows a stale block, the cut must be clean. Otherwise the replay
  // credits the kept prefix and the blocks that rejoin its last run.
  predicate Readable(found: seq<nat>, horizon: nat) {
    var ms := InMillis(found);
    if Kept(ms) == |ms| || !PrefixWithin(ms, Kept(ms), Millis(horizon)) then CleanCut(found, horizon)
    else LeadingWithin(found, horizon) == Kept(ms) + Rejoined(ms)
  }

  // The replay reads back the router's fresh count exactly when the walk is readable.
  lemma {:induction false} ReplayReadsWalk(served: seq<Option<nat>>, horizon: nat)
    ensures var found, loc := FoundPrefix(served), WalkOf(served, Some(horizon));
            && loc.freshBlocks <= loc.raw
            && (CreditedBlocks(loc.raw, loc.ages, loc.horizonMs.value) == loc.freshBlocks <==> Readable(found, horizon))
  {
    hide Kept, Rejoined;
    var found := FoundPrefix(served);
    RunsAnswer(found, Millis(horizon));
    RunsRecord(found, Millis(horizon));
    TruncationGap(found, horizon);
    LeadingWithinBounds(found, horizon);
    if Kept(InMillis(found)) == |found| { NothingRejoins(InMillis(found)); } else { SomeDropped(InMillis(found)); }
  }

  // The block that overflows the runs is not recorded.
  lemma {:induction false} SomeDropped(ms: seq<nat>)
    requires Kept(ms) < |ms|
    ensures Kept(ms) > 0 && ms[Kept(ms)] != ms[Kept(ms) - 1] && Kept(ms) + Rejoined(ms) < |ms|
  {
    var front := ms[..|ms| - 1];
    assert ms == front + [ms[|ms| - 1]];
    KeptStep(front, ms[|ms| - 1]);
    if Kept(front) == |front| {
      var last := ms[|ms| - 1];
      assert ms[Kept(ms)..] == [last] && [last][..0] == [];
      assert front[|front| - 1] != last;
      assert Count([last], front[|front| - 1]) == 0;
    } else {
      SomeDropped(front);
      RejoinStep(front, ms[|ms| - 1]);
    }
  }

  lemma {:induction false} FewRunsKept(ms: seq<nat>)
    requires RunCount(ms) <= MAX_AGE_RUNS
    ensures Kept(ms) == |ms|
  {
    if ms != [] { FewRunsKept(ms[..|ms| - 1]); }
  }

  // A prefix whose neighbours all differ keeps its first 64 blocks.
  lemma {:induction false} AllApart(ms: seq<nat>)
    requires forall i :: 0 < i < |ms| ==> ms[i] != ms[i - 1]
    ensures RunCount(ms) == |ms|
    ensures Kept(ms) == Min(|ms|, MAX_AGE_RUNS)
  {
    if ms != [] {
      var front := ms[..|ms| - 1];
      AllApart(front);
    }
  }

  // Blocks aged 1 to 64 ms, then 200 ms, then 64 ms.
  function Example(n: nat): (served: seq<Option<nat>>)
    ensures |served| == n
    ensures forall i :: 0 <= i < n ==> served[i] == Some(AgeInMillis(i) * NANOS_PER_MILLI)
  {
    seq(n, i requires 0 <= i < n => Some(AgeInMillis(i) * NANOS_PER_MILLI))
  }

  function AgeInMillis(i: nat): nat { if i < 64 then i + 1 else if i == 64 then 200 else 64 }

  lemma {:induction false} ExampleWalk(n: nat, h: nat)
    requires n > 64 && h == 100 * NANOS_PER_MILLI
    ensures var found := FoundPrefix(Example(n));
            && |found| == n && LeadingWithin(found, h) == 64
            && forall i :: 0 <= i < n ==> InMillis(found)[i] == AgeInMillis(i)
  {
    FoundPrefixAt(Example(n), n);
    LeadingWithinAt(FoundPrefix(Example(n)), h, 64);
  }

  // A clean cut that is not read back: 64 fresh runs, a stale block the cap drops,
  // and a block of the last run's age that rejoins it.
  lemma {:induction false} RejoinMismatch(h: nat)
    requires h == 100 * NANOS_PER_MILLI
    ensures var loc := WalkOf(Example(66), Some(h));
            && CleanCut(FoundPrefix(Example(66)), h)
            && loc.freshBlocks == 64 && CreditedBlocks(loc.raw, loc.ages, loc.horizonMs.value) == 65
  {
    hide FoundPrefix, LeadingWithin, Runs, Kept, Rejoined;
    ExampleWalk(66, h);
    var found := FoundPrefix(Example(66));
    RejoinExample(InMillis(found));
    RunsRecord(found, Millis(h));
    RunsAnswer(found, Millis(h));
  }

  // The cap may drop a stale block and the walk still be read back.
  lemma {:induction false} DroppedButRead(h: nat)
    requires h == 100 * NANOS_PER_MILLI
    ensures var loc := WalkOf(Example(65), Some(h));
            loc.freshBlocks == Blocks(loc.ages) == CreditedBlocks(loc.raw, loc.ages, loc.horizonMs.value) == 64 < loc.raw
  {
    hide FoundPrefix, LeadingWithin, Runs, RunCount;
    ExampleWalk(65, h);
    var found := FoundPrefix(Example(65));
    var ms := InMillis(found);
    AllApart(ms);
    assert ms[64..] == [200] && [200][..0] == [];
    RunsRecord(found, Millis(h));
    RunsAnswer(found, Millis(h));
  }

  lemma {:induction false} RejoinExample(ms: seq<nat>)
    requires |ms| == 66 && forall i :: 0 <= i < 66 ==> ms[i] == AgeInMillis(i)
    ensures Kept(ms) == 64 && Rejoined(ms) == 1
  {
    AllApart(ms);
    var tail := ms[64..];
    assert tail == [200, 64] && tail[..1] == [200] && [200][..0] == [];
    assert Count(tail, 64) == Count([200], 64) + 1;
  }

  // The retention analysis lets blocks beyond the recorded runs inherit the last
  // age, so it reads back the fresh count when every block is fresh as well.
  lemma {:induction false} AnalysisReadsWalk(served: seq<Option<nat>>, horizon: nat)
    ensures var found, loc := FoundPrefix(served), WalkOf(served, Some(horizon));
            && (SeesStale(loc.ages, loc.horizonMs.value) ==>
                  (FreshSpec(loc.raw, loc.ages, loc.horizonMs) == loc.freshBlocks <==> CleanCut(found, horizon)))
            && (!SeesStale(loc.ages, loc.horizonMs.value) ==>
                  (FreshSpec(loc.raw, loc.ages, loc.horizonMs) == loc.freshBlocks <==> loc.freshBlocks == loc.raw))
  {
    var found := FoundPrefix(served);
    RunsAnswer(found, Millis(horizon));
    TruncationGap(found, horizon);
    LeadingWithinBounds(found, horizon);
    if found == [] {
      assert Runs(found) == [];
    } else {
      RunsNonEmpty(found);
    }
  }

  lemma {:induction false} RunsNonEmpty(ages: seq<nat>)
    requires ages != []
    ensures Runs(ages) != []
  {
    if |ages| > 1 { RunsNonEmpty(ages[..|ages| - 1]); }
  }

  // The two readers agree unless every recorded run is fresh and blocks lie
  // beyond the runs; then the replay credits only the recorded blocks.
  lemma {:induction false} ReadersAgree(overlap: nat, ages: seq<AgeRun>, h: nat)
    ensures CreditedBlocks(overlap, ages, h) <= FreshSpec(overlap, ages, Some(h))
    ensures CreditedBlocks(overlap, ages, h) == FreshSpec(overlap, ages, Some(h))
        <==> ages == [] || SeesStale(ages, h) || Blocks(ages) >= overlap
  {
    AppendRun(ages, AgeRun(0, 0), h);
  }

  // A block half a millisecond past the horizon is stale to the router and
  // fresh to the replay.
  lemma {:induction false} SubMillisecondMismatch()
    ensures var served, horizon := [Some(1_500_000)], 1_000_000;
            var loc := WalkOf(served, Some(horizon));
            CreditedBlocks(loc.raw, loc.ages, loc.horizonMs.value) == 1 && loc.freshBlocks == 0
  {
    var served: seq<Option<nat>> := [Some(1_500_000)];
    assert FoundPrefix(served) == [1_500_000] by { assert served[1..] == []; }
    assert Runs([1_500_000]) == [AgeRun(1, 1)] by { assert [1_500_000][..0] == []; }
    assert LeadingBlocks([AgeRun(1, 1)], 1) == 1 by { assert [AgeRun(1, 1)][1..] == []; }
  }
}
