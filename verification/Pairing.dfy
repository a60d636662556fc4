/**
 Pairing start and finish records of the route journal (bench/snapshot_roi.py,
 pair_requests): sequence numbers restart with the balancer, so a finish belongs to
 the latest start of its number that no other finish has taken.
 */
module Pairing {
  import opened Common
  import opened Requests

  const MIN_AGE_VERSION := 11

  datatype JournalCandidate = JournalCandidate(upstream: nat, overlapBlocks: nat, staleBlocks: nat, ages: seq<AgeRun>)

  datatype StartRecord = StartRecord(
    unixMs: int,
    version: int,
    enforce: bool,
    totalBlocks: nat,
    requestBytes: nat,
    chunkBytes: nat,
    candidates: seq<JournalCandidate>)

  datatype FinishRecord = FinishRecord(
    unixMs: int,
    upstream: nat,
    complete: bool,
    status: int,
    prompt: Option<Amount>,
    cached: Option<Amount>,
    completion: Amount)

  datatype Event = Start(start: StartRecord) | Finish(finish: FinishRecord)

  datatype Line = Line(container: string, seqNo: int, event: Event) {
    function Key(): (string, int) { (container, seqNo) }
    function UnixMs(): int { if event.Start? then event.start.unixMs else event.finish.unixMs }
  }

  datatype Filter = Filter(upstreams: set<nat>, since: Option<int>, until: Option<int>, exclude: seq<(int, int)>)

  // ----- Specification

  // The last line before k with this key.
  function LastBefore(lines: seq<Line>, k: nat, key: (string, int)): Option<nat>
    requires k <= |lines|
  {
    if k == 0 then None
    else if lines[k - 1].Key() == key then Some(k - 1)
    else LastBefore(lines, k - 1, key)
  }

  // Start s and finish f of one key with no line of that key between them.
  predicate Adjacent(lines: seq<Line>, s: nat, f: nat) {
    && s < f < |lines|
    && lines[s].event.Start? && lines[f].event.Finish? && lines[s].Key() == lines[f].Key()
    && forall k :: s < k < f ==> lines[k].Key() != lines[f].Key()
  }

  lemma {:induction false} LastBeforeIs(lines: seq<Line>, k: nat, key: (string, int))
    requires k <= |lines|
    ensures match LastBefore(lines, k, key)
            case None => forall i :: 0 <= i < k ==> lines[i].Key() != key
            case Some(s) => s < k && lines[s].Key() == key && forall i :: s < i < k ==> lines[i].Key() != key
  {
    if k > 0 && lines[k - 1].Key() != key { LastBeforeIs(lines, k - 1, key); }
  }

  // The start a finish belongs to.
  function StartOf(lines: seq<Line>, k: nat, key: (string, int)): Option<nat>
    requires k <= |lines|
  {
    var last := LastBefore(lines, k, key);
    if last.Some? && last.value < |lines| && lines[last.value].event.Start? then last else None
  }

  predicate Served(s: StartRecord, f: FinishRecord, upstreams: set<nat>) {
    exists i :: 0 <= i < |s.candidates| && s.candidates[i].upstream == f.upstream && f.upstream in upstreams
  }

  // The filters a pair must pass.
  predicate Kept(s: StartRecord, f: FinishRecord, filter: Filter) {
    && f.upstream in filter.upstreams
    && (filter.since.Some? ==> s.unixMs >= filter.since.value)
    && (filter.until.Some? ==> s.unixMs < filter.until.value)
    && (forall i :: 0 <= i < |filter.exclude| ==> !(filter.exclude[i].0 <= s.unixMs < filter.exclude[i].1))
    && f.complete && f.status == 200
    && f.prompt.Some? && f.cached.Some?
    && s.version >= MIN_AGE_VERSION
    && Served(s, f, filter.upstreams)
  }

  // The start of a finish is the one it is adjacent to.
  lemma {:induction false} StartIsAdjacent(lines: seq<Line>, s: nat, f: nat)
    requires f < |lines| && lines[f].event.Finish?
    ensures StartOf(lines, f, lines[f].Key()) == Some(s) <==> Adjacent(lines, s, f)
  {
    LastBeforeIs(lines, f, lines[f].Key());
  }

  // No start serves two finishes.
  lemma {:induction false} StartsPairOnce(lines: seq<Line>, s: nat, f: nat, g: nat)
    requires Adjacent(lines, s, f) && Adjacent(lines, s, g)
    ensures f == g
  {
    assert lines[f].Key() == lines[s].Key() == lines[g].Key();
  }

  // ----- The candidates of a request

  function Convert(s: StartRecord, c: JournalCandidate): Candidate {
    Candidate(c.upstream, c.overlapBlocks + (if s.enforce then c.staleBlocks else 0), c.ages)
  }

  // Setting a dictionary entry: a known upstream keeps its place.
  function Put(cs: seq<Candidate>, c: Candidate): seq<Candidate> {
    if cs == [] then [c]
    else if cs[0].upstream == c.upstream then [c] + cs[1..]
    else [cs[0]] + Put(cs[1..], c)
  }

  predicate DistinctUpstreams(cs: seq<Candidate>) {
    forall i, j :: 0 <= i < j < |cs| ==> cs[i].upstream != cs[j].upstream
  }

  lemma {:induction false} PutReplaces(cs: seq<Candidate>, c: Candidate)
    requires DistinctUpstreams(cs)
    ensures DistinctUpstreams(Put(cs, c))
    ensures forall x :: x in Put(cs, c) <==> x == c || (x in cs && x.upstream != c.upstream)
  {
    if cs != [] {
      PutReplaces(cs[1..], c);
      assert cs == [cs[0]] + cs[1..];
      assert forall x :: x in cs[1..] ==> x.upstream != cs[0].upstream;
      var rest := Put(cs[1..], c);
      if cs[0].upstream != c.upstream {
        assert forall i :: 0 <= i < |rest| ==> rest[i] in rest;
      }
    }
  }

  function CandidatesOf(s: StartRecord, upstreams: set<nat>, k: nat): seq<Candidate>
    requires k <= |s.candidates|
  {
    if k == 0 then []
    else
      var rest := CandidatesOf(s, upstreams, k - 1);
      if s.candidates[k - 1].upstream in upstreams then Put(rest, Convert(s, s.candidates[k - 1])) else rest
  }

  // Entry i is the last of the first k for its upstream.
  predicate LastEntry(s: StartRecord, k: nat, i: nat) {
    i < k <= |s.candidates| && forall j :: i < j < k ==> s.candidates[j].upstream != s.candidates[i].upstream
  }

  ghost predicate FromLast(s: StartRecord, upstreams: set<nat>, k: nat, c: Candidate) {
    exists i: nat :: LastEntry(s, k, i) && s.candidates[i].upstream in upstreams && c == Convert(s, s.candidates[i])
  }

  // One candidate for each selected upstream, from its last entry.
  lemma {:induction false} CandidatesAreLast(s: StartRecord, upstreams: set<nat>, k: nat)
    requires k <= |s.candidates|
    ensures DistinctUpstreams(CandidatesOf(s, upstreams, k))
    ensures forall c :: c in CandidatesOf(s, upstreams, k) <==> FromLast(s, upstreams, k, c)
  {
    if k > 0 {
      CandidatesAreLast(s, upstreams, k - 1);
      PutReplaces(CandidatesOf(s, upstreams, k - 1), Convert(s, s.candidates[k - 1]));
      forall c
        ensures c in CandidatesOf(s, upstreams, k) <==> FromLast(s, upstreams, k, c)
      {
        OneMoreEntry(s, upstreams, k, c);
      }
    }
  }

  lemma {:induction false} OneMoreEntry(s: StartRecord, upstreams: set<nat>, k: nat, c: Candidate)
    requires 0 < k <= |s.candidates|
    ensures var last := s.candidates[k - 1];
            FromLast(s, upstreams, k, c) <==>
              if last.upstream in upstreams
              then c == Convert(s, last) || (FromLast(s, upstreams, k - 1, c) && c.upstream != last.upstream)
              else FromLast(s, upstreams, k - 1, c)
  {
    var last := s.candidates[k - 1];
    assert LastEntry(s, k, k - 1);
    if FromLast(s, upstreams, k - 1, c) && c.upstream != last.upstream {
      var i: nat :| LastEntry(s, k - 1, i) && s.candidates[i].upstream in upstreams && c == Convert(s, s.candidates[i]);
      assert LastEntry(s, k, i);
    }
    if FromLast(s, upstreams, k, c) && !(last.upstream in upstreams && c == Convert(s, last)) {
      var i: nat :| LastEntry(s, k, i) && s.candidates[i].upstream in upstreams && c == Convert(s, s.candidates[i]);
      assert LastEntry(s, k - 1, i);
    }
  }

  method CollectCandidates(s: StartRecord, upstreams: set<nat>) returns (cs: seq<Candidate>)
    ensures cs == CandidatesOf(s, upstreams, |s.candidates|)
  {
    cs := [];
    for k := 0 to |s.candidates|
      invariant cs == CandidatesOf(s, upstreams, k)
    {
      if s.candidates[k].upstream in upstreams { cs := Put(cs, Convert(s, s.candidates[k])); }
    }
  }

  // The request of a pair; the cached count is clamped to the prompt.
  function InfoOf(container: string, s: StartRecord, f: FinishRecord, filter: Filter): (info: Info)
    requires Kept(s, f, filter)
    ensures info.Clamped()
  {
    Info(container, s.unixMs, f.unixMs, f.upstream, f.prompt.value, MinReal(f.cached.value, f.prompt.value), f.completion,
         s.totalBlocks, s.requestBytes, s.chunkBytes, CandidatesOf(s, filter.upstreams, |s.candidates|))
  }

  // ----- Order by container and finish

  // A request with the lines of its start and finish.
  datatype Paired = Paired(start: nat, finish: nat, info: Info)

  // Lexicographic order of strings.
  predicate NotAfter(a: string, b: string) {
    a == "" || (b != "" && (a[0] < b[0] || (a[0] == b[0] && NotAfter(a[1..], b[1..]))))
  }

  lemma {:induction false} NotAfterTotal(a: string, b: string)
    ensures NotAfter(a, b) || NotAfter(b, a)
    ensures NotAfter(a, b) && NotAfter(b, a) ==> a == b
  {
    if a != "" && b != "" {
      NotAfterTotal(a[1..], b[1..]);
      assert a == [a[0]] + a[1..] && b == [b[0]] + b[1..];
    }
  }

  lemma {:induction false} NotAfterTransitive(a: string, b: string, c: string)
    requires NotAfter(a, b) && NotAfter(b, c)
    ensures NotAfter(a, c)
  {
    if a != "" && a[0] == b[0] == c[0] { NotAfterTransitive(a[1..], b[1..], c[1..]); }
  }

  // The sort key: container, then finish time.
  predicate KeyLess(a: Info, b: Info) {
    if a.container != b.container then NotAfter(a.container, b.container) else a.finish < b.finish
  }

  // The key, then the place in the journal: what a stable sort gives.
  predicate Before(a: Paired, b: Paired) {
    KeyLess(a.info, b.info) ||
    (a.info.container == b.info.container && a.info.finish == b.info.finish && a.finish < b.finish)
  }

  lemma {:induction false} BeforeTransitive(a: Paired, b: Paired, c: Paired)
    requires Before(a, b) && Before(b, c)
    ensures Before(a, c)
  {
    var x, y, z := a.info.container, b.info.container, c.info.container;
    if x != y && y != z {
      NotAfterTransitive(x, y, z);
      NotAfterTotal(x, y);
    }
  }

  predicate Ordered(s: seq<Paired>) { forall i, j :: 0 <= i < j < |s| ==> Before(s[i], s[j]) }

  function InsertByKey(x: Paired, s: seq<Paired>): seq<Paired> {
    if s == [] || !KeyLess(x.info, s[|s| - 1].info) then s + [x]
    else InsertByKey(x, s[..|s| - 1]) + [s[|s| - 1]]
  }

  lemma {:induction false} InsertKeepsOrder(x: Paired, s: seq<Paired>)
    requires Ordered(s) && forall y :: y in s ==> y.finish < x.finish
    ensures Ordered(InsertByKey(x, s))
    ensures forall y :: y in InsertByKey(x, s) <==> y == x || y in s
  {
    hide KeyLess, Before;
    if s != [] {
      var front, last := s[..|s| - 1], s[|s| - 1];
      assert s == front + [last] && last in s;
      KeyDecides(x, last);
      if KeyLess(x.info, last.info) {
        InsertKeepsOrder(x, front);
        var r := InsertByKey(x, front);
        forall i | 0 <= i < |r|
          ensures Before(r[i], last)
        {
          assert r[i] in r;
        }
      } else {
        forall i | 0 <= i < |s|
          ensures Before(s[i], x)
        {
          if i < |s| - 1 { BeforeTransitive(s[i], last, x); }
        }
      }
    }
  }

  lemma {:induction false} KeyDecides(x: Paired, y: Paired)
    requires y.finish < x.finish
    ensures if KeyLess(x.info, y.info) then Before(x, y) else Before(y, x)
  {
    NotAfterTotal(x.info.container, y.info.container);
  }

  // ----- pair_requests

  predicate KeptPair(lines: seq<Line>, s: nat, f: nat, filter: Filter) {
    Adjacent(lines, s, f) && Kept(lines[s].event.start, lines[f].event.finish, filter)
  }

  predicate Fits(lines: seq<Line>, n: nat, filter: Filter, p: Paired) {
    && p.finish < n && KeptPair(lines, p.start, p.finish, filter)
    && p.info == InfoOf(lines[p.finish].container, lines[p.start].event.start, lines[p.finish].event.finish, filter)
  }

  // Exactly the adjacent pairs that pass the filters.
  ghost predicate IsPaired(lines: seq<Line>, n: nat, filter: Filter, requests: seq<Paired>) {
    && (forall p :: p in requests ==> Fits(lines, n, filter, p))
    && (forall s: nat, f: nat :: f < n && KeptPair(lines, s, f, filter) ==> exists p :: p in requests && p.start == s && p.finish == f)
  }

  lemma {:induction false} NoNewPair(lines: seq<Line>, n: nat, filter: Filter, requests: seq<Paired>)
    requires IsPaired(lines, n, filter, requests) && forall s: nat :: !KeptPair(lines, s, n, filter)
    ensures IsPaired(lines, n + 1, filter, requests)
  {
    hide KeptPair;
  }

  lemma {:induction false} NewPair(lines: seq<Line>, filter: Filter, requests: seq<Paired>, p: Paired)
    requires IsPaired(lines, p.finish, filter, requests) && Fits(lines, p.finish + 1, filter, p)
    ensures IsPaired(lines, p.finish + 1, filter, requests + [p])
  {
    var more := requests + [p];
    forall s: nat, f: nat | f < p.finish + 1 && KeptPair(lines, s, f, filter)
      ensures exists q :: q in more && q.start == s && q.finish == f
    {
      if f == p.finish {
        StartIsAdjacent(lines, s, f);
        StartIsAdjacent(lines, p.start, f);
        assert p in more;
      } else {
        var q :| q in requests && q.start == s && q.finish == f;
        assert q in more;
      }
    }
  }

  // Starts that no finish has taken yet.
  ghost predicate IsPending(lines: seq<Line>, k: nat, pending: map<(string, int), nat>)
    requires k <= |lines|
  {
    && (forall key :: key in pending <==> StartOf(lines, k, key).Some?)
    && (forall key :: key in pending ==> StartOf(lines, k, key) == Some(pending[key]))
  }

  // The earliest time of each container among the first n lines.
  ghost predicate IsFirstSeen(lines: seq<Line>, n: nat, firstSeen: map<string, int>)
    requires n <= |lines|
  {
    && (forall i :: 0 <= i < n ==> lines[i].container in firstSeen && firstSeen[lines[i].container] <= lines[i].UnixMs())
    && (forall c :: c in firstSeen ==> exists i :: 0 <= i < n && lines[i].container == c && lines[i].UnixMs() == firstSeen[c])
  }

  method PairRequests(lines: seq<Line>, filter: Filter) returns (requests: seq<Paired>, firstSeen: map<string, int>)
    ensures IsPaired(lines, |lines|, filter, requests) && Ordered(requests)
    ensures IsFirstSeen(lines, |lines|, firstSeen)
  {
    hide IsPaired, IsFirstSeen, IsPending;
    var found: seq<Paired> := [];
    var pending: map<(string, int), nat> := map[];
    firstSeen := map[];
    NothingPaired(lines, filter);
    for k := 0 to |lines|
      invariant IsPending(lines, k, pending)
      invariant IsPaired(lines, k, filter, found)
      invariant forall i :: 0 <= i < |found| ==> found[i].finish < k
      invariant forall i, j :: 0 <= i < j < |found| ==> found[i].finish < found[j].finish
      invariant IsFirstSeen(lines, k, firstSeen)
    {
      firstSeen := SeeLine(lines, k, firstSeen);
      var pair;
      pending, pair := TakeLine(lines, k, filter, pending, found);
      if pair.Some? { found := found + [pair.value]; }
    }
    requests := SortRequests(found);
    SameMembers(lines, filter, found, requests);
  }

  lemma {:induction false} NothingPaired(lines: seq<Line>, filter: Filter)
    ensures IsPaired(lines, 0, filter, []) && IsFirstSeen(lines, 0, map[]) && IsPending(lines, 0, map[])
  {}

  lemma {:induction false} SameMembers(lines: seq<Line>, filter: Filter, a: seq<Paired>, b: seq<Paired>)
    requires IsPaired(lines, |lines|, filter, a) && forall p :: p in b <==> p in a
    ensures IsPaired(lines, |lines|, filter, b)
  {
    hide Fits, KeptPair;
    forall s: nat, f: nat | f < |lines| && KeptPair(lines, s, f, filter)
      ensures exists p :: p in b && p.start == s && p.finish == f
    {
      var p :| p in a && p.start == s && p.finish == f;
      assert p in b;
    }
  }

  // One line: a start waits, a finish takes the start that waits for it.
  method TakeLine(lines: seq<Line>, k: nat, filter: Filter, waiting: map<(string, int), nat>, ghost found: seq<Paired>)
    returns (pending: map<(string, int), nat>, pair: Option<Paired>)
    requires k < |lines| && IsPending(lines, k, waiting) && IsPaired(lines, k, filter, found)
    ensures IsPending(lines, k + 1, pending)
    ensures pair.Some? ==> pair.value.finish == k
    ensures IsPaired(lines, k + 1, filter, if pair.Some? then found + [pair.value] else found)
  {
    hide Kept, IsPaired, InfoOf;
    var line := lines[k];
    var key := line.Key();
    pair := None;
    if line.event.Start? {
      pending := waiting[key := k];
      NoNewPair(lines, k, filter, found);
      return;
    }
    pending := waiting - {key};
    forall s: nat
      ensures StartOf(lines, k, key) == Some(s) <==> Adjacent(lines, s, k)
    {
      StartIsAdjacent(lines, s, k);
    }
    if key !in waiting {
      NoNewPair(lines, k, filter, found);
      return;
    }
    var at := waiting[key];
    var start, finish := lines[at].event.start, line.event.finish;
    var keep := Passes(start, finish, filter);
    if keep {
      var info := Build(line.container, start, finish, filter);
      pair := Some(Paired(at, k, info));
      NewPair(lines, filter, found, pair.value);
    } else {
      NoNewPair(lines, k, filter, found);
    }
  }

  method SeeLine(lines: seq<Line>, k: nat, seen: map<string, int>) returns (firstSeen: map<string, int>)
    requires k < |lines| && IsFirstSeen(lines, k, seen)
    ensures IsFirstSeen(lines, k + 1, firstSeen)
  {
    var c, t := lines[k].container, lines[k].UnixMs();
    firstSeen := seen[c := Min(if c in seen then seen[c] else t, t)];
    forall d | d in firstSeen
      ensures exists i :: 0 <= i < k + 1 && lines[i].container == d && lines[i].UnixMs() == firstSeen[d]
    {
      if d in seen && firstSeen[d] == seen[d] {
        var i :| 0 <= i < k && lines[i].container == d && lines[i].UnixMs() == seen[d];
      } else {
        assert lines[k].container == d;
      }
    }
  }

  method Build(container: string, s: StartRecord, f: FinishRecord, filter: Filter) returns (info: Info)
    requires Kept(s, f, filter)
    ensures info == InfoOf(container, s, f, filter)
  {
    var candidates := CollectCandidates(s, filter.upstreams);
    info := Info(container, s.unixMs, f.unixMs, f.upstream, f.prompt.value, MinReal(f.cached.value, f.prompt.value),
                 f.completion, s.totalBlocks, s.requestBytes, s.chunkBytes, candidates);
  }

  method SortRequests(found: seq<Paired>) returns (sorted: seq<Paired>)
    requires forall i, j :: 0 <= i < j < |found| ==> found[i].finish < found[j].finish
    ensures Ordered(sorted) && forall p :: p in sorted <==> p in found
  {
    sorted := [];
    for i := 0 to |found|
      invariant Ordered(sorted) && forall p :: p in sorted <==> p in found[..i]
    {
      InsertKeepsOrder(found[i], sorted);
      sorted := InsertByKey(found[i], sorted);
      assert found[..i + 1] == found[..i] + [found[i]];
    }
  }

  // The contract settles the result: a journal has one paired list.
  lemma {:induction false} PairedIsUnique(lines: seq<Line>, filter: Filter, a: seq<Paired>, b: seq<Paired>)
    requires IsPaired(lines, |lines|, filter, a) && IsPaired(lines, |lines|, filter, b) && Ordered(a) && Ordered(b)
    ensures a == b
  {
    hide KeptPair, InfoOf, Before;
    forall p | p in a
      ensures p in b
    {
      var q :| q in b && q.start == p.start && q.finish == p.finish;
    }
    forall p | p in b
      ensures p in a
    {
      var q :| q in a && q.start == p.start && q.finish == p.finish;
    }
    OneOrder(a, b);
  }

  // Two ordered lists with the same members are equal.
  lemma {:induction false} OneOrder(a: seq<Paired>, b: seq<Paired>)
    requires Ordered(a) && Ordered(b) && forall p :: p in a <==> p in b
    ensures a == b
  {
    hide Before;
    assert b == [] || b[0] in b;
    if a != [] {
      assert a[0] in b && b[0] in a;
      SameHead(a, b);
      NotInRest(a);
      NotInRest(b);
      assert a == [a[0]] + a[1..] && b == [b[0]] + b[1..];
      forall p
        ensures p in a[1..] <==> p in b[1..]
      {
        assert p in a <==> p == a[0] || p in a[1..];
        assert p in b <==> p == b[0] || p in b[1..];
      }
      OneOrder(a[1..], b[1..]);
    }
  }

  lemma {:induction false} NotInRest(a: seq<Paired>)
    requires a != [] && Ordered(a)
    ensures a[0] !in a[1..]
  {
    if i :| 0 < i < |a| && a[i] == a[0] { NeverBoth(a[0], a[0]); }
  }

  lemma {:induction false} SameHead(a: seq<Paired>, b: seq<Paired>)
    requires Ordered(a) && Ordered(b) && a != [] && b != [] && a[0] in b && b[0] in a
    ensures a[0] == b[0]
  {
    NeverBoth(a[0], b[0]);
  }

  lemma {:induction false} NeverBoth(p: Paired, q: Paired)
    ensures !(Before(p, q) && Before(q, p))
  {
    NotAfterTotal(p.info.container, q.info.container);
  }

  // The filters in the order the program applies them.
  method Passes(s: StartRecord, f: FinishRecord, filter: Filter) returns (keep: bool)
    ensures keep <==> Kept(s, f, filter)
  {
    if f.upstream !in filter.upstreams { return false; }
    if filter.since.Some? && s.unixMs < filter.since.value { return false; }
    if filter.until.Some? && s.unixMs >= filter.until.value { return false; }
    for i := 0 to |filter.exclude|
      invariant forall k :: 0 <= k < i ==> !(filter.exclude[k].0 <= s.unixMs < filter.exclude[k].1)
    {
      if filter.exclude[i].0 <= s.unixMs < filter.exclude[i].1 { return false; }
    }
    if !f.complete || f.status != 200 { return false; }
    if f.prompt.None? || f.cached.None? { return false; }
    if s.version < MIN_AGE_VERSION { return false; }
    for i := 0 to |s.candidates|
      invariant forall k :: 0 <= k < i ==> s.candidates[k].upstream != f.upstream
    {
      if s.candidates[i].upstream == f.upstream { return true; }
    }
    return false;
  }
}
