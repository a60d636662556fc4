/**
 Linking conversation turns (bench/snapshot_roi.py, link_turns): each continuation
 is attached to the finish that last served its deepest block, found by binary
 search over sorted finishes and proved equal to a scan over all requests.
 */
module LinkTurns {
  import opened Common
  import opened Requests

  const LINK_TOLERANCE := 2

  // ----- Specification: a scan over all requests

  // Request j may have served the deepest block of candidate c of request i.
  predicate Eligible(infos: seq<Info>, i: nat, c: Candidate, j: nat)
    requires i < |infos|
  {
    && c.ages != [] && c.overlap > 0
    && j < |infos| && j != i
    && infos[j].container == infos[i].container && infos[j].upstream == c.upstream
    && Target(infos[i], c) - LINK_TOLERANCE <= infos[j].finish <= Target(infos[i], c) + LINK_TOLERANCE
    && infos[j].finish <= infos[i].start
    && c.overlap >= infos[j].totalBlocks - 1
  }

  // When the deepest block of c was last served.
  function Target(r: Info, c: Candidate): int
    requires c.ages != []
  {
    r.start - c.ages[|c.ages| - 1].age
  }

  // Candidate k served by j is at least as good as candidate k' served by j':
  // deeper overlap, then the earlier candidate, then the earlier finish.
  predicate Beats(infos: seq<Info>, i: nat, k: nat, j: nat, k': nat, j': nat)
    requires i < |infos| && k < |infos[i].candidates| && k' < |infos[i].candidates| && j < |infos| && j' < |infos|
  {
    var c, c' := infos[i].candidates[k], infos[i].candidates[k'];
    || c.overlap > c'.overlap
    || (c.overlap == c'.overlap && k < k')
    || (k == k' && Entry(infos[j].finish, j).Leq(Entry(infos[j'].finish, j')))
  }

  predicate LinkFor(infos: seq<Info>, i: nat, k: nat, link: Link)
    requires i < |infos|
  {
    && k < |infos[i].candidates|
    && Eligible(infos, i, infos[i].candidates[k], link.predecessor)
    && link.upstream == infos[i].candidates[k].upstream
    && link.gap == infos[i].candidates[k].ages[|infos[i].candidates[k].ages| - 1].age
  }

  // Candidate k through link l is at least as good as every eligible pair.
  ghost predicate BestVia(infos: seq<Info>, i: nat, k: nat, l: Link)
    requires i < |infos|
  {
    && LinkFor(infos, i, k, l)
    && forall k': nat, j': nat :: k' < |infos[i].candidates| && Eligible(infos, i, infos[i].candidates[k'], j') ==>
         Beats(infos, i, k, l.predecessor, k', j')
  }

  // The link a full scan would pick.
  ghost predicate IsBestLink(infos: seq<Info>, i: nat, link: Option<Link>)
    requires i < |infos|
  {
    match link
    case None => forall k: nat, j: nat :: k < |infos[i].candidates| ==> !Eligible(infos, i, infos[i].candidates[k], j)
    case Some(l) => exists k :: BestVia(infos, i, k, l)
  }

  // The scan's choice is unique.
  lemma {:induction false} BestLinkIsUnique(infos: seq<Info>, i: nat, a: Option<Link>, b: Option<Link>)
    requires i < |infos| && IsBestLink(infos, i, a) && IsBestLink(infos, i, b)
    ensures a == b
  {
    if a.Some? && b.Some? {
      var k :| BestVia(infos, i, k, a.value);
      var m :| BestVia(infos, i, m, b.value);
      assert Beats(infos, i, k, a.value.predecessor, m, b.value.predecessor);
      assert Beats(infos, i, m, b.value.predecessor, k, a.value.predecessor);
    }
  }

  // ----- Finishes by (container, upstream), sorted

  datatype Entry = Entry(finish: int, index: int) {
    predicate Less(other: Entry) { finish < other.finish || (finish == other.finish && index < other.index) }
    predicate Leq(other: Entry) { !other.Less(this) }
  }

  type Key = (string, nat)

  function KeyOf(r: Info): Key { (r.container, r.upstream) }

  function EntryOf(infos: seq<Info>, j: nat): Entry
    requires j < |infos|
  {
    Entry(infos[j].finish, j)
  }

  predicate Sorted(entries: seq<Entry>) {
    forall a, b :: 0 <= a < b < |entries| ==> entries[a].Leq(entries[b])
  }

  // The lists hold exactly the first n requests, each under its key.
  ghost predicate Lists(infos: seq<Info>, n: nat, finishes: map<Key, seq<Entry>>)
    requires n <= |infos|
  {
    && (forall key, e :: key in finishes && e in finishes[key] ==>
          0 <= e.index < n && e == EntryOf(infos, e.index) && KeyOf(infos[e.index]) == key)
    && (forall j :: 0 <= j < n ==> KeyOf(infos[j]) in finishes && EntryOf(infos, j) in finishes[KeyOf(infos[j])])
  }

  function Insert(e: Entry, entries: seq<Entry>): seq<Entry> {
    if entries == [] || entries[|entries| - 1].Leq(e) then entries + [e]
    else Insert(e, entries[..|entries| - 1]) + [entries[|entries| - 1]]
  }

  function Sort(entries: seq<Entry>): seq<Entry> {
    if entries == [] then [] else Insert(entries[|entries| - 1], Sort(entries[..|entries| - 1]))
  }

  lemma {:induction false} InsertSorts(e: Entry, entries: seq<Entry>)
    requires Sorted(entries)
    ensures Sorted(Insert(e, entries))
    ensures forall x :: x in Insert(e, entries) <==> x == e || x in entries
  {
    if entries != [] && !entries[|entries| - 1].Leq(e) {
      var front, last := entries[..|entries| - 1], entries[|entries| - 1];
      InsertSorts(e, front);
      assert entries == front + [last];
      var s := Insert(e, front);
      forall a | 0 <= a < |s|
        ensures s[a].Leq(last)
      {
        assert s[a] in s;
      }
    }
  }

  lemma {:induction false} SortSorts(entries: seq<Entry>)
    ensures Sorted(Sort(entries))
    ensures forall x :: x in Sort(entries) <==> x in entries
  {
    if entries != [] {
      var front := entries[..|entries| - 1];
      SortSorts(front);
      InsertSorts(entries[|entries| - 1], Sort(front));
      assert entries == front + [entries[|entries| - 1]];
    }
  }

  method IndexFinishes(infos: seq<Info>) returns (finishes: map<Key, seq<Entry>>)
    ensures Lists(infos, |infos|, finishes)
    ensures forall key :: key in finishes ==> Sorted(finishes[key])
  {
    finishes := map[];
    for index := 0 to |infos|
      invariant Lists(infos, index, finishes)
    {
      var key := KeyOf(infos[index]);
      var entries := if key in finishes then finishes[key] else [];
      finishes := finishes[key := entries + [EntryOf(infos, index)]];
    }
    var unsorted := finishes.Keys;
    while unsorted != {}
      invariant Lists(infos, |infos|, finishes)
      invariant unsorted <= finishes.Keys
      invariant forall key :: key in finishes && key !in unsorted ==> Sorted(finishes[key])
      decreases unsorted
    {
      var key :| key in unsorted;
      SortSorts(finishes[key]);
      finishes := finishes[key := Sort(finishes[key])];
      unsorted := unsorted - {key};
    }
  }

  // Leftmost position at which the probe could be inserted.
  method BisectLeft(entries: seq<Entry>, probe: Entry) returns (position: nat)
    requires Sorted(entries)
    ensures position <= |entries|
    ensures forall a :: 0 <= a < position ==> entries[a].Less(probe)
    ensures forall a :: position <= a < |entries| ==> !entries[a].Less(probe)
  {
    var low, high := 0, |entries|;
    while low < high
      invariant 0 <= low <= high <= |entries|
      invariant forall a :: 0 <= a < low ==> entries[a].Less(probe)
      invariant forall a :: high <= a < |entries| ==> !entries[a].Less(probe)
    {
      var mid := (low + high) / 2;
      if entries[mid].Less(probe) {
        forall a | 0 <= a < mid
          ensures entries[a].Less(probe)
        {
          assert entries[a].Leq(entries[mid]);
        }
        low := mid + 1;
      } else {
        forall a | mid < a < |entries|
          ensures !entries[a].Less(probe)
        {
          assert entries[mid].Leq(entries[a]);
        }
        high := mid;
      }
    }
    position := low;
  }

  // ----- The search for one request

  // The choice among the first k candidates, plus the first p entries for
  // candidate k.
  ghost predicate Considered(infos: seq<Info>, i: nat, k: nat, entries: seq<Entry>, p: nat, k': nat, j': nat)
    requires i < |infos| && p <= |entries|
  {
    k' < k || (k' == k && j' < |infos| && EntryOf(infos, j') in entries[..p])
  }

  ghost predicate Chosen(infos: seq<Info>, i: nat, k: nat, entries: seq<Entry>, p: nat, best: Option<Link>, kb: nat)
    requires i < |infos| && p <= |entries|
  {
    match best
    case None =>
      forall k': nat, j': nat :: k' < |infos[i].candidates| && Considered(infos, i, k, entries, p, k', j') ==>
        !Eligible(infos, i, infos[i].candidates[k'], j')
    case Some(l) =>
      && LinkFor(infos, i, kb, l)
      && Considered(infos, i, k, entries, p, kb, l.predecessor)
      && forall k': nat, j': nat ::
           k' < |infos[i].candidates| && Considered(infos, i, k, entries, p, k', j') &&
           Eligible(infos, i, infos[i].candidates[k'], j') ==>
             Beats(infos, i, kb, l.predecessor, k', j')
  }

  // Looking at one more entry keeps the choice.
  lemma {:induction false} ConsiderEntry(infos: seq<Info>, i: nat, k: nat, entries: seq<Entry>, p: nat,
                                         best: Option<Link>, kb: nat, next: Option<Link>, kn: nat)
    requires i < |infos| && k < |infos[i].candidates| && p < |entries| && Sorted(entries)
    requires forall e :: e in entries ==> 0 <= e.index < |infos| && e == EntryOf(infos, e.index)
    requires Chosen(infos, i, k, entries, p, best, kb)
    requires var c := infos[i].candidates[k];
             if Eligible(infos, i, c, entries[p].index) && (best.None? || c.overlap > infos[i].candidates[kb].overlap)
             then kn == k && next.Some? && LinkFor(infos, i, k, next.value) && next.value.predecessor == entries[p].index
             else next == best && kn == kb
    ensures Chosen(infos, i, k, entries, p + 1, next, kn)
  {
    assert entries[p] in entries;
    assert entries[..p + 1] == entries[..p] + [entries[p]];
    forall k': nat, j': nat | k' < |infos[i].candidates| && Considered(infos, i, k, entries, p + 1, k', j')
                    && Eligible(infos, i, infos[i].candidates[k'], j')
      ensures next.Some? && Beats(infos, i, kn, next.value.predecessor, k', j')
    {
      if Considered(infos, i, k, entries, p, k', j') {
        assert best.Some? && Beats(infos, i, kb, best.value.predecessor, k', j');
      } else {
        assert j' == entries[p].index;
        if next == best && kb == k {
          var a :| 0 <= a < p && entries[a] == EntryOf(infos, best.value.predecessor);
          assert entries[a].Leq(entries[p]);
        }
      }
    }
  }

  // The entries are the finishes of one container and upstream.
  ghost predicate EntriesOf(infos: seq<Info>, key: Key, entries: seq<Entry>) {
    && Sorted(entries)
    && (forall e :: e in entries ==> 0 <= e.index < |infos| && e == EntryOf(infos, e.index) && KeyOf(infos[e.index]) == key)
    && (forall j :: 0 <= j < |infos| && KeyOf(infos[j]) == key ==> EntryOf(infos, j) in entries)
  }

  // The window of finishes around the instant candidate k was last served.
  method ScanWindow(infos: seq<Info>, entries: seq<Entry>, i: nat, k: nat, best: Option<Link>, bestDepth: nat, ghost best_k: nat)
    returns (link: Option<Link>, depth: nat, ghost link_k: nat)
    requires i < |infos| && k < |infos[i].candidates|
    requires infos[i].candidates[k].ages != [] && infos[i].candidates[k].overlap > 0
    requires EntriesOf(infos, (infos[i].container, infos[i].candidates[k].upstream), entries)
    requires Chosen(infos, i, k, [], 0, best, best_k)
    requires best.Some? ==> bestDepth == infos[i].candidates[best_k].overlap
    ensures Chosen(infos, i, k + 1, [], 0, link, link_k)
    ensures link.Some? ==> depth == infos[i].candidates[link_k].overlap
  {
    var r, c := infos[i], infos[i].candidates[k];
    link, depth, link_k := best, bestDepth, best_k;
    var gap := c.ages[|c.ages| - 1].age;
    var target := r.start - gap;
    var position := BisectLeft(entries, Entry(target - LINK_TOLERANCE, -1));
    StartCandidate(infos, i, k, entries, position, link, link_k);
    ghost var first := position;
    while position < |entries| && entries[position].finish <= target + LINK_TOLERANCE
      invariant first <= position <= |entries|
      invariant Chosen(infos, i, k, entries, position, link, link_k)
      invariant link.Some? ==> depth == r.candidates[link_k].overlap
    {
      assert entries[position] in entries;
      var other := entries[position].index;
      var predecessor := infos[other];
      ghost var before, before_k := link, link_k;
      if other != i && predecessor.finish <= r.start && c.overlap >= predecessor.totalBlocks - 1
         && (link.None? || c.overlap > depth)
      {
        link, depth, link_k := Some(Link(other, c.upstream, gap)), c.overlap, k;
      }
      ConsiderEntry(infos, i, k, entries, position, before, before_k, link, link_k);
      position := position + 1;
    }
    FinishCandidate(infos, i, k, entries, position, link, link_k);
  }

  method FindLink(infos: seq<Info>, finishes: map<Key, seq<Entry>>, i: nat) returns (link: Option<Link>)
    requires i < |infos| && Lists(infos, |infos|, finishes)
    requires forall key :: key in finishes ==> Sorted(finishes[key])
    ensures IsBestLink(infos, i, link)
  {
    var r := infos[i];
    link := None;
    var depth: nat := 0;
    ghost var link_k: nat := 0;
    for k := 0 to |r.candidates|
      invariant Chosen(infos, i, k, [], 0, link, link_k)
      invariant link.Some? ==> depth == r.candidates[link_k].overlap
    {
      var c := r.candidates[k];
      if c.ages == [] || c.overlap <= 0 {
        SkipCandidate(infos, i, k, link, link_k);
        continue;
      }
      var key := (r.container, c.upstream);
      var entries := if key in finishes then finishes[key] else [];
      link, depth, link_k := ScanWindow(infos, entries, i, k, link, depth, link_k);
    }
    EndOfScan(infos, i, link, link_k);
  }

  lemma {:induction false} SkipCandidate(infos: seq<Info>, i: nat, k: nat, link: Option<Link>, kb: nat)
    requires i < |infos| && k < |infos[i].candidates| && Chosen(infos, i, k, [], 0, link, kb)
    requires infos[i].candidates[k].ages == [] || infos[i].candidates[k].overlap <= 0
    ensures Chosen(infos, i, k + 1, [], 0, link, kb)
  {
    forall k': nat, j': nat | k' < |infos[i].candidates| && Considered(infos, i, k + 1, [], 0, k', j')
      && Eligible(infos, i, infos[i].candidates[k'], j')
      ensures link.Some? && Beats(infos, i, kb, link.value.predecessor, k', j')
    {
      assert Considered(infos, i, k, [], 0, k', j');
    }
  }

  // Entries before the window are too early.
  lemma {:induction false} StartCandidate(infos: seq<Info>, i: nat, k: nat, entries: seq<Entry>, p: nat, link: Option<Link>, kb: nat)
    requires i < |infos| && k < |infos[i].candidates| && p <= |entries|
    requires infos[i].candidates[k].ages != []
    requires forall e :: e in entries ==> 0 <= e.index < |infos| && e == EntryOf(infos, e.index)
    requires forall a :: 0 <= a < p ==>
               entries[a].Less(Entry(Target(infos[i], infos[i].candidates[k]) - LINK_TOLERANCE, -1))
    requires Chosen(infos, i, k, [], 0, link, kb)
    ensures Chosen(infos, i, k, entries, p, link, kb)
  {
    forall k': nat, j': nat | k' < |infos[i].candidates| && Considered(infos, i, k, entries, p, k', j')
      && Eligible(infos, i, infos[i].candidates[k'], j')
      ensures Considered(infos, i, k, [], 0, k', j')
    {
      if k' == k {
        assert false;
      }
    }
  }

  // Entries after the window are too late, and there are no others.
  lemma {:induction false} FinishCandidate(infos: seq<Info>, i: nat, k: nat, entries: seq<Entry>, p: nat, link: Option<Link>, kb: nat)
    requires i < |infos| && k < |infos[i].candidates| && p <= |entries|
    requires infos[i].candidates[k].ages != []
    requires EntriesOf(infos, (infos[i].container, infos[i].candidates[k].upstream), entries)
    requires p < |entries| ==> entries[p].finish > Target(infos[i], infos[i].candidates[k]) + LINK_TOLERANCE
    requires Chosen(infos, i, k, entries, p, link, kb)
    ensures Chosen(infos, i, k + 1, [], 0, link, kb)
  {
    forall k': nat, j': nat | k' < |infos[i].candidates| && Considered(infos, i, k + 1, [], 0, k', j')
      && Eligible(infos, i, infos[i].candidates[k'], j')
      ensures Considered(infos, i, k, entries, p, k', j')
    {
      if k' == k {
        assert KeyOf(infos[j']) == (infos[i].container, infos[i].candidates[k].upstream);
        var a :| 0 <= a < |entries| && entries[a] == EntryOf(infos, j');
        assert entries[..p][a] == entries[a];
      }
    }
  }

  lemma {:induction false} EndOfScan(infos: seq<Info>, i: nat, link: Option<Link>, kb: nat)
    requires i < |infos| && Chosen(infos, i, |infos[i].candidates|, [], 0, link, kb)
    ensures IsBestLink(infos, i, link)
  {
    assert forall k': nat, j': nat :: k' < |infos[i].candidates| ==>
      Considered(infos, i, |infos[i].candidates|, [], 0, k', j');
    if link.Some? { assert BestVia(infos, i, kb, link.value); }
  }

  // ----- Chains

  // A link always points to a request that finished before this one started.
  ghost predicate Backward(infos: seq<Info>, links: seq<Option<Link>>) {
    && |links| == |infos|
    && forall i :: 0 <= i < |links| && links[i].Some? ==>
         links[i].value.predecessor < |infos| && infos[links[i].value.predecessor].finish <= infos[i].start
  }

  predicate Timed(infos: seq<Info>) {
    forall i :: 0 <= i < |infos| ==> infos[i].start < infos[i].finish
  }

  lemma {:induction false} BestLinksAreBackward(infos: seq<Info>, links: seq<Option<Link>>)
    requires |links| == |infos| && forall i :: 0 <= i < |links| ==> IsBestLink(infos, i, links[i])
    ensures Backward(infos, links)
  {
    forall i | 0 <= i < |links| && links[i].Some?
      ensures links[i].value.predecessor < |infos| && infos[links[i].value.predecessor].finish <= infos[i].start
    {
      var k :| BestVia(infos, i, k, links[i].value);
    }
  }

  // A walk along links, each step from a turn to its predecessor.
  ghost predicate Walk(links: seq<Option<Link>>, path: seq<nat>) {
    && path != []
    && (forall p :: 0 <= p < |path| ==> path[p] < |links|)
    && (forall p :: 0 <= p < |path| - 1 ==> links[path[p]].Some? && links[path[p]].value.predecessor == path[p + 1])
  }

  // Every walk goes strictly back in time, so links are acyclic.
  lemma {:induction false} WalksGoBack(infos: seq<Info>, links: seq<Option<Link>>, path: seq<nat>)
    requires Backward(infos, links) && Timed(infos) && Walk(links, path) && |path| > 1
    ensures infos[path[|path| - 1]].start < infos[path[0]].start
    ensures path[|path| - 1] != path[0]
  {
    var rest := path[1..];
    assert links[path[0]].value.predecessor == path[1];
    assert infos[path[1]].start < infos[path[0]].start;
    if |rest| > 1 {
      forall p | 0 <= p < |rest| - 1
        ensures links[rest[p]].Some? && links[rest[p]].value.predecessor == rest[p + 1]
      {
        assert rest[p] == path[p + 1] && rest[p + 1] == path[p + 2];
      }
      WalksGoBack(infos, links, rest);
    }
  }

  // Without 0 < duration two turns of the same millisecond can link to each other.
  lemma {:induction false} InstantTurnsCanCycle()
    ensures exists infos: seq<Info>, links: seq<Option<Link>> ::
              && |infos| == |links| == 2
              && (forall i :: 0 <= i < 2 ==> infos[i].start <= infos[i].finish && IsBestLink(infos, i, links[i]))
              && Walk(links, [0, 1, 0])
  {
    var c := Candidate(0, 1, [AgeRun(1, 0)]);
    var turn := Info("lb", 5, 5, 0, 1.0, 0.0, 0.0, 1, 0, 1, [c]);
    var infos := [turn, turn];
    var links := [Some(Link(1, 0, 0)), Some(Link(0, 0, 0))];
    assert BestVia(infos, 0, 0, Link(1, 0, 0)) by {
      assert LinkFor(infos, 0, 0, Link(1, 0, 0));
    }
    assert BestVia(infos, 1, 0, Link(0, 0, 0)) by {
      assert LinkFor(infos, 1, 0, Link(0, 0, 0));
    }
    assert forall i :: 0 <= i < 2 ==> infos[i].start <= infos[i].finish && IsBestLink(infos, i, links[i]);
    assert Walk(links, [0, 1, 0]);
  }

  // No turn finishes before it starts.
  predicate Proper(infos: seq<Info>) {
    forall i :: 0 <= i < |infos| ==> infos[i].start <= infos[i].finish
  }

  // Starts never grow along a walk.
  lemma {:induction false} WalkSteps(infos: seq<Info>, links: seq<Option<Link>>, path: seq<nat>, p: nat, q: nat)
    requires Backward(infos, links) && Proper(infos) && Walk(links, path) && p <= q < |path|
    ensures infos[path[q]].start <= infos[path[p]].start
    ensures p < q ==> infos[path[q]].finish <= infos[path[p]].start
    decreases q - p
  {
    if p < q {
      WalkSteps(infos, links, path, p, q - 1);
      assert links[path[q - 1]].value.predecessor == path[q - 1 + 1];
    }
  }

  // Links run in a circle only through turns that start and finish at one instant.
  lemma {:induction false} ClosedWalksAreInstant(infos: seq<Info>, links: seq<Option<Link>>, path: seq<nat>, p: nat)
    requires Backward(infos, links) && Proper(infos) && Walk(links, path)
    requires |path| > 1 && path[0] == path[|path| - 1] && p < |path|
    ensures infos[path[p]].start == infos[path[p]].finish == infos[path[0]].start
  {
    var last := |path| - 1;
    WalkSteps(infos, links, path, 0, last);
    WalkSteps(infos, links, path, 0, p);
    WalkSteps(infos, links, path, p, last);
  }

  function EarliestStart(infos: seq<Info>): (t: int)
    ensures forall i :: 0 <= i < |infos| ==> t <= infos[i].start
  {
    if infos == [] then 0
    else if |infos| == 1 then infos[0].start
    else Min(EarliestStart(infos[..|infos| - 1]), infos[|infos| - 1].start)
  }

  // The order in which turns are settled: by start, then by place in the list.
  predicate Earlier(infos: seq<Info>, p: nat, i: nat)
    requires p < |infos| && i < |infos|
  {
    infos[p].start < infos[i].start || (infos[p].start == infos[i].start && p < i)
  }

  // What the program computes for every list: a predecessor not settled yet, or with
  // a chain start of zero, counts with its own start.
  ghost function ChainStart(infos: seq<Info>, links: seq<Option<Link>>, i: nat): int
    requires Backward(infos, links) && i < |infos|
    decreases infos[i].start - EarliestStart(infos), i
  {
    if links[i].None? then infos[i].start
    else
      var p := links[i].value.predecessor;
      if Earlier(infos, p, i) && ChainStart(infos, links, p) != 0 then ChainStart(infos, links, p) else infos[p].start
  }

  // How far back the program follows a turn: to the root, or to the first turn whose
  // predecessor is settled later.
  ghost function Anchor(infos: seq<Info>, links: seq<Option<Link>>, i: nat): (a: nat)
    requires Backward(infos, links) && i < |infos|
    ensures a < |infos| && infos[a].start <= infos[i].start
    ensures links[a].Some? ==> !Earlier(infos, links[a].value.predecessor, a)
    decreases infos[i].start - EarliestStart(infos), i
  {
    if links[i].Some? && Earlier(infos, links[i].value.predecessor, i)
    then Anchor(infos, links, links[i].value.predecessor) else i
  }

  // The chain start is the anchor's start, except that a chain anchored at time zero
  // is right only while the predecessor starts at zero too.
  lemma {:induction false} ChainStartIsAnchor(infos: seq<Info>, links: seq<Option<Link>>, i: nat)
    requires Backward(infos, links) && Proper(infos) && i < |infos|
    ensures var start := infos[Anchor(infos, links, i)].start;
            && (ChainStart(infos, links, i) == start <==>
                start != 0 || i == Anchor(infos, links, i) || infos[links[i].value.predecessor].start == 0)
            && (start == 0 ==> ChainStart(infos, links, i) >= 0)
    decreases infos[i].start - EarliestStart(infos), i
  {
    if links[i].Some? {
      var p := links[i].value.predecessor;
      if Earlier(infos, p, i) { ChainStartIsAnchor(infos, links, p); }
    }
  }

  // Every turn on the way is settled after its predecessor.
  ghost predicate Orderly(infos: seq<Info>, links: seq<Option<Link>>, path: seq<nat>)
    requires Backward(infos, links) && Walk(links, path)
  {
    forall p :: 0 <= p < |path| - 1 ==> Earlier(infos, path[p + 1], path[p])
  }

  // A walk from a turn to a root.
  ghost predicate ToRoot(links: seq<Option<Link>>, path: seq<nat>, i: nat) {
    Walk(links, path) && path[0] == i && links[path[|path| - 1]].None?
  }

  lemma {:induction false} WalkRest(links: seq<Option<Link>>, path: seq<nat>)
    requires Walk(links, path) && |path| > 1
    ensures Walk(links, path[1..]) && links[path[0]].Some? && links[path[0]].value.predecessor == path[1]
  {
    var rest := path[1..];
    assert links[path[0]].value.predecessor == path[0 + 1];
    forall p | 0 <= p < |rest| - 1
      ensures links[rest[p]].Some? && links[rest[p]].value.predecessor == rest[p + 1]
    {
      assert rest[p] == path[p + 1] && rest[p + 1] == path[p + 1 + 1];
    }
  }

  // On an orderly walk the anchor is the root; on any other the anchor lies on the
  // walk, no earlier than the root.
  lemma {:induction false} AnchorOnWalk(infos: seq<Info>, links: seq<Option<Link>>, path: seq<nat>, i: nat)
    requires Backward(infos, links) && Proper(infos) && ToRoot(links, path, i)
    ensures var root, anchor := path[|path| - 1], Anchor(infos, links, i);
            && infos[root].start <= infos[anchor].start
            && (Orderly(infos, links, path) ==> anchor == root)
    decreases |path|
  {
    if |path| > 1 {
      WalkRest(links, path);
      WalkSteps(infos, links, path, 0, |path| - 1);
      var rest, p := path[1..], path[1];
      AnchorOnWalk(infos, links, rest, p);
      if Orderly(infos, links, path) {
        assert Earlier(infos, path[0 + 1], path[0]);
        forall q | 0 <= q < |rest| - 1
          ensures Earlier(infos, rest[q + 1], rest[q])
        {
          assert rest[q] == path[q + 1] && rest[q + 1] == path[q + 1 + 1];
        }
      }
    }
  }

  // For every turn whose links lead to a root: the chain start is the root's start if
  // and only if the anchor starts with the root and, where that is time zero, so does
  // the predecessor.
  lemma {:induction false} ChainStartIsRoot(infos: seq<Info>, links: seq<Option<Link>>, path: seq<nat>, i: nat)
    requires Backward(infos, links) && Proper(infos) && i < |infos| && ToRoot(links, path, i)
    ensures var root := infos[path[|path| - 1]].start;
            ChainStart(infos, links, i) == root <==>
              && infos[Anchor(infos, links, i)].start == root
              && (root != 0 || |path| == 1 || infos[path[1]].start == 0)
  {
    AnchorOnWalk(infos, links, path, i);
    ChainStartIsAnchor(infos, links, i);
    ChainStartBounds(infos, links, i);
    if |path| > 1 {
      WalkRest(links, path);
      WalkSteps(infos, links, path, 1, |path| - 1);
    }
  }

  // The chain start never precedes the anchor, and is the anchor's start unless that
  // is zero.
  lemma {:induction false} ChainStartBounds(infos: seq<Info>, links: seq<Option<Link>>, i: nat)
    requires Backward(infos, links) && Proper(infos) && i < |infos|
    ensures ChainStart(infos, links, i) >= infos[Anchor(infos, links, i)].start
    decreases infos[i].start - EarliestStart(infos), i
  {
    if links[i].Some? {
      var p := links[i].value.predecessor;
      if Earlier(infos, p, i) {
        ChainStartBounds(infos, links, p);
        ChainStartIsAnchor(infos, links, p);
      }
    }
  }

  // Requests as pairing lists them: by finish within a container.
  predicate ByFinish(infos: seq<Info>) {
    forall i, j :: 0 <= i < j < |infos| && infos[i].container == infos[j].container ==> infos[i].finish <= infos[j].finish
  }

  predicate SameContainer(infos: seq<Info>, links: seq<Option<Link>>) {
    |links| == |infos| && forall i :: 0 <= i < |links| && links[i].Some? && links[i].value.predecessor < |infos| ==>
      infos[links[i].value.predecessor].container == infos[i].container
  }

  // Two turns that start and finish in the same millisecond.
  predicate SameInstant(infos: seq<Info>, p: nat, i: nat)
    requires p < |infos| && i < |infos|
  {
    infos[p].start == infos[p].finish == infos[i].start == infos[i].finish
  }

  // In pairing's order a predecessor is settled first unless both turns are instants
  // of the same millisecond.
  lemma {:induction false} StepIsEarlier(infos: seq<Info>, links: seq<Option<Link>>, i: nat)
    requires Backward(infos, links) && Proper(infos) && ByFinish(infos) && SameContainer(infos, links)
    requires i < |infos| && links[i].Some?
    ensures Earlier(infos, links[i].value.predecessor, i) || SameInstant(infos, links[i].value.predecessor, i)
  {
    var p := links[i].value.predecessor;
    if i < p { assert infos[i].finish <= infos[p].finish; }
  }

  lemma {:induction false} BestLinksShareContainer(infos: seq<Info>, links: seq<Option<Link>>)
    requires |links| == |infos| && forall i :: 0 <= i < |links| ==> IsBestLink(infos, i, links[i])
    ensures SameContainer(infos, links)
  {
    forall i | 0 <= i < |links| && links[i].Some? && links[i].value.predecessor < |infos|
      ensures infos[links[i].value.predecessor].container == infos[i].container
    {
      var k :| BestVia(infos, i, k, links[i].value);
    }
  }

  // So a turn on whose walk no link joins two such instants gets the root's start,
  // unless that is time zero.
  lemma {:induction false} ChainStartOfWalk(infos: seq<Info>, links: seq<Option<Link>>, path: seq<nat>, i: nat)
    requires Backward(infos, links) && Proper(infos) && ByFinish(infos) && SameContainer(infos, links)
    requires i < |infos| && ToRoot(links, path, i)
    requires forall p :: 0 <= p < |path| - 1 ==> !SameInstant(infos, path[p + 1], path[p])
    ensures var root := infos[path[|path| - 1]].start;
            ChainStart(infos, links, i) == root <==> root != 0 || |path| == 1 || infos[path[1]].start == 0
  {
    forall p | 0 <= p < |path| - 1
      ensures Earlier(infos, path[p + 1], path[p])
    {
      StepIsEarlier(infos, links, path[p]);
    }
    AnchorOnWalk(infos, links, path, i);
    ChainStartIsRoot(infos, links, path, i);
  }

  // A request whose one candidate has one eligible predecessor links to it.
  lemma {:induction false} OnlyPredecessor(infos: seq<Info>, i: nat, j: nat)
    requires i < |infos| && |infos[i].candidates| == 1 && Eligible(infos, i, infos[i].candidates[0], j)
    requires forall k: nat :: Eligible(infos, i, infos[i].candidates[0], k) ==> k == j
    ensures var c := infos[i].candidates[0];
            IsBestLink(infos, i, Some(Link(j, c.upstream, c.ages[|c.ages| - 1].age)))
  {
    var c := infos[i].candidates[0];
    assert BestVia(infos, i, 0, Link(j, c.upstream, c.ages[|c.ages| - 1].age));
  }

  function At(start: int, finish: int, upstream: nat, candidates: seq<Candidate>): Info {
    Info("lb", start, finish, upstream, 1.0, 0.0, 0.0, 1, 0, 1, candidates)
  }

  // A root and two later turns, with their links; the root is not a continuation.
  predicate ThreeTurns(infos: seq<Info>, links: seq<Option<Link>>) {
    |infos| == |links| == 3 && infos[0].candidates == [] && links[0] == None
  }

  lemma {:induction false} ThreeBestLinks(infos: seq<Info>, links: seq<Option<Link>>, a: nat, b: nat)
    requires ThreeTurns(infos, links) && |infos[1].candidates| == |infos[2].candidates| == 1
    requires Eligible(infos, 1, infos[1].candidates[0], a) && Eligible(infos, 2, infos[2].candidates[0], b)
    requires forall k: nat :: Eligible(infos, 1, infos[1].candidates[0], k) ==> k == a
    requires forall k: nat :: Eligible(infos, 2, infos[2].candidates[0], k) ==> k == b
    requires var c := infos[1].candidates[0]; links[1] == Some(Link(a, c.upstream, c.ages[|c.ages| - 1].age))
    requires var c := infos[2].candidates[0]; links[2] == Some(Link(b, c.upstream, c.ages[|c.ages| - 1].age))
    ensures forall i :: 0 <= i < 3 ==> IsBestLink(infos, i, links[i])
    ensures Backward(infos, links)
  {
    OnlyPredecessor(infos, 1, a);
    OnlyPredecessor(infos, 2, b);
    forall i | 0 <= i < 3
      ensures IsBestLink(infos, i, links[i])
    {
      if i == 0 { assert IsBestLink(infos, 0, None); }
    }
    BestLinksAreBackward(infos, links);
  }

  // Links as linking sets them, in pairing's order, whose walk from turn i leads to a root
  // with another start than the one computed for i.
  ghost predicate LosesRoot(infos: seq<Info>, links: seq<Option<Link>>, path: seq<nat>, i: nat) {
    && |links| == |infos| && i < |infos| && (forall k :: 0 <= k < |infos| ==> IsBestLink(infos, k, links[k]))
    && Backward(infos, links) && Proper(infos) && ByFinish(infos) && ToRoot(links, path, i)
    && ChainStart(infos, links, i) != infos[path[|path| - 1]].start
  }

  // Three turns of a conversation that starts at time zero: the third takes the
  // second one's start.
  lemma {:induction false} ZeroRootIsLost()
    ensures exists infos: seq<Info>, links: seq<Option<Link>> ::
              |infos| == 3 && infos[0].start == 0 && Timed(infos) && LosesRoot(infos, links, [2, 1, 0], 2)
  {
    hide IsBestLink;
    var c := Candidate(0, 1, [AgeRun(1, 9)]);
    var infos := [At(0, 1, 0, []), At(10, 11, 0, [c]), At(20, 21, 0, [c])];
    var links := [None, Some(Link(0, 0, 9)), Some(Link(1, 0, 9))];
    ThreeBestLinks(infos, links, 0, 1);
    assert ChainStart(infos, links, 0) == 0;
    assert ChainStart(infos, links, 1) == 0;
    assert ChainStart(infos, links, 2) == infos[1].start;
    assert LosesRoot(infos, links, [2, 1, 0], 2);
  }

  // A root and two turns of one later millisecond, the continuation listed first: it
  // takes its predecessor's start, not the root's.
  lemma {:induction false} InstantRootIsLost()
    ensures exists infos: seq<Info>, links: seq<Option<Link>> ::
              |infos| == 3 && infos[0].start == 1 && SameInstant(infos, 2, 1) && LosesRoot(infos, links, [1, 2, 0], 1)
  {
    hide IsBestLink, ChainStart, Eligible, Walk;
    var near, far := Candidate(1, 1, [AgeRun(1, 0)]), Candidate(0, 1, [AgeRun(1, 6)]);
    var infos := [At(1, 4, 0, []), At(10, 10, 2, [near]), At(10, 10, 1, [far])];
    var links := [None, Some(Link(2, 1, 0)), Some(Link(0, 0, 6))];
    assert Eligible(infos, 1, near, 2) && forall k: nat :: Eligible(infos, 1, near, k) ==> k == 2 by { OnlyOn(infos, 1, near, 2); }
    assert Eligible(infos, 2, far, 0) && forall k: nat :: Eligible(infos, 2, far, k) ==> k == 0 by { OnlyOn(infos, 2, far, 0); }
    ThreeBestLinks(infos, links, 2, 0);
    ListedFirst(infos, links, 1);
    assert ToRoot(links, [1, 2, 0], 1) by { TwoSteps(links, 1, 2, 0); }
    assert LosesRoot(infos, links, [1, 2, 0], 1);
  }

  // A candidate whose upstream served one request, at the right time, has that one eligible.
  lemma {:induction false} OnlyOn(infos: seq<Info>, i: nat, c: Candidate, j: nat)
    requires i < |infos| && j < |infos| && i != j && c.ages != [] && c.overlap > 0 && infos[j].totalBlocks == 1
    requires infos[j].container == infos[i].container && infos[j].finish == Target(infos[i], c)
    requires forall k :: 0 <= k < |infos| ==> (infos[k].upstream == c.upstream <==> k == j)
    ensures Eligible(infos, i, c, j) && forall k: nat :: Eligible(infos, i, c, k) ==> k == j
  {}

  lemma {:induction false} TwoSteps(links: seq<Option<Link>>, a: nat, b: nat, root: nat)
    requires a < |links| && b < |links| && root < |links| && links[root].None?
    requires links[a].Some? && links[a].value.predecessor == b && links[b].Some? && links[b].value.predecessor == root
    ensures ToRoot(links, [a, b, root], a)
  {}

  // A turn settled before its predecessor takes the predecessor's own start.
  lemma {:induction false} ListedFirst(infos: seq<Info>, links: seq<Option<Link>>, i: nat)
    requires Backward(infos, links) && i < |infos| && links[i].Some? && !Earlier(infos, links[i].value.predecessor, i)
    ensures ChainStart(infos, links, i) == infos[links[i].value.predecessor].start
  {}

  // ----- link_turns

  // A request while it is being analysed: linking fills in the last three fields.
  class Request {
    const info: Info
    var link: Option<Link>
    var chainStart: int
    var consumed: Option<int>

    constructor (info: Info)
      ensures this.info == info && link == None && chainStart == 0 && consumed == None
    {
      this.info := info;
      link, chainStart, consumed := None, 0, None;
    }

    function View(): Turn
      reads this
    {
      Turn(info, link, consumed)
    }
  }

  predicate Distinct(requests: seq<Request>) {
    forall i, j :: 0 <= i < j < |requests| ==> requests[i] != requests[j]
  }

  function InfosOf(requests: seq<Request>): (infos: seq<Info>)
    ensures |infos| == |requests| && forall i :: 0 <= i < |infos| ==> infos[i] == requests[i].info
  {
    seq(|requests|, i requires 0 <= i < |requests| => requests[i].info)
  }

  function LinksOf(requests: seq<Request>): (links: seq<Option<Link>>)
    reads requests
    ensures |links| == |requests| && forall i :: 0 <= i < |links| ==> links[i] == requests[i].link
  {
    seq(|requests|, i requires 0 <= i < |requests| reads requests => requests[i].link)
  }

  predicate Continues(links: seq<Option<Link>>, i: nat, j: nat)
    requires i < |links|
  {
    links[i].Some? && links[i].value.predecessor == j
  }

  // The first continuation of j among the given turns, if it has one.
  ghost predicate FirstUse(infos: seq<Info>, links: seq<Option<Link>>, turns: seq<nat>, j: nat, consumed: Option<int>)
    requires |infos| == |links| && InRange(infos, turns)
  {
    match consumed
    case None => forall a :: 0 <= a < |turns| ==> !Continues(links, turns[a], j)
    case Some(t) =>
      && (exists a :: 0 <= a < |turns| && Continues(links, turns[a], j) && infos[turns[a]].start == t)
      && (forall a :: 0 <= a < |turns| && Continues(links, turns[a], j) ==> t <= infos[turns[a]].start)
  }

  predicate InRange(infos: seq<Info>, turns: seq<nat>) {
    forall a :: 0 <= a < |turns| ==> turns[a] < |infos|
  }

  // Indices in order of start time, equal starts by place in the list.
  predicate ByStart(infos: seq<Info>, order: seq<nat>) {
    && InRange(infos, order)
    && (forall a, b :: 0 <= a < b < |order| ==> Earlier(infos, order[a], order[b]))
  }

  function InsertByStart(infos: seq<Info>, i: nat, order: seq<nat>): seq<nat>
    requires i < |infos| && InRange(infos, order)
  {
    if order == [] || infos[order[|order| - 1]].start <= infos[i].start then order + [i]
    else InsertByStart(infos, i, order[..|order| - 1]) + [order[|order| - 1]]
  }

  lemma {:induction false} InsertByStartSorts(infos: seq<Info>, i: nat, order: seq<nat>)
    requires i < |infos| && ByStart(infos, order) && forall j :: j in order ==> j < i
    ensures ByStart(infos, InsertByStart(infos, i, order))
    ensures |InsertByStart(infos, i, order)| == |order| + 1
    ensures forall j :: j in InsertByStart(infos, i, order) <==> j == i || j in order
  {
    if order != [] {
      var front, last := order[..|order| - 1], order[|order| - 1];
      assert order == front + [last] && last in order;
      if infos[i].start < infos[last].start {
        assert forall j :: j in front ==> j in order;
        InsertByStartSorts(infos, i, front);
        var s := InsertByStart(infos, i, front);
        forall a | 0 <= a < |s|
          ensures Earlier(infos, s[a], last)
        {
          assert s[a] in s;
        }
      } else {
        forall a | 0 <= a < |order|
          ensures Earlier(infos, order[a], i)
        {
          assert order[a] in order && (a < |order| - 1 ==> Earlier(infos, order[a], last));
        }
      }
    }
  }

  // The stable sort by start time.
  method OrderByStart(infos: seq<Info>) returns (order: seq<nat>)
    ensures ByStart(infos, order) && |order| == |infos|
    ensures forall i :: i in order <==> 0 <= i < |infos|
  {
    order := [];
    for i := 0 to |infos|
      invariant ByStart(infos, order) && |order| == i
      invariant forall j :: j in order <==> 0 <= j < i
    {
      InsertByStartSorts(infos, i, order);
      order := InsertByStart(infos, i, order);
    }
  }

  method AttachLinks(requests: seq<Request>)
    requires Distinct(requests) && forall i :: 0 <= i < |requests| ==> requests[i].link == None
    modifies requests`link
    ensures forall i :: 0 <= i < |requests| ==> IsBestLink(InfosOf(requests), i, requests[i].link)
  {
    var infos := InfosOf(requests);
    var finishes := IndexFinishes(infos);
    for index := 0 to |requests|
      invariant forall i :: 0 <= i < index ==> IsBestLink(infos, i, requests[i].link)
      invariant forall i :: index <= i < |requests| ==> requests[i].link == None
    {
      var best := FindLink(infos, finishes, index);
      if best.Some? { requests[index].link := best; }
    }
  }

  function ConsumedOf(requests: seq<Request>): (times: seq<Option<int>>)
    reads requests
    ensures |times| == |requests| && forall i :: 0 <= i < |times| ==> times[i] == requests[i].consumed
  {
    seq(|requests|, i requires 0 <= i < |requests| reads requests => requests[i].consumed)
  }

  // The consumption times after one more turn.
  function Consume(infos: seq<Info>, links: seq<Option<Link>>, i: nat, times: seq<Option<int>>): seq<Option<int>>
    requires |infos| == |links| == |times| && i < |infos|
    requires links[i].Some? ==> links[i].value.predecessor < |infos|
  {
    if links[i].None? then times
    else
      var j := links[i].value.predecessor;
      if times[j].None? || infos[i].start < times[j].value then times[j := Some(infos[i].start)] else times
  }

  ghost predicate FirstUses(infos: seq<Info>, links: seq<Option<Link>>, turns: seq<nat>, times: seq<Option<int>>)
    requires |infos| == |links| == |times| && InRange(infos, turns)
  {
    forall j :: 0 <= j < |times| ==> FirstUse(infos, links, turns, j, times[j])
  }

  lemma {:induction false} ConsumeStep(infos: seq<Info>, links: seq<Option<Link>>, turns: seq<nat>, i: nat, times: seq<Option<int>>)
    requires |infos| == |links| == |times| && i < |infos| && InRange(infos, turns)
    requires links[i].Some? ==> links[i].value.predecessor < |infos|
    requires FirstUses(infos, links, turns, times)
    ensures FirstUses(infos, links, turns + [i], Consume(infos, links, i, times))
  {
    var more, next := turns + [i], Consume(infos, links, i, times);
    assert more[|turns|] == i && forall a :: 0 <= a < |turns| ==> more[a] == turns[a];
    forall j | 0 <= j < |next|
      ensures FirstUse(infos, links, more, j, next[j])
    {
      assert FirstUse(infos, links, turns, j, times[j]);
      if times[j].Some? && next[j] == times[j] {
        var a :| 0 <= a < |turns| && Continues(links, turns[a], j) && infos[turns[a]].start == times[j].value;
        assert more[a] == turns[a];
      }
    }
  }

  // The earliest start among all continuations of j.
  ghost predicate FirstContinuation(infos: seq<Info>, links: seq<Option<Link>>, j: nat, consumed: Option<int>)
    requires |infos| == |links|
  {
    match consumed
    case None => forall i :: 0 <= i < |infos| ==> !Continues(links, i, j)
    case Some(t) =>
      && (exists i :: 0 <= i < |infos| && Continues(links, i, j) && infos[i].start == t)
      && (forall i :: 0 <= i < |infos| && Continues(links, i, j) ==> t <= infos[i].start)
  }

  lemma {:induction false} NothingConsumed(infos: seq<Info>, links: seq<Option<Link>>, times: seq<Option<int>>)
    requires |infos| == |links| == |times| && forall j :: 0 <= j < |times| ==> times[j] == None
    ensures FirstUses(infos, links, [], times)
  {}

  lemma {:induction false} AllTurnsSeen(infos: seq<Info>, links: seq<Option<Link>>, order: seq<nat>, times: seq<Option<int>>)
    requires |infos| == |links| == |times| && InRange(infos, order)
    requires forall i :: i in order <==> 0 <= i < |infos|
    requires FirstUses(infos, links, order, times)
    ensures forall j :: 0 <= j < |times| ==> FirstContinuation(infos, links, j, times[j])
  {
    forall j | 0 <= j < |times|
      ensures FirstContinuation(infos, links, j, times[j])
    {
      assert FirstUse(infos, links, order, j, times[j]);
      forall i | 0 <= i < |infos| && Continues(links, i, j)
        ensures exists a :: 0 <= a < |order| && order[a] == i
      {
        assert i in order;
      }
    }
  }

  // A tail is never read before it exists.
  lemma {:induction false} ConsumedAfterFinish(infos: seq<Info>, links: seq<Option<Link>>, j: nat, consumed: Option<int>)
    requires Backward(infos, links) && j < |infos| && FirstContinuation(infos, links, j, consumed)
    ensures consumed.Some? ==> infos[j].finish <= consumed.value
  {}

  // One turn of the loop: take the conversation's start from the predecessor and
  // mark the predecessor as read.
  method SettleTurn(requests: seq<Request>, i: nat)
    requires Distinct(requests) && i < |requests|
    requires requests[i].link.Some? ==> requests[i].link.value.predecessor < |requests|
    modifies requests`chainStart, requests`consumed
    ensures forall q :: 0 <= q < |requests| && q != i ==> requests[q].chainStart == old(requests[q].chainStart)
    ensures requests[i].chainStart ==
            if requests[i].link.None? then requests[i].info.start
            else
              var j := requests[i].link.value.predecessor;
              if old(requests[j].chainStart) != 0 then old(requests[j].chainStart) else requests[j].info.start
    ensures ConsumedOf(requests) == Consume(InfosOf(requests), LinksOf(requests), i, old(ConsumedOf(requests)))
  {
    var request := requests[i];
    if request.link.None? {
      request.chainStart := request.info.start;
    } else {
      var predecessor := requests[request.link.value.predecessor];
      request.chainStart := if predecessor.chainStart != 0 then predecessor.chainStart else predecessor.info.start;
      if predecessor.consumed.None? || request.info.start < predecessor.consumed.value {
        predecessor.consumed := Some(request.info.start);
      }
    }
  }

  // What the turns settled so far have, and the others have not.
  ghost predicate Settled(infos: seq<Info>, links: seq<Option<Link>>, order: seq<nat>, p: nat, starts: seq<int>)
    requires Backward(infos, links) && InRange(infos, order) && p <= |order| && |starts| == |infos|
  {
    && (forall q :: 0 <= q < p ==> starts[order[q]] == ChainStart(infos, links, order[q]))
    && (forall q :: p <= q < |order| ==> starts[order[q]] == 0)
  }

  function StartsOf(requests: seq<Request>): (starts: seq<int>)
    reads requests
    ensures |starts| == |requests| && forall i :: 0 <= i < |starts| ==> starts[i] == requests[i].chainStart
  {
    seq(|requests|, i requires 0 <= i < |requests| reads requests => requests[i].chainStart)
  }

  // Settling the next turn gives it its chain start.
  lemma {:induction false} SettleStep(infos: seq<Info>, links: seq<Option<Link>>, order: seq<nat>, p: nat, starts: seq<int>, next: seq<int>)
    requires Backward(infos, links) && ByStart(infos, order) && p < |order| && |starts| == |next| == |infos|
    requires forall i :: i in order <==> 0 <= i < |infos|
    requires Settled(infos, links, order, p, starts)
    requires forall q :: 0 <= q < |next| && q != order[p] ==> next[q] == starts[q]
    requires next[order[p]] == if links[order[p]].None? then infos[order[p]].start
                               else
                                 var j := links[order[p]].value.predecessor;
                                 if starts[j] != 0 then starts[j] else infos[j].start
    ensures Settled(infos, links, order, p + 1, next)
  {
    hide ChainStart;
    var i := order[p];
    forall q | 0 <= q < |order| && q != p
      ensures order[q] != i
    {
      assert Earlier(infos, order[Min(p, q)], order[Max(p, q)]);
    }
    if links[i].Some? {
      var j := links[i].value.predecessor;
      assert j in order;
      var q :| 0 <= q < |order| && order[q] == j;
      PlaceDecides(infos, order, p, q);
      ChainStartStep(infos, links, i);
    } else {
      ChainStartStep(infos, links, i);
    }
  }

  lemma {:induction false} ChainStartStep(infos: seq<Info>, links: seq<Option<Link>>, i: nat)
    requires Backward(infos, links) && i < |infos|
    ensures links[i].None? ==> ChainStart(infos, links, i) == infos[i].start
    ensures links[i].Some? ==>
              var p := links[i].value.predecessor;
              ChainStart(infos, links, i) ==
                if Earlier(infos, p, i) && ChainStart(infos, links, p) != 0 then ChainStart(infos, links, p) else infos[p].start
  {}

  // A turn comes before another in the order exactly if it is earlier.
  lemma {:induction false} PlaceDecides(infos: seq<Info>, order: seq<nat>, p: nat, q: nat)
    requires ByStart(infos, order) && p < |order| && q < |order|
    ensures q < p <==> Earlier(infos, order[q], order[p])
  {
    if p < q { assert Earlier(infos, order[p], order[q]); }
  }

  method FollowChains(requests: seq<Request>)
    requires Distinct(requests)
    requires Backward(InfosOf(requests), LinksOf(requests))
    requires forall i :: 0 <= i < |requests| ==> requests[i].consumed == None && requests[i].chainStart == 0
    modifies requests`chainStart, requests`consumed
    ensures forall i :: 0 <= i < |requests| ==>
              requests[i].chainStart == ChainStart(InfosOf(requests), LinksOf(requests), i)
    ensures forall j :: 0 <= j < |requests| ==>
              FirstContinuation(InfosOf(requests), LinksOf(requests), j, requests[j].consumed)
  {
    hide FirstUses, FirstContinuation, Consume, Settled, ChainStart, ByStart;
    var infos := InfosOf(requests);
    ghost var links := LinksOf(requests);
    var order := OrderByStart(infos);
    NothingConsumed(infos, links, ConsumedOf(requests));
    OrderInRange(infos, order);
    NothingSettled(infos, links, order, StartsOf(requests));
    for p := 0 to |order|
      invariant LinksOf(requests) == links
      invariant Settled(infos, links, order, p, StartsOf(requests))
      invariant FirstUses(infos, links, order[..p], ConsumedOf(requests))
    {
      SettleNext(requests, order, p);
    }
    assert order[..|order|] == order;
    AllTurnsSeen(infos, links, order, ConsumedOf(requests));
    AllSettled(infos, links, order, StartsOf(requests));
  }

  // Settling one turn of the order.
  method SettleNext(requests: seq<Request>, order: seq<nat>, p: nat)
    requires Distinct(requests) && Backward(InfosOf(requests), LinksOf(requests))
    requires p < |order| && ByStart(InfosOf(requests), order) && forall i :: i in order <==> 0 <= i < |requests|
    requires Settled(InfosOf(requests), LinksOf(requests), order, p, StartsOf(requests))
    requires FirstUses(InfosOf(requests), LinksOf(requests), order[..p], ConsumedOf(requests))
    modifies requests`chainStart, requests`consumed
    ensures LinksOf(requests) == old(LinksOf(requests))
    ensures Settled(InfosOf(requests), LinksOf(requests), order, p + 1, StartsOf(requests))
    ensures FirstUses(InfosOf(requests), LinksOf(requests), order[..p + 1], ConsumedOf(requests))
  {
    hide FirstUses, Consume, Settled, ChainStart, ByStart;
    ghost var infos, links, starts := InfosOf(requests), LinksOf(requests), StartsOf(requests);
    OrderInRange(infos, order);
    var i := order[p];
    assert links[i] == requests[i].link;
    ConsumeStep(infos, links, order[..p], i, ConsumedOf(requests));
    assert order[..p + 1] == order[..p] + [i];
    SettleTurn(requests, i);
    assert LinksOf(requests) == links;
    SettleStep(infos, links, order, p, starts, StartsOf(requests));
  }

  lemma {:induction false} OrderInRange(infos: seq<Info>, order: seq<nat>)
    requires ByStart(infos, order)
    ensures InRange(infos, order)
  {}

  lemma {:induction false} NothingSettled(infos: seq<Info>, links: seq<Option<Link>>, order: seq<nat>, starts: seq<int>)
    requires Backward(infos, links) && InRange(infos, order) && |starts| == |infos|
    requires forall i :: 0 <= i < |starts| ==> starts[i] == 0
    ensures Settled(infos, links, order, 0, starts)
  {}

  lemma {:induction false} AllSettled(infos: seq<Info>, links: seq<Option<Link>>, order: seq<nat>, starts: seq<int>)
    requires Backward(infos, links) && InRange(infos, order) && |starts| == |infos|
    requires forall i :: i in order <==> 0 <= i < |infos|
    requires Settled(infos, links, order, |order|, starts)
    ensures forall i :: 0 <= i < |infos| ==> starts[i] == ChainStart(infos, links, i)
  {
    hide ChainStart;
    forall i | 0 <= i < |infos|
      ensures starts[i] == ChainStart(infos, links, i)
    {
      assert i in order;
    }
  }

  // link_turns: links by a full scan's choice, conversations by their first
  // turn, tails by their first continuation.
  method LinkAll(requests: seq<Request>)
    requires Distinct(requests)
    requires forall i :: 0 <= i < |requests| ==>
               requests[i].link == None && requests[i].consumed == None && requests[i].chainStart == 0
    modifies requests
    ensures forall i :: 0 <= i < |requests| ==> IsBestLink(InfosOf(requests), i, requests[i].link)
    ensures Backward(InfosOf(requests), LinksOf(requests))
    ensures forall i :: 0 <= i < |requests| ==>
              requests[i].chainStart == ChainStart(InfosOf(requests), LinksOf(requests), i)
    ensures forall j :: 0 <= j < |requests| ==>
              FirstContinuation(InfosOf(requests), LinksOf(requests), j, requests[j].consumed)
    ensures forall j :: 0 <= j < |requests| && requests[j].consumed.Some? ==>
              requests[j].info.finish <= requests[j].consumed.value
  {
    AttachLinks(requests);
    BestLinksAreBackward(InfosOf(requests), LinksOf(requests));
    FollowChains(requests);
    forall j | 0 <= j < |requests|
      ensures requests[j].consumed.Some? ==> requests[j].info.finish <= requests[j].consumed.value
    {
      ConsumedAfterFinish(InfosOf(requests), LinksOf(requests), j, requests[j].consumed);
    }
  }
}
