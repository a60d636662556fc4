/**
 The order in which replay ranks candidates (bench/route_replay.py, compare in
 choose) and what sorting by it guarantees.
 */
module RouteOrder {

  datatype TieBreak = Overlap | LoadNeutral

  // A candidate as the comparator sees it.
  datatype Scored = Scored(upstream: nat, healthy: bool, overlap: int, load: int, score: real)

  // Position of an upstream after rotating `count` of them.
  function Rank(upstream: nat, rotation: nat, count: nat): nat
    requires count > 0
  {
    (upstream + rotation) % count
  }

  datatype Rule = Rule(tieBreak: TieBreak, rotation: nat, count: nat) {
    // -1 ranks left first, 1 ranks right first.
    function Compare(left: Scored, right: Scored): int
      requires count > 0
    {
      if left.healthy != right.healthy then (if left.healthy then -1 else 1)
      else if left.score != right.score then (if left.score > right.score then -1 else 1)
      else if left.overlap != right.overlap && (tieBreak == Overlap || left.load == right.load) then
        (if left.overlap > right.overlap then -1 else 1)
      else
        var l, r := Rank(left.upstream, rotation, count), Rank(right.upstream, rotation, count);
        if l == r then 0 else if l < r then -1 else 1
    }

    predicate Before(left: Scored, right: Scored)
      requires count > 0
    {
      Compare(left, right) < 0
    }
  }

  // Upstreams are the ordinals below count, each once.
  predicate Numbered(s: seq<Scored>, count: nat) {
    && (forall i :: 0 <= i < |s| ==> s[i].upstream < count)
    && (forall i, j :: 0 <= i < j < |s| ==> s[i].upstream != s[j].upstream)
  }

  // ----- The comparator as an order

  lemma {:induction false} MultipleIsFar(d: int, count: int)
    requires d != 0 && count >= 0
    ensures d * count >= count || d * count <= -count
  {
    if d > 0 {
      assert (d - 1) * count >= 0;
      assert d * count == (d - 1) * count + count;
    } else {
      assert (-d - 1) * count >= 0;
      assert d * count == -((-d - 1) * count) - count;
    }
  }

  lemma {:induction false} RotationKeepsApart(a: nat, b: nat, rotation: nat, count: nat)
    requires a < count && b < count
    ensures Rank(a, rotation, count) == Rank(b, rotation, count) <==> a == b
  {
    var x, y := a + rotation, b + rotation;
    if x % count == y % count && a != b {
      assert x == (x / count) * count + x % count && y == (y / count) * count + y % count;
      var d := x / count - y / count;
      assert d * count == (x / count) * count - (y / count) * count;
      MultipleIsFar(d, count);
      assert false;
    }
  }

  lemma {:induction false} Antisymmetric(rule: Rule, a: Scored, b: Scored)
    requires rule.count > 0
    ensures rule.Compare(a, b) == -rule.Compare(b, a)
  {}

  // Distinct upstreams are always ranked one way or the other.
  lemma {:induction false} Total(rule: Rule, a: Scored, b: Scored)
    requires a.upstream < rule.count && b.upstream < rule.count && a.upstream != b.upstream
    ensures rule.Before(a, b) || rule.Before(b, a)
    ensures !(rule.Before(a, b) && rule.Before(b, a))
  {
    RotationKeepsApart(a.upstream, b.upstream, rule.rotation, rule.count);
  }

  lemma {:induction false} OverlapTransitive(rule: Rule, a: Scored, b: Scored, c: Scored)
    requires rule.count > 0 && rule.tieBreak == Overlap
    requires rule.Before(a, b) && rule.Before(b, c)
    ensures rule.Before(a, c)
  {}

  predicate Tied(a: Scored, b: Scored) { a.healthy == b.healthy && a.score == b.score }

  // Two equally loaded candidates whose overlap order contradicts their rotation
  // order, with a differently loaded one between them.
  predicate Straddles(rule: Rule, a: Scored, b: Scored, c: Scored)
    requires rule.count > 0
  {
    && Tied(a, b) && Tied(b, c)
    && a.load == b.load && c.load != a.load
    && a.overlap > b.overlap
    && Rank(b.upstream, rule.rotation, rule.count)
       < Rank(c.upstream, rule.rotation, rule.count)
       < Rank(a.upstream, rule.rotation, rule.count)
  }

  ghost predicate Cycle(rule: Rule, a: Scored, b: Scored, c: Scored)
    requires rule.count > 0
  {
    rule.Before(a, b) && rule.Before(b, c) && rule.Before(c, a)
  }

  // The load-neutral rule runs in a circle exactly on straddling triples.
  lemma {:induction false} LoadNeutralCycles(rule: Rule, a: Scored, b: Scored, c: Scored)
    requires rule.count > 0 && rule.tieBreak == LoadNeutral
    ensures Cycle(rule, a, b, c) <==>
            Straddles(rule, a, b, c) || Straddles(rule, b, c, a) || Straddles(rule, c, a, b)
  {}

  // Such triples exist: cap 8, alpha 1, (overlap, load) = (10, 2), (9, 2), (7, 1).
  lemma {:induction false} LoadNeutralIsNotAnOrder()
    ensures var rule := Rule(LoadNeutral, 0, 3);
            Cycle(rule, Scored(2, true, 10, 2, 6.0), Scored(0, true, 9, 2, 6.0), Scored(1, true, 7, 1, 6.0))
  {}

  ghost predicate Acyclic(rule: Rule, s: seq<Scored>)
    requires rule.count > 0
  {
    forall a, b, c :: a in s && b in s && c in s ==> !Straddles(rule, a, b, c)
  }

  // ----- Sorting

  // What a comparison sort leaves behind even when the comparator is not
  // transitive: no neighbours in the wrong order.
  predicate Settled(rule: Rule, s: seq<Scored>)
    requires rule.count > 0
  {
    forall i :: 0 <= i < |s| - 1 ==> !rule.Before(s[i + 1], s[i])
  }

  lemma {:induction false} InsertSettles(rule: Rule, s: seq<Scored>, x: Scored, at: nat)
    requires rule.count > 0 && Settled(rule, s) && at <= |s|
    requires at > 0 ==> !rule.Before(x, s[at - 1])
    requires at < |s| ==> !rule.Before(s[at], x)
    ensures Settled(rule, s[..at] + [x] + s[at..])
  {
    hide Rule.Compare;
    var r := s[..at] + [x] + s[at..];
    forall i | 0 <= i < |r| - 1
      ensures !rule.Before(r[i + 1], r[i])
    {
      if i + 1 < at {
        assert !rule.Before(s[i + 1], s[i]);
      } else if i > at {
        assert !rule.Before(s[i - 1 + 1], s[i - 1]);
      }
    }
  }

  // Insert by binary search, as list.sort does for short lists.
  method BinaryInsert(rule: Rule, s: seq<Scored>, x: Scored) returns (r: seq<Scored>)
    requires rule.count > 0 && Settled(rule, s)
    ensures Settled(rule, r) && multiset(r) == multiset(s) + multiset{x}
  {
    hide Rule.Compare;
    var low, high := 0, |s|;
    while low < high
      invariant 0 <= low <= high <= |s|
      invariant low > 0 ==> !rule.Before(x, s[low - 1])
      invariant high < |s| ==> rule.Before(x, s[high])
    {
      var mid := (low + high) / 2;
      if rule.Before(x, s[mid]) { high := mid; } else { low := mid + 1; }
    }
    r := s[..low] + [x] + s[low..];
    if low < |s| { Antisymmetric(rule, x, s[low]); }
    InsertSettles(rule, s, x, low);
    InsertCounts(s, x, low);
  }

  lemma {:induction false} InsertCounts(s: seq<Scored>, x: Scored, at: nat)
    requires at <= |s|
    ensures multiset(s[..at] + [x] + s[at..]) == multiset(s) + multiset{x}
  {
    assert s == s[..at] + s[at..];
  }

  method SortCandidates(rule: Rule, candidates: seq<Scored>) returns (s: seq<Scored>)
    requires rule.count > 0
    ensures Settled(rule, s) && multiset(s) == multiset(candidates)
  {
    s := [];
    for i := 0 to |candidates|
      invariant Settled(rule, s) && multiset(s) == multiset(candidates[..i])
    {
      s := BinaryInsert(rule, s, candidates[i]);
      assert candidates[..i + 1] == candidates[..i] + [candidates[i]];
    }
    assert candidates[..|candidates|] == candidates;
  }

  // Health first, then score, never increases along a settled list.
  lemma {:induction false} HeadIsBest(rule: Rule, s: seq<Scored>, i: nat)
    requires rule.count > 0 && Settled(rule, s) && i < |s|
    ensures s[i].healthy ==> s[0].healthy
    ensures s[i].healthy == s[0].healthy ==> s[i].score <= s[0].score
  {
    if i > 0 {
      HeadIsBest(rule, s, i - 1);
      assert !rule.Before(s[i - 1 + 1], s[i - 1]);
    }
  }

  // With a transitive rule the head comes before everything else.
  ghost predicate Transitive(rule: Rule, s: seq<Scored>)
    requires rule.count > 0
  {
    forall a, b, c :: a in s && b in s && c in s && rule.Before(a, b) && rule.Before(b, c) ==> rule.Before(a, c)
  }

  lemma {:induction false} HeadIsFirst(rule: Rule, s: seq<Scored>, i: nat)
    requires rule.count > 0 && Settled(rule, s) && 0 < i < |s|
    requires Numbered(s, rule.count) && Transitive(rule, s)
    ensures rule.Before(s[0], s[i])
  {
    assert !rule.Before(s[i - 1 + 1], s[i - 1]);
    Total(rule, s[i - 1], s[i]);
    if i > 1 {
      HeadIsFirst(rule, s, i - 1);
      assert s[0] in s && s[i - 1] in s && s[i] in s;
    }
  }

  // The overlap rule is a strict total order on numbered candidates, and so is
  // the load-neutral rule when nothing straddles.
  lemma {:induction false} RuleIsTransitive(rule: Rule, s: seq<Scored>)
    requires rule.count > 0 && Numbered(s, rule.count)
    requires rule.tieBreak == Overlap || Acyclic(rule, s)
    ensures Transitive(rule, s)
  {
    forall a, b, c | a in s && b in s && c in s && rule.Before(a, b) && rule.Before(b, c)
      ensures rule.Before(a, c)
    {
      if rule.tieBreak == Overlap {
        OverlapTransitive(rule, a, b, c);
      } else {
        LoadNeutralCycles(rule, a, b, c);
        RotationKeepsApart(a.upstream, c.upstream, rule.rotation, rule.count);
        if a.upstream == c.upstream {
          var i, j :| 0 <= i < |s| && 0 <= j < |s| && s[i] == a && s[j] == c;
          assert a == c;
          Antisymmetric(rule, a, b);
          assert false;
        }
      }
    }
  }

  // Conversely a straddling triple breaks transitivity.
  lemma {:induction false} StraddlingIsNotTransitive(rule: Rule, s: seq<Scored>)
    requires rule.count > 0 && rule.tieBreak == LoadNeutral && !Acyclic(rule, s)
    ensures !Transitive(rule, s)
  {
    hide Rank;
    var a, b, c :| a in s && b in s && c in s && Straddles(rule, a, b, c);
    LoadNeutralCycles(rule, a, b, c);
    Antisymmetric(rule, a, c);
    assert rule.Before(a, b) && rule.Before(b, c) && !rule.Before(a, c);
  }

  // Worse health or, at equal health, a lower score.
  predicate Below(y: Scored, x: Scored) {
    (x.healthy && !y.healthy) || (x.healthy == y.healthy && y.score < x.score)
  }

  // Every list can be settled.
  lemma {:induction false} Arrange(rule: Rule, s: seq<Scored>) returns (t: seq<Scored>)
    requires rule.count > 0
    ensures Settled(rule, t) && multiset(t) == multiset(s)
  {
    if s == [] {
      t := [];
    } else {
      t := Arrange(rule, s[1..]);
      t := Slot(rule, s[0], t);
      assert s == [s[0]] + s[1..];
    }
  }

  lemma {:induction false} Slot(rule: Rule, x: Scored, s: seq<Scored>) returns (t: seq<Scored>)
    requires rule.count > 0 && Settled(rule, s)
    ensures Settled(rule, t) && multiset(t) == multiset(s) + multiset{x}
    ensures t != [] && (t[0] == x || (s != [] && t[0] == s[0]))
  {
    hide Rule.Compare;
    if s == [] || !rule.Before(s[0], x) {
      t := Prepend(rule, x, s);
    } else {
      var rest := s[1..];
      forall i | 0 <= i < |rest| - 1
        ensures !rule.Before(rest[i + 1], rest[i])
      {
        assert rest[i] == s[i + 1] && rest[i + 1] == s[i + 1 + 1];
      }
      t := Slot(rule, x, rest);
      Antisymmetric(rule, s[0], x);
      assert rest != [] ==> !rule.Before(s[0 + 1], s[0]);
      t := Prepend(rule, s[0], t);
      assert s == [s[0]] + rest;
    }
  }

  lemma {:induction false} Prepend(rule: Rule, x: Scored, s: seq<Scored>) returns (t: seq<Scored>)
    requires rule.count > 0 && Settled(rule, s) && (s != [] ==> !rule.Before(s[0], x))
    ensures t == [x] + s && Settled(rule, t) && multiset(t) == multiset(s) + multiset{x}
  {
    hide Rule.Compare;
    t := [x] + s;
    forall i | 0 <= i < |t| - 1
      ensures !rule.Before(t[i + 1], t[i])
    {
      if i > 0 { assert t[i] == s[i - 1] && t[i + 1] == s[i - 1 + 1]; }
    }
  }

  // A straddling triple above all other candidates has settled arrangements with
  // different heads, so there the choice depends on the order of the list.
  lemma {:induction false} StraddlingHeads(rule: Rule, a: Scored, b: Scored, c: Scored, others: seq<Scored>)
    returns (s: seq<Scored>, t: seq<Scored>)
    requires rule.count > 0 && rule.tieBreak == LoadNeutral && Straddles(rule, a, b, c)
    requires forall y :: y in others ==> Below(y, a) && Below(y, b) && Below(y, c)
    ensures Settled(rule, s) && Settled(rule, t)
    ensures multiset(s) == multiset(t) == multiset([a, b, c] + others)
    ensures s[0] == a && t[0] == b && a.upstream != b.upstream
  {
    hide Rule.Compare, Straddles, Below;
    StraddlingFacts(rule, a, b, c);
    var rest := Arrange(rule, others);
    if rest != [] {
      assert rest[0] in multiset(rest);
      assert rest[0] in others;
      BelowComesLater(rule, rest[0], a);
      BelowComesLater(rule, rest[0], b);
      BelowComesLater(rule, rest[0], c);
    }
    s := PrependThree(rule, a, b, c, rest);
    t := PrependThree(rule, b, c, a, rest);
    ThreeAndMore(a, b, c, others);
  }

  lemma {:induction false} ThreeAndMore(a: Scored, b: Scored, c: Scored, others: seq<Scored>)
    ensures multiset([a, b, c] + others) == multiset(others) + multiset{a, b, c}
    ensures multiset{b, c, a} == multiset{a, b, c}
  {}

  lemma {:induction false} PrependThree(rule: Rule, x: Scored, y: Scored, z: Scored, s: seq<Scored>) returns (t: seq<Scored>)
    requires rule.count > 0 && Settled(rule, s) && (s != [] ==> !rule.Before(s[0], z))
    requires !rule.Before(y, x) && !rule.Before(z, y)
    ensures t != [] && t[0] == x && Settled(rule, t) && multiset(t) == multiset(s) + multiset{x, y, z}
  {
    hide Rule.Compare, Settled;
    var one := Prepend(rule, z, s);
    var two := Prepend(rule, y, one);
    t := Prepend(rule, x, two);
    AddThree(multiset(s), x, y, z);
  }

  lemma {:induction false} AddThree(m: multiset<Scored>, x: Scored, y: Scored, z: Scored)
    ensures ((m + multiset{z}) + multiset{y}) + multiset{x} == m + multiset{x, y, z}
  {}

  lemma {:induction false} StraddlingFacts(rule: Rule, a: Scored, b: Scored, c: Scored)
    requires rule.count > 0 && rule.tieBreak == LoadNeutral && Straddles(rule, a, b, c)
    ensures !rule.Before(b, a) && !rule.Before(c, b) && !rule.Before(a, c) && a.upstream != b.upstream
  {
    LoadNeutralCycles(rule, a, b, c);
    hide Rank;
    Antisymmetric(rule, a, b);
    Antisymmetric(rule, b, c);
    Antisymmetric(rule, c, a);
  }

  lemma {:induction false} BelowComesLater(rule: Rule, y: Scored, x: Scored)
    requires rule.count > 0 && Below(y, x)
    ensures !rule.Before(y, x)
  {
    hide Rank;
  }

  // The candidate that comes before all others.
  ghost predicate IsFirst(rule: Rule, s: seq<Scored>, x: Scored)
    requires rule.count > 0
  {
    x in s && forall y :: y in s && y.upstream != x.upstream ==> rule.Before(x, y)
  }

  lemma {:induction false} FirstIsUnique(rule: Rule, s: seq<Scored>, x: Scored, y: Scored)
    requires rule.count > 0 && IsFirst(rule, s, x) && IsFirst(rule, s, y)
    ensures x.upstream == y.upstream
  {
    Antisymmetric(rule, x, y);
  }

  // Whatever order the candidates arrive in, every settled arrangement of them
  // has the same head.
  lemma {:induction false} HeadIgnoresOrder(rule: Rule, s: seq<Scored>, t: seq<Scored>)
    requires rule.count > 0 && s != [] && multiset(s) == multiset(t)
    requires Settled(rule, s) && Settled(rule, t) && Numbered(s, rule.count) && Numbered(t, rule.count)
    requires rule.tieBreak == Overlap || Acyclic(rule, s)
    ensures t != [] && s[0] == t[0] && IsFirst(rule, s, s[0])
  {
    SameMembers(s, t);
    RuleIsTransitive(rule, s);
    assert Transitive(rule, t);
    forall y | y in s && y.upstream != s[0].upstream
      ensures rule.Before(s[0], y)
    {
      var i :| 0 <= i < |s| && s[i] == y;
      HeadIsFirst(rule, s, i);
    }
    if s[0] != t[0] {
      assert s[0] in t && t[0] in s;
      var i :| 0 <= i < |t| && t[i] == s[0];
      var j :| 0 <= j < |s| && s[j] == t[0];
      HeadIsFirst(rule, t, i);
      HeadIsFirst(rule, s, j);
      Antisymmetric(rule, s[0], t[0]);
      assert false;
    }
  }

  lemma {:induction false} SameMembers(s: seq<Scored>, t: seq<Scored>)
    requires multiset(s) == multiset(t)
    ensures |s| == |t| && forall x :: x in s <==> x in t
  {
    assert |s| == |multiset(s)| == |t|;
    forall x
      ensures x in s <==> x in t
    {
      assert x in s <==> x in multiset(s);
      assert x in t <==> x in multiset(t);
    }
  }
}
