/**
 The session-affinity decision (bench/route_replay.py, _session_affinity_decision):
 whether an assigned pair of upstreams would draw a session away from the choice
 that was made.
 */
module SessionAffinity {
  import opened Common
  import opened RouteOrder

  // A recorded candidate; upstream i is at position i.
  datatype Candidate = Candidate(healthy: bool, overlap: nat, affinity: nat, load: nat)

  datatype Kind = Primary | SecondaryHealth | SecondaryLoad

  datatype Outcome = NoHealthyUpstream | NoHealthyPair | LoadGated | Already(kind: Kind) | Prefer(kind: Kind) | KeptScore | Invalid

  datatype Request = Request(
    candidates: seq<Candidate>,
    primary: nat,
    secondary: nat,
    chosen: nat,
    rotation: Option<nat>,
    alpha: real,
    bonus: nat,
    maxLoadDelta: nat)
  {
    // A well-formed observation over at least two candidates.
    predicate Valid() {
      |candidates| >= 2 && primary < |candidates| && secondary < |candidates| && chosen < |candidates| && primary != secondary
    }
    function TieRule(): Rule { Rule(Overlap, if rotation.Some? then rotation.value else 0, |candidates|) }
    function ScoreOf(i: nat, extra: nat): Scored
      requires i < |candidates|
    {
      var c := candidates[i];
      Scored(i, c.healthy, c.overlap, c.load, c.affinity as real - alpha * c.load as real + extra as real)
    }
    function Recorded(): (s: seq<Scored>)
      ensures |s| == |candidates| && forall i :: 0 <= i < |s| ==> s[i] == ScoreOf(i, 0)
    {
      seq(|candidates|, i requires 0 <= i < |candidates| => ScoreOf(i, 0))
    }
  }

  // Only the rotation can tell the two apart.
  predicate Drawn(r: Request, target: nat, extra: nat)
    requires target < |r.candidates| && r.chosen < |r.candidates|
  {
    var a, b := r.ScoreOf(target, extra), r.ScoreOf(r.chosen, 0);
    a.healthy == b.healthy && a.score == b.score && a.overlap == b.overlap
  }

  // With the bonus the target ranks before the choice made; the rotation counts only
  // if it was recorded.
  predicate Preferred(r: Request, target: nat, extra: nat)
    requires r.Valid() && target < |r.candidates|
  {
    r.TieRule().Before(r.ScoreOf(target, extra), r.ScoreOf(r.chosen, 0)) && !(Drawn(r, target, extra) && r.rotation.None?)
  }

  // The least load among healthy candidates.
  ghost predicate LeastLoad(r: Request, load: nat) {
    && (exists i :: 0 <= i < |r.candidates| && r.candidates[i].healthy && r.candidates[i].load == load)
    && (forall i :: 0 <= i < |r.candidates| && r.candidates[i].healthy ==> load <= r.candidates[i].load)
  }

  // Healthy, and not too far above the least healthy load.
  ghost predicate Admitted(r: Request, i: nat)
    requires i < |r.candidates|
  {
    r.candidates[i].healthy && exists load: nat :: LeastLoad(r, load) && r.candidates[i].load <= load + r.maxLoadDelta
  }

  method LeastHealthyLoad(r: Request) returns (least: Option<nat>)
    ensures least.None? <==> forall i :: 0 <= i < |r.candidates| ==> !r.candidates[i].healthy
    ensures least.Some? ==> LeastLoad(r, least.value)
  {
    least := None;
    for k := 0 to |r.candidates|
      invariant least.None? <==> forall i :: 0 <= i < k ==> !r.candidates[i].healthy
      invariant least.Some? ==>
                  && (exists i :: 0 <= i < k && r.candidates[i].healthy && r.candidates[i].load == least.value)
                  && (forall i :: 0 <= i < k && r.candidates[i].healthy ==> least.value <= r.candidates[i].load)
    {
      var c := r.candidates[k];
      if c.healthy && (least.None? || c.load < least.value) { least := Some(c.load); }
    }
  }

  // The primary if admitted, else the secondary if admitted.
  ghost function Assigned(r: Request): Option<nat>
    requires r.Valid()
  {
    if Admitted(r, r.primary) then Some(r.primary) else if Admitted(r, r.secondary) then Some(r.secondary) else None
  }

  // The assigned target is preferred exactly when, with the bonus, it ranks before the
  // choice made; a draw that no rotation decides is invalid and has no target.
  method Decide(r: Request) returns (outcome: Outcome, target: Option<nat>)
    requires r.Valid()
    ensures target == if outcome == Invalid then None else Assigned(r)
    ensures outcome.Already? <==> Assigned(r) == Some(r.chosen)
    ensures outcome.Prefer? <==>
            var a := Assigned(r); a.Some? && a.value != r.chosen && Preferred(r, a.value, r.bonus)
    ensures outcome == Invalid <==>
            var a := Assigned(r); a.Some? && a.value != r.chosen && Drawn(r, a.value, r.bonus) && r.rotation.None?
    ensures outcome == KeptScore <==>
            var a := Assigned(r); a.Some? && a.value != r.chosen && outcome != Invalid && !Preferred(r, a.value, r.bonus)
    ensures outcome == NoHealthyUpstream <==> forall i :: 0 <= i < |r.candidates| ==> !r.candidates[i].healthy
    ensures outcome == NoHealthyPair <==>
            && (exists i :: 0 <= i < |r.candidates| && r.candidates[i].healthy)
            && !r.candidates[r.primary].healthy && !r.candidates[r.secondary].healthy
    ensures outcome == LoadGated <==>
            Assigned(r).None? && (r.candidates[r.primary].healthy || r.candidates[r.secondary].healthy)
    ensures outcome.Prefer? || outcome.Already? ==>
              outcome.kind == (if target == Some(r.primary) then Primary
                               else if r.candidates[r.primary].healthy then SecondaryLoad else SecondaryHealth)
  {
    var least := LeastHealthyLoad(r);
    if least.None? { return NoHealthyUpstream, None; }
    AdmittedExactly(r, least.value);
    var limit := least.value + r.maxLoadDelta;
    var first, second := r.candidates[r.primary], r.candidates[r.secondary];
    var kind;
    if first.healthy && first.load <= limit {
      target, kind := Some(r.primary), Primary;
    } else if second.healthy && second.load <= limit {
      target, kind := Some(r.secondary), if first.healthy then SecondaryLoad else SecondaryHealth;
    } else if !first.healthy && !second.healthy {
      return NoHealthyPair, None;
    } else {
      return LoadGated, None;
    }
    if r.chosen == target.value { return Already(kind), target; }
    if Drawn(r, target.value, r.bonus) && r.rotation.None? { return Invalid, None; }
    var wins := r.TieRule().Compare(r.ScoreOf(target.value, r.bonus), r.ScoreOf(r.chosen, 0)) < 0;
    outcome := if wins then Prefer(kind) else KeptScore;
  }

  lemma {:induction false} AdmittedExactly(r: Request, least: nat)
    requires LeastLoad(r, least)
    ensures forall i :: 0 <= i < |r.candidates| ==>
              (Admitted(r, i) <==> r.candidates[i].healthy && r.candidates[i].load <= least + r.maxLoadDelta)
  {
    forall load: nat | LeastLoad(r, load)
      ensures load == least
    {}
  }

  // Without a bonus the session never draws traffic away from the routing winner.
  lemma {:induction false} NoBonusNoMove(r: Request, target: nat)
    requires r.Valid() && target < |r.candidates| && target != r.chosen && r.bonus == 0
    requires IsFirst(r.TieRule(), r.Recorded(), r.ScoreOf(r.chosen, 0))
    ensures !Preferred(r, target, r.bonus)
  {
    assert r.Recorded()[target] in r.Recorded();
    Antisymmetric(r.TieRule(), r.ScoreOf(target, 0), r.ScoreOf(r.chosen, 0));
  }

  // A larger bonus never loses a preference.
  lemma {:induction false} BonusIsMonotone(r: Request, target: nat, more: nat)
    requires r.Valid() && target < |r.candidates| && r.bonus <= more
    requires Preferred(r, target, r.bonus)
    ensures Preferred(r, target, more)
  {
    hide Rank;
    assert r.ScoreOf(target, more).score >= r.ScoreOf(target, r.bonus).score;
  }
}
