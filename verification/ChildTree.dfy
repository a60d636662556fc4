/**
 Process-tree tracking of the GPU guard (bench/node06_gpu_guard.py, ChildTree):
 which processes belong to the guarded command, across reparenting and pid reuse,
 and in which order they are signalled.
 */
module ChildTree {

  datatype Process = Process(pid: int, parent: int, ticks: int, zombie: bool) {
    function Identity(): (int, int) { (pid, ticks) }
  }

  // One reading of the process table.
  type Snapshot = s: map<int, Process> | forall pid :: pid in s ==> s[pid].pid == pid

  // ----- Ownership as a least fixpoint

  ghost function Recognised(known: set<(int, int)>, snapshot: Snapshot): set<int> {
    set pid | pid in snapshot && snapshot[pid].Identity() in known
  }

  predicate Adopts(snapshot: Snapshot, owner: int, owned: set<int>, pid: int)
    requires pid in snapshot
  {
    pid != owner && (snapshot[pid].parent in owned || snapshot[pid].parent == owner)
  }

  ghost predicate Closed(snapshot: Snapshot, owner: int, owned: set<int>) {
    forall pid :: pid in snapshot && Adopts(snapshot, owner, owned, pid) ==> pid in owned
  }

  // The least set that holds every recognised process and every child of an
  // owned process or of the owner.
  ghost predicate IsOwned(known: set<(int, int)>, snapshot: Snapshot, owner: int, owned: set<int>) {
    && Recognised(known, snapshot) <= owned <= snapshot.Keys
    && Closed(snapshot, owner, owned)
    && forall other: set<int> :: Recognised(known, snapshot) <= other && Closed(snapshot, owner, other) ==> owned <= other
  }

  ghost function Grow(snapshot: Snapshot, owner: int, owned: set<int>): set<int> {
    owned + set pid | pid in snapshot && Adopts(snapshot, owner, owned, pid)
  }

  ghost function Saturate(snapshot: Snapshot, owner: int, owned: set<int>): (result: set<int>)
    requires owned <= snapshot.Keys
    ensures owned <= result <= snapshot.Keys && Closed(snapshot, owner, result)
    ensures forall other: set<int> :: owned <= other && Closed(snapshot, owner, other) ==> result <= other
    decreases snapshot.Keys - owned
  {
    var next := Grow(snapshot, owner, owned);
    if next == owned then owned else Saturate(snapshot, owner, next)
  }

  ghost function Owned(known: set<(int, int)>, snapshot: Snapshot, owner: int): (owned: set<int>)
    ensures IsOwned(known, snapshot, owner, owned)
  {
    Saturate(snapshot, owner, Recognised(known, snapshot))
  }

  // Known identities after one observation.
  ghost function Learn(known: set<(int, int)>, snapshot: Snapshot, owner: int): set<(int, int)> {
    known + set pid | pid in Owned(known, snapshot, owner) :: snapshot[pid].Identity()
  }

  // Owned processes that have not exited.
  ghost function LiveSet(known: set<(int, int)>, snapshot: Snapshot, owner: int): set<Process> {
    set pid | pid in Owned(known, snapshot, owner) && !snapshot[pid].zombie :: snapshot[pid]
  }

  // A chain of parents from a process up to a recognised process or the owner.
  ghost predicate Lineage(known: set<(int, int)>, snapshot: Snapshot, owner: int, path: seq<int>) {
    && path != []
    && (forall i :: 0 <= i < |path| ==> path[i] in snapshot)
    && (forall i :: 0 <= i < |path| - 1 ==> path[i] != owner && snapshot[path[i]].parent == path[i + 1])
    && var last := path[|path| - 1];
       snapshot[last].Identity() in known || (last != owner && snapshot[last].parent == owner)
  }

  // A process is owned exactly when it has such a chain.
  lemma {:induction false} OwnedHasLineage(known: set<(int, int)>, snapshot: Snapshot, owner: int, pid: int)
    requires pid in snapshot
    ensures pid in Owned(known, snapshot, owner) <==>
            exists path :: Lineage(known, snapshot, owner, path) && path[0] == pid
  {
    var all := set p | p in snapshot && exists path :: Lineage(known, snapshot, owner, path) && path[0] == p;
    forall p | p in Recognised(known, snapshot)
      ensures p in all
    {
      assert Lineage(known, snapshot, owner, [p]) && [p][0] == p;
    }
    forall p | p in snapshot && Adopts(snapshot, owner, all, p)
      ensures p in all
    {
      if snapshot[p].parent == owner {
        assert Lineage(known, snapshot, owner, [p]) && [p][0] == p;
      } else {
        var path :| Lineage(known, snapshot, owner, path) && path[0] == snapshot[p].parent;
        var longer := [p] + path;
        assert longer[|longer| - 1] == path[|path| - 1];
        forall i | 0 <= i < |longer| - 1
          ensures longer[i] != owner && snapshot[longer[i]].parent == longer[i + 1]
        {
          if i > 0 { assert longer[i] == path[i - 1] && longer[i + 1] == path[i - 1 + 1]; }
        }
        assert Lineage(known, snapshot, owner, longer) && longer[0] == p;
      }
    }
    assert Closed(snapshot, owner, all);
    forall path | Lineage(known, snapshot, owner, path) && path[0] == pid
      ensures pid in Owned(known, snapshot, owner)
    {
      LineageIsOwned(known, snapshot, owner, path);
    }
  }

  lemma {:induction false} LineageIsOwned(known: set<(int, int)>, snapshot: Snapshot, owner: int, path: seq<int>)
    requires Lineage(known, snapshot, owner, path)
    ensures path[0] in Owned(known, snapshot, owner)
  {
    var owned := Owned(known, snapshot, owner);
    if |path| == 1 {
      assert path[0] in Recognised(known, snapshot) || Adopts(snapshot, owner, owned, path[0]);
    } else {
      var rest := path[1..];
      forall i | 0 <= i < |rest| - 1
        ensures rest[i] != owner && snapshot[rest[i]].parent == rest[i + 1]
      {
        assert rest[i] == path[i + 1] && rest[i + 1] == path[i + 1 + 1];
      }
      assert rest[|rest| - 1] == path[|path| - 1];
      LineageIsOwned(known, snapshot, owner, rest);
      assert path[0] != owner && snapshot[path[0]].parent == path[0 + 1];
      assert Adopts(snapshot, owner, owned, path[0]);
    }
  }

  // ----- Runs of observations

  ghost function KnownAfter(known: set<(int, int)>, owner: int, snapshots: seq<Snapshot>): set<(int, int)> {
    if snapshots == [] then known
    else Learn(KnownAfter(known, owner, snapshots[..|snapshots| - 1]), snapshots[|snapshots| - 1], owner)
  }

  lemma {:induction false} KnownGrows(known: set<(int, int)>, owner: int, snapshots: seq<Snapshot>, k: nat)
    requires k <= |snapshots|
    ensures KnownAfter(known, owner, snapshots[..k]) <= KnownAfter(known, owner, snapshots)
  {
    if k == |snapshots| {
      assert snapshots[..k] == snapshots;
    } else {
      var front := snapshots[..|snapshots| - 1];
      assert front[..k] == snapshots[..k];
      KnownGrows(known, owner, front, k);
    }
  }

  // Once owned, a process is owned in every later snapshot that still shows it
  // with the same start time, whoever its parent is by then.
  lemma {:induction false} OwnershipPersists(known: set<(int, int)>, owner: int, snapshots: seq<Snapshot>, i: nat, j: nat, pid: int)
    requires i < j < |snapshots|
    requires pid in Owned(KnownAfter(known, owner, snapshots[..i]), snapshots[i], owner)
    requires pid in snapshots[j] && snapshots[j][pid].ticks == snapshots[i][pid].ticks
    ensures pid in Owned(KnownAfter(known, owner, snapshots[..j]), snapshots[j], owner)
  {
    var upTo := snapshots[..i + 1];
    assert upTo[..|upTo| - 1] == snapshots[..i];
    assert snapshots[i][pid].Identity() in KnownAfter(known, owner, upTo);
    assert snapshots[..j][..i + 1] == upTo;
    KnownGrows(known, owner, snapshots[..j], i + 1);
    assert pid in Recognised(KnownAfter(known, owner, snapshots[..j]), snapshots[j]);
  }

  // ----- Signalling order

  type Parents = map<int, int>

  // Ranks that fall from child to parent: the parentage has no cycle.
  ghost predicate Ranked(parents: Parents, rank: map<int, nat>) {
    forall p :: p in parents ==>
      p in rank && (parents[p] in parents ==> parents[p] in rank && rank[parents[p]] < rank[p])
  }

  // Listed ancestors above a process.
  ghost function Depth(parents: Parents, rank: map<int, nat>, p: int): nat
    requires Ranked(parents, rank) && p in parents
    decreases rank[p]
  {
    if parents[p] in parents then 1 + Depth(parents, rank, parents[p]) else 0
  }

  method MeasureDepth(parents: Parents, pid: int, ghost rank: map<int, nat>) returns (value: nat)
    requires pid in parents
    ensures Ranked(parents, rank) ==> value == Depth(parents, rank, pid)
  {
    value := 0;
    var parent := parents[pid];
    var seen := {};
    ghost var at := pid;
    while parent in parents && parent !in seen
      invariant seen <= parents.Keys
      invariant at in parents && parent == parents[at]
      invariant Ranked(parents, rank) ==> value + Depth(parents, rank, at) == Depth(parents, rank, pid)
      invariant Ranked(parents, rank) ==> forall p :: p in seen ==> rank[p] >= rank[at]
      decreases parents.Keys - seen
    {
      seen := seen + {parent};
      value := value + 1;
      at := parent;
      parent := parents[parent];
    }
    if Ranked(parents, rank) && parent in parents { assert false; }
  }

  // a is above d in the listed parentage.
  ghost predicate Above(parents: Parents, a: int, path: seq<int>) {
    && |path| > 1 && path[|path| - 1] == a
    && (forall i :: 0 <= i < |path| ==> path[i] in parents)
    && (forall i :: 0 <= i < |path| - 1 ==> parents[path[i]] == path[i + 1])
  }

  lemma {:induction false} AncestorsAreShallower(parents: Parents, rank: map<int, nat>, a: int, path: seq<int>)
    requires Ranked(parents, rank) && Above(parents, a, path)
    ensures Depth(parents, rank, a) < Depth(parents, rank, path[0])
  {
    assert parents[path[0]] == path[0 + 1];
    if |path| > 2 {
      var rest := path[1..];
      forall i | 0 <= i < |rest| - 1
        ensures parents[rest[i]] == rest[i + 1]
      {
        assert rest[i] == path[i + 1] && rest[i + 1] == path[i + 1 + 1];
      }
      AncestorsAreShallower(parents, rank, a, rest);
    }
  }

  // A process with its depth, the sort key.
  datatype Placed = Placed(depth: nat, process: Process)

  predicate DeepestFirst(order: seq<Placed>) {
    forall i, j :: 0 <= i < j < |order| ==> order[i].depth >= order[j].depth
  }

  // Stable insertion, deepest first.
  function InsertByDepth(order: seq<Placed>, x: Placed): (r: seq<Placed>)
    ensures |r| == |order| + 1
  {
    if order == [] || order[|order| - 1].depth >= x.depth then order + [x]
    else InsertByDepth(order[..|order| - 1], x) + [order[|order| - 1]]
  }

  lemma {:induction false} InsertByDepthSorts(order: seq<Placed>, x: Placed)
    requires DeepestFirst(order)
    ensures DeepestFirst(InsertByDepth(order, x))
    ensures forall y :: y in InsertByDepth(order, x) <==> y == x || y in order
  {
    if order != [] && order[|order| - 1].depth < x.depth {
      var front, last := order[..|order| - 1], order[|order| - 1];
      InsertByDepthSorts(front, x);
      assert order == front + [last];
      var r := InsertByDepth(front, x);
      forall i | 0 <= i < |r|
        ensures r[i].depth >= last.depth
      {
        assert r[i] in r;
      }
    }
  }

  lemma {:induction false} NothingPlaced()
    ensures DeepestFirst([])
  {}

  predicate DistinctPids(identities: seq<Process>) {
    forall i, j :: 0 <= i < j < |identities| ==> identities[i].pid != identities[j].pid
  }

  // The identities, deepest first.
  method OrderByDepth(identities: seq<Process>, ghost rank: map<int, nat>) returns (order: seq<Placed>)
    requires DistinctPids(identities)
    ensures |order| == |identities| && DeepestFirst(order)
    ensures forall x :: x in order ==> x.process in identities
    ensures forall p :: p in identities ==> exists x :: x in order && x.process == p
    ensures Ranked(ParentsOf(identities), rank) ==>
              forall x :: x in order ==> x.depth == Depth(ParentsOf(identities), rank, x.process.pid)
  {
    hide InsertByDepth, DeepestFirst, Depth;
    var parents := ParentsOf(identities);
    order := [];
    NothingPlaced();
    for i := 0 to |identities|
      invariant |order| == i && DeepestFirst(order)
      invariant forall x :: x in order ==> x.process in identities[..i]
      invariant forall p :: p in identities[..i] ==> exists x :: x in order && x.process == p
      invariant Ranked(parents, rank) ==> forall x :: x in order ==> x.depth == Depth(parents, rank, x.process.pid)
    {
      var depth := MeasureDepth(parents, identities[i].pid, rank);
      var placed := Placed(depth, identities[i]);
      InsertByDepthSorts(order, placed);
      assert identities[..i + 1] == identities[..i] + [identities[i]];
      assert placed in InsertByDepth(order, placed);
      order := InsertByDepth(order, placed);
    }
    assert identities[..|identities|] == identities;
  }

  // On acyclic parentage every process comes before its ancestors.
  lemma {:induction false} ChildrenFirst(identities: seq<Process>, rank: map<int, nat>, order: seq<Placed>, i: nat, j: nat, path: seq<int>)
    requires DistinctPids(identities) && Ranked(ParentsOf(identities), rank)
    requires DeepestFirst(order) && i < |order| && j < |order|
    requires forall x :: x in order ==> x.process in identities
    requires forall x :: x in order ==> x.depth == Depth(ParentsOf(identities), rank, x.process.pid)
    requires Above(ParentsOf(identities), order[i].process.pid, path) && path[0] == order[j].process.pid
    ensures j < i
  {
    AncestorsAreShallower(ParentsOf(identities), rank, order[i].process.pid, path);
    assert order[i] in order && order[j] in order;
  }

  // Delivering a signal: each target is looked up again and skipped if its pid
  // is gone or now belongs to another process.
  method Deliver(order: seq<Placed>, lookups: seq<Snapshot>) returns (signalled: seq<Process>)
    requires |order| == |lookups|
    ensures signalled == Confirmed(order, lookups)
  {
    signalled := [];
    for i := 0 to |order|
      invariant signalled == Confirmed(order[..i], lookups[..i])
    {
      var identity := order[i].process;
      assert order[..i + 1][..i] == order[..i] && lookups[..i + 1][..i] == lookups[..i];
      if identity.pid in lookups[i] && lookups[i][identity.pid].ticks == identity.ticks {
        signalled := signalled + [identity];
      }
    }
    assert order[..|order|] == order && lookups[..|order|] == lookups;
  }

  function ParentsOf(identities: seq<Process>): (parents: Parents)
    requires DistinctPids(identities)
    ensures forall i :: 0 <= i < |identities| ==>
              identities[i].pid in parents && parents[identities[i].pid] == identities[i].parent
    ensures forall p :: p in parents ==> exists i :: 0 <= i < |identities| && identities[i].pid == p
  {
    if identities == [] then map[]
    else ParentsOf(identities[..|identities| - 1])[identities[|identities| - 1].pid := identities[|identities| - 1].parent]
  }

  predicate StillThere(p: Process, snapshot: Snapshot) {
    p.pid in snapshot && snapshot[p.pid].ticks == p.ticks
  }

  // The targets still running when their turn came.
  function Confirmed(order: seq<Placed>, lookups: seq<Snapshot>): seq<Process>
    requires |order| == |lookups|
  {
    if order == [] then []
    else
      var n := |order| - 1;
      var rest := Confirmed(order[..n], lookups[..n]);
      if StillThere(order[n].process, lookups[n]) then rest + [order[n].process] else rest
  }

  // Exactly the processes whose pid still carries their start time are signalled.
  lemma {:induction false} ConfirmedExactly(order: seq<Placed>, lookups: seq<Snapshot>, p: Process)
    requires |order| == |lookups|
    ensures p in Confirmed(order, lookups) <==>
            exists i :: 0 <= i < |order| && order[i].process == p && StillThere(p, lookups[i])
  {
    if order != [] {
      var n := |order| - 1;
      ConfirmedExactly(order[..n], lookups[..n], p);
      if p in Confirmed(order[..n], lookups[..n]) {
        var i :| 0 <= i < n && order[..n][i].process == p && StillThere(p, lookups[..n][i]);
        assert order[i].process == p && StillThere(p, lookups[i]);
      }
      if i :| 0 <= i < n && order[i].process == p && StillThere(p, lookups[i]) {
        assert order[..n][i].process == p && StillThere(p, lookups[..n][i]);
      }
    }
  }

  // ----- The tracker

  class Tracker {
    const owner: int
    var known: set<(int, int)>

    constructor (owner: int, root: Process)
      ensures this.owner == owner && known == {root.Identity()}
    {
      this.owner := owner;
      known := {root.Identity()};
    }

    // One fixpoint over a snapshot.
    method Observe(snapshot: Snapshot) returns (owned: set<int>)
      modifies this`known
      ensures owned == Owned(old(known), snapshot, owner)
      ensures known == Learn(old(known), snapshot, owner)
    {
      ghost var target := Owned(known, snapshot, owner);
      ghost var before := known;
      owned := set pid | pid in snapshot && snapshot[pid].Identity() in known;
      var changed := true;
      while changed
        invariant Recognised(before, snapshot) <= owned <= target
        invariant known == before + set pid | pid in owned :: snapshot[pid].Identity()
        invariant !changed ==> Closed(snapshot, owner, owned)
        decreases snapshot.Keys - owned, changed
      {
        changed := false;
        ghost var start := owned;
        var rest := snapshot.Keys;
        while rest != {}
          invariant rest <= snapshot.Keys
          invariant start <= owned <= target
          invariant known == before + set pid | pid in owned :: snapshot[pid].Identity()
          invariant !changed ==> owned == start
          invariant changed ==> start < owned
          invariant !changed ==> forall pid :: pid in snapshot && pid !in rest && Adopts(snapshot, owner, owned, pid) ==> pid in owned
          decreases rest
        {
          var pid :| pid in rest;
          rest := rest - {pid};
          if pid == owner || pid in owned { continue; }
          if snapshot[pid].parent in owned || snapshot[pid].parent == owner {
            assert Adopts(snapshot, owner, target, pid);
            owned := owned + {pid};
            known := known + {snapshot[pid].Identity()};
            changed := true;
          }
        }
      }
    }

    method Live(snapshot: Snapshot) returns (live: set<Process>)
      modifies this`known
      ensures live == LiveSet(old(known), snapshot, owner)
      ensures known == Learn(old(known), snapshot, owner)
    {
      var owned := Observe(snapshot);
      live := set pid | pid in owned && !snapshot[pid].zombie :: snapshot[pid];
    }
  }
}
