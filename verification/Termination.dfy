/**
 Stopping the guarded process tree (bench/node06_gpu_guard.py, terminate_tree): a
 short deadline for request work, a long one for a rollback owner, telemetry
 sampled throughout.
 */
module Termination {
  import opened ChildTree

  // Milliseconds and degrees.
  datatype Args = Args(preserveOwner: bool, workloadGrace: int, ownerGrace: int, poll: int, abortAt: real)

  const KILL_GRACE := 5000

  datatype Sample = Missed | Air(hottest: real)

  // What one pass of a waiting loop sees: the process table, the clock, the
  // sample it would read, and whether the shim reported an escalation.
  datatype Tick = Tick(snapshot: Snapshot, now: int, sample: Sample, shimEscalated: bool)

  // A SIGKILL sent to these processes on pass `at`.
  datatype Kill = Kill(at: nat, targets: set<Process>)

  datatype Verdict = Gone(escalated: bool, telemetryFailed: bool) | Stuck | Waiting

  // Everything stopping a tree meets: the processes known before, the look it starts
  // with, when it starts, all later passes, and when the owner's deadline expired.
  datatype Scene = Scene(
    args: Args,
    shim: int,
    known: set<(int, int)>,
    owner: int,
    first: Snapshot,
    started: int,
    ticks: seq<Tick>,
    expiredAt: int)

  // ----- What the tracker sees on each pass

  ghost function KnownAt(s: Scene, i: nat): set<(int, int)>
    requires i <= |s.ticks|
  {
    if i == 0 then Learn(s.known, s.first, s.owner)
    else Learn(KnownAt(s, i - 1), s.ticks[i - 1].snapshot, s.owner)
  }

  ghost function LiveAt(s: Scene, i: nat): set<Process>
    requires i < |s.ticks|
  {
    LiveSet(KnownAt(s, i), s.ticks[i].snapshot, s.owner)
  }

  // Identities alive when termination begins.
  ghost function Initial(s: Scene): set<(int, int)> {
    set p | p in LiveSet(s.known, s.first, s.owner) :: p.Identity()
  }

  // Request work under preservation: neither the shim nor its direct child, and
  // alive when termination began.
  predicate InitialWork(p: Process, shim: int, initial: set<(int, int)>) {
    p.pid != shim && p.parent != shim && p.Identity() in initial
  }

  function Work(args: Args, live: set<Process>, shim: int, initial: set<(int, int)>): set<Process> {
    if args.preserveOwner then set p | p in live && InitialWork(p, shim, initial) else live
  }

  ghost function WorkAt(s: Scene, i: nat): set<Process>
    requires i < |s.ticks|
  {
    Work(s.args, LiveAt(s, i), s.shim, Initial(s))
  }

  // No pass before this one reached the owner's deadline: it belongs to the first loop.
  predicate FirstLoop(s: Scene, i: nat) {
    i <= |s.ticks| && forall k :: 0 <= k < i ==> s.ticks[k].now < s.started + s.args.ownerGrace
  }

  // ----- Sampling

  datatype State = State(nextSample: int, telemetryFailed: bool)

  // The sampling state after a pass.
  function NextState(args: Args, state: State, tick: Tick): State {
    if state.telemetryFailed || tick.now < state.nextSample then state
    else if tick.sample.Missed? then state.(telemetryFailed := true)
    else state.(nextSample := tick.now + args.poll)
  }

  ghost function StateAt(s: Scene, i: nat): State
    requires i <= |s.ticks|
  {
    if i == 0 then State(s.started + s.args.poll, false) else NextState(s.args, StateAt(s, i - 1), s.ticks[i - 1])
  }

  // Pass i reads a sample.
  ghost predicate Samples(s: Scene, i: nat)
    requires i < |s.ticks|
  {
    !StateAt(s, i).telemetryFailed && s.ticks[i].now >= StateAt(s, i).nextSample
  }

  // Pass i reads a sample that is missing or too hot.
  ghost predicate Danger(s: Scene, i: nat)
    requires i < |s.ticks|
  {
    Samples(s, i) && (s.ticks[i].sample.Missed? || s.ticks[i].sample.hottest >= s.args.abortAt)
  }

  // A pass of the first loop before n reads a sample and misses it.
  ghost predicate MissesBefore(s: Scene, n: nat)
    requires n <= |s.ticks|
  {
    exists i :: 0 <= i < n && FirstLoop(s, i) && Samples(s, i) && s.ticks[i].sample.Missed?
  }

  // Telemetry has failed exactly if some pass read a sample and missed it.
  lemma {:induction false} FailureIsAMiss(s: Scene, n: nat)
    requires n <= |s.ticks|
    ensures StateAt(s, n).telemetryFailed <==> exists i :: 0 <= i < n && Samples(s, i) && s.ticks[i].sample.Missed?
  {
    if n > 0 {
      FailureIsAMiss(s, n - 1);
      if Samples(s, n - 1) && s.ticks[n - 1].sample.Missed? {
        assert StateAt(s, n).telemetryFailed;
      }
    }
  }

  // ----- Kills

  // The kills one pass sends, in order: hot or missing telemetry, the workload
  // deadline, the owner's deadline.
  function PassKills(args: Args, state: State, started: int, at: nat, tick: Tick, live: set<Process>, work: set<Process>): seq<Kill> {
    var sampled := !state.telemetryFailed && tick.now >= state.nextSample;
    var danger := sampled && (tick.sample.Missed? || tick.sample.hottest >= args.abortAt);
    var early := danger && work != {};
    (if early then [Kill(at, work)] else []) +
    (if tick.now >= started + args.workloadGrace && work != {} && !early then [Kill(at, work)] else []) +
    (if tick.now >= started + args.ownerGrace then [Kill(at, live)] else [])
  }

  method Pass(args: Args, state: State, started: int, at: nat, tick: Tick, live: set<Process>, shim: int, initial: set<(int, int)>)
    returns (next: State, kills: seq<Kill>, expired: bool)
    ensures kills == PassKills(args, state, started, at, tick, live, Work(args, live, shim, initial))
    ensures expired <==> tick.now >= started + args.ownerGrace
    ensures next == NextState(args, state, tick)
  {
    next, kills, expired := state, [], false;
    var work := if args.preserveOwner
      then set p | p in live && p.pid != shim && p.parent != shim && p.Identity() in initial
      else live;
    assert work == Work(args, live, shim, initial);
    if !state.telemetryFailed && tick.now >= state.nextSample {
      if tick.sample.Missed? {
        next := next.(telemetryFailed := true);
        if work != {} {
          kills := kills + [Kill(at, work)];
          work := {};
        }
      } else {
        next := next.(nextSample := tick.now + args.poll);
        if tick.sample.hottest >= args.abortAt && work != {} {
          kills := kills + [Kill(at, work)];
          work := {};
        }
      }
    }
    if tick.now >= started + args.workloadGrace && work != {} {
      kills := kills + [Kill(at, work)];
    }
    if tick.now >= started + args.ownerGrace {
      kills := kills + [Kill(at, live)];
      expired := true;
    }
  }

  ghost function KillsAt(s: Scene, i: nat): seq<Kill>
    requires i < |s.ticks|
  {
    if LiveAt(s, i) == {} || !FirstLoop(s, i) then []
    else PassKills(s.args, StateAt(s, i), s.started, i, s.ticks[i], LiveAt(s, i), WorkAt(s, i))
  }

  // The kills of the first n passes.
  ghost function KillsUpTo(s: Scene, n: nat): seq<Kill>
    requires n <= |s.ticks|
  {
    if n == 0 then [] else KillsUpTo(s, n - 1) + KillsAt(s, n - 1)
  }

  ghost predicate OnlyLive(s: Scene, kills: seq<Kill>, n: nat)
    requires n <= |s.ticks|
  {
    forall k :: 0 <= k < |kills| ==> kills[k].at < n && kills[k].targets <= LiveAt(s, kills[k].at)
  }

  // Before the owner's deadline nothing with rollback authority is killed.
  ghost predicate SparesOwner(s: Scene, kills: seq<Kill>) {
    s.args.preserveOwner ==>
      forall k :: 0 <= k < |kills| && kills[k].at < |s.ticks| && s.ticks[kills[k].at].now < s.started + s.args.ownerGrace ==>
        forall p :: p in kills[k].targets ==> InitialWork(p, s.shim, Initial(s))
  }

  // Before the workload deadline a kill needs a sample read that is missing or too hot.
  ghost predicate Provoked(s: Scene, kills: seq<Kill>) {
    forall k :: 0 <= k < |kills| && kills[k].at < |s.ticks| ==>
      || s.ticks[kills[k].at].now >= s.started + s.args.workloadGrace
      || s.ticks[kills[k].at].now >= s.started + s.args.ownerGrace
      || Danger(s, kills[k].at)
  }

  // Some kill of pass i covers these processes.
  predicate Covered(kills: seq<Kill>, i: nat, targets: set<Process>) {
    exists k :: 0 <= k < |kills| && kills[k].at == i && targets <= kills[k].targets
  }

  // What a pass must kill: everything live past the owner's deadline, and the request
  // work, which without preservation is everything, past the workload deadline or on bad
  // telemetry.
  ghost predicate MustKill(s: Scene, kills: seq<Kill>, i: nat)
    requires i < |s.ticks|
  {
    && (s.ticks[i].now >= s.started + s.args.ownerGrace ==> Covered(kills, i, LiveAt(s, i)))
    && ((s.ticks[i].now >= s.started + s.args.workloadGrace || Danger(s, i)) && WorkAt(s, i) != {} ==>
          Covered(kills, i, WorkAt(s, i)))
  }

  // Every pass of the first loop that finds something alive.
  ghost predicate MeetsDeadlines(s: Scene, kills: seq<Kill>, n: nat)
    requires n <= |s.ticks|
  {
    forall i :: 0 <= i < n && FirstLoop(s, i) && LiveAt(s, i) != {} ==> MustKill(s, kills, i)
  }

  // The kills of the first n passes: only of live processes, with a cause, sparing the
  // owner, and meeting both deadlines.
  ghost predicate KillsFit(s: Scene, kills: seq<Kill>, n: nat) {
    n <= |s.ticks| && OnlyLive(s, kills, n) && SparesOwner(s, kills) && Provoked(s, kills) && MeetsDeadlines(s, kills, n)
  }

  // A pass only kills live processes, spares the owner before its deadline, and kills
  // what a deadline or bad telemetry demands.
  lemma {:induction false} PassIsSafe(s: Scene, i: nat)
    requires i < |s.ticks|
    ensures forall k :: 0 <= k < |KillsAt(s, i)| ==> KillsAt(s, i)[k].at == i && KillsAt(s, i)[k].targets <= LiveAt(s, i)
    ensures SparesOwner(s, KillsAt(s, i)) && Provoked(s, KillsAt(s, i))
    ensures FirstLoop(s, i) && LiveAt(s, i) != {} ==> MustKill(s, KillsAt(s, i), i)
  {
    hide LiveAt, StateAt, Initial, FirstLoop;
    var kills, work := KillsAt(s, i), WorkAt(s, i);
    if kills != [] {
      assert Danger(s, i) <==> !StateAt(s, i).telemetryFailed && s.ticks[i].now >= StateAt(s, i).nextSample
                               && (s.ticks[i].sample.Missed? || s.ticks[i].sample.hottest >= s.args.abortAt);
    }
    if FirstLoop(s, i) && LiveAt(s, i) != {} {
      if s.ticks[i].now >= s.started + s.args.ownerGrace { assert kills[|kills| - 1] == Kill(i, LiveAt(s, i)); }
      if work != {} && (Danger(s, i) || s.ticks[i].now >= s.started + s.args.workloadGrace) {
        assert kills[0] == Kill(i, work);
      }
    }
  }

  lemma {:induction false} StillCovered(kills: seq<Kill>, more: seq<Kill>, i: nat, targets: set<Process>)
    ensures Covered(kills, i, targets) || Covered(more, i, targets) ==> Covered(kills + more, i, targets)
  {
    if Covered(kills, i, targets) {
      var k :| 0 <= k < |kills| && kills[k].at == i && targets <= kills[k].targets;
      assert (kills + more)[k] == kills[k];
    } else if Covered(more, i, targets) {
      var k :| 0 <= k < |more| && more[k].at == i && targets <= more[k].targets;
      assert (kills + more)[|kills| + k] == more[k];
    }
  }

  // Over any number of passes the kills fit.
  lemma {:induction false} KillsAreFit(s: Scene, n: nat)
    requires n <= |s.ticks|
    ensures KillsFit(s, KillsUpTo(s, n), n)
  {
    hide KillsAt, LiveAt, FirstLoop, Danger, SparesOwner, Provoked, OnlyLive, MeetsDeadlines, MustKill;
    if n == 0 {
      NoKillsYet(s);
    } else {
      KillsAreFit(s, n - 1);
      PassIsSafe(s, n - 1);
      KillsJoin(s, KillsUpTo(s, n - 1), KillsAt(s, n - 1), n);
      KeepsDeadlines(s, KillsUpTo(s, n - 1), KillsAt(s, n - 1), n);
    }
  }

  lemma {:induction false} NoKillsYet(s: Scene)
    ensures KillsFit(s, [], 0)
  {}

  lemma {:induction false} KillsJoin(s: Scene, kills: seq<Kill>, more: seq<Kill>, n: nat)
    requires 0 < n <= |s.ticks| && OnlyLive(s, kills, n - 1)
    requires forall k :: 0 <= k < |more| ==> more[k].at == n - 1 && more[k].targets <= LiveAt(s, n - 1)
    requires SparesOwner(s, kills) && SparesOwner(s, more) && Provoked(s, kills) && Provoked(s, more)
    ensures OnlyLive(s, kills + more, n) && SparesOwner(s, kills + more) && Provoked(s, kills + more)
  {
    hide LiveAt, Danger, InitialWork;
  }

  lemma {:induction false} KeepsDeadlines(s: Scene, kills: seq<Kill>, more: seq<Kill>, n: nat)
    requires 0 < n <= |s.ticks| && MeetsDeadlines(s, kills, n - 1)
    requires FirstLoop(s, n - 1) && LiveAt(s, n - 1) != {} ==> MustKill(s, more, n - 1)
    ensures MeetsDeadlines(s, kills + more, n)
  {
    hide LiveAt, FirstLoop, Danger, Covered, WorkAt;
    forall i | 0 <= i < n && FirstLoop(s, i) && LiveAt(s, i) != {}
      ensures MustKill(s, kills + more, i)
    {
      StillCovered(kills, more, i, LiveAt(s, i));
      StillCovered(kills, more, i, WorkAt(s, i));
    }
  }

  // Past the owner's deadline there have been kills.
  lemma {:induction false} ExpiryKills(s: Scene, n: nat)
    requires 0 < n <= |s.ticks| && FirstLoop(s, n - 1) && LiveAt(s, n - 1) != {}
    requires s.ticks[n - 1].now >= s.started + s.args.ownerGrace
    ensures KillsUpTo(s, n) != []
  {
    hide LiveAt;
  }

  // ----- The verdict

  // A pass of the second loop that comes after the grace for killed processes.
  predicate TooLate(s: Scene, i: nat)
    requires i < |s.ticks|
  {
    !FirstLoop(s, i) && s.ticks[i].now >= s.expiredAt + KILL_GRACE
  }

  // Each of the first n passes finds something alive and is not too late.
  ghost predicate AliveUntil(s: Scene, n: nat) {
    n <= |s.ticks| && forall i :: 0 <= i < n ==> LiveAt(s, i) != {} && !TooLate(s, i)
  }

  // Pass n is the first to find nothing alive, in time.
  ghost predicate ClearedAt(s: Scene, n: nat) {
    n < |s.ticks| && AliveUntil(s, n) && LiveAt(s, n) == {} && !TooLate(s, n)
  }

  // What a verdict says after that many looks: everything gone at the last look, with
  // escalation and lost telemetry as they happened; too late; or the given world ends.
  ghost predicate VerdictFits(s: Scene, verdict: Verdict, looks: nat) {
    && looks <= |s.ticks|
    && match verdict
       case Gone(escalated, failed) =>
         && looks > 0 && ClearedAt(s, looks - 1)
         && (escalated <==> KillsUpTo(s, looks) != [] || (FirstLoop(s, looks - 1) && s.ticks[looks - 1].shimEscalated))
         && (failed <==> MissesBefore(s, looks - 1))
       case Stuck => looks < |s.ticks| && AliveUntil(s, looks) && TooLate(s, looks)
       case Waiting => looks == |s.ticks| && AliveUntil(s, looks)
  }

  // Stopping ends with this verdict and these kills.
  ghost predicate Ends(s: Scene, verdict: Verdict, kills: seq<Kill>, looks: nat) {
    VerdictFits(s, verdict, looks) && kills == KillsUpTo(s, looks)
  }

  // One scene has one verdict.
  lemma {:induction false} OneVerdict(s: Scene, v: Verdict, n: nat, w: Verdict, m: nat)
    requires VerdictFits(s, v, n) && VerdictFits(s, w, m)
    ensures v == w && n == m
  {
    hide LiveAt, TooLate, KillsUpTo, MissesBefore;
    var last, other := if v.Gone? then n - 1 else n, if w.Gone? then m - 1 else m;
    if last < other || other < last {
      assert false;
    }
  }

  // Everything is gone exactly if some pass finds that in time; telemetry is lost exactly
  // if a pass before it read a sample and missed it.
  lemma {:induction false} GoneExactly(s: Scene, verdict: Verdict, looks: nat)
    requires VerdictFits(s, verdict, looks)
    ensures verdict.Gone? <==> exists n: nat :: ClearedAt(s, n)
    ensures verdict.Gone? && verdict.telemetryFailed <==> exists n: nat :: ClearedAt(s, n) && MissesBefore(s, n)
  {
    hide ClearedAt, KillsUpTo, MissesBefore, AliveUntil, TooLate;
    forall n: nat | ClearedAt(s, n)
      ensures verdict.Gone? && n == looks - 1
    {
      ClearedVerdict(s, n);
      OneVerdict(s, VerdictAt(s, n), n + 1, verdict, looks);
    }
  }

  // The verdict once pass n clears.
  ghost function VerdictAt(s: Scene, n: nat): Verdict
    requires n < |s.ticks|
  {
    Gone(KillsUpTo(s, n + 1) != [] || (FirstLoop(s, n) && s.ticks[n].shimEscalated), MissesBefore(s, n))
  }

  lemma {:induction false} ClearedVerdict(s: Scene, n: nat)
    requires ClearedAt(s, n)
    ensures n < |s.ticks| && VerdictFits(s, VerdictAt(s, n), n + 1)
  {
    hide KillsUpTo, MissesBefore, AliveUntil, TooLate;
  }

  // Without preservation everything alive is killed on the first pass past the workload
  // deadline, and on every later one of the first loop.
  lemma {:induction false} WorkloadDeadline(s: Scene, verdict: Verdict, looks: nat, i: nat)
    requires VerdictFits(s, verdict, looks) && !s.args.preserveOwner
    requires i < looks && LiveAt(s, i) != {} && FirstLoop(s, i) && s.ticks[i].now >= s.started + s.args.workloadGrace
    ensures Covered(KillsUpTo(s, looks), i, LiveAt(s, i))
  {
    hide LiveAt, FirstLoop, Covered, KillsUpTo, VerdictFits;
    WithinTicks(s, verdict, looks);
    KillsAreFit(s, looks);
    assert MustKill(s, KillsUpTo(s, looks), i);
  }

  lemma {:induction false} WithinTicks(s: Scene, verdict: Verdict, looks: nat)
    requires VerdictFits(s, verdict, looks)
    ensures looks <= |s.ticks|
  {}

  lemma {:induction false} Starts(s: Scene)
    ensures KillsUpTo(s, 0) == [] && StateAt(s, 0) == State(s.started + s.args.poll, false)
  {}

  // One pass: what it finds alive, kills and leaves.
  lemma {:induction false} Steps(s: Scene, i: nat)
    requires i < |s.ticks| && FirstLoop(s, i)
    ensures LiveAt(s, i) == LiveSet(KnownAt(s, i), s.ticks[i].snapshot, s.owner)
    ensures KnownAt(s, i + 1) == Learn(KnownAt(s, i), s.ticks[i].snapshot, s.owner)
    ensures StateAt(s, i + 1) == NextState(s.args, StateAt(s, i), s.ticks[i])
    ensures LiveAt(s, i) == {} ==> KillsUpTo(s, i + 1) == KillsUpTo(s, i)
    ensures LiveAt(s, i) != {} ==>
              KillsUpTo(s, i + 1) == KillsUpTo(s, i) + PassKills(s.args, StateAt(s, i), s.started, i, s.ticks[i], LiveAt(s, i),
                                                               Work(s.args, LiveAt(s, i), s.shim, Initial(s)))
  {
    hide Learn, LiveSet, NextState, PassKills, Initial;
    assert KillsUpTo(s, i) + [] == KillsUpTo(s, i);
  }

  // The first loop: until nothing is alive or the owner's deadline has passed.
  method WaitForWork(tracker: Tracker, s: Scene, initial: set<(int, int)>)
    returns (gone: bool, expired: bool, failed: bool, kills: seq<Kill>, passes: nat)
    requires tracker.owner == s.owner && tracker.known == KnownAt(s, 0) && initial == Initial(s)
    modifies tracker`known
    ensures passes <= |s.ticks| && kills == KillsUpTo(s, passes)
    ensures gone ==> !expired && passes > 0 && FirstLoop(s, passes - 1) && ClearedAt(s, passes - 1)
                     && failed == StateAt(s, passes - 1).telemetryFailed
    ensures !gone ==> AliveUntil(s, passes) && failed == StateAt(s, passes).telemetryFailed
                      && tracker.known == KnownAt(s, passes)
    ensures expired ==> passes > 0 && FirstLoop(s, passes - 1) && !FirstLoop(s, passes) && kills != []
    ensures !gone && !expired ==> passes == |s.ticks| && FirstLoop(s, passes)
  {
    hide KnownAt, StateAt, KillsUpTo, KillsAt, LiveAt, PassKills, NextState, Initial, LiveSet, Learn, WorkAt;
    kills, passes, expired := [], 0, false;
    Starts(s);
    var state := State(s.started + s.args.poll, false);
    while !expired && passes < |s.ticks|
      invariant passes <= |s.ticks| && kills == KillsUpTo(s, passes)
      invariant tracker.known == KnownAt(s, passes)
      invariant state == StateAt(s, passes)
      invariant AliveUntil(s, passes)
      invariant !expired ==> FirstLoop(s, passes)
      invariant expired ==> passes > 0 && FirstLoop(s, passes - 1) && !FirstLoop(s, passes) && kills != []
      decreases |s.ticks| - passes, expired
    {
      var tick := s.ticks[passes];
      var live := tracker.Live(tick.snapshot);
      Steps(s, passes);
      if live == {} {
        return true, false, state.telemetryFailed, kills, passes + 1;
      }
      var more;
      state, more, expired := Pass(s.args, state, s.started, passes, tick, live, s.shim, initial);
      kills := kills + more;
      passes := passes + 1;
      if expired { ExpiryKills(s, passes); }
    }
    return false, expired, state.telemetryFailed, kills, passes;
  }

  // The second loop: nothing alive, too late, or the given world ends.
  method WaitForKilled(tracker: Tracker, s: Scene, from: nat) returns (gone: bool, stuck: bool, looks: nat)
    requires 0 < from <= |s.ticks| && !FirstLoop(s, from)
    requires tracker.owner == s.owner && tracker.known == KnownAt(s, from) && AliveUntil(s, from)
    modifies tracker`known
    ensures from <= looks <= |s.ticks| && !(gone && stuck)
    ensures gone ==> looks > from && ClearedAt(s, looks - 1)
    ensures !gone ==> AliveUntil(s, looks)
    ensures stuck ==> looks < |s.ticks| && TooLate(s, looks)
    ensures !gone && !stuck ==> looks == |s.ticks|
  {
    hide LiveSet, Learn;
    looks := from;
    while looks < |s.ticks|
      invariant from <= looks <= |s.ticks|
      invariant tracker.known == KnownAt(s, looks)
      invariant AliveUntil(s, looks)
      decreases |s.ticks| - looks
    {
      assert !FirstLoop(s, looks) by { StaysSecond(s, from, looks); }
      if s.ticks[looks].now >= s.expiredAt + KILL_GRACE { return false, true, looks; }
      var live := tracker.Live(s.ticks[looks].snapshot);
      assert live == LiveAt(s, looks);
      looks := looks + 1;
      if live == {} { return true, false, looks; }
    }
    return false, false, looks;
  }

  lemma {:induction false} StaysSecond(s: Scene, i: nat, j: nat)
    requires i <= j <= |s.ticks| && !FirstLoop(s, i)
    ensures !FirstLoop(s, j)
  {}

  // The second loop sends no kills.
  lemma {:induction false} NoLaterKills(s: Scene, n: nat, looks: nat)
    requires n <= looks <= |s.ticks| && !FirstLoop(s, n)
    ensures KillsUpTo(s, looks) == KillsUpTo(s, n)
    decreases looks - n
  {
    hide FirstLoop, PassKills, LiveAt, WorkAt, StateAt;
    if n < looks {
      NoLaterKills(s, n, looks - 1);
      StaysSecond(s, n, looks - 1);
      assert KillsUpTo(s, looks) == KillsUpTo(s, looks - 1) + [];
    }
  }

  // Lost telemetry when the first loop ended after n passes, seen at any later look.
  lemma {:induction false} MissesOfFirstLoop(s: Scene, n: nat, m: nat)
    requires n <= m <= |s.ticks|
    requires (n == m && FirstLoop(s, n)) || (n > 0 && FirstLoop(s, n - 1) && !FirstLoop(s, n))
    ensures StateAt(s, n).telemetryFailed <==> MissesBefore(s, m)
  {
    hide StateAt, Samples;
    FailureIsAMiss(s, n);
    forall i | 0 <= i < m
      ensures FirstLoop(s, i) <==> i < n
    {
      if n <= i { StaysSecond(s, n, i); }
    }
  }

  // The whole wait, to the verdict after `looks` passes.
  method Terminate(tracker: Tracker, shim: int, args: Args, first: Snapshot, started: int, ticks: seq<Tick>, expiredAt: int)
    returns (verdict: Verdict, termed: set<Process>, kills: seq<Kill>, looks: nat)
    modifies tracker`known
    ensures termed == LiveSet(old(tracker.known), first, tracker.owner)
    ensures termed == {} ==> verdict == Gone(false, false) && kills == []
    ensures var s := Scene(args, shim, old(tracker.known), tracker.owner, first, started, ticks, expiredAt);
            termed != {} ==> Ends(s, verdict, kills, looks) && KillsFit(s, kills, looks)
  {
    hide KillsFit, LiveSet, Learn, LiveAt, StateAt, KillsUpTo, MissesBefore, FirstLoop;
    var s := Scene(args, shim, tracker.known, tracker.owner, first, started, ticks, expiredAt);
    kills, looks := [], 0;
    termed := tracker.Live(first);
    if termed == {} { return Gone(false, false), termed, kills, 0; }
    var initial := set p | p in termed :: p.Identity();
    var gone, expired, failed, passes;
    gone, expired, failed, kills, passes := WaitForWork(tracker, s, initial);
    if gone {
      MissesOfFirstLoop(s, passes - 1, passes - 1);
      KillsAreFit(s, passes);
      return Gone(kills != [] || ticks[passes - 1].shimEscalated, failed), termed, kills, passes;
    }
    if !expired {
      KillsAreFit(s, passes);
      return Waiting, termed, kills, passes;
    }
    var stuck;
    gone, stuck, looks := WaitForKilled(tracker, s, passes);
    NoLaterKills(s, passes, looks);
    KillsAreFit(s, looks);
    if gone { MissesOfFirstLoop(s, passes, looks - 1); }
    verdict := if gone then Gone(true, failed) else if stuck then Stuck else Waiting;
  }
}
