/**
 The shadow-soak gate (bench/node06_shadow_soak_gate.py): deploying a candidate,
 running the workload and rolling back, under failures of every step and signals
 at every point.
 */
module SoakGate {
  import opened Common

  // How a step ends: normally, with a gate error, with another exception, or with
  // one that only `finally` blocks see.
  datatype Step = Done | GateError | OtherError | Fatal

  // ----- Interrupt flags

  class Flags {
    var requested: bool
    var rollingBack: bool

    constructor ()
      ensures !requested && !rollingBack
    {
      requested, rollingBack := false, false;
    }

    method HandleSignal()
      modifies this`requested
      ensures requested
    {
      requested := true;
    }

    // The check every step makes; it never fires during a rollback.
    method RaiseIfInterrupted() returns (raises: bool)
      ensures raises <==> requested && !rollingBack
    {
      raises := requested && !rollingBack;
    }

    method BeginRollback()
      modifies this`rollingBack
      ensures rollingBack
    {
      rollingBack := true;
    }

    // A signal that arrived at any time is still pending here.
    method EndRollback() returns (pending: bool)
      modifies this`rollingBack
      ensures !rollingBack && pending == requested
    {
      rollingBack := false;
      pending := requested;
    }
  }

  // ----- Rollback

  // One attempt: whether the baseline profile came up and verified, and whether
  // the canonical artifacts were unchanged afterwards.
  datatype Attempt = Attempt(verified: bool, intact: bool)

  datatype Files = Canonical | Frozen

  datatype Restore = Restored | RollbackFailed | ArtifactChanged | ConfigMismatch | CleanupFailed

  // What the two attempts and the final checks amount to. The child is stopped first,
  // as far as that works: a child that cannot be stopped changes nothing here.
  function RestoreSpec(intact: bool, attempts: seq<Attempt>, configMatches: bool, cleanupOk: bool): Restore
    requires |attempts| == 2
  {
    var first := attempts[0].verified && (intact ==> attempts[0].intact);
    if !first && !attempts[1].verified then RollbackFailed
    else if !intact || !first then ArtifactChanged
    else if !configMatches then ConfigMismatch
    else if !cleanupOk then CleanupFailed
    else Restored
  }

  method Rollback(intact: bool, attempts: seq<Attempt>, configMatches: bool, cleanupOk: bool)
    returns (result: Restore, used: seq<Files>)
    requires |attempts| == 2
    ensures result == RestoreSpec(intact, attempts, configMatches, cleanupOk)
    ensures 1 <= |used| <= 2 && used[0] == (if intact then Canonical else Frozen)
    ensures |used| == 2 ==> used[1] == Frozen
    ensures result == Restored ==> used == [Canonical]
  {
    var changed := !intact;
    var files := if intact then Canonical else Frozen;
    var restored := false;
    used := [];
    var attempt := 0;
    while attempt < 2 && !restored
      invariant 0 <= attempt <= 2 && |used| == attempt
      invariant attempt == 0 ==> !restored && changed == !intact && files == (if intact then Canonical else Frozen)
      invariant attempt >= 1 ==> used[0] == (if intact then Canonical else Frozen)
      invariant attempt == 1 ==> restored == (attempts[0].verified && (intact ==> attempts[0].intact))
      invariant attempt == 1 && restored ==> changed == !intact
      invariant attempt == 1 && !restored ==> changed && files == Frozen
      invariant attempt == 2 ==> changed && used[1] == Frozen && restored == attempts[1].verified
                                 && !(attempts[0].verified && (intact ==> attempts[0].intact))
      decreases 2 - attempt
    {
      used := used + [files];
      if attempts[attempt].verified && (changed || attempts[attempt].intact) {
        restored := true;
      } else if attempt == 0 {
        changed, files := true, Frozen;
      }
      attempt := attempt + 1;
    }
    if !restored { return RollbackFailed, used; }
    if changed { return ArtifactChanged, used; }
    if !configMatches { return ConfigMismatch, used; }
    if !cleanupOk { return CleanupFailed, used; }
    return Restored, used;
  }

  // A rollback counts only if its first attempt verified the baseline from
  // canonical artifacts that were unchanged before and after.
  lemma {:induction false} RestoredMeansFirstAttempt(intact: bool, attempts: seq<Attempt>, configMatches: bool, cleanupOk: bool)
    requires |attempts| == 2
    ensures RestoreSpec(intact, attempts, configMatches, cleanupOk) == Restored <==>
            intact && attempts[0] == Attempt(true, true) && configMatches && cleanupOk
  {}

  // ----- The gate

  // Everything the gate depends on. `signals[i]` says a signal arrives before
  // point i: preflight, freeze, deploy, workload, rollback and its end.
  datatype World = World(
    lock: Step,
    preflight: Step,
    freeze: Step,
    deploy: Step,
    workload: Step,
    payloadValid: bool,
    rollback: RollbackWorld,
    signals: seq<bool>)
  {
    predicate Valid() { |signals| == 6 && |rollback.attempts| == 2 }
  }

  // What a rollback meets; `fatal` cuts it short.
  datatype RollbackWorld = RollbackWorld(intact: bool, attempts: seq<Attempt>, configMatches: bool, cleanupOk: bool, fatal: bool)

  // The baseline is back, verified from canonical artifacts at the first attempt.
  predicate RollsBack(r: RollbackWorld) {
    |r.attempts| == 2 && r.intact && r.attempts[0] == Attempt(true, true) && r.configMatches && r.cleanupOk && !r.fatal
  }

  datatype Action = Locked | Mutated | Deployed | WorkloadRan | RollbackAttempted | Unlocked | Discarded | Journaled

  // A signal arrived before or at point i.
  predicate Signalled(w: World, i: nat)
    requires w.Valid() && i < 6
  {
    exists k :: 0 <= k <= i && w.signals[k]
  }

  // A step's outcome once the interrupt check has its say.
  function Outcome(w: World, i: nat, step: Step): Step
    requires w.Valid() && i < 6
  {
    if Signalled(w, i) then GateError else step
  }

  predicate ReachesMutation(w: World)
    requires w.Valid()
  {
    w.lock == Done && Outcome(w, 0, w.preflight) == Done && Outcome(w, 1, w.freeze) == Done
  }

  method Deliver(flags: Flags, arrives: bool)
    modifies flags`requested
    ensures flags.requested == (old(flags.requested) || arrives)
  {
    if arrives { flags.HandleSignal(); }
  }

  method Attempted(flags: Flags, arrives: bool, step: Step) returns (outcome: Step)
    requires !flags.rollingBack
    modifies flags`requested
    ensures flags.requested == (old(flags.requested) || arrives)
    ensures outcome == if flags.requested then GateError else step
  {
    Deliver(flags, arrives);
    var raises := flags.RaiseIfInterrupted();
    outcome := if raises then GateError else step;
  }

  function CandidateTrace(w: World): seq<Action>
    requires w.Valid()
  {
    if Outcome(w, 0, w.preflight) != Done || Outcome(w, 1, w.freeze) != Done then []
    else if Outcome(w, 2, w.deploy) != Done then [Mutated]
    else if Outcome(w, 3, w.workload) != Done then [Mutated, Deployed]
    else [Mutated, Deployed, WorkloadRan]
  }

  // What the gate does, in order.
  function TraceOf(w: World): seq<Action>
    requires w.Valid()
  {
    if w.lock != Done then [Discarded, Journaled]
    else if !ReachesMutation(w) then [Locked, Unlocked, Discarded, Journaled]
    else [Locked] + CandidateTrace(w) + [RollbackAttempted, Unlocked, Journaled]
  }

  // The action happens at step i and at no other.
  predicate OnlyAt(t: seq<Action>, a: Action, i: nat) {
    i < |t| && t[i] == a && forall j :: 0 <= j < |t| && t[j] == a ==> j == i
  }

  predicate Ordered(t: seq<Action>, i: nat, j: nat, k: nat) {
    && i < j < k && OnlyAt(t, Mutated, i) && OnlyAt(t, RollbackAttempted, j) && OnlyAt(t, Unlocked, k)
    && forall m :: 0 <= m < |t| && t[m] == WorkloadRan ==> m < j
  }

  // Rollback once if the mutation point was reached and never otherwise, after the
  // mutation and any workload and before the lock is released; frozen artifacts
  // are discarded only without a mutation; the journal is finished last.
  ghost predicate InPlace(t: seq<Action>, reached: bool) {
    && (reached ==> exists i, j, k :: Ordered(t, i, j, k))
    && (!reached ==> Mutated !in t && RollbackAttempted !in t && WorkloadRan !in t)
    && (Discarded in t <==> !reached)
    && t != [] && t[|t| - 1] == Journaled
  }

  lemma {:induction false} WithoutMutation()
    ensures InPlace([Discarded, Journaled], false) && InPlace([Locked, Unlocked, Discarded, Journaled], false)
  {}

  lemma {:induction false} FailedDeploy()
    ensures InPlace([Locked, Mutated, RollbackAttempted, Unlocked, Journaled], true)
  {
    assert Ordered([Locked, Mutated, RollbackAttempted, Unlocked, Journaled], 1, 2, 3);
  }

  lemma {:induction false} FailedWorkload()
    ensures InPlace([Locked, Mutated, Deployed, RollbackAttempted, Unlocked, Journaled], true)
  {
    assert Ordered([Locked, Mutated, Deployed, RollbackAttempted, Unlocked, Journaled], 1, 3, 4);
  }

  lemma {:induction false} FullRun()
    ensures InPlace([Locked, Mutated, Deployed, WorkloadRan, RollbackAttempted, Unlocked, Journaled], true)
  {
    assert Ordered([Locked, Mutated, Deployed, WorkloadRan, RollbackAttempted, Unlocked, Journaled], 1, 4, 5);
  }

  lemma {:induction false} RollbackIsInPlace(w: World)
    requires w.Valid()
    ensures InPlace(TraceOf(w), ReachesMutation(w))
  {
    hide Outcome, InPlace;
    WithoutMutation();
    FailedDeploy();
    FailedWorkload();
    FullRun();
    var t := TraceOf(w);
    if ReachesMutation(w) {
      if CandidateTrace(w) == [Mutated] {
        assert t == [Locked, Mutated, RollbackAttempted, Unlocked, Journaled];
      } else if CandidateTrace(w) == [Mutated, Deployed] {
        assert t == [Locked, Mutated, Deployed, RollbackAttempted, Unlocked, Journaled];
      } else {
        assert t == [Locked, Mutated, Deployed, WorkloadRan, RollbackAttempted, Unlocked, Journaled];
      }
    }
  }

  // The gated part, up to the end of the workload: how far it got and whether the
  // workload qualified.
  method TryCandidate(flags: Flags, w: World) returns (mutated: bool, passed: bool, fatal: bool, trace: seq<Action>)
    requires w.Valid() && !flags.requested && !flags.rollingBack
    modifies flags
    ensures !flags.rollingBack
    ensures flags.requested ==> Signalled(w, 3)
    ensures passed ==> !flags.requested && flags.requested == Signalled(w, 3)
    ensures mutated <==> Outcome(w, 0, w.preflight) == Done && Outcome(w, 1, w.freeze) == Done
    ensures passed <==> mutated && Outcome(w, 2, w.deploy) == Done && Outcome(w, 3, w.workload) == Done && w.payloadValid
    ensures !(passed && fatal)
    ensures trace == CandidateTrace(w)
  {
    mutated, passed, fatal, trace := false, false, false, [];
    var step := Attempted(flags, w.signals[0], w.preflight);
    if step != Done { return false, false, step == Fatal, trace; }
    step := Attempted(flags, w.signals[1], w.freeze);
    if step != Done { return false, false, step == Fatal, trace; }
    mutated, trace := true, trace + [Mutated];
    step := Attempted(flags, w.signals[2], w.deploy);
    if step != Done { return mutated, false, step == Fatal, trace; }
    trace := trace + [Deployed];
    step := Attempted(flags, w.signals[3], w.workload);
    if step != Done { return mutated, false, step == Fatal, trace; }
    trace := trace + [WorkloadRan];
    passed := w.payloadValid;
  }

  method RunGate(w: World) returns (code: Option<int>, trace: seq<Action>)
    requires w.Valid()
    ensures code == Some(0) <==>
            && ReachesMutation(w)
            && Outcome(w, 2, w.deploy) == Done && Outcome(w, 3, w.workload) == Done && w.payloadValid
            && RollsBack(w.rollback) && !Signalled(w, 5)
    ensures trace == TraceOf(w)
    ensures code.None? || code.value == 0 || code.value == 1
  {
    trace := [];
    var flags := new Flags();
    if w.lock != Done {
      trace := trace + [Discarded, Journaled];
      code := if w.lock == GateError then Some(1) else None;
      return;
    }
    trace := trace + [Locked];
    var mutated, passed, fatal, steps := TryCandidate(flags, w);
    trace := trace + steps;
    var exitCode, raised := if passed then 0 else 1, fatal;
    if mutated {
      Deliver(flags, w.signals[4]);
      flags.BeginRollback();
      trace := trace + [RollbackAttempted];
      var restored := false;
      var interrupted := flags.RaiseIfInterrupted();
      if w.rollback.fatal {
        raised := true;
      } else if interrupted {
        exitCode := 1;
      } else {
        var r := w.rollback;
        var result, used := Rollback(r.intact, r.attempts, r.configMatches, r.cleanupOk);
        RestoredMeansFirstAttempt(r.intact, r.attempts, r.configMatches, r.cleanupOk);
        restored := result == Restored;
        if !restored { exitCode := 1; }
      }
      Deliver(flags, w.signals[5]);
      var pending := flags.EndRollback();
      if pending && restored { exitCode := 1; }
    }
    trace := trace + [Unlocked];
    if !mutated { trace := trace + [Discarded]; }
    trace := trace + [Journaled];
    code := if raised then None else Some(exitCode);
  }
}
