/**
 The GPU guard's control loop (bench/node06_gpu_guard.py, run_guard and exec_shim):
 a cool start, a launch gate, polling with a bounded blind window, and runtime
 limits. Everything outside the guard is an arbitrary input of each poll.
 */
module Guard {
  import opened Common
  import opened ChildTree
  import opened Termination

  const MAX_MISSES := 3
  const EXIT_TELEMETRY := 74
  const EXIT_THERMAL := 75
  const EXIT_INTERNAL := 76
  const EXIT_SHIM_ESCALATED := 77
  const EXIT_SHIM_ORPHAN := 78
  const EXIT_RUNTIME_LIMIT := 79
  const MAX_ABORT_C := 50.0

  // Times in milliseconds, temperatures in degrees.
  datatype Args = Args(
    startMax: real,
    abortAt: real,
    cooldown: int,
    maxRuntime: int,
    startSignal: bool,
    startTimeout: int,
    preserveOwner: bool,
    workloadGrace: int,
    ownerGrace: int,
    poll: int)
  {
    function Stopping(): Termination.Args { Termination.Args(preserveOwner, workloadGrace, ownerGrace, poll, abortAt) }
    // The threshold checks of validate_args.
    predicate Valid() {
      && 15.0 <= startMax <= MAX_ABORT_C - 3.0
      && startMax + 3.0 <= abortAt <= MAX_ABORT_C
      && 1000 <= maxRuntime <= 1_500_000
      && 1000 <= startTimeout <= 3_600_000
      && 0 <= cooldown <= 1_800_000
    }
  }

  datatype Reason = Interrupted | TelemetryUnavailable | TooHot | ThermalAbort | StartTimeout | RuntimeLimit
                  | Orphaned | ChildFailed | InternalError | TerminationTelemetry | TerminationFailed

  datatype Status = Passed | Failed(reason: Reason)

  // What a cool-down poll sees: pending signals before and after the sample
  // (0 for none), the sample, the clock, and whether a step raised.
  datatype CoolPoll = CoolPoll(signal: nat, sample: Sample, signalAfter: nat, now: int, fault: bool)

  // Setting up the child: it may fail before its tree is tracked, or between
  // tracking and the gate; otherwise the gate sees the pending signal.
  datatype Launch = NoTree | GateFault | AtGate(signal: nat)

  // What a run poll sees.
  datatype RunPoll = RunPoll(
    signal: nat,
    exit: Option<int>,
    fault: bool,
    startByte: Option<int>,
    sample: Sample,
    now: int,
    treeLive: bool)

  // What cleaning up meets: the last look at the tree, and for stopping it the first
  // look, the passes, the clock, and whether a step raised.
  datatype Cleanup = Cleanup(look: Snapshot, first: Snapshot, started: int, ticks: seq<Tick>, expiredAt: int, fault: bool)

  // Everything one guarded run meets, with the shim's process id.
  datatype World = World(
    args: Args,
    started: int,
    cool: seq<CoolPoll>,
    launch: Launch,
    workloadStarted: int,
    run: seq<RunPoll>,
    shim: int,
    cleanup: Cleanup)

  function ChildExitCode(code: int): int {
    if code >= 0 then code else 128 + Min(-code, 127)
  }

  // The exit code that goes with a failure.
  function FailureCode(reason: Reason, signal: nat, exit: Option<int>): int {
    match reason
    case Interrupted => 128 + signal
    case TelemetryUnavailable => EXIT_TELEMETRY
    case TerminationTelemetry => EXIT_TELEMETRY
    case TooHot => EXIT_THERMAL
    case ThermalAbort => EXIT_THERMAL
    case StartTimeout => EXIT_RUNTIME_LIMIT
    case RuntimeLimit => EXIT_RUNTIME_LIMIT
    case ChildFailed => if exit.Some? then ChildExitCode(exit.value) else EXIT_INTERNAL
    case _ => EXIT_INTERNAL
  }

  // ----- Properties of a run

  predicate Cool(args: Args, s: Sample) { s.Air? && s.hottest <= args.startMax }

  predicate Hot(args: Args, s: Sample) { s.Air? && s.hottest >= args.abortAt }

  // Missed samples at the end of the first n.
  function Misses(samples: seq<Sample>): nat {
    if samples == [] || samples[|samples| - 1].Air? then 0 else 1 + Misses(samples[..|samples| - 1])
  }

  // No three samples in a row were missed.
  predicate Sighted(samples: seq<Sample>) {
    forall i :: 0 <= i && i + 2 < |samples| ==> samples[i].Air? || samples[i + 1].Air? || samples[i + 2].Air?
  }

  lemma {:induction false} TwoMisses(samples: seq<Sample>)
    requires |samples| >= 2 && samples[|samples| - 1].Missed? && samples[|samples| - 2].Missed?
    ensures Misses(samples) >= 2
  {
    var front := samples[..|samples| - 1];
    assert front[|front| - 1] == samples[|samples| - 2];
  }

  // One more sample keeps the run sighted unless it is the third miss in a row.
  lemma {:induction false} StaysSighted(samples: seq<Sample>, s: Sample)
    requires Sighted(samples) && (s.Air? || Misses(samples) + 1 < MAX_MISSES)
    ensures Sighted(samples + [s])
    ensures Misses(samples + [s]) == if s.Air? then 0 else Misses(samples) + 1
  {
    var more := samples + [s];
    assert more[..|samples|] == samples;
    if |samples| >= 2 && samples[|samples| - 1].Missed? && samples[|samples| - 2].Missed? { TwoMisses(samples); }
    forall i | 0 <= i && i + 2 < |more|
      ensures more[i].Air? || more[i + 1].Air? || more[i + 2].Air?
    {
      if i + 2 < |samples| {
        assert samples[i].Air? || samples[i + 1].Air? || samples[i + 2].Air?;
      }
    }
  }

  function CoolSamples(polls: seq<CoolPoll>): (s: seq<Sample>)
    ensures |s| == |polls| && forall i :: 0 <= i < |s| ==> s[i] == polls[i].sample
  {
    seq(|polls|, i requires 0 <= i < |polls| => polls[i].sample)
  }

  function RunSamples(polls: seq<RunPoll>): (s: seq<Sample>)
    ensures |s| == |polls| && forall i :: 0 <= i < |s| ==> s[i] == polls[i].sample
  {
    seq(|polls|, i requires 0 <= i < |polls| => polls[i].sample)
  }

  // The last three samples were missed.
  predicate Blind(samples: seq<Sample>) {
    && |samples| >= MAX_MISSES
    && forall i :: |samples| - MAX_MISSES <= i < |samples| ==> samples[i].Missed?
  }

  lemma {:induction false} MissesAreMissed(samples: seq<Sample>)
    ensures Misses(samples) <= |samples|
    ensures forall i :: |samples| - Misses(samples) <= i < |samples| ==> samples[i].Missed?
  {
    if samples != [] && samples[|samples| - 1].Missed? { MissesAreMissed(samples[..|samples| - 1]); }
  }

  // Sighted so far, with the given number of misses at the end.
  predicate Seeing(samples: seq<Sample>, misses: nat) {
    Sighted(samples) && misses == Misses(samples) && misses < MAX_MISSES
  }

  lemma {:induction false} StillSighted(samples: seq<Sample>, misses: nat)
    requires Seeing(samples, misses)
    ensures Sighted(samples)
  {}

  lemma {:induction false} NothingSampled()
    ensures Sighted([]) && Seeing([], 0)
  {}

  // A third miss in a row leaves the run blind; anything else keeps it sighted.
  lemma {:induction false} SeeNext(samples: seq<Sample>, misses: nat, s: Sample)
    requires Seeing(samples, misses)
    ensures Sighted(samples)
    ensures if s.Air? || misses + 1 < MAX_MISSES
            then Seeing(samples + [s], if s.Air? then 0 else misses + 1) && Sighted(samples + [s]) && !Blind(samples + [s])
            else Blind(samples + [s]) && !Sighted(samples + [s])
  {
    var more := samples + [s];
    if s.Air? || misses + 1 < MAX_MISSES {
      StaysSighted(samples, s);
      var i := |more| - MAX_MISSES;
      assert i < 0 || more[i].Air? || more[i + 1].Air? || more[i + 2].Air?;
    } else {
      MissesAreMissed(samples);
      var i := |more| - MAX_MISSES;
      assert !(more[i].Air? || more[i + 1].Air? || more[i + 2].Air?);
    }
  }

  // ----- Waiting for a cool start

  // A poll after which the wait goes on.
  predicate Waits(args: Args, started: int, p: CoolPoll) {
    && p.signal == 0 && !p.fault
    && (p.sample.Air? ==> p.signalAfter == 0 && p.sample.hottest > args.startMax && p.now - started < args.cooldown)
  }

  // Why the wait was given up on poll n - 1.
  predicate CoolCause(args: Args, started: int, polls: seq<CoolPoll>, n: nat, reason: Reason)
    requires 0 < n <= |polls|
  {
    var p := polls[n - 1];
    match reason
    case Interrupted => p.signal != 0 || (!p.fault && p.sample.Air? && p.signalAfter != 0)
    case InternalError => p.signal == 0 && p.fault
    case TelemetryUnavailable => p.signal == 0 && !p.fault && Blind(CoolSamples(polls[..n]))
    case TooHot =>
      && p.signal == 0 && p.signalAfter == 0 && !p.fault
      && p.sample.Air? && p.sample.hottest > args.startMax && p.now - started >= args.cooldown
    case _ => false
  }

  method CoolDown(args: Args, started: int, polls: seq<CoolPoll>)
    returns (admitted: bool, reason: Option<Reason>, code: int, n: nat)
    ensures n <= |polls|
    ensures forall i :: 0 <= i < n - 1 ==> Waits(args, started, polls[i])
    ensures n > 0 ==> Sighted(CoolSamples(polls[..n - 1]))
    ensures admitted ==> n > 0 && Cool(args, polls[n - 1].sample) && Sighted(CoolSamples(polls[..n]))
                         && polls[n - 1].signal == 0 && polls[n - 1].signalAfter == 0 && !polls[n - 1].fault
    ensures reason.Some? ==> code != 0 && !admitted && n > 0 && CoolCause(args, started, polls, n, reason.value)
    ensures reason.Some? ==> var p := polls[n - 1];
              code == FailureCode(reason.value, if p.signal != 0 then p.signal else p.signalAfter, None)
    ensures !admitted && reason.None? ==>
              n == |polls| && (n > 0 ==> Waits(args, started, polls[n - 1])) && Sighted(CoolSamples(polls))
  {
    hide Seeing, Sighted, Blind;
    admitted, reason, code, n := false, None, EXIT_INTERNAL, 0;
    var misses := 0;
    NothingSampled();
    assert CoolSamples(polls[..0]) == [];
    while n < |polls|
      invariant n <= |polls| && !admitted && reason.None?
      invariant Seeing(CoolSamples(polls[..n]), misses)
      invariant n > 0 ==> Sighted(CoolSamples(polls[..n - 1]))
      invariant forall i :: 0 <= i < n ==> Waits(args, started, polls[i])
      decreases |polls| - n
    {
      var p := polls[n];
      assert CoolSamples(polls[..n + 1]) == CoolSamples(polls[..n]) + [p.sample];
      SeeNext(CoolSamples(polls[..n]), misses, p.sample);
      n := n + 1;
      if p.signal != 0 { return false, Some(Interrupted), 128 + p.signal, n; }
      if p.fault { return false, Some(InternalError), EXIT_INTERNAL, n; }
      if p.sample.Missed? {
        misses := misses + 1;
        if misses >= MAX_MISSES { return false, Some(TelemetryUnavailable), EXIT_TELEMETRY, n; }
        continue;
      }
      misses := 0;
      if p.signalAfter != 0 { return false, Some(Interrupted), 128 + p.signalAfter, n; }
      if p.sample.hottest <= args.startMax { return true, None, EXIT_INTERNAL, n; }
      if p.now - started >= args.cooldown { return false, Some(TooHot), EXIT_THERMAL, n; }
    }
    assert polls[..n] == polls;
    StillSighted(CoolSamples(polls), misses);
  }

  // ----- The run

  // When the runtime clock started, as known on poll i.
  function ClockStart(args: Args, workloadStarted: int, polls: seq<RunPoll>, i: nat): Option<int>
    requires i < |polls|
  {
    if !args.startSignal then Some(workloadStarted)
    else if i > 0 && ClockStart(args, workloadStarted, polls, i - 1).Some? then ClockStart(args, workloadStarted, polls, i - 1)
    else polls[i].startByte
  }

  // The runtime limit, or the limit on starting the clock, has passed.
  predicate Late(args: Args, workloadStarted: int, clock: Option<int>, p: RunPoll) {
    match clock
    case None => p.now - workloadStarted >= args.startTimeout
    case Some(t) => p.now - t >= args.maxRuntime
  }

  predicate Overdue(args: Args, workloadStarted: int, polls: seq<RunPoll>, i: nat)
    requires i < |polls|
  {
    Late(args, workloadStarted, ClockStart(args, workloadStarted, polls, i), polls[i])
  }

  // A poll after which the guard goes on.
  predicate QuietPoll(args: Args, workloadStarted: int, clock: Option<int>, p: RunPoll) {
    && p.signal == 0 && !p.fault && p.exit.None?
    && (p.sample.Air? ==> p.sample.hottest < args.abortAt && !Late(args, workloadStarted, clock, p))
  }

  predicate Quiet(args: Args, workloadStarted: int, polls: seq<RunPoll>, i: nat)
    requires i < |polls|
  {
    QuietPoll(args, workloadStarted, ClockStart(args, workloadStarted, polls, i), polls[i])
  }

  // A poll on which a run passes.
  predicate CleanPoll(args: Args, workloadStarted: int, clock: Option<int>, p: RunPoll) {
    && p.signal == 0 && !p.fault && p.exit == Some(0) && !p.treeLive
    && (p.sample.Air? ==> p.sample.hottest < args.abortAt)
    && !Late(args, workloadStarted, clock, p)
  }

  predicate Clean(args: Args, workloadStarted: int, polls: seq<RunPoll>, i: nat)
    requires i < |polls|
  {
    CleanPoll(args, workloadStarted, ClockStart(args, workloadStarted, polls, i), polls[i])
  }

  // What on this poll justifies ending the run for this reason; `blind` says the
  // last three samples were missed.
  predicate Cause(args: Args, workloadStarted: int, clock: Option<int>, p: RunPoll, blind: bool, reason: Reason) {
    match reason
    case Interrupted => p.signal != 0
    case InternalError => p.fault
    case TelemetryUnavailable => blind
    case ThermalAbort => Hot(args, p.sample)
    case StartTimeout => clock.None? && Late(args, workloadStarted, clock, p)
    case RuntimeLimit => clock.Some? && Late(args, workloadStarted, clock, p)
    case Orphaned => p.exit.Some? && (p.treeLive || p.exit.value in {EXIT_SHIM_ESCALATED, EXIT_SHIM_ORPHAN})
    case ChildFailed => p.exit.Some? && p.exit.value != 0
    case _ => false
  }

  // Precedence of causes that hold together.
  function Precedence(reason: Reason): nat {
    match reason
    case Interrupted => 0
    case InternalError => 1
    case TelemetryUnavailable => 2
    case ThermalAbort => 3
    case StartTimeout => 4
    case RuntimeLimit => 5
    case Orphaned => 6
    case _ => 7
  }

  // The cause that takes precedence over all others that hold.
  predicate MainCause(args: Args, workloadStarted: int, clock: Option<int>, p: RunPoll, blind: bool, reason: Reason) {
    && Cause(args, workloadStarted, clock, p, blind, reason)
    && forall other :: Precedence(other) < Precedence(reason) ==> !Cause(args, workloadStarted, clock, p, blind, other)
  }

  datatype Ending = Open | Ended(status: Status, code: int)

  // One poll, `misses` missed samples into a blind stretch.
  method Poll(args: Args, workloadStarted: int, clock: Option<int>, p: RunPoll, misses: nat) returns (ending: Ending)
    ensures ending.Open? <==> QuietPoll(args, workloadStarted, clock, p) && (p.sample.Missed? ==> misses + 1 < MAX_MISSES)
    ensures ending.Ended? ==> (ending.code == 0 <==> ending.status == Passed)
    ensures ending.Ended? ==>
              (ending.status == Passed <==>
               CleanPoll(args, workloadStarted, clock, p) && (p.sample.Missed? ==> misses + 1 < MAX_MISSES))
    ensures ending.Ended? && ending.status.Failed? ==>
              && MainCause(args, workloadStarted, clock, p, p.sample.Missed? && misses + 1 >= MAX_MISSES, ending.status.reason)
              && ending.code == FailureCode(ending.status.reason, p.signal, p.exit)
  {
    if p.signal != 0 { return Ended(Failed(Interrupted), 128 + p.signal); }
    if p.fault { return Ended(Failed(InternalError), EXIT_INTERNAL); }
    if p.sample.Missed? {
      if misses + 1 >= MAX_MISSES { return Ended(Failed(TelemetryUnavailable), EXIT_TELEMETRY); }
      if p.exit.None? { return Open; }
    } else if p.sample.hottest >= args.abortAt {
      return Ended(Failed(ThermalAbort), EXIT_THERMAL);
    }
    if clock.None? && p.now - workloadStarted >= args.startTimeout {
      return Ended(Failed(StartTimeout), EXIT_RUNTIME_LIMIT);
    }
    if clock.Some? && p.now - clock.value >= args.maxRuntime {
      return Ended(Failed(RuntimeLimit), EXIT_RUNTIME_LIMIT);
    }
    if p.exit.None? { return Open; }
    if p.treeLive { return Ended(Failed(Orphaned), EXIT_INTERNAL); }
    if p.exit.value == 0 { return Ended(Passed, 0); }
    if p.exit.value == EXIT_SHIM_ESCALATED || p.exit.value == EXIT_SHIM_ORPHAN {
      return Ended(Failed(Orphaned), EXIT_INTERNAL);
    }
    return Ended(Failed(ChildFailed), ChildExitCode(p.exit.value));
  }

  // The run ended after n polls for its main cause, with the code that goes with it.
  predicate FailsFor(args: Args, workloadStarted: int, polls: seq<RunPoll>, n: nat, ending: Ending)
    requires 0 < n <= |polls| && ending.Ended? && ending.status.Failed?
  {
    var p := polls[n - 1];
    && MainCause(args, workloadStarted, ClockStart(args, workloadStarted, polls, n - 1), p,
                 Blind(RunSamples(polls[..n])), ending.status.reason)
    && ending.code == FailureCode(ending.status.reason, p.signal, p.exit)
  }

  // How supervising ends after n polls: open through quiet polls only, ended on the first
  // other poll or third miss, and passed exactly on a clean poll with no blind stretch.
  predicate RunEnds(args: Args, workloadStarted: int, polls: seq<RunPoll>, n: nat, ending: Ending) {
    && n <= |polls|
    && (forall i :: 0 <= i < n - 1 ==> Quiet(args, workloadStarted, polls, i))
    && (n > 0 ==> Sighted(RunSamples(polls[..n - 1])))
    && match ending
       case Open => n == |polls| && (n > 0 ==> Quiet(args, workloadStarted, polls, n - 1)) && Sighted(RunSamples(polls))
       case Ended(status, code) =>
         && n > 0 && !(Quiet(args, workloadStarted, polls, n - 1) && Sighted(RunSamples(polls[..n])))
         && (code == 0 <==> status == Passed)
         && (status == Passed <==> Clean(args, workloadStarted, polls, n - 1) && Sighted(RunSamples(polls[..n])))
         && (status.Failed? ==> FailsFor(args, workloadStarted, polls, n, ending))
  }

  // The polling loop.
  method Supervise(args: Args, workloadStarted: int, polls: seq<RunPoll>) returns (ending: Ending, n: nat)
    ensures RunEnds(args, workloadStarted, polls, n, ending)
  {
    hide QuietPoll, CleanPoll, MainCause, Sighted, Seeing, Blind;
    ending, n := Open, 0;
    var misses := 0;
    var clock := if args.startSignal then None else Some(workloadStarted);
    NothingSampled();
    assert RunSamples(polls[..0]) == [];
    while n < |polls|
      invariant n <= |polls| && ending.Open?
      invariant n > 0 ==> Sighted(RunSamples(polls[..n - 1]))
      invariant forall i :: 0 <= i < n ==> Quiet(args, workloadStarted, polls, i)
      invariant clock == if n > 0 then ClockStart(args, workloadStarted, polls, n - 1)
                         else if args.startSignal then None else Some(workloadStarted)
      invariant Seeing(RunSamples(polls[..n]), misses)
      decreases |polls| - n
    {
      var p := polls[n];
      assert RunSamples(polls[..n + 1]) == RunSamples(polls[..n]) + [p.sample];
      SeeNext(RunSamples(polls[..n]), misses, p.sample);
      if clock.None? { clock := p.startByte; }
      assert clock == ClockStart(args, workloadStarted, polls, n);
      ending := Poll(args, workloadStarted, clock, p, misses);
      n := n + 1;
      if ending.Ended? { return; }
      misses := if p.sample.Missed? then misses + 1 else 0;
    }
    assert polls[..n] == polls;
    StillSighted(RunSamples(polls), misses);
  }

  // A run that is overdue is stopped within two more polls: missed samples can
  // delay the check, but never three times.
  lemma {:induction false} OverrunIsBounded(args: Args, workloadStarted: int, polls: seq<RunPoll>, n: nat, k: nat)
    requires k < n <= |polls|
    requires forall i :: 0 <= i < n - 1 ==> Quiet(args, workloadStarted, polls, i)
    requires Sighted(RunSamples(polls[..n - 1]))
    requires forall i :: k <= i < n ==> Overdue(args, workloadStarted, polls, i)
    ensures n <= k + 3
  {
    var s := RunSamples(polls[..n - 1]);
    var sighted := k + 2 >= |s| || s[k].Air? || s[k + 1].Air? || s[k + 2].Air?;
    assert sighted;
    forall i | k <= i < n - 1
      ensures s[i].Missed?
    {
      assert Quiet(args, workloadStarted, polls, i) && Overdue(args, workloadStarted, polls, i);
    }
  }

  // Once the runtime clock runs and time does not go back, overdue stays overdue.
  lemma {:induction false} OverdueStays(args: Args, workloadStarted: int, polls: seq<RunPoll>, k: nat, i: nat)
    requires k <= i < |polls| && ClockStart(args, workloadStarted, polls, k).Some?
    requires forall a, b :: 0 <= a <= b < |polls| ==> polls[a].now <= polls[b].now
    ensures ClockStart(args, workloadStarted, polls, i) == ClockStart(args, workloadStarted, polls, k)
    ensures Overdue(args, workloadStarted, polls, k) ==> Overdue(args, workloadStarted, polls, i)
  {
    if k < i { OverdueStays(args, workloadStarted, polls, k, i - 1); }
  }

  // ----- The whole guard

  // Contents of the launch pipe once the guard has closed it.
  const LAUNCH := "1"

  // The shim reads the pipe and starts the command only on the launch byte.
  method ShimGate(pipe: string) returns (starts: bool)
    ensures starts <==> pipe == LAUNCH
  {
    var launched := if |pipe| <= 2 then pipe else pipe[..2];
    starts := launched == LAUNCH;
    if |pipe| > 2 { assert |launched| == 2; }
  }

  datatype Report = Report(status: Status, code: int)

  // Poll m - 1 of the cool-down admits the run.
  predicate Admits(w: World, m: nat) {
    && 0 < m <= |w.cool|
    && var p := w.cool[m - 1];
       Cool(w.args, p.sample) && p.signal == 0 && p.signalAfter == 0 && !p.fault
  }

  // The run itself passed, before cleanup.
  predicate RunPassed(w: World, m: nat, n: nat) {
    && Admits(w, m) && Sighted(CoolSamples(w.cool[..m]))
    && (forall i :: 0 <= i < m - 1 ==> Waits(w.args, w.started, w.cool[i]))
    && w.launch == AtGate(0)
    && 0 < n <= |w.run| && Sighted(RunSamples(w.run[..n]))
    && (forall i :: 0 <= i < n - 1 ==> Quiet(w.args, w.workloadStarted, w.run, i))
    && Clean(w.args, w.workloadStarted, w.run, n - 1)
  }

  // The wait for a cool start did not end.
  predicate StillWaiting(w: World, m: nat) {
    && m == |w.cool| && (m > 0 ==> Waits(w.args, w.started, w.cool[m - 1])) && Sighted(CoolSamples(w.cool))
  }

  // The wait was given up on poll m - 1, for its cause and with the code that goes with it.
  predicate GivesUp(w: World, m: nat, ending: Ending) {
    && 0 < m <= |w.cool| && ending.Ended? && ending.status.Failed? && ending.code != 0
    && CoolCause(w.args, w.started, w.cool, m, ending.status.reason)
    && var p := w.cool[m - 1];
       ending.code == FailureCode(ending.status.reason, if p.signal != 0 then p.signal else p.signalAfter, None)
  }

  // How the run ended before cleanup, after m polls of the cool-down and n of the run:
  // open if the given world ends first.
  predicate EndsAs(w: World, m: nat, n: nat, ending: Ending) {
    && m <= |w.cool| && (forall i :: 0 <= i < m - 1 ==> Waits(w.args, w.started, w.cool[i]))
    && (m > 0 ==> Sighted(CoolSamples(w.cool[..m - 1])))
    && if StillWaiting(w, m) then n == 0 && ending == Open
       else if !Admits(w, m) then n == 0 && GivesUp(w, m, ending)
       else match w.launch
         case AtGate(signal) =>
           if signal != 0 then n == 0 && ending == Ended(Failed(Interrupted), 128 + signal)
           else RunEnds(w.args, w.workloadStarted, w.run, n, ending)
         case _ => n == 0 && ending == Ended(Failed(InternalError), EXIT_INTERNAL)
  }

  // The child's tree is tracked once the run is admitted and its setup got that far.
  predicate Tracked(w: World, m: nat) { Admits(w, m) && !w.launch.NoTree? }

  // Everything up to cleanup.
  method Conduct(w: World) returns (ending: Ending, tracked: bool, pipe: string, m: nat, n: nat)
    ensures EndsAs(w, m, n, ending) && tracked == Tracked(w, m)
    ensures pipe == if Admits(w, m) && w.launch == AtGate(0) then LAUNCH else ""
    ensures pipe == LAUNCH ==> Cool(w.args, w.cool[m - 1].sample) && forall i :: 0 <= i < m ==> w.cool[i].signal == 0
  {
    hide Sighted, MainCause, CoolCause, RunEnds;
    pipe, n, tracked := "", 0, false;
    var admitted, reason, code;
    admitted, reason, code, m := CoolDown(w.args, w.started, w.cool);
    if !admitted {
      if reason.None? { return Open, tracked, pipe, m, n; }
      GivenUp(w, m, reason.value);
      return Ended(Failed(reason.value), code), tracked, pipe, m, n;
    }
    match w.launch {
      case NoTree =>
        ending := Ended(Failed(InternalError), EXIT_INTERNAL);
      case GateFault =>
        tracked, ending := true, Ended(Failed(InternalError), EXIT_INTERNAL);
      case AtGate(signal) =>
        tracked := true;
        if signal != 0 {
          ending := Ended(Failed(Interrupted), 128 + signal);
        } else {
          pipe := LAUNCH;
          ending, n := Supervise(w.args, w.workloadStarted, w.run);
        }
    }
  }

  // A poll on which the wait is given up neither admits the run nor lets the wait go on.
  lemma {:induction false} GivenUp(w: World, m: nat, reason: Reason)
    requires 0 < m <= |w.cool| && CoolCause(w.args, w.started, w.cool, m, reason)
    ensures !Admits(w, m) && !StillWaiting(w, m)
    ensures Waits(w.args, w.started, w.cool[m - 1]) ==> !Sighted(CoolSamples(w.cool[..m]))
  {
    if reason.TelemetryUnavailable? { BlindIsUnsighted(w, m); }
  }

  lemma {:induction false} BlindIsUnsighted(w: World, m: nat)
    requires m <= |w.cool| && Blind(CoolSamples(w.cool[..m]))
    ensures !Sighted(CoolSamples(w.cool[..m])) && !Sighted(CoolSamples(w.cool)) && w.cool[m - 1].sample.Missed?
  {
    var s := CoolSamples(w.cool[..m]);
    var whole := CoolSamples(w.cool);
    var i := m - MAX_MISSES;
    assert s[i].Missed? && s[i + 1].Missed? && s[i + 2].Missed?;
    assert !(whole[i].Air? || whole[i + 1].Air? || whole[i + 2].Air?);
    assert !(s[i].Air? || s[i + 1].Air? || s[i + 2].Air?);
  }

  // How stopping the tree went: nothing was alive, it came to a verdict, or it raised.
  datatype Stop = NotNeeded | Stopped(verdict: Verdict, kills: seq<Kill>) | Raised {
    predicate Cleared() { NotNeeded? || (Stopped? && verdict.Gone?) }
    predicate LostTelemetry() { Stopped? && verdict.Gone? && verdict.telemetryFailed }
  }

  // What stopping the tree meets, once the last look is learnt.
  ghost function StopScene(w: World, known: set<(int, int)>, owner: int): Scene {
    var c := w.cleanup;
    Scene(w.args.Stopping(), w.shim, Learn(known, c.look, owner), owner, c.first, c.started, c.ticks, c.expiredAt)
  }

  // Something is alive at the last look.
  ghost predicate NeedsStop(w: World, known: set<(int, int)>, owner: int) {
    LiveSet(known, w.cleanup.look, owner) != {}
  }

  // Nothing of the tree is left when stopping it begins.
  ghost predicate AlreadyGone(s: Scene) { LiveSet(s.known, s.first, s.owner) == {} }

  // The verdict and kills of the termination loops on this tree.
  ghost predicate StopFits(w: World, known: set<(int, int)>, owner: int, stop: Stop) {
    var s := StopScene(w, known, owner);
    match stop
    case NotNeeded => !NeedsStop(w, known, owner)
    case Raised => NeedsStop(w, known, owner) && w.cleanup.fault
    case Stopped(verdict, kills) =>
      && NeedsStop(w, known, owner) && !w.cleanup.fault
      && if AlreadyGone(s) then verdict == Gone(false, false) && kills == []
         else exists looks: nat :: Ends(s, verdict, kills, looks)
  }

  method StopTree(w: World, tracker: Tracker) returns (stop: Stop)
    modifies tracker`known
    ensures StopFits(w, old(tracker.known), tracker.owner, stop)
  {
    hide VerdictFits, KillsFit, KillsUpTo, LiveSet, Learn;
    var c := w.cleanup;
    var live := tracker.Live(c.look);
    if live == {} { return NotNeeded; }
    if c.fault { return Raised; }
    var verdict, termed, kills, looks := Terminate(tracker, w.shim, w.args.Stopping(), c.first, c.started, c.ticks, c.expiredAt);
    return Stopped(verdict, kills);
  }

  // The report from how the run ended and how the tree was stopped.
  predicate Concludes(ending: Ending, stop: Stop, report: Option<Report>) {
    && (report.None? <==> ending.Open? || (stop.Stopped? && stop.verdict.Waiting?))
    && (report.Some? ==>
          if !stop.Cleared() then report.value == Report(Failed(TerminationFailed), EXIT_INTERNAL)
          else if stop.LostTelemetry() then
            && report.value.code == EXIT_TELEMETRY
            && report.value.status == (if ending.status == Passed then Passed else Failed(TerminationTelemetry))
          else report.value == Report(ending.status, ending.code))
  }

  // A guarded run of this world: how it ended, how its tree was stopped, what it reported.
  ghost predicate Guards(w: World, known: set<(int, int)>, owner: int, m: nat, n: nat, ending: Ending, stop: Stop,
                         report: Option<Report>) {
    && EndsAs(w, m, n, ending) && Concludes(ending, stop, report)
    && if ending.Ended? && Tracked(w, m) then StopFits(w, known, owner, stop) else stop == NotNeeded
  }

  // The guard over one complete world.
  method RunGuard(w: World, tracker: Tracker)
    returns (report: Option<Report>, pipe: string, ending: Ending, stop: Stop, m: nat, n: nat)
    modifies tracker`known
    ensures Guards(w, old(tracker.known), tracker.owner, m, n, ending, stop, report)
    ensures pipe == if Admits(w, m) && w.launch == AtGate(0) then LAUNCH else ""
    ensures pipe == LAUNCH ==> Cool(w.args, w.cool[m - 1].sample) && forall i :: 0 <= i < m ==> w.cool[i].signal == 0
  {
    hide EndsAs, StopFits;
    var tracked;
    ending, tracked, pipe, m, n := Conduct(w);
    stop := NotNeeded;
    if ending.Open? { return None, pipe, ending, stop, m, n; }
    if tracked { stop := StopTree(w, tracker); }
    report := Some(Report(ending.status, ending.code));
    match stop {
      case NotNeeded =>
      case Raised => report := Some(Report(Failed(TerminationFailed), EXIT_INTERNAL));
      case Stopped(verdict, _) =>
        match verdict {
          case Waiting => report := None;
          case Stuck => report := Some(Report(Failed(TerminationFailed), EXIT_INTERNAL));
          case Gone(_, failed) =>
            // The status is left as the run ended it.
            if failed {
              var status := if ending.status.Failed? then Failed(TerminationTelemetry) else ending.status;
              report := Some(Report(status, EXIT_TELEMETRY));
            }
        }
    }
  }

  // ----- One world, one report

  lemma {:induction false} SightedPrefix(samples: seq<Sample>, k: nat)
    requires k <= |samples| && Sighted(samples)
    ensures Sighted(samples[..k])
  {
    var s := samples[..k];
    forall i | 0 <= i && i + 2 < |s|
      ensures s[i].Air? || s[i + 1].Air? || s[i + 2].Air?
    {
      assert samples[i].Air? || samples[i + 1].Air? || samples[i + 2].Air?;
    }
  }

  // The main cause of a poll is one.
  lemma {:induction false} OneCause(args: Args, workloadStarted: int, clock: Option<int>, p: RunPoll, blind: bool, r: Reason, q: Reason)
    requires MainCause(args, workloadStarted, clock, p, blind, r) && MainCause(args, workloadStarted, clock, p, blind, q)
    ensures r == q
  {}

  // A run goes on through every poll before its last.
  lemma {:induction false} GoesOn(args: Args, workloadStarted: int, polls: seq<RunPoll>, n: nat, k: nat, y: Ending)
    requires RunEnds(args, workloadStarted, polls, k, y) && n < k
    ensures Sighted(RunSamples(polls[..n])) && (n > 0 ==> Quiet(args, workloadStarted, polls, n - 1))
  {
    hide Quiet, Clean, FailsFor, Sighted;
    var s := RunSamples(polls[..k - 1]);
    SightedPrefix(s, n);
    assert s[..n] == RunSamples(polls[..n]);
  }

  // A run has one length: the polls up to its first stop.
  lemma {:induction false} OneLength(args: Args, workloadStarted: int, polls: seq<RunPoll>, n: nat, x: Ending, k: nat, y: Ending)
    requires RunEnds(args, workloadStarted, polls, n, x) && RunEnds(args, workloadStarted, polls, k, y)
    ensures n >= k
  {
    hide Quiet, Clean, FailsFor, Sighted;
    if n < k { GoesOn(args, workloadStarted, polls, n, k, y); }
  }

  lemma {:induction false} OneRun(args: Args, workloadStarted: int, polls: seq<RunPoll>, n: nat, x: Ending, k: nat, y: Ending)
    requires RunEnds(args, workloadStarted, polls, n, x) && RunEnds(args, workloadStarted, polls, k, y)
    ensures n == k && x == y
  {
    hide Quiet, Clean, Sighted, MainCause;
    OneLength(args, workloadStarted, polls, n, x, k, y);
    OneLength(args, workloadStarted, polls, k, y, n, x);
    assert polls[..|polls|] == polls;
    if x.Ended? && y.Ended? && x.status.Failed? && y.status.Failed? {
      var p := polls[n - 1];
      OneCause(args, workloadStarted, ClockStart(args, workloadStarted, polls, n - 1), p, Blind(RunSamples(polls[..n])),
               x.status.reason, y.status.reason);
    }
  }

  // Poll m - 1 of the cool-down does not let the wait go on.
  lemma {:induction false} WaitStops(w: World, m: nat, n: nat, ending: Ending)
    requires EndsAs(w, m, n, ending) && !StillWaiting(w, m)
    ensures 0 < m && (Waits(w.args, w.started, w.cool[m - 1]) ==> !Sighted(CoolSamples(w.cool[..m])))
  {
    hide Sighted, CoolCause, RunEnds;
    if !Admits(w, m) { GivenUp(w, m, ending.status.reason); }
  }

  lemma {:induction false} WaitGoesOn(w: World, m: nat, k: nat, n: nat, ending: Ending)
    requires EndsAs(w, k, n, ending) && m < k
    ensures !StillWaiting(w, m)
    ensures Sighted(CoolSamples(w.cool[..m])) && (m > 0 ==> Waits(w.args, w.started, w.cool[m - 1]))
  {
    hide Sighted, Waits, GivesUp, RunEnds;
    var s := CoolSamples(w.cool[..k - 1]);
    SightedPrefix(s, m);
    assert s[..m] == CoolSamples(w.cool[..m]);
  }

  // A wait has one length.
  lemma {:induction false} OneWait(w: World, m: nat, n: nat, x: Ending, k: nat, j: nat, y: Ending)
    requires EndsAs(w, m, n, x) && EndsAs(w, k, j, y)
    ensures m >= k
  {
    hide Sighted, Waits, GivesUp, RunEnds;
    if m < k {
      WaitGoesOn(w, m, k, j, y);
      WaitStops(w, m, n, x);
    }
  }

  // One world has one ending.
  lemma {:induction false} OneEnding(w: World, m: nat, n: nat, x: Ending, k: nat, j: nat, y: Ending)
    requires EndsAs(w, m, n, x) && EndsAs(w, k, j, y)
    ensures m == k && n == j && x == y
  {
    hide Sighted, RunEnds;
    OneWait(w, m, n, x, k, j, y);
    OneWait(w, k, j, y, m, n, x);
    if Admits(w, m) && w.launch == AtGate(0) {
      OneRun(w.args, w.workloadStarted, w.run, n, x, j, y);
    }
  }

  // One tree is stopped in one way.
  lemma {:induction false} OneStop(w: World, known: set<(int, int)>, owner: int, stop: Stop, other: Stop)
    requires StopFits(w, known, owner, stop) && StopFits(w, known, owner, other)
    ensures stop == other
  {
    hide VerdictFits, NeedsStop, AlreadyGone, KillsUpTo;
    var s := StopScene(w, known, owner);
    if stop.Stopped? && other.Stopped? && !AlreadyGone(s) {
      var n: nat :| Ends(s, stop.verdict, stop.kills, n);
      var m: nat :| Ends(s, other.verdict, other.kills, m);
      OneVerdict(s, stop.verdict, n, other.verdict, m);
    }
  }

  // One world has one report.
  lemma {:induction false} OneReport(w: World, known: set<(int, int)>, owner: int, m: nat, n: nat, x: Ending, stop: Stop,
                                     report: Option<Report>, k: nat, j: nat, y: Ending, other: Stop, another: Option<Report>)
    requires Guards(w, known, owner, m, n, x, stop, report) && Guards(w, known, owner, k, j, y, other, another)
    ensures m == k && n == j && x == y && stop == other && report == another
  {
    hide EndsAs, StopFits;
    OneEnding(w, m, n, x, k, j, y);
    if x.Ended? && Tracked(w, m) { OneStop(w, known, owner, stop, other); }
  }

  // ----- What the report means, from the world alone

  // The run comes to a clean end.
  ghost predicate Passes(w: World) { exists m: nat, n: nat :: RunPassed(w, m, n) }

  // Stopping begins with something alive and finds nothing alive in time.
  ghost predicate StopClears(s: Scene) { !AlreadyGone(s) && exists n: nat :: ClearedAt(s, n) }

  // The tree is gone in the end.
  ghost predicate Clears(w: World, known: set<(int, int)>, owner: int) {
    var s := StopScene(w, known, owner);
    !NeedsStop(w, known, owner) || (!w.cleanup.fault && (AlreadyGone(s) || StopClears(s)))
  }

  // The tree is gone in the end, and a sample read before that was missed.
  ghost predicate LosesTelemetry(w: World, known: set<(int, int)>, owner: int) {
    var s := StopScene(w, known, owner);
    NeedsStop(w, known, owner) && !w.cleanup.fault && !AlreadyGone(s)
    && exists n: nat :: ClearedAt(s, n) && MissesBefore(s, n)
  }

  // A run that ended passed is one that comes to a clean end.
  lemma {:induction false} PassedRun(w: World, m: nat, n: nat, ending: Ending)
    requires EndsAs(w, m, n, ending)
    ensures ending == Ended(Passed, 0) <==> Passes(w)
    ensures ending.Ended? && ending.status == Passed ==> ending.code == 0 && Tracked(w, m)
    ensures ending.Ended? && ending.code == 0 ==> ending.status == Passed
  {
    hide Sighted, Waits, CoolCause, FailsFor, Quiet, Clean;
    if ending.Ended? && ending.status == Passed {
      AdmittedSighted(w, m);
      assert RunPassed(w, m, n);
    }
    if Passes(w) {
      var k: nat, j: nat :| RunPassed(w, k, j);
      PassedEnds(w, k, j);
      OneEnding(w, m, n, ending, k, j, Ended(Passed, 0));
    }
  }

  lemma {:induction false} AdmittedSighted(w: World, m: nat)
    requires Admits(w, m) && Sighted(CoolSamples(w.cool[..m - 1]))
    ensures Sighted(CoolSamples(w.cool[..m]))
  {
    assert CoolSamples(w.cool[..m]) == CoolSamples(w.cool[..m - 1]) + [w.cool[m - 1].sample];
    StaysSighted(CoolSamples(w.cool[..m - 1]), w.cool[m - 1].sample);
  }

  lemma {:induction false} PassedEnds(w: World, m: nat, n: nat)
    requires RunPassed(w, m, n)
    ensures EndsAs(w, m, n, Ended(Passed, 0))
  {
    hide Sighted, ClockStart;
    SightedPrefix(CoolSamples(w.cool[..m]), m - 1);
    assert CoolSamples(w.cool[..m])[..m - 1] == CoolSamples(w.cool[..m - 1]);
    SightedPrefix(RunSamples(w.run[..n]), n - 1);
    assert RunSamples(w.run[..n])[..n - 1] == RunSamples(w.run[..n - 1]);
  }

  // Stopping is cleared, and loses telemetry, exactly as the world says.
  lemma {:induction false} StopMeans(w: World, known: set<(int, int)>, owner: int, stop: Stop)
    requires StopFits(w, known, owner, stop)
    ensures stop.Cleared() <==> Clears(w, known, owner)
    ensures stop.LostTelemetry() <==> LosesTelemetry(w, known, owner)
  {
    hide VerdictFits, NeedsStop, AlreadyGone, KillsUpTo, ClearedAt, MissesBefore;
    var s := StopScene(w, known, owner);
    if stop.Stopped? && !AlreadyGone(s) {
      var looks: nat :| Ends(s, stop.verdict, stop.kills, looks);
      GoneExactly(s, stop.verdict, looks);
    }
  }

  // What a report says, from the world alone: passed exactly if the run comes to a clean
  // end and the tree is gone in the end; and then code 74 exactly if stopping the tree
  // missed a sample it read, code zero otherwise.
  lemma {:induction false} ReportMeans(w: World, known: set<(int, int)>, owner: int, m: nat, n: nat, ending: Ending, stop: Stop,
                                       report: Option<Report>)
    requires Guards(w, known, owner, m, n, ending, stop, report)
    ensures report.Some? && report.value.status == Passed <==> Passes(w) && Clears(w, known, owner)
    ensures report == Some(Report(Passed, EXIT_TELEMETRY)) <==> Passes(w) && LosesTelemetry(w, known, owner)
    ensures report.Some? && report.value.code == 0 <==>
            Passes(w) && Clears(w, known, owner) && !LosesTelemetry(w, known, owner)
  {
    hide EndsAs, StopFits, Passes, Clears, LosesTelemetry;
    PassedRun(w, m, n, ending);
    if ending.Ended? && Tracked(w, m) {
      StopMeans(w, known, owner, stop);
      LossClears(w, known, owner);
    }
  }

  lemma {:induction false} LossClears(w: World, known: set<(int, int)>, owner: int)
    ensures LosesTelemetry(w, known, owner) ==> Clears(w, known, owner)
  {
    hide AlreadyGone, NeedsStop, ClearedAt, MissesBefore;
  }

  // A record that says passed with a failure code: after a clean run one process is
  // alive, and the sample read while it is stopped is missed.
  method PassedWithFailureCode() returns (report: Option<Report>)
    ensures report == Some(Report(Passed, EXIT_TELEMETRY))
  {
    var args := Args.Args(20.0, 40.0, 1000, 1000, false, 1000, false, 1000, 2000, 10);
    var tracker := new Tracker(1, Process(2, 1, 5, false));
    var late := Process(3, 1, 7, false);
    var cool := [CoolPoll(0, Air(20.0), 0, 0, false)];
    var run := [RunPoll(0, Some(0), false, None, Air(20.0), 0, false)];
    var ticks := [Tick(map[3 := late], 10, Missed, false), Tick(map[], 20, Missed, false)];
    var cleanup := Cleanup(map[3 := late], map[3 := late], 0, ticks, 0, false);
    var w := World(args, 0, cool, AtGate(0), 0, run, 2, cleanup);
    ghost var known := tracker.known;
    var pipe, ending, stop, m, n;
    report, pipe, ending, stop, m, n := RunGuard(w, tracker);
    assert Passes(w) by { assert RunPassed(w, 1, 1); }
    MissLosesTelemetry(w, known, 1, late);
    ReportMeans(w, known, 1, m, n, ending, stop, report);
  }

  // One process reparented to the owner, a sample due and missed, and nothing alive after that.
  lemma {:induction false} MissLosesTelemetry(w: World, known: set<(int, int)>, owner: int, p: Process)
    requires p.parent == owner && p.pid != owner && !p.zombie && !w.cleanup.fault
    requires w.cleanup.look == w.cleanup.first == map[p.pid := p] && |w.cleanup.ticks| == 2
    requires w.cleanup.ticks[0].snapshot == map[p.pid := p] && w.cleanup.ticks[1].snapshot == map[]
    requires w.cleanup.started + w.args.poll <= w.cleanup.ticks[0].now < w.cleanup.started + w.args.ownerGrace
    requires w.cleanup.ticks[0].sample.Missed?
    ensures LosesTelemetry(w, known, owner)
  {
    hide Learn, LiveSet;
    var s := StopScene(w, known, owner);
    StillLive(known, owner, p);
    StillLive(s.known, owner, p);
    StillLive(KnownAt(s, 0), owner, p);
    NothingLive(KnownAt(s, 1), owner);
    assert LiveAt(s, 0) != {} && LiveAt(s, 1) == {};
    assert Samples(s, 0) && FirstLoop(s, 0);
    assert ClearedAt(s, 1) && MissesBefore(s, 1);
  }

  lemma {:induction false} NothingLive(known: set<(int, int)>, owner: int)
    ensures LiveSet(known, map[], owner) == {}
  {}

  // A child of the owner is alive whatever is known.
  lemma {:induction false} StillLive(known: set<(int, int)>, owner: int, p: Process)
    requires p.parent == owner && p.pid != owner && !p.zombie
    ensures LiveSet(known, map[p.pid := p], owner) != {}
  {
    var snapshot := map[p.pid := p];
    assert p.pid in Owned(known, snapshot, owner);
    assert p in LiveSet(known, snapshot, owner);
  }

  // A cool start stays clear of the abort threshold.
  lemma {:induction false} AdmissionMargin(args: Args, s: Sample)
    requires args.Valid() && Cool(args, s)
    ensures !Hot(args, s) && s.hottest + 3.0 <= args.abortAt
  {}
}
