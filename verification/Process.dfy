/** One managed process: its configuration, its record, and each locked section that changes it. */
module Process {

  datatype Option<+T> = None | Some(value: T)

  datatype State = Pending | Starting | Running | Stopping | Stopped | Failed | Restarting | CrashLoopBackOff

  datatype ExitAction = RestartOnExit | StopOnExit
  datatype FailureAction = RestartOnFailure | FailContainer | Ignore
  datatype NoRestartAction = Hold | FailOnNoRestart
  datatype RestartPolicy = Always | OnFailure | Never

  /** The thresholds of a Kubernetes-style probe. */
  datatype Probe = Probe(successThreshold: nat, failureThreshold: nat)

  datatype Config = Config(
    onExit: ExitAction,
    onFailure: FailureAction,
    noRestartExitCodes: seq<int>,
    onNoRestart: NoRestartAction,
    restartPolicy: Option<RestartPolicy>,
    restartDelaySecs: nat,
    maxRestarts: nat,
    restartWindowSecs: nat,
    startupProbe: Option<Probe>,
    livenessProbe: Option<Probe>,
    readinessProbe: Option<Probe>,
    readyProbe: bool,
    apis: nat)
  {
    /** True if being ready takes more than having been started. */
    predicate StartsUnready() {
      readyProbe || readinessProbe.Some? || startupProbe.Some?
    }
  }

  /** Seconds of running from which on the next back-off is a first one again. */
  const BACKOFF_RESET_SECS: int := 600
  const U32_MAX: nat := 0xFFFF_FFFF
  const U64_MAX: nat := 0xFFFF_FFFF_FFFF_FFFF

  function Pow2(n: nat): (r: nat)
    ensures r >= 1
  {
    if n == 0 then 1 else 2 * Pow2(n - 1)
  }

  /** The wait before restarting, in seconds, given the restarts already in the window. */
  function CoolOff(delaySecs: nat, restartsInWindow: nat): nat {
    var base := if delaySecs < 1 then 1 else delaySecs;
    var back := if restartsInWindow < 1 then 0 else restartsInWindow - 1;
    var shift := if back < 16 then back else 16;
    var product := base * Pow2(shift);
    var secs := if product > U64_MAX then U64_MAX else product;
    if secs < 30 then secs else 30
  }

  /** The `step`th Kubernetes back-off, in seconds. */
  function BackOff(step: nat): nat {
    var secs := 10 * Pow2(if step < 6 then step else 6);
    if secs < 300 then secs else 300
  }

  /** How many of `times` lie after `now - window`. */
  function InWindow(times: seq<int>, now: int, window: nat): nat {
    if times == [] then 0
    else InWindow(times[..|times| - 1], now, window) + if times[|times| - 1] > now - window then 1 else 0
  }

  lemma {:induction false} InWindowIsTheSet(times: seq<int>, now: int, window: nat)
    ensures InWindow(times, now, window) == |set i | 0 <= i < |times| && times[i] > now - window|
  {
    var within := set i | 0 <= i < |times| && times[i] > now - window;
    if times != [] {
      var n := |times| - 1;
      var before := set i | 0 <= i < |times[..n]| && times[..n][i] > now - window;
      InWindowIsTheSet(times[..n], now, window);
      assert within == if times[n] > now - window then before + {n} else before;
    }
  }

  /** Restarts that lie before the window count for nothing. */
  lemma {:induction false} OldRestartsDoNotCount(old_: seq<int>, times: seq<int>, now: int, window: nat)
    requires forall i :: 0 <= i < |old_| ==> old_[i] <= now - window
    ensures InWindow(old_ + times, now, window) == InWindow(times, now, window)
    decreases |old_| + |times|
  {
    if times != [] {
      assert (old_ + times)[..|old_ + times| - 1] == old_ + times[..|times| - 1];
      OldRestartsDoNotCount(old_, times[..|times| - 1], now, window);
    } else if old_ != [] {
      assert old_ + times == old_ && old_[..|old_| - 1] + [] == old_[..|old_| - 1];
      OldRestartsDoNotCount(old_[..|old_| - 1], [], now, window);
    }
  }

  /** What the supervisor keeps of a process. Times are in milliseconds. */
  datatype Proc = Proc(
    state: State,
    pid: Option<nat>,
    startedAt: Option<int>,
    restarts: nat,
    crashes: nat,
    restartTimes: seq<int>,
    run: nat,
    ready: bool,
    livenessFailures: nat,
    livenessPassedRun: Option<nat>,
    startupPassedRun: Option<nat>,
    backoffStep: nat)
  {
    /** The start of a spawn. */
    function BeginRun(cfg: Config): Proc {
      this.(state := Starting, ready := !cfg.StartsUnready(), run := run + 1, livenessFailures := 0)
    }

    function MarkRunning(pid: Option<nat>, now: int): Proc {
      this.(state := Running, pid := pid, startedAt := Some(now))
    }

    /** The process has exited. */
    function RecordExit(): Proc {
      this.(pid := None, ready := false)
    }

    function CountCrash(): Proc {
      this.(crashes := crashes + 1)
    }

    /** A restart is decided on. */
    function NoteRestart(now: int): Proc {
      this.(state := Restarting, restarts := restarts + 1, restartTimes := restartTimes + [now])
    }

    /** The back-off step to use, given how long the last run lasted. */
    function Step(ranSecs: int): nat {
      if ranSecs >= BACKOFF_RESET_SECS then 0 else backoffStep
    }

    /** A restart under a restart policy is decided on. */
    function NoteBackOff(ranSecs: int, now: int): Proc {
      var step := Step(ranSecs);
      this.(state := CrashLoopBackOff, restarts := restarts + 1, restartTimes := restartTimes + [now],
            backoffStep := if step < U32_MAX then step + 1 else step)
    }

    /** Startup probe of run `r` succeeded. */
    function StartupPassed(r: nat, cfg: Config): Proc {
      if run != r then this
      else if cfg.readinessProbe.None? && !cfg.readyProbe then this.(startupPassedRun := Some(r), ready := true)
      else this.(startupPassedRun := Some(r))
    }

    /** One liveness result of run `r`. */
    function LivenessResult(r: nat, ok: bool): Proc {
      if run != r then this
      else if ok then this.(livenessFailures := 0, livenessPassedRun := Some(r))
      else this.(livenessFailures := livenessFailures + 1)
    }

    /** The readiness probe of run `r` reached a threshold; `ready_probe` of run `r` passed. */
    function Readiness(r: nat, verdict: bool): Proc {
      if run != r then this else this.(ready := verdict)
    }

    /** Whether `who` of run `r` is still the process to signal. */
    predicate MaySignal(r: nat, who: Option<nat>) {
      who.Some? && run == r && pid == who
    }
  }

  /** The locked sections that change the record. */
  datatype Section =
    | Begins
    | Runs(who: Option<nat>, now: int)
    | Exits
    | Crashes
    | Restarts(now: int)
    | BacksOff(ranSecs: int, now: int)
    | Starts(r: nat)                 // the startup probe of run `r` passed
    | Lives(r: nat, ok: bool)        // one liveness result of run `r`
    | Readies(r: nat, verdict: bool) // a readiness verdict of run `r`

  function After(cfg: Config, p: Proc, s: Section): Proc {
    match s
    case Begins => p.BeginRun(cfg)
    case Runs(who, now) => p.MarkRunning(who, now)
    case Exits => p.RecordExit()
    case Crashes => p.CountCrash()
    case Restarts(now) => p.NoteRestart(now)
    case BacksOff(ranSecs, now) => p.NoteBackOff(ranSecs, now)
    case Starts(r) => p.StartupPassed(r, cfg)
    case Lives(r, ok) => p.LivenessResult(r, ok)
    case Readies(r, verdict) => p.Readiness(r, verdict)
  }

  /** The record after these sections. */
  function AfterAll(cfg: Config, past: seq<Section>): Proc {
    if past == [] then NewProc(cfg) else After(cfg, AfterAll(cfg, past[..|past| - 1]), past[|past| - 1])
  }

  /** The record itself: what the tasks share, one locked section a method. */
  class ManagedProcess {
    const config: Config
    var state: State
    var pid: Option<nat>
    var startedAt: Option<int>
    var restarts: nat
    var crashes: nat
    var restartTimes: seq<int>
    var run: nat
    var ready: bool
    var livenessFailures: nat
    var livenessPassedRun: Option<nat>
    var startupPassedRun: Option<nat>
    var backoffStep: nat
    /** Every section so far. */
    ghost var past: seq<Section>

    function View(): Proc reads this {
      Proc(state, pid, startedAt, restarts, crashes, restartTimes, run, ready, livenessFailures,
           livenessPassedRun, startupPassedRun, backoffStep)
    }

    ghost predicate Valid() reads this { View() == AfterAll(config, past) }

    constructor (config: Config)
      ensures Valid() && this.config == config && past == []
    {
      this.config, past := config, [];
      state, pid, startedAt, restarts, crashes, restartTimes := Pending, None, None, 0, 0, [];
      run, ready, livenessFailures := 0, !config.StartsUnready(), 0;
      livenessPassedRun, startupPassedRun, backoffStep := None, None, 0;
    }

    method BeginRun() returns (r: nat)
      requires Valid()
      modifies this
      ensures Valid() && past == old(past) + [Begins] && r == Begun(past)
    {
      state := Starting;
      ready := !config.StartsUnready();
      run := run + 1;
      livenessFailures := 0;
      r := run;
      past := past + [Begins];
      OneMore(config, old(past), Begins);
      RunsAreCounted(config, past);
    }

    method MarkRunning(who: Option<nat>, now: int)
      requires Valid()
      modifies this
      ensures Valid() && past == old(past) + [Runs(who, now)]
    {
      state, pid, startedAt := Running, who, Some(now);
      past := past + [Runs(who, now)];
      OneMore(config, old(past), Runs(who, now));
    }

    /** Filter the restart times by the window, and count. */
    method RestartCountInWindow(now: int) returns (count: nat)
      ensures count == |set i | 0 <= i < |restartTimes| && restartTimes[i] > now - 1000 * config.restartWindowSecs|
    {
      var cutoff := now - 1000 * config.restartWindowSecs;
      count := 0;
      var i := 0;
      while i < |restartTimes|
        invariant 0 <= i <= |restartTimes|
        invariant count == InWindow(restartTimes[..i], now, 1000 * config.restartWindowSecs)
      {
        assert restartTimes[..i + 1][..i] == restartTimes[..i];
        if restartTimes[i] > cutoff { count := count + 1; }
        i := i + 1;
      }
      assert restartTimes[..i] == restartTimes;
      InWindowIsTheSet(restartTimes, now, 1000 * config.restartWindowSecs);
    }

    /** The first locked section of `handle_exit`: the restarts in the window are those noted before. */
    method RecordExit(now: int) returns (inWindow: nat, ranSecs: int)
      requires Valid()
      modifies this
      ensures Valid() && past == old(past) + [Exits]
      ensures var times := Noted(old(past));
        inWindow == |set i | 0 <= i < |times| && times[i] > now - 1000 * config.restartWindowSecs|
      ensures ranSecs == match startedAt case Some(t) => RanSecs(t, now) case None => 0
    {
      pid := None;
      ready := false;
      ranSecs := match startedAt case Some(t) => RanSecs(t, now) case None => 0;
      inWindow := RestartCountInWindow(now);
      past := past + [Exits];
      OneMore(config, old(past), Exits);
      RestartsAreNoted(config, old(past));
    }

    method NoteRestart(now: int)
      requires Valid()
      modifies this
      ensures Valid() && past == old(past) + [Restarts(now)]
    {
      state := Restarting;
      restarts := restarts + 1;
      restartTimes := restartTimes + [now];
      past := past + [Restarts(now)];
      OneMore(config, old(past), Restarts(now));
    }

    method NoteBackOff(ranSecs: int, now: int) returns (delaySecs: nat)
      requires Valid()
      modifies this
      ensures Valid() && past == old(past) + [BacksOff(ranSecs, now)]
      // The wait doubles with each back-off in a row, up to five minutes.
      ensures delaySecs == Min(300, 10 * Pow2(BackOffsInARow(past) - 1))
    {
      ghost var was := View();
      OneMore(config, past, BacksOff(ranSecs, now));
      WaitsDouble(config, past, ranSecs, now);
      past := past + [BacksOff(ranSecs, now)];
      if ranSecs >= BACKOFF_RESET_SECS { backoffStep := 0; }
      delaySecs := BackOff(backoffStep);
      if backoffStep < U32_MAX { backoffStep := backoffStep + 1; }
      state := CrashLoopBackOff;
      restarts := restarts + 1;
      restartTimes := restartTimes + [now];
      assert View() == was.NoteBackOff(ranSecs, now);
    }

    /** False when the run is over. */
    method StartupPassed(r: nat) returns (current: bool)
      requires Valid()
      modifies this
      ensures Valid() && past == old(past) + [Starts(r)] && current == (r == Begun(past))
    {
      past := past + [Starts(r)];
      OneMore(config, old(past), Starts(r));
      OneMoreCounts(old(past), Starts(r));
      RunsAreCounted(config, old(past));
      if run != r { return false; }
      startupPassedRun := Some(r);
      if config.readinessProbe.None? && !config.readyProbe { ready := true; }
      return true;
    }

    method LivenessResult(r: nat, ok: bool) returns (current: bool)
      requires Valid()
      modifies this
      ensures Valid() && past == old(past) + [Lives(r, ok)] && current == (r == Begun(past))
    {
      past := past + [Lives(r, ok)];
      OneMore(config, old(past), Lives(r, ok));
      OneMoreCounts(old(past), Lives(r, ok));
      RunsAreCounted(config, old(past));
      if run != r { return false; }
      if ok {
        livenessFailures := 0;
        livenessPassedRun := Some(r);
      } else {
        livenessFailures := livenessFailures + 1;
      }
      return true;
    }

    method Readiness(r: nat, verdict: bool) returns (current: bool)
      requires Valid()
      modifies this
      ensures Valid() && past == old(past) + [Readies(r, verdict)] && current == (r == Begun(past))
    {
      past := past + [Readies(r, verdict)];
      OneMore(config, old(past), Readies(r, verdict));
      OneMoreCounts(old(past), Readies(r, verdict));
      RunsAreCounted(config, old(past));
      if run != r { return false; }
      if ready != verdict { ready := verdict; }
      return true;
    }
  }

  // --------------------------------------------- what the record tells of the past

  lemma OneMore(cfg: Config, past: seq<Section>, s: Section)
    ensures AfterAll(cfg, past + [s]) == After(cfg, AfterAll(cfg, past), s)
  {
    assert (past + [s])[..|past|] == past;
  }

  lemma OneMoreCounts(past: seq<Section>, s: Section)
    ensures Begun(past + [s]) == Begun(past) + if s.Begins? then 1 else 0
    ensures BackOffsInARow(past + [s]) ==
      if !s.BacksOff? then BackOffsInARow(past)
      else (if s.ranSecs >= BACKOFF_RESET_SECS then 0 else BackOffsInARow(past)) + 1
  {
    assert (past + [s])[..|past|] == past;
  }

  /** How many runs have begun. */
  function Begun(past: seq<Section>): nat {
    if past == [] then 0 else Begun(past[..|past| - 1]) + if past[|past| - 1].Begins? then 1 else 0
  }

  /** The times at which restarts were noted, one after the other. */
  function Noted(past: seq<Section>): seq<int> {
    if past == [] then []
    else
      var (init, s) := (Noted(past[..|past| - 1]), past[|past| - 1]);
      if s.Restarts? || s.BacksOff? then init + [s.now] else init
  }

  /** The back-offs in a row so far: from the first, or from the last after a run of ten minutes. */
  function BackOffsInARow(past: seq<Section>): nat {
    if past == [] then 0
    else
      var (init, s) := (BackOffsInARow(past[..|past| - 1]), past[|past| - 1]);
      if !s.BacksOff? then init else (if s.ranSecs >= 600 then 0 else init) + 1
  }

  /** What liveness has found of the current run. */
  function LivenessOfThisRun(past: seq<Section>): seq<bool> {
    if past == [] then []
    else
      var (init, s) := (past[..|past| - 1], past[|past| - 1]);
      if s.Begins? then []
      else if s.Lives? && s.r == Begun(init) then LivenessOfThisRun(init) + [s.ok]
      else LivenessOfThisRun(init)
  }

  lemma {:induction false} RunsAreCounted(cfg: Config, past: seq<Section>)
    ensures AfterAll(cfg, past).run == Begun(past)
  {
    if past != [] { RunsAreCounted(cfg, past[..|past| - 1]); }
  }

  /** The counter of restarts and their times are those noted, whichever way. */
  lemma {:induction false} RestartsAreNoted(cfg: Config, past: seq<Section>)
    ensures var p := AfterAll(cfg, past); p.restartTimes == Noted(past) && p.restarts == |Noted(past)|
  {
    if past != [] { RestartsAreNoted(cfg, past[..|past| - 1]); }
  }

  lemma {:induction false} StepsAreBackOffs(cfg: Config, past: seq<Section>)
    ensures AfterAll(cfg, past).backoffStep == Min(BackOffsInARow(past), U32_MAX)
  {
    if past != [] { StepsAreBackOffs(cfg, past[..|past| - 1]); }
  }

  lemma WaitsDouble(cfg: Config, past: seq<Section>, ranSecs: int, now: int)
    ensures var n := BackOffsInARow(past + [BacksOff(ranSecs, now)]);
      n >= 1 && BackOff(AfterAll(cfg, past).Step(ranSecs)) == Min(300, 10 * Pow2(n - 1))
  {
    OneMoreCounts(past, BacksOff(ranSecs, now));
    StepsAreBackOffs(cfg, past);
    StepsPastTheCap(if ranSecs >= BACKOFF_RESET_SECS then 0 else BackOffsInARow(past));
  }

  /** The last `n` results are all failures. */
  predicate FailedLast(results: seq<bool>, n: nat) {
    n <= |results| && forall i :: |results| - n <= i < |results| ==> !results[i]
  }

  /**
   * Liveness is judged by the current run alone: its failures are the results
   * of this run that failed in a row just now, and its mark of having passed
   * is there exactly when a result of this run was good.
   */
  lemma {:induction false} LivenessIsOfThisRun(cfg: Config, past: seq<Section>, n: nat)
    ensures var p := AfterAll(cfg, past);
      && (p.livenessFailures >= n <==> FailedLast(LivenessOfThisRun(past), n))
      && (p.livenessPassedRun == Some(Begun(past)) <==> true in LivenessOfThisRun(past))
  {
    MarksAreOfRunsBegun(cfg, past);
    if past != [] {
      var (init, s) := (past[..|past| - 1], past[|past| - 1]);
      RunsAreCounted(cfg, init);
      MarksAreOfRunsBegun(cfg, init);
      LivenessIsOfThisRun(cfg, init, n);
      if n > 0 { LivenessIsOfThisRun(cfg, init, n - 1); }
      var results := LivenessOfThisRun(init);
      if s.Lives? && s.r == Begun(init) { OneMoreResult(results, s.ok, n); }
    }
  }

  lemma OneMoreResult(results: seq<bool>, ok: bool, n: nat)
    ensures FailedLast(results + [ok], n) <==> n == 0 || (!ok && FailedLast(results, n - 1))
  {
    if n > 0 && FailedLast(results + [ok], n) {
      assert !(results + [ok])[|results|];
      forall i | |results| - (n - 1) <= i < |results| ensures !results[i] { assert (results + [ok])[i] == results[i]; }
    }
  }

  /** A mark is of a run that has begun. */
  lemma {:induction false} MarksAreOfRunsBegun(cfg: Config, past: seq<Section>)
    ensures var p := AfterAll(cfg, past);
      && (p.livenessPassedRun.Some? ==> p.livenessPassedRun.value <= Begun(past))
      && (p.startupPassedRun.Some? ==> p.startupPassedRun.value <= Begun(past))
  {
    if past != [] {
      MarksAreOfRunsBegun(cfg, past[..|past| - 1]);
      RunsAreCounted(cfg, past[..|past| - 1]);
    }
  }

  /** The `j`th section is one of the run that is current after all of them. */
  ghost predicate OfThisRun(past: seq<Section>, j: nat) {
    j < |past| && Begun(past[..j]) == Begun(past)
  }

  /** The startup probe of the current run passed during it. */
  ghost predicate StartupSeen(past: seq<Section>) {
    exists j: nat :: OfThisRun(past, j) && past[j] == Starts(Begun(past))
  }

  lemma StartupSeenStep(past: seq<Section>, s: Section)
    ensures StartupSeen(past + [s]) <==> !s.Begins? && (StartupSeen(past) || s == Starts(Begun(past)))
  {
    var (more, n) := (past + [s], |past|);
    OneMoreCounts(past, s);
    assert more[..n] == past;
    if !s.Begins? && StartupSeen(past) {
      var j: nat :| OfThisRun(past, j) && past[j] == Starts(Begun(past));
      assert more[..j] == past[..j];
      assert OfThisRun(more, j);
    }
    if s == Starts(Begun(past)) { assert OfThisRun(more, n); }
    if StartupSeen(more) {
      var j: nat :| OfThisRun(more, j) && more[j] == Starts(Begun(more));
      if j < n {
        assert more[..j] == past[..j];
        BegunGrows(past, j);
        assert OfThisRun(past, j);
      }
    }
  }

  /** Startup is marked for the current run exactly when the startup probe of that run passed during it. */
  lemma {:induction false} StartupIsOfThisRun(cfg: Config, past: seq<Section>)
    ensures AfterAll(cfg, past).startupPassedRun == Some(Begun(past)) <==> StartupSeen(past)
  {
    if past != [] {
      var (init, s) := (past[..|past| - 1], past[|past| - 1]);
      assert past == init + [s];
      StartupIsOfThisRun(cfg, init);
      StartupSeenStep(init, s);
      RunsAreCounted(cfg, init);
      MarksAreOfRunsBegun(cfg, init);
    }
  }

  lemma {:induction false} BegunGrows(past: seq<Section>, j: nat)
    requires j <= |past|
    ensures Begun(past[..j]) <= Begun(past)
  {
    if j < |past| {
      assert past[..|past| - 1][..j] == past[..j];
      BegunGrows(past[..|past| - 1], j);
    } else {
      assert past[..j] == past;
    }
  }

  /**
   * A section with a say in whether the process is ready: the begin of a run, its
   * exit, or what its own probes found.
   */
  ghost predicate Says(cfg: Config, past: seq<Section>, j: nat) {
    && j < |past|
    && match past[j]
       case Begins => true
       case Exits => true
       case Readies(r, verdict) => r == Begun(past[..j])
       case Starts(r) => r == Begun(past[..j]) && cfg.readinessProbe.None? && !cfg.readyProbe
       case _ => false
  }

  /** What it says. */
  function Said(cfg: Config, s: Section): bool {
    match s
    case Begins => !cfg.readyProbe && cfg.readinessProbe.None? && cfg.startupProbe.None?
    case Readies(r, verdict) => verdict
    case Starts(r) => true
    case _ => false
  }

  /** Ready is what was said last: by this run, never by the probes of one that is over. */
  lemma {:induction false} ReadyIsTheLastWord(cfg: Config, past: seq<Section>, j: nat)
    requires Says(cfg, past, j) && forall k :: j < k < |past| ==> !Says(cfg, past, k)
    ensures AfterAll(cfg, past).ready == Said(cfg, past[j])
  {
    var n := |past| - 1;
    RunsAreCounted(cfg, past[..n]);
    if j < n {
      assert !Says(cfg, past, n);
      assert past[..n][..j] == past[..j];
      forall k | j < k < n ensures !Says(cfg, past[..n], k) {
        assert past[..n][..k] == past[..k];
        assert !Says(cfg, past, k);
      }
      ReadyIsTheLastWord(cfg, past[..n], j);
    }
  }

  /** When the current child was started is when the last was marked Running; its pid, until an exit is recorded. */
  lemma {:induction false} TheLastChildIsRecorded(cfg: Config, past: seq<Section>, j: nat)
    requires j < |past| && past[j].Runs? && forall k :: j < k < |past| ==> !past[k].Runs?
    ensures var p := AfterAll(cfg, past);
      && p.startedAt == Some(past[j].now)
      && p.pid == if exists k :: j < k < |past| && past[k].Exits? then None else past[j].who
  {
    var n := |past| - 1;
    if j < n {
      TheLastChildIsRecorded(cfg, past[..n], j);
      assert forall k :: j < k < n ==> past[..n][k] == past[k];
    }
  }

  /** A section that moves the process on. */
  predicate Moves(s: Section) { s.Begins? || s.Runs? || s.Restarts? || s.BacksOff? }

  /** The state is where the last such section put it. */
  lemma {:induction false} StateIsWhereItWasPut(cfg: Config, past: seq<Section>, j: nat)
    requires j < |past| && Moves(past[j]) && forall k :: j < k < |past| ==> !Moves(past[k])
    ensures AfterAll(cfg, past).state == match past[j]
      case Begins => Starting
      case Runs(_, _) => Running
      case Restarts(_) => Restarting
      case _ => CrashLoopBackOff
  {
    var n := |past| - 1;
    if j < n {
      StateIsWhereItWasPut(cfg, past[..n], j);
      assert !Moves(past[n]);
    }
  }

  /** The crashes counted are the sections that count one. */
  lemma {:induction false} CrashesAreCounted(cfg: Config, past: seq<Section>)
    ensures AfterAll(cfg, past).crashes == |set i | 0 <= i < |past| && past[i] == Crashes|
  {
    if past != [] {
      var n := |past| - 1;
      CrashesAreCounted(cfg, past[..n]);
      OneMoreCrash(past[..n], past[n]);
      assert past == past[..n] + [past[n]];
    }
  }

  lemma OneMoreCrash(past: seq<Section>, s: Section)
    ensures (set i | 0 <= i < |past + [s]| && (past + [s])[i] == Crashes)
      == (set i | 0 <= i < |past| && past[i] == Crashes) + if s == Crashes then {|past|} else {}
  {
  }

  function NewProc(cfg: Config): Proc {
    Proc(Pending, None, None, 0, 0, [], 0, !cfg.StartsUnready(), 0, None, None, 0)
  }

  /** Whole seconds from `from` to `to`, truncated towards zero. */
  function RanSecs(from: int, to: int): (secs: int)
    ensures to >= from ==> 1000 * secs <= to - from < 1000 * secs + 1000
    ensures to < from ==> 1000 * secs - 1000 < to - from <= 1000 * secs
  {
    if to >= from then (to - from) / 1000 else -((from - to) / 1000)
  }

  // ------------------------------------------------------------- the waits

  lemma {:induction false} Pow2Doubles(a: nat, b: nat)
    requires a <= b
    ensures Pow2(a) <= Pow2(b)
  {
    if a < b { Pow2Doubles(a, b - 1); }
  }

  function Min(a: nat, b: nat): nat { if a < b then a else b }

  /** The delay meant: the base, doubled for each restart after the first, up to 30 s. */
  function CappedDoubling(delaySecs: nat, restartsInWindow: nat): nat {
    Min(30, (if delaySecs < 1 then 1 else delaySecs) * Pow2(if restartsInWindow < 1 then 0 else restartsInWindow - 1))
  }

  /** The shift cap and the saturation in `cooloff` lose nothing. */
  lemma CoolOffIsCappedDoubling(delaySecs: nat, restartsInWindow: nat)
    ensures CoolOff(delaySecs, restartsInWindow) == CappedDoubling(delaySecs, restartsInWindow)
  {
    if restartsInWindow > 17 {
      var base := if delaySecs < 1 then 1 else delaySecs;
      Pow2Doubles(16, restartsInWindow - 1);
      Pow2Doubles(5, 16);
      assert Pow2(5) == 32;
      AtLeast(base, Pow2(16));
      AtLeast(base, Pow2(restartsInWindow - 1));
    }
  }

  lemma AtLeast(a: nat, b: nat)
    requires a >= 1
    ensures a * b >= b
  {
  }

  /** The shift cap of `backoff` loses nothing either: 10 s doubling, up to 5 min. */
  lemma BackOffIsCappedDoubling(step: nat)
    ensures BackOff(step) == Min(300, 10 * Pow2(step))
  {
    if step > 6 {
      Pow2Doubles(6, step);
      assert Pow2(6) == 64;
    }
  }

  /**
   * The documented delay before the `n`th restart in the window, the base
   * times 2^(n-1) up to 30 s, is what is waited exactly when the base is not
   * zero and this is the first restart or the wait has reached the ceiling:
   * `cooloff` is given the restarts made before this one, so the second also
   * waits the base alone.
   */
  lemma DocumentedDelay(delaySecs: nat, n: nat)
    requires n >= 1
    ensures CoolOff(delaySecs, n - 1) == Min(30, delaySecs * Pow2(n - 1))
      <==> delaySecs >= 1 && (n == 1 || delaySecs * Pow2(n - 2) >= 30)
  {
    CoolOffIsCappedDoubling(delaySecs, n - 1);
    if n >= 2 {
      assert Pow2(n - 1) == 2 * Pow2(n - 2);
      if delaySecs >= 1 { AtLeast(delaySecs, Pow2(n - 2)); }
    }
  }

  /** The step's 32 bits lose nothing: it is long past the cap when it saturates. */
  lemma StepsPastTheCap(n: nat)
    ensures BackOff(Min(n, U32_MAX)) == Min(300, 10 * Pow2(n))
  {
    BackOffIsCappedDoubling(Min(n, U32_MAX));
    if n > U32_MAX {
      Pow2Doubles(6, n);
      Pow2Doubles(6, U32_MAX);
      assert Pow2(6) == 64;
    }
  }
}
