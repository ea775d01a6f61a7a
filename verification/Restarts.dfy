/**
 * `handle_exit` over whole runs of one process. Each exit gets a task, and
 * starts come from the API as well, so any number of handlers
 * and starts may be under way at once, each by single locked sections, forks
 * and looks at the shutdown flag, with anything in between.
 */
module Restarts {
  import opened Process
  import opened Lives

  /** What `handle_exit` decides once the exit is recorded. */
  datatype Verdict =
    | Stay(state: State, failsContainer: bool)
    | Again                 // restart after the cool-off
    | BackOffAgain          // restart under the restart policy

  predicate IsNoRestart(code: Option<int>, codes: seq<int>) {
    code.Some? && code.value != 0 && code.value in codes
  }

  function Judge(cfg: Config, code: Option<int>, inWindow: nat): Verdict {
    var success := code == Some(0);
    var noRestart := IsNoRestart(code, cfg.noRestartExitCodes);
    if cfg.restartPolicy.Some? && !noRestart then
      if cfg.restartPolicy.value == Always || (cfg.restartPolicy.value == OnFailure && !success) then BackOffAgain
      else Stay(if success then Stopped else Failed, false)
    else if success && cfg.onExit == StopOnExit then Stay(Stopped, false)
    else if noRestart then Stay(Failed, cfg.onNoRestart == FailOnNoRestart)
    else if success then
      if inWindow >= cfg.maxRestarts then Stay(Stopped, false) else Again
    else
      match cfg.onFailure
      case FailContainer => Stay(Failed, true)
      case RestartOnFailure => if inWindow >= cfg.maxRestarts then Stay(Failed, true) else Again
      case Ignore => Stay(Stopped, false)
  }

  /**
   * An exit as its handler counted it: how many restarts lay in the window, when it
   * was, and how many there were in all.
   */
  datatype Counted = Counted(code: Option<int>, inWindow: nat, ranSecs: int, at: int, seen: nat)

  /** How far a spawn has got: asked for, past its look at the shutdown flag, its run begun and the fork next. */
  datatype Phase = Asked | Cleared | Begun

  /** One `handle_exit` under way. */
  datatype Handler =
    | Checking(exit: Counted)
    | Judging(exit: Counted)
    | Cooling(exit: Counted, notedAt: int, due: int)
    | Spawning(exit: Counted, notedAt: int, phase: Phase)

  /** What an exit came to: whether its restart was noted, whether it was forked again, and how it left things. */
  datatype Done = Done(
    exit: Counted,
    noted: Option<int>,
    at: int,
    forked: bool,
    down: bool,             // shutdown had begun
    state: State,
    failedBefore: bool,     // the container had failed
    failedAfter: bool)

  /** A back-off under a restart policy: how long the run had lasted, when it was noted, the wait it asked for. */
  datatype Note = Note(ranSecs: int, at: int, waitSecs: nat)

  datatype St = St(
    now: int,
    proc: Proc,
    handlers: map<nat, Handler>,
    starts: map<nat, Phase>,    // spawns asked for by the API or the start order
    landing: nat,               // children forked, not yet marked Running
    live: nat,                  // children marked Running, their end not yet taken
    forks: nat,
    shuttingDown: bool,
    containerFailed: bool,
    done: seq<Done>,
    notes: seq<Note>)

  datatype Action =
    | Tick(ms: nat)
    | BeginShutdown
    | Other(proc: Proc)                       // probes, API calls, a stop asked for: anything but the restart record
    | AskStart(id: nat, again: bool)          // a start, refused to a running process; or the spawn a restart comes to
    | StartCheck(id: nat, missing: bool)
    | StartRun(id: nat)
    | StartFork(id: nat, ok: bool)
    | Land(pid: Option<nat>)                  // a forked child is marked Running
    | StopLands                               // a child ends that was asked to, or whose handle a later child took
    | Exit(id: nat, code: Option<int>)        // a child ends by itself: the first locked section
    | CheckShutdown(id: nat)                  // the flag is looked at, the crash counted
    | Act(id: nat)                            // the verdict takes effect
    | Wake(id: nat)                           // the wait is over, and the flag looked at
    | Check(id: nat, missing: bool)           // the spawn looks at the flag again, and for the node's values
    | Run(id: nat)                            // the new run begins
    | Fork(id: nat, ok: bool)
  {
    /** A handler goes on, its verdict aside. */
    predicate GoesOn() { CheckShutdown? || Wake? || Check? || Run? || Fork? }
  }

  function Window(cfg: Config): nat { 1000 * cfg.restartWindowSecs }

  /** A handler ends, having left things as in `t`. */
  function Finish(s: St, t: St, id: nat, noted: Option<int>, forked: bool): St
    requires id in s.handlers
  {
    t.(handlers := s.handlers - {id},
       done := s.done + [Done(s.handlers[id].exit, noted, s.now, forked, s.shuttingDown,
                              t.proc.state, s.containerFailed, t.containerFailed)])
  }

  /** A respawn that failed. */
  function NotRespawned(cfg: Config, s: St, id: nat): St
    requires id in s.handlers && s.handlers[id].Spawning?
  {
    var h := s.handlers[id];
    Finish(s, s.(proc := s.proc.(state := Failed),
                 containerFailed := s.containerFailed || (cfg.restartPolicy.None? && h.exit.code != Some(0))),
           id, Some(h.notedAt), false)
  }

  ghost predicate Step(cfg: Config, s: St, a: Action, t: St) {
    match a
    case Tick(ms) => t == s.(now := s.now + ms)
    case BeginShutdown => t == s.(shuttingDown := true)
    case Other(p) =>
      && p.restarts == s.proc.restarts && p.restartTimes == s.proc.restartTimes && p.crashes == s.proc.crashes
      && p.backoffStep == s.proc.backoffStep && p.run == s.proc.run
      && (p.state == s.proc.state || (s.proc.state == Running && p.state == Stopping))
      && t == s.(proc := p)
    case AskStart(id, again) =>
      && id !in s.starts && (again || s.proc.state != Running)
      && t == s.(starts := s.starts[id := Asked])
    case StartCheck(id, missing) =>
      && id in s.starts && s.starts[id] == Asked
      && t == if s.shuttingDown || missing then s.(starts := s.starts - {id}) else s.(starts := s.starts[id := Cleared])
    case StartRun(id) =>
      && id in s.starts && s.starts[id] == Cleared
      && t == s.(proc := s.proc.BeginRun(cfg), starts := s.starts[id := Begun])
    case StartFork(id, ok) =>
      && id in s.starts && s.starts[id] == Begun
      && t == if ok then s.(starts := s.starts - {id}, landing := s.landing + 1, forks := s.forks + 1)
              else s.(starts := s.starts - {id})
    case Land(pid) =>
      && s.landing > 0
      && t == s.(proc := s.proc.MarkRunning(pid, s.now), landing := s.landing - 1, live := s.live + 1)
    case StopLands =>
      && s.live > 0
      && t == s.(proc := s.proc.RecordExit().(state := Stopped), live := s.live - 1)
    case Exit(id, code) => s.live > 0 && id !in s.handlers && t == Exited(cfg, s, id, code)
    case CheckShutdown(id) =>
      && id in s.handlers && s.handlers[id].Checking?
      && t == if s.shuttingDown then Finish(s, s.(proc := s.proc.(state := Stopped)), id, None, false)
              else s.(proc := if s.handlers[id].exit.code == Some(0) then s.proc else s.proc.CountCrash(),
                      handlers := s.handlers[id := Judging(s.handlers[id].exit)])
    case Act(id) => id in s.handlers && s.handlers[id].Judging? && t == Acted(cfg, s, id)
    case Wake(id) =>
      && id in s.handlers && s.handlers[id].Cooling?
      && (s.now >= s.handlers[id].due || (s.shuttingDown && cfg.restartPolicy.Some?))
      && t == if s.shuttingDown then
                Finish(s, s.(proc := s.proc.(state := Stopped)), id, Some(s.handlers[id].notedAt), false)
              else s.(handlers := s.handlers[id := Spawning(s.handlers[id].exit, s.handlers[id].notedAt, Asked)])
    case Check(id, missing) =>
      && id in s.handlers && s.handlers[id].Spawning? && s.handlers[id].phase == Asked
      && t == if s.shuttingDown || missing then NotRespawned(cfg, s, id)
              else s.(handlers := s.handlers[id := s.handlers[id].(phase := Cleared)])
    case Run(id) =>
      && id in s.handlers && s.handlers[id].Spawning? && s.handlers[id].phase == Cleared
      && t == s.(proc := s.proc.BeginRun(cfg), handlers := s.handlers[id := s.handlers[id].(phase := Begun)])
    case Fork(id, ok) =>
      && id in s.handlers && s.handlers[id].Spawning? && s.handlers[id].phase == Begun
      && t == if ok then
                Finish(s, s.(landing := s.landing + 1, forks := s.forks + 1), id, Some(s.handlers[id].notedAt), true)
              else NotRespawned(cfg, s, id)
  }

  function Exited(cfg: Config, s: St, id: nat, code: Option<int>): St
    requires s.live > 0
  {
    s.(proc := s.proc.RecordExit(), live := s.live - 1,
       handlers := s.handlers[id := Checking(Counted(
         code, InWindow(s.proc.restartTimes, s.now, Window(cfg)),
         (match s.proc.startedAt case Some(from) => RanSecs(from, s.now) case None => 0),
         s.now, |s.proc.restartTimes|))])
  }

  function Acted(cfg: Config, s: St, id: nat): St
    requires id in s.handlers && s.handlers[id].Judging?
  {
    var h := s.handlers[id].exit;
    match Judge(cfg, h.code, h.inWindow)
    case Stay(state, fails) =>
      Finish(s, s.(proc := s.proc.(state := state), containerFailed := s.containerFailed || fails), id, None, false)
    case Again =>
      s.(proc := s.proc.NoteRestart(s.now),
         handlers := s.handlers[id := Cooling(h, s.now, s.now + 1000 * CoolOff(cfg.restartDelaySecs, h.inWindow))])
    case BackOffAgain =>
      var wait := BackOff(s.proc.Step(h.ranSecs));
      s.(proc := s.proc.NoteBackOff(h.ranSecs, s.now),
         notes := s.notes + [Note(h.ranSecs, s.now, wait)],
         handlers := s.handlers[id := Cooling(h, s.now, s.now + 1000 * wait)])
  }

  ghost predicate Init(cfg: Config, s: St) {
    s == St(s.now, NewProc(cfg), map[], map[], 0, 0, 0, false, false, [], [])
  }

  ghost predicate Steps(cfg: Config, run: seq<St>, acts: seq<Action>) {
    |run| == |acts| + 1 && forall i :: 0 <= i < |acts| ==> Step(cfg, run[i], acts[i], run[i + 1])
  }

  ghost predicate IsRun(cfg: Config, run: seq<St>, acts: seq<Action>) {
    Steps(cfg, run, acts) && Init(cfg, run[0])
  }

  // ---------------------------------------------------------- the restart limit

  /** Handlers that have counted and may still note a restart. */
  ghost function Willing(cfg: Config, s: St): set<nat> {
    set id | id in s.handlers && (s.handlers[id].Checking? || s.handlers[id].Judging?)
      && s.handlers[id].exit.inWindow < cfg.maxRestarts
  }

  /** How many of `times` are in the window of length `w` ending at `x`. */
  ghost function InWindowEnding(times: seq<int>, x: int, w: nat): nat {
    if times == [] then 0
    else InWindowEnding(times[..|times| - 1], x, w) + if x - w < times[|times| - 1] <= x then 1 else 0
  }

  lemma {:induction false} InWindowEndingIsTheSet(times: seq<int>, x: int, w: nat)
    ensures InWindowEnding(times, x, w) == |set j | 0 <= j < |times| && x - w < times[j] <= x|
  {
    var within := set j | 0 <= j < |times| && x - w < times[j] <= x;
    if times != [] {
      var n := |times| - 1;
      var before := set j | 0 <= j < |times[..n]| && x - w < times[..n][j] <= x;
      InWindowEndingIsTheSet(times[..n], x, w);
      assert within == if x - w < times[n] <= x then before + {n} else before;
    }
  }

  /** No window ever holds more than `bound`, and room is kept for every handler that may note one more. */
  ghost predicate WindowKept(cfg: Config, bound: int, s: St) {
    && (forall i :: 0 <= i < |s.proc.restartTimes| ==> s.proc.restartTimes[i] <= s.now)
    && (forall x :: InWindowEnding(s.proc.restartTimes, x, Window(cfg)) <= bound)
    && (Willing(cfg, s) != {} ==> InWindow(s.proc.restartTimes, s.now, Window(cfg)) + |Willing(cfg, s)| <= bound)
  }

  lemma {:induction false} WindowShrinks(times: seq<int>, a: int, b: int, w: nat)
    requires a <= b
    ensures InWindow(times, b, w) <= InWindow(times, a, w)
  {
    if times != [] { WindowShrinks(times[..|times| - 1], a, b, w); }
  }

  lemma {:induction false} EndingWithin(times: seq<int>, x: int, w: nat)
    ensures InWindowEnding(times, x, w) <= InWindow(times, x, w)
  {
    if times != [] { EndingWithin(times[..|times| - 1], x, w); }
  }

  /** A restart noted now adds one to the windows that reach now, and none to those before. */
  lemma OneMore(times: seq<int>, now: int, w: nat, x: int)
    ensures InWindowEnding(times + [now], x, w) <= if x < now then InWindowEnding(times, x, w)
      else InWindow(times, now, w) + 1
    ensures InWindow(times + [now], now, w) <= InWindow(times, now, w) + 1
  {
    assert (times + [now])[..|times|] == times;
    if x >= now {
      EndingWithin(times, x, w);
      WindowShrinks(times, now, x, w);
    }
  }

  /** Nothing noted, no one new willing: the window only gets emptier. */
  lemma WindowFrame(cfg: Config, bound: int, s: St, t: St)
    requires WindowKept(cfg, bound, s) && t.proc.restartTimes == s.proc.restartTimes && s.now <= t.now
    requires Willing(cfg, t) <= Willing(cfg, s)
    ensures WindowKept(cfg, bound, t)
  {
    WindowShrinks(s.proc.restartTimes, s.now, t.now, Window(cfg));
    SubsetSize(Willing(cfg, t), Willing(cfg, s));
  }

  lemma {:induction false} SubsetSize(a: set<nat>, b: set<nat>)
    requires a <= b
    ensures |a| <= |b|
  {
    if a != {} {
      var x :| x in a;
      SubsetSize(a - {x}, b - {x});
    }
  }

  lemma WindowCount(cfg: Config, k: nat, s: St, id: nat, code: Option<int>, t: St)
    requires Step(cfg, s, Exit(id, code), t) && WindowKept(cfg, cfg.maxRestarts + k - 1, s)
    requires |Willing(cfg, t)| <= k
    ensures WindowKept(cfg, cfg.maxRestarts + k - 1, t)
  {
    if t.handlers[id].exit.inWindow >= cfg.maxRestarts {
      assert Willing(cfg, t) <= Willing(cfg, s);
      WindowFrame(cfg, cfg.maxRestarts + k - 1, s, t);
    }
  }

  lemma NoteWithin(times: seq<int>, now: int, w: nat, bound: int, willing: nat)
    requires forall x :: InWindowEnding(times, x, w) <= bound
    requires willing >= 1 && InWindow(times, now, w) + willing <= bound
    ensures forall x :: InWindowEnding(times + [now], x, w) <= bound
    ensures InWindow(times + [now], now, w) + willing - 1 <= bound
  {
    forall x ensures InWindowEnding(times + [now], x, w) <= bound { OneMore(times, now, w, x); }
    OneMore(times, now, w, now);
  }

  /** What acting on a verdict does to the restart record. */
  lemma ActedOnce(cfg: Config, s: St, id: nat)
    requires cfg.restartPolicy.None? && id in s.handlers && s.handlers[id].Judging?
    ensures var t := Acted(cfg, s, id);
      && t.now == s.now && Willing(cfg, t) == Willing(cfg, s) - {id}
      && (t.proc.restartTimes == s.proc.restartTimes
          || (t.proc.restartTimes == s.proc.restartTimes + [s.now] && id in Willing(cfg, s)))
  {
  }

  lemma WindowNote(cfg: Config, bound: int, s: St, id: nat, t: St)
    requires t.now == s.now && Willing(cfg, t) == Willing(cfg, s) - {id} && id in Willing(cfg, s)
    requires t.proc.restartTimes == s.proc.restartTimes + [s.now] && WindowKept(cfg, bound, s)
    ensures WindowKept(cfg, bound, t)
  {
    NoteWithin(s.proc.restartTimes, s.now, Window(cfg), bound, |Willing(cfg, s)|);
  }

  lemma SpawnsNoteNothing(cfg: Config, s: St, id: nat, a: Action, t: St)
    requires Step(cfg, s, a, t) && a.GoesOn() && a.id == id
    ensures t.proc.restartTimes == s.proc.restartTimes && s.now == t.now && Willing(cfg, t) <= Willing(cfg, s)
  {
  }

  lemma OthersNoteNothing(cfg: Config, s: St, a: Action, t: St)
    requires Step(cfg, s, a, t) && !a.Exit? && !a.Act?
    ensures t.proc.restartTimes == s.proc.restartTimes && s.now <= t.now && Willing(cfg, t) <= Willing(cfg, s)
  {
    if a.GoesOn() { SpawnsNoteNothing(cfg, s, a.id, a, t); }
  }

  lemma WindowAct(cfg: Config, bound: int, s: St, id: nat)
    requires cfg.restartPolicy.None? && WindowKept(cfg, bound, s) && id in s.handlers && s.handlers[id].Judging?
    ensures WindowKept(cfg, bound, Acted(cfg, s, id))
  {
    var t := Acted(cfg, s, id);
    ActedOnce(cfg, s, id);
    if t.proc.restartTimes == s.proc.restartTimes {
      WindowFrame(cfg, bound, s, t);
    } else {
      WindowNote(cfg, bound, s, id, t);
    }
  }

  lemma WindowStep(cfg: Config, k: nat, s: St, a: Action, t: St)
    requires cfg.restartPolicy.None? && Step(cfg, s, a, t) && WindowKept(cfg, cfg.maxRestarts + k - 1, s)
    requires |Willing(cfg, t)| <= k
    ensures WindowKept(cfg, cfg.maxRestarts + k - 1, t)
  {
    if a.Exit? {
      WindowCount(cfg, k, s, a.id, a.code, t);
    } else if a.Act? {
      WindowAct(cfg, cfg.maxRestarts + k - 1, s, a.id);
    } else {
      OthersNoteNothing(cfg, s, a, t);
      WindowFrame(cfg, cfg.maxRestarts + k - 1, s, t);
    }
  }

  lemma {:induction false} WindowsAreKept(cfg: Config, run: seq<St>, acts: seq<Action>, k: nat, i: nat)
    requires cfg.restartPolicy.None? && k >= 1 && IsRun(cfg, run, acts) && i < |run|
    requires forall j :: 0 <= j < |run| ==> |Willing(cfg, run[j])| <= k
    ensures WindowKept(cfg, cfg.maxRestarts + k - 1, run[i])
  {
    if i == 0 {
      assert Willing(cfg, run[0]) == {};
    } else {
      WindowsAreKept(cfg, run, acts, k, i - 1);
      WindowStep(cfg, k, run[i - 1], acts[i - 1], run[i]);
    }
  }

  /**
   * The restart limit. While at most `k` handlers are ever between counting
   * the restarts in the window and noting one more, no window holds more than
   * `max_restarts + k - 1` restarts; when exits do not overlap there, `k` is
   * 1 and the limit is `max_restarts`.
   */
  lemma RestartsAreLimited(cfg: Config, run: seq<St>, acts: seq<Action>, k: nat, i: nat, x: int)
    requires cfg.restartPolicy.None? && k >= 1 && IsRun(cfg, run, acts) && i < |run|
    requires forall j :: 0 <= j < |run| ==> |Willing(cfg, run[j])| <= k
    ensures var times := run[i].proc.restartTimes;
      |set j | 0 <= j < |times| && x - 1000 * cfg.restartWindowSecs < times[j] <= x| <= cfg.maxRestarts + k - 1
  {
    WindowsAreKept(cfg, run, acts, k, i);
    InWindowEndingIsTheSet(run[i].proc.restartTimes, x, Window(cfg));
  }

  /** The restart counter is the number of restart times, under any policy. */
  lemma {:induction false} RestartsCountTheirTimes(cfg: Config, run: seq<St>, acts: seq<Action>, i: nat)
    requires IsRun(cfg, run, acts) && i < |run|
    ensures run[i].proc.restarts == |run[i].proc.restartTimes|
  {
    if i > 0 {
      RestartsCountTheirTimes(cfg, run, acts, i - 1);
      assert Step(cfg, run[i - 1], acts[i - 1], run[i]);
    }
  }

  /** The restarts noted before an exit was counted that lay in the window then. */
  ghost function Recent(cfg: Config, times: seq<int>, exit: Counted): nat
    requires exit.seen <= |times|
  {
    |set i | 0 <= i < exit.seen && times[i] > exit.at - 1000 * cfg.restartWindowSecs|
  }

  /** The wait a restart owes, in ms: by the restarts that lay in the window when its exit was counted. */
  ghost function Owed(cfg: Config, times: seq<int>, exit: Counted): nat
    requires exit.seen <= |times|
  {
    1000 * CappedDoubling(cfg.restartDelaySecs, Recent(cfg, times, exit))
  }

  ghost predicate CountedRight(cfg: Config, times: seq<int>, exit: Counted) {
    exit.seen <= |times| && exit.inWindow == Recent(cfg, times, exit)
  }

  /** The restart was noted after the exit was counted. */
  ghost predicate NotedThen(cfg: Config, times: seq<int>, exit: Counted, notedAt: int) {
    CountedRight(cfg, times, exit) && exit.at <= notedAt && notedAt in times[exit.seen..]
  }

  /** And the wait it is owed is over. */
  ghost predicate HasWaited(cfg: Config, times: seq<int>, exit: Counted, notedAt: int, now: int) {
    NotedThen(cfg, times, exit, notedAt) && (cfg.restartPolicy.None? ==> now >= notedAt + Owed(cfg, times, exit))
  }

  // ------------------------------------------------- what each exit comes to

  /** The results of the documented table of exits and policies. */
  datatype Row = Restarted | LeftStopped | LeftFailed | FailsTheContainer

  function Documented(cfg: Config, code: Option<int>, pastMax: bool): Row {
    if exists c :: code == Some(c) && c != 0 && c in cfg.noRestartExitCodes then
      if cfg.onNoRestart == FailOnNoRestart then FailsTheContainer else LeftFailed
    else
      match cfg.restartPolicy
      case Some(Always) => Restarted
      case Some(OnFailure) => if code == Some(0) then LeftStopped else Restarted
      case Some(Never) => if code == Some(0) then LeftStopped else LeftFailed
      case None =>
        if code == Some(0) then
          match cfg.onExit
          case StopOnExit => LeftStopped
          case RestartOnExit => if pastMax then LeftStopped else Restarted
        else
          match cfg.onFailure
          case RestartOnFailure => if pastMax then FailsTheContainer else Restarted
          case FailContainer => FailsTheContainer
          case Ignore => LeftStopped
  }

  /** The row for an exit, by the restarts in the window when it was counted. */
  ghost function RowOf(cfg: Config, times: seq<int>, exit: Counted): Row
    requires exit.seen <= |times|
  {
    Documented(cfg, exit.code, Recent(cfg, times, exit) >= cfg.maxRestarts)
  }

  /** Left as a stop would leave it. */
  predicate StoodDown(d: Done) { !d.forked && d.state == Stopped && d.failedAfter == d.failedBefore }

  /** What the row says, or what shutdown made of it, or a respawn that failed. */
  ghost predicate AsDocumented(cfg: Config, times: seq<int>, d: Done) {
    && CountedRight(cfg, times, d.exit)
    && ((d.down && d.noted.None? && StoodDown(d))
        || match RowOf(cfg, times, d.exit)
           case Restarted =>
             && d.noted.Some? && HasWaited(cfg, times, d.exit, d.noted.value, d.at)
             && (d.forked || (d.down && StoodDown(d)) || RespawnFailed(cfg, d))
           case LeftStopped => d.noted.None? && StoodDown(d)
           case LeftFailed => d.noted.None? && !d.forked && d.state == Failed && d.failedAfter == d.failedBefore
           case FailsTheContainer => d.noted.None? && !d.forked && d.state == Failed && d.failedAfter)
  }

  /** The process is failed, and the container too if the exit was a failure and no restart policy is set. */
  predicate RespawnFailed(cfg: Config, d: Done) {
    && !d.forked && d.state == Failed
    && d.failedAfter == (d.failedBefore || (cfg.restartPolicy.None? && d.exit.code != Some(0)))
  }

  ghost predicate HandlerKept(cfg: Config, times: seq<int>, now: int, h: Handler) {
    && CountedRight(cfg, times, h.exit) && h.exit.at <= now
    && (h.Cooling? || h.Spawning? ==> RowOf(cfg, times, h.exit) == Restarted)
    && (h.Cooling? ==> NotedThen(cfg, times, h.exit, h.notedAt))
    && (h.Cooling? && cfg.restartPolicy.None? ==> h.due == h.notedAt + Owed(cfg, times, h.exit))
    && (h.Spawning? ==> HasWaited(cfg, times, h.exit, h.notedAt, now))
  }

  ghost predicate ExitsKept(cfg: Config, s: St) {
    && (forall id :: id in s.handlers ==> HandlerKept(cfg, s.proc.restartTimes, s.now, s.handlers[id]))
    && (forall i :: 0 <= i < |s.done| ==> AsDocumented(cfg, s.proc.restartTimes, s.done[i]))
  }

  lemma NotingKeepsCounted(cfg: Config, times: seq<int>, at: int, exit: Counted)
    requires CountedRight(cfg, times, exit)
    ensures CountedRight(cfg, times + [at], exit) && RowOf(cfg, times + [at], exit) == RowOf(cfg, times, exit)
    ensures Owed(cfg, times + [at], exit) == Owed(cfg, times, exit)
    ensures (times + [at])[exit.seen..] == times[exit.seen..] + [at]
  {
    var from := exit.at - 1000 * cfg.restartWindowSecs;
    assert (set i | 0 <= i < exit.seen && times[i] > from) == set i | 0 <= i < exit.seen && (times + [at])[i] > from;
  }

  lemma NotingKeepsHandler(cfg: Config, times: seq<int>, now: int, at: int, h: Handler)
    requires HandlerKept(cfg, times, now, h)
    ensures HandlerKept(cfg, times + [at], now, h)
  {
    NotingKeepsCounted(cfg, times, at, h.exit);
  }

  lemma NotingKeepsDone(cfg: Config, times: seq<int>, at: int, d: Done)
    requires AsDocumented(cfg, times, d)
    ensures AsDocumented(cfg, times + [at], d)
  {
    NotingKeepsCounted(cfg, times, at, d.exit);
  }

  /** The source's order of questions and the table's answer alike. */
  lemma JudgeIsTheTable(cfg: Config, code: Option<int>, inWindow: nat)
    ensures Documented(cfg, code, inWindow >= cfg.maxRestarts) == match Judge(cfg, code, inWindow)
      case Stay(state, fails) =>
        if fails then FailsTheContainer else if state == Stopped then LeftStopped else LeftFailed
      case _ => Restarted
    ensures Judge(cfg, code, inWindow).BackOffAgain? ==> cfg.restartPolicy.Some?
    ensures Judge(cfg, code, inWindow).Again? ==> cfg.restartPolicy.None?
    ensures Judge(cfg, code, inWindow).Stay? ==> Judge(cfg, code, inWindow).state in {Stopped, Failed}
    ensures Judge(cfg, code, inWindow).Stay? && Judge(cfg, code, inWindow).failsContainer
      ==> Judge(cfg, code, inWindow).state == Failed
  {
  }

  lemma ExitsFrame(cfg: Config, s: St, t: St)
    requires ExitsKept(cfg, s) && t.proc.restartTimes == s.proc.restartTimes && s.now <= t.now && t.done == s.done
    requires t.handlers == s.handlers
    ensures ExitsKept(cfg, t)
  {
    forall id | id in t.handlers ensures HandlerKept(cfg, t.proc.restartTimes, t.now, t.handlers[id]) {
      assert HandlerKept(cfg, s.proc.restartTimes, s.now, s.handlers[id]);
    }
  }

  lemma OneHandler(cfg: Config, s: St, id: nat, h: Handler, t: St)
    requires ExitsKept(cfg, s) && t.proc.restartTimes == s.proc.restartTimes && s.now == t.now && t.done == s.done
    requires t.handlers == s.handlers[id := h] && HandlerKept(cfg, s.proc.restartTimes, s.now, h)
    ensures ExitsKept(cfg, t)
  {
  }

  lemma OneFinished(cfg: Config, s: St, id: nat, d: Done, t: St)
    requires ExitsKept(cfg, s) && t.proc.restartTimes == s.proc.restartTimes && s.now == t.now && t.done == s.done + [d]
    requires t.handlers == s.handlers - {id} && AsDocumented(cfg, s.proc.restartTimes, d)
    ensures ExitsKept(cfg, t)
  {
  }

  lemma {:induction false} OneNoted(cfg: Config, s: St, id: nat, h: Handler, t: St)
    requires ExitsKept(cfg, s) && t.proc.restartTimes == s.proc.restartTimes + [s.now] && s.now == t.now
    requires t.done == s.done
    requires t.handlers == s.handlers[id := h] && HandlerKept(cfg, t.proc.restartTimes, s.now, h)
    ensures ExitsKept(cfg, t)
  {
    forall i | i in t.handlers ensures HandlerKept(cfg, t.proc.restartTimes, t.now, t.handlers[i]) {
      if i != id { NotingKeepsHandler(cfg, s.proc.restartTimes, s.now, s.now, s.handlers[i]); }
    }
    forall i | 0 <= i < |t.done| ensures AsDocumented(cfg, t.proc.restartTimes, t.done[i]) {
      NotingKeepsDone(cfg, s.proc.restartTimes, s.now, s.done[i]);
    }
  }

  lemma {:induction false} ExitsAct(cfg: Config, s: St, id: nat)
    requires ExitsKept(cfg, s) && id in s.handlers && s.handlers[id].Judging?
    ensures ExitsKept(cfg, Acted(cfg, s, id))
  {
    var t := Acted(cfg, s, id);
    var (e, times) := (s.handlers[id].exit, s.proc.restartTimes);
    JudgeIsTheTable(cfg, e.code, e.inWindow);
    assert HandlerKept(cfg, times, s.now, s.handlers[id]);
    if Judge(cfg, e.code, e.inWindow).Stay? {
      OneFinished(cfg, s, id, t.done[|s.done|], t);
    } else {
      NotingKeepsCounted(cfg, times, s.now, e);
      CoolOffIsCappedDoubling(cfg.restartDelaySecs, e.inWindow);
      OneNoted(cfg, s, id, t.handlers[id], t);
    }
  }

  lemma ExitsExit(cfg: Config, s: St, id: nat, code: Option<int>, t: St)
    requires ExitsKept(cfg, s) && Step(cfg, s, Exit(id, code), t)
    ensures ExitsKept(cfg, t)
  {
    InWindowIsTheSet(s.proc.restartTimes, s.now, Window(cfg));
    OneHandler(cfg, s, id, t.handlers[id], t);
  }

  lemma {:induction false} ExitsGoOn(cfg: Config, s: St, id: nat, a: Action, t: St)
    requires ExitsKept(cfg, s) && Step(cfg, s, a, t) && a.GoesOn() && a.id == id
    ensures ExitsKept(cfg, t)
  {
    assert HandlerKept(cfg, s.proc.restartTimes, s.now, s.handlers[id]);
    if id in t.handlers {
      OneHandler(cfg, s, id, t.handlers[id], t);
    } else {
      OneFinished(cfg, s, id, t.done[|s.done|], t);
    }
  }

  /**
   * In every run, whatever overlaps, each exit ends as the table's row for it
   * has it, the row read off the restarts really in the window when it was
   * counted: a restart comes after its wait, min(30, max(1, delay) *
   * 2^max(0, k - 1)) s for k restarts in the window. Once shutdown has begun
   * it may be left stopped instead, and a respawn may fail.
   */
  lemma {:induction false} ExitsEndAsDocumented(cfg: Config, run: seq<St>, acts: seq<Action>, i: nat)
    requires IsRun(cfg, run, acts) && i < |run|
    ensures ExitsKept(cfg, run[i])
  {
    if i > 0 {
      ExitsEndAsDocumented(cfg, run, acts, i - 1);
      var (s, a, t) := (run[i - 1], acts[i - 1], run[i]);
      assert Step(cfg, s, a, t);
      if a.Exit? {
        ExitsExit(cfg, s, a.id, a.code, t);
      } else if a.Act? {
        ExitsAct(cfg, s, a.id);
      } else if a.GoesOn() {
        ExitsGoOn(cfg, s, a.id, a, t);
      } else {
        ExitsFrame(cfg, s, t);
      }
    }
  }

  /** What its handler is given of an exit: the code, the restarts in the window, how long the child ran. */
  lemma AnExitIsCounted(cfg: Config, s: St, id: nat, code: Option<int>, t: St)
    requires Step(cfg, s, Exit(id, code), t)
    ensures id in t.handlers && t.handlers[id].Checking?
    ensures var (e, times) := (t.handlers[id].exit, s.proc.restartTimes);
      && e.code == code && e.at == s.now && e.seen == |times|
      && e.inWindow == |set i | 0 <= i < |times| && times[i] > s.now - 1000 * cfg.restartWindowSecs|
      && match s.proc.startedAt
         case Some(from) => from <= s.now ==> 1000 * e.ranSecs <= s.now - from < 1000 * e.ranSecs + 1000
         case None => e.ranSecs == 0
  {
    InWindowIsTheSet(s.proc.restartTimes, s.now, Window(cfg));
  }

  /**
   * Without a restart policy a wait ends, in every run, when it is over and no
   * later: min(30, max(1, delay) * 2^max(0, k - 1)) s after the restart was
   * noted, for k restarts in the window. With one, shutdown ends it too.
   */
  lemma RestartsWhenDue(cfg: Config, run: seq<St>, acts: seq<Action>, i: nat, id: nat)
    requires IsRun(cfg, run, acts) && i < |run| && id in run[i].handlers && run[i].handlers[id].Cooling?
    ensures var (s, h) := (run[i], run[i].handlers[id]);
      && h.exit.seen <= |s.proc.restartTimes|
      && (cfg.restartPolicy.None? ==>
            ((exists t :: Step(cfg, s, Wake(id), t)) <==> s.now >= h.notedAt + Owed(cfg, s.proc.restartTimes, h.exit)))
      && (cfg.restartPolicy.Some? ==>
            ((exists t :: Step(cfg, s, Wake(id), t)) <==>
             s.shuttingDown || (s.now >= h.due && Owes(s.notes, h.exit.ranSecs, h.notedAt, h.due))))
  {
    var (s, h) := (run[i], run[i].handlers[id]);
    ExitsEndAsDocumented(cfg, run, acts, i);
    assert HandlerKept(cfg, s.proc.restartTimes, s.now, h);
    if cfg.restartPolicy.Some? { BackOffsDouble(cfg, run, acts, i); }
    var t := if s.shuttingDown then Finish(s, s.(proc := s.proc.(state := Stopped)), id, Some(h.notedAt), false)
      else s.(handlers := s.handlers[id := Spawning(h.exit, h.notedAt, Asked)]);
    if s.now >= h.due || (s.shuttingDown && cfg.restartPolicy.Some?) { assert Step(cfg, s, Wake(id), t); }
  }

  /** The crashes counted are the failures whose handlers found shutdown not begun. */
  lemma {:induction false} CrashesAreFailures(cfg: Config, run: seq<St>, acts: seq<Action>, i: nat)
    requires IsRun(cfg, run, acts) && i < |run|
    ensures run[i].proc.crashes == |set j | 0 <= j < i && IsCrash(run, acts, j)|
  {
    var all := set j | 0 <= j < i && IsCrash(run, acts, j);
    if i > 0 {
      CrashesAreFailures(cfg, run, acts, i - 1);
      var before := set j | 0 <= j < i - 1 && IsCrash(run, acts, j);
      assert all == if IsCrash(run, acts, i - 1) then before + {i - 1} else before;
      CrashStep(cfg, run[i - 1], acts[i - 1], run[i]);
    } else {
      assert all == {};
    }
  }

  ghost predicate IsCrash(run: seq<St>, acts: seq<Action>, j: nat) {
    j < |acts| && j < |run| && CountsCrash(run[j], acts[j])
  }

  ghost predicate CountsCrash(s: St, a: Action) {
    && a.CheckShutdown? && !s.shuttingDown
    && a.id in s.handlers && s.handlers[a.id].exit.code != Some(0)
  }

  lemma CrashStep(cfg: Config, s: St, a: Action, t: St)
    requires Step(cfg, s, a, t)
    ensures t.proc.crashes == s.proc.crashes + if CountsCrash(s, a) then 1 else 0
  {
  }

  /** A restart's spawn goes forward only: past its look at the flag, which shutdown has not set, to a new run. */
  lemma SpawnsGoForward(cfg: Config, s: St, a: Action, t: St, id: nat)
    requires Step(cfg, s, a, t)
    ensures id in s.handlers && id in t.handlers && s.handlers[id].Spawning? && t.handlers[id] != s.handlers[id] ==>
      && t.handlers[id].Spawning? && a.id == id
      && match s.handlers[id].phase
         case Asked => t.handlers[id].phase == Cleared && !s.shuttingDown
         case Cleared => t.handlers[id].phase == Begun && t.proc.run == s.proc.run + 1
         case Begun => false
  {
  }

  /** And so does a start's; one that is not a restart's is refused to a process that runs. */
  lemma StartsGoForward(cfg: Config, s: St, a: Action, t: St, id: nat)
    requires Step(cfg, s, a, t)
    ensures id in s.starts && id in t.starts && t.starts[id] != s.starts[id] ==>
      match s.starts[id]
      case Asked => t.starts[id] == Cleared && !s.shuttingDown
      case Cleared => t.starts[id] == Begun && t.proc.run == s.proc.run + 1
      case Begun => false
    ensures id !in s.starts && id in t.starts ==> a.AskStart? && (a.again || s.proc.state != Running)
  {
  }

  /** A stop that lands leaves the process stopped, with no pid, and not ready; an exit leaves the last two. */
  lemma EndsLeaveNoChild(cfg: Config, s: St, a: Action, t: St)
    requires Step(cfg, s, a, t) && (a.StopLands? || a.Exit?)
    ensures t.proc.pid.None? && !t.proc.ready && (a.StopLands? ==> t.proc.state == Stopped)
  {
  }

  // ------------------------------------------------------------ every child

  predicate Forks(a: Action) { (a.Fork? || a.StartFork?) && a.ok }

  function CountForks(acts: seq<Action>): nat {
    if acts == [] then 0 else CountForks(acts[..|acts| - 1]) + if Forks(acts[|acts| - 1]) then 1 else 0
  }

  function CountEnds(acts: seq<Action>): nat {
    if acts == [] then 0
    else CountEnds(acts[..|acts| - 1]) + if acts[|acts| - 1].Exit? || acts[|acts| - 1].StopLands? then 1 else 0
  }

  lemma ChildStep(cfg: Config, s: St, a: Action, t: St)
    requires Step(cfg, s, a, t)
    ensures t.landing + t.live + (if a.Exit? || a.StopLands? then 1 else 0)
      == s.landing + s.live + if Forks(a) then 1 else 0
  {
  }

  lemma ForkStep(cfg: Config, s: St, a: Action, t: St)
    requires Step(cfg, s, a, t)
    ensures t.forks == s.forks + if Forks(a) then 1 else 0
  {
  }

  /** Every child forked is on its way, runs, or has come to the end that was taken once, and no other is. */
  lemma {:induction false} EveryChildIsForked(cfg: Config, run: seq<St>, acts: seq<Action>, i: nat)
    requires IsRun(cfg, run, acts) && i < |run|
    ensures run[i].forks == CountForks(acts[..i]) == run[i].landing + run[i].live + CountEnds(acts[..i])
  {
    if i > 0 {
      EveryChildIsForked(cfg, run, acts, i - 1);
      ChildStep(cfg, run[i - 1], acts[i - 1], run[i]);
      ForkStep(cfg, run[i - 1], acts[i - 1], run[i]);
      assert acts[..i][..i - 1] == acts[..i - 1];
    }
  }

  // --------------------------------------------------------- every restart counted

  function CountNoted(done: seq<Done>): nat {
    if done == [] then 0 else CountNoted(done[..|done| - 1]) + if done[|done| - 1].noted.Some? then 1 else 0
  }

  /** Handlers that have noted their restart and not ended. */
  ghost function Promised(s: St): set<nat> {
    set id | id in s.handlers && (s.handlers[id].Cooling? || s.handlers[id].Spawning?)
  }

  lemma OneMoreDone(done: seq<Done>, d: Done)
    ensures CountNoted(done + [d]) == CountNoted(done) + if d.noted.Some? then 1 else 0
  {
    assert (done + [d])[..|done|] == done;
  }

  lemma CountsFinish(s: St, id: nat, noted: Option<int>, t: St)
    requires id in s.handlers && noted.Some? == (id in Promised(s))
    requires s.proc.restarts == CountNoted(s.done) + |Promised(s)| && t.proc.restarts == s.proc.restarts
    requires t.handlers == s.handlers - {id} && |t.done| == |s.done| + 1 && t.done[..|s.done|] == s.done
    requires t.done[|s.done|].noted == noted
    ensures t.proc.restarts == CountNoted(t.done) + |Promised(t)|
  {
    OneMoreDone(s.done, t.done[|s.done|]);
    assert t.done == s.done + [t.done[|s.done|]];
    assert Promised(t) == Promised(s) - {id};
  }

  /** A handler that does not end has noted its restart if and only if it was counted. */
  lemma CountsOn(s: St, id: nat, h: Handler, t: St)
    requires id in s.handlers && t.handlers == s.handlers[id := h] && t.done == s.done
    requires s.proc.restarts == CountNoted(s.done) + |Promised(s)|
    requires t.proc.restarts == s.proc.restarts + if (h.Cooling? || h.Spawning?) && id !in Promised(s) then 1 else 0
    requires id in Promised(s) ==> h.Cooling? || h.Spawning?
    ensures t.proc.restarts == CountNoted(t.done) + |Promised(t)|
  {
    if (h.Cooling? || h.Spawning?) && id !in Promised(s) {
      assert Promised(t) == Promised(s) + {id};
    } else {
      assert Promised(t) == Promised(s);
    }
  }

  lemma CountsAct(cfg: Config, s: St, id: nat)
    requires id in s.handlers && s.handlers[id].Judging? && s.proc.restarts == CountNoted(s.done) + |Promised(s)|
    ensures var t := Acted(cfg, s, id); t.proc.restarts == CountNoted(t.done) + |Promised(t)|
  {
    var t := Acted(cfg, s, id);
    if id in t.handlers { CountsOn(s, id, t.handlers[id], t); } else { CountsFinish(s, id, None, t); }
  }

  lemma {:induction false} CountsSpawn(cfg: Config, s: St, id: nat, a: Action, t: St)
    requires Step(cfg, s, a, t) && a.GoesOn() && a.id == id
    requires s.proc.restarts == CountNoted(s.done) + |Promised(s)|
    ensures t.proc.restarts == CountNoted(t.done) + |Promised(t)|
  {
    if id in t.handlers {
      CountsOn(s, id, t.handlers[id], t);
    } else {
      CountsFinish(s, id, if a.CheckShutdown? then None else Some(s.handlers[id].notedAt), t);
    }
  }

  lemma CountsOther(cfg: Config, s: St, a: Action, t: St)
    requires Step(cfg, s, a, t) && !a.Act? && !a.GoesOn()
    ensures Promised(t) == Promised(s) && t.done == s.done && t.proc.restarts == s.proc.restarts
  {
  }

  /** A restart counted is one noted by a handler: those that have ended, and those still waiting or spawning. */
  lemma {:induction false} RestartsAreThoseNoted(cfg: Config, run: seq<St>, acts: seq<Action>, i: nat)
    requires IsRun(cfg, run, acts) && i < |run|
    ensures run[i].proc.restarts == CountNoted(run[i].done) + |Promised(run[i])|
  {
    if i > 0 {
      RestartsAreThoseNoted(cfg, run, acts, i - 1);
      var (s, a, t) := (run[i - 1], acts[i - 1], run[i]);
      assert Step(cfg, s, a, t);
      if a.Act? {
        CountsAct(cfg, s, a.id);
      } else if a.GoesOn() {
        CountsSpawn(cfg, s, a.id, a, t);
      } else {
        CountsOther(cfg, s, a, t);
      }
    } else {
      assert Promised(run[0]) == {};
    }
  }
  // ---------------------------------------------------- under a restart policy

  /** The back-offs in a row so far: since the start, or the last run of ten minutes. */
  function NotesInARow(notes: seq<Note>): nat {
    if notes == [] then 0
    else (if notes[|notes| - 1].ranSecs >= 600 then 0 else NotesInARow(notes[..|notes| - 1])) + 1
  }

  /** The wait meant for the last back-off: 10 s, doubled for each before it in the row, up to five minutes. */
  function WaitMeant(notes: seq<Note>): nat
    requires notes != []
  {
    Min(300, 10 * Pow2(NotesInARow(notes) - 1))
  }

  ghost predicate WaitsMeant(notes: seq<Note>) {
    forall i :: 0 <= i < |notes| ==> notes[i].waitSecs == WaitMeant(notes[..i + 1])
  }

  /** A back-off was noted at `at` for a run that had lasted `ran`, and its wait is over at `due`. */
  ghost predicate Owes(notes: seq<Note>, ran: int, at: int, due: int) {
    exists i :: 0 <= i < |notes| && notes[i].ranSecs == ran && notes[i].at == at && due == at + 1000 * notes[i].waitSecs
  }

  ghost predicate WaitedOut(notes: seq<Note>, ran: int, at: int, now: int) {
    exists due :: due <= now && Owes(notes, ran, at, due)
  }

  ghost predicate BackingOff(notes: seq<Note>, now: int, h: Handler) {
    && (h.Cooling? ==> Owes(notes, h.exit.ranSecs, h.notedAt, h.due))
    && (h.Spawning? ==> WaitedOut(notes, h.exit.ranSecs, h.notedAt, now))
  }

  ghost predicate BackedOff(notes: seq<Note>, d: Done) {
    d.forked ==> d.noted.Some? && WaitedOut(notes, d.exit.ranSecs, d.noted.value, d.at)
  }

  ghost predicate BackOffsKept(s: St) {
    && s.proc.backoffStep == Min(NotesInARow(s.notes), U32_MAX) && WaitsMeant(s.notes)
    && (forall id :: id in s.handlers ==> BackingOff(s.notes, s.now, s.handlers[id]))
    && (forall i :: 0 <= i < |s.done| ==> BackedOff(s.notes, s.done[i]))
  }

  lemma OneMoreNote(notes: seq<Note>, note: Note, step: nat)
    requires WaitsMeant(notes)
    requires step == Min(if note.ranSecs >= BACKOFF_RESET_SECS then 0 else NotesInARow(notes), U32_MAX)
    requires note.waitSecs == BackOff(step)
    ensures WaitsMeant(notes + [note])
    ensures NotesInARow(notes + [note]) == (if note.ranSecs >= BACKOFF_RESET_SECS then 0 else NotesInARow(notes)) + 1
    ensures Owes(notes + [note], note.ranSecs, note.at, note.at + 1000 * note.waitSecs)
    ensures forall ran, at, due :: Owes(notes, ran, at, due) ==> Owes(notes + [note], ran, at, due)
  {
    var more := notes + [note];
    assert more[..|notes|] == notes && more[..|more|] == more;
    StepsPastTheCap(if note.ranSecs >= BACKOFF_RESET_SECS then 0 else NotesInARow(notes));
    forall i | 0 <= i < |more| ensures more[i].waitSecs == WaitMeant(more[..i + 1]) {
      if i < |notes| { assert more[..i + 1] == notes[..i + 1]; }
    }
    assert more[|notes|] == note;
    forall ran, at, due | Owes(notes, ran, at, due) ensures Owes(more, ran, at, due) {
      var i :| 0 <= i < |notes| && notes[i].ranSecs == ran && notes[i].at == at && due == at + 1000 * notes[i].waitSecs;
      assert more[i] == notes[i];
    }
  }

  lemma BackOffNoted(s: St, id: nat, note: Note, t: St)
    requires BackOffsKept(s) && note.waitSecs == BackOff(s.proc.Step(note.ranSecs))
    requires t.notes == s.notes + [note] && t.done == s.done && t.now == s.now
    requires t.proc.backoffStep == var step := s.proc.Step(note.ranSecs); if step < U32_MAX then step + 1 else step
    requires id in t.handlers && t.handlers == s.handlers[id := t.handlers[id]] && t.handlers[id].Cooling?
    requires t.handlers[id].notedAt == note.at && t.handlers[id].due == note.at + 1000 * note.waitSecs
    requires t.handlers[id].exit.ranSecs == note.ranSecs
    ensures BackOffsKept(t)
  {
    OneMoreNote(s.notes, note, s.proc.Step(note.ranSecs));
    forall x | x in t.handlers ensures BackingOff(t.notes, t.now, t.handlers[x]) {
      if x != id { assert BackingOff(s.notes, s.now, s.handlers[x]); }
    }
  }

  lemma {:induction false} BackOffsAct(cfg: Config, s: St, id: nat)
    requires cfg.restartPolicy.Some? && BackOffsKept(s) && id in s.handlers && s.handlers[id].Judging?
    ensures BackOffsKept(Acted(cfg, s, id))
  {
    var (e, t) := (s.handlers[id].exit, Acted(cfg, s, id));
    JudgeIsTheTable(cfg, e.code, e.inWindow);
    if Judge(cfg, e.code, e.inWindow).BackOffAgain? {
      BackOffNoted(s, id, Note(e.ranSecs, s.now, BackOff(s.proc.Step(e.ranSecs))), t);
    } else {
      BackOffsFrame(s, t);
    }
  }

  /** Nothing noted: handlers only go on to spawn once due, and end forked only from there. */
  lemma BackOffsFrame(s: St, t: St)
    requires BackOffsKept(s) && t.notes == s.notes && t.proc.backoffStep == s.proc.backoffStep && s.now <= t.now
    requires forall x :: x in t.handlers && (t.handlers[x].Cooling? || t.handlers[x].Spawning?) ==>
      GoesOn(s, x, t.handlers[x])
    requires
      || t.done == s.done
      || (|t.done| == |s.done| + 1 && t.done[..|s.done|] == s.done && EndsBackedOff(s, t.done[|s.done|]))
    ensures BackOffsKept(t)
  {
    forall x | x in t.handlers ensures BackingOff(t.notes, t.now, t.handlers[x]) {
      var h := t.handlers[x];
      if h.Cooling? || h.Spawning? {
        assert GoesOn(s, x, h) && BackingOff(s.notes, s.now, s.handlers[x]);
      }
    }
    forall i | 0 <= i < |t.done| ensures BackedOff(t.notes, t.done[i]) {
      if i < |s.done| { assert t.done[i] == t.done[..|s.done|][i] == s.done[i]; }
    }
  }

  ghost predicate GoesOn(s: St, x: nat, h: Handler) {
    && x in s.handlers && s.handlers[x].exit == h.exit
    && (h.Cooling? ==> s.handlers[x] == h)
    && (h.Spawning? ==>
          || (s.handlers[x].Spawning? && s.handlers[x].notedAt == h.notedAt)
          || (s.handlers[x].Cooling? && s.handlers[x].notedAt == h.notedAt && s.now >= s.handlers[x].due))
  }

  ghost predicate EndsBackedOff(s: St, d: Done) {
    d.forked ==> d.noted.Some? && d.at == s.now && WaitedOut(s.notes, d.exit.ranSecs, d.noted.value, s.now)
  }

  lemma {:induction false} BackOffsSpawn(cfg: Config, s: St, id: nat, a: Action, t: St)
    requires BackOffsKept(s) && Step(cfg, s, a, t)
    requires a.GoesOn() && a.id == id
    ensures BackOffsKept(t)
  {
    assert BackingOff(s.notes, s.now, s.handlers[id]);
    BackOffsFrame(s, t);
  }

  lemma {:induction false} BackOffsStep(cfg: Config, s: St, a: Action, t: St)
    requires cfg.restartPolicy.Some? && BackOffsKept(s) && Step(cfg, s, a, t)
    ensures BackOffsKept(t)
  {
    if a.Act? {
      BackOffsAct(cfg, s, a.id);
    } else if a.GoesOn() {
      BackOffsSpawn(cfg, s, a.id, a, t);
    } else {
      BackOffsFrame(s, t);
    }
  }

  /**
   * Under a restart policy the nth back-off in a row waits 10 s * 2^(n-1), up
   * to five minutes, a run of ten minutes beginning the row again, and every
   * respawn comes after its wait.
   */
  lemma {:induction false} BackOffsDouble(cfg: Config, run: seq<St>, acts: seq<Action>, i: nat)
    requires cfg.restartPolicy.Some? && IsRun(cfg, run, acts) && i < |run|
    ensures BackOffsKept(run[i])
  {
    if i > 0 {
      BackOffsDouble(cfg, run, acts, i - 1);
      BackOffsStep(cfg, run[i - 1], acts[i - 1], run[i]);
    }
  }

  /** An exit the process says no restart will fix, and that fails the container. */
  ghost predicate CanFail(cfg: Config) {
    cfg.onNoRestart == FailOnNoRestart && exists c :: c in cfg.noRestartExitCodes && c != 0
  }

  lemma {:induction false} PolicyKeepsContainer(cfg: Config, run: seq<St>, acts: seq<Action>, i: nat)
    requires cfg.restartPolicy.Some? && !CanFail(cfg) && IsRun(cfg, run, acts) && i < |run|
    ensures !run[i].containerFailed
  {
    if i > 0 {
      PolicyKeepsContainer(cfg, run, acts, i - 1);
      assert Step(cfg, run[i - 1], acts[i - 1], run[i]);
    }
  }

  // ------------------------------------------------------------------ runs made

  /** A run from `s` to `t` in which at most `k` handlers are willing at any time. */
  ghost predicate Reaches(cfg: Config, k: nat, s: St, t: St) {
    exists run: seq<St>, acts: seq<Action> :: Leads(cfg, k, s, run, acts, t)
  }

  ghost predicate Leads(cfg: Config, k: nat, s: St, run: seq<St>, acts: seq<Action>, t: St) {
    && Steps(cfg, run, acts) && run[0] == s && run[|run| - 1] == t
    && forall j :: 0 <= j < |run| ==> |Willing(cfg, run[j])| <= k
  }

  lemma Stays(cfg: Config, k: nat, s: St)
    requires |Willing(cfg, s)| <= k
    ensures Reaches(cfg, k, s, s)
  {
    assert Leads(cfg, k, s, [s], [], s);
  }

  lemma GoesTo(cfg: Config, k: nat, s: St, t: St, a: Action, u: St)
    requires Reaches(cfg, k, s, t) && Step(cfg, t, a, u) && |Willing(cfg, u)| <= k
    ensures Reaches(cfg, k, s, u)
  {
    var run: seq<St>, acts: seq<Action> :| Leads(cfg, k, s, run, acts, t);
    var (run', acts') := (run + [u], acts + [a]);
    forall i | 0 <= i < |acts'| ensures Step(cfg, run'[i], acts'[i], run'[i + 1]) {
      if i < |acts| { assert Step(cfg, run[i], acts[i], run[i + 1]); }
    }
    assert Leads(cfg, k, s, run', acts', u);
  }

  /** Where nobody is willing before or after. */
  lemma GoesQuietly(cfg: Config, k: nat, s: St, t: St, a: Action, u: St)
    requires Reaches(cfg, k, s, t) && Step(cfg, t, a, u) && Willing(cfg, u) <= Willing(cfg, t) && |Willing(cfg, t)| <= k
    ensures Reaches(cfg, k, s, u) && |Willing(cfg, u)| <= k
  {
    SubsetSize(Willing(cfg, u), Willing(cfg, t));
    GoesTo(cfg, k, s, t, a, u);
  }

  function Fresh(cfg: Config): St {
    St(0, NewProc(cfg), map[], map[], 0, 0, 0, false, false, [], [])
  }

  /** Alike but for the children and what a spawn does to the process. */
  ghost predicate SameBut(s: St, t: St) {
    && t.now == s.now && t.handlers == s.handlers && t.shuttingDown == s.shuttingDown
      && t.containerFailed == s.containerFailed
    && t.done == s.done && t.notes == s.notes && t.proc.restartTimes == s.proc.restartTimes && t.starts == s.starts
  }

  /** `n` starts asked for before any child is marked Running, each let through and forked. */
  lemma {:induction false} StartMany(cfg: Config, k: nat, r: St, s: St, n: nat) returns (t: St)
    requires Reaches(cfg, k, r, s) && |Willing(cfg, s)| <= k
    requires s.starts == map[] && s.proc.state != Running && !s.shuttingDown
    ensures Reaches(cfg, k, r, t) && SameBut(s, t) && t.landing == s.landing + n && t.live == s.live
    ensures t.proc.state != Running
  {
    t := s;
    if n > 0 {
      var u := StartMany(cfg, k, r, s, n - 1);
      assert Willing(cfg, u) == Willing(cfg, s);
      var u1 := u.(starts := map[0 := Asked]);
      var u2 := u.(starts := map[0 := Cleared]);
      var u3 := u.(proc := u.proc.BeginRun(cfg), starts := map[0 := Begun]);
      t := u.(proc := u.proc.BeginRun(cfg), landing := u.landing + 1, forks := u.forks + 1);
      GoesQuietly(cfg, k, r, u, AskStart(0, false), u1);
      GoesQuietly(cfg, k, r, u1, StartCheck(0, false), u2);
      GoesQuietly(cfg, k, r, u2, StartRun(0), u3);
      GoesQuietly(cfg, k, r, u3, StartFork(0, true), t);
    }
  }

  lemma {:induction false} LandMany(cfg: Config, k: nat, r: St, s: St, n: nat) returns (t: St)
    requires Reaches(cfg, k, r, s) && |Willing(cfg, s)| <= k && n <= s.landing
    ensures Reaches(cfg, k, r, t) && SameBut(s, t) && t.landing == s.landing - n && t.live == s.live + n
    ensures n > 0 ==> t.proc.state == Running
  {
    t := s;
    if n > 0 {
      var u := LandMany(cfg, k, r, s, n - 1);
      assert Willing(cfg, u) == Willing(cfg, s);
      t := u.(proc := u.proc.MarkRunning(None, u.now), landing := u.landing - 1, live := u.live + 1);
      GoesQuietly(cfg, k, r, u, Land(None), t);
    }
  }

  /** A fresh process with `n` children, from starts that met. */
  lemma Children(cfg: Config, k: nat, n: nat) returns (t: St)
    ensures Init(cfg, Fresh(cfg)) && Reaches(cfg, k, Fresh(cfg), t)
    ensures t.live == n && t.now == 0 && t.handlers == map[] && !t.shuttingDown && !t.containerFailed
    ensures t.proc.restartTimes == [] && t.done == [] && t.starts == map[]
  {
    var s := Fresh(cfg);
    assert Willing(cfg, s) == {};
    Stays(cfg, k, s);
    var u := StartMany(cfg, k, s, s, n);
    assert Willing(cfg, u) == {};
    t := LandMany(cfg, k, s, u, n);
  }

  // ---------------------------------------------------- the limit is reached

  ghost predicate AllAt(times: seq<int>, now: int) {
    forall i :: 0 <= i < |times| ==> times[i] == now
  }

  lemma {:induction false} AllInWindow(times: seq<int>, now: int, w: nat)
    requires AllAt(times, now) && w > 0
    ensures InWindow(times, now, w) == |times| && InWindowEnding(times, now, w) == |times|
  {
    if times != [] { AllInWindow(times[..|times| - 1], now, w); }
  }

  /** The restarts below the limit do not matter to the verdict. */
  lemma AgainBelowTheLimit(cfg: Config, code: Option<int>, inWindow: nat)
    requires Judge(cfg, code, 0).Again? && inWindow < cfg.maxRestarts
    ensures Judge(cfg, code, inWindow).Again?
  {
  }

  /** Handlers `a` to `b` are checking exits that saw `n` restarts in the window; none before or after is willing. */
  ghost predicate Waiting(cfg: Config, s: St, code: Option<int>, n: nat, a: nat, b: nat) {
    && (forall id :: id in s.handlers ==> id < b)
    && (forall id :: id in s.handlers && id < a ==> s.handlers[id].Cooling?)
    && (forall id :: a <= id < b ==> id in s.handlers && IsWaiting(s.handlers[id], code, n))
  }

  ghost predicate IsWaiting(h: Handler, code: Option<int>, n: nat) {
    h.Checking? && h.exit.code == code && h.exit.inWindow == n
  }

  lemma {:induction false} RangeSize(s: set<nat>, a: nat, b: nat)
    requires a <= b && forall x :: x in s ==> a <= x < b
    ensures |s| <= b - a
  {
    if a < b {
      RangeSize(s - {b - 1}, a, b - 1);
    } else {
      assert s == {};
    }
  }

  lemma WaitingAreWilling(cfg: Config, s: St, code: Option<int>, n: nat, a: nat, b: nat)
    requires Waiting(cfg, s, code, n, a, b) && a <= b
    ensures |Willing(cfg, s)| <= b - a
  {
    RangeSize(Willing(cfg, s), a, b);
  }

  /** Nothing but restarts at one moment, on which shutdown has not come. */
  ghost predicate Calm(s: St, now: int, n: nat) {
    s.now == now && !s.shuttingDown && AllAt(s.proc.restartTimes, now) && |s.proc.restartTimes| == n
  }

  /** `n` exits counted before any of them is acted on. */
  lemma {:induction false} ExitMany(cfg: Config, k: nat, r: St, s: St, code: Option<int>, seen: nat, a: nat, n: nat)
    returns (t: St)
    requires n <= k && n <= s.live && Reaches(cfg, k, r, s) && Calm(s, s.now, seen) && Window(cfg) > 0
    requires Waiting(cfg, s, code, seen, a, a)
    ensures Reaches(cfg, k, r, t) && Calm(t, s.now, seen) && t.live == s.live - n
    ensures Waiting(cfg, t, code, seen, a, a + n)
  {
    t := s;
    if n > 0 {
      var u := ExitMany(cfg, k, r, s, code, seen, a, n - 1);
      var id := a + n - 1;
      AllInWindow(u.proc.restartTimes, u.now, Window(cfg));
      t := Exited(cfg, u, id, code);
      assert id !in u.handlers;
      assert Step(cfg, u, Exit(id, code), t);
      WaitingAreWilling(cfg, t, code, seen, a, a + n);
      GoesTo(cfg, k, r, u, Exit(id, code), t);
    }
  }

  /** One of them acted on. */
  lemma ActOne(cfg: Config, k: nat, r: St, s: St, code: Option<int>, seen: nat, m: nat, a: nat, b: nat) returns (t: St)
    requires Reaches(cfg, k, r, s) && Calm(s, s.now, m) && b - a <= k && a < b && Waiting(cfg, s, code, seen, a, b)
    requires seen < cfg.maxRestarts && Judge(cfg, code, 0).Again?
    ensures Reaches(cfg, k, r, t) && Calm(t, s.now, m + 1) && t.live == s.live && Waiting(cfg, t, code, seen, a + 1, b)
  {
    AgainBelowTheLimit(cfg, code, seen);
    assert a in s.handlers && IsWaiting(s.handlers[a], code, seen);
    var e := s.handlers[a].exit;
    var u := s.(proc := if code == Some(0) then s.proc else s.proc.CountCrash(),
                handlers := s.handlers[a := Judging(e)]);
    assert Step(cfg, s, CheckShutdown(a), u);
    WaitingAreWilling(cfg, s, code, seen, a, b);
    assert Willing(cfg, u) <= Willing(cfg, s);
    GoesQuietly(cfg, k, r, s, CheckShutdown(a), u);
    t := Acted(cfg, u, a);
    assert Step(cfg, u, Act(a), t);
    assert Willing(cfg, t) <= Willing(cfg, u);
    GoesQuietly(cfg, k, r, u, Act(a), t);
    forall id | a + 1 <= id < b ensures id in t.handlers && IsWaiting(t.handlers[id], code, seen) {
      assert id in s.handlers && IsWaiting(s.handlers[id], code, seen);
    }
  }

  lemma {:induction false} ActMany(cfg: Config, k: nat, r: St, s: St, code: Option<int>, seen: nat, m: nat, a: nat,
                                   b: nat) returns (t: St)
    requires Reaches(cfg, k, r, s) && Calm(s, s.now, m) && a <= b && b - a <= k && Waiting(cfg, s, code, seen, a, b)
    requires seen < cfg.maxRestarts && Judge(cfg, code, 0).Again?
    ensures Reaches(cfg, k, r, t) && Calm(t, s.now, m + b - a) && t.live == s.live && Waiting(cfg, t, code, seen, b, b)
    decreases b - a
  {
    t := s;
    if a < b {
      var u := ActOne(cfg, k, r, s, code, seen, m, a, b);
      t := ActMany(cfg, k, r, u, code, seen, m + 1, a + 1, b);
    }
  }

  lemma AnyLimit(cfg: Config, s: St, code: Option<int>, n: nat, n': nat, a: nat)
    requires Waiting(cfg, s, code, n, a, a)
    ensures Waiting(cfg, s, code, n', a, a)
  {
  }

  /** `n` exits one after the other, each restart noted before the next is counted. */
  lemma {:induction false} OneAfterAnother(cfg: Config, k: nat, r: St, s: St, code: Option<int>, n: nat) returns (t: St)
    requires k >= 1 && n < cfg.maxRestarts && n <= s.live && Reaches(cfg, k, r, s) && Calm(s, s.now, 0)
    requires Window(cfg) > 0
    requires s.handlers == map[] && Judge(cfg, code, 0).Again?
    ensures Reaches(cfg, k, r, t) && Calm(t, s.now, n) && t.live == s.live - n && Waiting(cfg, t, code, n, n, n)
  {
    t := s;
    if n > 0 {
      var u := OneAfterAnother(cfg, k, r, s, code, n - 1);
      var v := ExitMany(cfg, k, r, u, code, n - 1, n - 1, 1);
      t := ActMany(cfg, k, r, v, code, n - 1, n - 1, n - 1, n);
      AnyLimit(cfg, t, code, n - 1, n, n);
    }
  }

  /** An exit of `code` is restarted while there is room for restarts. */
  ghost predicate RestartsSome(cfg: Config, code: Option<int>) {
    Judge(cfg, code, 0).Again? || Judge(cfg, code, 0).BackOffAgain?
  }

  /**
   * The bound of `RestartsAreLimited` is the best there is: for every
   * configuration that restarts some exit at all, has a window and allows a
   * restart in it, and for every `k`, a run of children really started, with
   * at most `k` handlers willing at any time, notes `max_restarts + k - 1`
   * restarts in one window.
   */
  lemma TheLimitIsReached(cfg: Config, code: Option<int>, k: nat) returns (t: St)
    requires cfg.restartPolicy.None? && RestartsSome(cfg, code) && cfg.maxRestarts >= 1 && cfg.restartWindowSecs >= 1
    requires k >= 1
    ensures Init(cfg, Fresh(cfg)) && Reaches(cfg, k, Fresh(cfg), t)
    ensures var times := t.proc.restartTimes;
      |set j | 0 <= j < |times| && t.now - 1000 * cfg.restartWindowSecs < times[j] <= t.now| == cfg.maxRestarts + k - 1
  {
    var s := Children(cfg, k, cfg.maxRestarts + k - 1);
    var m := cfg.maxRestarts - 1;
    var u := OneAfterAnother(cfg, k, Fresh(cfg), s, code, m);
    var v := ExitMany(cfg, k, Fresh(cfg), u, code, m, m, k);
    t := ActMany(cfg, k, Fresh(cfg), v, code, m, m, m, m + k);
    AllInWindow(t.proc.restartTimes, t.now, Window(cfg));
    InWindowEndingIsTheSet(t.proc.restartTimes, t.now, Window(cfg));
  }

  /**
   * A process under a restart policy is said never to fail the container. It
   * can, in some run, exactly when `on_no_restart` is to fail it and some exit
   * code but 0 is declared beyond restarting.
   */
  lemma PolicyFailsTheContainerIff(cfg: Config)
    requires cfg.restartPolicy.Some?
    ensures CanFail(cfg)
      <==> exists run: seq<St>, acts: seq<Action> :: IsRun(cfg, run, acts) && run[|run| - 1].containerFailed
  {
    if CanFail(cfg) {
      var c :| c in cfg.noRestartExitCodes && c != 0;
      OneBadExit(cfg, c);
    }
    forall run: seq<St>, acts: seq<Action> | !CanFail(cfg) && IsRun(cfg, run, acts)
      ensures !run[|run| - 1].containerFailed
    {
      PolicyKeepsContainer(cfg, run, acts, |run| - 1);
    }
  }

  lemma OneBadExit(cfg: Config, c: int)
    requires cfg.onNoRestart == FailOnNoRestart && c in cfg.noRestartExitCodes && c != 0
    ensures exists run: seq<St>, acts: seq<Action> :: IsRun(cfg, run, acts) && run[|run| - 1].containerFailed
  {
    var s := PastTheFlag(cfg, Some(c));
    var t := Acted(cfg, s, 0);
    assert Willing(cfg, t) == {};
    GoesTo(cfg, 1, Fresh(cfg), s, Act(0), t);
    var run: seq<St>, acts: seq<Action> :| Leads(cfg, 1, Fresh(cfg), run, acts, t);
    assert IsRun(cfg, run, acts);
  }

  // ------------------------------------------------------- once shutdown has begun

  /** Handlers past their spawn's look at the shutdown flag, and not yet forked. */
  ghost function Late(s: St): set<nat> {
    set id | id in s.handlers && s.handlers[id].Spawning? && s.handlers[id].phase != Asked
  }

  /** The same of starts. */
  ghost function LateStarts(s: St): set<nat> {
    set id | id in s.starts && s.starts[id] != Asked
  }

  /** How many exits were followed by a respawn. */
  function Respawned(done: seq<Done>): nat {
    if done == [] then 0 else Respawned(done[..|done| - 1]) + if done[|done| - 1].forked then 1 else 0
  }

  /** No new ones are late, and each that forks was. */
  ghost predicate OnlyTheLate(s: St, t: St) {
    && t.shuttingDown && Late(t) <= Late(s) && LateStarts(t) <= LateStarts(s)
    && Respawned(t.done) + |Late(t)| <= Respawned(s.done) + |Late(s)|
    && t.forks + |Late(t)| + |LateStarts(t)| <= s.forks + |Late(s)| + |LateStarts(s)|
  }

  lemma DoneForked(s: St, t: St)
    requires |t.done| == |s.done| + 1 && t.done[..|s.done|] == s.done
    ensures Respawned(t.done) == Respawned(s.done) + if t.done[|s.done|].forked then 1 else 0
  {
  }

  lemma FinishLate(s: St, id: nat, t: St)
    requires s.shuttingDown && t.shuttingDown && id in s.handlers && t.handlers == s.handlers - {id}
    requires t.starts == s.starts
    requires |t.done| == |s.done| + 1 && t.done[..|s.done|] == s.done
    requires t.forks == s.forks + if t.done[|s.done|].forked then 1 else 0
    requires t.done[|s.done|].forked ==> id in Late(s)
    ensures OnlyTheLate(s, t)
  {
    DoneForked(s, t);
    assert Late(t) == Late(s) - {id} && LateStarts(t) == LateStarts(s);
  }

  lemma LateOn(s: St, t: St)
    requires s.shuttingDown && t.shuttingDown && t.done == s.done && t.starts == s.starts && t.forks == s.forks
    requires Late(t) <= Late(s)
    ensures OnlyTheLate(s, t)
  {
    SubsetSize(Late(t), Late(s));
    assert LateStarts(t) == LateStarts(s);
  }

  lemma LateStartsOn(s: St, id: nat, t: St)
    requires s.shuttingDown && t.shuttingDown && t.done == s.done && t.handlers == s.handlers
    requires t.starts.Keys <= s.starts.Keys + {id}
    requires forall i :: i in t.starts && i != id ==> i in s.starts && t.starts[i] == s.starts[i]
    requires id in LateStarts(t) ==> id in LateStarts(s)
    requires t.forks == s.forks || (t.forks == s.forks + 1 && id in LateStarts(s) && id !in LateStarts(t))
    ensures OnlyTheLate(s, t)
  {
    assert Late(t) == Late(s);
    if t.forks == s.forks {
      SubsetSize(LateStarts(t), LateStarts(s));
    } else {
      SubsetSize(LateStarts(t), LateStarts(s) - {id});
    }
  }

  lemma {:induction false} LateSpawn(cfg: Config, s: St, id: nat, a: Action, t: St)
    requires s.shuttingDown && Step(cfg, s, a, t)
    requires (a.GoesOn() || a.Act?) && a.id == id
    ensures OnlyTheLate(s, t)
  {
    if id in t.handlers { LateOn(s, t); } else { FinishLate(s, id, t); }
  }

  /**
   * Once shutdown has begun, only a handler or a start that was past its look
   * at the flag before can fork, and each once.
   */
  lemma {:induction false} OnlyTheLateFork(cfg: Config, run: seq<St>, acts: seq<Action>, i: nat, j: nat)
    requires Steps(cfg, run, acts) && i <= j < |run| && run[i].shuttingDown
    ensures OnlyTheLate(run[i], run[j])
  {
    if i < j {
      OnlyTheLateFork(cfg, run, acts, i, j - 1);
      var (s, a, t) := (run[j - 1], acts[j - 1], run[j]);
      assert Step(cfg, s, a, t);
      if a.GoesOn() || a.Act? {
        LateSpawn(cfg, s, a.id, a, t);
      } else if a.AskStart? || a.StartCheck? || a.StartRun? || a.StartFork? {
        LateStartsOn(s, a.id, t);
      } else {
        LateOn(s, t);
      }
    }
  }

  /** From `s` on, whatever may happen, `s` included. */
  ghost predicate GoesOnTo(cfg: Config, s: St, t: St) {
    exists run: seq<St>, acts: seq<Action> :: Steps(cfg, run, acts) && run[0] == s && run[|run| - 1] == t
  }

  lemma One(cfg: Config, s: St, a: Action, t: St)
    requires Step(cfg, s, a, t)
    ensures GoesOnTo(cfg, s, t)
  {
    assert Steps(cfg, [s, t], [a]) && [s, t][0] == s && [s, t][1] == t;
  }

  lemma Two(cfg: Config, s: St, a: Action, t: St, b: Action, u: St)
    requires Step(cfg, s, a, t) && Step(cfg, t, b, u)
    ensures GoesOnTo(cfg, s, u)
  {
    var (run, acts) := ([s, t, u], [a, b]);
    forall i | 0 <= i < 2 ensures Step(cfg, run[i], acts[i], run[i + 1]) {
      if i == 0 { assert Step(cfg, run[0], acts[0], run[1]); } else { assert Step(cfg, run[1], acts[1], run[2]); }
    }
    assert Steps(cfg, run, acts) && run[0] == s && run[|run| - 1] == u;
  }

  /** A late handler forks. */
  lemma LateForks(cfg: Config, s: St, id: nat, ok: bool) returns (t: St)
    requires id in Late(s)
    ensures GoesOnTo(cfg, s, t)
    ensures ok ==> Respawned(t.done) == Respawned(s.done) + 1
    ensures !ok ==>
      t.containerFailed == (s.containerFailed || (cfg.restartPolicy.None? && s.handlers[id].exit.code != Some(0)))
  {
    var u := s.(proc := s.proc.BeginRun(cfg), handlers := s.handlers[id := s.handlers[id].(phase := Begun)]);
    var from := if s.handlers[id].phase == Begun then s else u;
    t := if ok then
           Finish(from, from.(landing := from.landing + 1, forks := from.forks + 1), id,
                  Some(from.handlers[id].notedAt), true)
         else NotRespawned(cfg, from, id);
    assert Step(cfg, from, Fork(id, ok), t);
    if s.handlers[id].phase == Begun {
      One(cfg, s, Fork(id, ok), t);
    } else {
      Two(cfg, s, Run(id), u, Fork(id, ok), t);
    }
    DoneForked(s, t);
  }

  /** Shutdown having begun, an exit can still be followed by a respawn if and only if some handler is late. */
  lemma RespawnsAfterShutdownIff(cfg: Config, s: St)
    requires s.shuttingDown
    ensures (exists t :: GoesOnTo(cfg, s, t) && Respawned(t.done) > Respawned(s.done)) <==> Late(s) != {}
  {
    if Late(s) != {} {
      var id :| id in Late(s);
      var t := LateForks(cfg, s, id, true);
    }
    forall t | GoesOnTo(cfg, s, t) && Late(s) == {} ensures Respawned(t.done) <= Respawned(s.done) {
      var run: seq<St>, acts: seq<Action> :| Steps(cfg, run, acts) && run[0] == s && run[|run| - 1] == t;
      OnlyTheLateFork(cfg, run, acts, 0, |run| - 1);
    }
  }

  /** A handler past its own look at the flag whose verdict fails the container, or whose spawn still can. */
  ghost predicate Doomed(cfg: Config, h: Handler) {
    || (h.Judging? && var v := Judge(cfg, h.exit.code, h.exit.inWindow); v.Stay? && v.failsContainer)
    || (h.Spawning? && cfg.restartPolicy.None? && h.exit.code != Some(0))
  }

  ghost predicate NoneDoomed(cfg: Config, s: St) {
    s.shuttingDown && !s.containerFailed && forall id :: id in s.handlers ==> !Doomed(cfg, s.handlers[id])
  }

  lemma {:induction false} NoneFails(cfg: Config, run: seq<St>, acts: seq<Action>, i: nat)
    requires Steps(cfg, run, acts) && i < |run| && NoneDoomed(cfg, run[0])
    ensures NoneDoomed(cfg, run[i])
  {
    if i > 0 {
      NoneFails(cfg, run, acts, i - 1);
      NoneFailsStep(cfg, run[i - 1], acts[i - 1], run[i]);
    }
  }

  lemma NoneFailsStep(cfg: Config, s: St, a: Action, t: St)
    requires NoneDoomed(cfg, s) && Step(cfg, s, a, t)
    ensures NoneDoomed(cfg, t)
  {
  }

  lemma TheDoomedFails(cfg: Config, s: St, id: nat) returns (t: St)
    requires s.shuttingDown && id in s.handlers && Doomed(cfg, s.handlers[id])
    ensures GoesOnTo(cfg, s, t) && t.containerFailed
  {
    if s.handlers[id].Judging? {
      t := Acted(cfg, s, id);
      One(cfg, s, Act(id), t);
    } else if s.handlers[id].phase == Asked {
      t := NotRespawned(cfg, s, id);
      One(cfg, s, Check(id, false), t);
    } else {
      t := LateForks(cfg, s, id, false);
    }
  }

  /**
   * Shutdown having begun with the container sound, it can still be failed by
   * an exit if and only if some handler was past its look at the flag, and
   * what it decided fails the container, or it restarts a failed process: the
   * spawn finds the flag set and fails.
   */
  lemma FailsAfterShutdownIff(cfg: Config, s: St)
    requires s.shuttingDown && !s.containerFailed
    ensures (exists t :: GoesOnTo(cfg, s, t) && t.containerFailed)
      <==> exists id :: id in s.handlers && Doomed(cfg, s.handlers[id])
  {
    if id :| id in s.handlers && Doomed(cfg, s.handlers[id]) {
      var t := TheDoomedFails(cfg, s, id);
    } else {
      forall t | GoesOnTo(cfg, s, t) ensures !t.containerFailed {
        var run: seq<St>, acts: seq<Action> :| Steps(cfg, run, acts) && run[0] == s && run[|run| - 1] == t;
        NoneFails(cfg, run, acts, |run| - 1);
      }
    }
  }

  /** An exit past its look at the flag, before shutdown. */
  lemma PastTheFlag(cfg: Config, code: Option<int>) returns (s: St)
    ensures Reaches(cfg, 1, Fresh(cfg), s) && !s.shuttingDown && !s.containerFailed
    ensures s.handlers.Keys == {0} && s.handlers[0].Judging? && s.handlers[0].exit.code == code
    ensures s.handlers[0].exit.inWindow == 0
  {
    var c := Children(cfg, 1, 1);
    var s1 := Exited(cfg, c, 0, code);
    s := s1.(proc := if code == Some(0) then s1.proc else s1.proc.CountCrash(),
             handlers := map[0 := Judging(s1.handlers[0].exit)]);
    RangeSize(Willing(cfg, s1), 0, 1);
    RangeSize(Willing(cfg, s), 0, 1);
    GoesTo(cfg, 1, Fresh(cfg), c, Exit(0, code), s1);
    GoesTo(cfg, 1, Fresh(cfg), s1, CheckShutdown(0), s);
  }

  /** A restart noted, before shutdown. */
  lemma NotedOnce(cfg: Config, code: Option<int>) returns (s: St)
    requires RestartsSome(cfg, code)
    ensures Reaches(cfg, 1, Fresh(cfg), s) && !s.shuttingDown && !s.containerFailed
    ensures s.handlers.Keys == {0} && s.handlers[0].Cooling? && s.handlers[0].exit.code == code
  {
    var judging := PastTheFlag(cfg, code);
    s := Acted(cfg, judging, 0);
    assert Willing(cfg, s) == {};
    GoesTo(cfg, 1, Fresh(cfg), judging, Act(0), s);
  }

  /** A handler that has slept its wait and looked at the flag, before shutdown. */
  lemma Woken(cfg: Config, code: Option<int>) returns (s: St)
    requires RestartsSome(cfg, code)
    ensures Reaches(cfg, 1, Fresh(cfg), s) && Willing(cfg, s) == {} && !s.shuttingDown && !s.containerFailed
    ensures s.handlers.Keys == {0} && s.handlers[0].Spawning? && s.handlers[0].phase == Asked
    ensures s.handlers[0].exit.code == code
  {
    var noted := NotedOnce(cfg, code);
    s := Slept(cfg, noted);
  }

  lemma Slept(cfg: Config, s: St) returns (t: St)
    requires Reaches(cfg, 1, Fresh(cfg), s) && s.handlers.Keys == {0} && s.handlers[0].Cooling? && !s.shuttingDown
    requires !s.containerFailed
    ensures Reaches(cfg, 1, Fresh(cfg), t) && Willing(cfg, t) == {} && !t.shuttingDown && !t.containerFailed
    ensures t.handlers.Keys == {0} && t.handlers[0] == Spawning(s.handlers[0].exit, s.handlers[0].notedAt, Asked)
  {
    var ms := if s.handlers[0].due > s.now then s.handlers[0].due - s.now else 0;
    var u := s.(now := s.now + ms);
    t := u.(handlers := u.handlers[0 := Spawning(u.handlers[0].exit, u.handlers[0].notedAt, Asked)]);
    assert Willing(cfg, u) == {} && Willing(cfg, t) == {} && t.handlers.Keys == {0};
    GoesTo(cfg, 1, Fresh(cfg), s, Tick(ms), u);
    GoesTo(cfg, 1, Fresh(cfg), u, Wake(0), t);
  }

  /**
   * Both do come about: for every configuration and exit that is restarted,
   * from a fresh process there is a run to a state in which shutdown has just
   * begun and a handler will respawn; and, if the exit is a failure and no
   * restart policy is set, one in which the container will fail instead of
   * the process being left stopped.
   */
  lemma ShutdownMeetsARestart(cfg: Config, code: Option<int>) returns (late: St, doomed: St)
    requires RestartsSome(cfg, code)
    ensures Reaches(cfg, 1, Fresh(cfg), late) && late.shuttingDown && Late(late) != {}
    ensures Reaches(cfg, 1, Fresh(cfg), doomed) && doomed.shuttingDown && !doomed.containerFailed && Late(doomed) == {}
    ensures cfg.restartPolicy.None? && code != Some(0)
      ==> exists id :: id in doomed.handlers && Doomed(cfg, doomed.handlers[id])
  {
    var s := Woken(cfg, code);
    doomed := s.(shuttingDown := true);
    GoesQuietly(cfg, 1, Fresh(cfg), s, BeginShutdown, doomed);
    assert 0 in doomed.handlers;
    var u := s.(handlers := s.handlers[0 := s.handlers[0].(phase := Cleared)]);
    GoesQuietly(cfg, 1, Fresh(cfg), s, Check(0, false), u);
    late := u.(shuttingDown := true);
    GoesQuietly(cfg, 1, Fresh(cfg), u, BeginShutdown, late);
    assert 0 in Late(late);
  }

  // ------------------------------------------------ as shutdown finds the process

  /** Spawns past their look at the flag, their child not marked Running yet. */
  ghost function UnderWay(s: St): nat { |Late(s)| + |LateStarts(s)| + s.landing }

  ghost function LifeOf(s: St): Life { Life(s.proc.state, UnderWay(s)) }

  lemma LateOneLess(s: St, t: St, id: nat)
    requires t.handlers == s.handlers - {id} && t.starts == s.starts
    ensures Late(t) == Late(s) - {id} && LateStarts(t) == LateStarts(s)
  {
  }

  lemma OneLess(a: set<nat>, x: nat)
    ensures |a - {x}| == |a| - if x in a then 1 else 0
  {
    if x !in a { assert a - {x} == a; }
  }

  lemma LateStays(s: St, t: St)
    requires t.starts == s.starts && Late(t) == Late(s)
    ensures |Late(t)| + |LateStarts(t)| == |Late(s)| + |LateStarts(s)|
  {
    assert LateStarts(t) == LateStarts(s);
  }

  lemma UnderWayAfter(s: St, id: nat, t: St)
    requires t.starts == s.starts && t.landing == s.landing
    requires Late(t) == Late(s) || Late(t) == Late(s) - {id}
    ensures UnderWay(t) <= UnderWay(s)
  {
    assert LateStarts(t) == LateStarts(s);
    OneLess(Late(s), id);
  }

  lemma ActIsLawful(cfg: Config, s: St, id: nat)
    requires id in s.handlers && s.handlers[id].Judging?
    ensures MayBecome(LifeOf(s), LifeOf(Acted(cfg, s, id)))
  {
    var t := Acted(cfg, s, id);
    JudgeIsTheTable(cfg, s.handlers[id].exit.code, s.handlers[id].exit.inWindow);
    assert Late(t) == Late(s);
    UnderWayAfter(s, id, t);
  }

  /** A handler's spawn is used up by its fork, or fails. */
  lemma GoingOnIsLawful(cfg: Config, s: St, id: nat, a: Action, t: St)
    requires s.shuttingDown && Step(cfg, s, a, t) && a.GoesOn() && a.id == id
    ensures MayBecome(LifeOf(s), LifeOf(t))
  {
    if a == Fork(id, true) {
      assert Late(t) == Late(s) - {id} && LateStarts(t) == LateStarts(s);
    } else {
      if id in t.handlers { assert Late(t) == Late(s); } else { LateOneLess(s, t, id); }
      UnderWayAfter(s, id, t);
    }
  }

  lemma StartsGoOn(cfg: Config, s: St, id: nat, a: Action, t: St)
    requires s.shuttingDown && Step(cfg, s, a, t) && (a.AskStart? || a.StartCheck? || a.StartRun? || a.StartFork?)
    requires a.id == id
    ensures LateStarts(t) == if a.StartFork? then LateStarts(s) - {id} else LateStarts(s)
    ensures t.handlers == s.handlers && (a.StartFork? ==> id in LateStarts(s))
  {
  }

  lemma StartsAreLawful(cfg: Config, s: St, id: nat, a: Action, t: St)
    requires s.shuttingDown && Step(cfg, s, a, t) && (a.AskStart? || a.StartCheck? || a.StartRun? || a.StartFork?)
    requires a.id == id
    ensures MayBecome(LifeOf(s), LifeOf(t))
  {
    StartsGoOn(cfg, s, id, a, t);
    assert Late(t) == Late(s);
    OneLess(LateStarts(s), id);
  }

  /**
   * Once shutdown has begun, each step is lawful: the process becomes Running
   * only by using up a spawn that was past its look at the flag, and Stopping
   * only from Running.
   */
  lemma StepsAreLawful(cfg: Config, s: St, a: Action, t: St)
    requires s.shuttingDown && Step(cfg, s, a, t)
    ensures t.shuttingDown && MayBecome(LifeOf(s), LifeOf(t))
  {
    if a.Act? {
      ActIsLawful(cfg, s, a.id);
    } else if a.GoesOn() {
      GoingOnIsLawful(cfg, s, a.id, a, t);
    } else if a.AskStart? || a.StartCheck? || a.StartRun? || a.StartFork? {
      StartsAreLawful(cfg, s, a.id, a, t);
    } else {
      assert Late(t) == Late(s);
      LateStays(s, t);
    }
  }

  lemma Onward(cfg: Config, s: St, t: St, a: Action, u: St)
    requires GoesOnTo(cfg, s, t) && Step(cfg, t, a, u)
    ensures GoesOnTo(cfg, s, u)
  {
    var run: seq<St>, acts: seq<Action> :| Steps(cfg, run, acts) && run[0] == s && run[|run| - 1] == t;
    var (run', acts') := (run + [u], acts + [a]);
    forall i | 0 <= i < |acts'| ensures Step(cfg, run'[i], acts'[i], run'[i + 1]) {
      if i < |acts| { assert Step(cfg, run[i], acts[i], run[i + 1]); }
    }
    assert Steps(cfg, run', acts') && run'[0] == s && run'[|run'| - 1] == u;
  }

  lemma StaysPut(cfg: Config, s: St)
    ensures GoesOnTo(cfg, s, s)
  {
    assert Steps(cfg, [s], []) && [s][0] == s && [s][|[s]| - 1] == s;
  }

  /** A start under way forks. */
  lemma LateStartForks(cfg: Config, s: St, id: nat) returns (t: St)
    requires id in LateStarts(s)
    ensures GoesOnTo(cfg, s, t) && t.landing == s.landing + 1 && UnderWay(t) == UnderWay(s)
  {
    var u := s.(proc := s.proc.BeginRun(cfg), starts := s.starts[id := Begun]);
    var from := if s.starts[id] == Begun then s else u;
    StaysPut(cfg, s);
    if s.starts[id] != Begun { Onward(cfg, s, s, StartRun(id), u); }
    t := from.(starts := from.starts - {id}, landing := from.landing + 1, forks := from.forks + 1);
    Onward(cfg, s, from, StartFork(id, true), t);
    assert LateStarts(t) == LateStarts(s) - {id} && Late(t) == Late(s);
  }

  /** A handler under way forks. */
  lemma LateHandlerForks(cfg: Config, s: St, id: nat) returns (t: St)
    requires id in Late(s)
    ensures GoesOnTo(cfg, s, t) && t.landing == s.landing + 1 && UnderWay(t) == UnderWay(s)
  {
    var u := s.(proc := s.proc.BeginRun(cfg), handlers := s.handlers[id := s.handlers[id].(phase := Begun)]);
    var from := if s.handlers[id].phase == Begun then s else u;
    StaysPut(cfg, s);
    if s.handlers[id].phase != Begun { Onward(cfg, s, s, Run(id), u); }
    t := Finish(from, from.(landing := from.landing + 1, forks := from.forks + 1), id,
                Some(from.handlers[id].notedAt), true);
    Onward(cfg, s, from, Fork(id, true), t);
    assert Late(t) == Late(s) - {id} && LateStarts(t) == LateStarts(s);
  }

  /** And a spawn under way can always land, whatever the process is by then. */
  lemma WhatIsUnderWayLands(cfg: Config, s: St) returns (t: St)
    requires UnderWay(s) > 0
    ensures GoesOnTo(cfg, s, t) && LifeOf(t) == Life(Running, UnderWay(s) - 1)
  {
    var from := s;
    StaysPut(cfg, s);
    if s.landing == 0 {
      if Late(s) != {} {
        var id :| id in Late(s);
        from := LateHandlerForks(cfg, s, id);
      } else {
        var id :| id in LateStarts(s);
        from := LateStartForks(cfg, s, id);
      }
    }
    t := from.(proc := from.proc.MarkRunning(None, from.now), landing := from.landing - 1, live := from.live + 1);
    Onward(cfg, s, from, Land(None), t);
    assert Late(t) == Late(from) && LateStarts(t) == LateStarts(from);
  }

  /** Two starts that met: shutdown begins when the process runs and a spawn of it is under way. */
  lemma ARunningProcessHasASpawnUnderWay(cfg: Config) returns (s: St)
    ensures Reaches(cfg, 0, Fresh(cfg), s) && s.shuttingDown && LifeOf(s) == Life(Running, 1)
  {
    var f := Fresh(cfg);
    assert Willing(cfg, f) == {};
    Stays(cfg, 0, f);
    var u := StartMany(cfg, 0, f, f, 2);
    assert Willing(cfg, u) == {};
    var v := LandMany(cfg, 0, f, u, 1);
    assert Willing(cfg, v) == {};
    s := v.(shuttingDown := true);
    GoesQuietly(cfg, 0, f, v, BeginShutdown, s);
    assert Late(s) == {} && LateStarts(s) == {};
  }

  /** A restart that waits can come to its end: unless shutdown begins, the wait over, a child is forked and runs. */
  lemma AWaitingRestartCanRun(cfg: Config, s: St, id: nat) returns (t: St)
    requires id in s.handlers && s.handlers[id].Cooling? && !s.shuttingDown
    ensures GoesOnTo(cfg, s, t) && t.proc.state == Running && t.proc.run == s.proc.run + 1
    ensures t.forks == s.forks + 1 && t.live == s.live + 1 && t.handlers == s.handlers - {id}
    ensures |t.done| == |s.done| + 1 && t.done[|s.done|].forked && t.done[|s.done|].exit == s.handlers[id].exit
  {
    var h := s.handlers[id];
    var wait: nat := if h.due > s.now then h.due - s.now else 0;
    var a := s.(now := s.now + wait);
    StaysPut(cfg, s);
    Onward(cfg, s, s, Tick(wait), a);
    var b := a.(handlers := a.handlers[id := Spawning(h.exit, h.notedAt, Asked)]);
    Onward(cfg, s, a, Wake(id), b);
    var c := b.(handlers := b.handlers[id := Spawning(h.exit, h.notedAt, Cleared)]);
    Onward(cfg, s, b, Check(id, false), c);
    t := AClearedSpawnRuns(cfg, s, c, id);
    assert c.handlers - {id} == s.handlers - {id};
  }

  lemma AClearedSpawnRuns(cfg: Config, r: St, s: St, id: nat) returns (t: St)
    requires GoesOnTo(cfg, r, s) && id in s.handlers && s.handlers[id].Spawning? && s.handlers[id].phase == Cleared
    ensures GoesOnTo(cfg, r, t) && t.proc.state == Running && t.proc.run == s.proc.run + 1
    ensures t.forks == s.forks + 1 && t.live == s.live + 1 && t.handlers == s.handlers - {id}
    ensures |t.done| == |s.done| + 1 && t.done[|s.done|].forked && t.done[|s.done|].exit == s.handlers[id].exit
  {
    var h := s.handlers[id];
    var d := s.(proc := s.proc.BeginRun(cfg), handlers := s.handlers[id := h.(phase := Begun)]);
    Onward(cfg, r, s, Run(id), d);
    var e := Finish(d, d.(landing := d.landing + 1, forks := d.forks + 1), id, Some(h.notedAt), true);
    assert d.handlers - {id} == s.handlers - {id};
    Onward(cfg, r, d, Fork(id, true), e);
    t := e.(proc := e.proc.MarkRunning(None, e.now), landing := e.landing - 1, live := e.live + 1);
    Onward(cfg, r, e, Land(None), t);
  }
}
