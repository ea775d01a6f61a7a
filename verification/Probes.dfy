/**
 * Probes and runs: a probe task is of one run of its process, and
 * the tasks of ended runs may still be about, between any two of their steps,
 * while later runs are spawned, probed and ended.
 */
module Probes {
  import opened Process

  // ------------------------------------------------------------- counters

  /** A probe's results of one kind in a row. */
  datatype Tally = Tally(successes: nat, failures: nat) {
    function Record(ok: bool): Tally {
      if ok then Tally(successes + 1, 0) else Tally(0, failures + 1)
    }
  }

  /** Whether the row just lengthened is long enough to say something, and what. */
  function Verdict(t: Tally, ok: bool, p: Probe): Option<bool> {
    if ok then if t.successes >= p.successThreshold then Some(true) else None
    else if t.failures >= p.failureThreshold then Some(false) else None
  }

  class Counter {
    var successes: nat
    var failures: nat
    /** Every result recorded. */
    ghost var results: seq<bool>

    ghost predicate Valid() reads this { Tally(successes, failures) == Tallied(results) }

    constructor ()
      ensures Valid() && results == []
    {
      successes, failures, results := 0, 0, [];
    }

    /** A threshold is reported when the last results, as many as it says, are all of this kind. */
    method Record(ok: bool, p: Probe) returns (v: Option<bool>)
      requires Valid()
      modifies this
      ensures Valid() && results == old(results) + [ok]
      ensures v == Some(true) <==> ok && Ended(results, true, p.successThreshold)
      ensures v == Some(false) <==> !ok && Ended(results, false, p.failureThreshold)
    {
      if ok {
        failures := 0;
        successes := successes + 1;
        v := if successes >= p.successThreshold then Some(true) else None;
      } else {
        successes := 0;
        failures := failures + 1;
        v := if failures >= p.failureThreshold then Some(false) else None;
      }
      results := results + [ok];
      assert results[..|results| - 1] == old(results);
      TallyCountsUnbroken(results, p.successThreshold);
      TallyCountsUnbroken(results, p.failureThreshold);
    }
  }

  function Tallied(results: seq<bool>): Tally {
    if results == [] then Tally(0, 0) else Tallied(results[..|results| - 1]).Record(results[|results| - 1])
  }

  /** The last `n` results are all `b`. */
  predicate Ended(results: seq<bool>, b: bool, n: nat) {
    n <= |results| && forall i :: |results| - n <= i < |results| ==> results[i] == b
  }

  /** A counter counts unbroken results: at least `n` exactly if the last `n` were such. */
  lemma {:induction false} TallyCountsUnbroken(results: seq<bool>, n: nat)
    ensures Tallied(results).failures >= n <==> Ended(results, false, n)
    ensures Tallied(results).successes >= n <==> Ended(results, true, n)
  {
    if results != [] && n > 0 {
      var init := results[..|results| - 1];
      TallyCountsUnbroken(init, n - 1);
      forall b | Ended(results, b, n) ensures Ended(init, b, n - 1) {
        assert forall i :: |init| - (n - 1) <= i < |init| ==> init[i] == results[i];
      }
      forall b | Ended(init, b, n - 1) && results[|init|] == b ensures Ended(results, b, n) {}
    }
  }

  // ----------------------------------------------------------------- tasks

  datatype Role = Startup | Liveness | Readiness | ReadyProbe | Api(index: nat)
  datatype TaskId = TaskId(run: nat, role: Role)

  /** Where a task is: at its loop's top, probing, holding a result, about to SIGTERM, waiting to SIGKILL. */
  datatype Pc = Top | Probing | Holding(result: bool) | Killing | Grace

  datatype Task = Task(pid: Option<nat>, pc: Pc, results: seq<bool>)

  /** A signal sent: by which task, to which pid, and which run was current. */
  datatype Sent = Sent(task: TaskId, pid: nat, current: nat, results: seq<bool>)

  datatype St = St(
    proc: Proc,
    spawning: set<nat>,          // runs begun whose child is not recorded yet
    tasks: map<TaskId, Task>,
    owner: map<nat, nat>,        // which run each pid was forked for
    passed: set<TaskId>,         // tasks whose probe has come to a pass
    sent: seq<Sent>)

  datatype Action =
    | BeginSpawn
    | Land(run: nat, pid: Option<nat>, now: int)
    | FailSpawn(run: nat)
    | RecordExit
    | SetState(state: State)           // handlers, monitors and API calls
    | Abort(id: TaskId)
    | Check(id: TaskId)
    | Result(id: TaskId, ok: bool)
    | Mark(id: TaskId)
    | Term(id: TaskId)
    | Kill(id: TaskId)

  function ProbeOf(cfg: Config, role: Role): Option<Probe> {
    match role
    case Startup => cfg.startupProbe
    case Liveness => cfg.livenessProbe
    case Readiness => cfg.readinessProbe
    case _ => None
  }

  /** The tasks that follow a passed startup probe, or start at once without one. */
  function FollowUps(cfg: Config): set<Role> {
    (if cfg.livenessProbe.Some? then {Liveness} else {}) + (if cfg.readinessProbe.Some? then {Readiness} else {})
  }

  function FirstRoles(cfg: Config): set<Role> {
    (if cfg.startupProbe.Some? then {Startup} else FollowUps(cfg))
    + (if cfg.readyProbe && cfg.readinessProbe.None? then {ReadyProbe} else {})
    + (set i | 0 <= i < cfg.apis :: Api(i))
  }

  function Fresh(pid: Option<nat>): Task { Task(pid, Top, []) }

  function NewTasks(run: nat, roles: set<Role>, pid: Option<nat>): (m: map<TaskId, Task>)
    ensures forall id :: id in m <==> id.run == run && id.role in roles
    ensures forall id :: id in m ==> m[id] == Fresh(pid)
  {
    map role | role in roles :: TaskId(run, role) := Fresh(pid)
  }

  /** Whether a task goes on at its loop's top. */
  predicate GoesOn(p: Proc, id: TaskId) {
    if id.role == ReadyProbe then p.run == id.run && p.state != Stopped && p.state != Failed
    else p.run == id.run && p.state == Running
  }

  function Drop(s: St, id: TaskId): St { s.(tasks := s.tasks - {id}) }

  function At(s: St, id: TaskId, pc: Pc): St
    requires id in s.tasks
  {
    s.(tasks := s.tasks[id := s.tasks[id].(pc := pc)])
  }

  /** A probe has answered. Liveness takes the lock before it counts; the others count first. */
  function AfterResult(cfg: Config, s: St, id: TaskId, ok: bool): St
    requires id in s.tasks
  {
    var task := s.tasks[id];
    match id.role
    case Liveness =>
      At(s, id, Holding(ok)).(passed := if ok then s.passed + {id} else s.passed)
    case ReadyProbe =>
      if ok then At(s, id, Holding(true)).(passed := s.passed + {id}) else At(s, id, Top)
    case Api(_) =>
      At(s, id, if ok then Top else Killing)   // not ok: stalled past its limit
    case _ =>
      if ProbeOf(cfg, id.role).None? then s else
      var counted := s.(tasks := s.tasks[id := task.(results := task.results + [ok])]);
      match Verdict(Tallied(task.results + [ok]), ok, ProbeOf(cfg, id.role).value)
      case None => At(counted, id, Top)
      case Some(true) => At(counted, id, Holding(true)).(passed := s.passed + {id})
      case Some(false) => At(counted, id, if id.role == Startup then Killing else Holding(false))
  }

  /** A task holding a result takes the process's lock and marks it, if it is still its run's. */
  function AfterMark(cfg: Config, s: St, id: TaskId, ok: bool): St
    requires id in s.tasks
  {
    var task := s.tasks[id];
    match id.role
    case Startup =>
      var t := Drop(s, id).(proc := s.proc.StartupPassed(id.run, cfg));
      if s.proc.run != id.run then t else t.(tasks := t.tasks + NewTasks(id.run, FollowUps(cfg), task.pid))
    case Liveness =>
      if s.proc.run != id.run || cfg.livenessProbe.None? then Drop(s, id) else
      var results := task.results + [ok];
      var v := Verdict(Tallied(results), ok, cfg.livenessProbe.value);
      s.(proc := s.proc.LivenessResult(id.run, ok),
         tasks := s.tasks[id := Task(task.pid, if v == Some(false) then Killing else Top, results)])
    case Readiness =>
      if s.proc.run != id.run then Drop(s, id)
      else At(s, id, Top).(proc := s.proc.Readiness(id.run, ok))
    case _ =>
      Drop(s, id).(proc := s.proc.Readiness(id.run, true))
  }

  function Signal(s: St, id: TaskId): St
    requires id in s.tasks && s.tasks[id].pid.Some?
  {
    s.(sent := s.sent + [Sent(id, s.tasks[id].pid.value, s.proc.run, s.tasks[id].results)])
  }

  ghost predicate Step(cfg: Config, s: St, a: Action, t: St) {
    match a
    case BeginSpawn => t == s.(proc := s.proc.BeginRun(cfg), spawning := s.spawning + {s.proc.run + 1})
    case Land(run, pid, now) =>
      && run in s.spawning && (pid.Some? ==> pid.value !in s.owner)
      && t == s.(proc := s.proc.MarkRunning(pid, now), spawning := s.spawning - {run},
                 owner := if pid.Some? then s.owner[pid.value := run] else s.owner,
                 tasks := s.tasks + NewTasks(run, FirstRoles(cfg), pid))
    case FailSpawn(run) => t == s.(spawning := s.spawning - {run})
    case RecordExit => t == s.(proc := s.proc.RecordExit())
    case SetState(state) => t == s.(proc := s.proc.(state := state))
    case Abort(id) => t == Drop(s, id)
    case Check(id) =>
      id in s.tasks && s.tasks[id].pc.Top? && t == if GoesOn(s.proc, id) then At(s, id, Probing) else Drop(s, id)
    case Result(id, ok) => id in s.tasks && s.tasks[id].pc.Probing? && t == AfterResult(cfg, s, id, ok)
    case Mark(id) =>
      id in s.tasks && s.tasks[id].pc.Holding? && t == AfterMark(cfg, s, id, s.tasks[id].pc.result)
    case Term(id) =>
      && id in s.tasks && s.tasks[id].pc.Killing?
      && t == if s.proc.MaySignal(id.run, s.tasks[id].pid) then At(Signal(s, id), id, Grace) else Drop(s, id)
    case Kill(id) =>
      && id in s.tasks && s.tasks[id].pc.Grace?
      && t == Drop(if s.proc.run == id.run && s.proc.state == Running && s.proc.MaySignal(id.run, s.tasks[id].pid)
                   then Signal(s, id) else s, id)
  }

  ghost predicate Init(cfg: Config, s: St) {
    s == St(NewProc(cfg), {}, map[], map[], {}, [])
  }

  ghost predicate IsRun(cfg: Config, run: seq<St>, acts: seq<Action>) {
    && |run| == |acts| + 1 && Init(cfg, run[0])
    && forall i :: 0 <= i < |acts| ==> Step(cfg, run[i], acts[i], run[i + 1])
  }

  // ------------------------------------------------------------ invariants

  /** The task whose pass makes a run ready, when a run starts unready. */
  function ReadyRole(cfg: Config): Role {
    if cfg.readinessProbe.Some? then Readiness else if cfg.readyProbe then ReadyProbe else Startup
  }

  /** Enough failures in a row to kill for. */
  ghost predicate FailedEnough(cfg: Config, role: Role, results: seq<bool>) {
    ProbeOf(cfg, role).Some? && role != Readiness ==> Ended(results, false, ProbeOf(cfg, role).value.failureThreshold)
  }

  /** Startup has passed for `run`, if there is a startup probe. */
  ghost predicate Gated(cfg: Config, s: St, run: nat) {
    cfg.startupProbe.Some? ==>
      TaskId(run, Startup) in s.passed && (s.proc.run == run ==> s.proc.startupPassedRun == Some(run))
  }

  ghost predicate TaskKept(cfg: Config, s: St, id: TaskId, task: Task) {
    && id.run <= s.proc.run
    && (task.pid.Some? ==> task.pid.value in s.owner && s.owner[task.pid.value] == id.run)
    && (id.role == Liveness || id.role == Readiness ==> Gated(cfg, s, id.run) && ProbeOf(cfg, id.role).Some?)
    && (id.role == Startup ==> cfg.startupProbe.Some?)
    && (id.role == ReadyProbe ==> cfg.readyProbe && cfg.readinessProbe.None?)
    && (task.pc == Holding(true) ==> id in s.passed)
    && (task.pc.Holding? ==> !id.role.Api?)
    && (task.pc.Holding? && (id.role == Startup || id.role == ReadyProbe) ==> task.pc.result)
    && (task.pc.Killing? || task.pc.Grace? ==> FailedEnough(cfg, id.role, task.results))
  }

  ghost predicate SentKept(cfg: Config, s: St, m: Sent) {
    && m.current == m.task.run                                        // its run was the current one
    && m.pid in s.owner && s.owner[m.pid] == m.task.run               // and the pid that run's own
    && FailedEnough(cfg, m.task.role, m.results)                      // after enough failures in a row
    && (m.task.role == Liveness && cfg.startupProbe.Some? ==> TaskId(m.task.run, Startup) in s.passed)
  }

  ghost predicate ProcKept(cfg: Config, s: St) {
    var p := s.proc;
    && (forall r :: r in s.spawning ==> r <= p.run)
    && (cfg.StartsUnready() && p.ready ==> TaskId(p.run, ReadyRole(cfg)) in s.passed)
    && (p.startupPassedRun.Some? ==> TaskId(p.startupPassedRun.value, Startup) in s.passed)
    && (p.livenessPassedRun.Some? ==>
          && p.livenessPassedRun.value <= p.run && TaskId(p.livenessPassedRun.value, Liveness) in s.passed
          && (p.livenessPassedRun.value == p.run ==> Gated(cfg, s, p.run)))
  }

  ghost predicate Kept(cfg: Config, s: St) {
    && ProcKept(cfg, s)
    && (forall id :: id in s.tasks ==> TaskKept(cfg, s, id, s.tasks[id]))
    && (forall i :: 0 <= i < |s.sent| ==> SentKept(cfg, s, s.sent[i]))
  }

  /** What later states keep of earlier ones. */
  ghost predicate Grows(s: St, t: St) {
    && s.proc.run <= t.proc.run && s.passed <= t.passed
    && (forall q :: q in s.owner ==> q in t.owner && t.owner[q] == s.owner[q])
    && (t.proc.run == s.proc.run && s.proc.startupPassedRun == Some(s.proc.run) ==>
          t.proc.startupPassedRun == Some(t.proc.run))
  }

  lemma TaskStays(cfg: Config, s: St, t: St, id: TaskId, task: Task)
    requires Grows(s, t) && TaskKept(cfg, s, id, task)
    ensures TaskKept(cfg, t, id, task)
  {
  }

  /** The tasks of `t` other than `id` are those of `s`, and so are its signals. */
  lemma OthersStay(cfg: Config, s: St, t: St, id: TaskId)
    requires Kept(cfg, s) && Grows(s, t)
    requires forall x :: x in t.tasks && x != id ==> x in s.tasks && t.tasks[x] == s.tasks[x]
    requires t.sent == s.sent
    ensures forall x :: x in t.tasks && x != id ==> TaskKept(cfg, t, x, t.tasks[x])
    ensures forall i :: 0 <= i < |t.sent| ==> SentKept(cfg, t, t.sent[i])
  {
    forall x | x in t.tasks && x != id ensures TaskKept(cfg, t, x, t.tasks[x]) {
      TaskStays(cfg, s, t, x, s.tasks[x]);
    }
  }

  lemma KeptBySpawns(cfg: Config, s: St, a: Action, t: St)
    requires Kept(cfg, s) && Step(cfg, s, a, t)
    requires a.BeginSpawn? || a.FailSpawn? || a.RecordExit? || a.SetState? || a.Abort?
    ensures Kept(cfg, t)
  {
    forall x | x in t.tasks ensures TaskKept(cfg, t, x, t.tasks[x]) {
      TaskStays(cfg, s, t, x, s.tasks[x]);
    }
  }

  lemma KeptByLanding(cfg: Config, s: St, run: nat, pid: Option<nat>, now: int, t: St)
    requires Kept(cfg, s) && Step(cfg, s, Land(run, pid, now), t)
    ensures Kept(cfg, t)
  {
    var new_ := NewTasks(run, FirstRoles(cfg), pid);
    forall x | x in t.tasks ensures TaskKept(cfg, t, x, t.tasks[x]) {
      if x in new_ {
        assert t.tasks[x] == Fresh(pid);
      } else {
        TaskStays(cfg, s, t, x, s.tasks[x]);
      }
    }
  }

  lemma KeptByCheck(cfg: Config, s: St, id: TaskId, t: St)
    requires Kept(cfg, s) && Step(cfg, s, Check(id), t)
    ensures Kept(cfg, t)
  {
    OthersStay(cfg, s, t, id);
  }

  /** What a probe's answer does to its own task. */
  lemma ResultKeepsTask(cfg: Config, s: St, id: TaskId, ok: bool)
    requires id in s.tasks && TaskKept(cfg, s, id, s.tasks[id]) && s.tasks[id].pc.Probing?
    ensures var t := AfterResult(cfg, s, id, ok);
      id in t.tasks && TaskKept(cfg, t, id, t.tasks[id])
  {
    if ProbeOf(cfg, id.role).Some? {
      TallyCountsUnbroken(s.tasks[id].results + [ok], ProbeOf(cfg, id.role).value.failureThreshold);
    }
  }

  lemma ResultTouchesOnlyItsTask(cfg: Config, s: St, id: TaskId, ok: bool)
    requires id in s.tasks
    ensures var t := AfterResult(cfg, s, id, ok);
      && t == s.(tasks := t.tasks, passed := t.passed) && s.passed <= t.passed
      && forall x :: x in t.tasks && x != id ==> x in s.tasks && t.tasks[x] == s.tasks[x]
  {
  }

  lemma KeptByResult(cfg: Config, s: St, id: TaskId, ok: bool, t: St)
    requires Kept(cfg, s) && Step(cfg, s, Result(id, ok), t)
    ensures Kept(cfg, t)
  {
    ResultKeepsTask(cfg, s, id, ok);
    ResultTouchesOnlyItsTask(cfg, s, id, ok);
    KeptWithOne(cfg, s, t, id);
  }

  /** A step that changes one task, and the process in ways `ProcKept` allows, keeps everything. */
  lemma KeptWithOne(cfg: Config, s: St, t: St, id: TaskId)
    requires Kept(cfg, s) && Grows(s, t) && ProcKept(cfg, t) && t.sent == s.sent
    requires id in t.tasks ==> TaskKept(cfg, t, id, t.tasks[id])
    requires forall x :: x in t.tasks && x != id ==> x in s.tasks && t.tasks[x] == s.tasks[x]
    ensures Kept(cfg, t)
  {
    OthersStay(cfg, s, t, id);
  }

  lemma KeptByStartupMark(cfg: Config, s: St, id: TaskId, t: St)
    requires Kept(cfg, s) && id in s.tasks && s.tasks[id].pc.Holding? && id.role == Startup
    requires t == AfterMark(cfg, s, id, s.tasks[id].pc.result)
    ensures Kept(cfg, t)
  {
    var task := s.tasks[id];
    assert TaskKept(cfg, s, id, task);
    assert Grows(s, t);
    var followers := NewTasks(id.run, FollowUps(cfg), task.pid);
    forall x | x in t.tasks ensures TaskKept(cfg, t, x, t.tasks[x]) {
      if s.proc.run == id.run && x in followers {
        assert t.tasks[x] == Fresh(task.pid);
      } else {
        TaskStays(cfg, s, t, x, s.tasks[x]);
      }
    }
  }

  lemma LivenessMark(cfg: Config, s: St, id: TaskId, t: St)
    requires ProcKept(cfg, s) && id in s.tasks && TaskKept(cfg, s, id, s.tasks[id])
    requires s.tasks[id].pc.Holding? && id.role == Liveness && s.proc.run == id.run
    requires t == AfterMark(cfg, s, id, s.tasks[id].pc.result)
    ensures ProcKept(cfg, t) && Grows(s, t) && id in t.tasks && TaskKept(cfg, t, id, t.tasks[id])
  {
    var task := s.tasks[id];
    TallyCountsUnbroken(task.results + [task.pc.result], cfg.livenessProbe.value.failureThreshold);
  }

  lemma ReadinessMark(cfg: Config, s: St, id: TaskId, t: St)
    requires ProcKept(cfg, s) && id in s.tasks && TaskKept(cfg, s, id, s.tasks[id])
    requires s.tasks[id].pc.Holding? && (id.role == Readiness || id.role == ReadyProbe)
    requires t == AfterMark(cfg, s, id, s.tasks[id].pc.result)
    ensures ProcKept(cfg, t) && Grows(s, t) && (id in t.tasks ==> TaskKept(cfg, t, id, t.tasks[id]))
  {
  }

  lemma KeptByMark(cfg: Config, s: St, id: TaskId, t: St)
    requires Kept(cfg, s) && Step(cfg, s, Mark(id), t)
    ensures Kept(cfg, t)
  {
    assert TaskKept(cfg, s, id, s.tasks[id]);
    match id.role
    case Startup => KeptByStartupMark(cfg, s, id, t);
    case Liveness =>
      if s.proc.run == id.run { LivenessMark(cfg, s, id, t); }
      KeptWithOne(cfg, s, t, id);
    case _ =>
      ReadinessMark(cfg, s, id, t);
      KeptWithOne(cfg, s, t, id);
  }

  lemma KeptBySignals(cfg: Config, s: St, a: Action, t: St)
    requires Kept(cfg, s) && Step(cfg, s, a, t) && (a.Term? || a.Kill?)
    ensures Kept(cfg, t)
  {
    var task := s.tasks[a.id];
    assert TaskKept(cfg, s, a.id, task);
    forall x | x in t.tasks ensures TaskKept(cfg, t, x, t.tasks[x]) {
      TaskStays(cfg, s, t, x, s.tasks[x]);
    }
    forall i | 0 <= i < |t.sent| ensures SentKept(cfg, t, t.sent[i]) {
      if i < |s.sent| { assert SentKept(cfg, s, s.sent[i]); }
    }
  }

  lemma KeptByStep(cfg: Config, s: St, a: Action, t: St)
    requires Kept(cfg, s) && Step(cfg, s, a, t)
    ensures Kept(cfg, t)
  {
    match a
    case Land(run, pid, now) => KeptByLanding(cfg, s, run, pid, now, t);
    case Check(id) => KeptByCheck(cfg, s, id, t);
    case Result(id, ok) => KeptByResult(cfg, s, id, ok, t);
    case Mark(id) => KeptByMark(cfg, s, id, t);
    case Term(id) => KeptBySignals(cfg, s, a, t);
    case Kill(id) => KeptBySignals(cfg, s, a, t);
    case _ => KeptBySpawns(cfg, s, a, t);
  }

  /** Every state of every run, whatever the interleaving. */
  lemma {:induction false} RunsKeep(cfg: Config, run: seq<St>, acts: seq<Action>, i: nat)
    requires IsRun(cfg, run, acts) && i < |run|
    ensures Kept(cfg, run[i])
  {
    if i > 0 {
      RunsKeep(cfg, run, acts, i - 1);
      KeptByStep(cfg, run[i - 1], acts[i - 1], run[i]);
    }
  }

  // ---------------------------------------------------------- what it means

  /** A process that starts unready is ready only if the probe that says so passed for its current run. */
  lemma ReadyMeansThisRunPassed(cfg: Config, run: seq<St>, acts: seq<Action>, i: nat)
    requires IsRun(cfg, run, acts) && i < |run|
    requires cfg.StartsUnready() && run[i].proc.ready
    ensures TaskId(run[i].proc.run, ReadyRole(cfg)) in run[i].passed
  {
    RunsKeep(cfg, run, acts, i);
  }

  /** Liveness has passed for the current run only if startup has, when there is a startup probe. */
  lemma LivenessWaitsForStartup(cfg: Config, run: seq<St>, acts: seq<Action>, i: nat)
    requires IsRun(cfg, run, acts) && i < |run| && cfg.startupProbe.Some?
    requires run[i].proc.livenessPassedRun == Some(run[i].proc.run)
    ensures run[i].proc.startupPassedRun == Some(run[i].proc.run)
  {
    RunsKeep(cfg, run, acts, i);
  }

  /**
   * Every signal a probe task ever sent went to its own run's child, while
   * that run was the current one; a startup or liveness probe's came after
   * its failure threshold of failures in a row, and liveness's after startup
   * had passed for that run.
   */
  lemma SignalsHitTheirOwnRun(cfg: Config, run: seq<St>, acts: seq<Action>, i: nat, m: Sent)
    requires IsRun(cfg, run, acts) && i < |run| && m in run[i].sent
    ensures SentKept(cfg, run[i], m)
  {
    RunsKeep(cfg, run, acts, i);
  }

  /** A task of an ended run changes neither the process nor any other task, and signals nothing. */
  lemma EndedRunsTouchNothing(cfg: Config, s: St, a: Action, t: St)
    requires Step(cfg, s, a, t)
    requires a.Check? || a.Result? || a.Mark? || a.Term? || a.Kill?
    requires a.id.run != s.proc.run
    ensures t.proc == s.proc && t.sent == s.sent
    ensures forall id :: id in t.tasks && id != a.id ==> id in s.tasks && t.tasks[id] == s.tasks[id]
  {
    match a
    case Result(id, ok) => ResultTouchesOnlyItsTask(cfg, s, id, ok);
    case Mark(id) => StaleMark(cfg, s, id);
    case _ =>
  }

  lemma StaleMark(cfg: Config, s: St, id: TaskId)
    requires id in s.tasks && s.tasks[id].pc.Holding? && id.run != s.proc.run
    ensures AfterMark(cfg, s, id, s.tasks[id].pc.result) == Drop(s, id)
  {
  }

  /** What `health_of` asks of a process's probes. */
  predicate ProbesHealthy(cfg: Config, p: Proc) {
    && p.state == Running
    && (cfg.readyProbe ==> p.ready)
    && (cfg.startupProbe.Some? ==> p.startupPassedRun == Some(p.run))
    && (cfg.readinessProbe.Some? ==> p.ready)
    && (cfg.livenessProbe.Some? ==> p.livenessPassedRun == Some(p.run))
  }

  /** Healthy means every configured probe passed for this very run; the last run's passes do not count. */
  lemma HealthIsOfThisRun(cfg: Config, run: seq<St>, acts: seq<Action>, i: nat)
    requires IsRun(cfg, run, acts) && i < |run| && ProbesHealthy(cfg, run[i].proc)
    ensures var now := run[i].proc.run;
      && run[i].proc.state == Running
      && (cfg.startupProbe.Some? ==> TaskId(now, Startup) in run[i].passed)
      && (cfg.livenessProbe.Some? ==> TaskId(now, Liveness) in run[i].passed)
      && (cfg.readinessProbe.Some? ==> TaskId(now, Readiness) in run[i].passed)
      && (cfg.readyProbe && cfg.readinessProbe.None? ==> TaskId(now, ReadyProbe) in run[i].passed)
  {
    RunsKeep(cfg, run, acts, i);
  }

  // ------------------------------------------- what a task's answers come to

  /** The answers its probe has given a task. */
  function Answers(acts: seq<Action>, id: TaskId): seq<bool> {
    if acts == [] then []
    else
      var (init, a) := (Answers(acts[..|acts| - 1], id), acts[|acts| - 1]);
      if a.Result? && a.id == id then init + [a.ok] else init
  }

  /** It may still be begun: its run has not landed, or the startup probe of its run has not passed. */
  predicate MayCome(cfg: Config, s: St, id: TaskId) {
    || id.run > s.proc.run || id.run in s.spawning
    || ((id.role == Liveness || id.role == Readiness) && cfg.startupProbe.Some? && TaskId(id.run, Startup) in s.tasks)
  }

  /** A task counts the answers of its own probe; liveness counts when it has the lock. */
  predicate CountsAnswers(id: TaskId, task: Task, answers: seq<bool>) {
    match id.role
    case Liveness => answers == if task.pc.Holding? then task.results + [task.pc.result] else task.results
    case Startup => answers == task.results
    case Readiness => answers == task.results
    case _ => true
  }

  predicate Tells(cfg: Config, s: St, id: TaskId, answers: seq<bool>) {
    && (MayCome(cfg, s, id) ==> id !in s.tasks && answers == [])
    && (id in s.tasks ==> CountsAnswers(id, s.tasks[id], answers))
  }

  ghost predicate AnswerKept(cfg: Config, s: St, acts: seq<Action>, id: TaskId) {
    Tells(cfg, s, id, Answers(acts, id))
  }

  ghost predicate AnswersKept(cfg: Config, s: St, acts: seq<Action>) {
    forall id :: AnswerKept(cfg, s, acts, id)
  }

  lemma OneMoreAnswer(acts: seq<Action>, a: Action, id: TaskId)
    ensures Answers(acts + [a], id) == Answers(acts, id) + if a.Result? && a.id == id then [a.ok] else []
  {
    assert (acts + [a])[..|acts|] == acts;
  }

  lemma ResultKeepsTheRest(cfg: Config, s: St, id: TaskId, ok: bool)
    requires id in s.tasks
    ensures var t := AfterResult(cfg, s, id, ok);
      && id in t.tasks && t.tasks.Keys == s.tasks.Keys && t.proc == s.proc && t.spawning == s.spawning
      && forall x :: x in s.tasks && x != id ==> t.tasks[x] == s.tasks[x]
  {
  }

  lemma ResultIsCounted(cfg: Config, s: St, id: TaskId, ok: bool)
    requires id in s.tasks && TaskKept(cfg, s, id, s.tasks[id]) && s.tasks[id].pc.Probing?
    ensures id in AfterResult(cfg, s, id, ok).tasks
    ensures Counted(id, s.tasks[id], AfterResult(cfg, s, id, ok).tasks[id], ok)
  {
  }

  predicate Counted(id: TaskId, was: Task, now: Task, ok: bool) {
    && (id.role == Startup || id.role == Readiness ==> now.results == was.results + [ok])
    && (id.role == Liveness ==> now.results == was.results && now.pc == Holding(ok))
  }

  lemma AnswersByResult(cfg: Config, s: St, acts: seq<Action>, a: Action, t: St, id: TaskId)
    requires Kept(cfg, s) && AnswersKept(cfg, s, acts) && Step(cfg, s, a, t) && a.Result?
    ensures AnswerKept(cfg, t, acts + [a], id)
  {
    OneMoreAnswer(acts, a, id);
    assert TaskKept(cfg, s, a.id, s.tasks[a.id]) && AnswerKept(cfg, s, acts, id) && AnswerKept(cfg, s, acts, a.id);
    ResultKeepsTheRest(cfg, s, a.id, a.ok);
    if id == a.id {
      ResultIsCounted(cfg, s, id, a.ok);
      ItsAnswerTells(cfg, s, a.ok, t, id, Answers(acts, id));
    } else {
      OtherAnswersTell(cfg, s, a.id, t, id, Answers(acts, id));
    }
  }

  lemma OtherAnswersTell(cfg: Config, s: St, a: TaskId, t: St, id: TaskId, answers: seq<bool>)
    requires id != a && Tells(cfg, s, id, answers)
    requires t.tasks.Keys == s.tasks.Keys && t.proc == s.proc && t.spawning == s.spawning
    requires forall x :: x in s.tasks && x != a ==> t.tasks[x] == s.tasks[x]
    ensures Tells(cfg, t, id, answers)
  {
  }

  lemma ItsAnswerTells(cfg: Config, s: St, ok: bool, t: St, id: TaskId, answers: seq<bool>)
    requires id in s.tasks && s.tasks[id].pc.Probing? && Tells(cfg, s, id, answers)
    requires t.tasks.Keys == s.tasks.Keys && t.proc == s.proc && t.spawning == s.spawning
    requires Counted(id, s.tasks[id], t.tasks[id], ok)
    ensures Tells(cfg, t, id, answers + [ok])
  {
  }

  lemma AnswersByMark(cfg: Config, s: St, acts: seq<Action>, a: Action, t: St, id: TaskId)
    requires Kept(cfg, s) && AnswersKept(cfg, s, acts) && Step(cfg, s, a, t) && a.Mark?
    ensures AnswerKept(cfg, t, acts + [a], id)
  {
    OneMoreAnswer(acts, a, id);
    assert TaskKept(cfg, s, a.id, s.tasks[a.id]) && AnswerKept(cfg, s, acts, id) && AnswerKept(cfg, s, acts, a.id);
    if a.id.role == Startup {
      StartupMarkKeeps(cfg, s, acts, a.id, t, id);
    }
  }

  lemma StartupMarkKeeps(cfg: Config, s: St, acts: seq<Action>, m: TaskId, t: St, id: TaskId)
    requires AnswerKept(cfg, s, acts, id) && AnswerKept(cfg, s, acts, m) && m in s.tasks && m.role == Startup
    requires cfg.startupProbe.Some? && s.tasks[m].pc.Holding? && t == AfterMark(cfg, s, m, s.tasks[m].pc.result)
    ensures AnswerKept(cfg, t, acts, id)
  {
    var followers := NewTasks(m.run, FollowUps(cfg), s.tasks[m].pid);
    if id in followers {
      assert MayCome(cfg, s, id) && (m.run == s.proc.run ==> t.tasks[id] == Fresh(s.tasks[m].pid));
    }
  }

  lemma AnswersByLanding(cfg: Config, s: St, acts: seq<Action>, a: Action, t: St, id: TaskId)
    requires Kept(cfg, s) && AnswersKept(cfg, s, acts) && Step(cfg, s, a, t) && a.Land?
    ensures AnswerKept(cfg, t, acts + [a], id)
  {
    OneMoreAnswer(acts, a, id);
    assert AnswerKept(cfg, s, acts, id);
    var new_ := NewTasks(a.run, FirstRoles(cfg), a.pid);
    if id in new_ { assert t.tasks[id] == Fresh(a.pid) && MayCome(cfg, s, id); }
  }

  lemma AnswersByOthers(cfg: Config, s: St, acts: seq<Action>, a: Action, t: St, id: TaskId)
    requires Kept(cfg, s) && AnswersKept(cfg, s, acts) && Step(cfg, s, a, t) && !a.Result? && !a.Mark? && !a.Land?
    ensures AnswerKept(cfg, t, acts + [a], id)
  {
    OneMoreAnswer(acts, a, id);
    assert AnswerKept(cfg, s, acts, id);
    if id in s.tasks { assert TaskKept(cfg, s, id, s.tasks[id]); }
  }

  lemma {:induction false} TasksCountTheirAnswers(cfg: Config, run: seq<St>, acts: seq<Action>, i: nat)
    requires IsRun(cfg, run, acts) && i < |run|
    ensures Kept(cfg, run[i]) && AnswersKept(cfg, run[i], acts[..i])
  {
    RunsKeep(cfg, run, acts, i);
    if i > 0 {
      TasksCountTheirAnswers(cfg, run, acts, i - 1);
      var (s, a, t) := (run[i - 1], acts[i - 1], run[i]);
      assert acts[..i] == acts[..i - 1] + [a];
      forall id ensures AnswerKept(cfg, t, acts[..i], id) {
        match a
        case Result(_, _) => AnswersByResult(cfg, s, acts[..i - 1], a, t, id);
        case Mark(_) => AnswersByMark(cfg, s, acts[..i - 1], a, t, id);
        case Land(_, _, _) => AnswersByLanding(cfg, s, acts[..i - 1], a, t, id);
        case _ => AnswersByOthers(cfg, s, acts[..i - 1], a, t, id);
      }
    }
  }

  /** Where an answer leaves its task: the last ones, as many as the threshold says, decide, if all are of its kind. */
  function Decided(answers: seq<bool>, ok: bool, p: Probe, failed: Pc): Pc {
    if ok && Ended(answers, true, p.successThreshold) then Holding(true)
    else if !ok && Ended(answers, false, p.failureThreshold) then failed
    else Top
  }

  /**
   * In every run, after an answer: startup has passed, or its run is to be
   * killed, and readiness is to be said, exactly as the task's last answers
   * have it; the others act on each answer.
   */
  lemma AnswersDecide(cfg: Config, run: seq<St>, acts: seq<Action>, i: nat, id: TaskId, ok: bool)
    requires IsRun(cfg, run, acts) && i < |acts| && acts[i] == Result(id, ok)
    ensures id in run[i + 1].tasks
    ensures id.role == Startup || id.role == Readiness || id.role == Liveness ==> ProbeOf(cfg, id.role).Some?
    ensures run[i + 1].tasks[id].pc == match id.role
      case Startup => Decided(Answers(acts[..i + 1], id), ok, cfg.startupProbe.value, Killing)
      case Readiness => Decided(Answers(acts[..i + 1], id), ok, cfg.readinessProbe.value, Holding(false))
      case Liveness => Holding(ok)
      case ReadyProbe => if ok then Holding(true) else Top
      case Api(_) => if ok then Top else Killing
  {
    TasksCountTheirAnswers(cfg, run, acts, i);
    var s := run[i];
    assert Step(cfg, s, acts[i], run[i + 1]);
    assert TaskKept(cfg, s, id, s.tasks[id]) && AnswerKept(cfg, s, acts[..i], id);
    assert acts[..i + 1] == acts[..i] + [acts[i]];
    OneMoreAnswer(acts[..i], acts[i], id);
    ResultDecides(cfg, s, id, ok, Answers(acts[..i + 1], id));
  }

  lemma ResultDecides(cfg: Config, s: St, id: TaskId, ok: bool, answers: seq<bool>)
    requires id in s.tasks && TaskKept(cfg, s, id, s.tasks[id])
    requires id.role == Startup || id.role == Readiness ==> answers == s.tasks[id].results + [ok]
    ensures id.role == Startup || id.role == Readiness || id.role == Liveness ==> ProbeOf(cfg, id.role).Some?
    ensures var t := AfterResult(cfg, s, id, ok); id in t.tasks && t.tasks[id].pc == match id.role
      case Startup => Decided(answers, ok, cfg.startupProbe.value, Killing)
      case Readiness => Decided(answers, ok, cfg.readinessProbe.value, Holding(false))
      case Liveness => Holding(ok)
      case ReadyProbe => if ok then Holding(true) else Top
      case Api(_) => if ok then Top else Killing
  {
    if id.role == Startup || id.role == Readiness {
      var p := ProbeOf(cfg, id.role).value;
      TallyCountsUnbroken(answers, p.successThreshold);
      TallyCountsUnbroken(answers, p.failureThreshold);
    }
  }

  /**
   * And a task that holds what was decided says so, if its run is the current
   * one, when it has the lock: startup is marked passed and what follows it
   * begins, ready is as readiness found it, a liveness answer is counted and
   * its last failures, as many as the threshold says, have the run killed.
   */
  lemma MarksTell(cfg: Config, run: seq<St>, acts: seq<Action>, i: nat, id: TaskId)
    requires IsRun(cfg, run, acts) && i < |acts| && acts[i] == Mark(id) && id.run == run[i].proc.run
    ensures id in run[i].tasks && run[i].tasks[id].pc.Holding?
    ensures var (s, t, ok) := (run[i], run[i + 1], run[i].tasks[id].pc.result);
      match id.role
      case Startup =>
        && ok && t.proc.startupPassedRun == Some(id.run) && id !in t.tasks
        && t.proc.ready == (s.proc.ready || (cfg.readinessProbe.None? && !cfg.readyProbe))
        && Begins(t, TaskId(id.run, Liveness), s.tasks[id].pid, cfg.livenessProbe.Some?)
        && Begins(t, TaskId(id.run, Readiness), s.tasks[id].pid, cfg.readinessProbe.Some?)
      case Readiness => t.proc.ready == ok && id in t.tasks && t.tasks[id].pc == Top
      case Liveness =>
        && cfg.livenessProbe.Some? && id in t.tasks
        && t.proc.livenessFailures == (if ok then 0 else s.proc.livenessFailures + 1)
        && (ok ==> t.proc.livenessPassedRun == Some(id.run))
        && t.tasks[id].pc ==
             if !ok && Ended(Answers(acts[..i], id), false, cfg.livenessProbe.value.failureThreshold) then Killing
             else Top
      case _ => ok && t.proc.ready && id !in t.tasks
  {
    TasksCountTheirAnswers(cfg, run, acts, i);
    var (s, t) := (run[i], run[i + 1]);
    assert Step(cfg, s, acts[i], t);
    assert TaskKept(cfg, s, id, s.tasks[id]) && AnswerKept(cfg, s, acts[..i], id);
    match id.role
    case Startup => StartupMarkTells(cfg, s, acts[..i], id, t);
    case Liveness => TallyCountsUnbroken(Answers(acts[..i], id), cfg.livenessProbe.value.failureThreshold);
    case _ =>
  }

  /** A task is there, at its loop's top, if it is to begin. */
  predicate Begins(t: St, id: TaskId, pid: Option<nat>, does: bool) {
    if does then id in t.tasks && t.tasks[id] == Task(pid, Top, []) else id !in t.tasks
  }

  lemma StartupMarkTells(cfg: Config, s: St, acts: seq<Action>, id: TaskId, t: St)
    requires Kept(cfg, s) && AnswersKept(cfg, s, acts) && Step(cfg, s, Mark(id), t)
    requires id.run == s.proc.run && id.role == Startup
    ensures t.proc.startupPassedRun == Some(id.run) && id !in t.tasks
    ensures t.proc.ready == (s.proc.ready || (cfg.readinessProbe.None? && !cfg.readyProbe))
    ensures Begins(t, TaskId(id.run, Liveness), s.tasks[id].pid, cfg.livenessProbe.Some?)
    ensures Begins(t, TaskId(id.run, Readiness), s.tasks[id].pid, cfg.readinessProbe.Some?)
  {
    var followers := NewTasks(id.run, FollowUps(cfg), s.tasks[id].pid);
    assert TaskKept(cfg, s, id, s.tasks[id]);
    forall x | x in [TaskId(id.run, Liveness), TaskId(id.run, Readiness)]
      ensures x !in s.tasks && (x in followers ==> t.tasks[x] == Task(s.tasks[id].pid, Top, []))
    {
      assert AnswerKept(cfg, s, acts, x) && MayCome(cfg, s, x);
      if x in followers { assert t.tasks[x] == Fresh(s.tasks[id].pid); }
    }
  }

  /** A run that has landed is probed: by startup first, where there is one, and by the rest at once. */
  lemma ALandedRunIsProbed(cfg: Config, run: seq<St>, acts: seq<Action>, i: nat)
    requires IsRun(cfg, run, acts) && i < |acts| && acts[i].Land?
    ensures var (r, pid, t) := (acts[i].run, acts[i].pid, run[i + 1]);
      && t.proc.state == Running && t.proc.pid == pid && t.proc.startedAt == Some(acts[i].now)
      && Begins(t, TaskId(r, Startup), pid, cfg.startupProbe.Some?)
      && Begins(t, TaskId(r, Liveness), pid, cfg.livenessProbe.Some? && cfg.startupProbe.None?)
      && Begins(t, TaskId(r, Readiness), pid, cfg.readinessProbe.Some? && cfg.startupProbe.None?)
      && Begins(t, TaskId(r, ReadyProbe), pid, cfg.readyProbe && cfg.readinessProbe.None?)
      && forall j: nat :: Begins(t, TaskId(r, Api(j)), pid, j < cfg.apis)
  {
    TasksCountTheirAnswers(cfg, run, acts, i);
    var (s, t, r) := (run[i], run[i + 1], acts[i].run);
    assert Step(cfg, s, acts[i], t);
    var new_ := NewTasks(r, FirstRoles(cfg), acts[i].pid);
    forall role ensures Begins(t, TaskId(r, role), acts[i].pid, role in FirstRoles(cfg)) {
      assert AnswerKept(cfg, s, acts[..i], TaskId(r, role)) && MayCome(cfg, s, TaskId(r, role));
      if role in FirstRoles(cfg) { assert TaskId(r, role) in new_ && new_[TaskId(r, role)] == Fresh(acts[i].pid); }
    }
  }

  /** A task goes on to probe just while its run is the current one and runs; `ready_probe`, while it is not over. */
  lemma TasksOfThisRunProbe(cfg: Config, s: St, id: TaskId, t: St)
    requires Step(cfg, s, Check(id), t)
    ensures var goesOn := s.proc.run == id.run
        && if id.role == ReadyProbe then s.proc.state !in {Stopped, Failed} else s.proc.state == Running;
      t.tasks == if goesOn then s.tasks[id := s.tasks[id].(pc := Probing)] else s.tasks - {id}
  {
  }

  /** The child is this task's to signal. */
  predicate IsItsOwn(s: St, id: TaskId) {
    id in s.tasks && s.proc.run == id.run && s.tasks[id].pid.Some? && s.proc.pid == s.tasks[id].pid
  }

  /** A task that is to kill sends SIGTERM, and later SIGKILL, if the child is its own: the second if it still runs. */
  lemma WhatMayBeKilledIs(cfg: Config, s: St, a: Action, t: St)
    requires Step(cfg, s, a, t) && (a.Term? || a.Kill?)
    ensures var sends := IsItsOwn(s, a.id) && (a.Kill? ==> s.proc.state == Running);
      && (sends ==> |t.sent| == |s.sent| + 1 && t.sent[..|s.sent|] == s.sent)
      && (sends ==> t.sent[|s.sent|] == Sent(a.id, s.tasks[a.id].pid.value, s.proc.run, s.tasks[a.id].results))
      && (!sends ==> t.sent == s.sent)
      && (if a.Term? && sends then a.id in t.tasks && t.tasks[a.id].pc == Grace else a.id !in t.tasks)
  {
  }

  /** Its `j`th step is an answer by which the task's probe has come to a pass. */
  ghost predicate Earned(cfg: Config, acts: seq<Action>, j: nat, id: TaskId) {
    && j < |acts| && acts[j] == Result(id, true)
    && (id.role == Startup ==>
          cfg.startupProbe.Some? && Ended(Answers(acts[..j + 1], id), true, cfg.startupProbe.value.successThreshold))
    && (id.role == Readiness ==>
          && cfg.readinessProbe.Some?
          && Ended(Answers(acts[..j + 1], id), true, cfg.readinessProbe.value.successThreshold))
  }

  /** What has passed has earned it, by its own last answers. */
  lemma {:induction false} PassesAreEarned(cfg: Config, run: seq<St>, acts: seq<Action>, i: nat, id: TaskId)
    requires IsRun(cfg, run, acts) && i < |run| && id in run[i].passed
    ensures exists j: nat :: j < i && Earned(cfg, acts, j, id)
  {
    if i > 0 {
      var (s, a, t) := (run[i - 1], acts[i - 1], run[i]);
      assert Step(cfg, s, a, t);
      if id in s.passed {
        PassesAreEarned(cfg, run, acts, i - 1, id);
      } else {
        PassesAtResults(cfg, s, a, t, id);
        AnswersDecide(cfg, run, acts, i - 1, id, true);
        assert Earned(cfg, acts, i - 1, id);
      }
    }
  }

  lemma PassesAtResults(cfg: Config, s: St, a: Action, t: St, id: TaskId)
    requires Step(cfg, s, a, t) && id in t.passed && id !in s.passed
    ensures a == Result(id, true) && (id.role == Startup || id.role == Readiness ==>
      id in t.tasks && t.tasks[id].pc == Holding(true))
  {
  }

  // --------------------------------------------------------- health is reached

  ghost predicate Goes(cfg: Config, s: St, t: St) {
    exists run: seq<St>, acts: seq<Action> :: Leads(cfg, s, run, acts, t)
  }

  ghost predicate Leads(cfg: Config, s: St, run: seq<St>, acts: seq<Action>, t: St) {
    && |run| == |acts| + 1 && run[0] == s && run[|run| - 1] == t
    && forall i :: 0 <= i < |acts| ==> Step(cfg, run[i], acts[i], run[i + 1])
  }

  lemma Stays(cfg: Config, s: St)
    ensures Goes(cfg, s, s)
  {
    assert Leads(cfg, s, [s], [], s);
  }

  lemma Then(cfg: Config, s: St, t: St, a: Action, u: St)
    requires Goes(cfg, s, t) && Step(cfg, t, a, u)
    ensures Goes(cfg, s, u)
  {
    var run: seq<St>, acts: seq<Action> :| Leads(cfg, s, run, acts, t);
    var (run', acts') := (run + [u], acts + [a]);
    forall i | 0 <= i < |acts'| ensures Step(cfg, run'[i], acts'[i], run'[i + 1]) {
      if i < |acts| { assert Step(cfg, run[i], acts[i], run[i + 1]); }
    }
    assert Leads(cfg, s, run', acts', u);
  }

  /** A task about to probe, its run the current one and running. */
  ghost predicate Probes(cfg: Config, r: St, s: St, id: TaskId) {
    && Goes(cfg, r, s) && id in s.tasks && s.tasks[id].pc == Top
    && id.run == s.proc.run && s.proc.state == Running
  }

  /** It probes, and the answer is good. */
  lemma GoodAnswer(cfg: Config, r: St, s: St, id: TaskId) returns (t: St)
    requires Probes(cfg, r, s, id)
    ensures Goes(cfg, r, t) && t == AfterResult(cfg, At(s, id, Probing), id, true)
  {
    var u := At(s, id, Probing);
    Then(cfg, r, s, Check(id), u);
    t := AfterResult(cfg, u, id, true);
    Then(cfg, r, u, Result(id, true), t);
  }

  /** What has changed from `s` to `t` is this task and what has passed. */
  ghost predicate OnlyTask(s: St, t: St, id: TaskId, pc: Pc) {
    && t.proc == s.proc && t.tasks.Keys == s.tasks.Keys && id in t.tasks
    && t.tasks[id].pc == pc && t.tasks[id].pid == s.tasks[id].pid
    && forall x :: x in s.tasks && x != id ==> t.tasks[x] == s.tasks[x]
  }

  /** As many good answers as it takes, the task's others so far being `n` good ones. */
  lemma {:induction false} AnswersUntilItPasses(cfg: Config, r: St, s: St, id: TaskId, n: nat) returns (t: St)
    requires Probes(cfg, r, s, id) && (id.role == Startup || id.role == Readiness) && ProbeOf(cfg, id.role).Some?
    requires Tallied(s.tasks[id].results).successes == n
    ensures Goes(cfg, r, t) && OnlyTask(s, t, id, Holding(true))
    decreases var enough := ProbeOf(cfg, id.role).value.successThreshold; if enough > n then enough - n else 0
  {
    t := GoodAnswer(cfg, r, s, id);
    var results := s.tasks[id].results;
    assert (results + [true])[..|results|] == results;
    if n + 1 < ProbeOf(cfg, id.role).value.successThreshold {
      var u := t;
      t := AnswersUntilItPasses(cfg, r, u, id, n + 1);
    }
  }

  /** The task passes, and says so. */
  lemma Passes(cfg: Config, r: St, s: St, id: TaskId) returns (t: St)
    requires Probes(cfg, r, s, id) && !id.role.Api? && s.tasks[id].results == []
    requires id.role == ReadyProbe || ProbeOf(cfg, id.role).Some?
    ensures exists u :: Goes(cfg, r, t) && OnlyTask(s, u, id, Holding(true)) && t == AfterMark(cfg, u, id, true)
  {
    var u;
    if id.role == Startup || id.role == Readiness {
      u := AnswersUntilItPasses(cfg, r, s, id, 0);
    } else {
      u := GoodAnswer(cfg, r, s, id);
    }
    t := AfterMark(cfg, u, id, true);
    assert OnlyTask(s, u, id, Holding(true));
    Then(cfg, r, u, Mark(id), t);
  }

  ghost predicate Waits(s: St, role: Role) {
    TaskId(1, role) in s.tasks && s.tasks[TaskId(1, role)].pc == Top && s.tasks[TaskId(1, role)].results == []
  }

  /** The process's first run, running, these tasks about to begin. */
  ghost predicate Started(cfg: Config, r: St, s: St, roles: set<Role>) {
    && Goes(cfg, r, s) && s.proc.run == 1 && s.proc.state == Running && forall role :: role in roles ==> Waits(s, role)
  }

  lemma Lands(cfg: Config, pid: nat) returns (r: St, s: St)
    ensures Init(cfg, r) && Started(cfg, r, s, FirstRoles(cfg))
  {
    r := St(NewProc(cfg), {}, map[], map[], {}, []);
    var a := r.(proc := r.proc.BeginRun(cfg), spawning := {1});
    Stays(cfg, r);
    Then(cfg, r, r, BeginSpawn, a);
    var new_ := NewTasks(1, FirstRoles(cfg), Some(pid));
    s := a.(proc := a.proc.MarkRunning(Some(pid), 0), spawning := {}, owner := map[pid := 1], tasks := new_);
    assert a.owner[pid := 1] == map[pid := 1] && a.tasks + new_ == new_;
    assert a.spawning - {1} == {};
    Then(cfg, r, a, Land(1, Some(pid), 0), s);
    forall role | role in FirstRoles(cfg) ensures Waits(s, role) { assert new_[TaskId(1, role)] == Fresh(Some(pid)); }
  }

  /** One of them passes and the others are as they were. */
  lemma PassesFirst(cfg: Config, r: St, s: St, role: Role, roles: set<Role>) returns (t: St)
    requires Started(cfg, r, s, roles) && role in roles && role in {Liveness, Readiness, ReadyProbe}
    requires role == ReadyProbe || ProbeOf(cfg, role).Some?
    ensures Started(cfg, r, t, roles - {role}) && t.proc.startupPassedRun == s.proc.startupPassedRun
    ensures if role == Liveness then t.proc.livenessPassedRun == Some(1) && t.proc.ready == s.proc.ready
      else t.proc.ready && t.proc.livenessPassedRun == s.proc.livenessPassedRun
  {
    assert Waits(s, role);
    t := Passes(cfg, r, s, TaskId(1, role));
    forall x | x in roles - {role} ensures Waits(t, x) { assert Waits(s, x); }
  }

  lemma StartupPassesFirst(cfg: Config, r: St, s: St) returns (t: St)
    requires cfg.startupProbe.Some? && Started(cfg, r, s, FirstRoles(cfg))
    ensures Started(cfg, r, t, FollowUps(cfg) + if cfg.readyProbe && cfg.readinessProbe.None? then {ReadyProbe} else {})
    ensures t.proc.startupPassedRun == Some(1)
    ensures cfg.readinessProbe.None? && !cfg.readyProbe ==> t.proc.ready
  {
    var id := TaskId(1, Startup);
    assert Waits(s, Startup);
    t := Passes(cfg, r, s, id);
    var u :| OnlyTask(s, u, id, Holding(true)) && t == AfterMark(cfg, u, id, true);
    var followers := NewTasks(1, FollowUps(cfg), u.tasks[id].pid);
    forall role | role in FollowUps(cfg) ensures Waits(t, role) {
      assert followers[TaskId(1, role)] == Fresh(u.tasks[id].pid);
    }
    if cfg.readyProbe && cfg.readinessProbe.None? { assert Waits(s, ReadyProbe); }
  }

  /** Whatever is configured, a fresh process can come to be healthy: every probe answers well until it has passed. */
  lemma HealthIsReached(cfg: Config, pid: nat) returns (r: St, t: St)
    ensures Init(cfg, r) && Goes(cfg, r, t) && ProbesHealthy(cfg, t.proc)
  {
    var roles := FollowUps(cfg) + if cfg.readyProbe && cfg.readinessProbe.None? then {ReadyProbe} else {};
    r, t := Lands(cfg, pid);
    if cfg.startupProbe.Some? { t := StartupPassesFirst(cfg, r, t); }
    if cfg.livenessProbe.Some? {
      t := PassesFirst(cfg, r, t, Liveness, roles);
      roles := roles - {Liveness};
    }
    if cfg.readinessProbe.Some? {
      t := PassesFirst(cfg, r, t, Readiness, roles);
    } else if cfg.readyProbe {
      t := PassesFirst(cfg, r, t, ReadyProbe, roles);
    }
  }
}
