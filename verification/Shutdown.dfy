/**
 * `stop_all` and `shutdown_budget`: stopping every process tier by tier while
 * the rest of stormd keeps running.
 *
 * Whenever `StopAll` takes a lock, reads the clock or sleeps, the other tasks
 * may have done anything since: what they did is `others`, any function at
 * all of the step and of how things stood. Each theorem is for every `others`,
 * so for every way the other tasks can interleave.
 */
module Shutdown {
  import opened Names
  import opened StopTiers
  import opened P = Process
  import opened Lives

  /** Seconds a tier is allowed past its longest stop timeout. */
  const STOP_SLACK_SECS: nat := 2
  /** How often a tier is looked at again. */
  const POLL_MS: nat := 50

  /**
   * The fields of a managed process that shutdown reads and writes; and how
   * many spawns of it are past their look at the flag, their child not marked
   * Running yet, which it does not know.
   */
  datatype Member = Member(state: State, killHandle: bool, late: nat)

  /** How things stand, and the time in ms. */
  datatype Moment = Moment(clock: nat, procs: map<string, Member>)

  /** Other tasks that do nothing. */
  function Idle(k: nat, m: Moment, ms: nat): Moment { Moment(m.clock + ms, m.procs) }

  /**
   * What the other tasks make of things in `StopAll`'s step `k`, which lasts
   * `ms` at least. They do as they like, but time does not go back, and no
   * process appears or vanishes.
   */
  type Others = f: (nat, Moment, nat) -> Moment
    | forall k, m, ms :: f(k, m, ms).clock >= m.clock + ms && f(k, m, ms).procs.Keys == m.procs.Keys
    witness Idle

  /**
   * What `StopAll` does: takes a process's lock, on its turn to be stopped or to
   * see if it is gone; reads the clock; sleeps.
   */
  datatype Event =
    | Look(name: string, turn: bool, seen: Moment)
    | Read(seen: Moment)
    | Nap(seen: Moment)
  {
    /** The process is sent its stop: it is its turn, and it runs, its kill handle stored. */
    predicate Sent()
      { Look? && turn && name in seen.procs && seen.procs[name].state == Running && seen.procs[name].killHandle }

    /** How long it lasts at least. */
    function Ms(): nat { if Nap? then POLL_MS else 0 }

    function After(): Moment {
      if !Sent() then seen
      else seen.(procs := seen.procs[name := seen.procs[name].(state := Stopping, killHandle := false)])
    }

    predicate SeenStopping() { Look? && name in seen.procs && seen.procs[name].state == Stopping }
  }

  function Last(m: Moment, trace: seq<Event>): Moment {
    if trace == [] then m else trace[|trace| - 1].After()
  }

  /** The first `n` locks of a tier, taken one after the other. */
  function PassTo(others: Others, k: nat, m: Moment, tier: seq<string>, turn: bool, n: nat): (t: seq<Event>)
    requires n <= |tier|
    ensures |t| == n
  {
    if n == 0 then []
    else
      var init := PassTo(others, k, m, tier, turn, n - 1);
      init + [Look(tier[n - 1], turn, others(k + |init|, Last(m, init), 0))]
  }

  function Pass(others: Others, k: nat, m: Moment, tier: seq<string>, turn: bool): (t: seq<Event>)
    ensures |t| == |tier|
  {
    PassTo(others, k, m, tier, turn, |tier|)
  }

  lemma {:induction false} PassGoesOn(others: Others, k: nat, m: Moment, tier: seq<string>, turn: bool, n: nat)
    requires n <= |tier|
    ensures Last(m, PassTo(others, k, m, tier, turn, n)).clock >= m.clock
  {
    if n > 0 { PassGoesOn(others, k, m, tier, turn, n - 1); }
  }

  predicate AnyStopping(pass: seq<Event>) {
    pass != [] && (pass[|pass| - 1].SeenStopping() || AnyStopping(pass[..|pass| - 1]))
  }

  /** How a tier is looked at from a step and a moment on. */
  type Round = f: (nat, Moment) -> seq<Event> | forall k, m :: Last(m, f(k, m)).clock >= m.clock witness Unseen

  function Unseen(k: nat, m: Moment): seq<Event> { [] }

  function Passer(others: Others, tier: seq<string>, turn: bool): Round {
    var pass := (k: nat, m: Moment) => Pass(others, k, m, tier, turn);
    assert forall k, m :: Last(m, pass(k, m)).clock >= m.clock by {
      forall k: nat, m ensures Last(m, pass(k, m)).clock >= m.clock { PassGoesOn(others, k, m, tier, turn, |tier|); }
    }
    pass
  }

  /** A tier waited for: looked at every 50 ms until none of it is stopping or its deadline has passed. */
  function Wait(others: Others, k: nat, m: Moment, look: Round, deadline: nat): seq<Event>
    decreases if deadline > m.clock then deadline - m.clock else 0
  {
    var pass := look(k, m);
    if !AnyStopping(pass) then pass
    else
      var r := Read(others(k + |pass|, Last(m, pass), 0));
      if r.seen.clock >= deadline then pass + [r]
      else
        var z := Nap(others(k + |pass| + 1, r.seen, POLL_MS));
        var rest := Wait(others, k + |pass| + 2, z.seen, look, deadline);
        pass + [r, z] + rest
  }

  /** The longest stop timeout in a tier; unknown names count for nothing. */
  function LongestTimeout(timeout: map<string, nat>, tier: seq<string>): nat {
    LongestTo(timeout, tier, |tier|)
  }

  function LongestTo(timeout: map<string, nat>, tier: seq<string>, k: nat): nat
    requires k <= |tier|
  {
    if k == 0 then 0
    else
      var rest := LongestTo(timeout, tier, k - 1);
      if tier[k - 1] in timeout && timeout[tier[k - 1]] > rest then timeout[tier[k - 1]] else rest
  }

  lemma {:induction false} LongestIsLongest(timeout: map<string, nat>, tier: seq<string>, k: nat)
    requires k <= |tier|
    ensures forall i :: 0 <= i < k && tier[i] in timeout ==> timeout[tier[i]] <= LongestTo(timeout, tier, k)
    ensures LongestTo(timeout, tier, k) > 0 ==>
      exists i :: 0 <= i < k && tier[i] in timeout && timeout[tier[i]] == LongestTo(timeout, tier, k)
  {
    if k > 0 { LongestIsLongest(timeout, tier, k - 1); }
  }

  /** The ms a tier may take. */
  function Allowed(timeout: map<string, nat>, tier: seq<string>): nat {
    1000 * (LongestTimeout(timeout, tier) + STOP_SLACK_SECS)
  }

  /** The clock read, and the wait from then. */
  function Waited(others: Others, k: nat, m: Moment, look: Round, allowed: nat): seq<Event>
  {
    var r := Read(others(k, m, 0));
    [r] + Wait(others, k + 1, r.seen, look, r.seen.clock + allowed)
  }

  /** Turns, and then a wait. */
  function ThenWait(turns: Round, look: Round, others: Others, k: nat, m: Moment, allowed: nat): seq<Event> {
    var t := turns(k, m);
    t + Waited(others, k + |t|, Last(m, t), look, allowed)
  }

  /** A tier stopped: each process's turn, and then the wait. */
  function TierTrace(others: Others, k: nat, m: Moment, timeout: map<string, nat>, tier: seq<string>): seq<Event> {
    ThenWait(Passer(others, tier, true), Passer(others, tier, false), others, k, m, Allowed(timeout, tier))
  }

  /** How a tier is stopped from a step and a moment on. */
  type Stop = (nat, Moment, seq<string>) -> seq<Event>

  /** The first `n` tiers stopped one after the other, each as `stop` tells. */
  function InTurn(stop: Stop, k: nat, m: Moment, tiers: seq<seq<string>>, n: nat): seq<Event>
    requires n <= |tiers|
  {
    if n == 0 then []
    else
      var init := InTurn(stop, k, m, tiers, n - 1);
      init + stop(k + |init|, Last(m, init), tiers[n - 1])
  }

  function Stopper(others: Others, timeout: map<string, nat>): Stop {
    (k: nat, m: Moment, tier: seq<string>) => TierTrace(others, k, m, timeout, tier)
  }

  function Trace(others: Others, k: nat, m: Moment, timeout: map<string, nat>, tiers: seq<seq<string>>): seq<Event> {
    InTurn(Stopper(others, timeout), k, m, tiers, |tiers|)
  }

  /** The seconds shutdown may take over the first `n` tiers, one after the other. */
  function BudgetTo(timeout: map<string, nat>, tiers: seq<seq<string>>, n: nat): nat
    requires n <= |tiers|
  {
    if n == 0 then 0
    else BudgetTo(timeout, tiers, n - 1) + LongestTimeout(timeout, tiers[n - 1]) + STOP_SLACK_SECS
  }

  function BudgetSecs(timeout: map<string, nat>, tiers: seq<seq<string>>): nat {
    BudgetTo(timeout, tiers, |tiers|)
  }

  // ------------------------------------------------------------ the class

  class Supervisor {
    /** The processes' configurations, fixed while shutdown runs. */
    const deps: Graph
    const timeout: map<string, nat>
    const others: Others
    var procs: map<string, Member>
    var shuttingDown: bool
    var clock: nat
    /** Steps taken: locks, clock readings and sleeps. */
    var steps: nat

    function Now(): Moment reads this { Moment(clock, procs) }

    ghost predicate Valid() reads this { procs.Keys == deps.Keys == timeout.Keys }

    constructor (deps: Graph, timeout: map<string, nat>, procs: map<string, Member>, others: Others)
      requires procs.Keys == deps.Keys == timeout.Keys
      ensures this.deps == deps && this.timeout == timeout && this.others == others
      ensures Valid() && Now() == Moment(0, procs) && steps == 0 && !shuttingDown
    {
      this.deps, this.timeout, this.procs, this.others := deps, timeout, procs, others;
      shuttingDown, clock, steps := false, 0, 0;
    }

    /** The others have their say, for this long at least. */
    method Pause(ms: nat)
      modifies this`procs, this`clock, this`steps
      ensures Now() == others(old(steps), old(Now()), ms) && steps == old(steps) + 1
    {
      var m := others(steps, Moment(clock, procs), ms);
      clock, procs, steps := m.clock, m.procs, steps + 1;
    }

    /** How long shutdown can take at most, if every process uses all of its stop timeout. */
    method ShutdownBudget() returns (total: nat)
      requires Valid()
      ensures exists tiers :: IsPlan(deps, tiers) && total == BudgetSecs(timeout, tiers)
      ensures forall tiers :: IsPlan(deps, tiers) ==> total == BudgetSecs(timeout, tiers)
    {
      var ts := StopTiers.StopTiers(deps);
      total := 0;
      var i := 0;
      while i < |ts|
        invariant 0 <= i <= |ts|
        invariant total == BudgetTo(timeout, ts, i)
      {
        var longest := Longest(ts[i]);
        total := total + longest + STOP_SLACK_SECS;
        i := i + 1;
      }
      forall tiers | IsPlan(deps, tiers) ensures tiers == ts { OnePlan(deps, tiers, ts); }
    }

    method Longest(tier: seq<string>) returns (longest: nat)
      requires Valid()
      ensures longest == LongestTimeout(timeout, tier)
    {
      longest := 0;
      var j := 0;
      while j < |tier|
        invariant 0 <= j <= |tier|
        invariant longest == LongestTo(timeout, tier, j)
      {
        if tier[j] in procs && timeout[tier[j]] > longest {
          longest := timeout[tier[j]];
        }
        j := j + 1;
      }
    }

    /** A process's turn: under its lock, a stop if it runs. */
    method Signal(n: string) returns (ghost e: Event)
      requires Valid()
      modifies this`procs, this`clock, this`steps
      ensures Valid() && e == Look(n, true, others(old(steps), old(Now()), 0))
      ensures Now() == e.After() && steps == old(steps) + 1
      ensures var m := others(old(steps), old(Now()), 0);
        procs == if n in m.procs && m.procs[n].state == Running && m.procs[n].killHandle
          then m.procs[n := Member(Stopping, false, m.procs[n].late)] else m.procs
    {
      Pause(0);
      e := Look(n, true, Now());
      // Running without its handle yet: left for another call to catch.
      if n in procs && procs[n].state == Running {
        if procs[n].killHandle {
          procs := procs[n := procs[n].(state := Stopping, killHandle := false)];
        }
      }
    }

    /** Send a tier its stops. */
    method SignalTier(tier: seq<string>) returns (longest: nat, ghost trace: seq<Event>)
      requires Valid()
      modifies this`procs, this`clock, this`steps
      ensures Valid() && longest == LongestTimeout(timeout, tier)
      ensures trace == Pass(others, old(steps), old(Now()), tier, true)
      ensures Led(old(steps), old(Now()), trace, steps, Now())
    {
      longest, trace := 0, [];
      var j := 0;
      while j < |tier|
        invariant 0 <= j <= |tier| && Valid()
        invariant longest == LongestTo(timeout, tier, j)
        invariant Passing(others, old(steps), old(Now()), tier, true, j, trace, steps, Now())
      {
        ghost var k, m := steps, Now();
        ghost var e := Signal(tier[j]);
        longest := if tier[j] in procs && timeout[tier[j]] > longest then timeout[tier[j]] else longest;
        OneMoreLook(others, old(steps), old(Now()), tier, true, j, trace, k, m, e);
        trace := trace + [e];
        j := j + 1;
      }
    }

    /** Look at each process of a tier, each under its own lock: which are still stopping? */
    method StillStopping(tier: seq<string>) returns (stopping: seq<string>, ghost trace: seq<Event>)
      requires Valid()
      modifies this`procs, this`clock, this`steps
      ensures Valid() && trace == Pass(others, old(steps), old(Now()), tier, false)
      ensures Led(old(steps), old(Now()), trace, steps, Now())
      ensures clock >= old(clock) && (stopping == [] <==> !AnyStopping(trace))
    {
      stopping, trace := [], [];
      var j := 0;
      while j < |tier|
        invariant 0 <= j <= |tier| && Valid() && clock >= old(clock)
        invariant stopping == [] <==> !AnyStopping(trace)
        invariant Passing(others, old(steps), old(Now()), tier, false, j, trace, steps, Now())
      {
        ghost var k, m := steps, Now();
        Pause(0);
        ghost var e := Look(tier[j], false, Now());
        if tier[j] in procs && procs[tier[j]].state == Stopping { stopping := stopping + [tier[j]]; }
        OneMoreLook(others, old(steps), old(Now()), tier, false, j, trace, k, m, e);
        OneMoreStopping(trace, e);
        trace := trace + [e];
        j := j + 1;
      }
    }

    /** One round of the wait: over when none of the tier is stopping or the deadline has passed, and a sleep if not. */
    method Poll(tier: seq<string>, deadline: nat) returns (over: bool, ghost trace: seq<Event>)
      requires Valid()
      modifies this`procs, this`clock, this`steps
      ensures Valid() && Led(old(steps), old(Now()), trace, steps, Now())
      ensures Wait(others, old(steps), old(Now()), Passer(others, tier, false), deadline)
        == if over then trace else trace + Wait(others, steps, Now(), Passer(others, tier, false), deadline)
      ensures !over ==> old(clock) < clock && old(clock) < deadline
    {
      var stopping;
      stopping, trace := StillStopping(tier);
      if stopping == [] {
        NoRound(others, old(steps), old(Now()), Passer(others, tier, false), deadline, trace);
        return true, trace;
      }
      ghost var pass, l := trace, Now();
      Pause(0);
      ghost var r := Now();
      over, trace := true, pass + [Read(r)];
      if clock >= deadline {
        RoundEnds(others, old(steps), old(Now()), Passer(others, tier, false), deadline, pass, l, r);
      } else {
        Pause(POLL_MS);
        RoundGoesOn(others, old(steps), old(Now()), Passer(others, tier, false), deadline, pass, l, r, Now(), steps);
        over, trace := false, pass + [Read(r), Nap(Now())];
      }
    }

    method PollUntil(tier: seq<string>, deadline: nat) returns (ghost trace: seq<Event>)
      requires Valid()
      modifies this`procs, this`clock, this`steps
      ensures Valid() && Led(old(steps), old(Now()), trace, steps, Now())
      ensures trace == Wait(others, old(steps), old(Now()), Passer(others, tier, false), deadline)
    {
      trace := [];
      ghost var whole := Wait(others, steps, Now(), Passer(others, tier, false), deadline);
      var over := false;
      while !over
        invariant Valid() && Led(old(steps), old(Now()), trace, steps, Now())
        invariant whole
          == if over then trace else trace + Wait(others, steps, Now(), Passer(others, tier, false), deadline)
        decreases !over, if deadline > clock then deadline - clock else 0
      {
        ghost var k, m, was, round := steps, Now(), trace, [];
        over, round := Poll(tier, deadline);
        LedOn(old(steps), old(Now()), was, k, m, round, steps, Now());
        trace := was + round;
        InOneGo(was, round, Wait(others, steps, Now(), Passer(others, tier, false), deadline));
      }
    }

    /** Wait for a tier to be gone, as long as is allowed. */
    method AwaitTier(tier: seq<string>, longest: nat) returns (ghost trace: seq<Event>)
      requires Valid()
      modifies this`procs, this`clock, this`steps
      ensures Valid() && Led(old(steps), old(Now()), trace, steps, Now())
      ensures trace
        == Waited(others, old(steps), old(Now()), Passer(others, tier, false), 1000 * (longest + STOP_SLACK_SECS))
    {
      Pause(0);
      var deadline := clock + 1000 * (longest + STOP_SLACK_SECS);
      ghost var k, r, w := steps, Now(), [];
      w := PollUntil(tier, deadline);
      WaitedFrom(others, old(steps), old(Now()), Passer(others, tier, false), 1000 * (longest + STOP_SLACK_SECS),
                 k, r, deadline, w, steps, Now());
      trace := [Read(r)] + w;
    }

    method StopTier(tier: seq<string>) returns (ghost trace: seq<Event>)
      requires Valid()
      modifies this`procs, this`clock, this`steps
      ensures Valid() && Led(old(steps), old(Now()), trace, steps, Now())
      ensures trace == TierTrace(others, old(steps), old(Now()), timeout, tier)
    {
      var longest;
      ghost var turns, wait;
      longest, turns := SignalTier(tier);
      ghost var k, m := steps, Now();
      wait := AwaitTier(tier, longest);
      LedOn(old(steps), old(Now()), turns, k, m, wait, steps, Now());
      TurnsThenWait(Passer(others, tier, true), Passer(others, tier, false), others, old(steps), old(Now()),
                    Allowed(timeout, tier), turns, k, m, wait);
      trace := turns + wait;
    }

    /** The whole shutdown: the flag, the plan, and the tiers in turn. */
    method StopAll() returns (ghost tiers: seq<seq<string>>, ghost trace: seq<Event>)
      requires Valid()
      modifies this`procs, this`clock, this`steps, this`shuttingDown
      ensures Valid() && shuttingDown && IsPlan(deps, tiers)
      ensures trace == Trace(others, old(steps), old(Now()), timeout, tiers)
      ensures Led(old(steps), old(Now()), trace, steps, Now())
    {
      shuttingDown := true;
      var ts := StopTiers.StopTiers(deps);
      trace := StopTiersOf(ts);
      tiers := ts;
    }

    method StopTiersOf(tiers: seq<seq<string>>) returns (ghost trace: seq<Event>)
      requires Valid()
      modifies this`procs, this`clock, this`steps
      ensures Valid() && Led(old(steps), old(Now()), trace, steps, Now())
      ensures trace == Trace(others, old(steps), old(Now()), timeout, tiers)
    {
      trace := [];
      var i := 0;
      while i < |tiers|
        invariant 0 <= i <= |tiers| && Valid()
        invariant Led(old(steps), old(Now()), trace, steps, Now())
        invariant trace == InTurn(Stopper(others, timeout), old(steps), old(Now()), tiers, i)
      {
        ghost var k, m, was, t := steps, Now(), trace, [];
        t := StopTier(tiers[i]);
        LedOn(old(steps), old(Now()), was, k, m, t, steps, Now());
        OneMoreTier(Stopper(others, timeout), old(steps), old(Now()), tiers, i, was, k, m, t);
        trace := was + t;
        i := i + 1;
      }
    }
  }

  // ------------------------------------------------------------- the theorems

  /** All that happens between two steps of the trace is the others' doing. */
  lemma TraceIsChained(others: Others, k: nat, m: Moment, timeout: map<string, nat>, tiers: seq<seq<string>>)
    ensures Chained(others, k, m, Trace(others, k, m, timeout, tiers))
  {
    var P := (k: nat, m: Moment, t: seq<Event>) => Chained(others, k, m, t);
    var stop := Stopper(others, timeout);
    ChainIsKept(others, P);
    forall k: nat, m, tier ensures OfStop(stop, P, k, m, tier) { TierKeeps(others, P, k, m, timeout, tier); }
    InTurnKeeps(others, P, stop, k, m, tiers, |tiers|);
  }

  /**
   * All that a step itself changes: on its turn, a process that runs and has
   * its kill handle is stopping and has it no more.
   */
  lemma AStepStopsAtMostOne(others: Others, k: nat, m: Moment, timeout: map<string, nat>, tiers: seq<seq<string>>,
                            x: nat, n: string)
    requires var t := Trace(others, k, m, timeout, tiers); x < |t| && n in t[x].seen.procs
    ensures var e := Trace(others, k, m, timeout, tiers)[x]; var p := e.seen.procs[n];
      && e.After().clock == e.seen.clock && n in e.After().procs
      && e.After().procs[n] ==
           if IsTurn(e) && e.name == n && p.state == Running && p.killHandle then Member(Stopping, false, p.late) else p
  {
  }

  /** Each process has one turn, tier after tier, and in order within a tier. */
  lemma {:induction false} EachHasOneTurn(others: Others, k: nat, m: Moment, g: Graph, timeout: map<string, nat>,
                                          tiers: seq<seq<string>>)
    requires Partition(g, tiers)
    ensures var turns := Turns(Trace(others, k, m, timeout, tiers));
      turns == Flatten(tiers, |tiers|) && NoRepeats(turns) && forall n :: n in turns <==> n in g
  {
    var stop := Stopper(others, timeout);
    forall k: nat, m, a: nat ensures TakesTurns(stop, k, m, tiers, a) {
      if a < |tiers| { TierTurns(others, k, m, timeout, tiers[a]); }
    }
    InTurnTurns(stop, k, m, tiers, |tiers|);
    FlattenOnce(g, tiers, |tiers|);
    forall n ensures n in Flatten(tiers, |tiers|) <==> n in g {
      FlattenHas(tiers, |tiers|, n);
      assert n in g ==> HasTier(tiers, n);
    }
  }

  /**
   * In tiers with dependents first, as every plan of an acyclic graph has
   * them: between the turn of a process and that of anything it depends on, it
   * was seen to be gone, or all the time its tier may take was over.
   */
  lemma DependentsGoneFirst(
    others: Others, k: nat, m: Moment, g: Graph, timeout: map<string, nat>, tiers: seq<seq<string>>, i: nat, j: nat)
    requires Partition(g, tiers) && DependentsFirst(g, tiers) && timeout.Keys == g.Keys
    requires var t := Trace(others, k, m, timeout, tiers);
      i < |t| && j < |t| && IsTurn(t[i]) && IsTurn(t[j]) && DependsOn(g, t[i].name, t[j].name)
    ensures i < j && SeenThrough(timeout, tiers, Trace(others, k, m, timeout, tiers), i, j)
  {
    var t := Trace(others, k, m, timeout, tiers);
    var (stop, due) := (Stopper(others, timeout), Due(timeout, tiers));
    AllStopWell(others, g, timeout, tiers);
    assert t[i].name in g by { var p :| IsPath(g, p) && |p| >= 2 && p[0] == t[i].name && p[|p| - 1] == t[j].name; }
    InOrder(others, k, m, g, timeout, tiers, i, j);
    InTurnInOrder(due, stop, k, m, tiers, |tiers|, i, j);
    SettledIsSeenThrough(g, timeout, tiers, t, i, j);
  }

  /** Every process whose turn came is seen gone, or all the time its tier may take is over, before the call is. */
  lemma {:induction false} StopsAreSeenThrough(
    others: Others, k: nat, m: Moment, g: Graph, timeout: map<string, nat>, tiers: seq<seq<string>>, i: nat)
    requires Partition(g, tiers) && timeout.Keys == g.Keys
    requires var t := Trace(others, k, m, timeout, tiers); i < |t| && IsTurn(t[i])
    ensures var t := Trace(others, k, m, timeout, tiers); SeenThrough(timeout, tiers, t, i, |t|)
  {
    var t := Trace(others, k, m, timeout, tiers);
    AllStopWell(others, g, timeout, tiers);
    TurnIsListed(t, i);
    EachHasOneTurn(others, k, m, g, timeout, tiers);
    InTurnSettles(Due(timeout, tiers), Stopper(others, timeout), k, m, tiers, |tiers|, i);
    SettledIsSeenThrough(g, timeout, tiers, t, i, |t|);
  }

  /**
   * And it waits no longer than that: it sleeps only when a process of the
   * tier was just seen stopping and the clock had not reached the time of one
   * of the tier, its stop timeout and two seconds.
   */
  lemma NoNeedlessSleep(
    others: Others, k: nat, m: Moment, g: Graph, timeout: map<string, nat>, tiers: seq<seq<string>>, l: nat)
    requires Partition(g, tiers) && timeout.Keys == g.Keys
    requires var t := Trace(others, k, m, timeout, tiers); l < |t| && t[l].Nap?
    ensures exists a :: 0 <= a < |tiers| && Needed(timeout, tiers[a], Trace(others, k, m, timeout, tiers), l)
  {
    var stop := Stopper(others, timeout);
    forall k: nat, m, a: nat, l: nat ensures SleepsWell(timeout, stop, k, m, tiers, a, l) {
      if a < |tiers| {
        forall n | n in tiers[a] ensures n in timeout { assert InTier(tiers, a, n); }
        TierSleepsWell(others, k, m, timeout, tiers[a], l);
      }
    }
    InTurnSleepsWell(timeout, stop, k, m, tiers, |tiers|, l);
  }

  /**
   * Against others that start it again only by spawns under way when shutdown
   * began, a process that can be up no more than once is not up when something
   * it depends on is sent its stop, or all the time its tier may take is over.
   */
  lemma DependentsAreGone(
    others: Others, k: nat, m: Moment, g: Graph, timeout: map<string, nat>, tiers: seq<seq<string>>, i: nat, j: nat)
    requires Partition(g, tiers) && DependentsFirst(g, tiers) && timeout.Keys == g.Keys && Lawful(others)
    requires var t := Trace(others, k, m, timeout, tiers);
      && i < |t| && j < |t| && t[i].Sent() && t[j].Sent() && DependsOn(g, t[i].name, t[j].name)
      && LifeAt(m, t[i].name).Left() <= 1 && !TierTimeUpBetween(timeout, tiers, t, i, j)
    ensures var t := Trace(others, k, m, timeout, tiers); !IsUp(LifeAt(t[j].seen, t[i].name).state)
  {
    DependentsGoneFirst(others, k, m, g, timeout, tiers, i, j);
    TraceIsChained(others, k, m, timeout, tiers);
    GoneAt(others, k, m, timeout, tiers, Trace(others, k, m, timeout, tiers), i, j);
  }

  /**
   * A process is gone before anything it depends on is sent its stop, whatever
   * others that keep to that do, its tier's deadline apart, if and only if it
   * can be up no more than once or the other not at all. Of two that run when
   * shutdown begins: if and only if no spawn of the first is under way then.
   */
  lemma OrderIsKeptIff(m: Moment, g: Graph, timeout: map<string, nat>, tiers: seq<seq<string>>, u: string, v: string)
    requires Partition(g, tiers) && DependentsFirst(g, tiers) && timeout.Keys == g.Keys == m.procs.Keys
    requires DependsOn(g, u, v)
    ensures KeepsOrder(timeout, tiers, m, u, v) <==> LifeAt(m, u).Left() <= 1 || LifeAt(m, v).Left() == 0
    ensures LifeAt(m, u).state == Running && LifeAt(m, v).state == Running ==>
      (KeepsOrder(timeout, tiers, m, u, v) <==> LifeAt(m, u).late == 0)
  {
    if LifeAt(m, u).Left() <= 1 || LifeAt(m, v).Left() == 0 {
      forall others: Others, k: nat, i: nat, j: nat | Lawful(others)
        ensures IsGoneBy(timeout, tiers, Trace(others, k, m, timeout, tiers), i, j, u, v)
      {
        OrderIsKept(others, k, m, g, timeout, tiers, u, v, i, j);
      }
    } else {
      OrderIsBroken(m, g, timeout, tiers, u, v);
    }
  }

  /** All the sleeping of a shutdown is within its budget, and less than one poll a tier. */
  lemma ShutdownIsWithinBudget(others: Others, k: nat, m: Moment, timeout: map<string, nat>, tiers: seq<seq<string>>)
    ensures Slept(Trace(others, k, m, timeout, tiers)) <= 1000 * BudgetSecs(timeout, tiers) + 49 * |tiers|
  {
    var stop := Stopper(others, timeout);
    SleptCounts();
    forall k: nat, m, tier ensures SleepsWithin(Slept, timeout, stop, k, m, tier) {
      StopperSleepsWithin(Slept, others, k, m, timeout, tier);
    }
    InTurnSleeps(Slept, timeout, stop, k, m, tiers, |tiers|);
  }

  // -------------------------------------------------------- the methods' steps

  /** These steps lead from the one moment to the other. */
  predicate Led(k: nat, m: Moment, trace: seq<Event>, k': nat, m': Moment) {
    k' == k + |trace| && m' == Last(m, trace)
  }

  lemma LedOn(k: nat, m: Moment, a: seq<Event>, k': nat, m': Moment, b: seq<Event>, k'': nat, m'': Moment)
    requires Led(k, m, a, k', m') && Led(k', m', b, k'', m'')
    ensures Led(k, m, a + b, k'', m'')
  {
    if b == [] { assert a + b == a; }
  }

  /** The first `j` of a pass have been made, and led here. */
  predicate Passing(others: Others, k: nat, m: Moment, tier: seq<string>, turn: bool, j: nat, trace: seq<Event>,
                    k': nat, m': Moment) {
    j <= |tier| && trace == PassTo(others, k, m, tier, turn, j) && Led(k, m, trace, k', m')
  }

  lemma OneMoreLook(others: Others, k: nat, m: Moment, tier: seq<string>, turn: bool, j: nat, trace: seq<Event>,
                    k': nat, m': Moment, e: Event)
    requires Passing(others, k, m, tier, turn, j, trace, k', m') && j < |tier|
    requires e == Look(tier[j], turn, others(k', m', 0))
    ensures Passing(others, k, m, tier, turn, j + 1, trace + [e], k' + 1, e.After())
  {
  }

  lemma OneMoreTier(stop: Stop, k: nat, m: Moment, tiers: seq<seq<string>>, i: nat,
                    trace: seq<Event>, k': nat, m': Moment, t: seq<Event>)
    requires i < |tiers| && trace == InTurn(stop, k, m, tiers, i)
    requires Led(k, m, trace, k', m') && t == stop(k', m', tiers[i])
    ensures trace + t == InTurn(stop, k, m, tiers, i + 1)
  {
  }

  lemma WaitedFrom(others: Others, k: nat, m: Moment, look: Round, allowed: nat,
                   k': nat, r: Moment, deadline: nat, w: seq<Event>, k'': nat, m'': Moment)
    requires k' == k + 1 && r == others(k, m, 0) && deadline == r.clock + allowed
    requires w == Wait(others, k', r, look, deadline) && Led(k', r, w, k'', m'')
    ensures [Read(r)] + w == Waited(others, k, m, look, allowed) && Led(k, m, [Read(r)] + w, k'', m'')
  {
    LedOn(k, m, [Read(r)], k', r, w, k'', m'');
  }

  lemma NoRound(others: Others, k: nat, m: Moment, look: Round, deadline: nat, pass: seq<Event>)
    requires pass == look(k, m) && !AnyStopping(pass)
    ensures Wait(others, k, m, look, deadline) == pass
  {
  }

  lemma RoundEnds(others: Others, k: nat, m: Moment, look: Round, deadline: nat, pass: seq<Event>, l: Moment, r: Moment)
    requires pass == look(k, m) && AnyStopping(pass) && l == Last(m, pass) && r == others(k + |pass|, l, 0)
    requires r.clock >= deadline
    ensures Wait(others, k, m, look, deadline) == pass + [Read(r)]
  {
  }

  lemma RoundGoesOn(others: Others, k: nat, m: Moment, look: Round, deadline: nat, pass: seq<Event>, l: Moment,
                    r: Moment, z: Moment, next: nat)
    requires pass == look(k, m) && AnyStopping(pass) && l == Last(m, pass) && next == k + |pass| + 2
    requires r == others(k + |pass|, l, 0) && r.clock < deadline && z == others(k + |pass| + 1, r, POLL_MS)
    ensures Wait(others, k, m, look, deadline) == pass + [Read(r), Nap(z)] + Wait(others, next, z, look, deadline)
  {
  }

  lemma InOneGo(a: seq<Event>, b: seq<Event>, c: seq<Event>)
    ensures a + (b + c) == a + b + c
  {
  }

  lemma OneMoreStopping(trace: seq<Event>, e: Event)
    ensures AnyStopping(trace + [e]) <==> AnyStopping(trace) || e.SeenStopping()
  {
    assert (trace + [e])[..|trace|] == trace;
  }

  lemma TurnsThenWait(turns: Round, look: Round, others: Others, k: nat, m: Moment, allowed: nat, t: seq<Event>,
                      k': nat, m': Moment, w: seq<Event>)
    requires t == turns(k, m) && Led(k, m, t, k', m') && w == Waited(others, k', m', look, allowed)
    ensures t + w == ThenWait(turns, look, others, k, m, allowed)
  {
  }

  // ------------------------------------------------- what every trace keeps

  predicate IsTurn(e: Event) { e.Look? && e.turn }

  /** Each step sees what the others made of what the step before left: nobody else has a hand in it. */
  predicate Chained(others: Others, k: nat, m: Moment, trace: seq<Event>) {
    trace == [] ||
      var (init, last) := (trace[..|trace| - 1], trace[|trace| - 1]);
      Chained(others, k, m, init) && last.seen == others(k + |init|, Last(m, init), last.Ms())
  }

  lemma {:induction false} ChainOn(others: Others, k: nat, m: Moment, a: seq<Event>, b: seq<Event>)
    requires Chained(others, k, m, a) && Chained(others, k + |a|, Last(m, a), b)
    ensures Chained(others, k, m, a + b)
  {
    if b == [] {
      assert a + b == a;
    } else {
      var n := |b| - 1;
      assert (a + b)[..|a + b| - 1] == a + b[..n];
      ChainOn(others, k, m, a, b[..n]);
      LastJoined(m, a, b[..n]);
    }
  }

  lemma LastJoined(m: Moment, a: seq<Event>, b: seq<Event>)
    ensures Last(m, a + b) == Last(Last(m, a), b)
  {
    if b == [] { assert a + b == a; }
  }

  // What holds of single steps and of one trace after another holds of all that `StopAll` does.

  type Property = (nat, Moment, seq<Event>) -> bool

  predicate OfOne(others: Others, P: Property, turns: bool, k: nat, m: Moment, e: Event) {
    e.seen == others(k, m, e.Ms()) && (IsTurn(e) ==> turns) ==> P(k, m, [e])
  }

  predicate OfBoth(P: Property, k: nat, m: Moment, a: seq<Event>, b: seq<Event>) {
    P(k, m, a) && P(k + |a|, Last(m, a), b) ==> P(k, m, a + b)
  }

  ghost predicate Kept(others: Others, P: Property, turns: bool) {
    && (forall k, m :: P(k, m, []))
    && (forall k, m, e :: OfOne(others, P, turns, k, m, e))
    && (forall k, m, a, b :: OfBoth(P, k, m, a, b))
  }

  lemma AddOne(others: Others, P: Property, turns: bool, k: nat, m: Moment, a: seq<Event>, e: Event)
    requires Kept(others, P, turns) && P(k, m, a)
    requires e.seen == others(k + |a|, Last(m, a), e.Ms()) && (IsTurn(e) ==> turns)
    ensures P(k, m, a + [e])
  {
    assert OfOne(others, P, turns, k + |a|, Last(m, a), e);
    assert OfBoth(P, k, m, a, [e]);
  }

  lemma AddAll(others: Others, P: Property, turns: bool, k: nat, m: Moment, a: seq<Event>, b: seq<Event>)
    requires Kept(others, P, turns) && P(k, m, a) && P(k + |a|, Last(m, a), b)
    ensures P(k, m, a + b)
  {
    assert OfBoth(P, k, m, a, b);
  }

  lemma OneLookKeeps(others: Others, P: Property, turns: bool, k: nat, m: Moment, tier: seq<string>, turn: bool, n: nat)
    requires Kept(others, P, turns) && 0 < n <= |tier| && (turn ==> turns)
    requires P(k, m, PassTo(others, k, m, tier, turn, n - 1))
    ensures P(k, m, PassTo(others, k, m, tier, turn, n))
  {
    var init := PassTo(others, k, m, tier, turn, n - 1);
    AddOne(others, P, turns, k, m, init, Look(tier[n - 1], turn, others(k + |init|, Last(m, init), 0)));
  }

  lemma {:induction false} PassKeeps(
    others: Others, P: Property, turns: bool, k: nat, m: Moment, tier: seq<string>, turn: bool, n: nat)
    requires Kept(others, P, turns) && n <= |tier| && (turn ==> turns)
    ensures P(k, m, PassTo(others, k, m, tier, turn, n))
  {
    if n > 0 {
      PassKeeps(others, P, turns, k, m, tier, turn, n - 1);
      OneLookKeeps(others, P, turns, k, m, tier, turn, n);
    }
  }

  lemma RoundKeeps(others: Others, P: Property, turns: bool, k: nat, m: Moment, pass: seq<Event>, r: Moment, z: Moment,
                   rest: seq<Event>)
    requires Kept(others, P, turns) && P(k, m, pass) && r == others(k + |pass|, Last(m, pass), 0)
    requires z == others(k + |pass| + 1, r, POLL_MS) && P(k + |pass| + 2, z, rest)
    ensures P(k, m, pass + [Read(r), Nap(z)] + rest)
  {
    AddOne(others, P, turns, k, m, pass, Read(r));
    AddOne(others, P, turns, k, m, pass + [Read(r)], Nap(z));
    assert pass + [Read(r)] + [Nap(z)] == pass + [Read(r), Nap(z)];
    AddAll(others, P, turns, k, m, pass + [Read(r), Nap(z)], rest);
  }

  lemma OneRoundKeeps(others: Others, P: Property, turns: bool, k: nat, m: Moment, look: Round, deadline: nat,
                      pass: seq<Event>, r: Moment, z: Moment)
    requires Kept(others, P, turns) && pass == look(k, m) && AnyStopping(pass) && P(k, m, pass)
    requires r == others(k + |pass|, Last(m, pass), 0) && r.clock < deadline && z == others(k + |pass| + 1, r, POLL_MS)
    requires P(k + |pass| + 2, z, Wait(others, k + |pass| + 2, z, look, deadline))
    ensures P(k, m, Wait(others, k, m, look, deadline))
  {
    RoundGoesOn(others, k, m, look, deadline, pass, Last(m, pass), r, z, k + |pass| + 2);
    RoundKeeps(others, P, turns, k, m, pass, r, z, Wait(others, k + |pass| + 2, z, look, deadline));
  }

  predicate OfLook(look: Round, P: Property, k: nat, m: Moment) { P(k, m, look(k, m)) }

  lemma LastRoundKeeps(others: Others, P: Property, turns: bool, k: nat, m: Moment, look: Round, deadline: nat,
                       pass: seq<Event>, r: Moment)
    requires Kept(others, P, turns) && pass == look(k, m) && AnyStopping(pass) && P(k, m, pass)
    requires r == others(k + |pass|, Last(m, pass), 0) && r.clock >= deadline
    ensures P(k, m, Wait(others, k, m, look, deadline))
  {
    AddOne(others, P, turns, k, m, pass, Read(r));
  }

  lemma {:induction false} WaitKeeps(others: Others, P: Property, turns: bool, k: nat, m: Moment, look: Round,
                                     deadline: nat)
    requires Kept(others, P, turns) && forall k, m :: OfLook(look, P, k, m)
    ensures P(k, m, Wait(others, k, m, look, deadline))
    decreases if deadline > m.clock then deadline - m.clock else 0
  {
    var pass := look(k, m);
    assert OfLook(look, P, k, m);
    if AnyStopping(pass) {
      var r := others(k + |pass|, Last(m, pass), 0);
      if r.clock < deadline {
        var z := others(k + |pass| + 1, r, POLL_MS);
        WaitKeeps(others, P, turns, k + |pass| + 2, z, look, deadline);
        OneRoundKeeps(others, P, turns, k, m, look, deadline, pass, r, z);
      } else {
        LastRoundKeeps(others, P, turns, k, m, look, deadline, pass, r);
      }
    }
  }

  lemma ReadFirst(others: Others, P: Property, turns: bool, k: nat, m: Moment, r: Moment, rest: seq<Event>)
    requires Kept(others, P, turns) && r == others(k, m, 0) && P(k + 1, r, rest)
    ensures P(k, m, [Read(r)] + rest)
  {
    assert OfOne(others, P, turns, k, m, Read(r));
    AddAll(others, P, turns, k, m, [Read(r)], rest);
  }

  lemma WaitedKeeps(others: Others, P: Property, turns: bool, k: nat, m: Moment, look: Round, allowed: nat)
    requires Kept(others, P, turns) && forall k, m :: OfLook(look, P, k, m)
    ensures P(k, m, Waited(others, k, m, look, allowed))
  {
    var r := others(k, m, 0);
    WaitKeeps(others, P, turns, k + 1, r, look, r.clock + allowed);
    ReadFirst(others, P, turns, k, m, r, Wait(others, k + 1, r, look, r.clock + allowed));
  }

  lemma LooksKeep(others: Others, P: Property, turns: bool, tier: seq<string>)
    requires Kept(others, P, turns)
    ensures forall k, m :: OfLook(Passer(others, tier, false), P, k, m)
  {
    forall k: nat, m ensures OfLook(Passer(others, tier, false), P, k, m) {
      PassKeeps(others, P, turns, k, m, tier, false, |tier|);
    }
  }

  lemma ThenWaitKeeps(others: Others, P: Property, turns: Round, look: Round, k: nat, m: Moment, allowed: nat)
    requires Kept(others, P, true) && OfLook(turns, P, k, m) && forall k, m :: OfLook(look, P, k, m)
    ensures P(k, m, ThenWait(turns, look, others, k, m, allowed))
  {
    var t := turns(k, m);
    WaitedKeeps(others, P, true, k + |t|, Last(m, t), look, allowed);
    AddAll(others, P, true, k, m, t, Waited(others, k + |t|, Last(m, t), look, allowed));
  }

  lemma TierKeeps(others: Others, P: Property, k: nat, m: Moment, timeout: map<string, nat>, tier: seq<string>)
    requires Kept(others, P, true)
    ensures P(k, m, TierTrace(others, k, m, timeout, tier))
  {
    PassKeeps(others, P, true, k, m, tier, true, |tier|);
    LooksKeep(others, P, true, tier);
    ThenWaitKeeps(others, P, Passer(others, tier, true), Passer(others, tier, false), k, m, Allowed(timeout, tier));
  }

  predicate OfStop(stop: Stop, P: Property, k: nat, m: Moment, tier: seq<string>) {
    P(k, m, stop(k, m, tier))
  }

  lemma {:induction false} InTurnKeeps(others: Others, P: Property, stop: Stop, k: nat, m: Moment,
                                       tiers: seq<seq<string>>, n: nat)
    requires Kept(others, P, true) && n <= |tiers| && forall k, m, tier :: OfStop(stop, P, k, m, tier)
    ensures P(k, m, InTurn(stop, k, m, tiers, n))
  {
    if n > 0 {
      var init := InTurn(stop, k, m, tiers, n - 1);
      InTurnKeeps(others, P, stop, k, m, tiers, n - 1);
      assert OfStop(stop, P, k + |init|, Last(m, init), tiers[n - 1]);
      AddAll(others, P, true, k, m, init, stop(k + |init|, Last(m, init), tiers[n - 1]));
    }
  }

  lemma ChainIsKept(others: Others, P: Property)
    requires forall k, m, t :: P(k, m, t) == Chained(others, k, m, t)
    ensures Kept(others, P, true)
  {
    forall k: nat, m, a, b ensures OfBoth(P, k, m, a, b) {
      if Chained(others, k, m, a) && Chained(others, k + |a|, Last(m, a), b) { ChainOn(others, k, m, a, b); }
    }
    forall k: nat, m, e ensures OfOne(others, P, true, k, m, e) {
      assert [e][..0] == [];
      assert Chained(others, k, m, []);
    }
  }

  // ------------------------------------------------------------------ turns

  /** Whose turns these are, one after the other. */
  function Turns(trace: seq<Event>): seq<string> {
    if trace == [] then []
    else
      var (init, last) := (trace[..|trace| - 1], trace[|trace| - 1]);
      if IsTurn(last) then Turns(init) + [last.name] else Turns(init)
  }

  lemma {:induction false} TurnsOn(a: seq<Event>, b: seq<Event>)
    ensures Turns(a + b) == Turns(a) + Turns(b)
  {
    if b == [] {
      assert a + b == a;
    } else {
      var n := |b| - 1;
      assert (a + b)[..|a + b| - 1] == a + b[..n];
      TurnsOn(a, b[..n]);
    }
  }

  /** A turn comes after the turns before it. */
  lemma {:induction false} TurnComes(trace: seq<Event>, i: nat)
    requires i < |trace| && IsTurn(trace[i])
    ensures Turns(trace[..i]) + [trace[i].name] <= Turns(trace)
  {
    var n := |trace| - 1;
    if i < n {
      TurnComes(trace[..n], i);
      assert trace[..n][..i] == trace[..i];
    }
  }

  /** The place of a turn among the turns. */
  lemma TurnPlace(trace: seq<Event>, i: nat) returns (place: nat)
    requires i < |trace| && IsTurn(trace[i])
    ensures place == |Turns(trace[..i])| < |Turns(trace)| && Turns(trace)[place] == trace[i].name
  {
    TurnComes(trace, i);
    place := |Turns(trace[..i])|;
  }

  lemma LaterTurnLaterPlace(trace: seq<Event>, i: nat, j: nat)
    requires i < j <= |trace| && IsTurn(trace[i])
    ensures |Turns(trace[..i])| < |Turns(trace[..j])|
  {
    TurnComes(trace[..j], i);
    assert trace[..j][..i] == trace[..i];
  }

  lemma {:induction false} OneTurnEach(trace: seq<Event>, i: nat, j: nat)
    requires NoRepeats(Turns(trace)) && i < j < |trace| && IsTurn(trace[i]) && IsTurn(trace[j])
    ensures trace[i].name != trace[j].name
  {
    var a := TurnPlace(trace, i);
    var b := TurnPlace(trace, j);
    LaterTurnLaterPlace(trace, i, j);
  }

  lemma OneTurn(e: Event)
    ensures Turns([e]) == if IsTurn(e) then [e.name] else []
  {
    assert [e][..0] == [];
  }

  lemma {:induction false} LooksTurns(t: seq<Event>, names: seq<string>, turn: bool)
    requires |t| == |names| && forall i :: 0 <= i < |t| ==> t[i].Look? && t[i].turn == turn && t[i].name == names[i]
    ensures Turns(t) == if turn then names else []
  {
    if t != [] {
      var n := |t| - 1;
      LooksTurns(t[..n], names[..n], turn);
      assert names == names[..n] + [names[n]];
    }
  }

  lemma PassTurns(others: Others, k: nat, m: Moment, tier: seq<string>, turn: bool)
    ensures Turns(Pass(others, k, m, tier, turn)) == if turn then tier else []
  {
    var t := Pass(others, k, m, tier, turn);
    PassIsLooks(others, k, m, tier, turn);
    LooksTurns(t, tier, turn);
  }

  ghost predicate NoTurns(look: Round, k: nat, m: Moment) { Turns(look(k, m)) == [] }

  lemma WaitHasNoTurns(others: Others, k: nat, m: Moment, look: Round, allowed: nat)
    requires forall k, m :: NoTurns(look, k, m)
    ensures Turns(Waited(others, k, m, look, allowed)) == []
  {
    var P := (k: nat, m: Moment, t: seq<Event>) => Turns(t) == [];
    forall k: nat, m, e ensures OfOne(others, P, false, k, m, e) { OneTurn(e); }
    forall k: nat, m, a, b ensures OfBoth(P, k, m, a, b) { TurnsOn(a, b); }
    forall k: nat, m ensures OfLook(look, P, k, m) { assert NoTurns(look, k, m); }
    WaitedKeeps(others, P, false, k, m, look, allowed);
  }

  lemma ThenWaitTurns(turns: Round, look: Round, others: Others, k: nat, m: Moment, allowed: nat)
    requires forall k, m :: NoTurns(look, k, m)
    ensures Turns(ThenWait(turns, look, others, k, m, allowed)) == Turns(turns(k, m))
  {
    var t := turns(k, m);
    WaitHasNoTurns(others, k + |t|, Last(m, t), look, allowed);
    TurnsOn(t, Waited(others, k + |t|, Last(m, t), look, allowed));
  }

  lemma LooksTakeNoTurns(others: Others, tier: seq<string>)
    ensures forall k, m :: NoTurns(Passer(others, tier, false), k, m)
  {
    forall k: nat, m ensures NoTurns(Passer(others, tier, false), k, m) { PassTurns(others, k, m, tier, false); }
  }

  lemma TierTurns(others: Others, k: nat, m: Moment, timeout: map<string, nat>, tier: seq<string>)
    ensures Turns(TierTrace(others, k, m, timeout, tier)) == tier
  {
    LooksTakeNoTurns(others, tier);
    ThenWaitTurns(Passer(others, tier, true), Passer(others, tier, false), others, k, m, Allowed(timeout, tier));
    PassTurns(others, k, m, tier, true);
  }

  /** The tiers' names, one after the other. */
  function Flatten(tiers: seq<seq<string>>, n: nat): seq<string>
    requires n <= |tiers|
  {
    if n == 0 then [] else Flatten(tiers, n - 1) + tiers[n - 1]
  }

  ghost predicate TakesTurns(stop: Stop, k: nat, m: Moment, tiers: seq<seq<string>>, a: nat) {
    a < |tiers| ==> Turns(stop(k, m, tiers[a])) == tiers[a]
  }

  lemma {:induction false} InTurnTurns(stop: Stop, k: nat, m: Moment, tiers: seq<seq<string>>, n: nat)
    requires n <= |tiers| && forall k, m, a :: TakesTurns(stop, k, m, tiers, a)
    ensures Turns(InTurn(stop, k, m, tiers, n)) == Flatten(tiers, n)
  {
    if n > 0 {
      var init := InTurn(stop, k, m, tiers, n - 1);
      InTurnTurns(stop, k, m, tiers, n - 1);
      assert TakesTurns(stop, k + |init|, Last(m, init), tiers, n - 1);
      OneTierMore(init, stop(k + |init|, Last(m, init), tiers[n - 1]), tiers, n);
    }
  }

  lemma OneTierMore(init: seq<Event>, last: seq<Event>, tiers: seq<seq<string>>, n: nat)
    requires 0 < n <= |tiers| && Turns(init) == Flatten(tiers, n - 1) && Turns(last) == tiers[n - 1]
    ensures Turns(init + last) == Flatten(tiers, n)
  {
    TurnsOn(init, last);
  }

  lemma {:induction false} FlattenHas(tiers: seq<seq<string>>, n: nat, x: string)
    requires n <= |tiers|
    ensures x in Flatten(tiers, n) <==> exists i :: InTier(tiers, i, x) && i < n
  {
    if n > 0 {
      FlattenHas(tiers, n - 1, x);
      if x in tiers[n - 1] { assert InTier(tiers, n - 1, x); }
    }
  }

  lemma {:induction false} FlattenOnce(g: Graph, tiers: seq<seq<string>>, n: nat)
    requires Partition(g, tiers) && n <= |tiers|
    ensures NoRepeats(Flatten(tiers, n))
  {
    if n > 0 {
      FlattenOnce(g, tiers, n - 1);
      var (a, b) := (Flatten(tiers, n - 1), tiers[n - 1]);
      assert IsTier(tiers, n - 1);
      InOrderOnce(b);
      forall i, j | 0 <= i < |a| && 0 <= j < |b| ensures a[i] != b[j] {
        FlattenHas(tiers, n - 1, a[i]);
        assert InTier(tiers, n - 1, b[j]);
      }
    }
  }

  // --------------------------------------------------------- dependents first

  /** Looked at after its stop, and no longer stopping. */
  predicate Gone(e: Event, n: string) { e.Look? && !e.turn && e.name == n && !e.SeenStopping() }

  /**
   * At step `l` all the time is over that the tier of the process stopped at
   * step `i` may take: the stop timeout of each of the tier and two seconds,
   * since the clock was first read.
   */
  ghost predicate TierTimeUp(timeout: map<string, nat>, tiers: seq<seq<string>>, t: seq<Event>, i: nat, l: nat) {
    && i < l < |t| && t[i].Look? && t[l].Read?
    && var r := ReadAfter(t, i);
    && r < l
    && forall a, q :: InTier(tiers, a, t[i].name) && InTier(tiers, a, q) && q in timeout ==>
      t[l].seen.clock >= t[r].seen.clock + 1000 * (timeout[q] + 2)
  }

  /** Between the two steps the process of the first was seen to be gone, or its tier's time was over. */
  ghost predicate SeenThrough(timeout: map<string, nat>, tiers: seq<seq<string>>, t: seq<Event>, i: nat, j: nat) {
    && i < j <= |t| && t[i].Look?
    && exists l :: i < l < j && (Gone(t[l], t[i].name) || TierTimeUp(timeout, tiers, t, i, l))
  }

  lemma DueIsEnough(g: Graph, timeout: map<string, nat>, tiers: seq<seq<string>>, a: nat, n: string, q: string)
    requires Partition(g, tiers) && timeout.Keys == g.Keys && InTier(tiers, a, n) && InTier(tiers, a, q)
    ensures Due(timeout, tiers)[n] >= 1000 * (timeout[q] + 2)
  {
    TierOfIs(g, tiers, a, n, |tiers|);
    assert tiers[..|tiers|] == tiers;
    LongestIsLongest(timeout, tiers[a], |tiers[a]|);
    var i :| 0 <= i < |tiers[a]| && tiers[a][i] == q;
  }

  lemma SettledIsSeenThrough(g: Graph, timeout: map<string, nat>, tiers: seq<seq<string>>, t: seq<Event>, i: nat,
                             j: nat)
    requires Partition(g, tiers) && timeout.Keys == g.Keys && SettledBetween(Due(timeout, tiers), t, i, j)
    ensures SeenThrough(timeout, tiers, t, i, j)
  {
    var due := Due(timeout, tiers);
    var l :| i < l < j && Settles(due, t, i, l);
    if TimeUp(due, t, i, l) {
      forall a, q | InTier(tiers, a, t[i].name) && InTier(tiers, a, q) && q in timeout
        ensures t[l].seen.clock >= t[ReadAfter(t, i)].seen.clock + 1000 * (timeout[q] + 2)
      {
        DueIsEnough(g, timeout, tiers, a, t[i].name, q);
      }
      assert TierTimeUp(timeout, tiers, t, i, l);
    }
  }

  /** The tier of a process. */
  function TierOf(tiers: seq<seq<string>>, n: string): seq<string> {
    if tiers == [] then [] else if n in tiers[|tiers| - 1] then tiers[|tiers| - 1] else TierOf(tiers[..|tiers| - 1], n)
  }

  /** What each process is allowed: the longest timeout of its tier, and the slack. In ms. */
  function Due(timeout: map<string, nat>, tiers: seq<seq<string>>): map<string, nat> {
    map n | n in timeout :: Allowed(timeout, TierOf(tiers, n))
  }

  /** The first time the clock is read from step `i` on. */
  function ReadAfter(t: seq<Event>, i: nat): (r: nat)
    requires i <= |t|
    ensures i <= r <= |t| && (r < |t| ==> t[r].Read?) && forall x :: i <= x < r ==> !t[x].Read?
    decreases |t| - i
  {
    if i == |t| || t[i].Read? then i else ReadAfter(t, i + 1)
  }

  /**
   * At step `l` the clock is past the deadline of the process stopped at step
   * `i`: what it is allowed, from the clock reading that followed its tier's
   * turns.
   */
  predicate TimeUp(due: map<string, nat>, t: seq<Event>, i: nat, l: nat) {
    && i < l < |t| && t[i].Look? && t[i].name in due && t[l].Read?
    && var r := ReadAfter(t, i); r < l && t[l].seen.clock >= t[r].seen.clock + due[t[i].name]
  }

  predicate Settles(due: map<string, nat>, t: seq<Event>, i: nat, l: nat) {
    i < l < |t| && t[i].Look? && (Gone(t[l], t[i].name) || TimeUp(due, t, i, l))
  }

  /** After the `i`th step and before the `k`th, its process was seen gone or its tier's deadline passed. */
  ghost predicate SettledBetween(due: map<string, nat>, t: seq<Event>, i: nat, k: nat) {
    k <= |t| && exists l :: i < l < k && Settles(due, t, i, l)
  }

  ghost predicate Settled(due: map<string, nat>, t: seq<Event>, i: nat) {
    SettledBetween(due, t, i, |t|)
  }

  lemma {:induction false} ReadAfterLonger(a: seq<Event>, b: seq<Event>, i: nat)
    requires i <= |a| && ReadAfter(a, i) < |a|
    ensures ReadAfter(a + b, i) == ReadAfter(a, i)
    decreases |a| - i
  {
    if !a[i].Read? { ReadAfterLonger(a, b, i + 1); }
  }

  lemma {:induction false} ReadAfterLater(a: seq<Event>, b: seq<Event>, i: nat)
    requires i <= |b|
    ensures ReadAfter(a + b, |a| + i) == |a| + ReadAfter(b, i)
    decreases |b| - i
  {
    if i < |b| && !b[i].Read? { ReadAfterLater(a, b, i + 1); }
  }

  lemma SettlesLonger(due: map<string, nat>, a: seq<Event>, b: seq<Event>, i: nat, l: nat)
    requires Settles(due, a, i, l)
    ensures Settles(due, a + b, i, l)
  {
    assert (a + b)[i] == a[i] && (a + b)[l] == a[l];
    if TimeUp(due, a, i, l) {
      ReadAfterLonger(a, b, i);
      assert (a + b)[ReadAfter(a, i)] == a[ReadAfter(a, i)];
    }
  }

  lemma SettlesLater(due: map<string, nat>, a: seq<Event>, b: seq<Event>, i: nat, l: nat)
    requires Settles(due, b, i, l)
    ensures Settles(due, a + b, |a| + i, |a| + l)
  {
    assert (a + b)[|a| + i] == b[i] && (a + b)[|a| + l] == b[l];
    if TimeUp(due, b, i, l) {
      ReadAfterLater(a, b, i);
      assert (a + b)[|a| + ReadAfter(b, i)] == b[ReadAfter(b, i)];
    }
  }

  lemma {:induction false} PassLooks(others: Others, k: nat, m: Moment, tier: seq<string>, turn: bool, n: nat, i: nat)
    requires i < n <= |tier|
    ensures var e := PassTo(others, k, m, tier, turn, n)[i]; e.Look? && e.turn == turn && e.name == tier[i]
  {
    if i < n - 1 { PassLooks(others, k, m, tier, turn, n - 1, i); }
  }

  lemma {:induction false} NoneStopping(pass: seq<Event>, i: nat)
    requires !AnyStopping(pass) && i < |pass|
    ensures !pass[i].SeenStopping()
  {
    if i < |pass| - 1 { NoneStopping(pass[..|pass| - 1], i); }
  }

  /** `n` is seen gone, or the deadline seen passed. */
  ghost predicate Ends(t: seq<Event>, n: string, deadline: nat) {
    exists j :: 0 <= j < |t| && (Gone(t[j], n) || (t[j].Read? && t[j].seen.clock >= deadline))
  }

  lemma EndsLater(a: seq<Event>, b: seq<Event>, n: string, deadline: nat)
    requires Ends(b, n, deadline)
    ensures Ends(a + b, n, deadline)
  {
    var j :| 0 <= j < |b| && (Gone(b[j], n) || (b[j].Read? && b[j].seen.clock >= deadline));
    assert (a + b)[|a| + j] == b[j];
  }

  lemma PassEnds(others: Others, k: nat, m: Moment, tier: seq<string>, n: string, deadline: nat)
    requires n in tier && !AnyStopping(Pass(others, k, m, tier, false))
    ensures Ends(Pass(others, k, m, tier, false), n, deadline)
  {
    var pass := Pass(others, k, m, tier, false);
    var i :| 0 <= i < |tier| && tier[i] == n;
    PassLooks(others, k, m, tier, false, |tier|, i);
    NoneStopping(pass, i);
    assert Gone(pass[i], n);
  }

  lemma EndsLate(pass: seq<Event>, r: Moment, n: string, deadline: nat)
    requires r.clock >= deadline
    ensures Ends(pass + [Read(r)], n, deadline)
  {
    assert (pass + [Read(r)])[|pass|] == Read(r);
  }

  ghost predicate LookEnds(look: Round, n: string, deadline: nat, k: nat, m: Moment) {
    AnyStopping(look(k, m)) || Ends(look(k, m), n, deadline)
  }

  lemma {:induction false} LooksEnd(others: Others, tier: seq<string>, n: string)
    requires n in tier
    ensures forall d, k, m :: LookEnds(Passer(others, tier, false), n, d, k, m)
  {
    forall d: nat, k: nat, m ensures LookEnds(Passer(others, tier, false), n, d, k, m) {
      if !AnyStopping(Pass(others, k, m, tier, false)) { PassEnds(others, k, m, tier, n, d); }
    }
  }

  lemma OneRoundEnds(others: Others, k: nat, m: Moment, look: Round, deadline: nat, n: string, pass: seq<Event>,
                     r: Moment, z: Moment)
    requires pass == look(k, m) && AnyStopping(pass)
    requires r == others(k + |pass|, Last(m, pass), 0) && r.clock < deadline && z == others(k + |pass| + 1, r, POLL_MS)
    requires Ends(Wait(others, k + |pass| + 2, z, look, deadline), n, deadline)
    ensures Ends(Wait(others, k, m, look, deadline), n, deadline)
  {
    RoundGoesOn(others, k, m, look, deadline, pass, Last(m, pass), r, z, k + |pass| + 2);
    EndsLater(pass + [Read(r), Nap(z)], Wait(others, k + |pass| + 2, z, look, deadline), n, deadline);
  }

  lemma {:induction false} WaitEnds(others: Others, k: nat, m: Moment, look: Round, deadline: nat, n: string)
    requires forall k, m :: LookEnds(look, n, deadline, k, m)
    ensures Ends(Wait(others, k, m, look, deadline), n, deadline)
    decreases if deadline > m.clock then deadline - m.clock else 0
  {
    var pass := look(k, m);
    assert LookEnds(look, n, deadline, k, m);
    if AnyStopping(pass) {
      var r := others(k + |pass|, Last(m, pass), 0);
      if r.clock < deadline {
        var z := others(k + |pass| + 1, r, POLL_MS);
        WaitEnds(others, k + |pass| + 2, z, look, deadline, n);
        OneRoundEnds(others, k, m, look, deadline, n, pass, r, z);
      } else {
        EndsLate(pass, r, n, deadline);
        RoundEnds(others, k, m, look, deadline, pass, Last(m, pass), r);
      }
    }
  }

  lemma {:induction false} NoReadAmongTurns(t: seq<Event>, n: nat, i: nat)
    requires i <= n <= |t| && (forall x :: i <= x < n ==> !t[x].Read?) && (n < |t| ==> t[n].Read?)
    ensures ReadAfter(t, i) == n
    decreases n - i
  {
    if i < n { NoReadAmongTurns(t, n, i + 1); }
  }

  /** The clock is read, and after it `n` seen gone or as much time passed as is allowed. */
  ghost predicate EndsAfterRead(w: seq<Event>, n: string, allowed: nat) {
    && w != [] && w[0].Read?
    && exists j :: 0 < j < |w| && (Gone(w[j], n) || (w[j].Read? && w[j].seen.clock >= w[0].seen.clock + allowed))
  }

  lemma ReadThenEnds(r: Moment, w: seq<Event>, n: string, allowed: nat)
    requires Ends(w, n, r.clock + allowed)
    ensures EndsAfterRead([Read(r)] + w, n, allowed)
  {
    var j :| 0 <= j < |w| && (Gone(w[j], n) || (w[j].Read? && w[j].seen.clock >= r.clock + allowed));
    assert ([Read(r)] + w)[j + 1] == w[j];
  }

  lemma WaitedEnds(others: Others, k: nat, m: Moment, look: Round, allowed: nat, n: string)
    requires forall d, k, m :: LookEnds(look, n, d, k, m)
    ensures EndsAfterRead(Waited(others, k, m, look, allowed), n, allowed)
  {
    var r := others(k, m, 0);
    WaitEnds(others, k + 1, r, look, r.clock + allowed, n);
    ReadThenEnds(r, Wait(others, k + 1, r, look, r.clock + allowed), n, allowed);
  }

  lemma SettledByTheWait(due: map<string, nat>, turns: seq<Event>, w: seq<Event>, i: nat)
    requires i < |turns| && forall x :: 0 <= x < |turns| ==> turns[x].Look?
    requires turns[i].name in due && EndsAfterRead(w, turns[i].name, due[turns[i].name])
    ensures Settled(due, turns + w, i)
  {
    var (t, n) := (turns + w, |turns|);
    var deadline := w[0].seen.clock + due[turns[i].name];
    assert t[n] == w[0] && t[i] == turns[i];
    forall x | 0 <= x < n ensures !t[x].Read? { assert t[x] == turns[x]; }
    NoReadAmongTurns(t, n, i);
    var j :| 0 < j < |w| && (Gone(w[j], turns[i].name) || (w[j].Read? && w[j].seen.clock >= deadline));
    assert t[n + j] == w[j];
    assert Settles(due, t, i, n + j);
  }

  lemma PassIsLooks(others: Others, k: nat, m: Moment, tier: seq<string>, turn: bool)
    ensures forall i :: 0 <= i < |tier| ==>
      var e := Pass(others, k, m, tier, turn)[i]; e.Look? && e.turn == turn && e.name == tier[i]
  {
    forall i | 0 <= i < |tier|
      ensures var e := Pass(others, k, m, tier, turn)[i]; e.Look? && e.turn == turn && e.name == tier[i]
    {
      PassLooks(others, k, m, tier, turn, |tier|, i);
    }
  }

  lemma ThenWaitSettles(turns: Round, look: Round, others: Others, k: nat, m: Moment, allowed: nat,
                        due: map<string, nat>, t: seq<Event>, l: Moment, i: nat)
    requires t == turns(k, m) && l == Last(m, t) && forall x :: 0 <= x < |t| ==> t[x].Look?
    requires i < |t| && t[i].name in due
    requires EndsAfterRead(Waited(others, k + |t|, l, look, allowed), t[i].name, due[t[i].name])
    ensures Settled(due, ThenWait(turns, look, others, k, m, allowed), i)
  {
    SettledByTheWait(due, t, Waited(others, k + |t|, l, look, allowed), i);
  }

  lemma TierSettles(others: Others, k: nat, m: Moment, timeout: map<string, nat>, due: map<string, nat>,
                    tier: seq<string>, i: nat)
    requires i < |tier| && tier[i] in due && due[tier[i]] == Allowed(timeout, tier)
    ensures Settled(due, TierTrace(others, k, m, timeout, tier), i)
  {
    var look := Passer(others, tier, false);
    var turns := Pass(others, k, m, tier, true);
    PassIsLooks(others, k, m, tier, true);
    LooksEnd(others, tier, tier[i]);
    WaitedEnds(others, k + |turns|, Last(m, turns), look, Allowed(timeout, tier), tier[i]);
    ThenWaitSettles(Passer(others, tier, true), look, others, k, m, Allowed(timeout, tier), due, turns,
                    Last(m, turns), i);
  }

  /** A stop that gives each of a tier its turn, and goes on until each is settled. */
  ghost predicate StopsWell(due: map<string, nat>, stop: Stop, k: nat, m: Moment, tier: seq<string>) {
    var t := stop(k, m, tier);
    Turns(t) == tier && forall i :: 0 <= i < |t| && IsTurn(t[i]) && t[i].name in due ==> Settled(due, t, i)
  }

  /** And so each of the tiers. */
  ghost predicate StopsAllWell(due: map<string, nat>, stop: Stop, tiers: seq<seq<string>>) {
    forall k, m, a :: StopsWellAt(due, stop, k, m, tiers, a)
  }

  ghost predicate StopsWellAt(due: map<string, nat>, stop: Stop, k: nat, m: Moment, tiers: seq<seq<string>>, a: nat) {
    a < |tiers| ==> StopsWell(due, stop, k, m, tiers[a])
  }

  lemma StopperStopsWell(others: Others, k: nat, m: Moment, timeout: map<string, nat>, due: map<string, nat>,
                         tier: seq<string>)
    requires forall n :: n in tier && n in due ==> due[n] == Allowed(timeout, tier)
    ensures StopsWell(due, Stopper(others, timeout), k, m, tier)
  {
    var t := TierTrace(others, k, m, timeout, tier);
    TierTurns(others, k, m, timeout, tier);
    forall i | 0 <= i < |t| && IsTurn(t[i]) && t[i].name in due ensures Settled(due, t, i) {
      LooksTakeNoTurns(others, tier);
      TurnIsInThePass(Passer(others, tier, true), Passer(others, tier, false), others, k, m, Allowed(timeout, tier), i);
      PassLooks(others, k, m, tier, true, |tier|, i);
      TierSettles(others, k, m, timeout, due, tier, i);
    }
  }

  lemma {:induction false} TierOfIs(g: Graph, tiers: seq<seq<string>>, a: nat, n: string, k: nat)
    requires Partition(g, tiers) && InTier(tiers, a, n) && a < k <= |tiers|
    ensures TierOf(tiers[..k], n) == tiers[a]
    decreases k
  {
    assert tiers[..k][..k - 1] == tiers[..k - 1];
    if n in tiers[k - 1] { assert InTier(tiers, k - 1, n); } else { TierOfIs(g, tiers, a, n, k - 1); }
  }

  lemma AllStopWell(others: Others, g: Graph, timeout: map<string, nat>, tiers: seq<seq<string>>)
    requires Partition(g, tiers) && timeout.Keys == g.Keys
    ensures StopsAllWell(Due(timeout, tiers), Stopper(others, timeout), tiers)
  {
    var (stop, due) := (Stopper(others, timeout), Due(timeout, tiers));
    forall k: nat, m, a: nat ensures StopsWellAt(due, stop, k, m, tiers, a) {
      if a < |tiers| {
        forall n | n in tiers[a] && n in due ensures due[n] == Allowed(timeout, tiers[a]) {
          TierOfIs(g, tiers, a, n, |tiers|);
          assert tiers[..|tiers|] == tiers;
        }
        StopperStopsWell(others, k, m, timeout, due, tiers[a]);
      }
    }
  }

  lemma TurnIsInThePass(turns: Round, look: Round, others: Others, k: nat, m: Moment, allowed: nat, i: nat)
    requires forall k, m :: NoTurns(look, k, m)
    requires var t := ThenWait(turns, look, others, k, m, allowed); i < |t| && IsTurn(t[i])
    ensures i < |turns(k, m)| && ThenWait(turns, look, others, k, m, allowed)[i] == turns(k, m)[i]
  {
    var t := turns(k, m);
    WaitHasNoTurns(others, k + |t|, Last(m, t), look, allowed);
    NoTurnAfter(t, Waited(others, k + |t|, Last(m, t), look, allowed), i);
  }

  lemma NoTurnAfter(turns: seq<Event>, rest: seq<Event>, i: nat)
    requires i < |turns + rest| && IsTurn((turns + rest)[i]) && Turns(rest) == []
    ensures i < |turns|
  {
    if i >= |turns| { TurnComes(rest, i - |turns|); }
  }

  lemma SettledLonger(due: map<string, nat>, a: seq<Event>, b: seq<Event>, i: nat, j: nat, k: nat)
    requires SettledBetween(due, a, i, j) && j <= k <= |a + b|
    ensures SettledBetween(due, a + b, i, k)
  {
    var l :| i < l < j && Settles(due, a, i, l);
    SettlesLonger(due, a, b, i, l);
  }

  lemma SettledLater(due: map<string, nat>, a: seq<Event>, b: seq<Event>, i: nat)
    requires Settled(due, b, i)
    ensures Settled(due, a + b, |a| + i)
  {
    var l :| i < l < |b| && Settles(due, b, i, l);
    SettlesLater(due, a, b, i, l);
  }

  /** Every stop is seen through before the call returns. */
  lemma {:induction false} InTurnSettles(due: map<string, nat>, stop: Stop, k: nat, m: Moment, tiers: seq<seq<string>>,
                                         n: nat, i: nat)
    requires n <= |tiers| && StopsAllWell(due, stop, tiers)
    requires var t := InTurn(stop, k, m, tiers, n); i < |t| && IsTurn(t[i]) && t[i].name in due
    ensures var t := InTurn(stop, k, m, tiers, n); Settled(due, t, i)
  {
    if n > 0 {
      var init := InTurn(stop, k, m, tiers, n - 1);
      var last := stop(k + |init|, Last(m, init), tiers[n - 1]);
      if i < |init| {
        InTurnSettles(due, stop, k, m, tiers, n - 1, i);
        SettledLonger(due, init, last, i, |init|, |init + last|);
      } else {
        assert StopsWellAt(due, stop, k + |init|, Last(m, init), tiers, n - 1);
        SettledLater(due, init, last, i - |init|);
      }
    }
  }

  lemma TurnIsListed(t: seq<Event>, i: nat)
    requires i < |t| && IsTurn(t[i])
    ensures t[i].name in Turns(t)
  {
    TurnComes(t, i);
    assert Turns(t)[|Turns(t[..i])|] == t[i].name;
  }

  ghost predicate TierBefore(tiers: seq<seq<string>>, u: string, v: string) {
    forall i, j :: InTier(tiers, i, u) && InTier(tiers, j, v) ==> i < j
  }

  lemma NotOfOneTier(tiers: seq<seq<string>>, a: nat, u: string, v: string)
    requires TierBefore(tiers, u, v) && InTier(tiers, a, v)
    ensures !InTier(tiers, a, u)
  {
  }

  /** Between the turns of two tiers, the first is settled. */
  lemma {:induction false} InTurnInOrder(due: map<string, nat>, stop: Stop, k: nat, m: Moment, tiers: seq<seq<string>>,
                                         n: nat, i: nat, j: nat)
    requires n <= |tiers| && StopsAllWell(due, stop, tiers)
    requires var t := InTurn(stop, k, m, tiers, n);
      && i < j < |t| && IsTurn(t[i]) && IsTurn(t[j])
      && t[i].name in due && TierBefore(tiers, t[i].name, t[j].name)
    ensures SettledBetween(due, InTurn(stop, k, m, tiers, n), i, j)
  {
    if n > 0 {
      var init := InTurn(stop, k, m, tiers, n - 1);
      var last := stop(k + |init|, Last(m, init), tiers[n - 1]);
      if j < |init| {
        InTurnInOrder(due, stop, k, m, tiers, n - 1, i, j);
        SettledLonger(due, init, last, i, j, j);
      } else {
        assert StopsWellAt(due, stop, k + |init|, Last(m, init), tiers, n - 1);
        TurnIsListed(last, j - |init|);
        NotOfOneTier(tiers, n - 1, InTurn(stop, k, m, tiers, n)[i].name, last[j - |init|].name);
        if i < |init| {
          InTurnSettles(due, stop, k, m, tiers, n - 1, i);
          SettledLonger(due, init, last, i, |init|, j);
        } else {
          TurnIsListed(last, i - |init|);
        }
      }
    }
  }

  lemma TurnsInTiers(due: map<string, nat>, stop: Stop, k: nat, m: Moment, tiers: seq<seq<string>>, n: nat, i: nat)
    returns (a: nat)
    requires n <= |tiers| && StopsAllWell(due, stop, tiers)
    requires var t := InTurn(stop, k, m, tiers, n); i < |t| && IsTurn(t[i])
    ensures a < n && InTier(tiers, a, InTurn(stop, k, m, tiers, n)[i].name)
  {
    var t := InTurn(stop, k, m, tiers, n);
    forall k, m, a: nat ensures TakesTurns(stop, k, m, tiers, a) { assert StopsWellAt(due, stop, k, m, tiers, a); }
    InTurnTurns(stop, k, m, tiers, n);
    TurnIsListed(t, i);
    FlattenHas(tiers, n, t[i].name);
    a :| InTier(tiers, a, t[i].name) && a < n;
  }

  /** Turns come in the order of the tiers. */
  lemma {:induction false} EarlierTurnEarlierTier(due: map<string, nat>, stop: Stop, k: nat, m: Moment,
                                                  tiers: seq<seq<string>>, n: nat, i: nat, j: nat)
    requires n <= |tiers| && StopsAllWell(due, stop, tiers)
    requires var t := InTurn(stop, k, m, tiers, n); i <= j < |t| && IsTurn(t[i]) && IsTurn(t[j])
    ensures var t := InTurn(stop, k, m, tiers, n); !TierBefore(tiers, t[j].name, t[i].name)
  {
    if n > 0 {
      var init := InTurn(stop, k, m, tiers, n - 1);
      var last := stop(k + |init|, Last(m, init), tiers[n - 1]);
      if j < |init| {
        EarlierTurnEarlierTier(due, stop, k, m, tiers, n - 1, i, j);
      } else {
        assert StopsWellAt(due, stop, k + |init|, Last(m, init), tiers, n - 1);
        TurnIsListed(last, j - |init|);
        assert InTier(tiers, n - 1, last[j - |init|].name);
        var a := TurnsInTiers(due, stop, k, m, tiers, n, i);
      }
    }
  }

  // ------------------------------------------------------------- running again

  ghost predicate TierTimeUpBetween(timeout: map<string, nat>, tiers: seq<seq<string>>, t: seq<Event>, i: nat, j: nat) {
    exists l :: i < l < j && TierTimeUp(timeout, tiers, t, i, l)
  }

  function LifeAt(m: Moment, n: string): Life {
    if n in m.procs then Life(m.procs[n].state, m.procs[n].late) else Life(Stopped, 0)
  }

  /** Since shutdown began the others have new runs only from the spawns under way then, and stop only what runs. */
  ghost predicate Lawful(others: Others) {
    forall k, m, ms, n :: LawfulAt(others, k, m, ms, n)
  }

  ghost predicate LawfulAt(others: Others, k: nat, m: Moment, ms: nat, n: string) {
    MayBecome(LifeAt(m, n), LifeAt(others(k, m, ms), n))
  }

  /** If `u` was sent its stop at step `i`, and `v` at step `j` within `u`'s time, then `u` is gone at that moment. */
  ghost predicate IsGoneBy(timeout: map<string, nat>, tiers: seq<seq<string>>, t: seq<Event>, i: nat, j: nat,
                           u: string, v: string) {
    && i < |t| && j < |t| && t[i].Sent() && t[i].name == u && t[j].Sent() && t[j].name == v
      && !TierTimeUpBetween(timeout, tiers, t, i, j)
    ==> !IsUp(LifeAt(t[j].seen, u).state)
  }

  /** So it is in every shutdown from `m` on. */
  ghost predicate KeepsOrder(timeout: map<string, nat>, tiers: seq<seq<string>>, m: Moment, u: string, v: string) {
    forall others: Others, k: nat, i: nat, j: nat :: Lawful(others) ==>
      IsGoneBy(timeout, tiers, Trace(others, k, m, timeout, tiers), i, j, u, v)
  }

  lemma {:induction false} ChainAt(others: Others, k: nat, m: Moment, t: seq<Event>, x: nat)
    requires Chained(others, k, m, t) && x < |t|
    ensures t[x].seen == others(k + x, if x == 0 then m else t[x - 1].After(), t[x].Ms())
  {
    if x < |t| - 1 { ChainAt(others, k, m, t[..|t| - 1], x); }
  }

  /** Being sent its stop uses up the child it has. */
  lemma AfterLeft(e: Event, n: string)
    ensures LifeAt(e.After(), n).late == LifeAt(e.seen, n).late
    ensures LifeAt(e.After(), n).state == if e.Sent() && e.name == n then Stopping else LifeAt(e.seen, n).state
    ensures e.Sent() && e.name == n ==> LifeAt(e.seen, n).state == Running
  {
  }

  /** What is left to a process never grows. */
  lemma {:induction false} LeftNeverGrows(others: Others, k: nat, m: Moment, t: seq<Event>, x: nat, n: string)
    requires Chained(others, k, m, t) && Lawful(others) && x < |t|
    ensures LifeAt(t[x].After(), n).Left() <= LifeAt(t[x].seen, n).Left() <= LifeAt(m, n).Left()
  {
    ChainAt(others, k, m, t, x);
    AfterLeft(t[x], n);
    if x > 0 { LeftNeverGrows(others, k, m, t, x - 1, n); }
    assert LawfulAt(others, k + x, if x == 0 then m else t[x - 1].After(), t[x].Ms(), n);
  }

  lemma {:induction false} NothingLeft(others: Others, k: nat, m: Moment, t: seq<Event>, i: nat, x: nat)
    requires Chained(others, k, m, t) && Lawful(others) && i <= x < |t| && t[i].Sent()
    requires LifeAt(m, t[i].name).Left() <= 1
    ensures LifeAt(t[x].After(), t[i].name).Left() == 0
    ensures x > i ==> LifeAt(t[x].seen, t[i].name).Left() == 0
  {
    var n := t[i].name;
    AfterLeft(t[x], n);
    if x == i {
      LeftNeverGrows(others, k, m, t, i, n);
    } else {
      NothingLeft(others, k, m, t, i, x - 1);
      ChainAt(others, k, m, t, x);
      assert LawfulAt(others, k + x, t[x - 1].After(), t[x].Ms(), n);
    }
  }

  lemma {:induction false} StaysGone(others: Others, k: nat, m: Moment, t: seq<Event>, l: nat, x: nat, n: string)
    requires Chained(others, k, m, t) && Lawful(others) && l <= x < |t|
    requires !IsUp(LifeAt(t[l].seen, n).state) && LifeAt(t[l].seen, n).late == 0
    ensures !IsUp(LifeAt(t[x].seen, n).state) && LifeAt(t[x].seen, n).late == 0
  {
    if x > l {
      StaysGone(others, k, m, t, l, x - 1, n);
      AfterLeft(t[x - 1], n);
      ChainAt(others, k, m, t, x);
      assert LawfulAt(others, k + x, t[x - 1].After(), t[x].Ms(), n);
    }
  }

  lemma GoneAt(others: Others, k: nat, m: Moment, timeout: map<string, nat>, tiers: seq<seq<string>>, t: seq<Event>,
               i: nat, j: nat)
    requires Chained(others, k, m, t) && Lawful(others) && j < |t| && SeenThrough(timeout, tiers, t, i, j)
    requires t[i].Sent()
    requires !TierTimeUpBetween(timeout, tiers, t, i, j) && LifeAt(m, t[i].name).Left() <= 1
    ensures !IsUp(LifeAt(t[j].seen, t[i].name).state)
  {
    var l :| i < l < j && (Gone(t[l], t[i].name) || TierTimeUp(timeout, tiers, t, i, l));
    NothingLeft(others, k, m, t, i, l);
    StaysGone(others, k, m, t, l, j, t[i].name);
  }

  lemma NeverSent(others: Others, k: nat, m: Moment, t: seq<Event>, j: nat)
    requires Chained(others, k, m, t) && Lawful(others) && j < |t| && t[j].Sent()
    ensures LifeAt(m, t[j].name).Left() >= 1
  {
    LeftNeverGrows(others, k, m, t, j, t[j].name);
    AfterLeft(t[j], t[j].name);
  }

  lemma OrderIsKept(others: Others, k: nat, m: Moment, g: Graph, timeout: map<string, nat>, tiers: seq<seq<string>>,
                    u: string, v: string, i: nat, j: nat)
    requires Partition(g, tiers) && DependentsFirst(g, tiers) && timeout.Keys == g.Keys && DependsOn(g, u, v)
    requires Lawful(others) && (LifeAt(m, u).Left() <= 1 || LifeAt(m, v).Left() == 0)
    ensures IsGoneBy(timeout, tiers, Trace(others, k, m, timeout, tiers), i, j, u, v)
  {
    var t := Trace(others, k, m, timeout, tiers);
    if i < |t| && j < |t| && t[i].Sent() && t[i].name == u && t[j].Sent() && t[j].name == v
      && !TierTimeUpBetween(timeout, tiers, t, i, j)
    {
      TraceIsChained(others, k, m, timeout, tiers);
      NeverSent(others, k, m, t, j);
      DependentsAreGone(others, k, m, g, timeout, tiers, i, j);
    }
  }

  // Others that let every late spawn of `u` and `v` land as soon as it can, end what is stopping, and take no time.

  function Next(p: Member, again: bool): Member {
    if again && p.state == Running then p.(killHandle := true)
    else if again && p.late > 0 then Member(Running, true, p.late - 1)
    else if p.state == Stopping then p.(state := Stopped)
    else p
  }

  function AllLand(u: string, v: string): Others {
    (k: nat, m: Moment, ms: nat) => Moment(m.clock + ms, map n | n in m.procs :: Next(m.procs[n], n == u || n == v))
  }

  lemma AllLandIsLawful(u: string, v: string)
    ensures Lawful(AllLand(u, v))
  {
  }

  lemma AllLandAt(u: string, v: string, k: nat, m: Moment, ms: nat, n: string)
    requires n in m.procs && (n == u || n == v)
    ensures var p := AllLand(u, v)(k, m, ms); n in p.procs && LifeAt(p, n).Left() == LifeAt(m, n).Left()
    ensures var p := AllLand(u, v)(k, m, ms); LifeAt(m, n).Left() >= 1 ==>
      p.procs[n].state == Running && p.procs[n].killHandle
  {
  }

  /** Nothing is ever seen stopping. */
  ghost predicate Quiet(others: Others, k: nat, m: Moment, ms: nat) {
    forall n :: n in others(k, m, ms).procs ==> others(k, m, ms).procs[n].state != Stopping
  }

  lemma AllLandIsQuiet(u: string, v: string)
    ensures forall k, m, ms :: Quiet(AllLand(u, v), k, m, ms)
  {
  }

  lemma {:induction false} NoneSeenStopping(others: Others, k: nat, m: Moment, tier: seq<string>, turn: bool, n: nat)
    requires n <= |tier| && forall k, m, ms :: Quiet(others, k, m, ms)
    ensures !AnyStopping(PassTo(others, k, m, tier, turn, n))
  {
    if n > 0 {
      var init := PassTo(others, k, m, tier, turn, n - 1);
      NoneSeenStopping(others, k, m, tier, turn, n - 1);
      assert Quiet(others, k + |init|, Last(m, init), 0);
      OneMoreStopping(init, Look(tier[n - 1], turn, others(k + |init|, Last(m, init), 0)));
    }
  }

  predicate Napless(t: seq<Event>) { forall i :: 0 <= i < |t| ==> !t[i].Nap? }

  ghost predicate NaplessStop(stop: Stop, k: nat, m: Moment, tier: seq<string>) { Napless(stop(k, m, tier)) }

  ghost predicate QuietLook(look: Round, k: nat, m: Moment) { !AnyStopping(look(k, m)) && Napless(look(k, m)) }

  lemma NoWait(others: Others, k: nat, m: Moment, look: Round, allowed: nat)
    requires forall k, m :: QuietLook(look, k, m)
    ensures Napless(Waited(others, k, m, look, allowed))
  {
    var r := others(k, m, 0);
    assert QuietLook(look, k + 1, r);
    NoRound(others, k + 1, r, look, r.clock + allowed, look(k + 1, r));
  }

  lemma ThenNoWait(turns: Round, look: Round, others: Others, k: nat, m: Moment, allowed: nat, t: seq<Event>, l: Moment)
    requires t == turns(k, m) && l == Last(m, t) && Napless(t) && Napless(Waited(others, k + |t|, l, look, allowed))
    ensures Napless(ThenWait(turns, look, others, k, m, allowed))
  {
  }

  lemma LooksAreQuiet(others: Others, tier: seq<string>)
    requires forall k, m, ms :: Quiet(others, k, m, ms)
    ensures forall k, m :: QuietLook(Passer(others, tier, false), k, m)
  {
    forall k: nat, m ensures QuietLook(Passer(others, tier, false), k, m) {
      PassIsLooks(others, k, m, tier, false);
      NoneSeenStopping(others, k, m, tier, false, |tier|);
    }
  }

  lemma TierIsNapless(others: Others, k: nat, m: Moment, timeout: map<string, nat>, tier: seq<string>)
    requires forall k, m :: QuietLook(Passer(others, tier, false), k, m)
    ensures NaplessStop(Stopper(others, timeout), k, m, tier)
  {
    var look := Passer(others, tier, false);
    var turns := Pass(others, k, m, tier, true);
    PassIsLooks(others, k, m, tier, true);
    NoWait(others, k + |turns|, Last(m, turns), look, Allowed(timeout, tier));
    ThenNoWait(Passer(others, tier, true), look, others, k, m, Allowed(timeout, tier), turns, Last(m, turns));
  }

  lemma {:induction false} InTurnIsNapless(stop: Stop, k: nat, m: Moment, tiers: seq<seq<string>>, n: nat)
    requires n <= |tiers| && forall k, m, tier :: NaplessStop(stop, k, m, tier)
    ensures Napless(InTurn(stop, k, m, tiers, n))
  {
    if n > 0 {
      var init := InTurn(stop, k, m, tiers, n - 1);
      InTurnIsNapless(stop, k, m, tiers, n - 1);
      assert NaplessStop(stop, k + |init|, Last(m, init), tiers[n - 1]);
    }
  }

  lemma {:induction false} NoTimePasses(u: string, v: string, k: nat, m: Moment, t: seq<Event>, x: nat)
    requires Chained(AllLand(u, v), k, m, t) && Napless(t) && x < |t|
    ensures t[x].seen.clock == m.clock && t[x].seen.procs.Keys == m.procs.Keys
  {
    ChainAt(AllLand(u, v), k, m, t, x);
    if x > 0 { NoTimePasses(u, v, k, m, t, x - 1); }
  }

  /** Up to its turn, as much is left to each of them as at first. */
  lemma {:induction false} LeftBefore(u: string, v: string, k: nat, m: Moment, t: seq<Event>, x: nat, n: string)
    requires Chained(AllLand(u, v), k, m, t) && Napless(t) && x < |t| && n in m.procs && (n == u || n == v)
    requires forall y :: 0 <= y < x ==> !(IsTurn(t[y]) && t[y].name == n)
    ensures LifeAt(t[x].seen, n).Left() == LifeAt(m, n).Left()
    ensures LifeAt(m, n).Left() >= 1
      ==> n in t[x].seen.procs && t[x].seen.procs[n].state == Running && t[x].seen.procs[n].killHandle
  {
    var before := if x == 0 then m else t[x - 1].After();
    ChainAt(AllLand(u, v), k, m, t, x);
    if x > 0 {
      LeftBefore(u, v, k, m, t, x - 1, n);
      NoTimePasses(u, v, k, m, t, x - 1);
      AfterLeft(t[x - 1], n);
    }
    AllLandAt(u, v, k + x, before, t[x].Ms(), n);
  }

  /** After it, one less. */
  lemma {:induction false} RunsAfter(u: string, v: string, k: nat, m: Moment, t: seq<Event>, i: nat, x: nat)
    requires Chained(AllLand(u, v), k, m, t) && Napless(t) && NoRepeats(Turns(t)) && u in m.procs
    requires i < x < |t| && IsTurn(t[i]) && t[i].name == u && LifeAt(t[i].seen, u).Left() >= 2
    ensures LifeAt(t[x].seen, u).state == Running
  {
    ChainAt(AllLand(u, v), k, m, t, x);
    NoTimePasses(u, v, k, m, t, x - 1);
    AfterLeft(t[x - 1], u);
    if x - 1 > i {
      RunsAfter(u, v, k, m, t, i, x - 1);
      if IsTurn(t[x - 1]) { OneTurnEach(t, i, x - 1); }
    }
    AllLandAt(u, v, k + x, t[x - 1].After(), t[x].Ms(), u);
  }

  lemma {:induction false} TurnOf(t: seq<Event>, n: string) returns (i: nat)
    requires n in Turns(t)
    ensures i < |t| && IsTurn(t[i]) && t[i].name == n
  {
    var last := |t| - 1;
    if IsTurn(t[last]) && t[last].name == n { i := last; } else { i := TurnOf(t[..last], n); }
  }

  lemma OnlyTurn(t: seq<Event>, i: nat, n: string)
    requires NoRepeats(Turns(t)) && i < |t| && IsTurn(t[i]) && t[i].name == n
    ensures forall y :: 0 <= y < |t| && y != i ==> !(IsTurn(t[y]) && t[y].name == n)
  {
    forall y | 0 <= y < |t| && y != i && IsTurn(t[y]) ensures t[y].name != n {
      if y < i { OneTurnEach(t, y, i); } else { OneTurnEach(t, i, y); }
    }
  }

  /** What there is of `u` and `v` to break the order with. */
  lemma BothAreSent(u: string, v: string, k: nat, m: Moment, t: seq<Event>) returns (i: nat, j: nat)
    requires Chained(AllLand(u, v), k, m, t) && Napless(t) && NoRepeats(Turns(t)) && u in Turns(t) && v in Turns(t)
    requires u in m.procs && v in m.procs && LifeAt(m, u).Left() >= 2 && LifeAt(m, v).Left() >= 1
    ensures i < |t| && t[i].Sent() && t[i].name == u && LifeAt(t[i].seen, u).Left() >= 2
    ensures j < |t| && t[j].Sent() && t[j].name == v
  {
    i := TurnOf(t, u);
    j := TurnOf(t, v);
    OnlyTurn(t, i, u);
    OnlyTurn(t, j, v);
    LeftBefore(u, v, k, m, t, i, u);
    LeftBefore(u, v, k, m, t, j, v);
  }

  lemma NeverTimeUp(u: string, v: string, k: nat, m: Moment, timeout: map<string, nat>, tiers: seq<seq<string>>,
                    t: seq<Event>, i: nat, j: nat)
    requires Chained(AllLand(u, v), k, m, t) && Napless(t)
    requires i < |t| && t[i].Look? && t[i].name in timeout && HasTier(tiers, t[i].name)
    ensures !TierTimeUpBetween(timeout, tiers, t, i, j)
  {
    forall l | i < l < j ensures !TierTimeUp(timeout, tiers, t, i, l) {
      if TierTimeUp(timeout, tiers, t, i, l) {
        var a :| InTier(tiers, a, t[i].name);
        NoTimePasses(u, v, k, m, t, l);
        NoTimePasses(u, v, k, m, t, ReadAfter(t, i));
      }
    }
  }

  lemma OrderIsBroken(m: Moment, g: Graph, timeout: map<string, nat>, tiers: seq<seq<string>>, u: string, v: string)
    requires Partition(g, tiers) && DependentsFirst(g, tiers) && timeout.Keys == g.Keys == m.procs.Keys
    requires DependsOn(g, u, v)
    requires LifeAt(m, u).Left() >= 2 && LifeAt(m, v).Left() >= 1
    ensures !KeepsOrder(timeout, tiers, m, u, v)
  {
    var others := AllLand(u, v);
    var t := Trace(others, 0, m, timeout, tiers);
    AllLandIsLawful(u, v);
    AllLandIsQuiet(u, v);
    TraceIsChained(others, 0, m, timeout, tiers);
    EachHasOneTurn(others, 0, m, g, timeout, tiers);
    forall k: nat, m, tier ensures NaplessStop(Stopper(others, timeout), k, m, tier) {
      LooksAreQuiet(others, tier);
      TierIsNapless(others, k, m, timeout, tier);
    }
    InTurnIsNapless(Stopper(others, timeout), 0, m, tiers, |tiers|);
    assert u in g && v in g by { var p :| IsPath(g, p) && |p| >= 2 && p[0] == u && p[|p| - 1] == v; }
    var i, j := BothAreSent(u, v, 0, m, t);
    NeverTimeUp(u, v, 0, m, timeout, tiers, t, i, j);
    InOrder(others, 0, m, g, timeout, tiers, i, j);
    RunsAfter(u, v, 0, m, t, i, j);
    assert !IsGoneBy(timeout, tiers, t, i, j, u, v);
  }

  lemma InOrder(others: Others, k: nat, m: Moment, g: Graph, timeout: map<string, nat>, tiers: seq<seq<string>>, i: nat,
                j: nat)
    requires Partition(g, tiers) && DependentsFirst(g, tiers) && timeout.Keys == g.Keys
    requires var t := Trace(others, k, m, timeout, tiers);
      i < |t| && j < |t| && IsTurn(t[i]) && IsTurn(t[j]) && DependsOn(g, t[i].name, t[j].name)
    ensures i < j
    ensures TierBefore(tiers, Trace(others, k, m, timeout, tiers)[i].name, Trace(others, k, m, timeout, tiers)[j].name)
  {
    var t := Trace(others, k, m, timeout, tiers);
    AllStopWell(others, g, timeout, tiers);
    assert TierBefore(tiers, t[i].name, t[j].name);
    if j <= i { EarlierTurnEarlierTier(Due(timeout, tiers), Stopper(others, timeout), k, m, tiers, |tiers|, j, i); }
  }

  // ---------------------------------------------------------------- the budget

  /** The ms slept. */
  function Slept(t: seq<Event>): nat {
    if t == [] then 0 else Slept(t[..|t| - 1]) + t[|t| - 1].Ms()
  }

  lemma {:induction false} SleptOn(a: seq<Event>, b: seq<Event>)
    ensures Slept(a + b) == Slept(a) + Slept(b)
  {
    if b == [] {
      assert a + b == a;
    } else {
      var n := |b| - 1;
      assert (a + b)[..|a + b| - 1] == a + b[..n];
      SleptOn(a, b[..n]);
    }
  }

  // A measure of traces that adds up as `Slept` does.

  type Measure = seq<Event> -> nat

  predicate AddsUp(S: Measure, a: seq<Event>, b: seq<Event>) { S(a + b) == S(a) + S(b) }

  ghost predicate Counts(S: Measure) {
    S([]) == 0 && (forall e :: S([e]) == e.Ms()) && forall a, b :: AddsUp(S, a, b)
  }

  lemma {:induction false} SleptCounts()
    ensures Counts(Slept)
  {
    forall e: Event ensures Slept([e]) == e.Ms() { assert [e][..0] == []; }
    forall a, b ensures AddsUp(Slept, a, b) { SleptOn(a, b); }
  }

  lemma {:induction false} NoNapsNoSleep(S: Measure, t: seq<Event>)
    requires Counts(S) && forall i :: 0 <= i < |t| ==> !t[i].Nap?
    ensures S(t) == 0
  {
    if t != [] {
      var init := t[..|t| - 1];
      NoNapsNoSleep(S, init);
      assert AddsUp(S, init, [t[|t| - 1]]);
      assert t == init + [t[|t| - 1]];
    }
  }

  lemma PassSleepsNot(S: Measure, others: Others, k: nat, m: Moment, tier: seq<string>, turn: bool)
    requires Counts(S)
    ensures S(Pass(others, k, m, tier, turn)) == 0
  {
    forall i | 0 <= i < |tier| ensures !Pass(others, k, m, tier, turn)[i].Nap? {
      PassLooks(others, k, m, tier, turn, |tier|, i);
    }
    NoNapsNoSleep(S, Pass(others, k, m, tier, turn));
  }

  /** How long may be slept from `clock` on: the last sleep may end after the deadline. */
  function Room(deadline: nat, clock: nat): nat {
    if deadline > clock then deadline - clock + POLL_MS - 1 else 0
  }

  lemma RoomShrinks(deadline: nat, clock: nat, read: nat, later: nat)
    requires clock <= read < deadline && read + POLL_MS <= later
    ensures POLL_MS + Room(deadline, later) <= Room(deadline, clock)
  {
  }

  lemma RoundSleeps(S: Measure, pass: seq<Event>, r: Moment, z: Moment, rest: seq<Event>)
    requires Counts(S)
    ensures S(pass + [Read(r), Nap(z)] + rest) == S(pass) + POLL_MS + S(rest)
    ensures S(pass + [Read(r)]) == S(pass)
  {
    assert AddsUp(S, pass + [Read(r), Nap(z)], rest) && AddsUp(S, pass, [Read(r), Nap(z)]);
    assert AddsUp(S, [Read(r)], [Nap(z)]) && AddsUp(S, pass, [Read(r)]);
    assert [Read(r)] + [Nap(z)] == [Read(r), Nap(z)];
  }

  ghost predicate LookSleepsNot(S: Measure, look: Round, k: nat, m: Moment) { S(look(k, m)) == 0 }

  lemma OneRoundSleeps(S: Measure, others: Others, k: nat, m: Moment, look: Round, deadline: nat, pass: seq<Event>,
                       r: Moment, z: Moment)
    requires Counts(S) && pass == look(k, m) && AnyStopping(pass) && S(pass) == 0
    requires r == others(k + |pass|, Last(m, pass), 0) && r.clock < deadline && z == others(k + |pass| + 1, r, POLL_MS)
    ensures S(Wait(others, k, m, look, deadline)) == POLL_MS + S(Wait(others, k + |pass| + 2, z, look, deadline))
  {
    RoundGoesOn(others, k, m, look, deadline, pass, Last(m, pass), r, z, k + |pass| + 2);
    RoundSleeps(S, pass, r, z, Wait(others, k + |pass| + 2, z, look, deadline));
  }

  lemma LastRoundSleeps(S: Measure, others: Others, k: nat, m: Moment, look: Round, deadline: nat, pass: seq<Event>,
                        r: Moment)
    requires Counts(S) && pass == look(k, m) && AnyStopping(pass) && S(pass) == 0
    requires r == others(k + |pass|, Last(m, pass), 0) && r.clock >= deadline
    ensures S(Wait(others, k, m, look, deadline)) == 0
  {
    RoundSleeps(S, pass, r, r, []);
  }

  lemma {:induction false} WaitSleeps(S: Measure, others: Others, k: nat, m: Moment, look: Round, deadline: nat)
    requires Counts(S) && forall k, m :: LookSleepsNot(S, look, k, m)
    ensures S(Wait(others, k, m, look, deadline)) <= Room(deadline, m.clock)
    decreases if deadline > m.clock then deadline - m.clock else 0
  {
    var pass := look(k, m);
    assert LookSleepsNot(S, look, k, m);
    if AnyStopping(pass) {
      var r := others(k + |pass|, Last(m, pass), 0);
      if r.clock < deadline {
        var z := others(k + |pass| + 1, r, POLL_MS);
        WaitSleeps(S, others, k + |pass| + 2, z, look, deadline);
        RoomShrinks(deadline, m.clock, r.clock, z.clock);
        OneRoundSleeps(S, others, k, m, look, deadline, pass, r, z);
      } else {
        LastRoundSleeps(S, others, k, m, look, deadline, pass, r);
      }
    }
  }

  ghost predicate SleepsWithin(S: Measure, timeout: map<string, nat>, stop: Stop, k: nat, m: Moment, tier: seq<string>)
    
  {
    S(stop(k, m, tier)) <= Allowed(timeout, tier) + POLL_MS - 1
  }

  lemma WaitedSleeps(S: Measure, others: Others, k: nat, m: Moment, look: Round, allowed: nat)
    requires Counts(S) && allowed > 0 && forall k, m :: LookSleepsNot(S, look, k, m)
    ensures S(Waited(others, k, m, look, allowed)) <= allowed + POLL_MS - 1
  {
    var r := others(k, m, 0);
    WaitSleeps(S, others, k + 1, r, look, r.clock + allowed);
    assert AddsUp(S, [Read(r)], Wait(others, k + 1, r, look, r.clock + allowed));
  }

  lemma ThenWaitSleeps(S: Measure, turns: Round, look: Round, others: Others, k: nat, m: Moment, allowed: nat,
                       t: seq<Event>, l: Moment)
    requires Counts(S) && t == turns(k, m) && l == Last(m, t) && S(t) == 0
    requires S(Waited(others, k + |t|, l, look, allowed)) <= allowed + POLL_MS - 1
    ensures S(ThenWait(turns, look, others, k, m, allowed)) <= allowed + POLL_MS - 1
  {
    assert AddsUp(S, t, Waited(others, k + |t|, l, look, allowed));
  }

  lemma StopperSleepsWithin(S: Measure, others: Others, k: nat, m: Moment, timeout: map<string, nat>, tier: seq<string>)
    requires Counts(S)
    ensures SleepsWithin(S, timeout, Stopper(others, timeout), k, m, tier)
  {
    var look := Passer(others, tier, false);
    var t := Pass(others, k, m, tier, true);
    PassSleepsNot(S, others, k, m, tier, true);
    forall k: nat, m ensures LookSleepsNot(S, look, k, m) { PassSleepsNot(S, others, k, m, tier, false); }
    WaitedSleeps(S, others, k + |t|, Last(m, t), look, Allowed(timeout, tier));
    ThenWaitSleeps(S, Passer(others, tier, true), look, others, k, m, Allowed(timeout, tier), t, Last(m, t));
  }

  lemma {:induction false} InTurnSleeps(S: Measure, timeout: map<string, nat>, stop: Stop, k: nat, m: Moment,
                                        tiers: seq<seq<string>>, n: nat)
    requires Counts(S) && n <= |tiers| && forall k, m, tier :: SleepsWithin(S, timeout, stop, k, m, tier)
    ensures S(InTurn(stop, k, m, tiers, n)) <= 1000 * BudgetTo(timeout, tiers, n) + (POLL_MS - 1) * n
  {
    if n > 0 {
      var init := InTurn(stop, k, m, tiers, n - 1);
      InTurnSleeps(S, timeout, stop, k, m, tiers, n - 1);
      assert SleepsWithin(S, timeout, stop, k + |init|, Last(m, init), tiers[n - 1]);
      assert AddsUp(S, init, stop(k + |init|, Last(m, init), tiers[n - 1]));
    }
  }

  /** The longest stop timeout of a tier. */
  ghost predicate IsLongest(timeout: map<string, nat>, tier: seq<string>, d: nat) {
    && (forall q :: q in tier && q in timeout ==> timeout[q] <= d)
    && (d == 0 || exists q :: q in tier && q in timeout && timeout[q] == d)
  }

  /** The budget is each tier's longest stop timeout and two seconds, added up. */
  lemma BudgetAddsUp(timeout: map<string, nat>, tiers: seq<seq<string>>, tier: seq<string>, d: nat)
    requires IsLongest(timeout, tier, d)
    ensures BudgetSecs(timeout, []) == 0
    ensures BudgetSecs(timeout, tiers + [tier]) == BudgetSecs(timeout, tiers) + d + 2
  {
    LongestIs(timeout, tier, d);
    BudgetOfTheFirst(timeout, tiers, tiers + [tier], |tiers|);
  }

  lemma LongestIs(timeout: map<string, nat>, tier: seq<string>, d: nat)
    requires IsLongest(timeout, tier, d)
    ensures LongestTimeout(timeout, tier) == d
  {
    LongestIsLongest(timeout, tier, |tier|);
    if d > 0 {
      var q :| q in tier && q in timeout && timeout[q] == d;
      var i :| 0 <= i < |tier| && tier[i] == q;
    }
  }

  lemma {:induction false} BudgetOfTheFirst(timeout: map<string, nat>, a: seq<seq<string>>, b: seq<seq<string>>, n: nat)
    requires n <= |a| <= |b| && a == b[..|a|]
    ensures BudgetTo(timeout, a, n) == BudgetTo(timeout, b, n)
  {
    if n > 0 { BudgetOfTheFirst(timeout, a, b, n - 1); }
  }

  // ------------------------------------------------------- no needless sleeping

  /** One of the tier was just seen stopping, and the clock read less than `deadline`. */
  predicate Awaits(tier: seq<string>, w: seq<Event>, deadline: nat, l: nat, x: nat) {
    && x + 1 < l < |w| && w[x].SeenStopping() && w[x].name in tier
    && (forall y :: x < y < l - 1 ==> w[y].Look?)
    && w[l - 1].Read? && w[l - 1].seen.clock < deadline
  }

  /** The sleep at step `l` follows the tier's turns, the clock's reading at `r`, and a look that found one stopping. */
  predicate NeededAt(timeout: map<string, nat>, tier: seq<string>, t: seq<Event>, l: nat, r: nat, x: nat, q: string) {
    && 0 < r <= x < |t| && IsTurn(t[r - 1]) && t[r - 1].name in tier && t[r].Read?
    && (forall y :: r <= y < l < |t| ==> !IsTurn(t[y]))
    && q in tier && q in timeout && Awaits(tier, t, t[r].seen.clock + 1000 * (timeout[q] + 2), l, x)
  }

  ghost predicate Needed(timeout: map<string, nat>, tier: seq<string>, t: seq<Event>, l: nat) {
    exists r: nat, x: nat, q :: NeededAt(timeout, tier, t, l, r, x, q)
  }

  lemma {:induction false} SomeStopping(pass: seq<Event>) returns (x: nat)
    requires AnyStopping(pass)
    ensures x < |pass| && pass[x].SeenStopping()
  {
    x := |pass| - 1;
    if !pass[x].SeenStopping() { x := SomeStopping(pass[..x]); }
  }

  /** It looks at the tier only, and takes no turns. */
  ghost predicate LooksAt(tier: seq<string>, look: Round, k: nat, m: Moment) {
    forall i :: 0 <= i < |look(k, m)| ==> LookedAt(tier, look(k, m)[i])
  }

  predicate LookedAt(tier: seq<string>, e: Event) { e.Look? && !e.turn && e.name in tier }

  lemma PasserLooksAt(others: Others, tier: seq<string>)
    ensures forall k, m :: LooksAt(tier, Passer(others, tier, false), k, m)
  {
    forall k: nat, m ensures LooksAt(tier, Passer(others, tier, false), k, m) {
      forall i | 0 <= i < |tier| ensures LookedAt(tier, Pass(others, k, m, tier, false)[i]) {
        PassLooks(others, k, m, tier, false, |tier|, i);
      }
    }
  }

  lemma AwaitsLater(tier: seq<string>, a: seq<Event>, b: seq<Event>, deadline: nat, l: nat, x: nat)
    requires Awaits(tier, b, deadline, l, x)
    ensures Awaits(tier, a + b, deadline, |a| + l, |a| + x)
  {
    var w := a + b;
    assert w[|a| + x] == b[x] && w[|a| + l - 1] == b[l - 1];
    forall y | |a| + x < y < |a| + l - 1 ensures w[y].Look? { assert w[y] == b[y - |a|]; }
  }

  lemma NapInTheRound(tier: seq<string>, pass: seq<Event>, r: Moment, z: Moment, rest: seq<Event>, deadline: nat)
    returns (x: nat)
    requires AnyStopping(pass) && r.clock < deadline && forall i :: 0 <= i < |pass| ==> LookedAt(tier, pass[i])
    ensures Awaits(tier, pass + [Read(r), Nap(z)] + rest, deadline, |pass| + 1, x)
  {
    x := SomeStopping(pass);
    var w := pass + [Read(r), Nap(z)] + rest;
    assert w[|pass|] == Read(r) && forall i :: 0 <= i < |pass| ==> w[i] == pass[i];
  }

  lemma {:induction false} WaitAwaits(others: Others, k: nat, m: Moment, look: Round, deadline: nat, tier: seq<string>,
                                      l: nat) returns (x: nat)
    requires forall k, m :: LooksAt(tier, look, k, m)
    requires var w := Wait(others, k, m, look, deadline); l < |w| && w[l].Nap?
    ensures Awaits(tier, Wait(others, k, m, look, deadline), deadline, l, x)
    decreases if deadline > m.clock then deadline - m.clock else 0
  {
    var pass := look(k, m);
    assert LooksAt(tier, look, k, m);
    if l < |pass| {
      NotInThePass(others, k, m, look, deadline, tier, l);
      assert false;
    } else {
      var r := others(k + |pass|, Last(m, pass), 0);
      var z := others(k + |pass| + 1, r, POLL_MS);
      NapComesAfter(others, k, m, look, deadline, pass, r, l);
      RoundGoesOn(others, k, m, look, deadline, pass, Last(m, pass), r, z, k + |pass| + 2);
      x := NapHereOrLater(others, k, m, look, deadline, tier, l, pass, r, z);
    }
  }

  lemma NapHereOrLater(others: Others, k: nat, m: Moment, look: Round, deadline: nat, tier: seq<string>, l: nat,
                       pass: seq<Event>, r: Moment, z: Moment) returns (x: nat)
    requires forall k, m :: LooksAt(tier, look, k, m)
    requires var w := Wait(others, k, m, look, deadline); l < |w| && w[l].Nap? && |pass| <= l
    requires AnyStopping(pass) && m.clock <= r.clock < deadline && z.clock >= r.clock + POLL_MS
    requires forall i :: 0 <= i < |pass| ==> LookedAt(tier, pass[i])
    requires Wait(others, k, m, look, deadline)
      == pass + [Read(r), Nap(z)] + Wait(others, k + |pass| + 2, z, look, deadline)
    ensures Awaits(tier, Wait(others, k, m, look, deadline), deadline, l, x)
    decreases if deadline > m.clock then deadline - m.clock else 0, 0
  {
    var rest := Wait(others, k + |pass| + 2, z, look, deadline);
    var head := pass + [Read(r), Nap(z)];
    if l < |head| {
      assert (head + rest)[|pass|] == Read(r);
      x := NapInTheRound(tier, pass, r, z, rest, deadline);
    } else {
      assert (head + rest)[l] == rest[l - |head|];
      var y := WaitAwaits(others, k + |pass| + 2, z, look, deadline, tier, l - |head|);
      AwaitsLater(tier, head, rest, deadline, l - |head|, y);
      x := |head| + y;
    }
  }

  /** A pass is looks alone. */
  lemma NotInThePass(others: Others, k: nat, m: Moment, look: Round, deadline: nat, tier: seq<string>, l: nat)
    requires LooksAt(tier, look, k, m) && l < |look(k, m)| && l < |Wait(others, k, m, look, deadline)|
    ensures !Wait(others, k, m, look, deadline)[l].Nap?
  {
    var pass := look(k, m);
    WaitBeginsWith(others, k, m, look, deadline);
    assert LookedAt(tier, pass[l]);
  }

  lemma WaitBeginsWith(others: Others, k: nat, m: Moment, look: Round, deadline: nat)
    ensures look(k, m) <= Wait(others, k, m, look, deadline)
  {
  }

  /** Where a sleep follows the pass, one was stopping and the deadline was not past. */
  lemma NapComesAfter(others: Others, k: nat, m: Moment, look: Round, deadline: nat, pass: seq<Event>, r: Moment,
                      l: nat)
    requires pass == look(k, m) && r == others(k + |pass|, Last(m, pass), 0) && |pass| <= l
    requires var w := Wait(others, k, m, look, deadline); l < |w| && w[l].Nap?
    ensures AnyStopping(pass) && r.clock < deadline
  {
  }

  lemma WaitIsNeeded(timeout: map<string, nat>, tier: seq<string>, turns: seq<Event>, r: Moment, w: seq<Event>,
                     l: nat, x: nat)
    requires tier != [] && (forall n :: n in tier ==> n in timeout) && |turns| == |tier|
    requires forall i :: 0 <= i < |turns| ==> IsTurn(turns[i]) && turns[i].name in tier
    requires forall i :: 0 <= i < |w| ==> !IsTurn(w[i])
    requires Awaits(tier, w, r.clock + Allowed(timeout, tier), l, x)
    ensures Needed(timeout, tier, turns + ([Read(r)] + w), |turns| + 1 + l)
  {
    var q := OfTheLongest(timeout, tier);
    var n := |turns|;
    var t := turns + ([Read(r)] + w);
    assert t == (turns + [Read(r)]) + w;
    AwaitsLater(tier, turns + [Read(r)], w, r.clock + Allowed(timeout, tier), l, x);
    assert t[n - 1] == turns[n - 1] && t[n] == Read(r);
    forall y | n <= y < n + 1 + l ensures !IsTurn(t[y]) { if y > n { assert t[y] == w[y - n - 1]; } }
    assert NeededAt(timeout, tier, t, n + 1 + l, n, n + 1 + x, q);
  }

  lemma OfTheLongest(timeout: map<string, nat>, tier: seq<string>) returns (q: string)
    requires tier != [] && forall n :: n in tier ==> n in timeout
    ensures q in tier && Allowed(timeout, tier) == 1000 * (timeout[q] + 2)
  {
    LongestIsLongest(timeout, tier, |tier|);
    q := tier[0];
    if LongestTimeout(timeout, tier) > 0 {
      var i :| 0 <= i < |tier| && tier[i] in timeout && timeout[tier[i]] == LongestTimeout(timeout, tier);
      q := tier[i];
    }
  }

  ghost predicate SleepsWell(timeout: map<string, nat>, stop: Stop, k: nat, m: Moment, tiers: seq<seq<string>>, a: nat,
                             l: nat) {
    a < |tiers| ==> var t := stop(k, m, tiers[a]); l < |t| && t[l].Nap? ==> Needed(timeout, tiers[a], t, l)
  }

  lemma NeededLonger(timeout: map<string, nat>, tier: seq<string>, a: seq<Event>, b: seq<Event>, l: nat)
    requires Needed(timeout, tier, a, l)
    ensures Needed(timeout, tier, a + b, l)
  {
    var r: nat, x: nat, q :| NeededAt(timeout, tier, a, l, r, x, q);
    assert forall y :: 0 <= y < |a| ==> (a + b)[y] == a[y];
    assert NeededAt(timeout, tier, a + b, l, r, x, q);
  }

  lemma NeededLater(timeout: map<string, nat>, tier: seq<string>, a: seq<Event>, b: seq<Event>, l: nat)
    requires Needed(timeout, tier, b, l)
    ensures Needed(timeout, tier, a + b, |a| + l)
  {
    var r: nat, x: nat, q :| NeededAt(timeout, tier, b, l, r, x, q);
    var (t, n) := (a + b, |a|);
    AwaitsLater(tier, a, b, b[r].seen.clock + 1000 * (timeout[q] + 2), l, x);
    assert t[n + r] == b[r] && t[n + r - 1] == b[r - 1];
    forall y | n + r <= y < n + l ensures !IsTurn(t[y]) { assert t[y] == b[y - n]; }
    assert NeededAt(timeout, tier, t, n + l, n + r, n + x, q);
  }

  lemma WaitTakesNoTurns(others: Others, k: nat, m: Moment, look: Round, allowed: nat)
    requires forall k, m :: NoTurns(look, k, m)
    ensures var w := Waited(others, k, m, look, allowed); forall i :: 0 <= i < |w| ==> !IsTurn(w[i])
  {
    var w := Waited(others, k, m, look, allowed);
    WaitHasNoTurns(others, k, m, look, allowed);
    forall i | 0 <= i < |w| ensures !IsTurn(w[i]) { if IsTurn(w[i]) { TurnComes(w, i); } }
  }

  /** A sleep is in the wait, after the turns and the clock's reading. */
  lemma NapIsInTheWait(turns: seq<Event>, r: Moment, w: seq<Event>, l: nat)
    requires var t := turns + ([Read(r)] + w); l < |t| && t[l].Nap?
    requires forall i :: 0 <= i < |turns| ==> IsTurn(turns[i])
    ensures |turns| + 1 <= l && l - |turns| - 1 < |w| && w[l - |turns| - 1].Nap?
  {
    var t := turns + ([Read(r)] + w);
    assert forall i :: 0 <= i < |turns| ==> t[i] == turns[i];
  }

  lemma ThenWaitSleepsWell(turns: Round, look: Round, others: Others, k: nat, m: Moment, timeout: map<string, nat>,
                           tier: seq<string>, t: seq<Event>, r: Moment, l: nat)
    requires t == turns(k, m) && r == others(k + |t|, Last(m, t), 0) && |t| == |tier|
    requires forall n :: n in tier ==> n in timeout
    requires forall i :: 0 <= i < |t| ==> IsTurn(t[i]) && t[i].name in tier
    requires forall k, m :: LooksAt(tier, look, k, m)
    requires var w := Waited(others, k + |t|, Last(m, t), look, Allowed(timeout, tier));
      forall i :: 0 <= i < |w| ==> !IsTurn(w[i])
    requires var all := ThenWait(turns, look, others, k, m, Allowed(timeout, tier)); l < |all| && all[l].Nap?
    ensures Needed(timeout, tier, ThenWait(turns, look, others, k, m, Allowed(timeout, tier)), l)
  {
    var deadline := r.clock + Allowed(timeout, tier);
    var w := Wait(others, k + |t| + 1, r, look, deadline);
    forall i | 0 <= i < |w| ensures !IsTurn(w[i]) { assert ([Read(r)] + w)[i + 1] == w[i]; }
    NapIsInTheWait(t, r, w, l);
    var x := WaitAwaits(others, k + |t| + 1, r, look, deadline, tier, l - |t| - 1);
    WaitIsNeeded(timeout, tier, t, r, w, l - |t| - 1, x);
  }

  lemma TierSleepsWell(others: Others, k: nat, m: Moment, timeout: map<string, nat>, tier: seq<string>, l: nat)
    requires forall n :: n in tier ==> n in timeout
    ensures var t := TierTrace(others, k, m, timeout, tier); l < |t| && t[l].Nap? ==> Needed(timeout, tier, t, l)
  {
    var all := TierTrace(others, k, m, timeout, tier);
    if l < |all| && all[l].Nap? {
      var t := Pass(others, k, m, tier, true);
      PassIsLooks(others, k, m, tier, true);
      LooksTakeNoTurns(others, tier);
      WaitTakesNoTurns(others, k + |t|, Last(m, t), Passer(others, tier, false), Allowed(timeout, tier));
      PasserLooksAt(others, tier);
      ThenWaitSleepsWell(Passer(others, tier, true), Passer(others, tier, false), others, k, m, timeout, tier, t,
                         others(k + |t|, Last(m, t), 0), l);
    }
  }

  lemma {:induction false} InTurnSleepsWell(timeout: map<string, nat>, stop: Stop, k: nat, m: Moment,
                                            tiers: seq<seq<string>>, n: nat, l: nat)
    requires n <= |tiers| && forall k, m, a, l :: SleepsWell(timeout, stop, k, m, tiers, a, l)
    requires var t := InTurn(stop, k, m, tiers, n); l < |t| && t[l].Nap?
    ensures exists a :: 0 <= a < |tiers| && Needed(timeout, tiers[a], InTurn(stop, k, m, tiers, n), l)
  {
    if n > 0 {
      var init := InTurn(stop, k, m, tiers, n - 1);
      var last := stop(k + |init|, Last(m, init), tiers[n - 1]);
      if l < |init| {
        InTurnSleepsWell(timeout, stop, k, m, tiers, n - 1, l);
        var a :| 0 <= a < |tiers| && Needed(timeout, tiers[a], init, l);
        NeededLonger(timeout, tiers[a], init, last, l);
      } else {
        assert SleepsWell(timeout, stop, k + |init|, Last(m, init), tiers, n - 1, l - |init|);
        NeededLater(timeout, tiers[n - 1], init, last, l - |init|);
      }
    }
  }
}
