/** The health of one process API: latency percentiles, and how long it has been in its state. */
module ApiHealth {
  import opened Process
  import opened Sorting

  /** The answers a percentile looks back on. */
  const WINDOW: nat := 20

  datatype ApiState = Unknown | Healthy | Slow | Stalled | Down

  /** How a probe came out. */
  datatype Seen = Answered(ms: nat, status: nat) | Timeout | Error

  /** The budgets, in ms. */
  datatype Budget = Budget(p50: Option<nat>, p99: Option<nat>)

  // ----------------------------------------------------------- percentile

  /** Nearest rank: ceil(pct * n / 100), at least 1. */
  function Rank(n: nat, pct: nat): (r: nat)
    ensures n >= 1 && pct <= 100 ==> 1 <= r <= n
  {
    assert pct <= 100 ==> pct * n <= 100 * n;
    var r := (pct * n + 99) / 100;
    if r < 1 then 1 else r
  }

  function Own(): nat -> int { (x: nat) => x }

  /** The nearest-rank percentile. */
  function Percentile(v: seq<nat>, pct: nat): Option<nat>
    requires pct <= 100
  {
    if v == [] then None else Some(Sort(v, Own())[Rank(|v|, pct) - 1])
  }

  function AtMost(v: seq<nat>, x: nat): nat {
    if v == [] then 0 else AtMost(v[1..], x) + if v[0] <= x then 1 else 0
  }

  lemma {:induction false} AtMostAdds(a: seq<nat>, b: seq<nat>, x: nat)
    ensures AtMost(a + b, x) == AtMost(a, x) + AtMost(b, x)
  {
    if a == [] {
      assert a + b == b;
    } else {
      AtMostAdds(a[1..], b, x);
      assert (a + b)[1..] == a[1..] + b;
    }
  }

  lemma {:induction false} InsertCounts(n: nat, v: seq<nat>, x: nat)
    ensures AtMost(Insert(n, v, Own()), x) == AtMost(v, x) + if n <= x then 1 else 0
  {
    if v != [] && n >= v[0] {
      InsertCounts(n, v[1..], x);
    } else {
      assert ([n] + v)[1..] == v;
    }
  }

  /** Sorting does not change how many latencies are at most `x`. */
  lemma {:induction false} SortCounts(v: seq<nat>, x: nat)
    ensures AtMost(Sort(v, Own()), x) == AtMost(v, x)
  {
    if v != [] {
      SortCounts(v[1..], x);
      InsertCounts(v[0], Sort(v[1..], Own()), x);
    }
  }

  lemma {:induction false} AllAtMost(v: seq<nat>, x: nat)
    ensures (forall i :: 0 <= i < |v| ==> v[i] <= x) ==> AtMost(v, x) == |v|
    ensures (forall i :: 0 <= i < |v| ==> v[i] > x) ==> AtMost(v, x) == 0
  {
    if v != [] { AllAtMost(v[1..], x); }
  }

  lemma {:induction false} AtMostBounded(v: seq<nat>, x: nat)
    ensures AtMost(v, x) <= |v|
  {
    if v != [] { AtMostBounded(v[1..], x); }
  }

  /** In a sorted row, `k + 1` elements do not exceed the one at `k`. */
  lemma AtLeastInOrder(s: seq<nat>, k: nat, y: nat)
    requires k < |s| && (forall i, j :: 0 <= i < j < |s| ==> s[i] <= s[j]) && y >= s[k]
    ensures AtMost(s, y) >= k + 1
  {
    var low, high := s[..k + 1], s[k + 1..];
    assert s == low + high;
    AtMostAdds(low, high, y);
    AllAtMost(low, y);
  }

  /** And at most `k` do not exceed anything less. */
  lemma AtMostInOrder(s: seq<nat>, k: nat, y: nat)
    requires k < |s| && (forall i, j :: 0 <= i < j < |s| ==> s[i] <= s[j]) && y < s[k]
    ensures AtMost(s, y) <= k
  {
    var low, high := s[..k], s[k..];
    assert s == low + high;
    AtMostAdds(low, high, y);
    AllAtMost(high, y);
    AtMostBounded(low, y);
  }

  lemma {:induction false} AtMostIsTheSet(v: seq<nat>, y: nat)
    ensures AtMost(v, y) == |set i | 0 <= i < |v| && v[i] <= y|
  {
    var all := set i | 0 <= i < |v| && v[i] <= y;
    if v != [] {
      var n := |v| - 1;
      var before := set i | 0 <= i < |v[..n]| && v[..n][i] <= y;
      AtMostIsTheSet(v[..n], y);
      AtMostAdds(v[..n], [v[n]], y);
      assert v == v[..n] + [v[n]];
      assert all == if v[n] <= y then before + {n} else before;
    }
  }

  /**
   * The percentile is a latency, and the least bound that one latency at
   * least, and `pct` in a hundred of them, do not exceed.
   */
  lemma PercentileIsLeast(v: seq<nat>, pct: nat, y: nat)
    requires v != [] && pct <= 100
    ensures Percentile(v, pct).value in v
    ensures var few := |set i | 0 <= i < |v| && v[i] <= y|;
      few >= 1 && 100 * few >= pct * |v| <==> Percentile(v, pct).value <= y
  {
    RankedIsLeast(v, pct, y);
    AtMostIsTheSet(v, y);
    EnoughForTheRank(|v|, pct, AtMost(v, y));
  }

  lemma EnoughForTheRank(n: nat, pct: nat, few: nat)
    requires n >= 1 && pct <= 100
    ensures few >= Rank(n, pct) <==> few >= 1 && 100 * few >= pct * n
  {
  }

  lemma RankedIsLeast(v: seq<nat>, pct: nat, y: nat)
    requires v != [] && pct <= 100
    ensures Percentile(v, pct).value in v
    ensures AtMost(v, y) >= Rank(|v|, pct) <==> Percentile(v, pct).value <= y
  {
    var s := Sort(v, Own());
    SortSorts(v, Own());
    var k := Rank(|v|, pct) - 1;
    InOrder(s, Own());
    assert s[k] in multiset(s);
    SortCounts(v, y);
    if y >= s[k] { AtLeastInOrder(s, k, y); } else { AtMostInOrder(s, k, y); }
  }

  lemma InOrder(s: seq<nat>, key: nat -> int)
    requires SortedBy(s, key) && forall x: nat :: key(x) == x
    ensures forall i, j :: 0 <= i < j < |s| ==> s[i] <= s[j]
  {
    forall i, j | 0 <= i < j < |s| ensures s[i] <= s[j] { assert key(s[i]) <= key(s[j]); }
  }

  // ------------------------------------------------------------- recording

  /** What one probe makes of its API; `window` has its latency too, if it was answered. */
  function Classify(seen: Seen, window: seq<nat>, budget: Budget): ApiState {
    match seen
    case Timeout => Stalled
    case Error => Down
    case Answered(ms, status) =>
      if status >= 400 then Down
      else
        var p50 := Percentile(window, 50);
        var overP99 := budget.p99.Some? && ms > budget.p99.value;
        var overP50 := budget.p50.Some? && p50.Some? && p50.value > budget.p50.value;
        if overP99 || overP50 then Slow else Healthy
  }

  /** A probe and when it was recorded. */
  type History = seq<(Seen, int)>

  /** The latencies of the answers, in order. */
  ghost function Latencies(h: History): seq<nat> {
    if h == [] then []
    else Latencies(h[..|h| - 1]) + match h[|h| - 1].0 case Answered(ms, _) => [ms] case _ => []
  }

  function LastOf(s: seq<nat>, n: nat): seq<nat> {
    if |s| <= n then s else s[|s| - n..]
  }

  /** The state after a whole history: its last probe, judged with the answers up to it. */
  ghost function StateAfter(h: History, budget: Budget): ApiState {
    if h == [] then Unknown else Classify(h[|h| - 1].0, LastOf(Latencies(h), WINDOW), budget)
  }

  /** At least half of these are over the budget's bound, so their middle one is. */
  ghost predicate MostlyOver(v: seq<nat>, bound: nat) { 2 * |set i | 0 <= i < |v| && v[i] <= bound| < |v| }

  lemma {:induction false} AnsweredIsInTheWindow(h: History)
    requires h != [] && h[|h| - 1].0.Answered?
    ensures LastTwenty(Latencies(h)) != []
  {
  }

  /** The last twenty. */
  function LastTwenty(s: seq<nat>): seq<nat> { if |s| <= 20 then s else s[|s| - 20..] }

  /**
   * The last probe makes the state: stalled if it timed out, down if it failed
   * or was refused, slow if its own latency is over the one budget or most of
   * the last twenty are over the other, and healthy if not.
   */
  lemma StateIsTheLastProbes(h: History, budget: Budget)
    requires h != []
    ensures StateAfter(h, budget) == match h[|h| - 1].0
      case Timeout => Stalled
      case Error => Down
      case Answered(ms, status) =>
        if status >= 400 then Down
        else if (budget.p99.Some? && ms > budget.p99.value)
          || (budget.p50.Some? && MostlyOver(LastTwenty(Latencies(h)), budget.p50.value)) then Slow
        else Healthy
  {
    var v := LastTwenty(Latencies(h));
    if h[|h| - 1].0.Answered? && budget.p50.Some? {
      AnsweredIsInTheWindow(h);
      PercentileIsLeast(v, 50, budget.p50.value);
    }
  }

  /** The state after each probe of a history. */
  ghost function States(h: History, budget: Budget): (s: seq<ApiState>)
    ensures |s| == |h|
  {
    if h == [] then [] else States(h[..|h| - 1], budget) + [StateAfter(h, budget)]
  }

  /** Where the latest unbroken block of one state begins. */
  function Trailing(s: seq<ApiState>): (b: nat)
    requires s != []
    ensures b < |s|
  {
    if |s| > 1 && s[|s| - 2] == s[|s| - 1] then Trailing(s[..|s| - 1]) else |s| - 1
  }

  ghost function BlockStart(h: History, budget: Budget): (b: nat)
    requires h != []
    ensures b < |h|
  {
    Trailing(States(h, budget))
  }

  /** From `b` on it is the last state throughout; before, it was not. */
  ghost predicate MaximalBlock(s: seq<ApiState>, b: nat) {
    b < |s| && (forall n :: b <= n < |s| ==> s[n] == s[|s| - 1]) && (b > 0 ==> s[b - 1] != s[|s| - 1])
  }

  lemma {:induction false} TrailingIsMaximal(s: seq<ApiState>)
    requires s != []
    ensures MaximalBlock(s, Trailing(s))
  {
    if |s| > 1 && s[|s| - 2] == s[|s| - 1] { TrailingIsMaximal(s[..|s| - 1]); }
  }

  lemma {:induction false} StatesAreAfter(h: History, budget: Budget, n: nat)
    requires n < |h|
    ensures States(h, budget)[n] == StateAfter(h[..n + 1], budget)
  {
    if n < |h| - 1 {
      StatesAreAfter(h[..|h| - 1], budget, n);
      assert h[..|h| - 1][..n + 1] == h[..n + 1];
    } else {
      assert h[..n + 1] == h;
    }
  }

  /** From `BlockStart` on every probe left the API in the state it is in now; the one before did not. */
  lemma BlockStartIsMaximal(h: History, budget: Budget, n: nat)
    requires h != [] && n < |h|
    ensures var b := BlockStart(h, budget); var now := StateAfter(h, budget);
      && (b <= n ==> StateAfter(h[..n + 1], budget) == now)
      && (n + 1 == b ==> StateAfter(h[..n + 1], budget) != now)
  {
    TrailingIsMaximal(States(h, budget));
    StatesAreAfter(h, budget, n);
    StatesAreAfter(h, budget, |h| - 1);
    assert h[..|h|] == h;
  }

  /** One API's entry in the store. */
  datatype Entry = Entry(
    state: ApiState, since: int, lastMs: Option<nat>, p50: Option<nat>, p99: Option<nat>, checks: nat, window: seq<nat>)
  {
    /** After recording one probe. */
    function Record(seen: Seen, now: int, budget: Budget): Entry {
      var w := if seen.Answered? then LastOf(window + [seen.ms], WINDOW) else window;
      var next := Classify(seen, w, budget);
      Entry(
        next, if next != state then now else since,
        if seen.Answered? then Some(seen.ms) else None,
        if seen.Answered? then Percentile(w, 50) else p50,
        if seen.Answered? then Percentile(w, 99) else p99,
        checks + 1, w)
    }
  }

  /** A new entry, made by the API's first probe at `now`. */
  function NewEntry(now: int): Entry { Entry(Unknown, now, None, None, None, 0, []) }

  /** The entry after a whole history. */
  function After(h: History, budget: Budget): Entry {
    if h == [] then NewEntry(0)
    else
      var last := h[|h| - 1];
      (if |h| == 1 then NewEntry(last.1) else After(h[..|h| - 1], budget)).Record(last.0, last.1, budget)
  }

  class ApiHealth {
    const budget: Budget
    var state: ApiState
    var since: int
    var lastMs: Option<nat>
    var p50: Option<nat>
    var p99: Option<nat>
    var checks: nat
    var window: seq<nat>

    function View(): Entry reads this { Entry(state, since, lastMs, p50, p99, checks, window) }

    constructor (budget: Budget, now: int)
      ensures View() == NewEntry(now) && this.budget == budget
    {
      this.budget := budget;
      state, since, lastMs, p50, p99, checks, window := Unknown, now, None, None, None, 0, [];
    }

    /** Record a probe: the state now, and since when. */
    method Record(seen: Seen, now: int) returns (s: ApiState, from: int)
      requires |window| <= WINDOW
      modifies this
      ensures View() == old(View()).Record(seen, now, budget) && |window| <= WINDOW
      ensures s == state && from == since
    {
      checks := checks + 1;
      KeepLatency(seen);
      var next := Classify(seen, window, budget);
      if next != state {
        state := next;
        since := now;
      }
      s, from := state, since;
    }

    method KeepLatency(seen: Seen)
      requires |window| <= WINDOW
      modifies this`lastMs, this`window, this`p50, this`p99
      ensures window == if seen.Answered? then LastOf(old(window) + [seen.ms], WINDOW) else old(window)
      ensures lastMs == if seen.Answered? then Some(seen.ms) else None
      ensures p50 == if seen.Answered? then Percentile(window, 50) else old(p50)
      ensures p99 == if seen.Answered? then Percentile(window, 99) else old(p99)
    {
      match seen {
        case Answered(ms, status) =>
          lastMs := Some(ms);
          window := window + [ms];
          if |window| > WINDOW {
            window := window[1..];
          }
          p50 := Percentile(window, 50);
          p99 := Percentile(window, 99);
        case _ => lastMs := None;
      }
    }
  }

  /**
   * What an entry says of a history of probes: their number, the last twenty
   * latencies answered and their percentiles, the state of the last probe, and
   * the time of the first probe of the unbroken block in it.
   */
  ghost predicate Tells(e: Entry, h: History, budget: Budget) {
    && TellsLatencies(e, h)
    && e.state == StateAfter(h, budget) && (h != [] ==> e.since == h[BlockStart(h, budget)].1)
  }

  ghost predicate TellsLatencies(e: Entry, h: History) {
    && e.checks == |h| && e.window == LastTwenty(Latencies(h))
    && (h != [] ==> e.lastMs == match h[|h| - 1].0 case Answered(ms, _) => Some(ms) case _ => None)
    && e.p50 == Percentile(e.window, 50) && e.p99 == Percentile(e.window, 99)
  }

  /** After every history the entry tells it. */
  lemma {:induction false} EntryTellsTheHistory(h: History, budget: Budget)
    requires h != []
    ensures Tells(After(h, budget), h, budget)
  {
    var init, last := h[..|h| - 1], h[|h| - 1];
    assert h == init + [last];
    if init != [] { EntryTellsTheHistory(init, budget); }
    RecordTells(if init == [] then NewEntry(last.1) else After(init, budget), init, last.0, last.1, budget);
  }

  lemma LatencyTold(e: Entry, h: History, seen: Seen, now: int, budget: Budget)
    requires TellsLatencies(e, h)
    ensures TellsLatencies(e.Record(seen, now, budget), h + [(seen, now)])
    ensures Latencies(h + [(seen, now)]) == Latencies(h) + match seen case Answered(ms, _) => [ms] case _ => []
  {
    var h' := h + [(seen, now)];
    assert h'[..|h|] == h && h'[|h|] == (seen, now);
    if seen.Answered? { WindowSlides(Latencies(h), seen.ms, WINDOW); }
  }

  lemma {:induction false} RecordTells(e: Entry, h: History, seen: Seen, now: int, budget: Budget)
    requires Tells(e, h, budget)
    ensures Tells(e.Record(seen, now, budget), h + [(seen, now)], budget)
  {
    var (h', t) := (h + [(seen, now)], e.Record(seen, now, budget));
    assert h'[..|h|] == h && h'[|h|] == (seen, now);
    LatencyTold(e, h, seen, now, budget);
    assert t.state == StateAfter(h', budget);
    NextBlock(h, h', budget);
  }

  lemma {:induction false} NextBlock(h: History, h': History, budget: Budget)
    requires |h'| == |h| + 1 && h'[..|h|] == h
    ensures BlockStart(h', budget)
      == if h != [] && StateAfter(h', budget) == StateAfter(h, budget) then BlockStart(h, budget) else |h|
  {
    var (s, s') := (States(h, budget), States(h', budget));
    assert s' == s + [StateAfter(h', budget)] && s'[..|s|] == s;
    assert h != [] ==> s[|s| - 1] == StateAfter(h, budget);
  }

  lemma WindowSlides(all: seq<nat>, ms: nat, n: nat)
    requires n >= 1
    ensures LastOf(LastOf(all, n) + [ms], n) == LastOf(all + [ms], n)
  {
  }

  // --------------------------------------------------------------- stalls

  /** `watch_api`'s test for ending a run whose API has stalled too long. Times in ms. */
  predicate StalledTooLong(state: ApiState, since: int, now: int, limitSecs: nat) {
    state == Stalled && (var secs := RanSecs(since, now); (if secs < 0 then 0 else secs) >= limitSecs)
  }

  /** Probes from `b` to the last all timed out, and the one before `b` did not. */
  ghost predicate UnbrokenTimeouts(h: History, b: nat) {
    && b < |h| && (forall i :: b <= i < |h| ==> h[i].0 == Timeout) && (b > 0 ==> h[b - 1].0 != Timeout)
  }

  /**
   * A run is ended for a stall exactly when the latest probes, in an unbroken
   * row, all timed out, and the first of them was recorded at least the limit
   * ago. The row may reach back before the current run began.
   */
  lemma {:induction false} StallIsUnbrokenTimeouts(h: History, budget: Budget, now: int, limitSecs: nat)
    requires h != [] && limitSecs >= 1
    ensures var b := BlockStart(h, budget);
      StalledTooLong(StateAfter(h, budget), h[b].1, now, limitSecs)
      <==> UnbrokenTimeouts(h, b) && now - h[b].1 >= 1000 * limitSecs
  {
    TimeoutIsStalled(h, budget, |h| - 1);
    if States(h, budget)[|h| - 1] == Stalled { BlockOfTimeouts(h, budget); }
  }

  lemma {:induction false} BlockOfTimeouts(h: History, budget: Budget)
    requires h != [] && States(h, budget)[|h| - 1] == Stalled
    ensures UnbrokenTimeouts(h, BlockStart(h, budget))
  {
    var b := BlockStart(h, budget);
    TrailingIsMaximal(States(h, budget));
    forall i | 0 <= i < |h| ensures States(h, budget)[i] == Stalled <==> h[i].0 == Timeout {
      TimeoutIsStalled(h, budget, i);
    }
  }

  lemma {:induction false} TimeoutIsStalled(h: History, budget: Budget, i: nat)
    requires i < |h|
    ensures States(h, budget)[i] == Stalled <==> h[i].0 == Timeout
  {
    if i < |h| - 1 { TimeoutIsStalled(h[..|h| - 1], budget, i); }
  }

  lemma TimeoutsAreStalled(h: History, budget: Budget)
    requires h != [] && h[|h| - 1].0 == Timeout
    ensures StateAfter(h, budget) == Stalled
  {
    TimeoutIsStalled(h, budget, |h| - 1);
  }

  /**
   * The history is the API's, not the run's. A run whose first probe of it
   * times out is ended for a stall there and then if and only if the probes
   * of the runs before ended in a row of timeouts reaching back the limit.
   */
  lemma FirstTimeoutEndsTheRunIff(before: History, now: int, budget: Budget, limitSecs: nat)
    requires limitSecs >= 1
    ensures var h := before + [(Timeout, now)];
      StalledTooLong(StateAfter(h, budget), h[BlockStart(h, budget)].1, now, limitSecs)
      <==>
        && before != [] && UnbrokenTimeouts(before, BlockStart(before, budget))
        && now - before[BlockStart(before, budget)].1 >= 1000 * limitSecs
  {
    var h := before + [(Timeout, now)];
    assert h[..|before|] == before;
    NextBlock(before, h, budget);
    TimeoutsAreStalled(h, budget);
    if before != [] {
      TimeoutIsStalled(before, budget, |before| - 1);
      var b := BlockStart(before, budget);
      if StateAfter(before, budget) == Stalled {
        BlockOfTimeouts(before, budget);
        assert h[b] == before[b];
      } else {
        assert before[|before| - 1].0 != Timeout;
      }
    }
  }

  /**
   * With one timeout at 0, recorded for the run before, a new run whose first probe
   * times out at 10 s is over its 10 s.
   */
  lemma ANewRunEndsOnItsFirstTimeout(budget: Budget)
    ensures var h := [(Timeout, 0), (Timeout, 10000)];
      StalledTooLong(StateAfter(h, budget), h[BlockStart(h, budget)].1, 10000, 10)
  {
    var before: History := [(Timeout, 0)];
    assert before + [(Timeout, 10000)] == [(Timeout, 0), (Timeout, 10000)];
    TimeoutsAreStalled(before, budget);
    BlockOfTimeouts(before, budget);
    FirstTimeoutEndsTheRunIff(before, 10000, budget, 10);
  }
}
