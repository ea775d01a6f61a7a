/** The shutdown planner: `depends_on` as a graph, and the tiers processes stop in. */
module StopTiers {
  import opened Names

  /** Each registered process with the names its `depends_on` lists. */
  type Graph = map<string, seq<string>>

  /** `u` names `v` in its `depends_on`, and both are registered. */
  ghost predicate Edge(g: Graph, u: string, v: string) {
    u in g && v in g && v in g[u]
  }

  ghost predicate IsPath(g: Graph, p: seq<string>) {
    && p != []
    && (forall i :: 0 <= i < |p| ==> p[i] in g)
    && (forall i, j :: 0 <= i && j == i + 1 < |p| ==> Edge(g, p[i], p[j]))
  }

  /** `u` depends on `v`, directly or through others. */
  ghost predicate DependsOn(g: Graph, u: string, v: string) {
    exists p :: IsPath(g, p) && |p| >= 2 && p[0] == u && p[|p| - 1] == v
  }

  ghost predicate Acyclic(g: Graph) {
    forall u {:trigger DependsOn(g, u, u)} :: u in g ==> !DependsOn(g, u, u)
  }

  /** The longest dependency path from `u` has `d` edges. */
  ghost predicate IsDepth(g: Graph, u: string, d: nat) {
    && (exists p :: IsPath(g, p) && p[0] == u && |p| == d + 1)
    && PathsWithin(g, u, d + 1)
  }

  /** No path from `u` visits more than `d` processes. */
  ghost predicate PathsWithin(g: Graph, u: string, d: nat) {
    forall p :: IsPath(g, p) && p[0] == u ==> |p| <= d
  }

  // ---------------------------------------------------------------- paths

  lemma ConsPath(g: Graph, u: string, p: seq<string>)
    requires IsPath(g, p) && Edge(g, u, p[0])
    ensures IsPath(g, [u] + p)
  {
    var q := [u] + p;
    forall i, j | 0 <= i && j == i + 1 < |q| ensures Edge(g, q[i], q[j]) {
      if i > 0 { assert Edge(g, p[i - 1], p[j - 1]); }
    }
  }

  lemma OnePath(g: Graph, u: string)
    requires u in g
    ensures IsPath(g, [] + [u])
  {
  }

  lemma SlicePath(g: Graph, p: seq<string>, i: nat, j: nat)
    requires IsPath(g, p) && i < j <= |p|
    ensures IsPath(g, p[i..j])
  {
    var q := p[i..j];
    forall a, b | 0 <= a && b == a + 1 < |q| ensures Edge(g, q[a], q[b]) {
      assert Edge(g, p[i + a], p[i + b]);
    }
  }

  lemma JoinPaths(g: Graph, p: seq<string>, q: seq<string>)
    requires IsPath(g, p) && IsPath(g, q) && p[|p| - 1] == q[0]
    ensures IsPath(g, p + q[1..])
  {
    var r := p + q[1..];
    forall i, j | 0 <= i && j == i + 1 < |r| ensures Edge(g, r[i], r[j]) {
      if j < |p| {
        assert Edge(g, p[i], p[j]);
      } else {
        assert Edge(g, q[i - |p| + 1], q[j - |p| + 1]);
      }
    }
  }

  /** Without a cycle no path meets a process twice. */
  lemma AcyclicPathsAreSimple(g: Graph, p: seq<string>)
    requires Acyclic(g) && IsPath(g, p)
    ensures forall i, j :: 0 <= i < j < |p| ==> p[i] != p[j]
  {
    forall i, j | 0 <= i < j < |p| ensures p[i] != p[j] {
      SlicePath(g, p, i, j + 1);
      var q := p[i..j + 1];
      assert IsPath(g, q) && |q| >= 2 && q[0] == p[i] && q[|q| - 1] == p[j];
      assert DependsOn(g, p[i], p[j]) && p[i] in g;
    }
  }

  lemma {:induction false} SimpleSequencesAreShort(p: seq<string>, s: set<string>)
    requires forall i, j :: 0 <= i < j < |p| ==> p[i] != p[j]
    requires forall i :: 0 <= i < |p| ==> p[i] in s
    ensures |p| <= |s|
  {
    if p != [] {
      var n := |p| - 1;
      SimpleSequencesAreShort(p[..n], s - {p[n]});
      assert |s - {p[n]}| == |s| - 1;
    }
  }

  /** The pigeonhole: a path of an acyclic graph visits each process at most once. */
  lemma AcyclicPathsAreShort(g: Graph, p: seq<string>)
    requires Acyclic(g) && IsPath(g, p)
    ensures |p| <= |g|
  {
    AcyclicPathsAreSimple(g, p);
    SimpleSequencesAreShort(p, g.Keys);
    assert |g.Keys| == |g|;
  }

  /** A process is strictly deeper than everything it depends on. */
  lemma DependentsAreDeeper(g: Graph, u: string, v: string, du: nat, dv: nat)
    requires DependsOn(g, u, v) && IsDepth(g, u, du) && IsDepth(g, v, dv)
    ensures dv < du
  {
    var p :| IsPath(g, p) && |p| >= 2 && p[0] == u && p[|p| - 1] == v;
    var q :| IsPath(g, q) && q[0] == v && |q| == dv + 1;
    JoinPaths(g, p, q);
    assert (p + q[1..])[0] == u;
  }

  // ------------------------------------------------------- memoised depth

  ghost predicate MemoIsDepth(g: Graph, memo: map<string, nat>) {
    forall n {:trigger memo[n]} :: n in memo ==> n in g && IsDepth(g, n, memo[n])
  }

  /** What a memo means: true depths, when there is no cycle. */
  ghost predicate MemoTrue(g: Graph, memo: map<string, nat>) {
    Acyclic(g) ==> MemoIsDepth(g, memo)
  }

  /** The depth given to a process, and the memo after: what the recursion computes on any graph. */
  function DepthOf(name: string, deps: Graph, memo: map<string, nat>, budget: nat): (nat, map<string, nat>)
    requires name in deps
    decreases budget, 0
  {
    if name in memo then (memo[name], memo)
    else if budget == 0 then (0, memo)
    else
      var (d, after) := Deepest(deps[name], deps, memo, budget - 1);
      (d, after[name := d])
  }

  /** The depth of a process that depends on these: 0 if on none that is known. */
  function Deepest(ds: seq<string>, deps: Graph, memo: map<string, nat>, budget: nat): (nat, map<string, nat>)
    decreases budget, |ds| + 1
  {
    if ds == [] then (0, memo)
    else
      var (d, after) := Deepest(ds[..|ds| - 1], deps, memo, budget);
      var last := ds[|ds| - 1];
      if last !in deps then (d, after)
      else
        var (below, m) := DepthOf(last, deps, after, budget);
        (if 1 + below > d then 1 + below else d, m)
  }

  /** The levels of these processes, the memo handed from each to the next. */
  function Depths(names: seq<string>, deps: Graph): (map<string, nat>, map<string, nat>)
    requires forall n :: n in names ==> n in deps
  {
    if names == [] then (map[], map[])
    else
      var (init, last) := (names[..|names| - 1], names[|names| - 1]);
      var (level, memo) := Depths(init, deps);
      var (d, m) := DepthOf(last, deps, memo, |deps|);
      (level[last := d], m)
  }

  /**
   * The memoised, budgeted recursion. `trail` is the chain of callers: one
   * unit of budget is spent per process on it. On an acyclic graph the budget
   * is never zero, so every depth asked for is memoised and is the true one.
   */
  method Depth(name: string, deps: Graph, memo: map<string, nat>, budget: nat, ghost trail: seq<string>)
    returns (d: nat, memo': map<string, nat>)
    requires IsPath(deps, trail + [name]) && |trail| + budget == |deps|
    requires MemoTrue(deps, memo)
    ensures Acyclic(deps) ==> budget > 0 && name in deps && IsDepth(deps, name, d)
    ensures MemoTrue(deps, memo')
    ensures Acyclic(deps) ==> name in memo' && memo'[name] == d
    ensures name in deps && (d, memo') == DepthOf(name, deps, memo, budget)
    decreases budget, 0
  {
    ghost var acyclic := Acyclic(deps);
    assert name == (trail + [name])[|trail|];
    if acyclic { AcyclicPathsAreShort(deps, trail + [name]); }
    if name in memo { return memo[name], memo; }
    if budget == 0 { return 0, memo; }
    ghost var deepest;
    d, memo', deepest := DeepestOf(name, deps, memo, budget - 1, trail);
    if acyclic { FromNeighbours(deps, name, d, deepest); }
    memo' := memo'[name := d];
  }

  /** The recursion's loop over what a process depends on; `deepest` is a longest path by way of it. */
  method DeepestOf(name: string, deps: Graph, memo: map<string, nat>, budget: nat, ghost trail: seq<string>)
    returns (d: nat, memo': map<string, nat>, ghost deepest: seq<string>)
    requires IsPath(deps, trail + [name]) && |trail| + 1 + budget == |deps| && name in deps
    requires MemoTrue(deps, memo)
    ensures MemoTrue(deps, memo') && (d, memo') == Deepest(deps[name], deps, memo, budget)
    ensures Acyclic(deps) ==> Longest(deps, name, deepest, d) && FirstWithin(deps, deps[name], |deps[name]|, d)
    decreases budget, 1
  {
    ghost var acyclic := Acyclic(deps);
    var ds := deps[name];
    d, memo', deepest := 0, memo, [name];
    var i := 0;
    while i < |ds|
      invariant 0 <= i <= |ds| && SoFar(deps, ds, i, memo, budget, d, memo')
      invariant MemoTrue(deps, memo')
      invariant acyclic ==> Longest(deps, name, deepest, d) && FirstWithin(deps, ds, i, d)
    {
      ghost var before, memoBefore := d, memo';
      if ds[i] in deps {
        var below;
        StepDown(deps, trail, name, ds[i]);
        below, memo' := Depth(ds[i], deps, memo', budget, trail + [name]);
        if 1 + below > d {
          d := 1 + below;
          if acyclic { deepest := Deeper(deps, name, ds[i], below); }
        }
      }
      if acyclic { OneMoreWithin(deps, ds, i, before, d); }
      OneMoreSoFar(deps, ds, i, memo, budget, before, memoBefore, d, memo');
      i := i + 1;
    }
    assert ds[..i] == ds;
  }

  ghost predicate Longest(g: Graph, u: string, p: seq<string>, d: nat) {
    IsPath(g, p) && p[0] == u && |p| == d + 1
  }

  /** `d` and `after` are what the first `n` of these come to. */
  predicate SoFar(deps: Graph, ds: seq<string>, n: nat, memo: map<string, nat>, budget: nat, d: nat,
                  after: map<string, nat>) {
    n <= |ds| && (d, after) == Deepest(ds[..n], deps, memo, budget)
  }

  lemma OneMoreSoFar(deps: Graph, ds: seq<string>, n: nat, memo: map<string, nat>, budget: nat,
                     d: nat, m: map<string, nat>, d': nat, m': map<string, nat>)
    requires n < |ds| && SoFar(deps, ds, n, memo, budget, d, m)
    requires if ds[n] !in deps then (d', m') == (d, m)
      else
        var (below, after) := DepthOf(ds[n], deps, m, budget);
        (d', m') == (if 1 + below > d then 1 + below else d, after)
    ensures SoFar(deps, ds, n + 1, memo, budget, d', m')
  {
    assert ds[..n + 1][..n] == ds[..n];
  }

  /** No path from the first `n` of these processes visits more than `d`. */
  ghost predicate FirstWithin(g: Graph, ds: seq<string>, n: nat, d: nat) {
    n <= |ds| && forall j :: 0 <= j < n ==> PathsWithin(g, ds[j], d)
  }

  lemma OneMoreWithin(g: Graph, ds: seq<string>, n: nat, d: nat, e: nat)
    requires n < |ds| && FirstWithin(g, ds, n, d) && d <= e
    requires ds[n] in g ==> PathsWithin(g, ds[n], e)
    ensures FirstWithin(g, ds, n + 1, e)
  {
  }

  lemma ExtendMemo(g: Graph, memo: map<string, nat>, n: string, d: nat)
    requires MemoTrue(g, memo) && (Acyclic(g) ==> n in g && IsDepth(g, n, d))
    ensures MemoTrue(g, memo[n := d])
  {
  }

  lemma StepDown(g: Graph, trail: seq<string>, u: string, v: string)
    requires IsPath(g, trail + [u]) && Edge(g, u, v)
    ensures IsPath(g, trail + [u] + [v])
  {
    assert IsPath(g, [u, v]);
    JoinPaths(g, trail + [u], [u, v]);
    assert trail + [u] + [u, v][1..] == trail + [u] + [v];
  }

  lemma Deeper(g: Graph, u: string, v: string, below: nat) returns (p: seq<string>)
    requires Edge(g, u, v) && IsDepth(g, v, below)
    ensures IsPath(g, p) && p[0] == u && |p| == below + 2
  {
    var q :| IsPath(g, q) && q[0] == v && |q| == below + 1;
    ConsPath(g, u, q);
    p := [u] + q;
  }

  lemma FromNeighbours(g: Graph, u: string, d: nat, deepest: seq<string>)
    requires u in g
    requires FirstWithin(g, g[u], |g[u]|, d)
    requires IsPath(g, deepest) && deepest[0] == u && |deepest| == d + 1
    ensures IsDepth(g, u, d)
  {
    forall p | IsPath(g, p) && p[0] == u ensures |p| <= d + 1 {
      if |p| > 1 {
        assert Edge(g, p[0], p[1]);
        SlicePath(g, p, 1, |p|);
        assert p[1..][0] == p[1];
      }
    }
  }

  // ----------------------------------------------------------------- tiers

  /** The names of `names` at level `k`, in order. */
  function AtLevel(names: seq<string>, level: map<string, nat>, k: nat): (t: seq<string>)
    requires forall n :: n in names ==> n in level
    ensures forall n :: n in t <==> n in names && level[n] == k
  {
    if names == [] then []
    else
      var rest := AtLevel(names[..|names| - 1], level, k);
      var last := names[|names| - 1];
      if level[last] == k then rest + [last] else rest
  }

  lemma {:induction false} AtLevelInOrder(names: seq<string>, level: map<string, nat>, k: nat)
    requires forall n :: n in names ==> n in level
    requires Increasing(names)
    ensures Increasing(AtLevel(names, level, k))
  {
    if names != [] {
      var (init, last) := (names[..|names| - 1], names[|names| - 1]);
      var t := AtLevel(init, level, k);
      AtLevelInOrder(init, level, k);
      forall i | 0 <= i < |t| ensures Less(t[i], last) {
        assert t[i] in init;
        var j :| 0 <= j < |init| && init[j] == t[i];
        assert names[j] == t[i];
      }
    }
  }

  lemma {:induction false} AtLevelFrame(names: seq<string>, level: map<string, nat>, n: string, d: nat, k: nat)
    requires forall m :: m in names ==> m in level
    requires n !in names
    ensures AtLevel(names, level[n := d], k) == AtLevel(names, level, k)
  {
    if names != [] {
      AtLevelFrame(names[..|names| - 1], level, n, d, k);
    }
  }

  /** What the shutdown plan promises about `tiers`, the first to stop first. */
  ghost predicate IsPlan(g: Graph, tiers: seq<seq<string>>) {
    && Partition(g, tiers)
    && (Acyclic(g) ==> DependentsFirst(g, tiers))
    && exists level :: Levels(g, level) && ByLevel(level, tiers)
  }

  /** What the sorted processes are given, one after the other; the true depths when there is no cycle. */
  ghost predicate Levels(g: Graph, level: map<string, nat>) {
    level.Keys == g.Keys && MemoTrue(g, level) && exists names :: GivenInOrder(g, names, level)
  }

  ghost predicate GivenInOrder(g: Graph, names: seq<string>, level: map<string, nat>) {
    IsListing(names, g.Keys) && level == Depths(names, g).0
  }

  ghost predicate InTier(tiers: seq<seq<string>>, i: int, n: string) {
    0 <= i < |tiers| && n in tiers[i]
  }

  ghost predicate NoRepeats(t: seq<string>) {
    forall a, b :: 0 <= a < b < |t| ==> t[a] != t[b]
  }

  lemma InOrderOnce(t: seq<string>)
    requires Increasing(t)
    ensures NoRepeats(t)
  {
    forall a, b | 0 <= a < b < |t| ensures t[a] != t[b] { OneOrTheOther(t[a], t[b]); }
  }

  ghost predicate HasTier(tiers: seq<seq<string>>, n: string) {
    exists i :: InTier(tiers, i, n)
  }

  ghost predicate IsTier(tiers: seq<seq<string>>, i: nat) {
    i < |tiers| && tiers[i] != [] && Increasing(tiers[i])
  }

  /** Every process is in exactly one tier, once and in its place among the sorted; no tier is empty. */
  ghost predicate Partition(g: Graph, tiers: seq<seq<string>>) {
    && (forall i :: 0 <= i < |tiers| ==> IsTier(tiers, i))
    && (forall i, n :: InTier(tiers, i, n) ==> n in g)
    && (forall n {:trigger HasTier(tiers, n)} :: n in g ==> HasTier(tiers, n))
    && (forall i, j, n :: InTier(tiers, i, n) && InTier(tiers, j, n) ==> i == j)
  }

  /** A process's tier is strictly before that of everything it depends on. */
  ghost predicate DependentsFirst(g: Graph, tiers: seq<seq<string>>) {
    forall i, j, u, v :: InTier(tiers, i, u) && InTier(tiers, j, v) && DependsOn(g, u, v) ==> i < j
  }

  /** The tiers follow the levels, deepest first; one level is one tier. */
  ghost predicate ByLevel(level: map<string, nat>, tiers: seq<seq<string>>) {
    && (forall i, n :: InTier(tiers, i, n) ==> n in level)
    && (forall i, j, u, v :: InTier(tiers, i, u) && InTier(tiers, j, v) ==> (i < j <==> level[u] > level[v]))
  }

  lemma {:induction false} ByLevelIsPlan(g: Graph, level: map<string, nat>, tiers: seq<seq<string>>)
    requires Levels(g, level) && ByLevel(level, tiers) && Partition(g, tiers)
    ensures IsPlan(g, tiers)
  {
    if Acyclic(g) {
      forall i, j, u, v | InTier(tiers, i, u) && InTier(tiers, j, v) && DependsOn(g, u, v) ensures i < j {
        DependentsAreDeeper(g, u, v, level[u], level[v]);
      }
    }
  }

  /**
   * The shutdown tiers, by depth: on an acyclic graph a process's longest
   * dependency path. On any graph, cyclic or naming unknown processes, this
   * returns and puts each process in one tier.
   */
  method StopTiers(deps: Graph) returns (tiers: seq<seq<string>>)
    ensures IsPlan(deps, tiers)
  {
    var levels;
    ghost var names, level;
    levels, names, level := ByDepth(deps);
    tiers := DeepestFirst(deps, names, level, levels);
    ByLevelIsPlan(deps, level, tiers);
  }

  /** The loop over the sorted names, each put at its depth. */
  method ByDepth(deps: Graph)
    returns (levels: seq<seq<string>>, ghost names: seq<string>, ghost level: map<string, nat>)
    ensures Levels(deps, level) && Increasing(names) && Leveled(names, level, levels)
  {
    var all := Listing(deps.Keys);
    var memo: map<string, nat> := map[];
    levels, names, level := [], all, map[];
    var i := 0;
    while i < |all|
      invariant 0 <= i <= |all|
      invariant MemoTrue(deps, memo) && MemoTrue(deps, level)
      invariant Leveled(all[..i], level, levels) && Reached(all, i, deps, level, memo)
    {
      var d;
      ghost var old_ := memo;
      OnePath(deps, all[i]);
      NotYet(all, i);
      d, memo := Depth(all[i], deps, memo, |deps|, []);
      levels := Place(all[..i], level, levels, all[i], d);
      NextReached(all, i, deps, level, old_, d, memo);
      level := level[all[i] := d];
      i := i + 1;
    }
    assert all[..i] == all;
    assert level.Keys == deps.Keys;
    assert GivenInOrder(deps, all, level);
  }

  ghost predicate Reached(names: seq<string>, i: nat, deps: Graph, level: map<string, nat>, memo: map<string, nat>) {
    i <= |names| && (forall n :: n in names ==> n in deps) && (level, memo) == Depths(names[..i], deps)
  }

  lemma NextReached(names: seq<string>, i: nat, deps: Graph, level: map<string, nat>, memo: map<string, nat>, d: nat,
                    m: map<string, nat>)
    requires Reached(names, i, deps, level, memo) && i < |names| && MemoTrue(deps, level)
    requires names[i] in deps && (d, m) == DepthOf(names[i], deps, memo, |deps|)
    requires Acyclic(deps) ==> IsDepth(deps, names[i], d)
    ensures Reached(names, i + 1, deps, level[names[i] := d], m) && MemoTrue(deps, level[names[i] := d])
    ensures names[..i + 1] == names[..i] + [names[i]]
  {
    UpTo(names, i);
    ExtendMemo(deps, level, names[i], d);
  }

  lemma NotYet(names: seq<string>, i: nat)
    requires Increasing(names) && i < |names|
    ensures names[i] !in names[..i]
  {
    OneOrTheOther(names[i], names[i]);
  }

  lemma UpTo(names: seq<string>, i: nat)
    requires i < |names|
    ensures names[..i + 1] == names[..i] + [names[i]] && names[..i + 1][..i] == names[..i]
  {
  }

  /** Reverse the levels and drop the empty ones. */
  method DeepestFirst(ghost deps: Graph, ghost names: seq<string>, ghost level: map<string, nat>,
                      levels: seq<seq<string>>)
    returns (tiers: seq<seq<string>>)
    requires Increasing(names) && level.Keys == deps.Keys && Leveled(names, level, levels)
    ensures ByLevel(level, tiers) && Partition(deps, tiers)
  {
    tiers := [];
    var k := |levels|;
    while k > 0
      invariant 0 <= k <= |levels|
      invariant forall t :: 0 <= t < |tiers| ==> tiers[t] != [] && Increasing(tiers[t])
      invariant forall t, n :: InTier(tiers, t, n) ==> n in level && level[n] >= k
      invariant forall n :: n in level && level[n] >= k ==> exists t :: InTier(tiers, t, n)
      invariant ByLevel(level, tiers)
    {
      k := k - 1;
      AtLevelInOrder(names, level, k);
      if levels[k] != [] {
        AddTier(names, level, k, tiers, levels[k]);
        tiers := tiers + [levels[k]];
      } else {
        assert forall n :: n in level && level[n] == k ==> n in levels[k];
      }
    }
    assert forall i, j, n :: InTier(tiers, i, n) && InTier(tiers, j, n) ==> i == j;
  }

  lemma AddTier(names: seq<string>, level: map<string, nat>, k: nat, tiers: seq<seq<string>>, next: seq<string>)
    requires forall n :: n in names <==> n in level
    requires next == AtLevel(names, level, k)
    requires forall t, n :: InTier(tiers, t, n) ==> n in level && level[n] >= k + 1
    requires forall n :: n in level && level[n] >= k + 1 ==> exists t :: InTier(tiers, t, n)
    requires ByLevel(level, tiers)
    ensures var ts := tiers + [next];
      && (forall t, n :: InTier(ts, t, n) ==> n in level && level[n] >= k)
      && (forall n :: n in level && level[n] >= k ==> exists t :: InTier(ts, t, n))
      && ByLevel(level, ts)
  {
    var ts := tiers + [next];
    forall t, n | InTier(ts, t, n) ensures if t < |tiers| then InTier(tiers, t, n) else n in next && level[n] == k {}
    forall n | n in level && level[n] >= k ensures exists t :: InTier(ts, t, n) {
      if level[n] == k {
        assert InTier(ts, |tiers|, n);
      } else {
        var t :| InTier(tiers, t, n);
        assert InTier(ts, t, n);
      }
    }
  }

  /** `levels[k]` holds the names at level `k`. */
  ghost predicate Leveled(names: seq<string>, level: map<string, nat>, levels: seq<seq<string>>) {
    && (forall n :: n in names <==> n in level)
    && (forall n :: n in level ==> level[n] < |levels|)
    && (forall k :: 0 <= k < |levels| ==> levels[k] == AtLevel(names, level, k))
  }

  /** Put `n` at level `d`, growing the levels when they do not reach it. */
  method Place(ghost names: seq<string>, ghost level: map<string, nat>, levels: seq<seq<string>>, n: string, d: nat)
    returns (levels': seq<seq<string>>)
    requires Leveled(names, level, levels) && n !in names
    ensures Leveled(names + [n], level[n := d], levels')
  {
    levels' := levels;
    if |levels'| <= d {
      levels' := levels' + seq(d + 1 - |levels'|, _ => []);
    }
    levels' := levels'[d := levels'[d] + [n]];
    assert (names + [n])[..|names|] == names;
    forall k | 0 <= k < |levels'| ensures levels'[k] == AtLevel(names + [n], level[n := d], k) {
      AtLevelFrame(names, level, n, d, k);
      if k >= |levels| { Unused(names, level, k); }
    }
  }

  lemma {:induction false} Unused(names: seq<string>, level: map<string, nat>, k: nat)
    requires forall n :: n in names ==> n in level && level[n] < k
    ensures AtLevel(names, level, k) == []
  {
    if names != [] {
      assert names[|names| - 1] in names;
      Unused(names[..|names| - 1], level, k);
    }
  }

  // ------------------------------------------------------ one graph, one plan

  function Elements(s: seq<string>): (r: set<string>)
    ensures forall n :: n in r <==> n in s
  {
    set n | n in s
  }

  /** These processes, and no others, in tiers by their levels. */
  ghost predicate Tiered(s: set<string>, level: map<string, nat>, tiers: seq<seq<string>>) {
    && s <= level.Keys && ByLevel(level, tiers)
    && (forall i :: 0 <= i < |tiers| ==> tiers[i] != [] && Increasing(tiers[i]))
    && (forall n :: n in s <==> HasTier(tiers, n))
  }

  ghost function Lowest(s: set<string>, level: map<string, nat>): set<string>
    requires s <= level.Keys
  {
    set n | n in s && forall m :: m in s ==> level[n] <= level[m]
  }

  lemma LastTierIsLowest(s: set<string>, level: map<string, nat>, tiers: seq<seq<string>>)
    requires Tiered(s, level, tiers) && tiers != []
    ensures Elements(tiers[|tiers| - 1]) == Lowest(s, level)
  {
    var last := |tiers| - 1;
    var some := tiers[last][0];
    assert InTier(tiers, last, some);
    forall n | n in tiers[last] ensures n in Lowest(s, level) {
      assert InTier(tiers, last, n);
      forall m | m in s ensures level[n] <= level[m] {
        var i :| InTier(tiers, i, m);
        assert last < i <==> level[n] > level[m];
      }
    }
    forall n | n in Lowest(s, level) ensures n in tiers[last] {
      var i :| InTier(tiers, i, n);
      assert i < last <==> level[n] > level[some];
    }
  }

  lemma OneTier(level: map<string, nat>, tiers: seq<seq<string>>, i: int, j: int, n: string)
    requires ByLevel(level, tiers) && InTier(tiers, i, n) && InTier(tiers, j, n)
    ensures i == j
  {
  }

  lemma AllButTheLast(s: set<string>, level: map<string, nat>, tiers: seq<seq<string>>)
    requires Tiered(s, level, tiers) && tiers != []
    ensures Tiered(s - Elements(tiers[|tiers| - 1]), level, tiers[..|tiers| - 1])
  {
    var last := |tiers| - 1;
    var init := tiers[..last];
    forall i, n ensures InTier(init, i, n) <==> InTier(tiers, i, n) && i < last {}
    forall n ensures n in s - Elements(tiers[last]) <==> HasTier(init, n) {
      if n in s - Elements(tiers[last]) {
        var i :| InTier(tiers, i, n);
        assert InTier(init, i, n);
      }
      if i :| InTier(init, i, n) {
        assert InTier(tiers, i, n);
        if n in tiers[last] { OneTier(level, tiers, i, last, n); }
      }
    }
  }

  lemma NoneTiered(s: set<string>, level: map<string, nat>, tiers: seq<seq<string>>)
    requires Tiered(s, level, tiers)
    ensures tiers == [] <==> s == {}
  {
    if tiers != [] {
      assert InTier(tiers, 0, tiers[0][0]);
      assert tiers[0][0] in s;
    }
    if s != {} {
      var n :| n in s;
      var i :| InTier(tiers, i, n);
    }
  }

  lemma {:induction false} TiersAreOne(s: set<string>, level: map<string, nat>, a: seq<seq<string>>,
                                       b: seq<seq<string>>)
    requires Tiered(s, level, a) && Tiered(s, level, b)
    ensures a == b
    decreases |a|
  {
    NoneTiered(s, level, a);
    NoneTiered(s, level, b);
    if a != [] {
      var (i, j) := (|a| - 1, |b| - 1);
      LastTierIsLowest(s, level, a);
      LastTierIsLowest(s, level, b);
      AllButTheLast(s, level, a);
      AllButTheLast(s, level, b);
      OneListing(a[i], b[j], Lowest(s, level));
      TiersAreOne(s - Lowest(s, level), level, a[..i], b[..j]);
      assert a == a[..i] + [a[i]] && b == b[..j] + [b[j]];
    }
  }

  lemma OneLevelling(g: Graph, k: map<string, nat>, l: map<string, nat>)
    requires Levels(g, k) && Levels(g, l)
    ensures k == l
  {
    var a :| GivenInOrder(g, a, k);
    var b :| GivenInOrder(g, b, l);
    OneListing(a, b, g.Keys);
  }

  lemma {:induction false} PlanIsTiered(g: Graph, tiers: seq<seq<string>>) returns (level: map<string, nat>)
    requires IsPlan(g, tiers)
    ensures Tiered(g.Keys, level, tiers) && Levels(g, level)
  {
    level :| Levels(g, level) && ByLevel(level, tiers);
    forall i | 0 <= i < |tiers| ensures tiers[i] != [] && Increasing(tiers[i]) { assert IsTier(tiers, i); }
    forall n ensures n in g.Keys <==> HasTier(tiers, n) {}
  }

  /** A graph, cyclic or not, has one plan: whoever asks for the tiers gets the same. */
  lemma OnePlan(g: Graph, a: seq<seq<string>>, b: seq<seq<string>>)
    requires IsPlan(g, a) && IsPlan(g, b)
    ensures a == b
  {
    var k := PlanIsTiered(g, a);
    var l := PlanIsTiered(g, b);
    OneLevelling(g, k, l);
    TiersAreOne(g.Keys, k, a, b);
  }

  // ------------------------------------------------- depth and the number of processes

  /** Without a cycle every depth is less than the number of processes. */
  lemma {:induction false} DepthsFit(g: Graph, level: map<string, nat>, n: string)
    requires Acyclic(g) && Levels(g, level) && n in g
    ensures level[n] < |g|
  {
    var p :| IsPath(g, p) && p[0] == n && |p| == level[n] + 1;
    AcyclicPathsAreShort(g, p);
  }

  /** No depth in the memo is more than `m`. */
  predicate Within(memo: map<string, nat>, m: nat) {
    forall n {:trigger memo[n]} :: n in memo ==> memo[n] <= m
  }

  /**
   * The bound once `more` processes more are in the memo, from `budget` calls deep:
   * each but the first may add `size`.
   */
  function Reach(m: nat, budget: nat, size: nat, more: nat): nat {
    if more == 0 then m else if more == 1 then m + budget else Reach(m, budget, size, more - 1) + size
  }

  lemma {:induction false} ReachOn(m: nat, budget: nat, size: nat, a: nat, b: nat)
    requires budget <= size
    ensures Reach(m, budget, size, a) <= Reach(Reach(m, budget, size, a), budget, size, b)
      <= Reach(m, budget, size, a + b)
    decreases b
  {
    if b > 0 { ReachOn(m, budget, size, a, b - 1); }
  }

  lemma {:induction false} ReachGrows(m: nat, budget: nat, size: nat, k: nat, n: nat)
    requires 0 < budget && k <= n && 1 <= n
    ensures Reach(m, budget - 1, size, k) + 1 <= Reach(m, budget, size, n)
  {
    if n > 1 { ReachGrows(m, budget, size, if k == n then k - 1 else k, n - 1); }
  }

  lemma {:induction false} ReachInAll(size: nat, n: nat)
    ensures Reach(0, size, size, n) == size * n
  {
    if n > 1 { ReachInAll(size, n - 1); }
  }

  /** `memo` has grown by `k` processes into `after`, and nothing in it is past its reach. */
  ghost predicate Grown(memo: map<string, nat>, m: nat, budget: nat, size: nat, after: map<string, nat>, k: nat) {
    |after| == |memo| + k && (k == 0 ==> after == memo) && Within(after, Reach(m, budget, size, k))
  }

  /**
   * On any graph a call adds to the depths in the memo its budget, and `size` for
   * each process but one it puts there.
   */
  lemma {:induction false} DepthReaches(name: string, g: Graph, memo: map<string, nat>, budget: nat, size: nat, m: nat)
    returns (k: nat)
    requires name in g && Within(memo, m) && budget <= size
    ensures var (d, after) := DepthOf(name, g, memo, budget);
      Grown(memo, m, budget, size, after, k) && d <= Reach(m, budget, size, k)
    decreases budget, 0
  {
    k := 0;
    if name !in memo && budget > 0 {
      var j := DeepestReaches(g[name], g, memo, budget - 1, size, m);
      var (d, after) := Deepest(g[name], g, memo, budget - 1);
      k := OneMoreGrown(name, memo, m, budget, size, d, after, j);
    }
  }

  lemma OneMoreGrown(name: string, memo: map<string, nat>, m: nat, budget: nat, size: nat,
                     d: nat, after: map<string, nat>, j: nat) returns (k: nat)
    requires name !in memo && budget > 0
    requires Grown(memo, m, budget - 1, size, after, j) && d <= 1 + Reach(m, budget - 1, size, j)
    ensures Grown(memo, m, budget, size, after[name := d], k) && d <= Reach(m, budget, size, k)
  {
    k := if name in after then j else j + 1;
    if name in after { assert after[name := d].Keys == after.Keys; }
    assert |after[name := d]| == |memo| + k;
    ReachGrows(m, budget, size, j, k);
  }

  lemma {:induction false} DeepestReaches(ds: seq<string>, g: Graph, memo: map<string, nat>, budget: nat, size: nat,
                                          m: nat)
    returns (k: nat)
    requires Within(memo, m) && budget <= size
    ensures var (d, after) := Deepest(ds, g, memo, budget);
      Grown(memo, m, budget, size, after, k) && d <= 1 + Reach(m, budget, size, k)
    decreases budget, |ds| + 1
  {
    k := 0;
    if ds != [] {
      var (init, last) := (ds[..|ds| - 1], ds[|ds| - 1]);
      k := DeepestReaches(init, g, memo, budget, size, m);
      if last in g {
        var after := Deepest(init, g, memo, budget).1;
        var j := DepthReaches(last, g, after, budget, size, Reach(m, budget, size, k));
        ReachOn(m, budget, size, k, j);
        k := k + j;
      }
    }
  }

  lemma {:induction false} AllReach(names: seq<string>, g: Graph)
    requires forall n :: n in names ==> n in g
    ensures var (level, memo) := Depths(names, g); var reach := Reach(0, |g|, |g|, |memo|);
      Within(memo, reach) && Within(level, reach) && memo.Keys <= g.Keys
  {
    if names != [] {
      var (init, last) := (names[..|names| - 1], names[|names| - 1]);
      AllReach(init, g);
      var memo := Depths(init, g).1;
      var k := DepthReaches(last, g, memo, |g|, |g|, Reach(0, |g|, |g|, |memo|));
      OnlyKnown(last, g, memo, |g|);
      ReachOn(0, |g|, |g|, |memo|, k);
    }
  }

  /** The memo holds processes of the graph. */
  lemma {:induction false} OnlyKnown(name: string, g: Graph, memo: map<string, nat>, budget: nat)
    requires name in g && memo.Keys <= g.Keys
    ensures DepthOf(name, g, memo, budget).1.Keys <= g.Keys
    decreases budget, 0
  {
    if name !in memo && budget > 0 { OnlyKnownBelow(g[name], g, memo, budget - 1); }
  }

  lemma {:induction false} OnlyKnownBelow(ds: seq<string>, g: Graph, memo: map<string, nat>, budget: nat)
    requires memo.Keys <= g.Keys
    ensures Deepest(ds, g, memo, budget).1.Keys <= g.Keys
    decreases budget, |ds| + 1
  {
    if ds != [] {
      var (init, last) := (ds[..|ds| - 1], ds[|ds| - 1]);
      OnlyKnownBelow(init, g, memo, budget);
      if last in g { OnlyKnown(last, g, Deepest(init, g, memo, budget).1, budget); }
    }
  }

  lemma ReachOfPart(g: Graph, memo: map<string, nat>)
    requires memo.Keys <= g.Keys
    ensures Reach(0, |g|, |g|, |memo|) <= |g| * |g|
  {
    assert g.Keys == memo.Keys + (g.Keys - memo.Keys);
    assert |g.Keys| == |g| && |memo.Keys| == |memo|;
    ReachInAll(|g|, |memo|);
    Times(|g|, |memo|);
  }

  lemma Times(a: nat, b: nat)
    requires b <= a
    ensures a * b <= a * a
  {
  }

  /** On every graph, cycles or not, no depth is more than the square of the number of processes. */
  lemma DepthsAreBounded(g: Graph, level: map<string, nat>, n: string)
    requires Levels(g, level) && n in g
    ensures level[n] <= |g| * |g|
  {
    var names :| GivenInOrder(g, names, level);
    AllReach(names, g);
    ReachOfPart(g, Depths(names, g).1);
  }

  // Every process depends on itself and on the one before: the bound is met.

  function Name(k: nat): string { seq(k, _ => 'p') }

  /** `p`, `pp` and so on; the first names one that is not registered. */
  function Ladder(n: nat): (g: Graph) {
    if n == 0 then map[] else Ladder(n - 1)[Name(n) := [Name(n), Name(n - 1)]]
  }

  function NamesTo(n: nat): (names: seq<string>) {
    if n == 0 then [] else NamesTo(n - 1) + [Name(n)]
  }

  /** Each `size` deeper than the one before. */
  function Rungs(n: nat, size: nat): map<string, nat> {
    if n == 0 then map[] else Rungs(n - 1, size)[Name(n) := size * n]
  }

  lemma {:induction false} OnTheLadder(n: nat, size: nat, x: string)
    ensures x in Ladder(n) <==> 1 <= |x| <= n && x == Name(|x|)
    ensures x in Ladder(n) ==> Ladder(n)[x] == [x, Name(|x| - 1)]
    ensures x in Ladder(n) <==> x in NamesTo(n)
    ensures x in Ladder(n) <==> x in Rungs(n, size)
    ensures x in Ladder(n) ==> Rungs(n, size)[x] == size * |x|
  {
    if n > 0 {
      OnTheLadder(n - 1, size, x);
      if x == Name(n) { assert |x| == n; }
    }
  }

  lemma {:induction false} LadderCount(n: nat)
    ensures |Ladder(n)| == n
  {
    if n > 0 {
      LadderCount(n - 1);
      OnTheLadder(n - 1, 0, Name(n));
    }
  }

  lemma {:induction false} ShorterIsLess(j: nat, k: nat)
    requires j < k
    ensures Less(Name(j), Name(k))
  {
    if j > 0 {
      ShorterIsLess(j - 1, k - 1);
      assert Name(j)[1..] == Name(j - 1) && Name(k)[1..] == Name(k - 1);
    }
  }

  lemma {:induction false} NamesToInOrder(n: nat)
    ensures |NamesTo(n)| == n && (forall i :: 0 <= i < n ==> NamesTo(n)[i] == Name(i + 1))
  {
    if n > 0 { NamesToInOrder(n - 1); }
  }

  lemma LadderIsListed(n: nat)
    ensures IsListing(NamesTo(n), Ladder(n).Keys)
  {
    var names := NamesTo(n);
    NamesToInOrder(n);
    forall i, j | 0 <= i < j < |names| ensures Less(names[i], names[j]) { ShorterIsLess(i + 1, j + 1); }
    forall x ensures x in names <==> x in Ladder(n).Keys { OnTheLadder(n, 0, x); }
  }

  /** What `y` adds as a dependency: nothing if it is not registered, or one more than its depth. */
  predicate Adds(g: Graph, memo: map<string, nat>, y: string, v: nat) {
    if y in g then y in memo && memo[y] == v else v == 0
  }

  /** A process that depends on itself goes round as long as its budget lasts. */
  lemma {:induction false} RoundAndRound(g: Graph, x: string, y: string, memo: map<string, nat>, budget: nat, v: nat)
    requires x in g && g[x] == [x, y] && x != y && x !in memo && budget > 0 && Adds(g, memo, y, v)
    ensures DepthOf(x, g, memo, budget) == (v + budget, memo[x := v + budget])
  {
    var below := if budget == 1 then 0 else v + budget - 1;
    var m := if budget == 1 then memo else memo[x := below];
    if budget > 1 { RoundAndRound(g, x, y, memo, budget - 1, v); }
    assert DepthOf(x, g, memo, budget - 1) == (below, m);
    TwoBelow(g, x, y, memo, budget - 1, below, m, v);
    assert m[x := v + budget] == memo[x := v + budget];
  }

  lemma TwoBelow(g: Graph, x: string, y: string, memo: map<string, nat>, budget: nat, below: nat, m: map<string, nat>,
                 v: nat)
    requires x in g && x != y && DepthOf(x, g, memo, budget) == (below, m) && Adds(g, m, y, v)
    ensures Deepest([x, y], g, memo, budget) == (if y in g && v > below then 1 + v else 1 + below, m)
  {
    assert [x, y][..1] == [x] && [x][..0] == [];
    assert Deepest([], g, memo, budget) == (0, memo);
    assert Deepest([x], g, memo, budget) == (1 + below, m);
  }

  lemma {:induction false} UpTheLadder(n: nat, i: nat)
    requires i <= n
    ensures forall x :: x in NamesTo(i) ==> x in Ladder(n)
    ensures Depths(NamesTo(i), Ladder(n)) == (Rungs(i, n), Rungs(i, n))
  {
    forall x | x in NamesTo(i) ensures x in Ladder(n) {
      OnTheLadder(i, n, x);
      OnTheLadder(n, n, x);
    }
    if i > 0 {
      UpTheLadder(n, i - 1);
      LadderCount(n);
      OneRung(n, i);
      NamesToInOrder(i - 1);
      var (before, names) := (NamesTo(i - 1), NamesTo(i));
      assert names == before + [Name(i)] && names[..|names| - 1] == before && names[|names| - 1] == Name(i);
      var (level, memo) := Depths(before, Ladder(n));
      assert level == memo == Rungs(i - 1, n);
    }
  }

  lemma OneRung(n: nat, i: nat)
    requires 0 < i <= n
    ensures Name(i) in Ladder(n) && DepthOf(Name(i), Ladder(n), Rungs(i - 1, n), n) == (n * i, Rungs(i, n))
  {
    OnTheLadder(n, n, Name(i));
    OnTheLadder(n, n, Name(i - 1));
    OnTheLadder(i - 1, n, Name(i));
    OnTheLadder(i - 1, n, Name(i - 1));
    RoundAndRound(Ladder(n), Name(i), Name(i - 1), Rungs(i - 1, n), n, n * (i - 1));
  }

  /** The bound is met: for every `n`, some graph of `n` processes gives one of them depth `n * n`. */
  lemma TheBoundIsMet(n: nat)
    requires n > 0
    ensures var (g, level) := (Ladder(n), Rungs(n, n));
      |g| == n && Name(n) in g && GivenInOrder(g, NamesTo(n), level) && level[Name(n)] == n * n
  {
    LadderCount(n);
    LadderIsListed(n);
    UpTheLadder(n, n);
    OnTheLadder(n, n, Name(n));
  }

  const RING: Graph := map["a" := ["b"], "b" := ["a"], "c" := ["a"]]

  /** With one it can be more: here `c` is given depth 4 among three. */
  lemma ARingDeepensPastTheCount()
    ensures |RING| == 3 && GivenInOrder(RING, ["a", "b", "c"], Depths(["a", "b", "c"], RING).0)
    ensures Depths(["a", "b", "c"], RING).0["c"] == 4
  {
    var m := map["a" := 3, "b" := 2];
    RoundTheRing();
    OneDependency("c", "a", m, 3);
    var names := ["a", "b", "c"];
    assert names[..2] == ["a", "b"] && ["a", "b"][..1] == ["a"] && ["a"][..0] == [];
    assert Depths([], RING) == (map[], map[]);
    assert Depths(["a"], RING) == (map["a" := 3], m);
    assert Depths(["a", "b"], RING) == (map["a" := 3, "b" := 2], m);
  }

  lemma OneDependency(x: string, y: string, memo: map<string, nat>, budget: nat)
    requires x in RING && RING[x] == [y] && y in RING && x !in memo && budget > 0
    ensures var (below, m) := DepthOf(y, RING, memo, budget - 1);
      DepthOf(x, RING, memo, budget) == (1 + below, m[x := 1 + below])
  {
    assert [y][..0] == [];
    assert Deepest([], RING, memo, budget - 1) == (0, memo);
  }

  lemma RoundTheRing()
    ensures DepthOf("a", RING, map[], 3) == (3, map["a" := 3, "b" := 2])
  {
    OneDependency("a", "b", map[], 1);
    OneDependency("b", "a", map[], 2);
    OneDependency("a", "b", map[], 3);
    assert DepthOf("b", RING, map[], 0) == (0, map[]);
    assert DepthOf("a", RING, map[], 1) == (1, map["a" := 1]);
    assert DepthOf("b", RING, map[], 2) == (2, map["a" := 1, "b" := 2]);
    assert map["a" := 1, "b" := 2]["a" := 3] == map["a" := 3, "b" := 2];
  }
}
