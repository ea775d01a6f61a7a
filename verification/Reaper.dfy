/** PID 1's zombie reaper: which zombies have stayed unreaped long enough to be taken. */
module Reaper {
  /** One look at `/proc`: the zombie children then. */
  datatype Look = Look(zombies: seq<int>, now: int)

  /** What the clock says has passed, never less than nothing. */
  function Elapsed(from: int, to: int): (d: nat) { if to > from then to - from else 0 }

  class Tracker {
    /** Each zombie's clock: the look it is counted from. */
    var firstSeen: map<int, int>
    /** Every look there has been, and the grace each was given. */
    ghost var looks: seq<Look>
    ghost const grace: nat

    ghost predicate Valid() reads this { firstSeen == Waiting(looks, grace) }

    constructor (ghost g: nat)
      ensures Valid() && looks == [] && grace == g
    {
      firstSeen, looks, grace := map[], [], g;
    }

    method Due(zombies: seq<int>, now: int, g: nat) returns (due: seq<int>)
      requires Valid() && g == grace
      modifies this
      ensures Valid() && looks == old(looks) + [Look(zombies, now)]
      ensures forall pid :: pid in due <==> IsDue(looks, |looks| - 1, pid, grace)
    {
      ghost var kept := Kept(firstSeen, zombies);
      firstSeen := map pid | pid in firstSeen && pid in zombies :: firstSeen[pid];
      due := [];
      var i := 0;
      while i < |zombies|
        invariant 0 <= i <= |zombies| && looks == old(looks)
        invariant firstSeen == Noted(kept, zombies[..i], now) && due == Overdues(kept, zombies[..i], now, g)
      {
        var pid := zombies[i];
        assert zombies[..i + 1][..i] == zombies[..i];
        NotedKeeps(kept, zombies[..i], now);
        if pid !in firstSeen { firstSeen := firstSeen[pid := now]; }
        if Elapsed(firstSeen[pid], now) >= g { due := due + [pid]; }
        i := i + 1;
      }
      assert zombies[..i] == zombies;
      i := 0;
      while i < |due|
        invariant 0 <= i <= |due| && looks == old(looks)
        invariant firstSeen == Noted(kept, zombies, now) - Elems(due[..i])
      {
        SetOfOneMore(due, i);
        firstSeen := firstSeen - {due[i]};
        i := i + 1;
      }
      assert due[..i] == due;
      OneMoreLook(looks, Look(zombies, now), g);
      WhatIsLeft(old(firstSeen), Look(zombies, now), g);
      looks := looks + [Look(zombies, now)];
    }
  }

  function Kept(seen: map<int, int>, zombies: seq<int>): map<int, int> {
    map pid | pid in seen && pid in zombies :: seen[pid]
  }

  function SeenFrom(seen: map<int, int>, pid: int, now: int): int { if pid in seen then seen[pid] else now }

  /** With these zombies' entries in. */
  function Noted(seen: map<int, int>, zombies: seq<int>, now: int): map<int, int> {
    if zombies == [] then seen
    else
      var (init, pid) := (Noted(seen, zombies[..|zombies| - 1], now), zombies[|zombies| - 1]);
      init[pid := SeenFrom(init, pid, now)]
  }

  function Overdues(seen: map<int, int>, zombies: seq<int>, now: int, grace: nat): seq<int> {
    if zombies == [] then []
    else
      var (init, pid) := (zombies[..|zombies| - 1], zombies[|zombies| - 1]);
      Overdues(seen, init, now, grace) + if Elapsed(SeenFrom(seen, pid, now), now) >= grace then [pid] else []
  }

  function Elems(s: seq<int>): set<int> { set x | x in s }

  lemma SetOfOneMore(s: seq<int>, i: nat)
    requires i < |s|
    ensures Elems(s[..i + 1]) == Elems(s[..i]) + {s[i]}
  {
    assert s[..i + 1] == s[..i] + [s[i]];
  }

  lemma {:induction false} NotedKeeps(seen: map<int, int>, zombies: seq<int>, now: int)
    ensures forall pid :: pid in Noted(seen, zombies, now) <==> pid in seen || pid in zombies
    ensures forall pid :: SeenFrom(Noted(seen, zombies, now), pid, now) == SeenFrom(seen, pid, now)
  {
    if zombies != [] {
      NotedKeeps(seen, zombies[..|zombies| - 1], now);
      assert zombies == zombies[..|zombies| - 1] + [zombies[|zombies| - 1]];
    }
  }

  lemma {:induction false} OverduesHas(seen: map<int, int>, zombies: seq<int>, now: int, grace: nat)
    ensures forall pid :: pid in Overdues(seen, zombies, now, grace) <==>
      pid in zombies && Elapsed(SeenFrom(seen, pid, now), now) >= grace
  {
    if zombies != [] {
      OverduesHas(seen, zombies[..|zombies| - 1], now, grace);
      assert zombies == zombies[..|zombies| - 1] + [zombies[|zombies| - 1]];
    }
  }

  /** The zombie was there at this look, and had been for the grace by what is remembered. */
  predicate Overdue(seen: map<int, int>, look: Look, pid: int, grace: nat) {
    pid in look.zombies && Elapsed(SeenFrom(seen, pid, look.now), look.now) >= grace
  }

  /** What is remembered after a look: its zombies, but for those reported. */
  function After(seen: map<int, int>, look: Look, grace: nat): map<int, int> {
    map pid | pid in look.zombies && !Overdue(seen, look, pid, grace) :: SeenFrom(seen, pid, look.now)
  }

  lemma WhatIsLeft(seen: map<int, int>, look: Look, grace: nat)
    ensures var kept := Kept(seen, look.zombies); var due := Overdues(kept, look.zombies, look.now, grace);
      && Noted(kept, look.zombies, look.now) - Elems(due) == After(seen, look, grace)
      && forall pid :: pid in due <==> Overdue(seen, look, pid, grace)
  {
    var kept := Kept(seen, look.zombies);
    NotedKeeps(kept, look.zombies, look.now);
    OverduesHas(kept, look.zombies, look.now, grace);
    var noted := Noted(kept, look.zombies, look.now);
    var left := noted - Elems(Overdues(kept, look.zombies, look.now, grace));
    forall pid | pid in look.zombies
      ensures SeenFrom(kept, pid, look.now) == SeenFrom(seen, pid, look.now) == SeenFrom(noted, pid, look.now)
    {
    }
    var after := After(seen, look, grace);
    forall pid ensures pid in left <==> pid in after {
      assert pid in left <==> pid in look.zombies && !Overdue(seen, look, pid, grace);
    }
    forall pid | pid in left ensures left[pid] == after[pid] {
      assert left[pid] == SeenFrom(noted, pid, look.now);
    }
  }

  function Waiting(looks: seq<Look>, grace: nat): map<int, int> {
    if looks == [] then map[] else After(Waiting(looks[..|looks| - 1], grace), looks[|looks| - 1], grace)
  }

  /** The tracker reports `pid` at look `k`. */
  predicate IsDue(looks: seq<Look>, k: nat, pid: int, grace: nat) {
    k < |looks| && Overdue(Waiting(looks[..k], grace), looks[k], pid, grace)
  }

  lemma OneMoreLook(looks: seq<Look>, look: Look, grace: nat)
    ensures Waiting(looks + [look], grace) == After(Waiting(looks, grace), look, grace)
    ensures forall pid :: IsDue(looks + [look], |looks|, pid, grace) <==>
      Overdue(Waiting(looks, grace), look, pid, grace)
  {
    assert (looks + [look])[..|looks|] == looks;
  }

  // ----------------------------------------------------------- over every run

  predicate There(looks: seq<Look>, k: nat, pid: int) { k < |looks| && pid in looks[k].zombies }

  /**
   * Looks `j` to `k` are one stay of the zombie: there at each, reported at
   * none before the last, and begun after an absence or a report.
   */
  ghost predicate IsStay(looks: seq<Look>, j: nat, k: nat, pid: int, grace: nat) {
    && j <= k && (forall i :: j <= i <= k ==> There(looks, i, pid))
    && (forall i :: j <= i < k ==> !IsDue(looks, i, pid, grace))
    && (j == 0 || !There(looks, j - 1, pid) || IsDue(looks, j - 1, pid, grace))
  }

  lemma Remembered(looks: seq<Look>, k: nat, pid: int, grace: nat)
    requires k < |looks|
    ensures pid in Waiting(looks[..k + 1], grace) <==> There(looks, k, pid) && !IsDue(looks, k, pid, grace)
    ensures pid in Waiting(looks[..k + 1], grace) ==>
      Waiting(looks[..k + 1], grace)[pid] == SeenFrom(Waiting(looks[..k], grace), pid, looks[k].now)
  {
    assert looks[..k + 1][..k] == looks[..k];
  }

  /** A zombie that is there is in one stay, and its clock is the one the stay began with. */
  lemma {:induction false} StayOf(looks: seq<Look>, k: nat, pid: int, grace: nat) returns (j: nat)
    requires There(looks, k, pid)
    ensures IsStay(looks, j, k, pid, grace) && SeenFrom(Waiting(looks[..k], grace), pid, looks[k].now) == looks[j].now
  {
    if k > 0 && There(looks, k - 1, pid) && !IsDue(looks, k - 1, pid, grace) {
      Remembered(looks, k - 1, pid, grace);
      j := StayOf(looks, k - 1, pid, grace);
    } else {
      if k > 0 { Remembered(looks, k - 1, pid, grace); }
      j := k;
    }
  }

  lemma WithinAStay(looks: seq<Look>, i: nat, m: nat, k: nat, pid: int, grace: nat)
    requires IsStay(looks, i, k, pid, grace) && i <= m < k
    ensures There(looks, m, pid) && !IsDue(looks, m, pid, grace)
  {
  }

  lemma OneStay(looks: seq<Look>, i: nat, j: nat, k: nat, pid: int, grace: nat)
    requires IsStay(looks, i, k, pid, grace) && IsStay(looks, j, k, pid, grace)
    ensures i == j
  {
  }

  ghost predicate Spans(looks: seq<Look>, j: nat, k: nat, grace: nat) {
    j < |looks| && k < |looks| && (grace == 0 || looks[k].now >= looks[j].now + grace)
  }

  /** A zombie is reported exactly when its stay spans the grace. */
  lemma DueWhenItStayed(looks: seq<Look>, k: nat, pid: int, grace: nat)
    requires k < |looks|
    ensures IsDue(looks, k, pid, grace)
      <==> exists j: nat :: IsStay(looks, j, k, pid, grace) && Spans(looks, j, k, grace)
  {
    forall j: nat | IsStay(looks, j, k, pid, grace) ensures There(looks, k, pid) {}
    if There(looks, k, pid) {
      var j := StayOf(looks, k, pid, grace);
      forall i: nat | IsStay(looks, i, k, pid, grace) ensures i == j { OneStay(looks, i, j, k, pid, grace); }
      assert IsDue(looks, k, pid, grace) <==> Spans(looks, j, k, grace);
    }
  }

  ghost predicate ClockRises(looks: seq<Look>) { forall i, j :: 0 <= i <= j < |looks| ==> looks[i].now <= looks[j].now }

  /**
   * A pid that was gone at look `m`, or reported then, is not reported again
   * before a whole grace has passed since it was next seen.
   */
  lemma AFreshClock(looks: seq<Look>, m: nat, k: nat, pid: int, grace: nat)
    requires m < k < |looks| && IsDue(looks, k, pid, grace) && ClockRises(looks)
    requires !There(looks, m, pid) || IsDue(looks, m, pid, grace)
    ensures exists j: nat :: m < j && IsStay(looks, j, k, pid, grace) && Spans(looks, j, k, grace)
    ensures looks[k].now - looks[m].now >= grace
  {
    DueWhenItStayed(looks, k, pid, grace);
    var j: nat :| IsStay(looks, j, k, pid, grace) && Spans(looks, j, k, grace);
    if j <= m { WithinAStay(looks, j, m, k, pid, grace); }
    assert looks[m].now <= looks[j].now <= looks[k].now;
  }
}
