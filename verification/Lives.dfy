/**
 * What can become of a process once shutdown has begun: it may still run
 * again only by a spawn that was past its look at the flag by then.
 */
module Lives {
  import opened Process

  /** A process's state, and its spawns past their look at the flag that have not been marked Running yet. */
  datatype Life = Life(state: State, late: nat) {
    /** How often it may still be found Running, now included: the child it has, and those on their way. */
    function Left(): nat { late + if state == Running then 1 else 0 }
  }

  predicate IsUp(s: State) { s == Running || s == Stopping }

  /** One thing that may happen to it. */
  predicate OneMove(a: Life, b: Life) {
    || (a.late > 0 && b == Life(Running, a.late - 1))        // a late spawn lands
    || (a.late > 0 && b == a.(late := a.late - 1))           // or fails
    || (a.state == Running && b == a.(state := Stopping))    // a stop is asked for
    || (b.late == a.late && !IsUp(b.state))                  // it ends, or is marked as anything but up
  }

  /** Any number of them. */
  ghost predicate Moves(a: Life, b: Life, n: nat)
    decreases n
  {
    if n == 0 then a == b else exists c :: OneMove(a, c) && Moves(c, b, n - 1)
  }

  /** It becomes Running only by using up a late spawn, and Stopping only from Running. */
  predicate MayBecome(a: Life, b: Life) {
    && b.late <= a.late
    && (b.state == Running ==> a.state == Running || b.late < a.late)
    && (b.state == Stopping ==> IsUp(a.state) || b.late < a.late)
  }

  lemma {:induction false} MovesLead(a: Life, b: Life, n: nat)
    requires Moves(a, b, n)
    ensures MayBecome(a, b)
    decreases n
  {
    if n > 0 {
      var c :| OneMove(a, c) && Moves(c, b, n - 1);
      MovesLead(c, b, n - 1);
    }
  }

  /** Late spawns fail one after the other. */
  lemma {:induction false} SomeFail(a: Life, b: Life, n: nat, fails: nat)
    requires fails <= a.late && Moves(a.(late := a.late - fails), b, n)
    ensures Moves(a, b, n + fails)
    decreases fails
  {
    if fails > 0 {
      var c := a.(late := a.late - 1);
      SomeFail(c, b, n, fails - 1);
      assert OneMove(a, c) && Moves(c, b, n + fails - 1);
    }
  }

  lemma OneIsEnough(a: Life, b: Life)
    requires OneMove(a, b)
    ensures Moves(a, b, 1)
  {
    assert Moves(b, b, 0);
  }

  lemma LandsAndIsStopped(a: Life)
    requires a.late > 0
    ensures Moves(a, Life(Stopping, a.late - 1), 2)
  {
    var c := Life(Running, a.late - 1);
    OneIsEnough(c, Life(Stopping, a.late - 1));
    assert OneMove(a, c);
  }

  lemma MovesReach(a: Life, b: Life) returns (n: nat)
    requires MayBecome(a, b)
    ensures Moves(a, b, n)
  {
    var fails := a.late - b.late;
    var c := a.(late := b.late);
    if c == b {
      assert Moves(c, b, 0);
      SomeFail(a, b, 0, fails);
      n := fails;
    } else if OneMove(c, b) {
      OneIsEnough(c, b);
      SomeFail(a, b, 1, fails);
      n := 1 + fails;
    } else {
      var d := a.(late := b.late + 1);
      if b.state == Running { OneIsEnough(d, b); } else { LandsAndIsStopped(d); }
      n := if b.state == Running then 1 else 2;
      SomeFail(a, b, n, fails - 1);
      n := n + fails - 1;
    }
  }

  /** `MayBecome` is what any number of moves can come to. */
  lemma MayBecomeIff(a: Life, b: Life)
    ensures MayBecome(a, b) <==> exists n: nat :: Moves(a, b, n)
  {
    if MayBecome(a, b) {
      var n := MovesReach(a, b);
      assert Moves(a, b, n);
    }
    if exists n: nat :: Moves(a, b, n) {
      var n: nat :| Moves(a, b, n);
      MovesLead(a, b, n);
    }
  }
}
