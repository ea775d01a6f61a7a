/** Paths, and what is mounted or made at them: what a process finds there, and what hides it. */
module Places {

  /** A path's components, from the root. */
  type Place = seq<string>

  function Split(path: string): (parts: seq<string>)
    ensures parts != []
  {
    if path == "" then [""]
    else
      var rest := Split(path[1..]);
      if path[0] == '/' then [""] + rest else [[path[0]] + rest[0]] + rest[1..]
  }

  function Into(at: Place, part: string): Place {
    if part in ["", "."] then at
    else if part == ".." then if at == [] then [] else at[..|at| - 1]
    else at + [part]
  }

  /** One component after the other, from `at`. */
  function Resolve(parts: seq<string>, at: Place): Place {
    if parts == [] then at else Resolve(parts[1..], Into(at, parts[0]))
  }

  /** The place a path names, there being no symbolic links. */
  function PlaceOf(path: string): Place { Resolve(Split(path), []) }

  /** Something at a place: a file system mounted, or a device node. */
  datatype Placing = Placing(at: Place, device: string, mount: bool)

  /** A mount hides what was at its place and below. */
  predicate Covers(c: Placing, at: Place) { c.mount && c.at <= at }

  /** It is there to be found: what came after it does not cover it. */
  predicate Shows(ps: seq<Placing>, c: Placing) {
    && ps != []
    && var last := ps[|ps| - 1]; (last == c || (!Covers(last, c.at) && Shows(ps[..|ps| - 1], c)))
  }

  /**
   * It stands in the way of placing there: a node where a directory must be; a
   * directory, or a mounted file system, where a node is to be.
   */
  predicate Blocks(x: Placing, at: Place, mount: bool) {
    if mount then !x.mount && x.at <= at
    else at < x.at || (if x.mount then x.at <= at else x.at < at)
  }

  predicate CanPlace(ps: seq<Placing>, at: Place, mount: bool) {
    forall x :: x in ps && Shows(ps, x) ==> !Blocks(x, at, mount)
  }

  function WithoutNode(ps: seq<Placing>, at: Place): seq<Placing> {
    if ps == [] then []
    else
      var (init, last) := (WithoutNode(ps[..|ps| - 1], at), ps[|ps| - 1]);
      if !last.mount && last.at == at then init else init + [last]
  }

  /** A mount goes on top of what there is; a node takes the place of the one before. */
  function Put(ps: seq<Placing>, c: Placing): seq<Placing> {
    if c.mount then ps + [c] else WithoutNode(ps, c.at) + [c]
  }

  function WithoutLastMount(ps: seq<Placing>, at: Place): seq<Placing> {
    if ps == [] then []
    else
      var (init, last) := (ps[..|ps| - 1], ps[|ps| - 1]);
      if last.mount && last.at == at then init else WithoutLastMount(init, at) + [last]
  }

  /** `umount` wants the mount to be found there, and none below it; removing a node that is not found is no error. */
  predicate CanTake(ps: seq<Placing>, at: Place, mount: bool) {
    mount ==>
      && (exists x :: x in ps && x.mount && x.at == at && Shows(ps, x))
      && (forall x :: x in ps && x.mount && Shows(ps, x) ==> !(at < x.at))
  }

  function Take(ps: seq<Placing>, at: Place, mount: bool): seq<Placing> {
    if mount then WithoutLastMount(ps, at)
    else if exists x :: x in ps && !x.mount && x.at == at && Shows(ps, x) then WithoutNode(ps, at)
    else ps
  }

  /** Something placed at `at` takes from `d` its place, or hides it. */
  predicate Displaces(at: Place, mount: bool, d: Place, dMount: bool) {
    (at == d && mount == dMount) || (mount && at < d)
  }

  lemma {:induction false} ShownIsThere(ps: seq<Placing>, d: Placing)
    requires Shows(ps, d)
    ensures d in ps
  {
    if ps[|ps| - 1] != d { ShownIsThere(ps[..|ps| - 1], d); }
  }

  lemma {:induction false} WithoutNodeShows(ps: seq<Placing>, at: Place, d: Placing)
    requires Shows(ps, d) && (d.mount || d.at != at)
    ensures Shows(WithoutNode(ps, at), d)
  {
    var (init, last) := (ps[..|ps| - 1], ps[|ps| - 1]);
    if last != d { WithoutNodeShows(init, at, d); }
    assert (WithoutNode(init, at) + [last])[..|WithoutNode(init, at)|] == WithoutNode(init, at);
  }

  lemma {:induction false} WithoutLastMountShows(ps: seq<Placing>, at: Place, d: Placing)
    requires Shows(ps, d) && (!d.mount || d.at != at)
    ensures Shows(WithoutLastMount(ps, at), d)
  {
    var (init, last) := (ps[..|ps| - 1], ps[|ps| - 1]);
    if last != d && !(last.mount && last.at == at) { WithoutLastMountShows(init, at, d); }
    assert (WithoutLastMount(init, at) + [last])[..|WithoutLastMount(init, at)|] == WithoutLastMount(init, at);
  }

  lemma PutLast(ps: seq<Placing>, c: Placing, d: Placing)
    ensures Shows(ps + [c], d) <==> c == d || (!Covers(c, d.at) && Shows(ps, d))
  {
    assert (ps + [c])[..|ps|] == ps;
  }

  /** What is placed is there to be found. */
  lemma PutShows(ps: seq<Placing>, c: Placing)
    ensures Shows(Put(ps, c), c)
  {
    if c.mount { PutLast(ps, c, c); } else { PutLast(WithoutNode(ps, c.at), c, c); }
  }

  /** What can be placed at all, and does not displace it, leaves it to be found. */
  lemma PutKeeps(ps: seq<Placing>, c: Placing, d: Placing)
    requires Shows(ps, d) && CanPlace(ps, c.at, c.mount) && !Displaces(c.at, c.mount, d.at, d.mount)
    ensures Shows(Put(ps, c), d) && (!c.mount ==> Shows(WithoutNode(ps, c.at), d))
  {
    ShownIsThere(ps, d);
    if c.mount {
      PutLast(ps, c, d);
    } else {
      WithoutNodeShows(ps, c.at, d);
      PutLast(WithoutNode(ps, c.at), c, d);
    }
  }

  lemma TakeKeeps(ps: seq<Placing>, at: Place, mount: bool, d: Placing)
    requires Shows(ps, d) && (d.at != at || d.mount != mount)
    ensures Shows(Take(ps, at, mount), d)
  {
    if mount {
      WithoutLastMountShows(ps, at, d);
    } else if Take(ps, at, mount) != ps {
      WithoutNodeShows(ps, at, d);
    }
  }

  lemma {:induction false} NoNodeToRemove(ps: seq<Placing>, at: Place)
    requires forall x :: x in ps && !x.mount ==> x.at != at
    ensures WithoutNode(ps, at) == ps
  {
    if ps != [] {
      assert ps[|ps| - 1] in ps;
      NoNodeToRemove(ps[..|ps| - 1], at);
    }
  }

  /** What was placed last can be taken away, and then all is as it was, a node replaced apart. */
  lemma TakeUndoesPut(ps: seq<Placing>, c: Placing)
    requires c.mount || forall x :: x in ps && !x.mount ==> x.at != c.at
    ensures Take(Put(ps, c), c.at, c.mount) == ps
  {
    PutShows(ps, c);
    if c.mount {
      assert (ps + [c])[..|ps|] == ps;
    } else {
      NoNodeToRemove(ps, c.at);
      assert Put(ps, c) == ps + [c] && (ps + [c])[..|ps|] == ps;
      assert c in Put(ps, c);
    }
  }

  /**
   * What is found is in the way of a node that would have to be a directory for
   * it or be below it, and, if it is a node, of a mount there or below.
   */
  lemma WhatStandsInTheWay(ps: seq<Placing>, d: Placing, at: Place)
    requires Shows(ps, d)
    ensures d.at != at && (d.at <= at || at <= d.at) ==> !CanPlace(ps, at, false)
    ensures d.mount && d.at == at ==> !CanPlace(ps, at, false)
    ensures !d.mount && d.at <= at ==> !CanPlace(ps, at, true)
  {
    ShownIsThere(ps, d);
  }

  /** Nothing found near it, anything can be placed. */
  lemma FreePlacesTakeAnything(ps: seq<Placing>, at: Place, mount: bool)
    requires forall d :: d in ps && Shows(ps, d) ==> !(d.at <= at) && !(at <= d.at)
    ensures CanPlace(ps, at, mount)
  {
  }

  /** A mount that was made last can be taken away; one with a mount below it, or hidden by one, cannot. */
  lemma OnlyTheLastMountCanBeTaken(ps: seq<Placing>, c: Placing, at: Place)
    requires c.mount
    ensures CanTake(ps + [c], c.at, true)
    ensures c.at != at && (c.at <= at || at <= c.at) ==> !CanTake(ps + [c], at, true)
  {
    var all := ps + [c];
    PutLast(ps, c, c);
    assert c in all && Shows(all, c);
    forall x | x in all && x.mount && Shows(all, x) ensures !(c.at < x.at) { PutLast(ps, c, x); }
    if c.at <= at && c.at != at {
      forall x | x in all && x.mount && x.at == at ensures !Shows(all, x) { PutLast(ps, c, x); }
    }
  }

  /** A node that is not found is not removed. */
  lemma WhatIsNotFoundStays(ps: seq<Placing>, at: Place)
    requires forall x :: x in ps && !x.mount && x.at == at ==> !Shows(ps, x)
    ensures Take(ps, at, false) == ps
  {
  }

  /** Alone, a thing is in the way of none that displaces it; and then it is not found. */
  lemma TheSecondDisplacesTheFirst(c: Placing, d: Placing)
    requires Displaces(d.at, d.mount, c.at, c.mount) && d.device != c.device
    ensures CanPlace([], c.at, c.mount) && CanPlace([c], d.at, d.mount)
    ensures Put([], c) == [c] && !Shows(Put([c], d), c)
  {
    assert [c][..0] == [];
    assert Put([], c) == [] + [c];
    assert WithoutNode([], d.at) == [];
    if d.mount { PutLast([c], d, c); } else { PutLast([], d, c); }
  }

  // ------------------------------------------------------------- spellings

  lemma SplitStep(c: char, path: string)
    ensures Split([c] + path) == if c == '/' then [""] + Split(path) else [[c] + Split(path)[0]] + Split(path)[1..]
  {
    assert ([c] + path)[1..] == path;
  }

  lemma FirstGrows(c: char, x: seq<string>, y: seq<string>)
    requires x != []
    ensures [[c] + (x + y)[0]] + (x + y)[1..] == [[c] + x[0]] + x[1..] + y
    ensures [""] + (x + y) == [""] + x + y
  {
  }

  lemma {:induction false} SplitAtSlash(a: string, b: string)
    ensures Split(a + "/" + b) == Split(a) + Split(b)
  {
    if a == "" {
      SplitStep('/', b);
      assert a + "/" + b == ['/'] + b;
    } else {
      var rest := a[1..];
      SplitAtSlash(rest, b);
      assert a == [a[0]] + rest && a + "/" + b == [a[0]] + (rest + "/" + b);
      SplitStep(a[0], rest);
      SplitStep(a[0], rest + "/" + b);
      FirstGrows(a[0], Split(rest), Split(b));
    }
  }

  lemma {:induction false} ResolveOn(p: seq<string>, q: seq<string>, at: Place)
    ensures Resolve(p + q, at) == Resolve(q, Resolve(p, at))
    decreases |p|
  {
    if p == [] {
      assert p + q == q;
    } else {
      assert (p + q)[1..] == p[1..] + q;
      ResolveOn(p[1..], q, Into(at, p[0]));
    }
  }

  lemma {:induction false} SplitPlain(n: string)
    requires '/' !in n
    ensures Split(n) == [n]
  {
    if n != "" {
      SplitPlain(n[1..]);
      assert [n[0]] + n[1..] == n;
    }
  }

  /** A name under a path is a place under its place. */
  lemma PlaceUnder(path: string, n: string)
    requires '/' !in n && n !in ["", ".", ".."]
    ensures PlaceOf(path + "/" + n) == PlaceOf(path) + [n]
  {
    SplitAtSlash(path, n);
    SplitPlain(n);
    ResolveOn(Split(path), [n], []);
    assert [n][1..] == [];
  }

  lemma ResolveOne(part: string, at: Place)
    ensures Resolve([part], at) == Into(at, part)
  {
    assert [part][1..] == [];
  }

  lemma Back(at: Place)
    ensures Into(at, "..") == if at == [] then [] else at[..|at| - 1]
  {
    assert |".."| == 2 && |"."| == 1 && |""| == 0;
  }

  /** Two dots lead back: to the place that holds it, the root's being the root. */
  lemma PlaceAbove(path: string)
    ensures var at := PlaceOf(path); PlaceOf(path + "/..") == if at == [] then [] else at[..|at| - 1]
  {
    assert path + "/.." == path + "/" + "..";
    SplitAtSlash(path, "..");
    SplitPlain("..");
    ResolveOn(Split(path), [".."], []);
    ResolveOne("..", PlaceOf(path));
    Back(PlaceOf(path));
  }

  lemma SamePlace(a: string, b: string, part: string)
    requires part in ["", "."]
    ensures PlaceOf(a + "/" + (part + "/" + b)) == PlaceOf(a + "/" + b)
  {
    SplitAtSlash(a, b);
    SplitAtSlash(a, part + "/" + b);
    SplitAtSlash(part, b);
    SplitPlain(part);
    ResolveOn(Split(a), Split(b), []);
    ResolveOn(Split(a), [part] + Split(b), []);
    assert ([part] + Split(b))[1..] == Split(b);
  }

  /** One slash or two, and a dot between: one place. */
  lemma OnePlace(a: string, b: string)
    ensures PlaceOf(a + "//" + b) == PlaceOf(a + "/" + b) == PlaceOf(a + "/./" + b)
  {
    SamePlace(a, b, "");
    SamePlace(a, b, ".");
    assert a + "//" + b == a + "/" + ("" + "/" + b) && a + "/./" + b == a + "/" + ("." + "/" + b);
  }
}
