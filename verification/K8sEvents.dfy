/** Kubernetes-shaped events: repeats counted, the oldest dropped, and polled by sequence number. */
module K8sEvents {
  import opened Sorting

  /** Events kept. */
  const KEEP: nat := 1000

  datatype Kind = Normal | Warning

  /** What makes two events the same. */
  datatype Id = Id(process: string, reason: string, message: string)

  datatype Event = Event(kind: Kind, id: Id, count: nat, first: int, last: int, seqNo: nat)

  /** One call of `add`. */
  datatype Report = Report(kind: Kind, id: Id, now: int)

  class EventStore {
    var events: seq<Event>
    var counter: nat
    /** Every add there has been, in order. */
    ghost var adds: seq<Report>

    ghost predicate Valid() reads this { events == After(adds) && counter == |adds| }

    constructor ()
      ensures Valid() && adds == []
    {
      events, counter, adds := [], 0, [];
    }

    /** The event like this one, looked for from the latest. */
    method Find(id: Id) returns (i: int)
      ensures i == IndexOf(events, id)
    {
      i := |events| - 1;
      assert events[..i + 1] == events;
      while i >= 0
        invariant -1 <= i < |events|
        invariant IndexOf(events[..i + 1], id) == IndexOf(events, id)
      {
        assert events[..i + 1][..i] == events[..i];
        if events[i].id == id { return; }
        i := i - 1;
      }
    }

    method Add(kind: Kind, id: Id, now: int)
      requires Valid()
      modifies this
      ensures Valid() && adds == old(adds) + [Report(kind, id, now)]
      ensures events == Added(old(events), Report(kind, id, now), counter)
    {
      ghost var kept := Added(events, Report(kind, id, now), counter + 1);
      NextAfter(adds, Report(kind, id, now));
      adds := adds + [Report(kind, id, now)];
      counter := counter + 1;
      var i := Find(id);
      if i >= 0 {
        var e := events[i];
        events := events[i := e.(count := e.count + 1, last := now, seqNo := counter)];
        return;
      }
      events := events + [Event(kind, id, 1, now, now, counter)];
      while |events| > KEEP
        invariant adds == old(adds) + [Report(kind, id, now)] && counter == |adds|
        invariant events == kept || (|events| > KEEP && events[1..] == kept)
        invariant |kept| <= KEEP
      {
        events := events[1..];
      }
    }

    /** Events changed after `since`, oldest change first. */
    method Since(since: nat) returns (changed: seq<Event>)
      ensures changed == Polled(events, since)
    {
      changed := [];
      var i := 0;
      while i < |events|
        invariant 0 <= i <= |events|
        invariant changed == NewerThan(events[..i], since)
      {
        assert events[..i + 1][..i] == events[..i];
        if events[i].seqNo > since { changed := changed + [events[i]]; }
        i := i + 1;
      }
      assert events[..i] == events;
      changed := Sort(changed, SeqNo());
    }
  }

  function SeqNo(): Event -> int { (e: Event) => e.seqNo }

  function Counts(events: seq<Event>): nat {
    if events == [] then 0 else events[0].count + Counts(events[1..])
  }

  function NewerThan(events: seq<Event>, since: nat): seq<Event> {
    if events == [] then []
    else
      var (newer, last) := (NewerThan(events[..|events| - 1], since), events[|events| - 1]);
      if last.seqNo > since then newer + [last] else newer
  }

  function Polled(events: seq<Event>, since: nat): seq<Event> { Sort(NewerThan(events, since), SeqNo()) }

  function IndexOf(events: seq<Event>, id: Id): (i: int)
    ensures -1 <= i < |events|
    ensures i >= 0 ==> events[i].id == id
    ensures i < 0 ==> forall j :: 0 <= j < |events| ==> events[j].id != id
  {
    if events == [] then -1
    else if events[|events| - 1].id == id then |events| - 1
    else IndexOf(events[..|events| - 1], id)
  }

  function Bumped(e: Event, r: Report, n: nat): Event { e.(count := e.count + 1, last := r.now, seqNo := n) }

  function Fresh(r: Report, n: nat): Event { Event(r.kind, r.id, 1, r.now, r.now, n) }

  /**
   * The events after an add: a repeat bumps its event where it is; a new one goes
   * last, the oldest out if there are too many.
   */
  function Added(events: seq<Event>, r: Report, n: nat): seq<Event> {
    var i := IndexOf(events, r.id);
    if i >= 0 then events[i := Bumped(events[i], r, n)]
    else
      var all := events + [Fresh(r, n)];
      if |all| > KEEP then all[1..] else all
  }

  /** The events kept after these adds to an empty store. */
  function After(adds: seq<Report>): seq<Event> {
    if adds == [] then [] else Added(After(adds[..|adds| - 1]), adds[|adds| - 1], |adds|)
  }

  lemma NextAfter(adds: seq<Report>, r: Report)
    ensures After(adds + [r]) == Added(After(adds), r, |adds| + 1) && |After(adds)| <= KEEP
  {
    assert (adds + [r])[..|adds|] == adds;
    KeptEventsTell(adds);
  }

  /** The counts of the events dropped by these adds. */
  function Evicted(adds: seq<Report>): nat {
    if adds == [] then 0
    else
      var init, r := adds[..|adds| - 1], adds[|adds| - 1];
      Evicted(init) + if IndexOf(After(init), r.id) < 0 && |After(init)| >= KEEP then After(init)[0].count else 0
  }

  // --------------------------------------------------- what a kept event says

  /** The number of the last add of `id`, counting from 1; 0 if there was none. */
  function LastAdd(adds: seq<Report>, id: Id): (n: nat)
    ensures n <= |adds|
    ensures n > 0 ==> adds[n - 1].id == id
    ensures forall i :: n <= i < |adds| ==> adds[i].id != id
  {
    if adds == [] then 0 else if adds[|adds| - 1].id == id then |adds| else LastAdd(adds[..|adds| - 1], id)
  }

  function Times(adds: seq<Report>, id: Id): nat {
    if adds == [] then 0 else Times(adds[..|adds| - 1], id) + if adds[|adds| - 1].id == id then 1 else 0
  }

  /** The event began with add `k` and has counted every add of its like since. */
  predicate Began(e: Event, adds: seq<Report>, k: nat) {
    && k < |adds| && adds[k].id == e.id && adds[k].kind == e.kind && adds[k].now == e.first
    && e.count == Times(adds[k..], e.id)
  }

  /** The event tells of the last add of its like, and counts from an earlier one. */
  ghost predicate Tells(e: Event, adds: seq<Report>) {
    && e.seqNo == LastAdd(adds, e.id) > 0 && e.last == adds[e.seqNo - 1].now
    && exists k :: Began(e, adds, k)
  }

  ghost predicate AllTell(events: seq<Event>, adds: seq<Report>) {
    forall i :: 0 <= i < |events| ==> Tells(events[i], adds)
  }

  ghost predicate Unlike(events: seq<Event>) {
    forall i, j :: 0 <= i < j < |events| ==> events[i].id != events[j].id
  }

  lemma NextAdd(adds: seq<Report>, r: Report, id: Id)
    ensures LastAdd(adds + [r], id) == if r.id == id then |adds| + 1 else LastAdd(adds, id)
  {
    assert (adds + [r])[..|adds|] == adds;
  }

  lemma NextTimes(adds: seq<Report>, r: Report, k: nat, id: Id)
    requires k <= |adds|
    ensures Times((adds + [r])[k..], id) == Times(adds[k..], id) + if r.id == id then 1 else 0
  {
    assert (adds + [r])[k..] == adds[k..] + [r];
    assert (adds[k..] + [r])[..|adds| - k] == adds[k..];
  }

  lemma TellsOn(e: Event, adds: seq<Report>, r: Report)
    requires Tells(e, adds) && r.id != e.id
    ensures Tells(e, adds + [r])
  {
    var k :| Began(e, adds, k);
    NextAdd(adds, r, e.id);
    NextTimes(adds, r, k, e.id);
    assert Began(e, adds + [r], k);
  }

  lemma BumpTells(e: Event, adds: seq<Report>, r: Report)
    requires Tells(e, adds) && r.id == e.id
    ensures Tells(Bumped(e, r, |adds| + 1), adds + [r])
  {
    var k :| Began(e, adds, k);
    NextAdd(adds, r, e.id);
    NextTimes(adds, r, k, e.id);
    assert Began(Bumped(e, r, |adds| + 1), adds + [r], k);
  }

  lemma FreshTells(adds: seq<Report>, r: Report)
    ensures Tells(Fresh(r, |adds| + 1), adds + [r])
  {
    NextAdd(adds, r, r.id);
    NextTimes(adds, r, |adds|, r.id);
    assert Began(Fresh(r, |adds| + 1), adds + [r], |adds|);
  }

  lemma AllBut(events: seq<Event>, adds: seq<Report>, r: Report)
    requires AllTell(events, adds)
    ensures forall j :: 0 <= j < |events| && events[j].id != r.id ==> Tells(events[j], adds + [r])
  {
    forall j | 0 <= j < |events| && events[j].id != r.id ensures Tells(events[j], adds + [r]) {
      TellsOn(events[j], adds, r);
    }
  }

  lemma BumpKeeps(events: seq<Event>, adds: seq<Report>, i: nat, r: Report)
    requires Unlike(events) && AllTell(events, adds) && i < |events| && events[i].id == r.id
    ensures Unlike(events[i := Bumped(events[i], r, |adds| + 1)])
    ensures AllTell(events[i := Bumped(events[i], r, |adds| + 1)], adds + [r])
  {
    AllBut(events, adds, r);
    BumpTells(events[i], adds, r);
  }

  lemma FreshKeeps(events: seq<Event>, adds: seq<Report>, r: Report)
    requires Unlike(events) && AllTell(events, adds) && IndexOf(events, r.id) < 0
    ensures Unlike(events + [Fresh(r, |adds| + 1)])
    ensures AllTell(events + [Fresh(r, |adds| + 1)], adds + [r])
  {
    AllBut(events, adds, r);
    FreshTells(adds, r);
  }

  /**
   * After any adds: at most 1000 events are kept, no two of them alike, each
   * numbered and timed by the last add of its like and counting every such add
   * since the one it began with.
   */
  lemma {:induction false} KeptEventsTell(adds: seq<Report>)
    ensures |After(adds)| <= 1000 && Unlike(After(adds)) && AllTell(After(adds), adds)
  {
    if adds != [] {
      var init, r := adds[..|adds| - 1], adds[|adds| - 1];
      KeptEventsTell(init);
      assert adds == init + [r];
      var i := IndexOf(After(init), r.id);
      if i >= 0 { BumpKeeps(After(init), init, i, r); } else { FreshKeeps(After(init), init, r); }
    }
  }

  /** What is kept of `before` in `after`, which holds the add of `r` too. */
  ghost predicate KeepsTheRest(before: seq<Event>, after: seq<Event>, r: Report, n: nat) {
    && (exists e :: e in after && e.id == r.id && e.seqNo == n && e.last == r.now)
    && forall i :: 0 <= i < |before| && before[i].id != r.id ==>
      (before[i] in after <==> !(i == 0 && |before| == 1000 && forall e :: e in before ==> e.id != r.id))
  }

  lemma ABumpKeepsTheRest(events: seq<Event>, r: Report, n: nat, i: nat)
    requires Unlike(events) && i < |events| && events[i].id == r.id
    ensures KeepsTheRest(events, events[i := Bumped(events[i], r, n)], r, n)
  {
    var after := events[i := Bumped(events[i], r, n)];
    assert after[i] in after && events[i] in events;
    forall j | 0 <= j < |events| && events[j].id != r.id ensures events[j] in after { assert after[j] == events[j]; }
  }

  lemma AFreshOneKeepsTheRest(events: seq<Event>, r: Report, n: nat, after: seq<Event>)
    requires Unlike(events) && |events| <= 1000 && forall j :: 0 <= j < |events| ==> events[j].id != r.id
    requires var all := events + [Fresh(r, n)]; after == if |all| > 1000 then all[1..] else all
    ensures KeepsTheRest(events, after, r, n)
  {
    assert after[|after| - 1] == Fresh(r, n);
    forall j | 0 <= j < |events| ensures events[j] in after <==> !(j == 0 && |events| == 1000) {
      if j > 0 || |events| < 1000 {
        assert after[if |events| == 1000 then j - 1 else j] == events[j];
      } else {
        FirstIsGone(events, Fresh(r, n), after);
      }
    }
  }

  /** An add leaves each other event as it was, but for the first of 1000 when its like was not among them. */
  lemma AnAddKeepsTheRest(adds: seq<Report>, r: Report)
    ensures KeepsTheRest(After(adds), After(adds + [r]), r, |adds| + 1)
  {
    NextAfter(adds, r);
    KeptEventsTell(adds);
    var (before, n) := (After(adds), |adds| + 1);
    var i := IndexOf(before, r.id);
    if i >= 0 { ABumpKeepsTheRest(before, r, n, i); } else { AFreshOneKeepsTheRest(before, r, n, Added(before, r, n)); }
  }

  lemma FirstIsGone(before: seq<Event>, e: Event, after: seq<Event>)
    requires before != [] && Unlike(before) && after == before[1..] + [e] && e.id != before[0].id
    ensures before[0] !in after
  {
    forall j | 0 <= j < |after| ensures after[j] != before[0] {
      if j < |before| - 1 { assert after[j] == before[j + 1]; }
    }
  }

  /** Each began with the add given for it, one after the other. */
  ghost predicate BeganInOrder(events: seq<Event>, adds: seq<Report>, ks: seq<nat>) {
    && |ks| == |events| && (forall i :: 0 <= i < |ks| ==> Began(events[i], adds, ks[i]))
    && forall i, j :: 0 <= i < j < |ks| ==> ks[i] < ks[j]
  }

  /** The events kept are in the order they began in: what is dropped began first. */
  lemma {:induction false} TheFirstBeganFirst(adds: seq<Report>) returns (ks: seq<nat>)
    ensures BeganInOrder(After(adds), adds, ks)
  {
    ks := [];
    if adds != [] {
      var (init, r) := (adds[..|adds| - 1], adds[|adds| - 1]);
      assert adds == init + [r];
      var old_ := TheFirstBeganFirst(init);
      KeptEventsTell(init);
      NextAfter(init, r);
      ks := AddedInOrder(After(init), init, old_, r);
    }
  }

  lemma StillBegan(e: Event, adds: seq<Report>, k: nat, r: Report)
    requires Began(e, adds, k)
    ensures Began(if e.id == r.id then Bumped(e, r, |adds| + 1) else e, adds + [r], k)
  {
    NextTimes(adds, r, k, e.id);
  }

  lemma BumpedInOrder(events: seq<Event>, adds: seq<Report>, ks: seq<nat>, r: Report, i: nat)
    requires BeganInOrder(events, adds, ks) && Unlike(events) && i < |events| && events[i].id == r.id
    ensures BeganInOrder(events[i := Bumped(events[i], r, |adds| + 1)], adds + [r], ks)
  {
    forall j | 0 <= j < |events|
      ensures Began(events[i := Bumped(events[i], r, |adds| + 1)][j], adds + [r], ks[j])
    {
      StillBegan(events[j], adds, ks[j], r);
      if j != i { assert events[j].id != events[i].id; }
    }
  }

  lemma FreshInOrder(events: seq<Event>, adds: seq<Report>, ks: seq<nat>, r: Report)
    requires BeganInOrder(events, adds, ks) && forall j :: 0 <= j < |events| ==> events[j].id != r.id
    ensures BeganInOrder(events + [Fresh(r, |adds| + 1)], adds + [r], ks + [|adds|])
  {
    var (all, more) := (events + [Fresh(r, |adds| + 1)], ks + [|adds|]);
    NextTimes(adds, r, |adds|, r.id);
    forall j | 0 <= j < |all| ensures Began(all[j], adds + [r], more[j]) {
      if j < |events| { StillBegan(events[j], adds, ks[j], r); }
    }
    forall j | 0 <= j < |ks| ensures ks[j] < |adds| { assert Began(events[j], adds, ks[j]); }
  }

  lemma AddedInOrder(events: seq<Event>, adds: seq<Report>, ks: seq<nat>, r: Report) returns (more: seq<nat>)
    requires BeganInOrder(events, adds, ks) && Unlike(events)
    ensures BeganInOrder(Added(events, r, |adds| + 1), adds + [r], more)
  {
    var i := IndexOf(events, r.id);
    if i >= 0 {
      BumpedInOrder(events, adds, ks, r, i);
      more := ks;
    } else {
      FreshInOrder(events, adds, ks, r);
      var all := ks + [|adds|];
      more := if |events| + 1 > KEEP then all[1..] else all;
    }
  }

  // ----------------------------------------------------------- conservation

  lemma {:induction false} CountsOfUpdate(events: seq<Event>, i: nat, e: Event)
    requires i < |events|
    ensures Counts(events[i := e]) == Counts(events) - events[i].count + e.count
  {
    if i == 0 {
      assert events[i := e][1..] == events[1..];
    } else {
      assert events[i := e][1..] == events[1..][i - 1 := e];
      CountsOfUpdate(events[1..], i - 1, e);
    }
  }

  lemma {:induction false} CountsOfAppend(events: seq<Event>, e: Event)
    ensures Counts(events + [e]) == Counts(events) + e.count
  {
    if events == [] {
      assert (events + [e])[1..] == [];
    } else {
      assert (events + [e])[1..] == events[1..] + [e];
      CountsOfAppend(events[1..], e);
    }
  }

  lemma {:induction false} CountsOfAdded(events: seq<Event>, r: Report, n: nat)
    ensures Counts(Added(events, r, n)) + (if IndexOf(events, r.id) < 0 && |events| >= KEEP then events[0].count else 0)
      == Counts(events) + 1
  {
    var i := IndexOf(events, r.id);
    if i >= 0 { CountsOfUpdate(events, i, Bumped(events[i], r, n)); } else { CountsOfAppend(events, Fresh(r, n)); }
  }

  /** The sequence counter, one per add, is the counts kept and the counts dropped together. */
  lemma {:induction false} CounterIsTheCounts(adds: seq<Report>)
    ensures |adds| == Counts(After(adds)) + Evicted(adds)
  {
    if adds != [] {
      CounterIsTheCounts(adds[..|adds| - 1]);
      CountsOfAdded(After(adds[..|adds| - 1]), adds[|adds| - 1], |adds|);
    }
  }

  // --------------------------------------------------------------- polling

  predicate Rising(events: seq<Event>) {
    forall i, j :: 0 <= i < j < |events| ==> events[i].seqNo < events[j].seqNo
  }

  lemma {:induction false} NewerThanHas(events: seq<Event>, since: nat, e: Event)
    ensures e in NewerThan(events, since) <==> e in events && e.seqNo > since
  {
    if events != [] {
      NewerThanHas(events[..|events| - 1], since, e);
      assert events == events[..|events| - 1] + [events[|events| - 1]];
    }
  }

  lemma {:induction false} NewerThanIsPart(events: seq<Event>, since: nat)
    ensures multiset(NewerThan(events, since)) <= multiset(events)
  {
    if events != [] {
      NewerThanIsPart(events[..|events| - 1], since);
      assert events == events[..|events| - 1] + [events[|events| - 1]];
    }
  }

  lemma OnceEach(events: seq<Event>, e: Event)
    requires Unlike(events)
    ensures multiset(events)[e] <= 1
  {
    if multiset(events)[e] > 1 { Twice(events, e); }
  }

  /** An event held twice is at two places. */
  lemma {:induction false} Twice(events: seq<Event>, e: Event)
    requires multiset(events)[e] > 1
    ensures exists i, j :: 0 <= i < j < |events| && events[i] == e && events[j] == e
  {
    assert events == [events[0]] + events[1..];
    if events[0] == e {
      assert e in events[1..];
      var j :| 0 <= j < |events[1..]| && events[1..][j] == e;
      assert events[j + 1] == e;
    } else {
      Twice(events[1..], e);
      var i, j :| 0 <= i < j < |events[1..]| && events[1..][i] == e && events[1..][j] == e;
      assert events[i + 1] == e && events[j + 1] == e;
    }
  }

  lemma {:induction false} AtTwoPlaces(events: seq<Event>, i: nat, j: nat)
    requires i < j < |events| && events[i] == events[j]
    ensures multiset(events)[events[i]] > 1
  {
    assert events == events[..j] + [events[j]] + events[j + 1..];
    assert events[i] in events[..j];
  }

  /** A number is of one event: its add was of one id, and no two events are of one id. */
  lemma NumbersTell(events: seq<Event>, adds: seq<Report>, a: Event, b: Event)
    requires Unlike(events) && AllTell(events, adds) && a in events && b in events && a.seqNo == b.seqNo
    ensures a == b
  {
    var i :| 0 <= i < |events| && events[i] == a;
    var j :| 0 <= j < |events| && events[j] == b;
    assert Tells(events[i], adds) && Tells(events[j], adds);
    assert adds[a.seqNo - 1].id == a.id && adds[b.seqNo - 1].id == b.id;
  }

  lemma PolledHas(events: seq<Event>, since: nat, e: Event)
    ensures e in Polled(events, since) <==> e in events && e.seqNo > since
  {
    SortSorts(NewerThan(events, since), SeqNo());
    NewerThanHas(events, since, e);
    assert e in Polled(events, since) <==> e in multiset(Polled(events, since));
    assert e in NewerThan(events, since) <==> e in multiset(NewerThan(events, since));
  }

  lemma PolledRises(events: seq<Event>, adds: seq<Report>, since: nat)
    requires Unlike(events) && AllTell(events, adds)
    ensures Rising(Polled(events, since))
  {
    var changed := Polled(events, since);
    SortSorts(NewerThan(events, since), SeqNo());
    NewerThanIsPart(events, since);
    forall i, j | 0 <= i < j < |changed| ensures changed[i].seqNo < changed[j].seqNo {
      assert SeqNo()(changed[i]) <= SeqNo()(changed[j]);
      if changed[i].seqNo == changed[j].seqNo {
        PolledHas(events, since, changed[i]);
        PolledHas(events, since, changed[j]);
        NumbersTell(events, adds, changed[i], changed[j]);
        AtTwoPlaces(changed, i, j);
        OnceEach(events, changed[i]);
      }
    }
  }

  /** Some add numbered above `since` was of this id. */
  ghost predicate AddedSince(adds: seq<Report>, since: nat, id: Id) {
    exists k :: since <= k < |adds| && adds[k].id == id
  }

  /**
   * A poll after any adds: every kept event added or bumped since number
   * `since`, in the order of the changes, and nothing else.
   */
  lemma PollIsExact(adds: seq<Report>, since: nat)
    ensures Rising(Polled(After(adds), since))
    ensures forall e :: e in Polled(After(adds), since) <==> e in After(adds) && AddedSince(adds, since, e.id)
  {
    KeptEventsTell(adds);
    PolledRises(After(adds), adds, since);
    forall e ensures e in Polled(After(adds), since) <==> e in After(adds) && AddedSince(adds, since, e.id) {
      PolledHas(After(adds), since, e);
      if e in After(adds) {
        var i :| 0 <= i < |After(adds)| && After(adds)[i] == e;
        assert Tells(e, adds);
        if e.seqNo > since { assert adds[e.seqNo - 1].id == e.id; }
      }
    }
  }

  /** The newest change is always kept. */
  lemma NewestIsKept(adds: seq<Report>) returns (e: Event)
    requires adds != []
    ensures e in After(adds) && e.seqNo == |adds|
  {
    var init, r := adds[..|adds| - 1], adds[|adds| - 1];
    KeptEventsTell(init);
    var i := IndexOf(After(init), r.id);
    e := After(adds)[if i >= 0 then i else |After(adds)| - 1];
  }

  /**
   * A poller that passes on the last number it was given: after a poll that
   * returned something, that number is the counter, and the next poll returns
   * just the kept events reported in between.
   */
  lemma {:induction false} NextPollTellsTheRest(before: seq<Report>, since: nat, between: seq<Report>)
    requires since < |before|
    ensures var poll := Polled(After(before), since);
      && poll != [] && poll[|poll| - 1].seqNo == |before|
      && forall e ::
        e in Polled(After(before + between), |before|) <==>
        e in After(before + between) && AddedSince(between, 0, e.id)
  {
    var poll := Polled(After(before), since);
    var newest := NewestIsKept(before);
    PolledHas(After(before), since, newest);
    PollIsExact(before, since);
    KeptEventsTell(before);
    var last := poll[|poll| - 1];
    PolledHas(After(before), since, last);
    assert Tells(last, before);
    var adds := before + between;
    PollIsExact(adds, |before|);
    forall id ensures AddedSince(adds, |before|, id) <==> AddedSince(between, 0, id) { Later(before, between, id); }
  }

  lemma Later(before: seq<Report>, between: seq<Report>, id: Id)
    ensures AddedSince(before + between, |before|, id) <==> AddedSince(between, 0, id)
  {
    if AddedSince(between, 0, id) {
      var k :| 0 <= k < |between| && between[k].id == id;
      assert (before + between)[|before| + k].id == id;
    }
    if AddedSince(before + between, |before|, id) {
      var k :| |before| <= k < |before + between| && (before + between)[k].id == id;
      assert between[k - |before|].id == id;
    }
  }
}
