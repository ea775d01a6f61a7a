/**
 * Publishing API health: any number of recorders update one map, and each
 * then writes the whole map to one temporary file and renames it over the
 * state file. Every step below is one atomic action of one recorder.
 */
module ApiPublish {
  import opened Process

  type Key = (string, string)
  type Health = map<Key, int>   // what `list` returns, per process and API

  /** A file's content: which version of the map it holds, and whether all of it. */
  datatype File = File(version: nat, complete: bool)

  datatype Pc =
    | Recorded                   // map updated, `publish` not entered
    | Wants                      // waiting for the publish lock
    | Holds
    | Snapshot(version: nat)     // the map is read
    | Writing(version: nat)      // the temporary file is created or truncated
    | Written(version: nat)

  datatype St = St(
    versions: seq<Health>,       // every value the map has had; the last is its value now
    recorders: map<nat, Pc>,     // those with a publish outstanding
    lock: Option<nat>,
    tmp: Option<(nat, File)>,    // and who wrote it
    file: Option<File>,
    configured: bool,
    lastRead: Option<nat>,       // the version the last publish to finish had read
    lastFailed: bool)

  datatype Action =
    | Record(id: nat, value: Health)
    | SetStateFile(id: nat)
    | Enter(id: nat)
    | Acquire(id: nat)
    | Read(id: nat)
    | Truncate(id: nat, ok: bool)
    | Write(id: nat, ok: bool)
    | Rename(id: nat, ok: bool)

  function Latest(s: St): int { |s.versions| - 1 }

  function Move(s: St, id: nat, pc: Pc): St { s.(recorders := s.recorders[id := pc]) }

  /** The publish is over, and the lock released. */
  function Finish(s: St, id: nat, version: nat, failed: bool): St {
    s.(recorders := s.recorders - {id}, lock := None, lastRead := Some(version), lastFailed := failed)
  }

  /** One step; `oneWriter` is whether the publish lock is taken (it is). */
  ghost predicate Step(oneWriter: bool, s: St, a: Action, t: St) {
    match a
    case Record(id, value) =>
      id !in s.recorders && t == Move(s.(versions := s.versions + [value]), id, Recorded)
    case SetStateFile(id) =>
      id !in s.recorders && !s.configured && t == Move(s.(configured := true), id, Wants)
    case Enter(id) =>
      && id in s.recorders && s.recorders[id].Recorded?
      && t == if s.configured then Move(s, id, Wants) else s.(recorders := s.recorders - {id})
    case Acquire(id) =>
      && id in s.recorders && s.recorders[id].Wants? && (oneWriter ==> s.lock.None?)
      && t == Move(s.(lock := Some(id)), id, Holds)
    case Read(id) =>
      id in s.recorders && s.recorders[id].Holds? && s.versions != [] && t == Move(s, id, Snapshot(Latest(s)))
    case Truncate(id, ok) =>
      && id in s.recorders && s.recorders[id].Snapshot?
      && var v := s.recorders[id].version;
      t == if ok then Move(s.(tmp := Some((id, File(v, false)))), id, Writing(v)) else Finish(s, id, v, true)
    case Write(id, ok) =>
      && id in s.recorders && s.recorders[id].Writing?
      && var v := s.recorders[id].version;
      t == if ok then Move(s.(tmp := Some((id, File(v, true)))), id, Written(v)) else Finish(s, id, v, true)
    case Rename(id, ok) =>
      && id in s.recorders && s.recorders[id].Written?
      && var v := s.recorders[id].version;
      && (ok ==> s.tmp.Some?)   // there is something to rename
      && t == if ok then Finish(s.(file := Some(s.tmp.value.1), tmp := None), id, v, false) else Finish(s, id, v, true)
  }

  ghost predicate Init(s: St) {
    s == St([map[]], map[], None, None, None, false, None, false)
  }

  ghost predicate IsRun(oneWriter: bool, run: seq<St>, acts: seq<Action>) {
    && |run| == |acts| + 1 && Init(run[0])
    && forall i :: 0 <= i < |acts| ==> Step(oneWriter, run[i], acts[i], run[i + 1])
  }

  // ------------------------------------------------------------ invariants

  predicate InLock(pc: Pc) { !pc.Recorded? && !pc.Wants? }

  /** A recorder that has not read the map yet, or has read its newest value. */
  ghost predicate WillPublishLatest(s: St, id: nat) {
    id in s.recorders && match s.recorders[id]
      case Snapshot(v) => v == Latest(s)
      case Writing(v) => v == Latest(s)
      case Written(v) => v == Latest(s)
      case _ => true
  }

  ghost predicate RecorderKept(s: St, id: nat, pc: Pc) {
    && (InLock(pc) <==> s.lock == Some(id)) && (!pc.Recorded? ==> s.configured)
    && (pc.Snapshot? || pc.Writing? || pc.Written? ==>
          && pc.version <= Latest(s)
          && (s.file.Some? ==> s.file.value.version <= pc.version)
          && (s.lastRead.Some? ==> s.lastRead.value <= pc.version))
    && (pc.Writing? ==> s.tmp == Some((id, File(pc.version, false))))
    && (pc.Written? ==> s.tmp == Some((id, File(pc.version, true))))
  }

  ghost predicate Kept(s: St) {
    && s.versions != []
    && (s.lock.Some? ==> s.lock.value in s.recorders)
    && (s.tmp.Some? || s.file.Some? || s.lastRead.Some? ==> s.configured)
    && (forall id :: id in s.recorders ==> RecorderKept(s, id, s.recorders[id]))
    && (s.file.Some? ==> s.file.value.complete && s.file.value.version <= Latest(s))
    && (s.lastRead.Some? ==>
          s.lastRead.value <= Latest(s) && (s.file.Some? ==> s.file.value.version <= s.lastRead.value))
    && (s.lastRead.None? ==> s.file.None?)
    && (s.lastRead.Some? && !s.lastFailed ==> s.file == Some(File(s.lastRead.value, true)))
    && (s.configured ==> s.lastRead == Some(Latest(s)) || exists id :: WillPublishLatest(s, id))
  }

  /** A recorder that is not in the lock sees only the map grow; one that is, nothing of others' doing. */
  lemma OthersKept(s: St, a: Action, t: St, id: nat)
    requires Kept(s) && Step(true, s, a, t) && id != a.id && id in s.recorders
    ensures id in t.recorders && t.recorders[id] == s.recorders[id] && RecorderKept(t, id, t.recorders[id])
  {
    assert RecorderKept(s, id, s.recorders[id]);
    if a.id in s.recorders { assert RecorderKept(s, a.id, s.recorders[a.id]); }
  }

  lemma OwnKept(s: St, a: Action, t: St)
    requires Kept(s) && Step(true, s, a, t) && a.id in t.recorders
    ensures RecorderKept(t, a.id, t.recorders[a.id])
  {
    if a.id in s.recorders { assert RecorderKept(s, a.id, s.recorders[a.id]); }
  }

  /** The part of `Kept` about files and versions. */
  lemma FilesKept(s: St, a: Action, t: St)
    requires Kept(s) && Step(true, s, a, t)
    ensures t.versions != [] && (t.lock.Some? ==> t.lock.value in t.recorders)
    ensures t.file.Some? ==> t.file.value.complete && t.file.value.version <= Latest(t)
    ensures t.lastRead.Some?
      ==> t.lastRead.value <= Latest(t) && (t.file.Some? ==> t.file.value.version <= t.lastRead.value)
    ensures t.lastRead.None? ==> t.file.None?
    ensures t.tmp.Some? || t.file.Some? || t.lastRead.Some? ==> t.configured
    ensures t.lastRead.Some? && !t.lastFailed ==> t.file == Some(File(t.lastRead.value, true))
  {
    if a.id in s.recorders { assert RecorderKept(s, a.id, s.recorders[a.id]); }
  }

  lemma StillCovered(s: St, a: Action, t: St)
    requires Kept(s) && Step(true, s, a, t) && t.configured
    ensures t.lastRead == Some(Latest(t)) || exists id :: WillPublishLatest(t, id)
  {
    if a.id in s.recorders { assert RecorderKept(s, a.id, s.recorders[a.id]); }
    if !WillPublishLatest(t, a.id) && t.lastRead != Some(Latest(t)) {
      assert !a.Record? && s.configured && Latest(t) == Latest(s);
      var id :| WillPublishLatest(s, id);
      assert WillPublishLatest(t, id);
    }
  }

  lemma KeptByStep(s: St, a: Action, t: St)
    requires Kept(s) && Step(true, s, a, t)
    ensures Kept(t)
  {
    FilesKept(s, a, t);
    if t.configured { StillCovered(s, a, t); }
    forall id | id in t.recorders ensures RecorderKept(t, id, t.recorders[id]) {
      if id == a.id { OwnKept(s, a, t); } else { OthersKept(s, a, t, id); }
    }
  }

  lemma {:induction false} RunsKeep(run: seq<St>, acts: seq<Action>, i: nat)
    requires IsRun(true, run, acts) && i < |run|
    ensures Kept(run[i])
  {
    if i > 0 {
      RunsKeep(run, acts, i - 1);
      KeptByStep(run[i - 1], acts[i - 1], run[i]);
    }
  }

  // --------------------------------------------------------- what it means

  /** A rename always finds the temporary file its own recorder wrote, and all of it. */
  lemma RenameFindsItsOwnFile(run: seq<St>, acts: seq<Action>, i: nat, id: nat)
    requires IsRun(true, run, acts) && i < |run|
    requires id in run[i].recorders && run[i].recorders[id].Written?
    ensures run[i].tmp == Some((id, File(run[i].recorders[id].version, true)))
  {
    RunsKeep(run, acts, i);
    assert RecorderKept(run[i], id, run[i].recorders[id]);
  }

  /** There is a state file to write once one has been set, which happens once; before, nothing is written. */
  lemma {:induction false} NothingIsWrittenUnasked(run: seq<St>, acts: seq<Action>, i: nat)
    requires IsRun(true, run, acts) && i < |run|
    ensures run[i].configured <==> exists j :: 0 <= j < i && acts[j].SetStateFile?
    ensures forall j, k :: 0 <= j < k < i && acts[j].SetStateFile? ==> !acts[k].SetStateFile?
    ensures run[i].file.Some? || run[i].tmp.Some? ==> run[i].configured
  {
    RunsKeep(run, acts, i);
    if i > 0 {
      NothingIsWrittenUnasked(run, acts, i - 1);
      assert Step(true, run[i - 1], acts[i - 1], run[i]);
    }
  }

  /** The state file is only ever whole, and never goes back to an older map. */
  lemma {:induction false} PublishedOnlyForward(run: seq<St>, acts: seq<Action>, i: nat, j: nat)
    requires IsRun(true, run, acts) && i <= j < |run| && run[i].file.Some?
    ensures run[j].file.Some? && run[j].file.value.complete
    ensures run[i].file.value.version <= run[j].file.value.version
  {
    RunsKeep(run, acts, j);
    if i < j {
      PublishedOnlyForward(run, acts, i, j - 1);
      var s, a := run[j - 1], acts[j - 1];
      RunsKeep(run, acts, j - 1);
      assert Step(true, s, a, run[j]);
      if a.Rename? { assert RecorderKept(s, a.id, s.recorders[a.id]); }
    }
  }

  /** How the last publish to end ended: its rename worked, or a call of it failed. */
  function LastEnd(acts: seq<Action>): Option<bool> {
    if acts == [] then None
    else
      match acts[|acts| - 1]
      case Rename(_, ok) => Some(ok)
      case Truncate(_, ok) => if ok then LastEnd(acts[..|acts| - 1]) else Some(false)
      case Write(_, ok) => if ok then LastEnd(acts[..|acts| - 1]) else Some(false)
      case _ => LastEnd(acts[..|acts| - 1])
  }

  lemma {:induction false} FailuresAreMarked(run: seq<St>, acts: seq<Action>, i: nat)
    requires IsRun(true, run, acts) && i < |run|
    ensures run[i].lastRead.Some? <==> LastEnd(acts[..i]).Some?
    ensures run[i].lastFailed <==> LastEnd(acts[..i]) == Some(false)
  {
    if i > 0 {
      FailuresAreMarked(run, acts, i - 1);
      assert Step(true, run[i - 1], acts[i - 1], run[i]);
      assert acts[..i][..i - 1] == acts[..i - 1];
    }
  }

  /**
   * At rest, with no publish outstanding, the state file holds the map as it
   * is now, if the rename of the last publish worked; if a call of it failed,
   * it still holds one whole, older map, or none was ever published.
   */
  lemma AtRestTheFileIsCurrent(run: seq<St>, acts: seq<Action>, i: nat)
    requires IsRun(true, run, acts) && i < |run|
    requires run[i].configured && run[i].recorders == map[]
    ensures run[i].lastRead == Some(Latest(run[i]))
    ensures LastEnd(acts[..i]).Some?
    ensures LastEnd(acts[..i]) == Some(true) ==> run[i].file == Some(File(Latest(run[i]), true))
    ensures run[i].file.Some? ==> run[i].file.value.complete
  {
    RunsKeep(run, acts, i);
    FailuresAreMarked(run, acts, i);
  }

  // ------------------------------------------------------- no publish is stuck

  ghost predicate Goes(s: St, t: St) {
    exists run: seq<St>, acts: seq<Action> :: Leads(s, run, acts, t)
  }

  ghost predicate Leads(s: St, run: seq<St>, acts: seq<Action>, t: St) {
    && |run| == |acts| + 1 && run[0] == s && run[|run| - 1] == t
    && forall i :: 0 <= i < |acts| ==> Step(true, run[i], acts[i], run[i + 1])
  }

  lemma Stays(s: St)
    ensures Goes(s, s)
  {
    assert Leads(s, [s], [], s);
  }

  lemma Then(s: St, t: St, a: Action, u: St)
    requires Goes(s, t) && Step(true, t, a, u)
    ensures Goes(s, u)
  {
    var run: seq<St>, acts: seq<Action> :| Leads(s, run, acts, t);
    var (run', acts') := (run + [u], acts + [a]);
    forall i | 0 <= i < |acts'| ensures Step(true, run'[i], acts'[i], run'[i + 1]) {
      if i < |acts| { assert Step(true, run[i], acts[i], run[i + 1]); }
    }
    assert Leads(s, run', acts', u);
  }

  /** The map as it is, and whoever else has a publish outstanding. */
  ghost predicate OnlyEnds(s: St, t: St, id: nat) {
    && t.versions == s.versions && t.configured == s.configured && t.recorders == s.recorders - {id}
    && t.lock.None? && !t.lastFailed && Kept(t)
  }

  /** It has gone on, and nothing but the temporary file is otherwise. */
  ghost predicate GoesOn(r: St, s: St, t: St, id: nat) {
    && Goes(r, t) && Kept(t) && t.lock == Some(id) && id in t.recorders
    && t.versions == s.versions && t.configured == s.configured && t.recorders - {id} == s.recorders - {id}
  }

  lemma Moves(r: St, s: St, t: St, id: nat, a: Action, tmp: Option<(nat, File)>, pc: Pc) returns (u: St)
    requires GoesOn(r, s, t, id) && Step(true, t, a, Move(t.(tmp := tmp), id, pc))
    ensures u == Move(t.(tmp := tmp), id, pc) && GoesOn(r, s, u, id)
  {
    u := Goes1(r, t, a, Move(t.(tmp := tmp), id, pc));
  }

  lemma UpToTheWrite(r: St, s: St, id: nat) returns (t: St)
    requires GoesOn(r, s, s, id)
    ensures GoesOn(r, s, t, id) && (t.recorders[id].Writing? || t.recorders[id].Written?)
  {
    t := s;
    assert RecorderKept(s, id, s.recorders[id]);
    if t.recorders[id].Holds? { t := Moves(r, s, t, id, Read(id), t.tmp, Snapshot(Latest(t))); }
    if t.recorders[id].Snapshot? {
      var v := t.recorders[id].version;
      t := Moves(r, s, t, id, Truncate(id, true), Some((id, File(v, false))), Writing(v));
    }
  }

  lemma UpToTheRename(r: St, s: St, t: St, id: nat) returns (u: St)
    requires GoesOn(r, s, t, id) && (t.recorders[id].Writing? || t.recorders[id].Written?)
    ensures GoesOn(r, s, u, id) && u.recorders[id].Written?
  {
    u := t;
    if t.recorders[id].Writing? {
      var v := t.recorders[id].version;
      u := Moves(r, s, t, id, Write(id, true), Some((id, File(v, true))), Written(v));
    }
  }

  /** One with the lock can go on, its file calls working, to the rename. */
  lemma HolderEnds(r: St, s: St, id: nat) returns (t: St)
    requires Goes(r, s) && Kept(s) && s.lock == Some(id)
    ensures Goes(r, t) && OnlyEnds(s, t, id)
  {
    var u := UpToTheWrite(r, s, id);
    u := UpToTheRename(r, s, u, id);
    assert RecorderKept(u, id, u.recorders[id]);
    var v := u.recorders[id].version;
    t := Goes1(r, u, Rename(id, true), Finish(u.(file := Some(u.tmp.value.1), tmp := None), id, v, false));
  }

  lemma Goes1(r: St, s: St, a: Action, u: St) returns (t: St)
    requires Goes(r, s) && Kept(s) && Step(true, s, a, u)
    ensures t == u && Goes(r, t) && Kept(t)
  {
    Then(r, s, a, u);
    KeptByStep(s, a, u);
    t := u;
  }

  lemma OneEnds(r: St, s: St, id: nat) returns (t: St)
    requires Goes(r, s) && Kept(s) && s.lock.None? && s.configured && id in s.recorders
    ensures Goes(r, t) && OnlyEnds(s, t, id)
  {
    var u := s;
    assert RecorderKept(s, id, s.recorders[id]);
    if u.recorders[id].Recorded? { u := Goes1(r, u, Enter(id), Move(u, id, Wants)); }
    u := Goes1(r, u, Acquire(id), Move(u.(lock := Some(id)), id, Holds));
    assert u.recorders - {id} == s.recorders - {id};
    t := HolderEnds(r, u, id);
  }

  /** Whatever has failed so far, every publish outstanding can end, and the file be the map as it is now. */
  lemma {:induction false} AllCanBePublished(r: St, s: St) returns (t: St)
    requires Goes(r, s) && Kept(s) && s.configured && s.recorders != map[]
    ensures Goes(r, t) && t.versions == s.versions && t.recorders == map[]
    ensures t.file == Some(File(Latest(t), true))
    decreases |s.recorders|
  {
    if s.lock.Some? {
      t := HolderEnds(r, s, s.lock.value);
    } else {
      var id :| id in s.recorders;
      t := OneEnds(r, s, id);
    }
    if t.recorders != map[] {
      var u := t;
      t := AllCanBePublished(r, u);
    }
  }

  // Without the lock: recorder 1 has written the temporary file when recorder
  // 2 writes it again; 1's rename then takes it away.
  const R0 := St([map[]], map[], None, None, None, false, None, false)
  const R1 := Move(R0.(configured := true), 1, Wants)
  const R2 := Move(R1.(lock := Some(1)), 1, Holds)
  const R3 := Move(R2, 1, Snapshot(0))
  const R4 := Move(R3.(tmp := Some((1, File(0, false)))), 1, Writing(0))
  const R5 := Move(R4.(tmp := Some((1, File(0, true)))), 1, Written(0))
  const R6 := Move(R5.(versions := [map[], map[]]), 2, Recorded)
  const R7 := Move(R6, 2, Wants)
  const R8 := Move(R7.(lock := Some(2)), 2, Holds)
  const R9 := Move(R8, 2, Snapshot(1))
  const R10 := Move(R9.(tmp := Some((2, File(1, false)))), 2, Writing(1))
  const R11 := Move(R10.(tmp := Some((2, File(1, true)))), 2, Written(1))
  const R12 := Finish(R11.(file := Some(File(1, true)), tmp := None), 1, 0, false)

  lemma RaceBegins()
    ensures Init(R0) && Step(false, R0, SetStateFile(1), R1) && Step(false, R1, Acquire(1), R2)
    ensures Step(false, R2, Read(1), R3) && Step(false, R3, Truncate(1, true), R4)
    ensures Step(false, R4, Write(1, true), R5)
  {
  }

  lemma RaceGoesOn()
    ensures Step(false, R5, Record(2, map[]), R6) && Step(false, R6, Enter(2), R7) && Step(false, R7, Acquire(2), R8)
    ensures Step(false, R8, Read(2), R9) && Step(false, R9, Truncate(2, true), R10)
  {
    assert R5.versions + [map[]] == [map[], map[]];
  }

  lemma RaceEnds()
    ensures Step(false, R10, Write(2, true), R11) && Step(false, R11, Rename(1, true), R12)
    ensures 2 in R12.recorders && R12.recorders[2].Written? && R12.tmp.None?
  {
  }

  /** Why the lock: without it a recorder's rename can find the temporary file gone. */
  lemma WithoutTheLockARenameFindsNothing() returns (run: seq<St>, acts: seq<Action>)
    ensures IsRun(false, run, acts)
    ensures var s := run[|run| - 1]; 2 in s.recorders && s.recorders[2].Written? && s.tmp.None?
  {
    RaceBegins();
    RaceGoesOn();
    RaceEnds();
    acts := [SetStateFile(1), Acquire(1), Read(1), Truncate(1, true), Write(1, true),
             Record(2, map[]), Enter(2), Acquire(2), Read(2), Truncate(2, true), Write(2, true), Rename(1, true)];
    run := [R0, R1, R2, R3, R4, R5, R6, R7, R8, R9, R10, R11, R12];
  }
}
