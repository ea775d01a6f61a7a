/**
 * Files re-read when they change: the bearer token's file, and the TLS pair.
 * A file's contents go through versions; any number of callers take stamps,
 * wait for the lock and read, while the files change between any two steps.
 */
module Caches {
  import opened Process

  type Stamp = Option<int>   // modification time and size; None when they cannot be read

  // ------------------------------------------------------ the token file

  /** What the file system would say of each version of the token file. */
  datatype TokenDisk = TokenDisk(stamp: nat -> Stamp, token: nat -> Option<string>)

  /** Two versions never share a stamp. */
  ghost predicate StampsNeverRecur(stamp: nat -> Stamp) {
    forall v: nat, w: nat :: stamp(v).Some? && stamp(v) == stamp(w) ==> v == w
  }

  /** The locked section of `current`: `read` is what the file holds now. */
  function Refreshed(cached: (Stamp, Option<string>), stamp: Stamp, read: Option<string>): (Stamp, Option<string>) {
    if stamp.None? || cached.0 != stamp then (stamp, read) else cached
  }

  class TokenFile {
    var cached: (Stamp, Option<string>)
    ghost const disk: TokenDisk
    /** The versions the cached stamp and token are of, and the latest a call ended at. */
    ghost var stampedAt: nat
    ghost var readAt: nat
    ghost var version: nat

    ghost predicate Valid() reads this {
      cached.0.Some? ==> stampedAt <= readAt <= version && cached == (disk.stamp(stampedAt), disk.token(readAt))
    }

    constructor (ghost disk: TokenDisk)
      ensures Valid() && cached == (None, None) && this.disk == disk && version == 0
    {
      cached, this.disk, stampedAt, readAt, version := (None, None), disk, 0, 0, 0;
    }

    /** A call that took its stamp at version `began`, with what a read now, at version `now`, would give. */
    method Current(stamp: Stamp, read: Option<string>, ghost began: nat, ghost now: nat) returns (token: Option<string>)
      requires Valid() && began <= now && version <= now && stamp == disk.stamp(began) && read == disk.token(now)
      modifies this
      ensures Valid() && version == now && cached == Refreshed(old(cached), stamp, read)
      // What is returned, the file held during the call; nothing is read while the stamp stays.
      ensures StampsNeverRecur(disk.stamp) ==> HeldDuring(disk, Returned(began, now, token))
      ensures stamp.Some? && stamp == old(cached).0 ==> cached == old(cached) && token == old(cached).1
    {
      version := now;
      if stamp.None? || cached.0 != stamp {
        cached := (stamp, read);
        stampedAt, readAt := began, now;
      }
      token := cached.1;
      assert token == disk.token(readAt);
    }
  }

  /** A call: the version it stamped. A return: the versions it began and ended at. */
  datatype Returned = Returned(began: nat, ended: nat, token: Option<string>)

  datatype TokenSt = TokenSt(
    version: nat,
    cached: (Stamp, Option<string>),
    stampedAt: nat,            // the version the cached stamp is of
    readAt: nat,               // the version the cached token is of
    callers: map<nat, nat>,    // stamped, not yet returned: the version each stamped
    answers: seq<Returned>)

  datatype TokenAction =
    | Change
    | TakeStamp(id: nat)
    | LockAndReturn(id: nat)

  ghost predicate TokenStep(disk: TokenDisk, s: TokenSt, a: TokenAction, t: TokenSt) {
    match a
    case Change => t == s.(version := s.version + 1)
    case TakeStamp(id) => id !in s.callers && t == s.(callers := s.callers[id := s.version])
    case LockAndReturn(id) =>
      && id in s.callers
      && var stamp := disk.stamp(s.callers[id]);
      var cached := Refreshed(s.cached, stamp, disk.token(s.version));
      var fresh_ := stamp.None? || s.cached.0 != stamp;
      t == s.(cached := cached,
              stampedAt := if fresh_ then s.callers[id] else s.stampedAt,
              readAt := if fresh_ then s.version else s.readAt,
              callers := s.callers - {id},
              answers := s.answers + [Returned(s.callers[id], s.version, cached.1)])
  }

  ghost predicate TokenRun(disk: TokenDisk, run: seq<TokenSt>, acts: seq<TokenAction>) {
    && |run| == |acts| + 1 && run[0] == TokenSt(run[0].version, (None, None), 0, 0, map[], [])
    && forall i :: 0 <= i < |acts| ==> TokenStep(disk, run[i], acts[i], run[i + 1])
  }

  /** The file held this token at some moment of the call. */
  ghost predicate HeldDuring(disk: TokenDisk, r: Returned) {
    exists v: nat :: r.began <= v <= r.ended && disk.token(v) == r.token
  }

  ghost predicate TokenKept(disk: TokenDisk, s: TokenSt) {
    && (s.cached.0.Some? ==>
          && s.stampedAt <= s.readAt <= s.version
          && s.cached == (disk.stamp(s.stampedAt), disk.token(s.readAt)))
    && (forall id :: id in s.callers ==> s.callers[id] <= s.version)
    && (forall i :: 0 <= i < |s.answers| ==> HeldDuring(disk, s.answers[i]))
  }

  lemma TokenKeptByStep(disk: TokenDisk, s: TokenSt, a: TokenAction, t: TokenSt)
    requires StampsNeverRecur(disk.stamp) && TokenKept(disk, s) && TokenStep(disk, s, a, t)
    ensures TokenKept(disk, t)
  {
    if a.LockAndReturn? {
      var r := Returned(s.callers[a.id], s.version, t.cached.1);
      var v := t.readAt;
      assert r.began <= v <= r.ended && disk.token(v) == r.token;
    }
  }

  /**
   * Every call returns what the file held at some moment of that call: so one
   * during which the file does not change returns what a fresh read would.
   */
  lemma {:induction false} TokenReadsAreFresh(disk: TokenDisk, run: seq<TokenSt>, acts: seq<TokenAction>, i: nat)
    requires StampsNeverRecur(disk.stamp) && TokenRun(disk, run, acts) && i < |run|
    ensures TokenKept(disk, run[i])
  {
    if i > 0 {
      TokenReadsAreFresh(disk, run, acts, i - 1);
      TokenKeptByStep(disk, run[i - 1], acts[i - 1], run[i]);
    }
  }

  lemma UnchangedFileReadsFresh(disk: TokenDisk, run: seq<TokenSt>, acts: seq<TokenAction>, i: nat, r: Returned)
    requires StampsNeverRecur(disk.stamp) && TokenRun(disk, run, acts) && i < |run|
    requires r in run[i].answers && r.began == r.ended
    ensures r.token == disk.token(r.ended)
  {
    TokenReadsAreFresh(disk, run, acts, i);
    assert HeldDuring(disk, r);
  }

  lemma {:induction false} TheCallBegan(disk: TokenDisk, run: seq<TokenSt>, acts: seq<TokenAction>, i: nat, k: nat,
                                        id: nat)
    requires TokenRun(disk, run, acts) && i < k < |run| && acts[i] == TakeStamp(id)
    requires forall m :: i < m < k ==> acts[m] != TakeStamp(id)
    ensures id in run[k].callers ==> run[k].callers[id] == run[i].version
  {
    assert TokenStep(disk, run[k - 1], acts[k - 1], run[k]);
    if i < k - 1 { TheCallBegan(disk, run, acts, i, k - 1, id); }
  }

  /** A call answers with what the file held at some step between its first, where it took the stamp, and its last. */
  lemma ACallAnswersWithTheFile(disk: TokenDisk, run: seq<TokenSt>, acts: seq<TokenAction>, i: nat, j: nat, id: nat)
    requires StampsNeverRecur(disk.stamp) && TokenRun(disk, run, acts) && i < j < |acts|
    requires acts[i] == TakeStamp(id) && acts[j] == LockAndReturn(id)
    requires forall m :: i < m < j ==> acts[m] != TakeStamp(id)
    ensures |run[j + 1].answers| == |run[j].answers| + 1
    ensures var token := run[j + 1].answers[|run[j].answers|].token;
      exists v: nat :: run[i].version <= v <= run[j].version && disk.token(v) == token
  {
    TokenReadsAreFresh(disk, run, acts, j + 1);
    TheCallBegan(disk, run, acts, i, j, id);
    assert TokenStep(disk, run[j], acts[j], run[j + 1]);
    assert HeldDuring(disk, run[j + 1].answers[|run[j].answers|]);
  }

  /** Without distinct stamps it fails: a change the stamp does not show is not seen. */
  lemma ARecurringStampHidesAChange() returns (disk: TokenDisk, run: seq<TokenSt>, acts: seq<TokenAction>)
    ensures TokenRun(disk, run, acts)
    ensures var s := run[|run| - 1]; |s.answers| == 2 && var r := s.answers[1];
      r.began == r.ended && r.token != disk.token(r.ended)
  {
    disk := TokenDisk((v: nat) => Some(7), (v: nat) => Some(if v == 0 then "old" else "new"));
    acts := [TakeStamp(0), LockAndReturn(0), Change, TakeStamp(0), LockAndReturn(0)];
    var s0 := TokenSt(0, (None, None), 0, 0, map[], []);
    var s1 := s0.(callers := map[0 := 0]);
    var s2 := TokenSt(0, (Some(7), Some("old")), 0, 0, map[], [Returned(0, 0, Some("old"))]);
    var s3 := s2.(version := 1);
    var s4 := s3.(callers := map[0 := 1]);
    var s5 := s4.(callers := map[], answers := [Returned(0, 0, Some("old")), Returned(1, 1, Some("old"))]);
    run := [s0, s1, s2, s3, s4, s5];
    assert TokenStep(disk, s0, acts[0], s1) && TokenStep(disk, s1, acts[1], s2) && TokenStep(disk, s2, acts[2], s3);
    assert TokenStep(disk, s3, acts[3], s4) && TokenStep(disk, s4, acts[4], s5);
  }

  // ---------------------------------------------------------- the TLS pair

  /** A certificate and a key, by the versions of their files. */
  datatype Pair = Pair(cert: nat, key: nat)
  datatype Stamps = Stamps(cert: Stamp, key: Stamp)
  /** The pair served, and the stamps it was last looked for with. */
  datatype Current = Current(stamps: Stamps, pair: Option<Pair>)

  /** What the file system and the TLS library would say of the versions. */
  datatype PairDisk = PairDisk(certStamp: nat -> Stamp, keyStamp: nat -> Stamp, loads: (nat, nat) -> bool)

  /** Stamps never recur, and a pair that loads has them. */
  ghost predicate PairDiskOk(disk: PairDisk) {
    && StampsNeverRecur(disk.certStamp) && StampsNeverRecur(disk.keyStamp)
    && forall c, k :: disk.loads(c, k) ==> disk.certStamp(c).Some? && disk.keyStamp(k).Some?
  }

  /** Whether a call reloads: something changed, or there is nothing to serve. */
  predicate Reloads(cached: Current, stamps: Stamps) {
    cached.stamps != stamps || cached.pair.None?
  }

  /** The pair after a reload that read `loaded`, or could not. */
  function Reloaded(cached: Current, stamps: Stamps, loaded: Option<Pair>): Current {
    if !Reloads(cached, stamps) then cached
    else Current(stamps, if loaded.Some? then loaded else cached.pair)
  }

  class ReloadingCert {
    var current: Current
    ghost const disk: PairDisk
    /** The versions the stamps are of, those last read, and the latest a call ended at. */
    ghost var stamped: Pair
    ghost var read: Pair
    ghost var files: Pair

    ghost predicate Valid() reads this {
      && Upto(stamped, read) && Upto(read, files)
      && current.stamps == StampsOf(disk, stamped.cert, stamped.key)
      && (disk.loads(read.cert, read.key) ==> current.pair == Some(read))
      && (current.pair.Some? ==> disk.loads(current.pair.value.cert, current.pair.value.key))
    }

    /** Nothing to serve is no error yet. */
    constructor (ghost disk: PairDisk, stamps: Stamps, loaded: Option<Pair>, ghost stamped: Pair, ghost read: Pair)
      requires Upto(stamped, read) && stamps == StampsOf(disk, stamped.cert, stamped.key)
      requires loaded == Loaded(disk, read.cert, read.key)
      ensures Valid() && current == Current(stamps, loaded) && this.disk == disk && files == read
    {
      current, this.disk, this.stamped, this.read, files := Current(stamps, loaded), disk, stamped, read, read;
    }

    /**
     * A call begun at the versions `began`, that stamped `at`, with what a
     * load of the certificate at `readCert` and the key now would give.
     */
    method Get(stamps: Stamps, loaded: Option<Pair>, ghost began: Pair, ghost at: Pair, ghost readCert: nat,
               ghost now: Pair)
      returns (pair: Option<Pair>)
      requires Valid() && Upto(began, at) && Upto(files, now) && at.cert <= readCert <= now.cert && at.key <= now.key
      requires stamps == StampsOf(disk, at.cert, at.key) && loaded == Loaded(disk, readCert, now.key)
      modifies this
      ensures Valid() && files == now && current == Reloaded(old(current), stamps, loaded) && pair == current.pair
      // What is served matches, and is the files' own if they did not change and load; a pair is not dropped.
      ensures PairDiskOk(disk) ==> ServedWell(disk, Served(began, now, pair))
      ensures old(current).pair.Some? ==> pair.Some?
      ensures stamps == old(current).stamps && old(current).pair.Some? ==> current == old(current)
    {
      files := now;
      var changed := current.stamps != stamps;
      if changed || current.pair.None? {
        current := current.(stamps := stamps);
        match loaded {
          case Some(p) => current := current.(pair := Some(p));
          case None => // what there was stays
        }
        stamped, read := at, Pair(readCert, now.key);
      }
      pair := current.pair;
    }
  }

  predicate Upto(a: Pair, b: Pair) { a.cert <= b.cert && a.key <= b.key }

  /** Where a call is, with the versions both files had when it began. */
  datatype Pc =
    | CertStamped(began: Pair, cert: nat)
    | BothStamped(began: Pair, cert: nat, key: nat)
    | Locked(began: Pair, cert: nat, key: nat)
    | CertRead(began: Pair, cert: nat, key: nat, readCert: nat)

  datatype Served = Served(began: Pair, ended: Pair, pair: Option<Pair>)

  datatype PairSt = PairSt(
    files: Pair,                               // the versions on disk
    current: Current,
    stamped: Pair,                             // the versions the stamps are of
    read: Pair,                                // the versions the last load read
    holder: Option<nat>,
    callers: map<nat, Pc>,
    served: seq<Served>)

  datatype PairAction =
    | ChangeCert
    | ChangeKey
    | StampCert(id: nat)
    | StampKey(id: nat)
    | Lock(id: nat)
    | ServeCached(id: nat)
    | ReadCert(id: nat)
    | ReadKeyAndServe(id: nat)

  function StampsOf(disk: PairDisk, cert: nat, key: nat): Stamps { Stamps(disk.certStamp(cert), disk.keyStamp(key)) }

  function Loaded(disk: PairDisk, cert: nat, key: nat): Option<Pair> {
    if disk.loads(cert, key) then Some(Pair(cert, key)) else None
  }

  ghost predicate PairStep(disk: PairDisk, s: PairSt, a: PairAction, t: PairSt) {
    match a
    case ChangeCert => t == s.(files := s.files.(cert := s.files.cert + 1))
    case ChangeKey => t == s.(files := s.files.(key := s.files.key + 1))
    case StampCert(id) =>
      id !in s.callers && t == s.(callers := s.callers[id := CertStamped(s.files, s.files.cert)])
    case StampKey(id) =>
      && id in s.callers && s.callers[id].CertStamped?
      && t == s.(callers := s.callers[id := BothStamped(s.callers[id].began, s.callers[id].cert, s.files.key)])
    case Lock(id) =>
      && id in s.callers && s.callers[id].BothStamped? && s.holder.None?
      && var c := s.callers[id];
      t == s.(holder := Some(id), callers := s.callers[id := Locked(c.began, c.cert, c.key)])
    case ServeCached(id) =>
      && id in s.callers && s.callers[id].Locked?
      && var c := s.callers[id];
      && !Reloads(s.current, StampsOf(disk, c.cert, c.key))
      && t == s.(holder := None, callers := s.callers - {id},
                 served := s.served + [Served(c.began, s.files, s.current.pair)])
    case ReadCert(id) =>
      && id in s.callers && s.callers[id].Locked?
      && var c := s.callers[id];
      && Reloads(s.current, StampsOf(disk, c.cert, c.key))
      && t == s.(callers := s.callers[id := CertRead(c.began, c.cert, c.key, s.files.cert)])
    case ReadKeyAndServe(id) =>
      && id in s.callers && s.callers[id].CertRead?
      && var c := s.callers[id];
      var current := Reloaded(s.current, StampsOf(disk, c.cert, c.key), Loaded(disk, c.readCert, s.files.key));
      t == s.(current := current, stamped := Pair(c.cert, c.key), read := Pair(c.readCert, s.files.key),
              holder := None, callers := s.callers - {id},
              served := s.served + [Served(c.began, s.files, current.pair)])
  }

  /** Stamped, then loaded, as `new` does. */
  ghost predicate PairInit(disk: PairDisk, s: PairSt) {
    && s.callers == map[] && s.holder.None? && s.served == []
    && s.stamped.cert <= s.read.cert <= s.files.cert && s.stamped.key <= s.read.key <= s.files.key
    && s.current == Current(StampsOf(disk, s.stamped.cert, s.stamped.key), Loaded(disk, s.read.cert, s.read.key))
  }

  ghost predicate PairRun(disk: PairDisk, run: seq<PairSt>, acts: seq<PairAction>) {
    && |run| == |acts| + 1 && PairInit(disk, run[0])
    && forall i :: 0 <= i < |acts| ==> PairStep(disk, run[i], acts[i], run[i + 1])
  }

  /** The versions a call has seen lie between those it began with and those there are now. */
  ghost predicate CallerKept(disk: PairDisk, s: PairSt, id: nat, c: Pc) {
    && c.began.cert <= c.cert <= s.files.cert && c.began.key <= s.files.key
    && (!c.CertStamped? ==> c.began.key <= c.key <= s.files.key)
    && (c.Locked? || c.CertRead? <==> s.holder == Some(id))
    && (c.CertRead? ==> c.cert <= c.readCert <= s.files.cert && Reloads(s.current, StampsOf(disk, c.cert, c.key)))
  }

  /** A pair served matches; and while neither file changed, it is the files' own whenever they load. */
  ghost predicate ServedWell(disk: PairDisk, r: Served) {
    && (r.pair.Some? ==> disk.loads(r.pair.value.cert, r.pair.value.key))
    && (r.began == r.ended && disk.loads(r.ended.cert, r.ended.key) ==> r.pair == Some(r.ended))
  }

  ghost predicate PairKept(disk: PairDisk, s: PairSt) {
    && s.stamped.cert <= s.read.cert <= s.files.cert && s.stamped.key <= s.read.key <= s.files.key
    && s.current.stamps == StampsOf(disk, s.stamped.cert, s.stamped.key)
    && (disk.loads(s.read.cert, s.read.key) ==> s.current.pair == Some(s.read))
    && (s.current.pair.Some? ==> disk.loads(s.current.pair.value.cert, s.current.pair.value.key))
    && (s.holder.Some? ==> s.holder.value in s.callers)
    && (forall id :: id in s.callers ==> CallerKept(disk, s, id, s.callers[id]))
    && (forall i :: 0 <= i < |s.served| ==> ServedWell(disk, s.served[i]))
  }

  lemma CachedIsCurrent(disk: PairDisk, s: PairSt, id: nat)
    requires PairDiskOk(disk) && PairKept(disk, s) && id in s.callers && s.callers[id].Locked?
    requires !Reloads(s.current, StampsOf(disk, s.callers[id].cert, s.callers[id].key))
    ensures ServedWell(disk, Served(s.callers[id].began, s.files, s.current.pair))
  {
    var c := s.callers[id];
    assert CallerKept(disk, s, id, c);
    if c.began == s.files && disk.loads(s.files.cert, s.files.key) {
      assert c.cert == s.files.cert && c.key == s.files.key;
      assert s.stamped == s.files;
    }
  }

  lemma LoadedIsCurrent(disk: PairDisk, s: PairSt, id: nat, t: PairSt)
    requires PairKept(disk, s) && PairStep(disk, s, ReadKeyAndServe(id), t)
    ensures t.current.pair.Some? ==> disk.loads(t.current.pair.value.cert, t.current.pair.value.key)
    ensures ServedWell(disk, Served(s.callers[id].began, s.files, t.current.pair))
    ensures t.stamped.cert <= t.read.cert <= t.files.cert && t.stamped.key <= t.read.key <= t.files.key
    ensures t.current.stamps == StampsOf(disk, t.stamped.cert, t.stamped.key)
    ensures disk.loads(t.read.cert, t.read.key) ==> t.current.pair == Some(t.read)
  {
    assert CallerKept(disk, s, id, s.callers[id]);
  }

  lemma CallersKept(disk: PairDisk, s: PairSt, a: PairAction, t: PairSt, id: nat)
    requires PairKept(disk, s) && PairStep(disk, s, a, t) && id in t.callers
    ensures CallerKept(disk, t, id, t.callers[id])
  {
    if id in s.callers { assert CallerKept(disk, s, id, s.callers[id]); }
    if (a.ReadKeyAndServe? || a.ServeCached?) && a.id in s.callers {
      assert CallerKept(disk, s, a.id, s.callers[a.id]);
    }
  }

  lemma PairKeptByStep(disk: PairDisk, s: PairSt, a: PairAction, t: PairSt)
    requires PairDiskOk(disk) && PairKept(disk, s) && PairStep(disk, s, a, t)
    ensures PairKept(disk, t)
  {
    match a {
      case ServeCached(id) => CachedIsCurrent(disk, s, id);
      case ReadKeyAndServe(id) => LoadedIsCurrent(disk, s, id, t);
      case _ =>
    }
    forall id | id in t.callers ensures CallerKept(disk, t, id, t.callers[id]) {
      CallersKept(disk, s, a, t, id);
    }
  }

  /**
   * Every pair served loads and matches; a call during which neither file changes
   * serves the files' pair whenever it loads.
   */
  lemma {:induction false} PairsAreServedWell(disk: PairDisk, run: seq<PairSt>, acts: seq<PairAction>, i: nat)
    requires PairDiskOk(disk) && PairRun(disk, run, acts) && i < |run|
    ensures PairKept(disk, run[i])
  {
    if i > 0 {
      PairsAreServedWell(disk, run, acts, i - 1);
      PairKeptByStep(disk, run[i - 1], acts[i - 1], run[i]);
    }
  }

  /** A pair once loaded is never dropped, whatever the files become. */
  lemma {:induction false} ALoadedPairStays(disk: PairDisk, run: seq<PairSt>, acts: seq<PairAction>, i: nat, j: nat)
    requires PairDiskOk(disk) && PairRun(disk, run, acts) && i <= j < |run| && run[i].current.pair.Some?
    ensures run[j].current.pair.Some?
  {
    if i < j {
      ALoadedPairStays(disk, run, acts, i, j - 1);
      assert PairStep(disk, run[j - 1], acts[j - 1], run[j]);
    }
  }

  lemma {:induction false} TheCallForAPairBegan(disk: PairDisk, run: seq<PairSt>, acts: seq<PairAction>, i: nat, k: nat,
                                                id: nat)
    requires PairRun(disk, run, acts) && i < k < |run| && acts[i] == StampCert(id)
    requires forall m :: i < m < k ==> acts[m] != StampCert(id)
    ensures id in run[k].callers ==> run[k].callers[id].began == run[i].files
  {
    assert PairStep(disk, run[k - 1], acts[k - 1], run[k]);
    if i < k - 1 { TheCallForAPairBegan(disk, run, acts, i, k - 1, id); }
  }

  /**
   * A call serves, at its last step, a pair that loads, if any; and the files'
   * own if they load and are what they were at its first.
   */
  lemma ACallServesTheFiles(disk: PairDisk, run: seq<PairSt>, acts: seq<PairAction>, i: nat, j: nat, id: nat)
    requires PairDiskOk(disk) && PairRun(disk, run, acts) && i < j < |acts|
    requires acts[i] == StampCert(id) && acts[j] in [ServeCached(id), ReadKeyAndServe(id)]
    requires forall m :: i < m < j ==> acts[m] != StampCert(id)
    ensures |run[j + 1].served| == |run[j].served| + 1
    ensures var (files, pair) := (run[j].files, run[j + 1].served[|run[j].served|].pair);
      && (pair.Some? ==> disk.loads(pair.value.cert, pair.value.key))
      && (run[i].files == files && disk.loads(files.cert, files.key) ==> pair == Some(files))
  {
    PairsAreServedWell(disk, run, acts, j + 1);
    TheCallForAPairBegan(disk, run, acts, i, j, id);
    assert PairStep(disk, run[j], acts[j], run[j + 1]);
    assert ServedWell(disk, run[j + 1].served[|run[j].served|]);
  }

  /** A load is tried only when a stamp has changed, or there is nothing to serve; else what there is is served. */
  lemma ALoadIsForAChange(disk: PairDisk, s: PairSt, id: nat)
    requires id in s.callers && s.callers[id].Locked?
    ensures var c := s.callers[id];
      var changed := s.current.stamps != Stamps(disk.certStamp(c.cert), disk.keyStamp(c.key)) || s.current.pair.None?;
      && ((exists t :: PairStep(disk, s, ReadCert(id), t)) <==> changed)
      && ((exists t :: PairStep(disk, s, ServeCached(id), t)) <==> !changed)
  {
    var c := s.callers[id];
    if Reloads(s.current, StampsOf(disk, c.cert, c.key)) {
      var t := s.(callers := s.callers[id := CertRead(c.began, c.cert, c.key, s.files.cert)]);
      assert PairStep(disk, s, ReadCert(id), t);
    } else {
      assert PairStep(disk, s, ServeCached(id),
        s.(holder := None, callers := s.callers - {id},
           served := s.served + [Served(c.began, s.files, s.current.pair)]));
    }
  }

  // --------------------------------------------------------- no call is stuck

  ghost predicate Goes(disk: PairDisk, s: PairSt, t: PairSt) {
    exists run: seq<PairSt>, acts: seq<PairAction> :: Leads(disk, s, run, acts, t)
  }

  ghost predicate Leads(disk: PairDisk, s: PairSt, run: seq<PairSt>, acts: seq<PairAction>, t: PairSt) {
    && |run| == |acts| + 1 && run[0] == s && run[|run| - 1] == t
    && forall i :: 0 <= i < |acts| ==> PairStep(disk, run[i], acts[i], run[i + 1])
  }

  lemma Stays(disk: PairDisk, s: PairSt)
    ensures Goes(disk, s, s)
  {
    assert Leads(disk, s, [s], [], s);
  }

  lemma Then(disk: PairDisk, s: PairSt, t: PairSt, a: PairAction, u: PairSt)
    requires Goes(disk, s, t) && PairStep(disk, t, a, u)
    ensures Goes(disk, s, u)
  {
    var run: seq<PairSt>, acts: seq<PairAction> :| Leads(disk, s, run, acts, t);
    var (run', acts') := (run + [u], acts + [a]);
    forall i | 0 <= i < |acts'| ensures PairStep(disk, run'[i], acts'[i], run'[i + 1]) {
      if i < |acts| { assert PairStep(disk, run[i], acts[i], run[i + 1]); }
    }
    assert Leads(disk, s, run', acts', u);
  }

  /** The one with the lock serves. */
  lemma HolderServes(disk: PairDisk, r: PairSt, s: PairSt, id: nat) returns (t: PairSt)
    requires Goes(disk, r, s) && id in s.callers && (s.callers[id].Locked? || s.callers[id].CertRead?)
    ensures Goes(disk, r, t) && t.holder.None? && t.callers == s.callers - {id}
    ensures |t.served| == |s.served| + 1
  {
    var c := s.callers[id];
    if c.Locked? && !Reloads(s.current, StampsOf(disk, c.cert, c.key)) {
      t := s.(holder := None, callers := s.callers - {id},
              served := s.served + [Served(c.began, s.files, s.current.pair)]);
      Then(disk, r, s, ServeCached(id), t);
    } else {
      var u := s;
      if c.Locked? {
        u := s.(callers := s.callers[id := CertRead(c.began, c.cert, c.key, s.files.cert)]);
        Then(disk, r, s, ReadCert(id), u);
      }
      t := KeyReadServes(disk, r, u, id);
      assert u.callers - {id} == s.callers - {id};
    }
  }

  lemma KeyReadServes(disk: PairDisk, r: PairSt, s: PairSt, id: nat) returns (t: PairSt)
    requires Goes(disk, r, s) && id in s.callers && s.callers[id].CertRead?
    ensures Goes(disk, r, t) && t.holder.None? && t.callers == s.callers - {id}
    ensures |t.served| == |s.served| + 1
  {
    var c := s.callers[id];
    var current := Reloaded(s.current, StampsOf(disk, c.cert, c.key), Loaded(disk, c.readCert, s.files.key));
    t := s.(current := current, stamped := Pair(c.cert, c.key), read := Pair(c.readCert, s.files.key),
            holder := None, callers := s.callers - {id}, served := s.served + [Served(c.began, s.files, current.pair)]);
    Then(disk, r, s, ReadKeyAndServe(id), t);
  }

  /** From every state of every run each call can come to its end, after the one that has the lock. */
  lemma AnyCallCanEnd(disk: PairDisk, r: PairSt, s: PairSt, id: nat) returns (t: PairSt)
    requires PairKept(disk, s) && Goes(disk, r, s) && id in s.callers
    ensures Goes(disk, r, t) && id !in t.callers && |t.served| > |s.served|
  {
    t := s;
    assert CallerKept(disk, s, id, s.callers[id]);
    if s.holder.Some? {
      assert CallerKept(disk, s, s.holder.value, s.callers[s.holder.value]);
      t := HolderServes(disk, r, s, s.holder.value);
    }
    if s.holder != Some(id) {
      var u := t;
      if u.callers[id].CertStamped? {
        var c := u.callers[id];
        var v := u.(callers := u.callers[id := BothStamped(c.began, c.cert, u.files.key)]);
        Then(disk, r, u, StampKey(id), v);
        u := v;
      }
      var c := u.callers[id];
      var w := u.(holder := Some(id), callers := u.callers[id := Locked(c.began, c.cert, c.key)]);
      Then(disk, r, u, Lock(id), w);
      t := HolderServes(disk, r, w, id);
    }
  }
}
