/**
 * One process's log: the live file, its rotated generations, what happens
 * to lines while writing fails, and reading it all back.
 */
module LogFile {
  import opened Process
  import opened Sorting

  /** Between attempts on a file that fails, and between reports of it: at least this many milliseconds. */
  const RETRY: nat := 1000
  const REMIND: nat := 60000

  /** One append: the entry's line, after a line announcing lost ones when there were any. */
  datatype Chunk = Chunk(gap: Option<nat>, entry: nat, size: nat)

  datatype Failing = Failing(nextTry: int, lastSaid: int, lost: nat)

  /** An error said to the log: when, in which spell of failure, and after how many appends. */
  datatype Said = Said(at: int, spell: nat, written: nat)

  function Size(f: seq<Chunk>): nat {
    if f == [] then 0 else Size(f[..|f| - 1]) + f[|f| - 1].size
  }

  /** The lines announced as lost. */
  function Announced(f: seq<Chunk>): nat {
    if f == [] then 0 else Announced(f[..|f| - 1]) + match f[|f| - 1].gap case Some(n) => n case None => 0
  }

  function Gen(gens: map<nat, seq<Chunk>>, i: nat): seq<Chunk> {
    if i in gens then gens[i] else []
  }

  /** Generations `n` down to 1, oldest first. */
  function Older(gens: map<nat, seq<Chunk>>, n: nat): seq<Chunk> {
    if n == 0 then [] else Gen(gens, n) + Older(gens, n - 1)
  }

  function TotalSize(gens: map<nat, seq<Chunk>>, n: nat): nat {
    if n == 0 then 0 else Size(Gen(gens, n)) + TotalSize(gens, n - 1)
  }

  /** What generation `i` becomes in a rotation: the one before it, the live file for the first. */
  function Below(gens: map<nat, seq<Chunk>>, live: Option<seq<Chunk>>, i: nat): Option<seq<Chunk>> {
    if i == 0 then None else if i == 1 then live else if i - 1 in gens then Some(gens[i - 1]) else None
  }

  /** Every generation moved up by one, the live file becoming the first; the oldest gone. */
  function Shifted(gens: map<nat, seq<Chunk>>, live: Option<seq<Chunk>>, n: nat): map<nat, seq<Chunk>> {
    map i: nat | i <= n && Below(gens, live, i).Some? :: Below(gens, live, i).value
  }

  lemma GenShifts(gens: map<nat, seq<Chunk>>, live: Option<seq<Chunk>>, n: nat, k: nat)
    requires 1 <= k <= n
    ensures Gen(Shifted(gens, live, n), k) == if k > 1 then Gen(gens, k - 1) else if live.Some? then live.value else []
  {
  }

  lemma Join(a: seq<Chunk>, b: seq<Chunk>, c: seq<Chunk>)
    ensures a + (b + c) == a + b + c
  {
  }

  lemma {:induction false} OlderShifts(gens: map<nat, seq<Chunk>>, live: Option<seq<Chunk>>, n: nat, k: nat)
    requires 1 <= k <= n
    ensures Older(Shifted(gens, live, n), k) == Older(gens, k - 1) + if live.Some? then live.value else []
  {
    var s, last := Shifted(gens, live, n), if live.Some? then live.value else [];
    GenShifts(gens, live, n, k);
    if k == 1 {
      assert Older(s, 1) == Gen(s, 1) + Older(s, 0);
    } else {
      OlderShifts(gens, live, n, k - 1);
      Join(Gen(gens, k - 1), Older(gens, k - 2), last);
    }
  }

  /** Each gap no smaller than `d`. */
  ghost predicate Apart(times: seq<int>, d: nat) {
    forall i, j :: 0 <= i < j < |times| ==> times[j] >= times[i] + d
  }

  /** One process's log: `{process}.{i}.log`, `{process}.log`, and the writer's own fields. */
  datatype Log = Log(gens: map<nat, seq<Chunk>>, live: Option<seq<Chunk>>, currentSize: nat, failing: Option<Failing>) {
    function Live(): seq<Chunk> { if live.Some? then live.value else [] }
  }

  datatype LogConfig = LogConfig(maxFiles: nat, maxSizeBytes: nat) {
    /** The generations kept: at least one, whatever `max_files` says. */
    function Kept(): nat { if maxFiles < 1 then 1 else maxFiles }
  }

  const EmptyLog := Log(map[], None, 0, None)

  /** What a reader gets: the generations oldest first, then the live file. */
  function ReadBack(cfg: LogConfig, log: Log): seq<Chunk> {
    Older(log.gens, cfg.Kept()) + log.Live()
  }

  /** What one attempt writes: the gap marker first, when lines were lost. */
  function ChunkFor(failing: Option<Failing>, w: Write): Chunk {
    match failing
    case Some(f) => Chunk(Some(f.lost), w.entry, w.markerSize + w.lineSize)
    case None => Chunk(None, w.entry, w.lineSize)
  }

  /**
   * One call of `write_at`: the entry, when, the sizes of its line and of a gap
   * marker, and whether an append would succeed.
   */
  datatype Write = Write(entry: nat, at: int, lineSize: nat, markerSize: nat, ok: bool)

  /** The line is not tried: the file is failing, and it is not yet time. */
  predicate Waits(failing: Option<Failing>, now: int) {
    failing.Some? && now < failing.value.nextTry
  }

  /** Whether a waiting line recalls the failure. */
  predicate Reminds(f: Failing, now: int) { now - f.lastSaid >= REMIND }

  function Waited(f: Failing, now: int): Failing {
    f.(lost := f.lost + 1, lastSaid := if Reminds(f, now) then now else f.lastSaid)
  }

  function RotatedIfFull(cfg: LogConfig, log: Log): Log {
    if log.currentSize < cfg.maxSizeBytes then log
    else log.(gens := if log.live.None? && cfg.maxFiles == 0 then log.gens else Shifted(log.gens, log.live, cfg.Kept()),
              live := None, currentSize := 0)
  }

  function Appended(log: Log, c: Chunk): Log {
    log.(live := Some(log.Live() + [c]), currentSize := log.currentSize + c.size, failing := None)
  }

  function FailedAt(failing: Option<Failing>, now: int): Failing {
    match failing
    case Some(f) => f.(nextTry := now + RETRY, lost := f.lost + 1)
    case None => Failing(now + RETRY, now, 1)
  }

  function AfterWrite(cfg: LogConfig, log: Log, w: Write): Log {
    if Waits(log.failing, w.at) then log.(failing := Some(Waited(log.failing.value, w.at)))
    else
      var r := RotatedIfFull(cfg, log);
      if w.ok then Appended(r, ChunkFor(log.failing, w)) else r.(failing := Some(FailedAt(log.failing, w.at)))
  }

  class FileLogger {
    const cfg: LogConfig
    var gens: map<nat, seq<Chunk>>
    var live: Option<seq<Chunk>>
    var currentSize: nat
    var failing: Option<Failing>

    function View(): Log reads this { Log(gens, live, currentSize, failing) }

    constructor (cfg: LogConfig)
      ensures this.cfg == cfg && View() == EmptyLog
    {
      this.cfg := cfg;
      gens, live, currentSize, failing := map[], None, 0, None;
    }

    /** Every generation one up, from the oldest down, the live file last; what was oldest is overwritten. */
    method Rotate()
      requires forall i :: i in gens ==> 1 <= i <= cfg.Kept()
      modifies this`gens, this`live
      ensures live == None
      ensures gens
        == if old(live).None? && cfg.maxFiles == 0 then old(gens) else Shifted(old(gens), old(live), cfg.Kept())
    {
      ghost var g, l := gens, live;
      var mid: map<nat, seq<Chunk>> := gens - {cfg.maxFiles};
      var i := cfg.maxFiles;
      while i > 1
        invariant cfg.maxFiles >= 1 ==> 1 <= i <= cfg.maxFiles && i !in mid
        invariant cfg.maxFiles == 0 ==> i == 0 && mid == g
        invariant live == l && forall j :: j in mid ==> 1 <= j <= cfg.Kept()
        invariant MovedDownTo(g, l, mid, i, cfg.maxFiles)
      {
        i := i - 1;
        OneMoved(g, l, mid, i, cfg.maxFiles);
        if i in mid {
          mid := mid[i + 1 := mid[i]] - {i};
        }
      }
      RotationDone(g, l, cfg.maxFiles, cfg.Kept(), mid);
      if live.Some? {
        mid := mid[1 := live.value];
      }
      gens, live := mid, None;
    }

    method WriteAt(w: Write)
      requires forall i :: i in gens ==> 1 <= i <= cfg.Kept()
      modifies this
      ensures View() == AfterWrite(cfg, old(View()), w)
    {
      if failing.Some? && w.at < failing.value.nextTry {
        var f := failing.value;
        f := f.(lost := f.lost + 1);
        if w.at - f.lastSaid >= REMIND { f := f.(lastSaid := w.at); }
        failing := Some(f);
        return;
      }
      if currentSize >= cfg.maxSizeBytes {
        Rotate();
        currentSize := 0;
      }
      var text := ChunkFor(failing, w);
      if w.ok {
        live := Some((if live.Some? then live.value else []) + [text]);
        currentSize := currentSize + text.size;
        failing := None;
      } else {
        failing := Some(FailedAt(failing, w.at));
      }
    }
  }

  /** The generations above `i` are as after the rotation, those below as before. */
  ghost predicate MovedDownTo(g: map<nat, seq<Chunk>>, live: Option<seq<Chunk>>, mid: map<nat, seq<Chunk>>, i: nat,
                              maxFiles: nat) {
    && (forall j: nat :: j < i ==> (j in mid <==> j in g) && (j in mid ==> mid[j] == g[j]))
    && (forall j: nat :: i < j <= maxFiles ==>
          (j in mid <==> Below(g, live, j).Some?) && (j in mid ==> mid[j] == Below(g, live, j).value))
  }

  lemma OneMoved(g: map<nat, seq<Chunk>>, live: Option<seq<Chunk>>, mid: map<nat, seq<Chunk>>, i: nat, maxFiles: nat)
    requires 1 <= i < maxFiles && i + 1 !in mid && MovedDownTo(g, live, mid, i + 1, maxFiles)
    ensures MovedDownTo(g, live, if i in mid then mid[i + 1 := mid[i]] - {i} else mid, i, maxFiles)
  {
  }

  lemma RotationDone(g: map<nat, seq<Chunk>>, live: Option<seq<Chunk>>, maxFiles: nat, kept: nat,
                     mid: map<nat, seq<Chunk>>)
    requires kept == if maxFiles < 1 then 1 else maxFiles
    requires forall j :: j in mid ==> 1 <= j <= kept
    requires maxFiles == 0 ==> mid == g
    requires maxFiles >= 1 ==> 1 !in mid
    requires forall j: nat :: 1 < j <= maxFiles ==>
      (j in mid <==> Below(g, live, j).Some?) && (j in mid ==> mid[j] == Below(g, live, j).value)
    ensures live.Some? ==> mid[1 := live.value] == Shifted(g, live, kept)
    ensures live.None? && maxFiles >= 1 ==> mid == Shifted(g, live, kept)
  {
    var r := if live.Some? then mid[1 := live.value] else mid;
    if maxFiles >= 1 || live.Some? {
      forall j: nat ensures j in r <==> j in Shifted(g, live, kept) {
        if j == 1 {} else if j == 0 {} else if j > kept {} else { assert 1 < j <= maxFiles; }
      }
    }
  }

  lemma {:induction false} NoGenerations(n: nat)
    ensures Older(map[], n) == []
  {
    if n > 0 { NoGenerations(n - 1); }
  }

  // ------------------------------------------------------- runs of writes

  /** A run of writes, and what has come of it. */
  datatype Ledger = Ledger(
    log: Log,
    clock: int,
    offered: nat,
    appended: seq<Chunk>,     // everything appended
    dropped: seq<Chunk>,      // of that, what rotation has deleted
    longest: nat,             // the longest append
    failedAt: seq<int>,       // when appends failed
    said: seq<Said>,          // errors said
    spells: nat)              // failures begun

  function Start(now: int): Ledger {
    Ledger(EmptyLog, now, 0, [], [], 0, [], [], 0)
  }

  function Lost(cfg: LogConfig, log: Log): seq<Chunk> {
    if log.currentSize < cfg.maxSizeBytes || (log.live.None? && cfg.maxFiles == 0) then []
    else Gen(log.gens, cfg.Kept())
  }

  function Record(cfg: LogConfig, l: Ledger, w: Write): Ledger {
    var log := l.log;
    var next := l.(log := AfterWrite(cfg, log, w), clock := w.at, offered := l.offered + 1);
    if Waits(log.failing, w.at) then
      if Reminds(log.failing.value, w.at) then next.(said := l.said + [Said(w.at, l.spells, |l.appended|)]) else next
    else
      var kept := next.(dropped := l.dropped + Lost(cfg, log));
      if w.ok then
        var c := ChunkFor(log.failing, w);
        kept.(appended := l.appended + [c], longest := if c.size > l.longest then c.size else l.longest)
      else
        var failed := kept.(failedAt := l.failedAt + [w.at]);
        if log.failing.Some? then failed
        else failed.(spells := l.spells + 1, said := l.said + [Said(w.at, l.spells + 1, |l.appended|)])
  }

  ghost predicate InTime(ws: seq<Write>, now: int) {
    ws == [] || (InTime(ws[..|ws| - 1], now) && ws[|ws| - 1].at >= LastTime(ws[..|ws| - 1], now))
  }

  function LastTime(ws: seq<Write>, now: int): int { if ws == [] then now else ws[|ws| - 1].at }

  function After(cfg: LogConfig, ws: seq<Write>, now: int): Ledger {
    if ws == [] then Start(now) else Record(cfg, After(cfg, ws[..|ws| - 1], now), ws[|ws| - 1])
  }

  // ------------------------------------------------------------- the files

  /** What one file may hold: rotation is before an append, once the size is reached. */
  function FileBound(cfg: LogConfig, longest: nat): nat {
    (if cfg.maxSizeBytes < 1 then 0 else cfg.maxSizeBytes - 1) + longest
  }

  ghost predicate FilesValid(cfg: LogConfig, log: Log, appended: seq<Chunk>, dropped: seq<Chunk>, longest: nat) {
    && (forall i :: i in log.gens ==> 1 <= i <= cfg.Kept() && Size(log.gens[i]) <= FileBound(cfg, longest))
    && appended == dropped + ReadBack(cfg, log)
    && log.currentSize == Size(log.Live()) <= FileBound(cfg, longest)
  }

  ghost predicate LedgerFilesValid(cfg: LogConfig, l: Ledger) {
    FilesValid(cfg, l.log, l.appended, l.dropped, l.longest)
  }

  lemma RotationKeepsOrder(cfg: LogConfig, log: Log)
    requires forall i :: i in log.gens ==> 1 <= i <= cfg.Kept()
    ensures Lost(cfg, log) + ReadBack(cfg, RotatedIfFull(cfg, log)) == ReadBack(cfg, log)
  {
    if log.currentSize >= cfg.maxSizeBytes && !(log.live.None? && cfg.maxFiles == 0) {
      OlderShifts(log.gens, log.live, cfg.Kept(), cfg.Kept());
      assert Older(log.gens, cfg.Kept()) == Gen(log.gens, cfg.Kept()) + Older(log.gens, cfg.Kept() - 1);
    }
  }

  lemma RotationKeepsFiles(cfg: LogConfig, log: Log, appended: seq<Chunk>, dropped: seq<Chunk>, longest: nat)
    requires FilesValid(cfg, log, appended, dropped, longest)
    ensures var r := RotatedIfFull(cfg, log);
      FilesValid(cfg, r, appended, dropped + Lost(cfg, log), longest)
        && (r.currentSize < cfg.maxSizeBytes || r.currentSize == 0)
  {
    RotationKeepsOrder(cfg, log);
    var back := ReadBack(cfg, RotatedIfFull(cfg, log));
    assert dropped + (Lost(cfg, log) + back) == (dropped + Lost(cfg, log)) + back;
  }

  lemma AppendKeepsFiles(cfg: LogConfig, r: Log, appended: seq<Chunk>, dropped: seq<Chunk>, longest: nat, c: Chunk)
    requires FilesValid(cfg, r, appended, dropped, longest) && (r.currentSize < cfg.maxSizeBytes || r.currentSize == 0)
    ensures FilesValid(cfg, Appended(r, c), appended + [c], dropped, if c.size > longest then c.size else longest)
  {
    assert (r.Live() + [c])[..|r.Live()|] == r.Live();
    assert ReadBack(cfg, Appended(r, c)) == ReadBack(cfg, r) + [c];
  }

  /** One attempt, failed or not. */
  lemma AttemptKeepsFiles(cfg: LogConfig, log: Log, appended: seq<Chunk>, dropped: seq<Chunk>, longest: nat, c: Chunk)
    requires FilesValid(cfg, log, appended, dropped, longest)
    ensures FilesValid(cfg, RotatedIfFull(cfg, log), appended, dropped + Lost(cfg, log), longest)
    ensures FilesValid(cfg, Appended(RotatedIfFull(cfg, log), c), appended + [c], dropped + Lost(cfg, log),
                       if c.size > longest then c.size else longest)
  {
    RotationKeepsFiles(cfg, log, appended, dropped, longest);
    AppendKeepsFiles(cfg, RotatedIfFull(cfg, log), appended, dropped + Lost(cfg, log), longest, c);
  }

  lemma FailingAside(cfg: LogConfig, log: Log, failing: Option<Failing>, appended: seq<Chunk>, dropped: seq<Chunk>,
                     longest: nat)
    requires FilesValid(cfg, log, appended, dropped, longest)
    ensures FilesValid(cfg, log.(failing := failing), appended, dropped, longest)
  {
  }

  lemma {:induction false} FilesAfter(cfg: LogConfig, ws: seq<Write>, now: int)
    ensures LedgerFilesValid(cfg, After(cfg, ws, now))
  {
    if ws == [] {
      NoGenerations(cfg.Kept());
    } else {
      FilesAfter(cfg, ws[..|ws| - 1], now);
      var (l, w) := (After(cfg, ws[..|ws| - 1], now), ws[|ws| - 1]);
      var t := Record(cfg, l, w);
      assert After(cfg, ws, now) == t;
      if Waits(l.log.failing, w.at) {
        FailingAside(cfg, l.log, t.log.failing, l.appended, l.dropped, l.longest);
      } else {
        AttemptKeepsFiles(cfg, l.log, l.appended, l.dropped, l.longest, ChunkFor(l.log.failing, w));
        if !w.ok { FailingAside(cfg, RotatedIfFull(cfg, l.log), t.log.failing, l.appended, t.dropped, l.longest); }
      }
    }
  }

  /** After any writes, whatever failed, what is read back is a contiguous suffix of everything appended, in order. */
  lemma ReadBackIsASuffix(cfg: LogConfig, ws: seq<Write>, now: int)
    ensures var l := After(cfg, ws, now); l.appended == l.dropped + ReadBack(cfg, l.log)
  {
    FilesAfter(cfg, ws, now);
  }

  lemma {:induction false} TotalBounded(gens: map<nat, seq<Chunk>>, n: nat, bound: nat)
    requires forall i :: i in gens ==> Size(gens[i]) <= bound
    ensures TotalSize(gens, n) <= n * bound
  {
    if n > 0 {
      TotalBounded(gens, n - 1, bound);
      assert n * bound == (n - 1) * bound + bound;
    }
  }

  /** The whole log stays within the generations kept and the live file, each within one append of the limit. */
  lemma DiskUseIsBounded(cfg: LogConfig, ws: seq<Write>, now: int)
    ensures var l := After(cfg, ws, now); var kept := if cfg.maxFiles == 0 then 1 else cfg.maxFiles;
      && (forall i :: i in l.log.gens ==> 1 <= i <= kept)
      && TotalSize(l.log.gens, kept) + Size(l.log.Live()) <= (kept + 1) * FileBound(cfg, l.longest)
  {
    FilesAfter(cfg, ws, now);
    FilesFit(cfg, After(cfg, ws, now));
  }

  lemma FilesFit(cfg: LogConfig, l: Ledger)
    requires LedgerFilesValid(cfg, l)
    ensures TotalSize(l.log.gens, cfg.Kept()) + Size(l.log.Live()) <= (cfg.Kept() + 1) * FileBound(cfg, l.longest)
  {
    TotalBounded(l.log.gens, cfg.Kept(), FileBound(cfg, l.longest));
    OneMoreTimes(cfg.Kept(), FileBound(cfg, l.longest));
  }

  lemma OneMoreTimes(n: nat, b: nat)
    ensures (n + 1) * b == n * b + b
  {
  }

  // ------------------------------------------------------- when a file is full

  /** It was closed by the append that filled it. */
  ghost predicate FilledLast(cfg: LogConfig, f: seq<Chunk>) {
    f != [] && Size(f) >= cfg.maxSizeBytes && (|f| == 1 || Size(f[..|f| - 1]) < cfg.maxSizeBytes)
  }

  /**
   * Every rotated file was closed when full and no sooner, the live one is not
   * past it, and only full files were deleted.
   */
  ghost predicate CutWhenFull(cfg: LogConfig, log: Log, dropped: seq<Chunk>) {
    && (forall i :: i in log.gens ==> FilledLast(cfg, log.gens[i]))
    && (log.live.Some? ==>
          log.Live() != [] && (|log.Live()| == 1 || Size(log.Live()[..|log.Live()| - 1]) < cfg.maxSizeBytes))
    && (cfg.maxSizeBytes > 0 ==> forall i :: i in log.gens && i > 1 ==> i - 1 in log.gens)
    && (dropped != [] ==> forall i :: 1 <= i <= (if cfg.maxFiles == 0 then 1 else cfg.maxFiles) ==>
          Size(Gen(log.gens, i)) >= cfg.maxSizeBytes)
  }

  lemma {:induction false} NoHoles(gens: map<nat, seq<Chunk>>, k: nat, i: nat)
    requires k in gens && 1 <= i <= k && forall j :: j in gens && j > 1 ==> j - 1 in gens
    ensures i in gens
  {
    if i < k { NoHoles(gens, k - 1, i); }
  }

  lemma RotationCuts(cfg: LogConfig, log: Log, dropped: seq<Chunk>)
    requires CutWhenFull(cfg, log, dropped) && log.currentSize == Size(log.Live())
    requires forall i :: i in log.gens ==> 1 <= i <= cfg.Kept()
    ensures var r := RotatedIfFull(cfg, log);
      CutWhenFull(cfg, r, dropped + Lost(cfg, log)) && (r.live.None? || Size(r.Live()) < cfg.maxSizeBytes)
  {
    var r := RotatedIfFull(cfg, log);
    if Size(log.Live()) < cfg.maxSizeBytes {
      assert dropped + [] == dropped;
    } else if cfg.maxSizeBytes > 0 && dropped + Lost(cfg, log) != [] {
      forall i | 1 <= i <= cfg.Kept() ensures Size(Gen(r.gens, i)) >= cfg.maxSizeBytes {
        GenShifts(log.gens, log.live, cfg.Kept(), i);
        if dropped == [] && i > 1 { NoHoles(log.gens, cfg.Kept(), i - 1); }
      }
    }
  }

  lemma AppendCuts(cfg: LogConfig, r: Log, dropped: seq<Chunk>, c: Chunk)
    requires CutWhenFull(cfg, r, dropped) && (r.live.None? || Size(r.Live()) < cfg.maxSizeBytes)
    ensures CutWhenFull(cfg, Appended(r, c), dropped)
  {
    assert (r.Live() + [c])[..|r.Live()|] == r.Live();
  }

  lemma AttemptCuts(cfg: LogConfig, log: Log, dropped: seq<Chunk>, c: Chunk)
    requires CutWhenFull(cfg, log, dropped) && log.currentSize == Size(log.Live())
    requires forall i :: i in log.gens ==> 1 <= i <= cfg.Kept()
    ensures CutWhenFull(cfg, RotatedIfFull(cfg, log), dropped + Lost(cfg, log))
    ensures CutWhenFull(cfg, Appended(RotatedIfFull(cfg, log), c), dropped + Lost(cfg, log))
  {
    RotationCuts(cfg, log, dropped);
    AppendCuts(cfg, RotatedIfFull(cfg, log), dropped + Lost(cfg, log), c);
  }

  lemma CutAside(cfg: LogConfig, log: Log, failing: Option<Failing>, dropped: seq<Chunk>)
    requires CutWhenFull(cfg, log, dropped)
    ensures CutWhenFull(cfg, log.(failing := failing), dropped)
  {
  }

  lemma WritesCut(cfg: LogConfig, l: Ledger, w: Write)
    requires LedgerFilesValid(cfg, l) && CutWhenFull(cfg, l.log, l.dropped)
    ensures var t := Record(cfg, l, w); CutWhenFull(cfg, t.log, t.dropped)
  {
    var t := Record(cfg, l, w);
    if Waits(l.log.failing, w.at) {
      CutAside(cfg, l.log, t.log.failing, l.dropped);
    } else {
      AttemptCuts(cfg, l.log, l.dropped, ChunkFor(l.log.failing, w));
      if !w.ok { CutAside(cfg, RotatedIfFull(cfg, l.log), t.log.failing, t.dropped); }
    }
  }

  /**
   * After any writes: every rotated file holds the limit or more, and less
   * before its last append; the live file held less before its last; and
   * nothing was deleted before `max_files` rotated files held the limit each.
   */
  lemma {:induction false} FilesAreCutWhenFull(cfg: LogConfig, ws: seq<Write>, now: int)
    ensures var l := After(cfg, ws, now); CutWhenFull(cfg, l.log, l.dropped)
  {
    if ws != [] {
      var before := ws[..|ws| - 1];
      FilesAreCutWhenFull(cfg, before, now);
      FilesAfter(cfg, before, now);
      WritesCut(cfg, After(cfg, before, now), ws[|ws| - 1]);
    }
  }

  lemma OneMoreWrite(cfg: LogConfig, ws: seq<Write>, now: int, w: Write)
    ensures After(cfg, ws + [w], now) == Record(cfg, After(cfg, ws, now), w)
  {
    assert (ws + [w])[..|ws|] == ws;
  }

  /** A line written to a live file that is not full rotates nothing and deletes nothing. */
  lemma ANotFullFileTakesTheLine(cfg: LogConfig, ws: seq<Write>, now: int, w: Write)
    requires var l := After(cfg, ws, now);
      l.log.failing.None? && w.ok && Size(l.log.Live()) < cfg.maxSizeBytes
    ensures var (l, t) := (After(cfg, ws, now), After(cfg, ws + [w], now));
      && t.dropped == l.dropped && t.log.gens == l.log.gens
      && ReadBack(cfg, t.log) == ReadBack(cfg, l.log) + [Chunk(None, w.entry, w.lineSize)]
  {
    FilesAfter(cfg, ws, now);
    OneMoreWrite(cfg, ws, now, w);
    var l := After(cfg, ws, now);
    assert l.dropped + [] == l.dropped;
    Join(Older(l.log.gens, cfg.Kept()), l.log.Live(), [Chunk(None, w.entry, w.lineSize)]);
  }

  // ------------------------------------------------------------- the lines

  /** Every line offered was written, was announced in a gap marker, or is counted for the next one. */
  ghost predicate LinesValid(l: Ledger) {
    l.offered == |l.appended| + Announced(l.appended) + (if l.log.failing.Some? then l.log.failing.value.lost else 0)
  }

  lemma {:induction false} NoLineUnaccounted(cfg: LogConfig, ws: seq<Write>, now: int)
    ensures LinesValid(After(cfg, ws, now))
  {
    if ws != [] {
      var l, w := After(cfg, ws[..|ws| - 1], now), ws[|ws| - 1];
      NoLineUnaccounted(cfg, ws[..|ws| - 1], now);
      assert (l.appended + [ChunkFor(l.log.failing, w)])[..|l.appended|] == l.appended;
    }
  }

  // ------------------------------------------------------------- the times

  /** Attempts that failed are at least `RETRY` apart, and the next is due then. */
  ghost predicate TimesValid(l: Ledger) {
    && Apart(l.failedAt, RETRY)
    && (forall i :: 0 <= i < |l.failedAt| ==> l.failedAt[i] <= l.clock)
    && (l.log.failing.Some? ==> l.failedAt != [] && l.log.failing.value.nextTry == l.failedAt[|l.failedAt| - 1] + RETRY)
    && (l.log.failing.None? && l.failedAt != [] ==> l.clock >= l.failedAt[|l.failedAt| - 1] + RETRY)
  }

  lemma {:induction false} RetriesAreApart(cfg: LogConfig, ws: seq<Write>, now: int)
    requires InTime(ws, now)
    ensures TimesValid(After(cfg, ws, now)) && After(cfg, ws, now).clock == LastTime(ws, now)
  {
    if ws != [] {
      RetriesAreApart(cfg, ws[..|ws| - 1], now);
      RetryDue(cfg, After(cfg, ws[..|ws| - 1], now), ws[|ws| - 1]);
    }
  }

  lemma RetryDue(cfg: LogConfig, l: Ledger, w: Write)
    requires TimesValid(l) && w.at >= l.clock
    ensures TimesValid(Record(cfg, l, w))
  {
    var t := Record(cfg, l, w);
    if |t.failedAt| > |l.failedAt| {
      forall i | 0 <= i < |l.failedAt| ensures w.at >= l.failedAt[i] + RETRY {
        assert l.failedAt[|l.failedAt| - 1] >= l.failedAt[i];
      }
    }
  }

  /** Of two errors said, the later comes `REMIND` after, or a line was appended in between. */
  ghost predicate Spaced(a: Said, b: Said) {
    && a.spell <= b.spell && a.written <= b.written
    && (if a.spell == b.spell then b.at >= a.at + REMIND else a.written < b.written)
  }

  /** Each spell of failure begins with an error said, and ends with an append. */
  ghost predicate SaidValid(l: Ledger) {
    && (forall i :: 0 <= i < |l.said| ==> l.said[i].spell <= l.spells && l.said[i].written <= |l.appended|)
    && (l.log.failing.Some? ==>
         && l.spells > 0 && l.said != []
         && l.said[|l.said| - 1] == Said(l.log.failing.value.lastSaid, l.spells, |l.appended|))
    && (l.log.failing.None? ==> forall i :: 0 <= i < |l.said| ==> l.said[i].written < |l.appended|)
    && (forall i, j :: 0 <= i < j < |l.said| ==> Spaced(l.said[i], l.said[j]))
  }

  lemma {:induction false} ErrorsAreSpaced(cfg: LogConfig, ws: seq<Write>, now: int)
    ensures SaidValid(After(cfg, ws, now))
  {
    if ws != [] {
      ErrorsAreSpaced(cfg, ws[..|ws| - 1], now);
      ReminderDue(cfg, After(cfg, ws[..|ws| - 1], now), ws[|ws| - 1]);
    }
  }

  lemma ReminderDue(cfg: LogConfig, l: Ledger, w: Write)
    requires SaidValid(l)
    ensures SaidValid(Record(cfg, l, w))
  {
    var t := Record(cfg, l, w);
    forall i, j | 0 <= i < j < |t.said| ensures Spaced(t.said[i], t.said[j]) {
      if j == |l.said| && i < j - 1 { assert Spaced(l.said[i], l.said[j - 1]); }
    }
  }

  /**
   * A minute is not kept across spells: a file that fails, works once and fails
   * again has two errors said a second apart.
   */
  lemma TwoSpellsAreSaidSoon(cfg: LogConfig)
    ensures var ws := [Write(0, 0, 1, 1, false), Write(1, RETRY, 1, 1, true), Write(2, RETRY, 1, 1, false)];
      InTime(ws, 0) && After(cfg, ws, 0).said == [Said(0, 1, 0), Said(RETRY, 2, 1)]
  {
    var (a, b, c) := (Write(0, 0, 1, 1, false), Write(1, RETRY, 1, 1, true), Write(2, RETRY, 1, 1, false));
    assert [a, b, c][..2] == [a, b] && [a, b][..1] == [a] && [a][..0] == [];
    var l0 := Start(0);
    var l1 := Record(cfg, l0, a);
    var l2 := Record(cfg, l1, b);
    assert After(cfg, [a], 0) == l1 && After(cfg, [a, b], 0) == l2;
    assert l1.log.failing == Some(Failing(RETRY, 0, 1)) && l1.said == [Said(0, 1, 0)];
    assert l2.log.failing == None && |l2.appended| == 1;
    assert InTime([], 0) && InTime([a], 0) && InTime([a, b], 0);
  }

  /** When a line is tried: the file is not failing, or its last failure is a second ago. */
  ghost predicate IsDue(l: Ledger, at: int) {
    l.log.failing.None? || l.failedAt == [] || at >= l.failedAt[|l.failedAt| - 1] + 1000
  }

  /**
   * A line is tried if and only if it is due; one that is written is there in
   * full, after the count of those lost, if there were any; one that waits or
   * fails is one more of those.
   */
  lemma LinesAreTriedWhenDue(cfg: LogConfig, ws: seq<Write>, now: int, w: Write)
    requires InTime(ws, now)
    ensures var (l, t) := (After(cfg, ws, now), After(cfg, ws + [w], now)); var f := l.log.failing;
      if IsDue(l, w.at) && w.ok then
        && t.log.failing.None? && t.failedAt == l.failedAt
        && t.appended == l.appended + [if f.None? then Chunk(None, w.entry, w.lineSize)
                                       else Chunk(Some(f.value.lost), w.entry, w.markerSize + w.lineSize)]
      else
        && t.appended == l.appended && t.log.failing.Some?
        && t.log.failing.value.lost == (if f.None? then 0 else f.value.lost) + 1
        && t.failedAt == if IsDue(l, w.at) then l.failedAt + [w.at] else l.failedAt
  {
    RetriesAreApart(cfg, ws, now);
    OneMoreWrite(cfg, ws, now, w);
  }

  /** An error is said when a file starts to fail, and by a line that waits a minute after the last; by no other. */
  lemma ErrorsAreSaidWhenDue(cfg: LogConfig, ws: seq<Write>, now: int, w: Write)
    requires InTime(ws, now)
    ensures var (l, t) := (After(cfg, ws, now), After(cfg, ws + [w], now));
      var says := if l.log.failing.None? then !w.ok
        else !IsDue(l, w.at) && l.said != [] && w.at >= l.said[|l.said| - 1].at + 60000;
      if says then t.said == l.said + [Said(w.at, t.spells, |l.appended|)] else t.said == l.said
  {
    RetriesAreApart(cfg, ws, now);
    ErrorsAreSpaced(cfg, ws, now);
    OneMoreWrite(cfg, ws, now, w);
  }

  // ---------------------------------------------------------- reading back

  /** The generation numbers found on disk, in the order the reader takes them. */
  function ReadOrder(found: seq<nat>): seq<nat> {
    Sort(found, (n: nat) => 0 - n)
  }

  function Concat(gens: map<nat, seq<Chunk>>, order: seq<nat>): seq<Chunk> {
    if order == [] then [] else Gen(gens, order[0]) + Concat(gens, order[1..])
  }

  /** However the directory lists the generations, the reader sees them oldest first. */
  lemma ReaderSeesTheWritersOrder(gens: map<nat, seq<Chunk>>, found: seq<nat>, n: nat)
    requires forall i :: i in gens ==> 1 <= i <= n
    requires forall i :: i in found <==> i in gens
    requires forall i, j :: 0 <= i < j < |found| ==> found[i] != found[j]
    ensures Concat(gens, ReadOrder(found)) == Older(gens, n)
  {
    var key := (n: nat) => 0 - n;
    var order := Sort(found, key);
    SortSorts(found, key);
    forall i ensures i in order <==> i in gens {
      assert i in order <==> i in multiset(order);
      assert i in found <==> i in multiset(found);
    }
    StrictlyDescending(found, order, key);
    forall i: nat | 1 <= i <= n ensures Lists(gens, order, i) {}
    InDescendingOrder(gens, order, n);
  }

  lemma StrictlyDescending(found: seq<nat>, order: seq<nat>, key: nat -> int)
    requires multiset(order) == multiset(found) && SortedBy(order, key) && forall n: nat :: key(n) == 0 - n
    requires forall i, j :: 0 <= i < j < |found| ==> found[i] != found[j]
    ensures forall i, j :: 0 <= i < j < |order| ==> order[i] > order[j]
  {
    forall i, j | 0 <= i < j < |order| ensures order[i] > order[j] {
      assert key(order[i]) <= key(order[j]);
      if order[i] == order[j] {
        TwiceIn(order, i, j);
        OnceIn(found, order[i]);
      }
    }
  }

  lemma TwiceIn(s: seq<nat>, i: nat, j: nat)
    requires i < j < |s| && s[i] == s[j]
    ensures multiset(s)[s[i]] >= 2
  {
    assert s == s[..i] + [s[i]] + s[i + 1..j] + [s[j]] + s[j + 1..];
  }

  lemma {:induction false} OnceIn(s: seq<nat>, x: nat)
    requires forall i, j :: 0 <= i < j < |s| ==> s[i] != s[j]
    ensures multiset(s)[x] <= 1
  {
    if s != [] {
      OnceIn(s[1..], x);
      assert s == [s[0]] + s[1..];
      if x == s[0] { assert x !in s[1..]; }
    }
  }

  ghost predicate Descending(order: seq<nat>, n: nat) {
    (forall i :: i in order ==> 1 <= i <= n) && (forall i, j :: 0 <= i < j < |order| ==> order[i] > order[j])
  }

  lemma HeadIn(order: seq<nat>)
    ensures order != [] ==> order[0] in order
  {
  }

  lemma TopFirst(order: seq<nat>, n: nat)
    requires Descending(order, n) && n >= 1
    ensures if n in order then order[0] == n && Descending(order[1..], n - 1) else Descending(order, n - 1)
  {
    if n in order {
      var k :| 0 <= k < |order| && order[k] == n;
      HeadIn(order);
      assert order[0] <= n;
      if k > 0 { assert false; }
      forall i | i in order[1..] ensures 1 <= i <= n - 1 {
        var j :| 0 <= j < |order[1..]| && order[1..][j] == i;
        assert order[0] > order[j + 1] && order[j + 1] in order;
      }
    }
  }

  lemma WithTheTop(gens: map<nat, seq<Chunk>>, order: seq<nat>, n: nat)
    requires order != [] && order[0] == n && n >= 1 && Concat(gens, order[1..]) == Older(gens, n - 1)
    ensures Concat(gens, order) == Older(gens, n)
  {
  }

  lemma WithoutTheTop(gens: map<nat, seq<Chunk>>, n: nat)
    requires n >= 1 && n !in gens
    ensures Older(gens, n) == Older(gens, n - 1)
  {
  }

  predicate Lists(gens: map<nat, seq<Chunk>>, order: seq<nat>, i: nat) { i in order <==> i in gens }

  lemma {:induction false} InDescendingOrder(gens: map<nat, seq<Chunk>>, order: seq<nat>, n: nat)
    requires Descending(order, n) && forall i: nat :: 1 <= i <= n ==> Lists(gens, order, i)
    ensures Concat(gens, order) == Older(gens, n)
    decreases n
  {
    if n == 0 {
      HeadIn(order);
    } else {
      TopFirst(order, n);
      assert Lists(gens, order, n);
      if n in order {
        RestLists(gens, order, n);
        InDescendingOrder(gens, order[1..], n - 1);
        WithTheTop(gens, order, n);
      } else {
        InDescendingOrder(gens, order, n - 1);
        WithoutTheTop(gens, n);
      }
    }
  }

  lemma RestLists(gens: map<nat, seq<Chunk>>, order: seq<nat>, n: nat)
    requires order != [] && order[0] == n && forall i: nat :: 1 <= i <= n ==> Lists(gens, order, i)
    ensures forall i: nat :: 1 <= i < n ==> Lists(gens, order[1..], i)
  {
    assert order == [order[0]] + order[1..];
    forall i: nat | 1 <= i < n ensures Lists(gens, order[1..], i) { assert Lists(gens, order, i); }
  }

  lemma SizeOfOne(c: Chunk)
    ensures Size([c]) == c.size
  {
    assert [c][..0] == [];
  }

  /** The bytes on disk. */
  function DiskUse(cfg: LogConfig, log: Log): nat { TotalSize(log.gens, cfg.Kept()) + Size(log.Live()) }

  /** Two lines that each fill a file, and what has come of them with `max_files` 0. */
  function Filling(cfg: LogConfig): nat { if cfg.maxSizeBytes < 1 then 1 else cfg.maxSizeBytes }

  lemma OneFile(cfg: LogConfig)
    requires cfg.maxFiles == 0
    ensures var s := Filling(cfg); var l := Record(cfg, Start(0), Write(0, 0, s, 0, true));
      l.log == Log(map[], Some([Chunk(None, 0, s)]), s, None) && l.longest == s
  {
    assert [] + [Chunk(None, 0, Filling(cfg))] == [Chunk(None, 0, Filling(cfg))];
  }

  lemma AnotherFile(cfg: LogConfig, l: Ledger)
    requires cfg.maxFiles == 0 && l.longest == Filling(cfg)
    requires var s := Filling(cfg); l.log == Log(map[], Some([Chunk(None, 0, s)]), s, None)
    ensures var s := Filling(cfg); var l' := Record(cfg, l, Write(1, 0, s, 0, true));
      l'.log == Log(map[1 := [Chunk(None, 0, s)]], Some([Chunk(None, 1, s)]), s, None) && l'.longest == s
  {
    var s := Filling(cfg);
    assert Shifted(map[], Some([Chunk(None, 0, s)]), 1) == map[1 := [Chunk(None, 0, s)]];
    assert [] + [Chunk(None, 1, s)] == [Chunk(None, 1, s)];
  }

  lemma TwoFilesWithNone(cfg: LogConfig)
    requires cfg.maxFiles == 0
    ensures var s := Filling(cfg); var l := After(cfg, [Write(0, 0, s, 0, true), Write(1, 0, s, 0, true)], 0);
      DiskUse(cfg, l.log) == 2 * s && l.longest == s
  {
    var s := Filling(cfg);
    var (a, b) := (Write(0, 0, s, 0, true), Write(1, 0, s, 0, true));
    assert [a, b][..1] == [a] && [a][..0] == [];
    var l1 := Record(cfg, Start(0), a);
    assert After(cfg, [a], 0) == l1;
    OneFile(cfg);
    AnotherFile(cfg, l1);
    var l2 := Record(cfg, l1, b);
    SizeOfOne(Chunk(None, 0, s));
    SizeOfOne(Chunk(None, 1, s));
    assert TotalSize(l2.log.gens, 1) == Size(Gen(l2.log.gens, 1)) + TotalSize(l2.log.gens, 0);
  }

  /**
   * `max_files` rotated files and the live one, each within one append of the
   * limit, bound the disk in every run if and only if `max_files` is not 0:
   * with 0 the rotated file is still kept.
   */
  lemma TheLimitHoldsIff(cfg: LogConfig)
    ensures (forall ws, now ::
               var l := After(cfg, ws, now); DiskUse(cfg, l.log) <= (cfg.maxFiles + 1) * FileBound(cfg, l.longest))
      <==> cfg.maxFiles >= 1
  {
    if cfg.maxFiles >= 1 {
      forall ws, now
        ensures var l := After(cfg, ws, now); DiskUse(cfg, l.log) <= (cfg.maxFiles + 1) * FileBound(cfg, l.longest)
      {
        DiskUseIsBounded(cfg, ws, now);
      }
    } else {
      TwoFilesWithNone(cfg);
      var s := Filling(cfg);
      var ws := [Write(0, 0, s, 0, true), Write(1, 0, s, 0, true)];
      var l := After(cfg, ws, 0);
      assert FileBound(cfg, l.longest) < 2 * s;
    }
  }
}
