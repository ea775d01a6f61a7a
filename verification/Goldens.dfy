/**
 * Goldens: read-only volumes attached by an engine and placed at a path for a
 * process, swapped while it is stopped. Every call out (the engine, mounts,
 * device nodes) may fail, at any point, as its `Outcome` says.
 */
module Goldens {
  import opened Process
  import opened Places

  /** A golden of a process: the process, and the golden's name there. */
  type Key = (string, string)

  /** What a process's configuration names: a golden the engine resolves, or a volume. */
  datatype Mount = Mount(golden: Option<string>, volumeId: Option<string>, isImage: bool, path: Option<string>)

  datatype Presented = Presented(golden: Option<string>, volumeId: string, isImage: bool, device: string, path: string)

  /** An attach at the engine: the volume, and who holds it. */
  type Attach = (string, string)

  /** How one `present` would fare. `lost` is an attach the engine made and did not answer for. */
  datatype Outcome = Outcome(
    resolved: Option<string>,   // the volume found for a golden's name
    attached: Option<string>,   // the device of the attach
    lost: bool,
    placed: bool,               // every call of the placing works that can
    left: Left,                 // what a failed one leaves of a device node
    detached: bool)             // the detach after a failed placing worked

  /** A failed `make_node` may have changed nothing, have removed the node there was, or have made the new one. */
  datatype Left = AsItWas | NodeGone | NodeMade

  /** How one `release` would fare. */
  datatype Undo = Undo(undone: bool, detached: bool)

  datatype World = World(
    presented: map<Key, Presented>,
    attached: map<Attach, string>,   // at the engine: the device of each attach
    placed: seq<Placing>)            // on this node: the mounts and device nodes, in the order they were placed

  /** `stormd/<container>/<process>/<name>`. */
  function Holder(container: string, key: Key): string {
    "stormd/" + container + "/" + key.0 + "/" + key.1
  }

  /** Where a golden appears: the path it names, or one of its name under `dir`. */
  function PathOf(dir: string, key: Key, g: Mount): string {
    if g.path.Some? then g.path.value
    else if dir == "" || dir[|dir| - 1] == '/' then dir + key.1
    else dir + "/" + key.1
  }

  /** The place of that path. */
  function SpotOf(dir: string, key: Key, g: Mount): Place { PlaceOf(PathOf(dir, key, g)) }

  /** What a failed placing leaves: mounting is its last step, so only a node can be half made. */
  function AfterFailure(placed: seq<Placing>, at: Place, isImage: bool, device: string, left: Left): seq<Placing> {
    if !isImage || left.AsItWas? || !CanPlace(placed, at, false) then placed
    else if left.NodeGone? then WithoutNode(placed, at)
    else Put(placed, Placing(at, device, false))
  }

  function VolumeOf(g: Mount, o: Outcome): Option<string> {
    if g.volumeId.Some? then g.volumeId else o.resolved
  }

  /** `present`: whether it worked, and the world after. */
  function AfterPresent(w: World, key: Key, holder: string, path: string, g: Mount, o: Outcome)
    : (Option<Presented>, World)
  {
    if VolumeOf(g, o).None? then (None, w)
    else
      var at := (VolumeOf(g, o).value, holder);
      if o.attached.None? then (None, if o.lost then w.(attached := w.attached[at := ""]) else w)
      else
        var (spot, device) := (PlaceOf(path), o.attached.value);
        var held := w.(attached := w.attached[at := device]);
        if !o.placed || !CanPlace(w.placed, spot, !g.isImage) then
          (None, held.(placed := AfterFailure(w.placed, spot, g.isImage, device, o.left),
                       attached := if o.detached then held.attached - {at} else held.attached))
        else
          var p := Presented(g.golden, at.0, g.isImage, device, path);
          (Some(p), held.(placed := Put(w.placed, Placing(spot, device, !g.isImage)),
                          presented := held.presented[key := p]))
  }

  predicate IsUndone(placed: seq<Placing>, p: Presented, u: Undo) {
    u.undone && CanTake(placed, PlaceOf(p.path), !p.isImage)
  }

  /** `release`: whether it worked, and the world after. */
  function AfterRelease(w: World, key: Key, holder: string, u: Undo): (bool, World) {
    if key !in w.presented then (true, w)
    else
      var p := w.presented[key];
      if !IsUndone(w.placed, p, u) then (false, w)   // the mount is busy, or hidden: nothing has changed
      else
        var gone := w.(presented := w.presented - {key}, placed := Take(w.placed, PlaceOf(p.path), !p.isImage));
        (u.detached, if u.detached then gone.(attached := gone.attached - {(p.volumeId, holder)}) else gone)
  }

  /**
   * `swap_golden`: release, present the new one, and on failure the old one
   * again. Whether it worked, the world after, and the configuration after.
   */
  function AfterSwap(w: World, config: map<Key, Mount>, key: Key, dir: string, holder: string,
                     golden: Option<string>, volumeId: Option<string>, u: Undo, first: Outcome, second: Outcome)
    : (bool, World, map<Key, Mount>)
  {
    if golden.Some? == volumeId.Some? || key !in config then (false, w, config)
    else
      var new_ := config[key].(golden := golden, volumeId := volumeId);
      var (released, w1) := AfterRelease(w, key, holder, u);
      if !released then (false, w1, config)
      else
        var path := PathOf(dir, key, new_);
        var (p, w2) := AfterPresent(w1, key, holder, path, new_, first);
        if p.Some? then (true, w2, config[key := new_])
        else (false, AfterPresent(w2, key, holder, path, config[key], second).1, config)
  }

  // ------------------------------------------------------------ invariant

  /** It is what the configuration names. */
  predicate Names(g: Mount, p: Presented) {
    p.golden == g.golden && p.isImage == g.isImage && (g.volumeId.Some? ==> p.volumeId == g.volumeId.value)
  }

  /** What validation asks of a golden's name: it has no slash. */
  ghost predicate NamesValid(config: map<Key, Mount>) {
    forall k :: k in config ==> '/' !in k.1
  }

  /** One golden, placed, would take the place of the other's or hide it. */
  predicate InTheWayOf(dir: string, config: map<Key, Mount>, l: Key, k: Key)
    requires l in config && k in config
  {
    Displaces(SpotOf(dir, l, config[l]), !config[l].isImage, SpotOf(dir, k, config[k]), !config[k].isImage)
  }

  /** No golden is in the way of another: the place of none is another's, or lies under another's mount. */
  ghost predicate NoneDisplaces(dir: string, config: map<Key, Mount>) {
    forall k, l :: k in config && l in config && k != l ==> !InTheWayOf(dir, config, l, k)
  }

  /** It is attached by its holder, at its path, and what its process's configuration names. */
  ghost predicate Stands(w: World, container: string, dir: string, config: map<Key, Mount>, k: Key) {
    && k in w.presented && k in config && Names(config[k], w.presented[k])
    && IsHeld(w, Holder(container, k), PathOf(dir, k, config[k]), w.presented[k])
  }

  /** Its holder has it attached, and at its path its device is what is found. */
  ghost predicate IsHeld(w: World, holder: string, path: string, p: Presented) {
    && var at := (p.volumeId, holder);
    && p.path == path && at in w.attached && w.attached[at] == p.device
    && Shows(w.placed, Placing(PlaceOf(path), p.device, !p.isImage))
  }

  /** Every presented golden stands. */
  ghost predicate Sound(w: World, container: string, dir: string, config: map<Key, Mount>) {
    forall k :: k in w.presented ==> Stands(w, container, dir, config, k)
  }

  /** What it presents is held and placed, and what was asked for; one that fails leaves what is presented. */
  lemma PresentedAsAsked(w: World, key: Key, holder: string, path: string, g: Mount, o: Outcome)
    ensures var (p, t) := AfterPresent(w, key, holder, path, g, o);
      if p.None? then t.presented == w.presented
      else t.presented == w.presented[key := p.value] && Names(g, p.value) && IsHeld(t, holder, path, p.value)
  {
    if AfterPresent(w, key, holder, path, g, o).0.Some? {
      PutShows(w.placed, Placing(PlaceOf(path), o.attached.value, !g.isImage));
    }
  }

  /** Attaches of other holders are as they were, and what it does not displace is found where it was. */
  ghost predicate LeavesOthers(w: World, t: World, holder: string, spot: Place, isImage: bool) {
    && (forall at: Attach ::
          at.1 != holder && at in w.attached ==> at in t.attached && t.attached[at] == w.attached[at])
    && (forall d :: Shows(w.placed, d) && !Displaces(spot, !isImage, d.at, d.mount) ==> Shows(t.placed, d))
  }

  /** What it takes to present: a volume, an attach, and a place where it can be made and is. */
  predicate CanPresent(placed: seq<Placing>, path: string, g: Mount, o: Outcome) {
    && (g.volumeId.Some? || o.resolved.Some?) && o.attached.Some?
    && o.placed && CanPlace(placed, PlaceOf(path), !g.isImage)
  }

  /** The attaches after a present that failed: none new, one not answered for, or one that may be given back. */
  function AttachedAfterFailure(attached: map<Attach, string>, at: Attach, o: Outcome): map<Attach, string> {
    match o.attached
    case None => if o.lost then attached[at := ""] else attached
    case Some(device) => if o.detached then attached - {at} else attached[at := device]
  }

  /** Presenting works exactly then, and a failure leaves what its calls left: a mount that failed, nothing. */
  lemma PresentsIff(w: World, key: Key, holder: string, path: string, g: Mount, o: Outcome)
    ensures var (p, t) := AfterPresent(w, key, holder, path, g, o);
      var volume := if g.volumeId.Some? then g.volumeId else o.resolved;
      && (p.Some? <==> CanPresent(w.placed, path, g, o))
      && (p.Some? ==>
            && p.value == Presented(g.golden, volume.value, g.isImage, o.attached.value, path)
            && t.attached == w.attached[(volume.value, holder) := o.attached.value])
      && (p.None? && volume.None? ==> t.attached == w.attached)
      && (p.None? && volume.Some? ==> t.attached == AttachedAfterFailure(w.attached, (volume.value, holder), o))
      && (p.None? && (!g.isImage || o.left.AsItWas?) ==> t.placed == w.placed)
  {
  }

  /** Releasing works exactly if the golden can be unmounted or removed, and the engine takes its attach back. */
  lemma ReleasesIff(w: World, key: Key, holder: string, u: Undo)
    requires key in w.presented
    ensures var ((ok, t), p) := (AfterRelease(w, key, holder, u), w.presented[key]);
      && (key !in t.presented <==> u.undone && CanTake(w.placed, PlaceOf(p.path), !p.isImage))
      && (ok <==> key !in t.presented && u.detached)
      && t.attached == (if ok then w.attached - {(p.volumeId, holder)} else w.attached)
      && (key in t.presented ==> t == w)
  {
  }

  /** Where a golden that names no path appears: under `dir`, by its name. */
  lemma TheDefaultIsUnderDir(dir: string, key: Key, g: Mount)
    requires g.path.None? && '/' !in key.1 && key.1 !in ["", ".", ".."]
    ensures SpotOf(dir, key, g) == PlaceOf(dir) + [key.1]
  {
    if dir == "" {
      SplitPlain(key.1);
      assert dir + key.1 == key.1 && [key.1][1..] == [] && [""][1..] == [];
      assert Resolve([""], []) == Resolve([], []) && Resolve([key.1], []) == Resolve([], [key.1]);
    } else if dir[|dir| - 1] == '/' {
      var d := dir[..|dir| - 1];
      assert dir == d + "/" + "" && dir + key.1 == d + "/" + key.1;
      PlaceUnder(d, key.1);
      SplitAtSlash(d, "");
      ResolveOn(Split(d), [""], []);
      assert [""][1..] == [];
    } else {
      PlaceUnder(dir, key.1);
    }
  }

  /** Another golden that stands still does. */
  lemma OthersStand(w: World, container: string, dir: string, config: map<Key, Mount>, key: Key, t: World, k: Key)
    requires Stands(w, container, dir, config, k) && k != key && NamesValid(config) && key in config
    requires !InTheWayOf(dir, config, key, k) && k in t.presented && t.presented[k] == w.presented[k]
    requires LeavesOthers(w, t, Holder(container, key), SpotOf(dir, key, config[key]), config[key].isImage)
    ensures Stands(t, container, dir, config, k)
  {
    HoldersTellApart(container, k, key);
  }

  /** Nothing but `key` may differ. */
  ghost predicate OnlyKey(w: World, t: World, key: Key) {
    forall k :: k != key ==>
      (k in t.presented <==> k in w.presented) && (k in w.presented ==> t.presented[k] == w.presented[k])
  }

  lemma PresentLeavesOthers(w: World, key: Key, holder: string, path: string, g: Mount, o: Outcome)
    ensures LeavesOthers(w, AfterPresent(w, key, holder, path, g, o).1, holder, PlaceOf(path), g.isImage)
  {
    var (t, spot) := (AfterPresent(w, key, holder, path, g, o).1, PlaceOf(path));
    if t.placed != w.placed {
      forall d | Shows(w.placed, d) && !Displaces(spot, !g.isImage, d.at, d.mount) ensures Shows(t.placed, d) {
        PutKeeps(w.placed, Placing(spot, o.attached.value, !g.isImage), d);
      }
    }
  }

  lemma ReleaseLeavesOthers(w: World, key: Key, holder: string, u: Undo)
    requires key in w.presented
    ensures var p := w.presented[key];
      LeavesOthers(w, AfterRelease(w, key, holder, u).1, holder, PlaceOf(p.path), p.isImage)
  {
    var (t, p) := (AfterRelease(w, key, holder, u).1, w.presented[key]);
    if t.placed != w.placed {
      forall d | Shows(w.placed, d) && !Displaces(PlaceOf(p.path), !p.isImage, d.at, d.mount)
        ensures Shows(t.placed, d)
      {
        TakeKeeps(w.placed, PlaceOf(p.path), !p.isImage, d);
      }
    }
  }

  /** What an operation on `key` keeps when it stays with its own holder and place, and leaves `key` sound. */
  lemma OneKeyKeepsSound(w: World, t: World, container: string, dir: string, config: map<Key, Mount>, key: Key,
                         g: Mount)
    requires Sound(w, container, dir, config) && NamesValid(config) && NoneDisplaces(dir, config)
    requires key in config && g.path == config[key].path && g.isImage == config[key].isImage
    requires OnlyKey(w, t, key) && LeavesOthers(w, t, Holder(container, key), SpotOf(dir, key, g), g.isImage)
    requires key in t.presented ==> Stands(t, container, dir, config[key := g], key)
    ensures Sound(t, container, dir, config[key := g])
  {
    forall k | k in t.presented ensures Stands(t, container, dir, config[key := g], k) {
      if k != key {
        assert Stands(w, container, dir, config, k);
        OthersStand(w, container, dir, config, key, t, k);
      }
    }
  }

  lemma PresentKeepsSound(w: World, container: string, dir: string, config: map<Key, Mount>, key: Key, g: Mount,
                          o: Outcome)
    requires Sound(w, container, dir, config) && NamesValid(config) && NoneDisplaces(dir, config)
    requires key in config && key !in w.presented && g.path == config[key].path && g.isImage == config[key].isImage
    ensures var (p, t) := AfterPresent(w, key, Holder(container, key), PathOf(dir, key, g), g, o);
      Sound(t, container, dir, if p.Some? then config[key := g] else config) && OnlyKey(w, t, key)
  {
    var holder, path := Holder(container, key), PathOf(dir, key, g);
    var (p, t) := AfterPresent(w, key, holder, path, g, o);
    PresentedAsAsked(w, key, holder, path, g, o);
    PresentLeavesOthers(w, key, holder, path, g, o);
    assert config[key := config[key]] == config;
    OneKeyKeepsSound(w, t, container, dir, config, key, if p.Some? then g else config[key]);
  }

  lemma ReleaseKeepsSound(w: World, container: string, dir: string, config: map<Key, Mount>, key: Key, u: Undo)
    requires Sound(w, container, dir, config) && NamesValid(config) && NoneDisplaces(dir, config)
    ensures var (ok, t) := AfterRelease(w, key, Holder(container, key), u);
      Sound(t, container, dir, config) && (ok ==> key !in t.presented) && OnlyKey(w, t, key)
  {
    var (ok, t) := AfterRelease(w, key, Holder(container, key), u);
    if key in w.presented {
      assert Stands(w, container, dir, config, key);
      assert config[key := config[key]] == config;
      ReleaseLeavesOthers(w, key, Holder(container, key), u);
      OneKeyKeepsSound(w, t, container, dir, config, key, config[key]);
    }
  }

  /**
   * A swap that works presents the new golden and names it; one that fails
   * leaves the configuration, and either way no other golden is disturbed and
   * whatever is presented is what its configuration names.
   */
  lemma SwapKeepsSound(w: World, container: string, dir: string, config: map<Key, Mount>, key: Key,
                       golden: Option<string>, volumeId: Option<string>, u: Undo, first: Outcome, second: Outcome)
    requires Sound(w, container, dir, config) && NamesValid(config) && NoneDisplaces(dir, config)
    ensures var (ok, t, c) :=
        AfterSwap(w, config, key, dir, Holder(container, key), golden, volumeId, u, first, second);
      && Sound(t, container, dir, c) && OnlyKey(w, t, key)
      && (ok ==>
            && key in t.presented && key in config
            && c == config[key := config[key].(golden := golden, volumeId := volumeId)])
      && (!ok ==> c == config)
  {
    if golden.Some? != volumeId.Some? && key in config {
      var (released, w1) := AfterRelease(w, key, Holder(container, key), u);
      ReleaseKeepsSound(w, container, dir, config, key, u);
      if released {
        NewOrOld(w1, container, dir, config, key, config[key].(golden := golden, volumeId := volumeId), first, second);
      }
    }
  }

  /** The new golden presented, or else the old one tried. */
  lemma NewOrOld(w: World, container: string, dir: string, config: map<Key, Mount>, key: Key, new_: Mount,
                 first: Outcome, second: Outcome)
    requires Sound(w, container, dir, config) && NamesValid(config) && NoneDisplaces(dir, config)
    requires key in config && key !in w.presented
    requires new_.path == config[key].path && new_.isImage == config[key].isImage
    ensures var path := PathOf(dir, key, new_);
      var (p, t) := AfterPresent(w, key, Holder(container, key), path, new_, first);
      if p.Some? then Sound(t, container, dir, config[key := new_]) && OnlyKey(w, t, key) && key in t.presented
      else
        var t' := AfterPresent(t, key, Holder(container, key), path, config[key], second).1;
        Sound(t', container, dir, config) && OnlyKey(w, t', key)
  {
    PresentKeepsSound(w, container, dir, config, key, new_, first);
    var (p, t) := AfterPresent(w, key, Holder(container, key), PathOf(dir, key, new_), new_, first);
    PresentedAsAsked(w, key, Holder(container, key), PathOf(dir, key, new_), new_, first);
    if p.None? {
      PresentKeepsSound(t, container, dir, config, key, config[key], second);
      assert config[key := config[key]] == config;
    }
  }

  // ------------------------------------------------------------------ runs

  /**
   * One operation, and how the calls out of it fare. Goldens are presented where
   * they are not yet, as `present_all` does.
   */
  datatype Act =
    | DoPresent(key: Key, o: Outcome)
    | DoRelease(key: Key, u: Undo)
    | DoSwap(key: Key, golden: Option<string>, volumeId: Option<string>, u: Undo, first: Outcome, second: Outcome)

  function Do(container: string, dir: string, w: World, config: map<Key, Mount>, a: Act): (World, map<Key, Mount>) {
    var holder := Holder(container, a.key);
    match a
    case DoPresent(key, o) =>
      (if key in w.presented || key !in config then w
       else AfterPresent(w, key, holder, PathOf(dir, key, config[key]), config[key], o).1, config)
    case DoRelease(key, u) => (AfterRelease(w, key, holder, u).1, config)
    case DoSwap(key, golden, volumeId, u, first, second) =>
      var r := AfterSwap(w, config, key, dir, holder, golden, volumeId, u, first, second);
      (r.1, r.2)
  }

  function DoAll(container: string, dir: string, config: map<Key, Mount>, acts: seq<Act>): (World, map<Key, Mount>) {
    if acts == [] then (World(map[], map[], []), config)
    else
      var (w, c) := DoAll(container, dir, config, acts[..|acts| - 1]);
      Do(container, dir, w, c, acts[|acts| - 1])
  }

  /** The goldens named, and where, are those of the configuration loaded. */
  ghost predicate SamePaths(config: map<Key, Mount>, c: map<Key, Mount>) {
    && c.Keys == config.Keys
    && forall k :: k in config ==> c[k].path == config[k].path && c[k].isImage == config[k].isImage
  }

  lemma {:induction false} PathsStay(container: string, dir: string, config: map<Key, Mount>, acts: seq<Act>)
    ensures SamePaths(config, DoAll(container, dir, config, acts).1)
  {
    if acts != [] { PathsStay(container, dir, config, acts[..|acts| - 1]); }
  }

  lemma StepKeepsSound(container: string, dir: string, w: World, c: map<Key, Mount>, a: Act)
    requires Sound(w, container, dir, c) && NamesValid(c) && NoneDisplaces(dir, c)
    ensures var (t, c') := Do(container, dir, w, c, a); Sound(t, container, dir, c')
  {
    match a
    case DoPresent(key, o) =>
      if key !in w.presented && key in c {
        PresentKeepsSound(w, container, dir, c, key, c[key], o);
        assert c[key := c[key]] == c;
      }
    case DoRelease(key, u) => ReleaseKeepsSound(w, container, dir, c, key, u);
    case DoSwap(key, golden, volumeId, u, first, second) =>
      SwapKeepsSound(w, container, dir, c, key, golden, volumeId, u, first, second);
  }

  lemma OneMoreKeepsSound(container: string, dir: string, config: map<Key, Mount>, w: World, c: map<Key, Mount>, a: Act)
    requires NamesValid(config) && NoneDisplaces(dir, config) && SamePaths(config, c) && Sound(w, container, dir, c)
    ensures Sound(Do(container, dir, w, c, a).0, container, dir, Do(container, dir, w, c, a).1)
  {
    forall k, l | k in c && l in c && k != l ensures !InTheWayOf(dir, c, l, k) {
      assert !InTheWayOf(dir, config, l, k);
    }
    StepKeepsSound(container, dir, w, c, a);
  }

  /** The state it comes to is sound. */
  ghost predicate SoundAfter(container: string, dir: string, config: map<Key, Mount>, acts: seq<Act>) {
    var (w, c) := DoAll(container, dir, config, acts); Sound(w, container, dir, c)
  }

  /**
   * After any sequence of presents, releases and swaps, whichever of their
   * steps failed: every presented golden is attached by its holder, placed at
   * its path, and the one its process's configuration names.
   */
  lemma {:induction false} AlwaysSound(container: string, dir: string, config: map<Key, Mount>, acts: seq<Act>)
    requires NamesValid(config) && NoneDisplaces(dir, config)
    ensures SoundAfter(container, dir, config, acts)
  {
    if acts != [] {
      var before := acts[..|acts| - 1];
      AlwaysSound(container, dir, config, before);
      PathsStay(container, dir, config, before);
      var (w, c) := DoAll(container, dir, config, before);
      OneMoreKeepsSound(container, dir, config, w, c, acts[|acts| - 1]);
    }
  }

  /** A present in which everything works. */
  function Well(device: string): Outcome { Outcome(Some("v"), Some(device), false, true, AsItWas, true) }

  lemma PresentsWell(container: string, dir: string, config: map<Key, Mount>, w: World, key: Key, device: string)
    requires key in config && key !in w.presented
    requires CanPlace(w.placed, SpotOf(dir, key, config[key]), !config[key].isImage)
    ensures var (t, c) := Do(container, dir, w, config, DoPresent(key, Well(device))); var g := config[key];
      && c == config && key in t.presented && t.presented[key].device == device
      && t.presented.Keys == w.presented.Keys + {key} && OnlyKey(w, t, key)
      && t.placed == Put(w.placed, Placing(SpotOf(dir, key, g), device, !g.isImage))
  {
  }

  lemma TwoActs(container: string, dir: string, config: map<Key, Mount>, a: Act, b: Act, w: World)
    requires Do(container, dir, World(map[], map[], []), config, a) == (w, config)
    ensures DoAll(container, dir, config, [a, b]) == Do(container, dir, w, config, b)
  {
    assert [a, b][..1] == [a] && [a][..0] == [];
    assert DoAll(container, dir, config, []) == (World(map[], map[], []), config);
  }

  /** Another device is found at its path. */
  lemma IsDisplaced(w: World, container: string, dir: string, config: map<Key, Mount>, k: Key)
    requires k in config && k in w.presented
    requires !Shows(w.placed, Placing(SpotOf(dir, k, config[k]), w.presented[k].device, !config[k].isImage))
    ensures !Sound(w, container, dir, config)
  {
    assert !Stands(w, container, dir, config, k);
  }

  /** Presented after it, a golden in its way takes a golden's place, or hides it. */
  lemma TheSecondIsInTheWay(container: string, dir: string, config: map<Key, Mount>, k: Key, l: Key)
    requires k in config && l in config && k != l && InTheWayOf(dir, config, l, k)
    ensures !SoundAfter(container, dir, config, [DoPresent(k, Well("d")), DoPresent(l, Well("e"))])
  {
    var w0 := World(map[], map[], []);
    TheSecondDisplacesTheFirst(Placing(SpotOf(dir, k, config[k]), "d", !config[k].isImage),
                               Placing(SpotOf(dir, l, config[l]), "e", !config[l].isImage));
    PresentsWell(container, dir, config, w0, k, "d");
    var (w1, _) := Do(container, dir, w0, config, DoPresent(k, Well("d")));
    AfterTheFirst(container, dir, config, k, l, w1);
    TwoActs(container, dir, config, DoPresent(k, Well("d")), DoPresent(l, Well("e")), w1);
  }

  lemma AfterTheFirst(container: string, dir: string, config: map<Key, Mount>, k: Key, l: Key, w: World)
    requires k in config && l in config && k != l && InTheWayOf(dir, config, l, k)
    requires w.presented.Keys == {k} && w.presented[k].device == "d"
    requires w.placed == [Placing(SpotOf(dir, k, config[k]), "d", !config[k].isImage)]
    ensures var (t, c) := Do(container, dir, w, config, DoPresent(l, Well("e"))); !Sound(t, container, dir, c)
  {
    TheSecondDisplacesTheFirst(w.placed[0], Placing(SpotOf(dir, l, config[l]), "e", !config[l].isImage));
    PresentsWell(container, dir, config, w, l, "e");
    IsDisplaced(Do(container, dir, w, config, DoPresent(l, Well("e"))).0, container, dir, config, k);
  }

  /**
   * With a configuration that validation lets through, every run is sound if
   * and only if no golden is in the way of another.
   */
  lemma AlwaysSoundIff(container: string, dir: string, config: map<Key, Mount>)
    requires NamesValid(config)
    ensures (forall acts :: SoundAfter(container, dir, config, acts)) <==> NoneDisplaces(dir, config)
  {
    if NoneDisplaces(dir, config) {
      forall acts ensures SoundAfter(container, dir, config, acts) {
        AlwaysSound(container, dir, config, acts);
      }
    } else {
      var k, l :| k in config && l in config && k != l && InTheWayOf(dir, config, l, k);
      TheSecondIsInTheWay(container, dir, config, k, l);
    }
  }

  /** Two processes that name a golden of one kind alike, and no path for it, share a place. */
  lemma AlikeNamesShareAPlace(dir: string, config: map<Key, Mount>, p: string, q: string, name: string)
    requires p != q && (p, name) in config && (q, name) in config
    requires config[(p, name)].path.None? && config[(q, name)].path.None?
    requires config[(p, name)].isImage == config[(q, name)].isImage
    ensures !NoneDisplaces(dir, config)
  {
    assert InTheWayOf(dir, config, (q, name), (p, name));
  }

  /** So do two of one kind whose paths differ in a slash, or in a dot. */
  lemma TwoSpellingsShareAPlace(dir: string, config: map<Key, Mount>, k: Key, l: Key, a: string, b: string)
    requires k in config && l in config && k != l && config[k].isImage == config[l].isImage
    requires config[k].path == Some(a + "/" + b) && config[l].path in [Some(a + "//" + b), Some(a + "/./" + b)]
    ensures !NoneDisplaces(dir, config)
  {
    OnePlace(a, b);
    assert InTheWayOf(dir, config, l, k);
  }

  /** And a file system is in the way of what is under its path. */
  lemma AMountHidesWhatIsUnder(dir: string, config: map<Key, Mount>, k: Key, l: Key, n: string)
    requires k in config && l in config && k != l && !config[l].isImage
    requires '/' !in n && n !in ["", ".", ".."] && PathOf(dir, k, config[k]) == PathOf(dir, l, config[l]) + "/" + n
    ensures !NoneDisplaces(dir, config)
  {
    PlaceUnder(PathOf(dir, l, config[l]), n);
    assert InTheWayOf(dir, config, l, k);
  }

  // --------------------------------------------------------------- holders

  lemma LongerHasSlash(a: string, b: string, c: string, d: string)
    requires a + "/" + b == c + "/" + d && |b| < |d|
    ensures d[|d| - |b| - 1] == '/'
  {
    assert (a + "/" + b)[|a|] == '/' && (c + "/" + d)[|a|] == d[|a| - |c| - 1];
  }

  /** Split at its last slash, a string comes apart in one way. */
  lemma SplitAtLastSlash(a: string, b: string, c: string, d: string)
    requires '/' !in b && '/' !in d && a + "/" + b == c + "/" + d
    ensures a == c && b == d
  {
    if |b| < |d| {
      LongerHasSlash(a, b, c, d);
    } else if |d| < |b| {
      LongerHasSlash(c, d, a, b);
    } else {
      var s, t := a + "/" + b, c + "/" + d;
      assert s[..|a|] == a && t[..|c|] == c && s[|a| + 1..] == b && t[|c| + 1..] == d;
    }
  }

  lemma OneHolderOneGolden(container: string, k: Key, l: Key)
    requires '/' !in k.1 && '/' !in l.1 && Holder(container, k) == Holder(container, l)
    ensures k == l
  {
    var prefix := "stormd/" + container + "/";
    SplitAtLastSlash(prefix + k.0, k.1, prefix + l.0, l.1);
    assert (prefix + k.0)[|prefix|..] == k.0 && (prefix + l.0)[|prefix|..] == l.0;
  }

  /** Holders tell goldens apart, whatever the processes are called: golden names have no slash. */
  lemma HoldersTellApart(container: string, k: Key, l: Key)
    requires '/' !in k.1 && '/' !in l.1 && k != l
    ensures Holder(container, k) != Holder(container, l)
  {
    if Holder(container, k) == Holder(container, l) { OneHolderOneGolden(container, k, l); }
  }

  // ------------------------------------------------------------ the class

  class Presenter {
    const container: string
    const dir: string
    ghost const loaded: map<Key, Mount>
    var presented: map<Key, Presented>
    var attached: map<Attach, string>
    var placed: seq<Placing>
    /** The processes' configurations: the goldens they name. */
    var config: map<Key, Mount>
    /** Everything done so far. */
    ghost var past: seq<Act>

    function View(): World reads this { World(presented, attached, placed) }

    /** The state is what was done, and sound if no golden is in the way of another. */
    ghost predicate Valid() reads this {
      && NamesValid(loaded) && (View(), config) == DoAll(container, dir, loaded, past)
      && SamePaths(loaded, config)
      && (NoneDisplaces(dir, loaded) ==> Sound(View(), container, dir, config))
    }

    constructor (container: string, dir: string, config: map<Key, Mount>)
      requires NamesValid(config)
      ensures Valid() && past == [] && presented == map[] && this.config == config == loaded
      ensures this.container == container && this.dir == dir
    {
      this.container, this.dir, this.config, this.loaded := container, dir, config, config;
      presented, attached, placed, past := map[], map[], [], [];
    }

    /** The last of `past` done to what the rest came to. */
    lemma Done(w: World, c: map<Key, Mount>, before: seq<Act>)
      requires NamesValid(loaded) && (w, c) == DoAll(container, dir, loaded, before)
      requires past != [] && past == before + [past[|past| - 1]]
      requires (View(), config) == Do(container, dir, w, c, past[|past| - 1])
      ensures Valid()
    {
      assert past[..|past| - 1] == before;
      PathsStay(container, dir, loaded, past);
      if NoneDisplaces(dir, loaded) { AlwaysSound(container, dir, loaded, past); }
    }

    method Present(key: Key, g: Mount, o: Outcome) returns (p: Option<Presented>)
      modifies this`presented, this`attached, this`placed
      ensures (p, View()) == AfterPresent(old(View()), key, Holder(container, key), PathOf(dir, key, g), g, o)
      // What was asked for is held and in place; a failure leaves what was presented.
      ensures p.Some? <==> CanPresent(old(placed), PathOf(dir, key, g), g, o)
      ensures p.None? ==> presented == old(presented)
      ensures p.Some? ==>
        && presented == old(presented)[key := p.value] && Names(g, p.value)
        && IsHeld(View(), Holder(container, key), PathOf(dir, key, g), p.value)
      // The attach of a failed placing is given back, if the engine takes it.
      ensures p.None? && o.attached.Some? && o.detached && VolumeOf(g, o).Some? ==>
        (VolumeOf(g, o).value, Holder(container, key)) !in attached
    {
      var volume := VolumeOf(g, o);
      if volume.None? { return None; }
      var holder := Holder(container, key);
      if o.attached.None? {
        if o.lost { attached := attached[(volume.value, holder) := ""]; }
        return None;
      }
      attached := attached[(volume.value, holder) := o.attached.value];
      var path := PathOf(dir, key, g);
      if !o.placed || !CanPlace(placed, PlaceOf(path), !g.isImage) {
        placed := AfterFailure(placed, PlaceOf(path), g.isImage, o.attached.value, o.left);
        if o.detached { attached := attached - {(volume.value, holder)}; }
        return None;
      }
      PutShows(placed, Placing(PlaceOf(path), o.attached.value, !g.isImage));
      placed := Put(placed, Placing(PlaceOf(path), o.attached.value, !g.isImage));
      p := Some(Presented(g.golden, volume.value, g.isImage, o.attached.value, path));
      presented := presented[key := p.value];
    }

    method Release(key: Key, u: Undo) returns (ok: bool)
      requires Valid()
      modifies this`presented, this`attached, this`placed, this`past
      ensures Valid() && past == old(past) + [DoRelease(key, u)]
      ensures ok == (key !in old(presented) || (IsUndone(old(placed), old(presented)[key], u) && u.detached))
      // It is gone, or still mounted and all as it was.
      ensures if key !in old(presented) || IsUndone(old(placed), old(presented)[key], u)
              then presented == old(presented) - {key} else View() == old(View())
      ensures ok && key in old(presented) ==> (old(presented)[key].volumeId, Holder(container, key)) !in attached
    {
      ghost var w, before := View(), past;
      past := past + [DoRelease(key, u)];
      ok := Undone(key, u);
      Done(w, config, before);
    }

    method Undone(key: Key, u: Undo) returns (ok: bool)
      modifies this`presented, this`attached, this`placed
      ensures (ok, View()) == AfterRelease(old(View()), key, Holder(container, key), u)
      ensures ok == (key !in old(presented) || (IsUndone(old(placed), old(presented)[key], u) && u.detached))
    {
      if key !in presented { return true; }
      var p := presented[key];
      presented := presented - {key};
      if !IsUndone(placed, p, u) {
        presented := presented[key := p];
        assert presented == old(presented);
        return false;
      }
      placed := Take(placed, PlaceOf(p.path), !p.isImage);
      if !u.detached { return false; }
      attached := attached - {(p.volumeId, Holder(container, key))};
      return true;
    }

    /** One try. */
    method TryPresent(key: Key, o: Outcome) returns (done: bool)
      requires Valid() && key in config && key !in presented
      modifies this`presented, this`attached, this`placed, this`past
      ensures Valid() && past == old(past) + [DoPresent(key, o)] && done == (key in presented)
      ensures Keeps()
    {
      ghost var w, before := View(), past;
      past := past + [DoPresent(key, o)];
      var p := Present(key, config[key], o);
      Done(w, config, before);
      return p.Some?;
    }

    /** What was presented still is. */
    twostate predicate Keeps() reads this {
      forall k :: k in old(presented) ==> k in presented && presented[k] == old(presented)[k]
    }

    /** Tries until one works, or `tries` has no more to say (shutdown); `next` is the first not used. */
    method PresentOne(key: Key, tries: seq<Outcome>, from: nat) returns (done: bool, next: nat)
      requires Valid() && key in config && key !in presented && from <= |tries|
      modifies this`presented, this`attached, this`placed, this`past
      ensures Valid() && Keeps() && done == (key in presented) && from <= next <= |tries|
      ensures !done ==> next == |tries|
    {
      done, next := false, from;
      while !done && next < |tries|
        invariant from <= next <= |tries| && Valid() && Keeps() && done == (key in presented)
      {
        done := TryPresent(key, tries[next]);
        next := next + 1;
      }
    }

    /** Present all of a process's goldens, each tried until it works or shutdown begins. */
    method PresentAll(keys: seq<Key>, tries: seq<Outcome>) returns (all: bool)
      requires Valid() && forall k :: k in keys ==> k in config
      modifies this`presented, this`attached, this`placed, this`past
      ensures Valid() && config == old(config)
      ensures all ==> forall k :: k in keys ==> k in presented
      ensures Keeps()
    {
      var next := 0;
      for i := 0 to |keys|
        invariant 0 <= next <= |tries| && Valid() && Keeps()
        invariant forall k :: k in keys[..i] ==> k in presented
      {
        if keys[i] !in presented {
          var done;
          done, next := PresentOne(keys[i], tries, next);
          if !done { return false; }
        }
      }
      return true;
    }

    /** Swap a golden for another; the process is stopped meanwhile. */
    method SwapGolden(key: Key, golden: Option<string>, volumeId: Option<string>, u: Undo, first: Outcome,
                      second: Outcome)
      returns (ok: bool)
      requires Valid()
      modifies this`presented, this`attached, this`placed, this`config, this`past
      ensures Valid() && past == old(past) + [DoSwap(key, golden, volumeId, u, first, second)]
      // It works exactly for a golden named, if the old one is released and the new one can be presented.
      ensures ok <==> SwapWorks(old(View()), old(config), key, dir, golden, volumeId, u, first)
      // Then the new one is named and presented.
      ensures ok ==>
        && key in old(config) && golden.Some? != volumeId.Some?
        && config == old(config)[key := old(config)[key].(golden := golden, volumeId := volumeId)]
        && key in presented && Names(config[key], presented[key])
      // If not, the configuration names the old one, and nothing else is presented.
      ensures !ok ==> config == old(config) && (key in presented ==>
        || (key in old(presented) && presented[key] == old(presented)[key])
        || (key in config && Names(config[key], presented[key])))
      ensures OnlyKey(old(View()), View(), key)
    {
      ghost var w, c, before := View(), config, past;
      past := past + [DoSwap(key, golden, volumeId, u, first, second)];
      ok := Swapped(key, golden, volumeId, u, first, second);
      Done(w, c, before);
      SwapFares(w, c, key, dir, Holder(container, key), golden, volumeId, u, first, second);
      SwapWorksIff(w, c, key, dir, Holder(container, key), golden, volumeId, u, first, second);
    }

    method Swapped(key: Key, golden: Option<string>, volumeId: Option<string>, u: Undo, first: Outcome, second: Outcome)
      returns (ok: bool)
      modifies this`presented, this`attached, this`placed, this`config
      ensures (ok, View(), config)
        == AfterSwap(old(View()), old(config), key, dir, Holder(container, key), golden, volumeId, u, first, second)
    {
      if golden.Some? == volumeId.Some? || key !in config { return false; }
      var old_ := config[key];
      var new_ := old_.(golden := golden, volumeId := volumeId);
      var released := Undone(key, u);
      if !released { return false; }
      var p := Present(key, new_, first);
      if p.Some? {
        config := config[key := new_];
        return true;
      }
      var again := Present(key, old_, second);
      return false;
    }
  }

  /** Released, and the new one not presented, the old one is presented again, exactly if it can be. */
  lemma TheOldOneIsPresentedAgain(w: World, config: map<Key, Mount>, key: Key, dir: string, holder: string,
                                  golden: Option<string>, volumeId: Option<string>, u: Undo, first: Outcome,
                                  second: Outcome)
    requires golden.Some? != volumeId.Some? && key in config
    requires key in w.presented ==> IsUndone(w.placed, w.presented[key], u) && u.detached
    ensures var (ok, t, _) := AfterSwap(w, config, key, dir, holder, golden, volumeId, u, first, second);
      var new_ := config[key].(golden := golden, volumeId := volumeId);
      var failed := AfterPresent(AfterRelease(w, key, holder, u).1, key, holder, PathOf(dir, key, new_), new_, first).1;
      !ok ==> (key in t.presented <==> CanPresent(failed.placed, PathOf(dir, key, config[key]), config[key], second))
  {
    var new_ := config[key].(golden := golden, volumeId := volumeId);
    var w1 := AfterRelease(w, key, holder, u).1;
    if key in w.presented { ReleasesIff(w, key, holder, u); }
    var path := PathOf(dir, key, new_);
    PresentedAsAsked(w1, key, holder, path, new_, first);
    var w2 := AfterPresent(w1, key, holder, path, new_, first).1;
    PresentsIff(w2, key, holder, path, config[key], second);
    PresentedAsAsked(w2, key, holder, path, config[key], second);
  }

  lemma SwapWorksIff(w: World, config: map<Key, Mount>, key: Key, dir: string, holder: string,
                     golden: Option<string>, volumeId: Option<string>, u: Undo, first: Outcome, second: Outcome)
    ensures AfterSwap(w, config, key, dir, holder, golden, volumeId, u, first, second).0
      <==> SwapWorks(w, config, key, dir, golden, volumeId, u, first)
  {
    if golden.Some? != volumeId.Some? && key in config {
      var new_ := config[key].(golden := golden, volumeId := volumeId);
      var (released, w1) := AfterRelease(w, key, holder, u);
      if key in w.presented { ReleasesIff(w, key, holder, u); }
      if released { PresentsIff(w1, key, holder, PathOf(dir, key, new_), new_, first); }
    }
  }

  predicate SwapWorks(w: World, config: map<Key, Mount>, key: Key, dir: string, golden: Option<string>,
                      volumeId: Option<string>, u: Undo, first: Outcome) {
    && key in config && golden.Some? != volumeId.Some?
    && (key in w.presented ==> IsUndone(w.placed, w.presented[key], u) && u.detached)
    && CanPresent(if key in w.presented then Without(w.placed, w.presented[key]) else w.placed,
                  PathOf(dir, key, config[key]), config[key].(golden := golden, volumeId := volumeId), first)
  }

  function Without(placed: seq<Placing>, p: Presented): seq<Placing> { Take(placed, PlaceOf(p.path), !p.isImage) }

  /** What a swap makes of the configuration and of what is presented, wherever paths lie. */
  lemma SwapFares(w: World, config: map<Key, Mount>, key: Key, dir: string, holder: string,
                  golden: Option<string>, volumeId: Option<string>, u: Undo, first: Outcome, second: Outcome)
    ensures var (ok, t, c) := AfterSwap(w, config, key, dir, holder, golden, volumeId, u, first, second);
      && OnlyKey(w, t, key)
      && (ok ==>
            && key in config && golden.Some? != volumeId.Some?
            && c == config[key := config[key].(golden := golden, volumeId := volumeId)]
            && key in t.presented && Names(c[key], t.presented[key]))
      && (!ok ==> c == config && (key in t.presented ==>
            || (key in w.presented && t.presented[key] == w.presented[key])
            || (key in config && Names(config[key], t.presented[key]))))
  {
    if golden.Some? != volumeId.Some? && key in config {
      var new_ := config[key].(golden := golden, volumeId := volumeId);
      var (released, w1) := AfterRelease(w, key, holder, u);
      if released {
        var path := PathOf(dir, key, new_);
        PresentedAsAsked(w1, key, holder, path, new_, first);
        PresentedAsAsked(AfterPresent(w1, key, holder, path, new_, first).1, key, holder, path, config[key], second);
      }
    }
  }
}
