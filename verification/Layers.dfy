/** Applying OCI layers one archive entry at a time, and what the layers mean together. */
module Layers {
  import opened Process

  /** A path below the root, component by component. */
  type Path = seq<string>
  datatype Node = File(content: int) | Dir
  type Fs = map<Path, Node>

  /** One entry of a layer's archive. */
  datatype Entry = Entry(path: Path, node: Node)

  /** What an entry's name makes of it. */
  datatype Op =
    | Opaque(dir: Path)           // `.wh..wh..opq`: everything below `dir` goes
    | Whiteout(path: Path)        // `.wh.<name>`: the path and everything below it goes
    | Put(path: Path, node: Node)
    | Nothing                     // the root's own entry

  const PREFIX: string := ".wh."
  const OPAQUE: string := ".wh..wh..opq"

  function Parse(e: Entry): Op {
    if e.path == [] then Nothing
    else
      var parent, name := e.path[..|e.path| - 1], e.path[|e.path| - 1];
      if name == OPAQUE then Opaque(parent)
      else if PREFIX <= name then Whiteout(if name == PREFIX then parent else parent + [name[4..]])
      else Put(e.path, e.node)
  }

  function Ops(layer: seq<Entry>): (ops: seq<Op>)
    ensures |ops| == |layer|
    ensures forall i :: 0 <= i < |ops| ==> ops[i] == Parse(layer[i])
  {
    seq(|layer|, i requires 0 <= i < |layer| => Parse(layer[i]))
  }

  /** An entry puts a node at `p`: its own path, or a directory on the way to it. */
  predicate Provides(op: Op, p: Path) {
    op.Put? && p != [] && p <= op.path
  }

  function Provided(op: Op, p: Path): Node
    requires Provides(op, p)
  {
    if p == op.path then op.node else Dir
  }

  /** A whiteout hides `p` of the layers below. */
  predicate Covers(op: Op, p: Path) {
    match op
    case Opaque(dir) => dir < p
    case Whiteout(path) => path <= p
    case _ => false
  }

  // ------------------------------------------------- what the code does

  /** The paths an entry puts a node at. */
  function PutPaths(op: Op): (s: set<Path>)
    ensures forall p :: p in s <==> Provides(op, p)
  {
    if op.Put? then
      var s := set i | 0 < i <= |op.path| :: op.path[..i];
      assert forall p :: Provides(op, p) ==> p == op.path[..|p|];
      s
    else {}
  }

  function Apply(fs: Fs, op: Op): Fs {
    map p | p in fs.Keys + PutPaths(op) && (Provides(op, p) || !Covers(op, p)) ::
      if Provides(op, p) then Provided(op, p) else fs[p]
  }

  function ApplyAll(fs: Fs, ops: seq<Op>): Fs {
    if ops == [] then fs else Apply(ApplyAll(fs, ops[..|ops| - 1]), ops[|ops| - 1])
  }

  /** A layer's archive unpacked, entry by entry. */
  function Unpacked(fs: Fs, layer: seq<Entry>): Fs { ApplyAll(fs, Ops(layer)) }

  function Assembled(layers: seq<seq<Entry>>): Fs {
    if layers == [] then map[] else Unpacked(Assembled(layers[..|layers| - 1]), layers[|layers| - 1])
  }

  class Rootfs {
    var fs: Fs

    constructor ()
      ensures fs == map[]
    {
      fs := map[];
    }

    /** Remove a file, or a directory and all below it. */
    method RemoveTree(path: Path)
      modifies this
      ensures fs == map p | p in old(fs) && !(path <= p) :: old(fs)[p]
    {
      fs := map p | p in fs && !(path <= p) :: fs[p];
    }

    /** Clear a directory, child by child. */
    method ClearDir(dir: Path)
      modifies this
      ensures fs == map p | p in old(fs) && !(dir < p) :: old(fs)[p]
    {
      var children := set p | p in fs && dir < p :: p[..|dir| + 1];
      ghost var before := fs;
      while children != {}
        invariant fs.Keys <= before.Keys
        invariant forall p :: p in fs ==> fs[p] == before[p]
        invariant forall p :: p in before && !(dir < p) ==> p in fs
        invariant forall p :: p in fs && dir < p ==> p[..|dir| + 1] in children
        invariant forall c :: c in children ==> dir < c && |c| == |dir| + 1
        decreases children
      {
        var child :| child in children;
        RemoveTree(child);
        children := children - {child};
        assert forall p :: p in fs && dir < p ==> p[..|dir| + 1] != child;
      }
    }

    /** Extract an entry: the directories on the way, then the node. */
    method Unpack(op: Op)
      requires op.Put?
      modifies this
      ensures fs == Apply(old(fs), op)
    {
      ghost var before := fs;
      var i := 1;
      while i < |op.path|
        invariant 1 <= i && (op.path == [] || i <= |op.path|)
        invariant forall p :: p in fs <==> p in before || (|p| < i && Provides(op, p))
        invariant forall p :: p in fs ==> fs[p] == if |p| < i && Provides(op, p) then Dir else before[p]
      {
        fs := fs[op.path[..i] := Dir];
        assert forall p :: p <= op.path && |p| == i ==> p == op.path[..i];
        i := i + 1;
      }
      if op.path != [] {
        fs := fs[op.path := op.node];
        assert forall p :: p <= op.path && |p| == |op.path| ==> p == op.path;
      }
      assert fs.Keys == Apply(before, op).Keys;
    }

    /** One entry, as its name says. */
    method UnpackEntry(e: Entry)
      modifies this
      ensures fs == Apply(old(fs), Parse(e))
    {
      ghost var before := fs;
      var op := Parse(e);
      match op {
        case Opaque(dir) => ClearDir(dir);
        case Whiteout(path) => RemoveTree(path);
        case Put(_, _) => Unpack(op);
        case Nothing =>
      }
      assert fs.Keys == Apply(before, op).Keys;
    }

    /** Unpack one layer's archive, honouring its whiteouts. */
    method UnpackArchive(layer: seq<Entry>)
      modifies this
      ensures fs == Unpacked(old(fs), layer)
      ensures forall p :: At(fs, p) == Fate(layer, At(old(fs), p), p)
    {
      ghost var before := fs;
      var i := 0;
      while i < |layer|
        invariant 0 <= i <= |layer|
        invariant fs == Unpacked(before, layer[..i])
      {
        UnpackEntry(layer[i]);
        assert layer[..i + 1][..i] == layer[..i];
        UnpackedStep(before, layer[..i + 1]);
        i := i + 1;
      }
      assert layer[..i] == layer;
      forall p ensures At(fs, p) == Fate(layer, At(before, p), p) { UnpackedIsFate(before, layer, p); }
    }

    /** Assemble a root file system from all layers, in order: their overlay, where no whiteout has the last word. */
    method Assemble(layers: seq<seq<Entry>>)
      requires fs == map[]
      modifies this
      ensures fs == Assembled(layers)
      ensures (forall i :: 0 <= i < |layers| ==> WhiteoutsFirst(layers[i])) ==>
        forall p :: At(fs, p) == Overlay(layers, p)
    {
      var i := 0;
      while i < |layers|
        invariant 0 <= i <= |layers|
        invariant fs == Assembled(layers[..i])
      {
        UnpackArchive(layers[i]);
        assert layers[..i + 1][..i] == layers[..i];
        i := i + 1;
      }
      assert layers[..i] == layers;
      if forall i :: 0 <= i < |layers| ==> WhiteoutsFirst(layers[i]) {
        forall p ensures At(fs, p) == Overlay(layers, p) { AssembledIsOverlay(layers, p); }
      }
    }
  }

  // ------------------------------------------------ what the layers mean

  function At(fs: Fs, p: Path): Option<Node> {
    if p in fs then Some(fs[p]) else None
  }

  /** Something named `n`, with the whiteouts' prefix before it, in `dir`. */
  predicate IsMarker(e: Entry, dir: Path, n: string) { e.path == dir + [".wh." + n] }

  /**
   * What an entry hides of the layers below: the opaque whiteout everything in
   * its directory, any other what it is named after and everything below that.
   */
  ghost predicate Hides(e: Entry, p: Path) {
    exists dir: Path, n: string :: IsMarker(e, dir, n) &&
      if n == ".wh..opq" then dir < p else if n == "" then dir <= p else dir + [n] <= p
  }

  /** An entry that is no whiteout puts a node at its path, and directories on the way to it. */
  ghost predicate Puts(e: Entry, p: Path) {
    p != [] && p <= e.path && !exists dir: Path, n: string :: IsMarker(e, dir, n)
  }

  function NodeAt(e: Entry, p: Path): Node { if p == e.path then e.node else Dir }

  lemma MarkerIs(e: Entry, dir: Path, n: string)
    requires IsMarker(e, dir, n)
    ensures e.path != [] && dir == e.path[..|e.path| - 1]
    ensures PREFIX <= e.path[|e.path| - 1] && e.path[|e.path| - 1][4..] == n
    ensures n == "" <==> e.path[|e.path| - 1] == PREFIX
    ensures n == ".wh..opq" <==> e.path[|e.path| - 1] == OPAQUE
  {
    var name := e.path[|e.path| - 1];
    assert name == PREFIX + n;
    if name == OPAQUE { assert OPAQUE[4..] == ".wh..opq"; }
  }

  lemma IsAMarker(e: Entry)
    requires e.path != [] && PREFIX <= e.path[|e.path| - 1]
    ensures IsMarker(e, e.path[..|e.path| - 1], e.path[|e.path| - 1][4..])
  {
    var name := e.path[|e.path| - 1];
    assert name == name[..4] + name[4..] && name[..4] == PREFIX;
  }

  /** `Parse` makes of every name what it means. */
  lemma NamesAreParsed(e: Entry, p: Path)
    ensures Covers(Parse(e), p) <==> Hides(e, p)
    ensures Provides(Parse(e), p) <==> Puts(e, p)
    ensures Provides(Parse(e), p) ==> Provided(Parse(e), p) == NodeAt(e, p)
  {
    if e.path != [] && PREFIX <= e.path[|e.path| - 1] {
      IsAMarker(e);
      MarkerIs(e, e.path[..|e.path| - 1], e.path[|e.path| - 1][4..]);
    }
    forall dir: Path, n: string | IsMarker(e, dir, n)
      ensures e.path != [] && dir == e.path[..|e.path| - 1] && n == e.path[|e.path| - 1][4..]
      ensures PREFIX <= e.path[|e.path| - 1]
    {
      MarkerIs(e, dir, n);
    }
  }

  /** The last entry of a layer to put a node at `p`, if any. */
  ghost function LastPut(layer: seq<Entry>, p: Path): (i: int)
    ensures -1 <= i < |layer|
    ensures i >= 0 ==> Puts(layer[i], p)
    ensures forall j :: i < j < |layer| ==> !Puts(layer[j], p)
  {
    if layer == [] then -1
    else if Puts(layer[|layer| - 1], p) then |layer| - 1
    else LastPut(layer[..|layer| - 1], p)
  }

  ghost predicate SomeHides(layer: seq<Entry>, p: Path) { exists j :: 0 <= j < |layer| && Hides(layer[j], p) }

  lemma SomeHidesStep(layer: seq<Entry>, p: Path)
    requires layer != []
    ensures SomeHides(layer, p) <==> Hides(layer[|layer| - 1], p) || SomeHides(layer[..|layer| - 1], p)
  {
    forall j | 0 <= j < |layer| - 1 ensures layer[..|layer| - 1][j] == layer[j] {}
  }

  /**
   * A layer over what lies below: what it puts at `p` shows; else, if any of
   * its whiteouts hides `p`, nothing; else what lies below. A whiteout hides
   * lower layers only, wherever in its own layer it stands.
   */
  ghost function Over(layer: seq<Entry>, below: Option<Node>, p: Path): Option<Node> {
    var i := LastPut(layer, p);
    if i >= 0 then Some(NodeAt(layer[i], p))
    else if SomeHides(layer, p) then None
    else below
  }

  /** The overlay of all layers, the last on top. */
  ghost function Overlay(layers: seq<seq<Entry>>, p: Path): Option<Node> {
    if layers == [] then None else Over(layers[|layers| - 1], Overlay(layers[..|layers| - 1], p), p)
  }

  /** No whiteout has the last word on a path its own layer puts something at. */
  ghost predicate WhiteoutsFirst(layer: seq<Entry>) {
    forall p, i, j :: 0 <= i < j < |layer| && Puts(layer[i], p) && Hides(layer[j], p) ==>
      exists k :: j < k < |layer| && Puts(layer[k], p)
  }

  /** One path's fate under the entries, one at a time. */
  ghost function Fate(layer: seq<Entry>, below: Option<Node>, p: Path): Option<Node> {
    if layer == [] then below
    else
      var e := layer[|layer| - 1];
      if Puts(e, p) then Some(NodeAt(e, p))
      else if Hides(e, p) then None
      else Fate(layer[..|layer| - 1], below, p)
  }

  lemma UnpackedStep(fs: Fs, layer: seq<Entry>)
    requires layer != []
    ensures Unpacked(fs, layer) == Apply(Unpacked(fs, layer[..|layer| - 1]), Parse(layer[|layer| - 1]))
  {
    assert Ops(layer)[..|layer| - 1] == Ops(layer[..|layer| - 1]);
  }

  lemma {:induction false} UnpackedIsFate(fs: Fs, layer: seq<Entry>, p: Path)
    ensures At(Unpacked(fs, layer), p) == Fate(layer, At(fs, p), p)
  {
    if layer != [] {
      UnpackedStep(fs, layer);
      UnpackedIsFate(fs, layer[..|layer| - 1], p);
      NamesAreParsed(layer[|layer| - 1], p);
    }
  }

  /** Where the last put comes after every whiteout that hides `p`, or there is none, one path agrees. */
  lemma {:induction false} FateIsOver(layer: seq<Entry>, below: Option<Node>, p: Path)
    requires LastPut(layer, p) >= 0 ==> forall j :: LastPut(layer, p) < j < |layer| ==> !Hides(layer[j], p)
    ensures Fate(layer, below, p) == Over(layer, below, p)
  {
    if layer != [] {
      var last := layer[|layer| - 1];
      SomeHidesStep(layer, p);
      if !Puts(last, p) && !Hides(last, p) { FateIsOver(layer[..|layer| - 1], below, p); }
    }
  }

  /** A whiteout after the last put hides what its own layer put. */
  lemma {:induction false} LateWhiteoutHides(layer: seq<Entry>, below: Option<Node>, p: Path, j: nat)
    requires LastPut(layer, p) < j < |layer| && Hides(layer[j], p)
    ensures Fate(layer, below, p) == None
  {
    if j < |layer| - 1 {
      LateWhiteoutHides(layer[..|layer| - 1], below, p, j);
    }
  }

  /**
   * Unpacking a layer entry by entry gives, over every file system, what the
   * layer means exactly when no whiteout has the last word on a path that its
   * own layer puts something at.
   */
  lemma LayerIsOverlaidIff(layer: seq<Entry>)
    ensures WhiteoutsFirst(layer) <==>
      forall fs: Fs, p: Path :: At(Unpacked(fs, layer), p) == Over(layer, At(fs, p), p)
  {
    forall fs: Fs, p: Path | WhiteoutsFirst(layer) ensures At(Unpacked(fs, layer), p) == Over(layer, At(fs, p), p) {
      LayerOverOne(layer, fs, p);
    }
    if !WhiteoutsFirst(layer) {
      var p, i, j :| 0 <= i < j < |layer| && Puts(layer[i], p) && Hides(layer[j], p)
        && !exists k :: j < k < |layer| && Puts(layer[k], p);
      LateWhiteoutDiffers(layer, p, i, j);
      assert At(Unpacked(map[], layer), p) != Over(layer, At(map[], p), p);
    }
  }

  lemma LateWhiteoutDiffers(layer: seq<Entry>, p: Path, i: nat, j: nat)
    requires i < j < |layer| && Puts(layer[i], p) && Hides(layer[j], p)
    requires forall k :: j < k < |layer| ==> !Puts(layer[k], p)
    ensures At(Unpacked(map[], layer), p) != Over(layer, At(map[], p), p)
  {
    NotBoth(layer[j], p);
    assert i <= LastPut(layer, p) < j;
    UnpackedIsFate(map[], layer, p);
    LateWhiteoutHides(layer, At(map[], p), p, j);
  }

  lemma NotBoth(e: Entry, p: Path)
    ensures !(Puts(e, p) && Hides(e, p))
  {
  }

  lemma LayerOverOne(layer: seq<Entry>, fs: Fs, p: Path)
    requires WhiteoutsFirst(layer)
    ensures At(Unpacked(fs, layer), p) == Over(layer, At(fs, p), p)
  {
    UnpackedIsFate(fs, layer, p);
    var i := LastPut(layer, p);
    forall j | i >= 0 && i < j < |layer| ensures !Hides(layer[j], p) {
      assert Puts(layer[i], p);
    }
    FateIsOver(layer, At(fs, p), p);
  }

  /** All layers, one entry at a time, give the overlay of the layers. */
  lemma {:induction false} AssembledIsOverlay(layers: seq<seq<Entry>>, p: Path)
    requires forall i :: 0 <= i < |layers| ==> WhiteoutsFirst(layers[i])
    ensures At(Assembled(layers), p) == Overlay(layers, p)
  {
    if layers != [] {
      AssembledIsOverlay(layers[..|layers| - 1], p);
      LayerOverOne(layers[|layers| - 1], Assembled(layers[..|layers| - 1]), p);
    }
  }

  /** A layer whose whiteouts stand before the entries they would hide is such a layer. */
  lemma WhiteoutsBeforeEntries(layer: seq<Entry>)
    requires forall p, i, j :: 0 <= i < |layer| && 0 <= j < |layer| && Puts(layer[i], p) && Hides(layer[j], p) ==> j < i
    ensures WhiteoutsFirst(layer)
  {
  }

  /** Every node's directories are there too. */
  ghost predicate Rooted(fs: Fs) {
    forall p, q :: p in fs && q != [] && q <= p ==> q in fs
  }

  /** No sequence of entries leaves a node without its directories. */
  lemma {:induction false} AlwaysRooted(layers: seq<seq<Entry>>)
    ensures Rooted(Assembled(layers))
  {
    if layers != [] {
      AlwaysRooted(layers[..|layers| - 1]);
      EntriesKeepRooted(Assembled(layers[..|layers| - 1]), Ops(layers[|layers| - 1]));
    }
  }

  lemma {:induction false} EntriesKeepRooted(fs: Fs, ops: seq<Op>)
    requires Rooted(fs)
    ensures Rooted(ApplyAll(fs, ops))
  {
    if ops != [] {
      EntriesKeepRooted(fs, ops[..|ops| - 1]);
      EntryKeepsRooted(ApplyAll(fs, ops[..|ops| - 1]), ops[|ops| - 1]);
    }
  }

  lemma EntryKeepsRooted(fs: Fs, op: Op)
    requires Rooted(fs)
    ensures Rooted(Apply(fs, op))
  {
    var t := Apply(fs, op);
    forall p, q | p in t && q != [] && q <= p ensures q in t {
      BelowWhatIsCovered(op, q, p);
    }
  }

  /** What covers a directory covers what is in it; what puts something in it puts it. */
  lemma BelowWhatIsCovered(op: Op, q: Path, p: Path)
    requires q != [] && q <= p
    ensures Covers(op, q) ==> Covers(op, p)
    ensures Provides(op, p) ==> Provides(op, q)
  {
  }
}
