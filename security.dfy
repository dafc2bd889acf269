/**
 * The policy view: DelegateProvider decorates a node and forwards to it;
 * SecurityProvider routes get, list, add and openStream through a
 * SecurityController and decorates again every node it hands back.
 */
module Security {
  import opened Wrappers
  import opened Text
  import opened Nodes
  import opened Lookup
  import opened Tree

  /**
   * A node as a caller holds it: a raw tree node, or a SecurityProvider over
   * another node (itself possibly decorated) with controller number ctl.
   */
  datatype File = Raw(id: NodeId) | Secured(data: File, ctl: nat)

  /**
   * A SecurityController. A hook is None where the subclass keeps the
   * default pass-through. Every hook is given the current store, so it may
   * decide on the tree's state (a node's children or parent) at the time of
   * the call. A custom add hook either calls parent.add(file) or does
   * nothing, which admit decides.
   */
  datatype Controller = Controller(
    get: Option<(Store, Option<File>) -> Option<File>>,
    list: Option<(Store, File) -> seq<File>>,
    stream: Option<(Store, File) -> Option<seq<byte>>>,
    admit: Option<(Store, File, NodeId) -> bool>)

  /** The controller that overrides nothing. */
  predicate Default(c: Controller)
  {
    c.get.None? && c.list.None? && c.stream.None? && c.admit.None?
  }

  /** A controller whose add hook never calls parent.add. */
  ghost predicate Refusing(c: Controller)
  {
    c.admit.Some? && forall s: Store, d: File, g: NodeId :: !c.admit.value(s, d, g)
  }

  /** A get hook that answers null to everything. */
  ghost predicate HidesAll(c: Controller)
  {
    c.get.Some? && forall s: Store, x: Option<File> :: c.get.value(s, x).None?
  }

  /** The tree node underneath all decorations. */
  function Base(f: File): NodeId
  {
    match f
    case Raw(id) => id
    case Secured(d, _) => Base(d)
  }

  /** The number of decorations around the tree node. */
  function Depth(f: File): nat
  {
    match f
    case Raw(_) => 0
    case Secured(d, _) => Depth(d) + 1
  }

  /** Every controller number on the way down names a controller. */
  predicate Known(ctls: seq<Controller>, f: File)
  {
    match f
    case Raw(_) => true
    case Secured(d, c) => c < |ctls| && Known(ctls, d)
  }

  /** Every decoration on the way down uses a controller that overrides nothing. */
  predicate Transparent(ctls: seq<Controller>, f: File)
  {
    match f
    case Raw(_) => true
    case Secured(d, c) => c < |ctls| && Default(ctls[c]) && Transparent(ctls, d)
  }

  function BaseOf(x: Option<File>): Option<NodeId>
  {
    if x.None? then None else Some(Base(x.value))
  }

  function Bases(xs: seq<File>): (r: seq<NodeId>)
    ensures |r| == |xs| && forall i :: 0 <= i < |xs| ==> r[i] == Base(xs[i])
  {
    seq(|xs|, i requires 0 <= i < |xs| => Base(xs[i]))
  }

  /** A raw node handed out by the tree itself. */
  function Lift(x: Option<NodeId>): (r: Option<File>)
    ensures BaseOf(r) == x
  {
    if x.None? then None else Some(Raw(x.value))
  }

  function LiftAll(xs: seq<NodeId>): (r: seq<File>)
    ensures |r| == |xs| && forall i :: 0 <= i < |xs| ==> r[i] == Raw(xs[i])
    ensures Bases(r) == xs
  {
    seq(|xs|, i requires 0 <= i < |xs| => Raw(xs[i]))
  }

  /**
   * wrap(file) of SecurityProvider: null stays null; any other node, even one
   * already decorated, gets one more decoration with this controller.
   */
  function Wrap(c: nat, x: Option<File>): (r: Option<File>)
    ensures r.None? <==> x.None?
    ensures r.Some? ==> r.value.Secured? && r.value.ctl == c && r.value.data == x.value
    ensures r.Some? ==> Depth(r.value) == Depth(x.value) + 1
    ensures BaseOf(r) == BaseOf(x)
  {
    if x.None? then None else Some(Secured(x.value, c))
  }

  /** wrap(Iterable): the same nodes in the same order, each decorated once more. */
  function WrapAll(c: nat, xs: seq<File>): (r: seq<File>)
    ensures |r| == |xs|
    ensures forall i :: 0 <= i < |xs| ==> r[i].Secured? && r[i].data == xs[i] && r[i].ctl == c
    ensures Bases(r) == Bases(xs)
  {
    seq(|xs|, i requires 0 <= i < |xs| => Secured(xs[i], c))
  }

  /** The list-building loop of wrap(Iterable). */
  method WrapList(c: nat, unwrapped: seq<File>) returns (wrapped: seq<File>)
    ensures wrapped == WrapAll(c, unwrapped)
  {
    wrapped := [];
    var i := 0;
    while i < |unwrapped|
      invariant 0 <= i <= |unwrapped|
      invariant wrapped == WrapAll(c, unwrapped[..i])
    {
      wrapped := wrapped + [Secured(unwrapped[i], c)];
      i := i + 1;
    }
    assert unwrapped[..i] == unwrapped;
  }

  /** get(name): the data side's answer through the controller's get hook, then wrapped. */
  function FileGet(s: Store, hs: seq<Handler>, ctls: seq<Controller>, f: File, name: string): (r: Option<File>)
    requires Known(ctls, f) && Base(f) in s
    ensures f.Secured? && r.Some? ==> r.value.Secured? && r.value.ctl == f.ctl
    ensures f.Raw? && Consistent(s, hs) && r.Some? ==> r.value.Raw? && r.value.id in s
  {
    match f
    case Raw(id) => Lift(Get(s, hs, id, name))
    case Secured(d, c) =>
      var found := FileGet(s, hs, ctls, d, name);
      Wrap(c, if ctls[c].get.Some? then ctls[c].get.value(s, found) else found)
  }

  /** list(): the controller's list hook on the data side, every element wrapped. */
  function FileList(s: Store, ctls: seq<Controller>, f: File): (r: seq<File>)
    requires WellFormed(s) && Known(ctls, f) && Base(f) in s
    ensures f.Secured? ==> forall i :: 0 <= i < |r| ==> r[i].Secured? && r[i].ctl == f.ctl
  {
    match f
    case Raw(id) => LiftAll(Children(s, id))
    case Secured(d, c) =>
      WrapAll(c, if ctls[c].list.Some? then ctls[c].list.value(s, d) else FileList(s, ctls, d))
  }

  /** No decoration on the way down overrides openStream. */
  predicate NoStreamHook(ctls: seq<Controller>, f: File)
  {
    match f
    case Raw(_) => true
    case Secured(d, c) => c < |ctls| && ctls[c].stream.None? && NoStreamHook(ctls, d)
  }

  /**
   * openStream(): the controller's stream hook on the data side. Only the
   * stream hooks matter: without one on the way down, the bytes are the tree node's.
   */
  function FileStream(s: Store, ctls: seq<Controller>, f: File): (r: Option<seq<byte>>)
    requires Known(ctls, f) && Base(f) in s
    ensures NoStreamHook(ctls, f) ==> r == OpenStream(s[Base(f)])
  {
    match f
    case Raw(id) => OpenStream(s[id])
    case Secured(d, c) =>
      if ctls[c].stream.Some? then ctls[c].stream.value(s, d) else FileStream(s, ctls, d)
  }

  /** query(path), inherited from DelegateProvider: resolved on the data side, only the end wrapped. */
  function FileQuery(s: Store, hs: seq<Handler>, ctls: seq<Controller>, f: File, path: string): (r: Option<File>)
    requires Consistent(s, hs) && Known(ctls, f) && Base(f) in s
    ensures f.Secured? && r.Some? ==> r.value.Secured? && r.value.ctl == f.ctl
  {
    match f
    case Raw(id) => Lift(QueryOf(s, hs, id, path))
    case Secured(d, c) => Wrap(c, FileQuery(s, hs, ctls, d, path))
  }

  /** getParent(): the data side's parent, wrapped. */
  function FileParent(s: Store, ctls: seq<Controller>, f: File): (r: Option<File>)
    requires Known(ctls, f) && Base(f) in s
    ensures f.Secured? && r.Some? ==> r.value.Secured? && r.value.ctl == f.ctl
  {
    match f
    case Raw(id) => Lift(s[id].parent)
    case Secured(d, c) => Wrap(c, FileParent(s, ctls, d))
  }

  /** find(search): the data side's matches, each wrapped. */
  function FileFind(s: Store, ghost rank: map<NodeId, nat>, ctls: seq<Controller>, f: File, search: string): (r: seq<File>)
    requires WellFormed(s) && Ranked(s, rank) && Known(ctls, f) && Base(f) in s
    ensures f.Secured? ==> forall i :: 0 <= i < |r| ==> r[i].Secured? && r[i].ctl == f.ctl
  {
    match f
    case Raw(id) => LiftAll(Find(s, rank, id, search))
    case Secured(d, c) => WrapAll(c, FileFind(s, rank, ctls, d, search))
  }

  /** getName(): read straight through every decoration. */
  function FileName(s: Store, f: File): (r: string)
    requires Base(f) in s
    ensures r == s[Base(f)].name
  {
    match f
    case Raw(id) => s[id].name
    case Secured(d, _) => FileName(s, d)
  }

  /** isDirectory(): read straight through every decoration. */
  function FileIsDirectory(s: Store, f: File): (r: bool)
    requires Base(f) in s
    ensures r == IsDirectory(s[Base(f)])
  {
    match f
    case Raw(id) => IsDirectory(s[id])
    case Secured(d, _) => FileIsDirectory(s, d)
  }

  /** length(): read straight through every decoration. */
  function FileLength(s: Store, f: File): (r: int)
    requires Base(f) in s
    ensures r == Length(s[Base(f)])
  {
    match f
    case Raw(id) => Length(s[id])
    case Secured(d, _) => FileLength(s, d)
  }

  /**
   * With default controllers all the way down, get, list and openStream see
   * exactly the tree: the decorations change no answer, only wrap it.
   */
  lemma {:induction false} TransparentHooks(s: Store, hs: seq<Handler>, ctls: seq<Controller>, f: File, name: string)
    requires WellFormed(s) && Transparent(ctls, f) && Known(ctls, f) && Base(f) in s
    ensures BaseOf(FileGet(s, hs, ctls, f, name)) == Get(s, hs, Base(f), name)
    ensures Bases(FileList(s, ctls, f)) == Children(s, Base(f))
    ensures FileStream(s, ctls, f) == OpenStream(s[Base(f)])
  {
    match f
    case Raw(_) =>
    case Secured(d, _) => TransparentHooks(s, hs, ctls, d, name);
  }

  /**
   * query and getParent consult no hook: whatever the controllers, they
   * reach the same tree nodes as the undecorated node would.
   */
  lemma {:induction false} UnhookedAnswers(s: Store, hs: seq<Handler>, ctls: seq<Controller>, f: File, path: string)
    requires Consistent(s, hs) && Known(ctls, f) && Base(f) in s
    ensures BaseOf(FileQuery(s, hs, ctls, f, path)) == QueryOf(s, hs, Base(f), path)
    ensures BaseOf(FileParent(s, ctls, f)) == s[Base(f)].parent
  {
    match f
    case Raw(_) =>
    case Secured(d, _) => UnhookedAnswers(s, hs, ctls, d, path);
  }

  /** find consults no hook either: the matches are the undecorated node's, in the same order. */
  lemma {:induction false} UnhookedFind(s: Store, rank: map<NodeId, nat>, ctls: seq<Controller>, f: File, search: string)
    requires WellFormed(s) && Ranked(s, rank) && Known(ctls, f) && Base(f) in s
    ensures Bases(FileFind(s, rank, ctls, f, search)) == Find(s, rank, Base(f), search)
  {
    match f
    case Raw(_) =>
    case Secured(d, _) => UnhookedFind(s, rank, ctls, d, search);
  }

  /**
   * A controller whose get hook hides every node does not hide them from
   * query: get answers null for every name, yet a query still reaches the
   * node the undecorated tree resolves the path to.
   */
  lemma QueryBypassesGet(s: Store, hs: seq<Handler>, ctls: seq<Controller>, f: File, name: string, path: string)
    requires Consistent(s, hs) && f.Secured? && Known(ctls, f) && Base(f) in s && HidesAll(ctls[f.ctl])
    ensures FileGet(s, hs, ctls, f, name).None?
    ensures BaseOf(FileQuery(s, hs, ctls, f, path)) == QueryOf(s, hs, Base(f), path)
  {
    UnhookedAnswers(s, hs, ctls, f.data, path);
  }

  /** Whether an add through f reaches the tree: every controller on the way calls parent.add. */
  predicate Admitted(s: Store, ctls: seq<Controller>, f: File, g: NodeId)
    requires Known(ctls, f)
  {
    match f
    case Raw(_) => true
    case Secured(d, c) => (ctls[c].admit.None? || ctls[c].admit.value(s, d, g)) && Admitted(s, ctls, d, g)
  }

  lemma {:induction false} TransparentAdmits(s: Store, ctls: seq<Controller>, f: File, g: NodeId)
    requires Transparent(ctls, f) && Known(ctls, f)
    ensures Admitted(s, ctls, f, g)
  {
    match f
    case Raw(_) =>
    case Secured(d, _) => TransparentAdmits(s, ctls, d, g);
  }

  /**
   * The effect of the tree's add(g) on dir, ok being false where it throws:
   * it refuses dir itself, leaves a present child alone, and otherwise moves g.
   */
  ghost predicate Added(s0: Store, s: Store, dir: NodeId, g: NodeId, ok: bool)
    requires dir in s0 && g in s0
  {
    Preserves(s0, s)
    && (g == dir ==> !ok && s == s0)
    && (g != dir && g in s0[dir].children.Values ==> ok && s == s0)
    && (g != dir && g !in s0[dir].children.Values && ok ==> Moved(s0, s, g, dir))
    && (g != dir && NoSelfParent(s0) ==> ok && NoSelfParent(s))
  }

  /** add(g) on a node: the raw add, or the controller's add hook on the data side; returns the node itself. */
  method FileAdd(fs: Vfs, ctls: seq<Controller>, f: File, g: NodeId) returns (r: File, ok: bool)
    requires fs.Valid() && Known(ctls, f) && Base(f) in fs.store && g in fs.store
    modifies fs
    decreases f, 0
    ensures r == f && fs.Valid() && Preserves(old(fs.store), fs.store)
    ensures !Admitted(old(fs.store), ctls, f, g) ==> ok && fs.store == old(fs.store)
    ensures Admitted(old(fs.store), ctls, f, g) ==> Added(old(fs.store), fs.store, Base(f), g, ok)
  {
    r := f;
    match f {
      case Raw(id) =>
        ok := fs.Add(id, g);
      case Secured(d, c) =>
        ok := ControllerAdd(fs, ctls, c, d, g);
    }
  }

  /** security.add(parent, file): the default calls parent.add(file); a custom hook may decline. */
  method ControllerAdd(fs: Vfs, ctls: seq<Controller>, c: nat, d: File, g: NodeId) returns (ok: bool)
    requires fs.Valid() && c < |ctls| && Known(ctls, d) && Base(d) in fs.store && g in fs.store
    modifies fs
    decreases d, 1
    ensures fs.Valid() && Preserves(old(fs.store), fs.store)
    ensures !Admitted(old(fs.store), ctls, Secured(d, c), g) ==> ok && fs.store == old(fs.store)
    ensures Admitted(old(fs.store), ctls, Secured(d, c), g) ==> Added(old(fs.store), fs.store, Base(d), g, ok)
  {
    if ctls[c].admit.None? || ctls[c].admit.value(fs.store, d, g) {
      var _, done := FileAdd(fs, ctls, d, g);
      ok := done;
    } else {
      ok := true;
    }
  }

  /**
   * addAll(gs): on a raw node the tree's addAll; on a decorated node the
   * controller's add hook for each node in order, stopping where one throws.
   */
  method FileAddAll(fs: Vfs, ctls: seq<Controller>, f: File, gs: seq<NodeId>) returns (r: File, ok: bool)
    requires fs.Valid() && Known(ctls, f) && Base(f) in fs.store && forall i :: 0 <= i < |gs| ==> gs[i] in fs.store
    modifies fs
    ensures r == f && fs.Valid() && Preserves(old(fs.store), fs.store)
    ensures Transparent(ctls, f) && old(NoSelfParent(fs.store)) && Base(f) !in gs ==>
              ok && forall j :: 0 <= j < |gs| && LastOfName(old(fs.store), gs, j) ==>
                old(fs.store)[gs[j]].name in fs.store[Base(f)].children
                && fs.store[Base(f)].children[old(fs.store)[gs[j]].name] == gs[j]
    ensures f.Secured? && Refusing(ctls[f.ctl]) ==> ok && fs.store == old(fs.store)
    ensures ok ==> AddBound(old(fs.store), fs.store, gs, |gs|, Base(f))
  {
    r := f;
    match f {
      case Raw(id) =>
        ok := fs.AddAll(id, gs);
      case Secured(d, c) =>
        ok := ControllerAddAll(fs, ctls, c, d, gs);
    }
  }

  /** Default controllers all the way down, no self-parent in the tree, and dir is not added to itself. */
  ghost predicate Tidy(s0: Store, ctls: seq<Controller>, c: nat, d: File, gs: seq<NodeId>)
  {
    Transparent(ctls, Secured(d, c)) && NoSelfParent(s0) && Base(d) !in gs
  }

  /** Loop invariant of SecurityProvider.addAll after the first i nodes. */
  ghost predicate AddingAll(s0: Store, s: Store, ctls: seq<Controller>, c: nat, d: File, gs: seq<NodeId>, i: int)
    requires c < |ctls| && Known(ctls, d)
  {
    0 <= i <= |gs| && Base(d) in s0 && (forall j :: 0 <= j < |gs| ==> gs[j] in s0) && Preserves(s0, s)
    && AddBound(s0, s, gs, i, Base(d))
    && (Tidy(s0, ctls, c, d, gs) ==> AddedSoFar(s0, s, gs, i, Base(d)) && NoSelfParent(s))
    && (Refusing(ctls[c]) ==> s == s0)
  }

  lemma AddingAllStep(s0: Store, s1: Store, s2: Store, ctls: seq<Controller>, c: nat, d: File, gs: seq<NodeId>, i: int, ok: bool)
    requires c < |ctls| && Known(ctls, d) && AddingAll(s0, s1, ctls, c, d, gs, i) && i < |gs| && WellFormed(s1)
    requires Preserves(s1, s2)
    requires !Admitted(s1, ctls, Secured(d, c), gs[i]) ==> ok && s2 == s1
    requires Admitted(s1, ctls, Secured(d, c), gs[i]) ==> Added(s1, s2, Base(d), gs[i], ok)
    ensures Tidy(s0, ctls, c, d, gs) || Refusing(ctls[c]) ==> ok
    ensures ok ==> AddingAll(s0, s2, ctls, c, d, gs, i + 1)
  {
    if Tidy(s0, ctls, c, d, gs) {
      TransparentAdmits(s1, ctls, Secured(d, c), gs[i]);
      AddAllStep(s0, s1, s2, gs, i, Base(d));
    }
    if Refusing(ctls[c]) {
      assert !ctls[c].admit.value(s1, d, gs[i]);
    }
    if ok {
      AddBoundStep(s0, s1, s2, gs, i, Base(d));
    }
  }

  lemma AddingAllDone(s0: Store, s: Store, ctls: seq<Controller>, c: nat, d: File, gs: seq<NodeId>, i: int)
    requires c < |ctls| && Known(ctls, d) && AddingAll(s0, s, ctls, c, d, gs, i) && i == |gs|
    ensures Tidy(s0, ctls, c, d, gs) ==>
              forall j :: 0 <= j < |gs| && LastOfName(s0, gs, j) ==>
                s0[gs[j]].name in s[Base(d)].children && s[Base(d)].children[s0[gs[j]].name] == gs[j]
  {
    if Tidy(s0, ctls, c, d, gs) {
      AddAllDone(s0, s, gs, i, Base(d));
    }
  }

  /** One turn of the addAll loop: security.add(data, gs[i]). */
  method AddNext(fs: Vfs, ctls: seq<Controller>, c: nat, d: File, gs: seq<NodeId>, i: int, ghost s0: Store) returns (ok: bool)
    requires fs.Valid() && c < |ctls| && Known(ctls, d) && AddingAll(s0, fs.store, ctls, c, d, gs, i) && i < |gs|
    modifies fs
    ensures fs.Valid() && Preserves(s0, fs.store)
    ensures Tidy(s0, ctls, c, d, gs) || Refusing(ctls[c]) ==> ok
    ensures ok ==> AddingAll(s0, fs.store, ctls, c, d, gs, i + 1)
  {
    ghost var before := fs.store;
    ok := ControllerAdd(fs, ctls, c, d, gs[i]);
    AddingAllStep(s0, before, fs.store, ctls, c, d, gs, i, ok);
  }

  /** The loop of SecurityProvider.addAll: security.add(data, g) for each g in order. */
  method ControllerAddAll(fs: Vfs, ctls: seq<Controller>, c: nat, d: File, gs: seq<NodeId>) returns (ok: bool)
    requires fs.Valid() && c < |ctls| && Known(ctls, d) && Base(d) in fs.store
    requires forall i :: 0 <= i < |gs| ==> gs[i] in fs.store
    modifies fs
    ensures fs.Valid() && Preserves(old(fs.store), fs.store)
    ensures Tidy(old(fs.store), ctls, c, d, gs) ==>
              ok && forall j :: 0 <= j < |gs| && LastOfName(old(fs.store), gs, j) ==>
                old(fs.store)[gs[j]].name in fs.store[Base(d)].children
                && fs.store[Base(d)].children[old(fs.store)[gs[j]].name] == gs[j]
    ensures Refusing(ctls[c]) ==> ok && fs.store == old(fs.store)
    ensures ok ==> AddBound(old(fs.store), fs.store, gs, |gs|, Base(d))
  {
    ghost var s0 := fs.store;
    ok := true;
    var i := 0;
    while ok && i < |gs|
      invariant fs.Valid() && Preserves(s0, fs.store) && 0 <= i <= |gs|
      invariant ok ==> AddingAll(s0, fs.store, ctls, c, d, gs, i)
      invariant Tidy(s0, ctls, c, d, gs) || Refusing(ctls[c]) ==> ok
    {
      ok := AddNext(fs, ctls, c, d, gs, i, s0);
      i := i + 1;
    }
    if ok {
      AddingAllDone(s0, fs.store, ctls, c, d, gs, i);
    }
  }

  /** remove(g): forwarded unchanged, through every decoration, to the tree's remove. */
  method FileRemove(fs: Vfs, f: File, g: NodeId) returns (ok: bool)
    requires fs.Valid() && Base(f) in fs.store && g in fs.store
    modifies fs
    ensures fs.Valid() && OnlyDrops(old(fs.store), fs.store, old(fs.store[g].name))
    ensures g == Base(f) ==> !ok && fs.store == old(fs.store)
    ensures g != Base(f) ==> fs.store[Base(f)].children == old(fs.store[Base(f)].children) - {old(fs.store[g].name)}
    ensures g != Base(f) && old(NoSelfParent(fs.store)) ==> ok
  {
    match f {
      case Raw(id) =>
        ok := fs.Remove(id, g);
      case Secured(d, _) =>
        ok := FileRemove(fs, d, g);
    }
  }

  /** removeAll(gs): forwarded unchanged, through every decoration, to the tree's removeAll. */
  method FileRemoveAll(fs: Vfs, f: File, gs: seq<NodeId>) returns (ok: bool)
    requires fs.Valid() && Base(f) in fs.store && forall i :: 0 <= i < |gs| ==> gs[i] in fs.store
    modifies fs
    ensures fs.Valid() && Shrinks(old(fs.store), fs.store, NamesOf(old(fs.store), gs, |gs|))
    ensures old(NoSelfParent(fs.store)) ==> ok
    ensures ok ==> forall i :: 0 <= i < |gs| ==> old(fs.store)[gs[i]].name !in fs.store[Base(f)].children
  {
    match f {
      case Raw(id) =>
        ok := fs.RemoveAll(id, gs);
      case Secured(d, _) =>
        ok := FileRemoveAll(fs, d, gs);
    }
  }
}
