/**
 * ZipFileProvider: the tree of an archive. Each entry name is split on '/';
 * every piece but the last is walked as a directory from the provider root,
 * reusing what get finds and creating a content-less MockFile where it finds
 * nothing; the entry's ZipFile node is then added to the directory reached.
 *
 * Decoding the archive is not modelled: the entries arrive as ZipEntry
 * values in stream order.
 */
module Archives {
  import opened Wrappers
  import opened Text
  import opened Nodes
  import opened Lookup
  import opened Tree
  import opened Merging
  import opened MockFiles
  import opened ZipFiles

  /** The directory pieces of an entry name: all pieces of the split but the last. */
  function DirSegments(name: string): (r: seq<string>)
    ensures forall i :: 0 <= i < |r| ==> '/' !in r[i]
    ensures '/' !in name ==> r == []
    ensures |r| == if |JavaSplit(name, '/')| == 0 then 0 else |JavaSplit(name, '/')| - 1
  {
    var split := JavaSplit(name, '/');
    if |split| == 0 then [] else split[..|split| - 1]
  }

  /**
   * The directory walk of one entry from d: the store afterwards and the
   * directory reached. A piece get answers moves there; a piece get does not
   * answer creates a new MockFile directory under that name and moves into it.
   */
  function Descend(s: Store, hs: seq<Handler>, d: NodeId, segs: seq<string>): (r: (Store, NodeId))
    requires Consistent(s, hs) && d in s
    ensures Consistent(r.0, hs) && r.1 in r.0 && s.Keys <= r.0.Keys
    ensures forall id | id in s :: r.0[id].name == s[id].name && r.0[id].kind == s[id].kind
    ensures forall id | id in r.0 && id !in s :: r.0[id].kind == Dir
    decreases |segs|
  {
    if |segs| == 0 then (s, d)
    else match Get(s, hs, d, segs[0])
      case Some(x) => Descend(s, hs, x, segs[1..])
      case None =>
        var x := FreshId(s);
        AttachedFresh(s, hs, x, d, MockDir(segs[0]));
        Descend(Attached(s[x := MockDir(segs[0])], x, d), hs, x, segs[1..])
  }

  /** Allocating a detached node x and adding it to d touches only d's child map and x. */
  lemma AttachedFresh(s: Store, hs: seq<Handler>, x: NodeId, d: NodeId, rec: NodeRec)
    requires Consistent(s, hs) && x !in s && d in s && rec.children == map[] && rec.parent.None?
    ensures var s1 := Attached(s[x := rec], x, d);
            Consistent(s1, hs) && s1.Keys == s.Keys + {x}
            && (forall id | id in s && id != d :: s1[id] == s[id])
            && s1[d] == s[d].(children := s[d].children[rec.name := x])
            && s1[x] == rec.(parent := Some(d))
  {
    var s1 := Attached(s[x := rec], x, d);
    assert forall id | id in s :: s1[id].name == s[id].name;
    AttachedWellFormed(s, x, d, rec);
  }

  lemma AttachedWellFormed(s: Store, x: NodeId, d: NodeId, rec: NodeRec)
    requires WellFormed(s) && x !in s && d in s && rec.children == map[] && rec.parent.None?
    ensures WellFormed(Attached(s[x := rec], x, d))
  {
    var s1 := Attached(s[x := rec], x, d);
    forall id | id in s1
      ensures forall k | k in s1[id].children :: s1[id].children[k] in s1 && s1[s1[id].children[k]].name == k
      ensures s1[id].parent.Some? ==> s1[id].parent.value in s1
    {
      if id == d {
        forall k | k in s1[d].children ensures s1[d].children[k] in s1 && s1[s1[d].children[k]].name == k {
          if k != rec.name {
            assert s1[d].children[k] == s[d].children[k];
          }
        }
      }
    }
  }

  lemma DescendFound(s: Store, hs: seq<Handler>, d: NodeId, segs: seq<string>, i: int, x: NodeId)
    requires Consistent(s, hs) && d in s && 0 <= i < |segs| && Get(s, hs, d, segs[i]) == Some(x)
    ensures Descend(s, hs, d, segs[i..]) == Descend(s, hs, x, segs[i + 1..])
  {
    assert segs[i..][0] == segs[i] && segs[i..][1..] == segs[i + 1..];
  }

  lemma DescendMade(s: Store, hs: seq<Handler>, d: NodeId, segs: seq<string>, i: int, s3: Store)
    requires Consistent(s, hs) && d in s && 0 <= i < |segs| && Get(s, hs, d, segs[i]).None?
    requires s3 == Attached(s[FreshId(s) := Detached(segs[i], Dir)], FreshId(s), d)
    requires Consistent(s3, hs) && FreshId(s) in s3
    ensures Descend(s, hs, d, segs[i..]) == Descend(s3, hs, FreshId(s), segs[i + 1..])
  {
    assert segs[i..][0] == segs[i] && segs[i..][1..] == segs[i + 1..];
    assert MockDir(segs[i]) == Detached(segs[i], Dir);
  }

  lemma PlacedEnd(s: Store, hs: seq<Handler>, root: NodeId, e: ZipEntry, s2: Store, dir: NodeId)
    requires Consistent(s, hs) && root in s && Descend(s, hs, root, DirSegments(e.name)) == (s2, dir)
    ensures dir in s2 && FreshId(s2) !in s2
    ensures Placed(s, hs, root, e) ==
            Attached(s2[FreshId(s2) := Detached(EntryName(e.name), Archive(e.isDir, e.size, e.data))], FreshId(s2), dir)
  {
    assert ZipFile(e) == Detached(EntryName(e.name), Archive(e.isDir, e.size, e.data));
  }

  lemma GetKeptTrans(s1: Store, s2: Store, s3: Store, hs: seq<Handler>)
    requires GetKept(s1, s2, hs) && GetKept(s2, s3, hs)
    ensures GetKept(s1, s3, hs)
  {
  }

  /** Allocating a node no one refers to changes no answer of get. */
  lemma AllocKeeps(s: Store, hs: seq<Handler>, x: NodeId, rec: NodeRec)
    requires x !in s
    ensures GetKept(s, s[x := rec], hs)
  {
    forall p, n | p in s && Get(s, hs, p, n).Some? ensures Get(s[x := rec], hs, p, n) == Get(s, hs, p, n) {
      assert s[x := rec][p] == s[p];
    }
  }

  /** The walk never changes an answer get already gave: existing directories are reused, never replaced. */
  lemma {:induction false} DescendKeeps(s: Store, hs: seq<Handler>, d: NodeId, segs: seq<string>)
    requires Consistent(s, hs) && d in s
    ensures GetKept(s, Descend(s, hs, d, segs).0, hs)
    decreases |segs|
  {
    if |segs| > 0 {
      var rest := segs[1..];
      assert segs[0..] == segs && segs[0 + 1..] == rest;
      var g := Get(s, hs, d, segs[0]);
      if g.Some? {
        DescendFound(s, hs, d, segs, 0, g.value);
        DescendKeeps(s, hs, g.value, rest);
      } else {
        var x := FreshId(s);
        var s0 := s[x := Detached(segs[0], Dir)];
        var s1 := Attached(s0, x, d);
        AttachedFresh(s, hs, x, d, Detached(segs[0], Dir));
        DescendMade(s, hs, d, segs, 0, s1);
        AllocKeeps(s, hs, x, Detached(segs[0], Dir));
        assert s0[d] == s[d];
        AddGetKept(s0, hs, x, d);
        GetKeptTrans(s, s0, s1, hs);
        DescendKeeps(s1, hs, x, rest);
        GetKeptTrans(s, s1, Descend(s1, hs, x, rest).0, hs);
      }
    }
  }

  /** When the whole directory path already resolves, nothing is created and the walk ends where the path leads. */
  lemma {:induction false} DescendReuses(s: Store, hs: seq<Handler>, d: NodeId, segs: seq<string>)
    requires Consistent(s, hs) && d in s && Resolve(s, hs, d, segs).Some?
    ensures Descend(s, hs, d, segs) == (s, Resolve(s, hs, d, segs).value)
    decreases |segs|
  {
    if |segs| > 0 {
      var x := Get(s, hs, d, segs[0]).value;
      DescendReuses(s, hs, x, segs[1..]);
    }
  }

  lemma ResolveCons(s: Store, hs: seq<Handler>, d: NodeId, segs: seq<string>, x: NodeId)
    requires Consistent(s, hs) && d in s && |segs| > 0 && Get(s, hs, d, segs[0]) == Some(x)
    ensures Resolve(s, hs, d, segs) == Resolve(s, hs, x, segs[1..])
  {
  }

  lemma TailLacks(segs: seq<string>, n: string)
    requires |segs| > 0 && n !in segs
    ensures segs[0] != n && n !in segs[1..]
  {
    assert segs[0] in segs;
    forall k | 0 <= k < |segs[1..]| ensures segs[1..][k] != n { assert segs[1..][k] in segs; }
  }

  /** Without ".." pieces, the directory reached is where the path resolves to afterwards. */
  lemma {:induction false} DescendResolves(s: Store, hs: seq<Handler>, d: NodeId, segs: seq<string>)
    requires Consistent(s, hs) && d in s && ".." !in segs
    ensures Resolve(Descend(s, hs, d, segs).0, hs, d, segs) == Some(Descend(s, hs, d, segs).1)
    decreases |segs|
  {
    if |segs| > 0 {
      var r := Descend(s, hs, d, segs);
      var rest := segs[1..];
      TailLacks(segs, "..");
      assert segs[0..] == segs && segs[0 + 1..] == rest;
      var g := Get(s, hs, d, segs[0]);
      if g.Some? {
        DescendFound(s, hs, d, segs, 0, g.value);
        DescendResolves(s, hs, g.value, rest);
        DescendKeeps(s, hs, g.value, rest);
        ResolveCons(r.0, hs, d, segs, g.value);
      } else {
        var x := FreshId(s);
        var s1 := Attached(s[x := Detached(segs[0], Dir)], x, d);
        AttachedFresh(s, hs, x, d, Detached(segs[0], Dir));
        DescendMade(s, hs, d, segs, 0, s1);
        assert Get(s1, hs, d, segs[0]) == Some(x);
        DescendResolves(s1, hs, x, rest);
        DescendKeeps(s1, hs, x, rest);
        ResolveCons(r.0, hs, d, segs, x);
      }
    }
  }

  /** One entry: the directory walk, then the entry's ZipFile node added to the directory reached. */
  function Placed(s: Store, hs: seq<Handler>, root: NodeId, e: ZipEntry): (r: Store)
    requires Consistent(s, hs) && root in s
    ensures Consistent(r, hs) && s.Keys <= r.Keys
    ensures forall id | id in s :: r[id].name == s[id].name && r[id].kind == s[id].kind
  {
    var (s1, dir) := Descend(s, hs, root, DirSegments(e.name));
    var leaf := FreshId(s1);
    AttachedFresh(s1, hs, leaf, dir, ZipFile(e));
    Attached(s1[leaf := ZipFile(e)], leaf, dir)
  }

  /**
   * After an entry is placed, the directory reached holds its ZipFile node
   * under the entry's last name, replacing whatever was there; every other
   * answer get gave before is unchanged.
   */
  lemma EntryPlaced(s: Store, hs: seq<Handler>, root: NodeId, e: ZipEntry)
    requires Consistent(s, hs) && root in s
    ensures var (s1, dir) := Descend(s, hs, root, DirSegments(e.name));
            var leaf := FreshId(s1);
            var r := Placed(s, hs, root, e);
            leaf !in s1 && r[dir].children[EntryName(e.name)] == leaf
            && r[leaf] == ZipFile(e).(parent := Some(dir))
            && (EntryName(e.name) in s1[dir].children && s1[dir].children[EntryName(e.name)] != leaf ==>
                  s1[dir].children[EntryName(e.name)] !in r[dir].children.Values)
            && forall p, n | p in s && Get(s, hs, p, n).Some? && (p != dir || n != EntryName(e.name)) ::
                 Get(r, hs, p, n) == Get(s, hs, p, n)
  {
    var (s1, dir) := Descend(s, hs, root, DirSegments(e.name));
    var leaf := FreshId(s1);
    var s2 := s1[leaf := ZipFile(e)];
    var r := Placed(s, hs, root, e);
    var name := EntryName(e.name);
    DescendKeeps(s, hs, root, DirSegments(e.name));
    AttachedFresh(s1, hs, leaf, dir, ZipFile(e));
    forall p, n | p in s && Get(s, hs, p, n).Some? && (p != dir || n != name) ensures Get(r, hs, p, n) == Get(s, hs, p, n) {
      assert Get(s1, hs, p, n) == Get(s, hs, p, n);
      assert r[p].parent == s1[p].parent;
      if n != "." && n != ".." {
        assert (n in r[p].children) == (n in s1[p].children);
      }
    }
  }

  /** The loop of the constructor: every entry placed in stream order. */
  function ArchiveTree(s: Store, hs: seq<Handler>, root: NodeId, es: seq<ZipEntry>): (r: Store)
    requires Consistent(s, hs) && root in s
    ensures Consistent(r, hs) && s.Keys <= r.Keys
    ensures forall id | id in s :: r[id].name == s[id].name && r[id].kind == s[id].kind
    decreases |es|
  {
    if |es| == 0 then s else ArchiveTree(Placed(s, hs, root, es[0]), hs, root, es[1..])
  }

  /** The record carries the name and kind of the ZipFile node of one of the entries. */
  ghost predicate ArchiveLeaf(rec: NodeRec, es: seq<ZipEntry>)
  {
    exists e | e in es :: rec.name == EntryName(e.name) && rec.kind == ZipFile(e).kind
  }

  /** A node the archive adds is either a MockFile directory or the ZipFile node of one of the entries. */
  ghost predicate FromArchive(r: Store, s: Store, es: seq<ZipEntry>)
  {
    forall id | id in r && id !in s :: r[id].kind == Dir || ArchiveLeaf(r[id], es)
  }

  lemma PlacedNodes(s: Store, hs: seq<Handler>, root: NodeId, e: ZipEntry)
    requires Consistent(s, hs) && root in s
    ensures FromArchive(Placed(s, hs, root, e), s, [e])
  {
    var (s1, dir) := Descend(s, hs, root, DirSegments(e.name));
    var r := Placed(s, hs, root, e);
    AttachedFresh(s1, hs, FreshId(s1), dir, ZipFile(e));
    forall id | id in r && id !in s ensures r[id].kind == Dir || ArchiveLeaf(r[id], [e]) {
      if id == FreshId(s1) {
        assert e in [e];
      } else {
        assert id in s1;
      }
    }
  }

  lemma {:induction false} ArchiveNodes(s: Store, hs: seq<Handler>, root: NodeId, es: seq<ZipEntry>)
    requires Consistent(s, hs) && root in s
    ensures FromArchive(ArchiveTree(s, hs, root, es), s, es)
    decreases |es|
  {
    if |es| > 0 {
      var s1 := Placed(s, hs, root, es[0]);
      var r := ArchiveTree(s, hs, root, es);
      assert r == ArchiveTree(s1, hs, root, es[1..]);
      PlacedNodes(s, hs, root, es[0]);
      ArchiveNodes(s1, hs, root, es[1..]);
      forall id | id in r && id !in s ensures r[id].kind == Dir || ArchiveLeaf(r[id], es) {
        if id in s1 {
          if s1[id].kind != Dir {
            var e :| e in [es[0]] && s1[id].name == EntryName(e.name) && s1[id].kind == ZipFile(e).kind;
            assert e in es;
          }
        } else if r[id].kind != Dir {
          var e :| e in es[1..] && r[id].name == EntryName(e.name) && r[id].kind == ZipFile(e).kind;
          assert e in es;
        }
      }
    }
  }

  /** Loop invariant of the directory walk: the rest of the walk from dir finishes the walk from root. */
  ghost predicate Walking(s0: Store, s: Store, hs: seq<Handler>, root: NodeId, segs: seq<string>, dir: NodeId, i: int)
  {
    Consistent(s0, hs) && root in s0 && Consistent(s, hs) && dir in s && 0 <= i <= |segs|
    && Descend(s0, hs, root, segs) == Descend(s, hs, dir, segs[i..])
  }

  lemma WalkingFound(s0: Store, s: Store, hs: seq<Handler>, root: NodeId, segs: seq<string>, dir: NodeId, i: int)
    requires Walking(s0, s, hs, root, segs, dir, i) && i < |segs| && Get(s, hs, dir, segs[i]).Some?
    ensures Walking(s0, s, hs, root, segs, Get(s, hs, dir, segs[i]).value, i + 1)
  {
    DescendFound(s, hs, dir, segs, i, Get(s, hs, dir, segs[i]).value);
  }

  lemma WalkingMade(s0: Store, s: Store, hs: seq<Handler>, root: NodeId, segs: seq<string>, dir: NodeId, i: int, s3: Store)
    requires Walking(s0, s, hs, root, segs, dir, i) && i < |segs| && Get(s, hs, dir, segs[i]).None?
    requires s3 == Attached(s[FreshId(s) := Detached(segs[i], Dir)], FreshId(s), dir)
    requires Consistent(s3, hs) && FreshId(s) in s3
    ensures Walking(s0, s3, hs, root, segs, FreshId(s), i + 1)
  {
    DescendMade(s, hs, dir, segs, i, s3);
  }

  lemma WalkingDone(s0: Store, s: Store, hs: seq<Handler>, root: NodeId, segs: seq<string>, dir: NodeId, i: int)
    requires Walking(s0, s, hs, root, segs, dir, i) && i == |segs|
    ensures Descend(s0, hs, root, segs) == (s, dir)
  {
    assert segs[i..] == [];
  }

  /** dir.add(new ...): a new detached node of that name and kind, added to dir. */
  method AddNew(fs: Vfs, dir: NodeId, name: string, kind: Kind) returns (x: NodeId)
    requires fs.Valid() && NoSelfParent(fs.store) && dir in fs.store
    modifies fs
    ensures fs.Valid() && NoSelfParent(fs.store)
    ensures x == FreshId(old(fs.store)) && x in fs.store
    ensures fs.store == Attached(old(fs.store)[x := Detached(name, kind)], x, dir)
  {
    ghost var s1 := fs.store;
    x := fs.Create(name, kind);
    ValuesBelow(s1, dir, x);
    Attach(fs, dir, x);
  }

  /** The inner loop of the constructor: get-or-create each directory piece of the split entry name. */
  method DescendDirs(fs: Vfs, root: NodeId, split: seq<string>, ghost segs: seq<string>) returns (dir: NodeId)
    requires fs.Valid() && NoSelfParent(fs.store) && root in fs.store
    requires segs == if |split| == 0 then [] else split[..|split| - 1]
    modifies fs
    ensures fs.Valid() && NoSelfParent(fs.store)
    ensures Descend(old(fs.store), fs.handlers, root, segs) == (fs.store, dir)
  {
    dir := root;
    var i := 0;
    assert segs[0..] == segs;
    assert |segs| == if |split| == 0 then 0 else |split| - 1;
    while i < |split| - 1
      invariant fs.Valid() && NoSelfParent(fs.store)
      invariant Walking(old(fs.store), fs.store, fs.handlers, root, segs, dir, i)
      invariant |segs| == if |split| == 0 then 0 else |split| - 1
    {
      assert segs[i] == split[i];
      dir := DescendOne(fs, dir, split[i], old(fs.store), root, segs, i);
      i := i + 1;
    }
    WalkingDone(old(fs.store), fs.store, fs.handlers, root, segs, dir, i);
  }

  /** One turn of the directory loop: get the segment, or add a new directory of that name. */
  method DescendOne(fs: Vfs, dir: NodeId, name: string, ghost s0: Store, ghost root: NodeId, ghost segs: seq<string>, ghost i: int)
    returns (next: NodeId)
    requires fs.Valid() && NoSelfParent(fs.store)
    requires Walking(s0, fs.store, fs.handlers, root, segs, dir, i) && i < |segs| && segs[i] == name
    modifies fs
    ensures fs.Valid() && NoSelfParent(fs.store)
    ensures Walking(s0, fs.store, fs.handlers, root, segs, next, i + 1)
  {
    var sub := Get(fs.store, fs.handlers, dir, name);
    if sub.None? {
      ghost var s1 := fs.store;
      next := AddNew(fs, dir, name, Dir);
      WalkingMade(s0, s1, fs.handlers, root, segs, dir, i, fs.store);
    } else {
      WalkingFound(s0, fs.store, fs.handlers, root, segs, dir, i);
      next := sub.value;
    }
  }

  /** The body of the constructor's loop for one entry. */
  method PlaceEntry(fs: Vfs, root: NodeId, e: ZipEntry)
    requires fs.Valid() && NoSelfParent(fs.store) && root in fs.store
    modifies fs
    ensures fs.Valid() && NoSelfParent(fs.store)
    ensures fs.store == Placed(old(fs.store), fs.handlers, root, e)
  {
    var split := JavaSplit(e.name, '/');
    var dir := DescendDirs(fs, root, split, DirSegments(e.name));
    PlacedEnd(old(fs.store), fs.handlers, root, e, fs.store, dir);
    var leaf := AddNew(fs, dir, EntryName(e.name), Archive(e.isDir, e.size, e.data));
  }

  /**
   * new ZipFileProvider(data): a fresh root stub (named by its toString) and
   * the entries placed in stream order.
   */
  method LoadArchive(fs: Vfs, rootName: string, es: seq<ZipEntry>) returns (root: NodeId)
    requires fs.Valid() && NoSelfParent(fs.store)
    modifies fs
    ensures fs.Valid() && NoSelfParent(fs.store)
    ensures root == FreshId(old(fs.store))
    ensures fs.store == ArchiveTree(old(fs.store)[root := Detached(rootName, Stub)], fs.handlers, root, es)
  {
    root := fs.Create(rootName, Stub);
    ghost var s0 := fs.store;
    var k := 0;
    while k < |es|
      invariant 0 <= k <= |es| && fs.Valid() && NoSelfParent(fs.store) && root in fs.store
      invariant ArchiveTree(s0, fs.handlers, root, es) == ArchiveTree(fs.store, fs.handlers, root, es[k..])
    {
      assert es[k..][1..] == es[k + 1..];
      PlaceEntry(fs, root, es[k]);
      k := k + 1;
    }
  }
}
