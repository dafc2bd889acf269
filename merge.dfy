/**
 * The merge shared by the bulk loaders (LocalFileProvider.merge and
 * Files.merge): a handler's result node is added to a directory when the
 * directory has nothing under its name, and otherwise its children are
 * merged, one by one, into the node that is already there.
 *
 * A content handler returns a tree of new nodes. It is given here as a value
 * (Entry) and allocated into the store by Materialise, through the tree's own
 * constructor and add, as the handler's code would build it.
 */
module Merging {
  import opened Wrappers
  import opened Nodes
  import opened Lookup
  import opened Tree

  /** A node tree produced by a content handler, before it is allocated. */
  datatype Entry = Entry(name: string, kind: Kind, children: seq<Entry>)

  function NameSet(cs: seq<Entry>): (r: set<string>)
    ensures forall i :: 0 <= i < |cs| ==> cs[i].name in r
    ensures forall n :: n in r ==> exists i :: 0 <= i < |cs| && cs[i].name == n
  {
    set i | 0 <= i < |cs| :: cs[i].name
  }

  /** Siblings have distinct names at every level, as children of one child map do. */
  predicate Tidy(e: Entry)
    decreases e
  {
    (forall i, j :: 0 <= i < j < |e.children| ==> e.children[i].name != e.children[j].name)
    && forall i :: 0 <= i < |e.children| ==> Tidy(e.children[i])
  }

  /** No name in the tree is "." or "..", the two names get answers without the child map. */
  predicate PlainNames(e: Entry)
    decreases e
  {
    e.name != "." && e.name != ".." && forall i :: 0 <= i < |e.children| ==> PlainNames(e.children[i])
  }

  /**
   * y is the root of an allocated copy of c: same names and kinds, a child
   * map holding exactly the children's names, and every node at or above lo.
   */
  ghost predicate CopyOf(s: Store, y: NodeId, c: Entry, lo: nat)
    decreases c
  {
    y in s && lo <= y && s[y].name == c.name && s[y].kind == c.kind
    && s[y].children.Keys == NameSet(c.children)
    && forall i :: 0 <= i < |c.children| ==>
         c.children[i].name in s[y].children && CopyOf(s, s[y].children[c.children[i].name], c.children[i], lo)
  }

  /**
   * What merging e into p guarantees: get(e.name) on p answers with some
   * node, and every child of e is present, in the same sense, under it.
   */
  ghost predicate Present(s: Store, hs: seq<Handler>, e: Entry, p: NodeId)
    decreases e
  {
    p in s
    && var g := Get(s, hs, p, e.name);
       g.Some? && g.value in s && forall i :: 0 <= i < |e.children| ==> Present(s, hs, e.children[i], g.value)
  }

  /**
   * y is the root of a copy of c that may since have gained children: same
   * names and kinds, and every child of c copied, in turn, under its name.
   */
  ghost predicate Copied(s: Store, y: NodeId, c: Entry)
    decreases c
  {
    y in s && s[y].name == c.name && s[y].kind == c.kind
    && forall i :: 0 <= i < |c.children| ==>
         c.children[i].name in s[y].children && Copied(s, s[y].children[c.children[i].name], c.children[i])
  }

  /**
   * What merging e into p leaves behind, however the tree grows later: get(e.name)
   * on p answers a node that is either a copy of e, or one into which every
   * child of e was merged in the same sense.
   */
  ghost predicate Absorbed(s: Store, hs: seq<Handler>, e: Entry, p: NodeId)
    decreases e
  {
    p in s
    && var g := Get(s, hs, p, e.name);
       g.Some? && g.value in s
       && (Copied(s, g.value, e) || forall i :: 0 <= i < |e.children| ==> Absorbed(s, hs, e.children[i], g.value))
  }

  /**
   * What one merge of e into p does, decided on the store s0 before it: when
   * get(e.name) answered null, it now answers a new node, the root of an exact
   * copy of e made of new nodes only; otherwise it answers the same node, and
   * every child of e is absorbed into that node.
   */
  ghost predicate Merged(s0: Store, s: Store, hs: seq<Handler>, e: Entry, p: NodeId)
  {
    p in s0 && p in s
    && var g0 := Get(s0, hs, p, e.name);
       var g := Get(s, hs, p, e.name);
       g.Some? && g.value in s
       && (g0.None? ==> g.value !in s0 && (forall id :: id in s0 ==> id < g.value) && CopyOf(s, g.value, e, g.value))
       && (g0.Some? ==> g == g0 && forall i :: 0 <= i < |e.children| ==> Absorbed(s, hs, e.children[i], g.value))
  }

  /** Every answer get gave in s1 it still gives in s2. */
  ghost predicate GetKept(s1: Store, s2: Store, hs: seq<Handler>)
  {
    s1.Keys <= s2.Keys
    && forall p, n | p in s1 && Get(s1, hs, p, n).Some? :: Get(s2, hs, p, n) == Get(s1, hs, p, n)
  }

  /** Old nodes are untouched; only new nodes were allocated. */
  ghost predicate Extends(s1: Store, s2: Store)
  {
    s1.Keys <= s2.Keys && forall id | id in s1 :: s2[id] == s1[id]
  }

  /**
   * The merge's effect on the nodes that existed before: names, kinds and
   * parents kept, no child entry replaced or dropped, and a new entry only
   * under a name get did not answer for.
   */
  ghost predicate Grows(s1: Store, s2: Store, hs: seq<Handler>)
  {
    s1.Keys <= s2.Keys
    && forall id | id in s1 ::
         s2[id].name == s1[id].name && s2[id].kind == s1[id].kind && s2[id].parent == s1[id].parent
         && (forall k | k in s1[id].children :: k in s2[id].children && s2[id].children[k] == s1[id].children[k])
         && (forall k | k in s2[id].children && k !in s1[id].children :: Get(s1, hs, id, k).None?)
  }

  /**
   * The merge's effect for any result, "." and ".." names included: as Grows,
   * except that an entry under "..", a name get never looks up in the child
   * map, may be replaced (a second result named ".." merged into a directory
   * without a parent replaces the first one).
   */
  ghost predicate Enlarges(s1: Store, s2: Store, hs: seq<Handler>)
  {
    s1.Keys <= s2.Keys
    && forall id | id in s1 ::
         s2[id].name == s1[id].name && s2[id].kind == s1[id].kind && s2[id].parent == s1[id].parent
         && (forall k | k in s1[id].children && k != ".." :: k in s2[id].children && s2[id].children[k] == s1[id].children[k])
         && (forall k | k in s2[id].children && k !in s1[id].children :: Get(s1, hs, id, k).None?)
  }

  lemma GrowsEnlarges(s1: Store, s2: Store, hs: seq<Handler>)
    requires Grows(s1, s2, hs)
    ensures Enlarges(s1, s2, hs)
  {
  }

  /** Even where a ".." entry is replaced, every answer get gave is kept. */
  lemma EnlargesGetKept(s1: Store, s2: Store, hs: seq<Handler>)
    requires Enlarges(s1, s2, hs)
    ensures GetKept(s1, s2, hs)
  {
    forall p, n | p in s1 && Get(s1, hs, p, n).Some?
      ensures Get(s2, hs, p, n) == Get(s1, hs, p, n)
    {
      if n != "." && n != ".." && n !in s1[p].children {
        assert n !in s2[p].children;
      }
    }
  }

  lemma EnlargesTrans(s1: Store, s2: Store, s3: Store, hs: seq<Handler>)
    requires Enlarges(s1, s2, hs) && Enlarges(s2, s3, hs)
    ensures Enlarges(s1, s3, hs)
  {
    EnlargesGetKept(s1, s2, hs);
    forall id, k | id in s1 && k in s3[id].children && k !in s1[id].children
      ensures Get(s1, hs, id, k).None?
    {
      if k !in s2[id].children {
        assert Get(s2, hs, id, k).None?;
      }
    }
  }

  lemma GrowsGetKept(s1: Store, s2: Store, hs: seq<Handler>)
    requires Grows(s1, s2, hs)
    ensures GetKept(s1, s2, hs)
  {
    forall p, n | p in s1 && Get(s1, hs, p, n).Some?
      ensures Get(s2, hs, p, n) == Get(s1, hs, p, n)
    {
      if n != "." && n != ".." && n !in s1[p].children {
        assert n !in s2[p].children;
      }
    }
  }

  lemma GrowsTrans(s1: Store, s2: Store, s3: Store, hs: seq<Handler>)
    requires Grows(s1, s2, hs) && Grows(s2, s3, hs)
    ensures Grows(s1, s3, hs)
  {
    GrowsGetKept(s1, s2, hs);
    forall id, k | id in s1 && k in s3[id].children && k !in s1[id].children
      ensures Get(s1, hs, id, k).None?
    {
      if k !in s2[id].children {
        assert Get(s2, hs, id, k).None?;
      }
    }
  }

  lemma ExtendsGrows(s1: Store, s2: Store, hs: seq<Handler>)
    requires Extends(s1, s2)
    ensures Grows(s1, s2, hs)
  {
  }

  lemma {:induction false} CopiedKept(s1: Store, s2: Store, hs: seq<Handler>, y: NodeId, c: Entry)
    requires Copied(s1, y, c) && PlainNames(c) && Enlarges(s1, s2, hs)
    ensures Copied(s2, y, c)
    decreases c
  {
    forall i | 0 <= i < |c.children|
      ensures c.children[i].name in s2[y].children && Copied(s2, s2[y].children[c.children[i].name], c.children[i])
    {
      CopiedKept(s1, s2, hs, s1[y].children[c.children[i].name], c.children[i]);
    }
  }

  lemma {:induction false} AbsorbedKept(s1: Store, s2: Store, hs: seq<Handler>, e: Entry, p: NodeId)
    requires Absorbed(s1, hs, e, p) && PlainNames(e) && Enlarges(s1, s2, hs)
    ensures Absorbed(s2, hs, e, p)
    decreases e
  {
    EnlargesGetKept(s1, s2, hs);
    var g := Get(s1, hs, p, e.name).value;
    if Copied(s1, g, e) {
      CopiedKept(s1, s2, hs, g, e);
    } else {
      forall i | 0 <= i < |e.children| ensures Absorbed(s2, hs, e.children[i], g) {
        AbsorbedKept(s1, s2, hs, e.children[i], g);
      }
    }
  }

  lemma {:induction false} CopyCopied(s: Store, y: NodeId, c: Entry, lo: nat)
    requires CopyOf(s, y, c, lo)
    ensures Copied(s, y, c)
    decreases c
  {
    forall i | 0 <= i < |c.children| ensures Copied(s, s[y].children[c.children[i].name], c.children[i]) {
      CopyCopied(s, s[y].children[c.children[i].name], c.children[i], lo);
    }
  }

  /** A merge's effect survives as absorption. */
  lemma MergedAbsorbed(s0: Store, s: Store, hs: seq<Handler>, e: Entry, p: NodeId)
    requires Merged(s0, s, hs, e, p)
    ensures Absorbed(s, hs, e, p)
  {
    var g := Get(s, hs, p, e.name).value;
    if Get(s0, hs, p, e.name).None? {
      CopyCopied(s, g, e, g);
    }
  }

  /** Below a copy of a tree without "." or ".." names, every child is present. */
  lemma {:induction false} CopiedPresent(s: Store, hs: seq<Handler>, y: NodeId, c: Entry)
    requires Copied(s, y, c) && PlainNames(c)
    ensures forall i :: 0 <= i < |c.children| ==> Present(s, hs, c.children[i], y)
    decreases c
  {
    forall i | 0 <= i < |c.children| ensures Present(s, hs, c.children[i], y) {
      CopiedPresent(s, hs, s[y].children[c.children[i].name], c.children[i]);
    }
  }

  /** Whatever was absorbed is present, so merging it again changes nothing. */
  lemma {:induction false} AbsorbedPresent(s: Store, hs: seq<Handler>, e: Entry, p: NodeId)
    requires Absorbed(s, hs, e, p) && PlainNames(e)
    ensures Present(s, hs, e, p)
    decreases e
  {
    var g := Get(s, hs, p, e.name).value;
    if Copied(s, g, e) {
      CopiedPresent(s, hs, g, e);
    } else {
      forall i | 0 <= i < |e.children| ensures Present(s, hs, e.children[i], g) {
        AbsorbedPresent(s, hs, e.children[i], g);
      }
    }
  }

  /** Merging the same result twice leaves the tree the first merge left. */
  lemma MergeTwice(s0: Store, s1: Store, s2: Store, hs: seq<Handler>, e: Entry, p: NodeId)
    requires MergeSpec(s0, s1, hs, e, p) && MergeSpec(s1, s2, hs, e, p) && PlainNames(e)
    ensures s2 == s1
  {
    MergedAbsorbed(s0, s1, hs, e, p);
    AbsorbedPresent(s1, hs, e, p);
  }

  lemma {:induction false} CopyLower(s: Store, y: NodeId, c: Entry, lo: nat, lo': nat)
    requires CopyOf(s, y, c, lo) && lo' <= lo
    ensures CopyOf(s, y, c, lo')
    decreases c
  {
    forall i | 0 <= i < |c.children|
      ensures CopyOf(s, s[y].children[c.children[i].name], c.children[i], lo')
    {
      CopyLower(s, s[y].children[c.children[i].name], c.children[i], lo, lo');
    }
  }

  /** A copy only reads nodes at or above lo, and only their names, kinds and child maps. */
  lemma {:induction false} CopyFrame(s1: Store, s2: Store, y: NodeId, c: Entry, lo: nat)
    requires CopyOf(s1, y, c, lo)
    requires forall id | id in s1 && lo <= id ::
               id in s2 && s2[id].name == s1[id].name && s2[id].kind == s1[id].kind && s2[id].children == s1[id].children
    ensures CopyOf(s2, y, c, lo)
    decreases c
  {
    forall i | 0 <= i < |c.children|
      ensures CopyOf(s2, s2[y].children[c.children[i].name], c.children[i], lo)
    {
      CopyFrame(s1, s2, s1[y].children[c.children[i].name], c.children[i], lo);
    }
  }

  /** The store after adding the parentless node c, not yet a child of dir, to dir. */
  function Attached(s: Store, c: NodeId, dir: NodeId): (r: Store)
    requires c in s && dir in s
    ensures r.Keys == s.Keys
  {
    s[dir := s[dir].(children := s[dir].children[s[c].name := c])][c := s[c].(parent := Some(dir))]
  }

  lemma MovedDetached(s1: Store, s2: Store, c: NodeId, dir: NodeId)
    requires c in s1 && dir in s1 && c != dir && s1[c].parent.None?
    requires Moved(s1, s2, c, dir)
    ensures s2 == Attached(s1, c, dir)
  {
    var a := Attached(s1, c, dir);
    assert ChildrenKept(s1, s2, dir);
    forall id | id in s1 ensures s2[id] == a[id] {
      assert s2[id].name == a[id].name && s2[id].kind == a[id].kind;
      assert s2[id].children == a[id].children && s2[id].parent == a[id].parent;
    }
  }

  /** add(c) on dir for a node c with no parent that dir does not hold yet. */
  method Attach(fs: Vfs, dir: NodeId, c: NodeId)
    requires fs.Valid() && NoSelfParent(fs.store) && dir in fs.store && c in fs.store && dir != c
    requires fs.store[c].parent.None? && c !in fs.store[dir].children.Values
    modifies fs
    ensures fs.Valid() && NoSelfParent(fs.store)
    ensures fs.store == Attached(old(fs.store), c, dir)
  {
    ghost var s1 := fs.store;
    var ok := fs.Add(dir, c);
    MovedDetached(s1, fs.store, c, dir);
  }

  /** Adding the new root x under a name get did not answer for makes the merge grow the tree. */
  lemma AddedFresh(s0: Store, s1: Store, hs: seq<Handler>, x: NodeId, p: NodeId)
    requires p in s0 && x in s1 && x !in s0 && Extends(s0, s1) && s1[x].name != ".."
    requires Get(s0, hs, p, s1[x].name).None?
    ensures Grows(s0, Attached(s1, x, p), hs)
  {
  }

  /** Whatever its name, adding the new root x under a name get did not answer for enlarges the tree. */
  lemma AddedEnlarges(s0: Store, s1: Store, hs: seq<Handler>, x: NodeId, p: NodeId)
    requires p in s0 && x in s1 && x !in s0 && Extends(s0, s1)
    requires Get(s0, hs, p, s1[x].name).None?
    ensures Enlarges(s0, Attached(s1, x, p), hs)
  {
  }

  /** Adding a parentless node under a name get did not answer for keeps every answer get gave. */
  lemma AddGetKept(s1: Store, hs: seq<Handler>, x: NodeId, p: NodeId)
    requires x in s1 && p in s1 && x != p && s1[x].parent.None? && Get(s1, hs, p, s1[x].name).None?
    ensures GetKept(s1, Attached(s1, x, p), hs)
  {
    var s2 := Attached(s1, x, p);
    forall q, n | q in s1 && Get(s1, hs, q, n).Some?
      ensures Get(s2, hs, q, n) == Get(s1, hs, q, n)
    {
      if q == p && n != "." && n != ".." {
        assert n != s1[x].name;
      }
    }
  }

  /** The loop of Materialise: the first i children are allocated copies under x. */
  ghost predicate Built(s: Store, x: NodeId, cs: seq<Entry>, i: int)
  {
    0 <= i <= |cs| && x in s
    && s[x].children.Keys == NameSet(cs[..i])
    && forall j :: 0 <= j < i ==> cs[j].name in s[x].children && CopyOf(s, s[x].children[cs[j].name], cs[j], x + 1)
  }

  lemma BuiltStep(s1: Store, s2: Store, x: NodeId, cs: seq<Entry>, i: int, c: NodeId)
    requires Built(s1, x, cs, i) && i < |cs|
    requires forall j, k :: 0 <= j < k < |cs| ==> cs[j].name != cs[k].name
    requires Extends(s1, s2) && x < c && c !in s1
    requires CopyOf(s2, c, cs[i], c)
    ensures Built(Attached(s2, c, x), x, cs, i + 1)
  {
    var s3 := Attached(s2, c, x);
    forall j | 0 <= j < i
      ensures cs[j].name in s3[x].children && CopyOf(s3, s3[x].children[cs[j].name], cs[j], x + 1)
    {
      CopyFrame(s1, s3, s1[x].children[cs[j].name], cs[j], x + 1);
    }
    CopyLower(s2, c, cs[i], c, x + 1);
    CopyFrame(s2, s3, c, cs[i], x + 1);
    NameSetStep(cs, i);
  }

  lemma NameSetStep(cs: seq<Entry>, i: int)
    requires 0 <= i < |cs|
    ensures NameSet(cs[..i + 1]) == NameSet(cs[..i]) + {cs[i].name}
  {
    assert cs[..i + 1] == cs[..i] + [cs[i]];
  }

  lemma ExtendsAttached(s0: Store, s1: Store, s2: Store, x: NodeId, c: NodeId)
    requires Extends(s0, s1) && Extends(s1, s2) && x in s1 && c in s2 && x !in s0 && c !in s0
    ensures Extends(s0, Attached(s2, c, x))
  {
  }

  /** Loop invariant of Materialise, over the store s0 it started from. */
  ghost predicate Building(s0: Store, s: Store, x: NodeId, e: Entry, i: int)
  {
    Extends(s0, s) && x in s && x !in s0 && (forall id :: id in s0 ==> id < x)
    && Built(s, x, e.children, i)
    && s[x].name == e.name && s[x].kind == e.kind && s[x].parent.None?
  }

  lemma BuildingStep(s0: Store, s1: Store, s2: Store, x: NodeId, e: Entry, i: int, c: NodeId)
    requires Building(s0, s1, x, e, i) && i < |e.children| && Tidy(e)
    requires Extends(s1, s2) && c !in s1 && (forall id :: id in s1 ==> id < c)
    requires CopyOf(s2, c, e.children[i], c)
    ensures Building(s0, Attached(s2, c, x), x, e, i + 1)
  {
    BuiltStep(s1, s2, x, e.children, i, c);
    ExtendsAttached(s0, s1, s2, x, c);
  }

  lemma BuildingDone(s0: Store, s: Store, x: NodeId, e: Entry)
    requires Building(s0, s, x, e, |e.children|)
    ensures CopyOf(s, x, e, x)
  {
    assert e.children[..|e.children|] == e.children;
    forall j | 0 <= j < |e.children|
      ensures CopyOf(s, s[x].children[e.children[j].name], e.children[j], x)
    {
      CopyLower(s, s[x].children[e.children[j].name], e.children[j], x + 1, x);
    }
  }

  method Materialise(fs: Vfs, e: Entry) returns (x: NodeId)
    requires fs.Valid() && NoSelfParent(fs.store) && Tidy(e)
    modifies fs
    ensures fs.Valid() && NoSelfParent(fs.store)
    ensures Extends(old(fs.store), fs.store)
    ensures x !in old(fs.store) && forall id :: id in old(fs.store) ==> id < x
    ensures CopyOf(fs.store, x, e, x) && fs.store[x].parent.None?
    decreases e
  {
    x := fs.Create(e.name, e.kind);
    var i := 0;
    while i < |e.children|
      invariant fs.Valid() && NoSelfParent(fs.store)
      invariant 0 <= i <= |e.children| && Building(old(fs.store), fs.store, x, e, i)
    {
      ghost var s1 := fs.store;
      var c := Materialise(fs, e.children[i]);
      ghost var s2 := fs.store;
      ValuesBelow(s1, x, c);
      Attach(fs, x, c);
      BuildingStep(old(fs.store), s1, s2, x, e, i, c);
      i := i + 1;
    }
    BuildingDone(old(fs.store), fs.store, x, e);
  }

  lemma ValuesBelow(s: Store, x: NodeId, c: NodeId)
    requires WellFormed(s) && x in s && forall id :: id in s ==> id < c
    ensures c !in s[x].children.Values
  {
  }

  /** The loop of merge's recursive branch: the first i children are absorbed into the existing node. */
  ghost predicate MergedSoFar(s0: Store, s: Store, hs: seq<Handler>, cs: seq<Entry>, i: int, y: NodeId)
  {
    0 <= i <= |cs| && y in s0 && Grows(s0, s, hs)
    && (forall j :: 0 <= j < |cs| ==> PlainNames(cs[j]))
    && forall j :: 0 <= j < i ==> Absorbed(s, hs, cs[j], y)
  }

  lemma MergedStep(s0: Store, s1: Store, s2: Store, hs: seq<Handler>, cs: seq<Entry>, i: int, y: NodeId)
    requires MergedSoFar(s0, s1, hs, cs, i, y) && i < |cs| && Grows(s1, s2, hs)
    requires Absorbed(s2, hs, cs[i], y)
    ensures MergedSoFar(s0, s2, hs, cs, i + 1, y)
  {
    GrowsTrans(s0, s1, s2, hs);
    GrowsEnlarges(s1, s2, hs);
    forall j | 0 <= j < i ensures Absorbed(s2, hs, cs[j], y) {
      AbsorbedKept(s1, s2, hs, cs[j], y);
    }
  }

  /** After the recursive branch, get still answers the existing node, into which every child was merged. */
  lemma MergedDescent(s0: Store, s: Store, hs: seq<Handler>, e: Entry, p: NodeId, y: NodeId)
    requires MergedSoFar(s0, s, hs, e.children, |e.children|, y) && p in s0
    requires Get(s0, hs, p, e.name) == Some(y)
    ensures Merged(s0, s, hs, e, p)
  {
    GrowsGetKept(s0, s, hs);
    assert Get(s, hs, p, e.name) == Some(y);
  }

  /** After the simple branch, get answers the new root of the copy. */
  lemma AddedCopy(s0: Store, s1: Store, hs: seq<Handler>, e: Entry, x: NodeId, p: NodeId)
    requires p in s0 && Extends(s0, s1) && x in s1 && x !in s0 && (forall id :: id in s0 ==> id < x)
    requires s1[x].parent.None? && CopyOf(s1, x, e, x) && e.name != "." && e.name != ".."
    requires Get(s0, hs, p, e.name).None?
    ensures Merged(s0, Attached(s1, x, p), hs, e, p)
  {
    var s2 := Attached(s1, x, p);
    assert Get(s2, hs, p, e.name) == Some(x);
    CopyFrame(s1, s2, x, e, x);
  }

  /** What merge promises, from the store s0 before it to the store s after it. */
  ghost predicate MergeSpec(s0: Store, s: Store, hs: seq<Handler>, e: Entry, p: NodeId)
  {
    Enlarges(s0, s, hs)
    && (PlainNames(e) ==> Grows(s0, s, hs) && Merged(s0, s, hs, e, p))
    && (Present(s0, hs, e, p) ==> s == s0)
  }

  /** Loop invariant of merge's recursive branch over the store s0 it started from. */
  ghost predicate Descending(s0: Store, s: Store, hs: seq<Handler>, e: Entry, p: NodeId, y: NodeId, i: int)
  {
    0 <= i <= |e.children| && Enlarges(s0, s, hs) && y in s0 && p in s0 && Get(s0, hs, p, e.name) == Some(y)
    && (PlainNames(e) ==> MergedSoFar(s0, s, hs, e.children, i, y))
    && (Present(s0, hs, e, p) ==> s == s0)
  }

  lemma DescendingStep(s0: Store, s1: Store, s2: Store, hs: seq<Handler>, e: Entry, p: NodeId, y: NodeId, i: int)
    requires Descending(s0, s1, hs, e, p, y, i) && i < |e.children|
    requires MergeSpec(s1, s2, hs, e.children[i], y)
    ensures Descending(s0, s2, hs, e, p, y, i + 1)
  {
    EnlargesTrans(s0, s1, s2, hs);
    if PlainNames(e) {
      MergedAbsorbed(s1, s2, hs, e.children[i], y);
      MergedStep(s0, s1, s2, hs, e.children, i, y);
    }
  }

  lemma DescendingDone(s0: Store, s: Store, hs: seq<Handler>, e: Entry, p: NodeId, y: NodeId)
    requires Descending(s0, s, hs, e, p, y, |e.children|)
    ensures MergeSpec(s0, s, hs, e, p)
  {
    if PlainNames(e) {
      MergedDescent(s0, s, hs, e, p, y);
    }
  }

  lemma AddedSpec(s0: Store, s1: Store, hs: seq<Handler>, e: Entry, x: NodeId, p: NodeId)
    requires p in s0 && Extends(s0, s1) && x in s1 && x !in s0 && (forall id :: id in s0 ==> id < x) && s1[x].parent.None?
    requires CopyOf(s1, x, e, x) && Get(s0, hs, p, e.name).None?
    ensures MergeSpec(s0, Attached(s1, x, p), hs, e, p)
  {
    AddedEnlarges(s0, s1, hs, x, p);
    if PlainNames(e) {
      AddedFresh(s0, s1, hs, x, p);
      AddedCopy(s0, s1, hs, e, x, p);
    }
  }

  /**
   * merge(src, parent): add src when get(src.name) on parent answers null,
   * otherwise merge src's children into the node that answered. Whatever the
   * names, every answer get gave is kept. For a result without "." or ".."
   * names nothing is overwritten and afterwards src is absorbed, hence
   * present (AbsorbedPresent); merging what is already present changes
   * nothing, so a second merge of the same result is a no-op (MergeTwice).
   */
  method Merge(fs: Vfs, e: Entry, parent: NodeId)
    requires fs.Valid() && NoSelfParent(fs.store) && parent in fs.store && Tidy(e)
    modifies fs
    ensures fs.Valid() && NoSelfParent(fs.store)
    ensures MergeSpec(old(fs.store), fs.store, fs.handlers, e, parent)
    decreases e
  {
    ghost var s0 := fs.store;
    var existing := Get(fs.store, fs.handlers, parent, e.name);
    if existing.None? {
      var x := Materialise(fs, e);
      ghost var s1 := fs.store;
      ValuesBelow(s0, parent, x);
      Attach(fs, parent, x);
      AddedSpec(s0, s1, fs.handlers, e, x, parent);
    } else {
      var y := existing.value;
      var i := 0;
      while i < |e.children|
        invariant fs.Valid() && NoSelfParent(fs.store)
        invariant Descending(s0, fs.store, fs.handlers, e, parent, y, i)
      {
        ghost var s1 := fs.store;
        Merge(fs, e.children[i], y);
        DescendingStep(s0, s1, fs.store, fs.handlers, e, parent, y, i);
        i := i + 1;
      }
      DescendingDone(s0, fs.store, fs.handlers, e, parent, y);
    }
  }
}
