/**
 * The mutable tree (SimpleVFile): add, addAll, remove, removeAll and
 * setParent, written as the same mutually recursive methods, and the
 * two-phase path resolver query.
 *
 * An IllegalArgumentException ("file cannot be this") is the result
 * ok == false; every caller propagates it by returning at once, keeping
 * whatever the chain changed before the throw.
 */
module Tree {
  import opened Wrappers
  import opened Text
  import opened Nodes
  import opened Lookup

  /** Nodes never change identity, name or kind; the store only keeps its domain. */
  ghost predicate Preserves(s0: Store, s1: Store)
  {
    s1.Keys == s0.Keys
    && forall id | id in s0 :: s1[id].name == s0[id].name && s1[id].kind == s0[id].kind
  }

  /** What a removal chain does: it only deletes the key n from child maps. */
  ghost predicate OnlyDrops(s0: Store, s1: Store, n: string)
  {
    Preserves(s0, s1)
    && forall id | id in s0 ::
         s1[id].parent == s0[id].parent
         && (s1[id].children == s0[id].children || s1[id].children == s0[id].children - {n})
  }

  /**
   * The effect of moving f under dir: f's parent becomes dir, dir maps f's
   * name to f, other nodes at most lose their entry under that name, and
   * nothing is dropped at all when f had no parent or already had dir.
   */
  ghost predicate Moved(s0: Store, s1: Store, f: NodeId, dir: NodeId)
    requires f in s0 && dir in s0
  {
    var n := s0[f].name;
    Preserves(s0, s1)
    && s1[f].parent == Some(dir)
    && s1[dir].children == s0[dir].children[n := f]
    && ParentsKept(s0, s1, f)
    && DropsElsewhere(s0, s1, dir, n)
    && (s0[f].parent.None? || s0[f].parent == Some(dir) ==> ChildrenKept(s0, s1, dir))
  }

  /** Every node other than f keeps its parent field. */
  ghost predicate ParentsKept(s0: Store, s1: Store, f: NodeId)
    requires s0.Keys <= s1.Keys
  {
    forall id | id in s0 && id != f :: s1[id].parent == s0[id].parent
  }

  /** Every node other than dir keeps its child map or loses the entry under n. */
  ghost predicate DropsElsewhere(s0: Store, s1: Store, dir: NodeId, n: string)
    requires s0.Keys <= s1.Keys
  {
    forall id | id in s0 && id != dir ::
      s1[id].children == s0[id].children || s1[id].children == s0[id].children - {n}
  }

  /** Every node other than dir keeps its child map. */
  ghost predicate ChildrenKept(s0: Store, s1: Store, dir: NodeId)
    requires s0.Keys <= s1.Keys
  {
    forall id | id in s0 && id != dir :: s1[id].children == s0[id].children
  }

  /** No node is its own parent: then add and remove of other nodes never throw. */
  ghost predicate NoSelfParent(s: Store)
  {
    forall id | id in s :: s[id].parent != Some(id)
  }

  /** The nodes whose child map has an entry under n; a removal chain shrinks this set. */
  ghost function Holders(s: Store, n: string): set<NodeId>
  {
    set id | id in s && n in s[id].children
  }

  lemma HoldersShrink(s0: Store, s1: Store, dir: NodeId, n: string)
    requires dir in s0 && n in s0[dir].children
    requires s1 == s0[dir := s0[dir].(children := s0[dir].children - {n})]
    ensures |Holders(s1, n)| < |Holders(s0, n)|
  {
    assert Holders(s1, n) == Holders(s0, n) - {dir};
  }

  lemma OnlyDropsTrans(s0: Store, s1: Store, s2: Store, n: string)
    requires OnlyDrops(s0, s1, n) && OnlyDrops(s1, s2, n)
    ensures OnlyDrops(s0, s2, n)
  {
    forall id | id in s0
      ensures s2[id].children == s0[id].children || s2[id].children == s0[id].children - {n}
    {
      if s1[id].children == s0[id].children - {n} && s2[id].children == s1[id].children - {n} {
        assert s2[id].children == s0[id].children - {n};
      }
    }
  }

  /**
   * setParent(d) = removal chain (s0 to s1), parent := d (s2), then add,
   * which puts f under its name in d (s3): together a move of f under d.
   */
  lemma MoveCompose(s0: Store, s1: Store, s2: Store, s3: Store, f: NodeId, d: NodeId, n: string)
    requires f in s0 && d in s0 && n == s0[f].name && s0[f].parent != Some(d)
    requires OnlyDrops(s0, s1, n)
    requires s0[f].parent.None? ==> s1 == s0
    requires s2 == s1[f := s1[f].(parent := Some(d))]
    requires Moved(s2, s3, f, d) || (s3 == s2 && n in s2[d].children && s2[d].children[n] == f)
    ensures Moved(s0, s3, f, d)
    ensures ChildrenKept(s1, s3, d)
  {
    assert Preserves(s2, s3);
    assert Preserves(s0, s3) by { PreservesTrans3(s0, s1, s2, s3); }
    assert ChildrenKept(s2, s3, d);
    assert ChildrenKept(s1, s3, d);
    MoveComposeDir(s0, s1, s2, s3, f, d, n);
    assert ParentsKept(s0, s3, f);
    assert DropsElsewhere(s0, s3, d, n);
  }

  lemma MoveComposeDir(s0: Store, s1: Store, s2: Store, s3: Store, f: NodeId, d: NodeId, n: string)
    requires f in s0 && d in s0 && n == s0[f].name
    requires OnlyDrops(s0, s1, n)
    requires s2 == s1[f := s1[f].(parent := Some(d))]
    requires Moved(s2, s3, f, d) || (s3 == s2 && n in s2[d].children && s2[d].children[n] == f)
    ensures s3[d].children == s0[d].children[n := f]
  {
    assert s3[d].children == s2[d].children[n := f];
    if s1[d].children == s0[d].children - {n} {
      assert (s0[d].children - {n})[n := f] == s0[d].children[n := f];
    }
  }

  /** Recording a parent that is in the store keeps the store consistent. */
  lemma SetParentField(s: Store, hs: seq<Handler>, f: NodeId, p: NodeId)
    requires Consistent(s, hs) && f in s && p in s
    ensures Consistent(s[f := s[f].(parent := Some(p))], hs)
    ensures NoSelfParent(s) && p != f ==> NoSelfParent(s[f := s[f].(parent := Some(p))])
  {
    var s2 := s[f := s[f].(parent := Some(p))];
    assert s2.Keys == s.Keys;
  }

  /** Replacing one child map by a map whose keys name their nodes keeps the store consistent. */
  lemma ChildrenUpdate(s: Store, hs: seq<Handler>, dir: NodeId, c: map<string, NodeId>)
    requires Consistent(s, hs) && dir in s
    requires forall k | k in c :: c[k] in s && s[c[k]].name == k
    ensures Consistent(s[dir := s[dir].(children := c)], hs)
    ensures NoSelfParent(s) ==> NoSelfParent(s[dir := s[dir].(children := c)])
    ensures Preserves(s, s[dir := s[dir].(children := c)])
  {
    var s1 := s[dir := s[dir].(children := c)];
    assert s1.Keys == s.Keys;
  }

  /** The store update of removeImpl: delete the entry under n in dir. */
  lemma DropKey(s: Store, hs: seq<Handler>, dir: NodeId, n: string)
    requires Consistent(s, hs) && dir in s && n in s[dir].children
    ensures var s1 := s[dir := s[dir].(children := s[dir].children - {n})];
      Consistent(s1, hs) && OnlyDrops(s, s1, n)
      && |Holders(s1, n)| < |Holders(s, n)|
      && (NoSelfParent(s) ==> NoSelfParent(s1))
      && s[dir].children[n] in s1 && s1[s[dir].children[n]].name == n
  {
    var s1 := s[dir := s[dir].(children := s[dir].children - {n})];
    ChildrenUpdate(s, hs, dir, s[dir].children - {n});
    HoldersShrink(s, s1, dir, n);
  }

  /** The store update of addImpl when setParent reports no change: put f under its name. */
  lemma PutKey(s: Store, hs: seq<Handler>, dir: NodeId, f: NodeId)
    requires Consistent(s, hs) && dir in s && f in s
    ensures var s1 := s[dir := s[dir].(children := s[dir].children[s[f].name := f])];
      Consistent(s1, hs)
      && (NoSelfParent(s) ==> NoSelfParent(s1))
      && (s[f].parent == Some(dir) ==> Moved(s, s1, f, dir))
  {
    var s1 := s[dir := s[dir].(children := s[dir].children[s[f].name := f])];
    ChildrenUpdate(s, hs, dir, s[dir].children[s[f].name := f]);
    assert ChildrenKept(s, s1, dir);
  }

  lemma PreservesTrans3(s0: Store, s1: Store, s2: Store, s3: Store)
    requires Preserves(s0, s1) && Preserves(s1, s2) && Preserves(s2, s3)
    ensures Preserves(s0, s3)
  {
  }

  /** Everything setParent promises, for the store before (s0) and after (s). */
  ghost predicate SetParentSpec(s0: Store, s: Store, f: NodeId, np: Option<NodeId>, ok: bool, changed: bool)
    requires f in s0 && (np.Some? ==> np.value in s0)
  {
    var n := s0[f].name;
    var p := s0[f].parent;
    Preserves(s0, s)
    && (np == p ==> ok && !changed && s == s0)
    && (ok ==> (changed <==> np != p))
    && (np.None? ==> OnlyDrops(s0, s, n))
    && (np.Some? && np != p && ok ==> Moved(s0, s, f, np.value))
    && (p.Some? && p != Some(f) && p.value in s && np != p && ok ==> n !in s[p.value].children)
    && (NoSelfParent(s0) && np != Some(f) ==> ok && NoSelfParent(s))
  }

  /** setParent stopped by an exception from the removal. */
  lemma SetParentStopped(s0: Store, s1: Store, f: NodeId, np: Option<NodeId>)
    requires f in s0 && (np.Some? ==> np.value in s0) && np != s0[f].parent && s0[f].parent.Some?
    requires OnlyDrops(s0, s1, s0[f].name)
    requires s0[f].parent.value != f && NoSelfParent(s0) ==> false
    ensures SetParentSpec(s0, s1, f, np, false, false)
  {
  }

  /** setParent(null) after the removal from the old parent. */
  lemma SetParentDetached(s0: Store, s1: Store, f: NodeId)
    requires f in s0 && s0[f].parent.Some?
    requires OnlyDrops(s0, s1, s0[f].name)
    requires s0[f].parent.value in s1 && s0[f].parent.value != f ==> s0[f].name !in s1[s0[f].parent.value].children
    requires NoSelfParent(s0) ==> s0[f].parent.value != f
    ensures SetParentSpec(s0, s1, f, None, true, true)
  {
  }

  /** setParent(d) stopped by an exception from d.add. */
  lemma SetParentAddFailed(s0: Store, s1: Store, s2: Store, s3: Store, f: NodeId, d: NodeId)
    requires f in s0 && d in s0 && Some(d) != s0[f].parent
    requires OnlyDrops(s0, s1, s0[f].name)
    requires s2 == s1[f := s1[f].(parent := Some(d))]
    requires Preserves(s2, s3)
    requires d != f && NoSelfParent(s2) ==> false
    requires NoSelfParent(s0) ==> NoSelfParent(s1)
    ensures SetParentSpec(s0, s3, f, Some(d), false, false)
  {
    PreservesTrans3(s0, s1, s2, s3);
  }

  /** The successful non-null branch of setParent, from the four stores it passes through. */
  lemma SetParentMoves(s0: Store, s1: Store, s2: Store, s3: Store, f: NodeId, d: NodeId, n: string)
    requires f in s0 && d in s0 && d != f && n == s0[f].name && s0[f].parent != Some(d)
    requires OnlyDrops(s0, s1, n)
    requires s0[f].parent.None? ==> s1 == s0
    requires s0[f].parent.Some? && s0[f].parent != Some(f) && s0[f].parent.value in s1 ==> n !in s1[s0[f].parent.value].children
    requires s0[f].parent.Some? ==> (NoSelfParent(s0) ==> s0[f].parent != Some(f))
    requires s2 == s1[f := s1[f].(parent := Some(d))]
    requires Moved(s2, s3, f, d) || (s3 == s2 && n in s2[d].children && s2[d].children[n] == f)
    requires NoSelfParent(s0) ==> NoSelfParent(s3)
    ensures SetParentSpec(s0, s3, f, Some(d), true, true)
  {
    MoveCompose(s0, s1, s2, s3, f, d, n);
  }

  /** Child maps only lose entries, all under names in the given set; nothing else changes. */
  ghost predicate Shrinks(s0: Store, s1: Store, names: set<string>)
  {
    Preserves(s0, s1)
    && forall id | id in s0 ::
         s1[id].parent == s0[id].parent
         && (forall k | k in s1[id].children :: k in s0[id].children && s1[id].children[k] == s0[id].children[k])
         && (forall k | k in s0[id].children && k !in s1[id].children :: k in names)
  }

  lemma ShrinksStep(s0: Store, s1: Store, s2: Store, names: set<string>, n: string)
    requires Shrinks(s0, s1, names) && OnlyDrops(s1, s2, n)
    ensures Shrinks(s0, s2, names + {n})
  {
  }

  /** The last node of fs carrying the name of fs[j] is fs[j] itself. */
  ghost predicate LastOfName(s: Store, fs: seq<NodeId>, j: int)
    requires 0 <= j < |fs| && forall i :: 0 <= i < |fs| ==> fs[i] in s
  {
    forall k :: j < k < |fs| ==> s[fs[k]].name != s[fs[j]].name
  }

  /** After a successful move, looking the name up in the new parent finds the moved node. */
  lemma GetAfterMove(s0: Store, s1: Store, hs: seq<Handler>, f: NodeId, d: NodeId)
    requires f in s0 && d in s0 && Moved(s0, s1, f, d)
    requires s0[f].name != "." && s0[f].name != ".."
    ensures Get(s1, hs, d, s0[f].name) == Some(f)
    ensures s1[f].parent == Some(d)
  {
  }

  /** After remove, the name is gone from the child map, so get falls through to the handlers. */
  lemma GetAfterRemove(s: Store, hs: seq<Handler>, d: NodeId, n: string)
    requires d in s && n !in s[d].children && n != "." && n != ".."
    ensures Get(s, hs, d, n) == FirstHandled(hs, d, n)
  {
  }

  /** Names of the first i nodes of fs, as recorded in s. */
  ghost function NamesOf(s: Store, fs: seq<NodeId>, i: int): set<string>
    requires 0 <= i <= |fs| && forall j :: 0 <= j < |fs| ==> fs[j] in s
  {
    set j | 0 <= j < i :: s[fs[j]].name
  }

  /** Loop invariant of addAll: each name of the first i nodes maps to the last of them carrying it. */
  ghost predicate AddedSoFar(s0: Store, s: Store, fs: seq<NodeId>, i: int, dir: NodeId)
  {
    0 <= i <= |fs| && dir in s0 && (forall j :: 0 <= j < |fs| ==> fs[j] in s0) && Preserves(s0, s)
    && forall j :: 0 <= j < i && LastOfName(s0, fs[..i], j) ==>
         s0[fs[j]].name in s[dir].children && s[dir].children[s0[fs[j]].name] == fs[j]
  }

  lemma AddAllStep(s0: Store, s1: Store, s2: Store, fs: seq<NodeId>, i: int, dir: NodeId)
    requires AddedSoFar(s0, s1, fs, i, dir) && i < |fs| && WellFormed(s1) && Preserves(s1, s2)
    requires fs[i] in s1[dir].children.Values ==> s2 == s1
    requires fs[i] !in s1[dir].children.Values ==> Moved(s1, s2, fs[i], dir)
    ensures AddedSoFar(s0, s2, fs, i + 1, dir)
  {
    forall j | 0 <= j < i + 1 && LastOfName(s0, fs[..i + 1], j)
      ensures s0[fs[j]].name in s2[dir].children && s2[dir].children[s0[fs[j]].name] == fs[j]
    {
      if j < i {
        LastOfNamePrefix(s0, fs, i, j);
        AddAllKept(s0, s1, s2, fs, i, dir, j);
      } else {
        AddAllNewest(s0, s1, s2, fs, i, dir);
      }
    }
  }

  /** An earlier node whose name fs[i] does not carry keeps its entry. */
  lemma AddAllKept(s0: Store, s1: Store, s2: Store, fs: seq<NodeId>, i: int, dir: NodeId, j: int)
    requires AddedSoFar(s0, s1, fs, i, dir) && i < |fs| && WellFormed(s1) && Preserves(s1, s2)
    requires fs[i] in s1[dir].children.Values ==> s2 == s1
    requires fs[i] !in s1[dir].children.Values ==> Moved(s1, s2, fs[i], dir)
    requires 0 <= j < i && LastOfName(s0, fs[..i], j) && s0[fs[i]].name != s0[fs[j]].name
    ensures s0[fs[j]].name in s2[dir].children && s2[dir].children[s0[fs[j]].name] == fs[j]
  {
  }

  /** fs[i] itself is then the entry under its name. */
  lemma AddAllNewest(s0: Store, s1: Store, s2: Store, fs: seq<NodeId>, i: int, dir: NodeId)
    requires AddedSoFar(s0, s1, fs, i, dir) && i < |fs| && WellFormed(s1) && Preserves(s1, s2)
    requires fs[i] in s1[dir].children.Values ==> s2 == s1
    requires fs[i] !in s1[dir].children.Values ==> Moved(s1, s2, fs[i], dir)
    ensures s0[fs[i]].name in s2[dir].children && s2[dir].children[s0[fs[i]].name] == fs[i]
  {
    if fs[i] in s1[dir].children.Values {
      ValueKey(s1, dir, fs[i]);
    }
  }

  lemma LastOfNamePrefix(s0: Store, fs: seq<NodeId>, i: int, j: int)
    requires 0 <= j < i < |fs| && forall k :: 0 <= k < |fs| ==> fs[k] in s0
    requires LastOfName(s0, fs[..i + 1], j)
    ensures s0[fs[i]].name != s0[fs[j]].name && LastOfName(s0, fs[..i], j)
  {
    assert fs[..i + 1][i] == fs[i];
    forall k | j < k < i ensures s0[fs[..i][k]].name != s0[fs[..i][j]].name {
      assert fs[..i + 1][k] == fs[k];
    }
  }

  lemma AddAllDone(s0: Store, s: Store, fs: seq<NodeId>, i: int, dir: NodeId)
    requires AddedSoFar(s0, s, fs, i, dir) && i == |fs|
    ensures forall j :: 0 <= j < |fs| && LastOfName(s0, fs, j) ==>
              s0[fs[j]].name in s[dir].children && s[dir].children[s0[fs[j]].name] == fs[j]
  {
    assert fs[..|fs|] == fs;
  }

  /** c1 keeps every entry of c0 it still has, and lost only keys in names. */
  ghost predicate ShrunkTo(c0: map<string, NodeId>, c1: map<string, NodeId>, names: set<string>)
  {
    (forall k | k in c1 :: k in c0 && c1[k] == c0[k])
    && forall k | k in c0 && k !in c1 :: k in names
  }

  /**
   * What addImpl on the first i nodes can have changed, and no more: dir
   * keeps its entries except under their names and gains keys only under
   * their names; every other child map only loses entries under their
   * names; only these nodes may have a new parent, and it is dir.
   */
  ghost predicate AddBound(s0: Store, s: Store, fs: seq<NodeId>, i: int, dir: NodeId)
  {
    0 <= i <= |fs| && dir in s0 && (forall j :: 0 <= j < |fs| ==> fs[j] in s0) && Preserves(s0, s)
    && var names := NamesOf(s0, fs, i);
       (forall id | id in s0 && id !in fs[..i] :: s[id].parent == s0[id].parent)
       && (forall j :: 0 <= j < i ==> s[fs[j]].parent == Some(dir) || s[fs[j]].parent == s0[fs[j]].parent)
       && (forall id | id in s0 && id != dir :: ShrunkTo(s0[id].children, s[id].children, names))
       && s0[dir].children.Keys <= s[dir].children.Keys <= s0[dir].children.Keys + names
       && (forall k | k in s0[dir].children && k !in names :: s[dir].children[k] == s0[dir].children[k])
  }

  /** One addImpl that either changed nothing or moved fs[i] under dir keeps the bound for one more node. */
  lemma AddBoundStep(s0: Store, s1: Store, s2: Store, fs: seq<NodeId>, i: int, dir: NodeId)
    requires AddBound(s0, s1, fs, i, dir) && i < |fs| && Preserves(s1, s2)
    requires s2 == s1 || Moved(s1, s2, fs[i], dir)
    ensures AddBound(s0, s2, fs, i + 1, dir)
  {
    var n := s0[fs[i]].name;
    assert NamesOf(s0, fs, i + 1) == NamesOf(s0, fs, i) + {n};
    assert fs[..i + 1] == fs[..i] + [fs[i]];
    if s2 != s1 {
      AddBoundMoved(s0, s1, s2, fs, i, dir);
    }
  }

  lemma AddBoundMoved(s0: Store, s1: Store, s2: Store, fs: seq<NodeId>, i: int, dir: NodeId)
    requires AddBound(s0, s1, fs, i, dir) && i < |fs| && Moved(s1, s2, fs[i], dir)
    requires NamesOf(s0, fs, i + 1) == NamesOf(s0, fs, i) + {s0[fs[i]].name}
    requires fs[..i + 1] == fs[..i] + [fs[i]]
    ensures AddBound(s0, s2, fs, i + 1, dir)
  {
    var names := NamesOf(s0, fs, i + 1);
    forall id | id in s0 && id != dir ensures ShrunkTo(s0[id].children, s2[id].children, names) {
      assert s2[id].children == s1[id].children || s2[id].children == s1[id].children - {s0[fs[i]].name};
    }
  }

  /** Loop invariant of removeAll: the names of the first i nodes are gone from dir, nothing else was added. */
  ghost predicate RemovedSoFar(s0: Store, s: Store, fs: seq<NodeId>, i: int, dir: NodeId)
  {
    0 <= i <= |fs| && dir in s0 && (forall j :: 0 <= j < |fs| ==> fs[j] in s0)
    && Shrinks(s0, s, NamesOf(s0, fs, i))
    && forall j :: 0 <= j < i ==> s0[fs[j]].name !in s[dir].children
  }

  lemma RemoveAllStep(s0: Store, s1: Store, s2: Store, fs: seq<NodeId>, i: int, dir: NodeId)
    requires RemovedSoFar(s0, s1, fs, i, dir) && i < |fs|
    requires OnlyDrops(s1, s2, s0[fs[i]].name)
    requires s2[dir].children == s1[dir].children - {s0[fs[i]].name}
    ensures RemovedSoFar(s0, s2, fs, i + 1, dir)
  {
    NamesStep(s0, s1, s2, fs, i);
    assert forall j :: 0 <= j < i + 1 ==> s0[fs[j]].name !in s2[dir].children;
  }

  lemma NamesStep(s0: Store, s1: Store, s2: Store, fs: seq<NodeId>, i: int)
    requires 0 <= i < |fs| && (forall j :: 0 <= j < |fs| ==> fs[j] in s0)
    requires Shrinks(s0, s1, NamesOf(s0, fs, i)) && OnlyDrops(s1, s2, s0[fs[i]].name)
    ensures Shrinks(s0, s2, NamesOf(s0, fs, i + 1))
  {
    ShrinksStep(s0, s1, s2, NamesOf(s0, fs, i), s0[fs[i]].name);
    assert NamesOf(s0, fs, i + 1) == NamesOf(s0, fs, i) + {s0[fs[i]].name};
  }

  lemma RemoveAllStop(s0: Store, s: Store, fs: seq<NodeId>, i: int, dir: NodeId)
    requires RemovedSoFar(s0, s, fs, i, dir)
    ensures Shrinks(s0, s, NamesOf(s0, fs, |fs|))
  {
  }

  /** The stack loop of query: "" and "." are skipped, ".." pops when it can, anything else is pushed. */
  method PushPieces(split: seq<string>) returns (stack: seq<string>)
    ensures stack == Stack(split)
  {
    stack := [];
    var i := 0;
    while i < |split|
      invariant 0 <= i <= |split|
      invariant stack == Stack(split[..i])
    {
      assert split[..i + 1][..i] == split[..i];
      var token := split[i];
      if token == "" || token == "." {
      } else if token == ".." {
        if |stack| > 0 {
          stack := stack[..|stack| - 1];
        }
      } else {
        stack := stack + [token];
      }
      i := i + 1;
    }
    assert split[..i] == split;
  }

  class Vfs {
    var store: Store
    const handlers: seq<Handler>

    ghost predicate Valid()
      reads this
    {
      Consistent(store, handlers)
    }

    constructor (s: Store, hs: seq<Handler>)
      requires Consistent(s, hs)
      ensures Valid() && store == s && handlers == hs
    {
      store := s;
      handlers := hs;
    }

    /**
     * A new node object (the constructors of MockFile, ZipFile, LocalFile,
     * Files): detached, childless, under an identity no node has yet.
     */
    method Create(name: string, kind: Kind) returns (id: NodeId)
      requires Valid()
      modifies this
      ensures Valid()
      ensures id == FreshId(old(store))
      ensures id !in old(store) && forall x :: x in old(store) ==> x < id
      ensures store == old(store)[id := Detached(name, kind)]
      ensures old(NoSelfParent(store)) ==> NoSelfParent(store)
    {
      id := FreshId(store);
      store := store[id := Detached(name, kind)];
    }

    /** remove(f): refuses the node itself, otherwise removes under f's name. */
    method Remove(dir: NodeId, f: NodeId) returns (ok: bool)
      requires Valid() && dir in store && f in store
      modifies this
      decreases 1, |Holders(store, store[f].name)|, 2
      ensures Valid()
      ensures OnlyDrops(old(store), store, old(store[f].name))
      ensures f == dir ==> !ok && store == old(store)
      ensures f != dir ==> store[dir].children == old(store[dir].children) - {old(store[f].name)}
      ensures f != dir && old(NoSelfParent(store)) ==> ok
    {
      if f == dir {
        return false;
      }
      ok := RemoveImpl(dir, f);
    }

    /**
     * removeImpl(f): deletes whatever is stored under f's name and calls
     * setParent(null) on it, which detaches it from its recorded parent
     * but never clears the parent field.
     */
    method RemoveImpl(dir: NodeId, f: NodeId) returns (ok: bool)
      requires Valid() && dir in store && f in store
      modifies this
      decreases 1, |Holders(store, store[f].name)|, 1
      ensures Valid()
      ensures OnlyDrops(old(store), store, old(store[f].name))
      ensures store[dir].children == old(store[dir].children) - {old(store[f].name)}
      ensures old(NoSelfParent(store)) ==> ok
    {
      var n := store[f].name;
      if n !in store[dir].children {
        return true;
      }
      var removed := store[dir].children[n];
      ghost var s0 := store;
      DropKey(store, handlers, dir, n);
      store := store[dir := store[dir].(children := store[dir].children - {n})];
      ghost var s1 := store;
      var changed;
      ok, changed := SetParent(removed, None);
      OnlyDropsTrans(s0, s1, store, n);
    }

    /**
     * setParent(p): false and no change when p is already the parent;
     * otherwise removes the node from its current parent, and for a non-null
     * p records p and adds the node to it.
     */
    method SetParent(f: NodeId, np: Option<NodeId>) returns (ok: bool, changed: bool)
      requires Valid() && f in store && (np.Some? ==> np.value in store)
      modifies this
      decreases (if store[f].parent == np then 0 else 1), |Holders(store, store[f].name)|, 3
      ensures Valid() && SetParentSpec(old(store), store, f, np, ok, changed)
    {
      ghost var s0 := store;
      if np == store[f].parent {
        return true, false;
      }
      var n := store[f].name;
      if store[f].parent.Some? {
        ok := Remove(store[f].parent.value, f);
        if !ok {
          SetParentStopped(s0, store, f, np);
          return false, false;
        }
      }
      ghost var s1 := store;
      if np.None? {
        SetParentDetached(s0, s1, f);
        return true, true;
      }
      SetParentField(store, handlers, f, np.value);
      store := store[f := store[f].(parent := np)];
      ghost var s2 := store;
      ok := Add(np.value, f);
      if !ok {
        SetParentAddFailed(s0, s1, s2, store, f, np.value);
        return false, false;
      }
      if f in s2[np.value].children.Values {
        ValueKey(s2, np.value, f);
      }
      SetParentMoves(s0, s1, s2, store, f, np.value, n);
      return true, true;
    }

    /** add(f): refuses the node itself ("file cannot be this"), otherwise addImpl. */
    method Add(dir: NodeId, f: NodeId) returns (ok: bool)
      requires Valid() && dir in store && f in store
      modifies this
      decreases (if store[f].parent == Some(dir) then 0 else 1), |Holders(store, store[f].name)|, 5
      ensures Valid() && Preserves(old(store), store)
      ensures f == dir ==> !ok && store == old(store)
      ensures f != dir && f in old(store[dir].children.Values) ==> ok && store == old(store)
      ensures f != dir && f !in old(store[dir].children.Values) && ok ==> Moved(old(store), store, f, dir)
      ensures old(store[f].parent).Some? && old(store[f].parent) != Some(f) && old(store[f].parent) != Some(dir)
              && f != dir && f !in old(store[dir].children.Values) && ok ==>
                old(store[f].name) !in store[old(store[f].parent).value].children
      ensures f != dir && old(NoSelfParent(store)) ==> ok && NoSelfParent(store)
    {
      if f == dir {
        return false;
      }
      ok := AddImpl(dir, f);
    }

    /**
     * addImpl(f): nothing when f is already a value of the child map;
     * otherwise setParent(this), and when that reports no change (this was
     * already the parent) the entry is put directly.
     */
    method AddImpl(dir: NodeId, f: NodeId) returns (ok: bool)
      requires Valid() && dir in store && f in store
      modifies this
      decreases (if store[f].parent == Some(dir) then 0 else 1), |Holders(store, store[f].name)|, 4
      ensures Valid() && Preserves(old(store), store)
      ensures f in old(store[dir].children.Values) ==> ok && store == old(store)
      ensures f !in old(store[dir].children.Values) && ok ==> Moved(old(store), store, f, dir)
      ensures old(store[f].parent).Some? && old(store[f].parent) != Some(f) && old(store[f].parent) != Some(dir)
              && f !in old(store[dir].children.Values) && ok ==>
                old(store[f].name) !in store[old(store[f].parent).value].children
      ensures f != dir && old(NoSelfParent(store)) ==> ok && NoSelfParent(store)
    {
      if f in store[dir].children.Values {
        return true;
      }
      var changed;
      ok, changed := SetParent(f, Some(dir));
      if ok && !changed {
        PutKey(store, handlers, dir, f);
        store := store[dir := store[dir].(children := store[dir].children[store[f].name := f])];
      }
    }

    /**
     * addAll(files): addImpl for each node in order, without the self check,
     * under one lock. Afterwards each name maps to the last node of that name.
     */
    method AddAll(dir: NodeId, fs: seq<NodeId>) returns (ok: bool)
      requires Valid() && dir in store && forall i :: 0 <= i < |fs| ==> fs[i] in store
      modifies this
      ensures Valid() && Preserves(old(store), store)
      ensures old(NoSelfParent(store)) && dir !in fs ==> ok
      ensures ok ==> forall j :: 0 <= j < |fs| && LastOfName(old(store), fs, j) ==>
                old(store)[fs[j]].name in store[dir].children && store[dir].children[old(store)[fs[j]].name] == fs[j]
      ensures ok ==> AddBound(old(store), store, fs, |fs|, dir)
    {
      ghost var s0 := store;
      ghost var tidy := NoSelfParent(s0) && dir !in fs;
      ok := true;
      var i := 0;
      while ok && i < |fs|
        invariant Valid() && Preserves(s0, store) && 0 <= i <= |fs|
        invariant ok ==> AddedSoFar(s0, store, fs, i, dir) && AddBound(s0, store, fs, i, dir)
        invariant tidy ==> ok && NoSelfParent(store)
      {
        ok := AddNext(s0, dir, fs, i, tidy);
        i := i + 1;
      }
      if ok {
        AddAllDone(s0, store, fs, i, dir);
      }
    }

    /** One round of addAll's loop: addImpl on fs[i], keeping the loop invariant when it succeeds. */
    method AddNext(ghost s0: Store, dir: NodeId, fs: seq<NodeId>, i: int, ghost tidy: bool) returns (ok: bool)
      requires Valid() && AddedSoFar(s0, store, fs, i, dir) && AddBound(s0, store, fs, i, dir) && i < |fs|
      requires tidy ==> dir !in fs && NoSelfParent(store)
      modifies this
      ensures Valid() && Preserves(s0, store)
      ensures ok ==> AddedSoFar(s0, store, fs, i + 1, dir) && AddBound(s0, store, fs, i + 1, dir)
      ensures tidy ==> ok && NoSelfParent(store)
    {
      ghost var before := store;
      assert fs[i] in fs;
      ok := AddImpl(dir, fs[i]);
      if ok {
        AddAllStep(s0, before, store, fs, i, dir);
        AddBoundStep(s0, before, store, fs, i, dir);
      } else {
        PreservesTrans3(s0, before, store, store);
      }
    }

    /**
     * removeAll(files): removeImpl for each node in order, without the self
     * check. Afterwards none of their names is in the child map, and the
     * whole tree has only lost entries under those names.
     */
    method RemoveAll(dir: NodeId, fs: seq<NodeId>) returns (ok: bool)
      requires Valid() && dir in store && forall i :: 0 <= i < |fs| ==> fs[i] in store
      modifies this
      ensures Valid()
      ensures Shrinks(old(store), store, NamesOf(old(store), fs, |fs|))
      ensures old(NoSelfParent(store)) ==> ok
      ensures ok ==> forall i :: 0 <= i < |fs| ==> old(store)[fs[i]].name !in store[dir].children
    {
      ghost var s0 := store;
      ok := true;
      var i := 0;
      while i < |fs|
        invariant Valid() && RemovedSoFar(s0, store, fs, i, dir)
        invariant NoSelfParent(s0) ==> NoSelfParent(store)
      {
        ghost var before := store;
        ok := RemoveImpl(dir, fs[i]);
        RemoveAllStep(s0, before, store, fs, i, dir);
        if !ok {
          RemoveAllStop(s0, store, fs, i + 1, dir);
          return;
        }
        i := i + 1;
      }
      RemoveAllStop(s0, store, fs, i, dir);
    }

    /**
     * query(path) (SimpleVFile.kt): a single piece is looked up with get;
     * otherwise the pieces are pushed onto a stack ("" and "." skipped, ".."
     * popping when possible) and get is folded over the stack.
     */
    method Query(id: NodeId, path: string) returns (r: Option<NodeId>)
      requires Valid() && id in store
      ensures r == QueryOf(store, handlers, id, path)
      ensures r.Some? ==> r.value in store
    {
      var split := JavaSplit(path, '/');
      if |split| == 1 {
        return Get(store, handlers, id, path);
      }
      var stack := PushPieces(split);
      r := GetAll(id, stack);
    }

    /** The fold of get over the stack, from id; null as soon as one lookup fails. */
    method GetAll(id: NodeId, stack: seq<string>) returns (r: Option<NodeId>)
      requires Valid() && id in store
      ensures r == Resolve(store, handlers, id, stack)
      ensures r.Some? ==> r.value in store
    {
      var cur := id;
      var j := 0;
      while j < |stack|
        invariant 0 <= j <= |stack| && cur in store
        invariant Resolve(store, handlers, id, stack) == Resolve(store, handlers, cur, stack[j..])
      {
        var next := Get(store, handlers, cur, stack[j]);
        assert stack[j..][1..] == stack[j + 1..];
        if next.None? {
          return None;
        }
        cur := next.value;
        j := j + 1;
      }
      return Some(cur);
    }
  }
}
