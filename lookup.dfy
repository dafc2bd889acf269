/**
 * Read-only lookups on the tree (SimpleVFile): single-name get, the path
 * resolver query (Kotlin version), child enumeration and the recursive find.
 */
module Lookup {
  import opened Wrappers
  import opened Text
  import opened Nodes

  /**
   * A missing-file handler (MissingFileHandler.handle): asked with the
   * directory and the name that was not in its child map; None declines.
   */
  type Handler = (NodeId, string) -> Option<NodeId>

  /** Every node a handler can return is a node of the store. */
  ghost predicate HandlersClosed(s: Store, hs: seq<Handler>)
  {
    forall i, id, name | 0 <= i < |hs| :: hs[i](id, name).Some? ==> hs[i](id, name).value in s
  }

  ghost predicate Consistent(s: Store, hs: seq<Handler>)
  {
    WellFormed(s) && HandlersClosed(s, hs)
  }

  /** The handler loop: handlers in registration order, the first non-null answer wins. */
  function FirstHandled(hs: seq<Handler>, id: NodeId, name: string): (r: Option<NodeId>)
    ensures r.None? <==> forall i :: 0 <= i < |hs| ==> hs[i](id, name).None?
    ensures r.Some? ==> exists i :: 0 <= i < |hs| && hs[i](id, name) == r
                                   && forall j :: 0 <= j < i ==> hs[j](id, name).None?
    decreases |hs|
  {
    if |hs| == 0 then None
    else if hs[0](id, name).Some? then hs[0](id, name)
    else
      var r := FirstHandled(hs[1..], id, name);
      assert forall i :: 1 <= i < |hs| ==> hs[i] == hs[1..][i - 1];
      r
  }

  /**
   * get(name): "." is the node itself and ".." its parent field, without
   * looking at children or handlers; a name in the child map comes next; the
   * handlers are asked only for a name that is not in the child map.
   */
  function Get(s: Store, hs: seq<Handler>, id: NodeId, name: string): (r: Option<NodeId>)
    requires id in s
    ensures Consistent(s, hs) && r.Some? ==> r.value in s
    ensures name == "." ==> r == Some(id)
    ensures name == ".." ==> r == s[id].parent
    ensures name != "." && name != ".." && name in s[id].children ==> r == Some(s[id].children[name])
    ensures name != "." && name != ".." && name !in s[id].children ==> r == FirstHandled(hs, id, name)
  {
    if name == "." then Some(id)
    else if name == ".." then s[id].parent
    else if name in s[id].children then Some(s[id].children[name])
    else FirstHandled(hs, id, name)
  }

  // ---------------------------------------------------------------------
  // Path resolution (SimpleVFile.kt query).
  // ---------------------------------------------------------------------

  /**
   * The stack the resolver builds from the split pieces: "" and "." are
   * skipped, ".." pops a non-empty stack and is otherwise ignored.
   */
  function Stack(pieces: seq<string>): (r: seq<string>)
    ensures forall i :: 0 <= i < |r| ==> r[i] != "" && r[i] != "." && r[i] != ".."
    ensures forall i :: 0 <= i < |r| ==> r[i] in pieces
    ensures |r| <= |pieces|
    decreases |pieces|
  {
    if |pieces| == 0 then []
    else
      var st := Stack(pieces[..|pieces| - 1]);
      var p := pieces[|pieces| - 1];
      if p == "" || p == "." then st
      else if p == ".." then (if |st| > 0 then st[..|st| - 1] else st)
      else st + [p]
  }

  /** Folding get over the names from the start node; None at the first miss. */
  function Resolve(s: Store, hs: seq<Handler>, id: NodeId, names: seq<string>): (r: Option<NodeId>)
    requires Consistent(s, hs) && id in s
    ensures r.Some? ==> r.value in s
    ensures names == [] ==> r == Some(id)
    decreases |names|
  {
    if |names| == 0 then Some(id)
    else match Get(s, hs, id, names[0])
      case None => None
      case Some(next) => Resolve(s, hs, next, names[1..])
  }

  /** query(path): one piece is looked up with get; otherwise the stack is resolved. */
  function QueryOf(s: Store, hs: seq<Handler>, id: NodeId, path: string): (r: Option<NodeId>)
    requires Consistent(s, hs) && id in s
    ensures r.Some? ==> r.value in s
  {
    var split := JavaSplit(path, '/');
    if |split| == 1 then Get(s, hs, id, path) else Resolve(s, hs, id, Stack(split))
  }

  /** Resolving a concatenation resolves the first part, then the rest from where it stopped. */
  lemma {:induction false} ResolveAppend(s: Store, hs: seq<Handler>, id: NodeId, a: seq<string>, b: seq<string>)
    requires Consistent(s, hs) && id in s
    ensures Resolve(s, hs, id, a + b) ==
              match Resolve(s, hs, id, a)
              case None => None
              case Some(x) => Resolve(s, hs, x, b)
    decreases |a|
  {
    if |a| == 0 {
      assert a + b == b;
    } else {
      assert (a + b)[0] == a[0];
      assert (a + b)[1..] == a[1..] + b;
      match Get(s, hs, id, a[0])
      case None =>
      case Some(next) => ResolveAppend(s, hs, next, a[1..], b);
    }
  }

  /**
   * Resolution never climbs: every step of a stack is a child-map lookup or a
   * handler answer, never "." or "..".
   */
  lemma {:induction false} ResolveDescends(s: Store, hs: seq<Handler>, id: NodeId, names: seq<string>)
    requires Consistent(s, hs) && id in s
    requires |names| > 0
    requires forall i :: 0 <= i < |names| ==> names[i] != "." && names[i] != ".."
    ensures Resolve(s, hs, id, names) ==
              match (if names[0] in s[id].children then Some(s[id].children[names[0]])
                     else FirstHandled(hs, id, names[0]))
              case None => None
              case Some(x) => Resolve(s, hs, x, names[1..])
  {
  }

  /** A plain path segment: something the resolver keeps on its stack. */
  predicate Plain(name: string)
  {
    name != "" && name != "." && name != ".." && '/' !in name
  }

  lemma JoinWithCons(x: string, rest: seq<string>, c: char)
    requires |rest| >= 1
    ensures JoinWith([x] + rest, c) == x + [c] + JoinWith(rest, c)
  {
    assert ([x] + rest)[1..] == rest;
  }

  lemma SplitPlain(pieces: seq<string>)
    requires |pieces| >= 2
    requires forall i :: 0 <= i < |pieces| ==> '/' !in pieces[i]
    requires pieces[|pieces| - 1] != ""
    ensures JavaSplit(JoinWith(pieces, '/'), '/') == pieces
  {
    JoinSplitAll(pieces, '/');
    var s := JoinWith(pieces, '/');
    assert s == pieces[0] + ['/'] + JoinWith(pieces[1..], '/');
    assert s[|pieces[0]|] == '/';
  }

  lemma DotSegmentsText(a: string, b: string, c: string)
    ensures JoinWith([a, ".", b, "..", c], '/') == a + "/./" + b + "/../" + c
  {
    JoinWithCons("..", [c], '/');
    assert [".."] + [c] == ["..", c];
    JoinWithCons(b, ["..", c], '/');
    assert [b] + ["..", c] == [b, "..", c];
    JoinWithCons(".", [b, "..", c], '/');
    assert ["."] + [b, "..", c] == [".", b, "..", c];
    JoinWithCons(a, [".", b, "..", c], '/');
    assert [a] + [".", b, "..", c] == [a, ".", b, "..", c];
  }

  lemma PairText(a: string, c: string)
    ensures JoinWith([a, c], '/') == a + "/" + c
  {
    JoinWithCons(a, [c], '/');
    assert [a] + [c] == [a, c];
  }

  lemma DotSegmentsStack(a: string, b: string, c: string)
    requires Plain(a) && Plain(b) && Plain(c)
    ensures Stack([a, ".", b, "..", c]) == [a, c]
    ensures Stack([a, c]) == [a, c]
  {
    assert Stack([a]) == [a] by { assert [a][..0] == []; }
    assert Stack([a, "."]) == [a] by { assert [a, "."][..1] == [a]; }
    assert Stack([a, ".", b]) == [a, b] by { assert [a, ".", b][..2] == [a, "."]; }
    assert Stack([a, ".", b, ".."]) == [a] by { assert [a, ".", b, ".."][..3] == [a, ".", b]; }
    assert [a, ".", b, "..", c][..4] == [a, ".", b, ".."];
    assert [a, c][..1] == [a];
  }

  /** query("a/./b/../c") is query("a/c"): "." segments vanish and ".." cancels the segment before it. */
  lemma QueryDotSegments(s: Store, hs: seq<Handler>, id: NodeId, a: string, b: string, c: string)
    requires Consistent(s, hs) && id in s
    requires Plain(a) && Plain(b) && Plain(c)
    ensures QueryOf(s, hs, id, a + "/./" + b + "/../" + c) == QueryOf(s, hs, id, a + "/" + c)
  {
    DotSegmentsText(a, b, c);
    PairText(a, c);
    SplitPlain([a, ".", b, "..", c]);
    SplitPlain([a, c]);
    DotSegmentsStack(a, b, c);
  }

  lemma LeadingParentsText(x: string)
    ensures JoinWith(["..", "..", x], '/') == "../../" + x
  {
    JoinWithCons("..", [x], '/');
    assert [".."] + [x] == ["..", x];
    JoinWithCons("..", ["..", x], '/');
    assert [".."] + ["..", x] == ["..", "..", x];
  }

  lemma LeadingParentsStack(x: string)
    requires Plain(x)
    ensures Stack(["..", "..", x]) == [x]
  {
    assert Stack([".."]) == [] by { assert [".."][..0] == []; }
    assert Stack(["..", ".."]) == [] by { assert ["..", ".."][..1] == [".."]; }
    assert ["..", "..", x][..2] == ["..", ".."];
  }

  /** query("../../x") is query("x"): ".." on an empty stack is ignored, so resolution stays at the start. */
  lemma QueryLeadingParents(s: Store, hs: seq<Handler>, id: NodeId, x: string)
    requires Consistent(s, hs) && id in s
    requires Plain(x)
    ensures QueryOf(s, hs, id, "../../" + x) == QueryOf(s, hs, id, x)
    ensures QueryOf(s, hs, id, x) == Get(s, hs, id, x)
  {
    LeadingParentsText(x);
    SplitPlain(["..", "..", x]);
    LeadingParentsStack(x);
  }

  // ---------------------------------------------------------------------
  // Child enumeration and recursive find.
  // ---------------------------------------------------------------------

  /** list(): the children, enumerated in ascending name order. */
  function Children(s: Store, id: NodeId): (r: seq<NodeId>)
    requires WellFormed(s) && id in s
    ensures |r| == |s[id].children|
    ensures forall x :: x in r <==> x in s[id].children.Values
    ensures forall i :: 0 <= i < |r| ==> r[i] in s
    ensures forall i, j :: 0 <= i < j < |r| ==> StrLt(s[r[i]].name, s[r[j]].name)
  {
    var m := s[id].children;
    var keys := SortedKeys(m.Keys);
    var r := Lookups(m, keys);
    ChildrenFacts(s, id, keys, r);
    r
  }

  /** The values under the keys, in the keys' order. */
  function Lookups(m: map<string, NodeId>, keys: seq<string>): (r: seq<NodeId>)
    requires forall k :: k in keys ==> k in m
    ensures |r| == |keys| && forall i :: 0 <= i < |keys| ==> r[i] == m[keys[i]]
  {
    seq(|keys|, i requires 0 <= i < |keys| => m[keys[i]])
  }

  lemma ChildrenFacts(s: Store, id: NodeId, keys: seq<string>, r: seq<NodeId>)
    requires WellFormed(s) && id in s
    requires keys == SortedKeys(s[id].children.Keys)
    requires |r| == |keys| && forall i :: 0 <= i < |keys| ==> r[i] == s[id].children[keys[i]]
    ensures |r| == |s[id].children|
    ensures forall x :: x in r <==> x in s[id].children.Values
    ensures forall i :: 0 <= i < |r| ==> r[i] in s && s[r[i]].name == keys[i]
    ensures forall i, j :: 0 <= i < j < |r| ==> StrLt(s[r[i]].name, s[r[j]].name)
  {
    var m := s[id].children;
    assert |m.Keys| == |m|;
    forall x | x in m.Values ensures x in r {
      var k :| k in m && m[k] == x;
      var i :| 0 <= i < |keys| && keys[i] == k;
      assert r[i] == x;
    }
  }

  /**
   * Acyclicity witness: every child ranks strictly below its parent. The
   * tree does not maintain this, so the recursive searches require it.
   */
  ghost predicate Ranked(s: Store, rank: map<NodeId, nat>)
  {
    forall id | id in s ::
      id in rank && forall k | k in s[id].children :: s[id].children[k] in rank && rank[s[id].children[k]] < rank[id]
  }

  /**
   * The recursive search: for each child in order, the child itself when its
   * name is selected, then (for a directory) the matches beneath it.
   */
  function Collect(s: Store, ghost rank: map<NodeId, nat>, id: NodeId, select: string -> bool): (r: seq<NodeId>)
    requires WellFormed(s) && Ranked(s, rank) && id in s
    ensures forall i :: 0 <= i < |r| ==> r[i] in s
    decreases rank[id], 1
  {
    CollectList(s, rank, Children(s, id), select, rank[id])
  }

  function CollectList(s: Store, ghost rank: map<NodeId, nat>, xs: seq<NodeId>, select: string -> bool, ghost bound: nat): (r: seq<NodeId>)
    requires WellFormed(s) && Ranked(s, rank)
    requires forall i :: 0 <= i < |xs| ==> xs[i] in s && xs[i] in rank && rank[xs[i]] < bound
    ensures forall i :: 0 <= i < |r| ==> r[i] in s
    decreases bound, 0, |xs|
  {
    if |xs| == 0 then []
    else
      var e := xs[0];
      (if select(s[e].name) then [e] else [])
      + (if IsDirectory(s[e]) then Collect(s, rank, e, select) else [])
      + CollectList(s, rank, xs[1..], select, bound)
  }

  /** x lies below id, reached through child maps and only through directories. */
  ghost predicate Below(s: Store, rank: map<NodeId, nat>, id: NodeId, x: NodeId)
    requires WellFormed(s) && Ranked(s, rank) && id in s
    decreases rank[id], 1
  {
    exists k | k in s[id].children :: Hit(s, rank, s[id].children[k], x, rank[id])
  }

  /** x is e, or e is a directory and x lies below it. */
  ghost predicate Hit(s: Store, rank: map<NodeId, nat>, e: NodeId, x: NodeId, bound: nat)
    requires WellFormed(s) && Ranked(s, rank) && e in s && rank[e] < bound
    decreases bound, 0
  {
    e == x || (IsDirectory(s[e]) && Below(s, rank, e, x))
  }

  ghost predicate Selected(s: Store, x: NodeId, select: string -> bool)
  {
    x in s && select(s[x].name)
  }

  lemma {:induction false} CollectListMembers(s: Store, rank: map<NodeId, nat>, xs: seq<NodeId>, select: string -> bool, bound: nat, x: NodeId)
    requires WellFormed(s) && Ranked(s, rank)
    requires forall i :: 0 <= i < |xs| ==> xs[i] in s && xs[i] in rank && rank[xs[i]] < bound
    ensures x in CollectList(s, rank, xs, select, bound) <==>
              Selected(s, x, select) && exists i | 0 <= i < |xs| :: Hit(s, rank, xs[i], x, bound)
    decreases bound, 0, |xs|
  {
    if |xs| > 0 {
      var e := xs[0];
      var rest := xs[1..];
      CollectListMembers(s, rank, rest, select, bound, x);
      if IsDirectory(s[e]) {
        CollectMembers(s, rank, e, select, x);
      }
      HitsCons(s, rank, xs, x, bound);
    }
  }

  /** Some node of xs hits x exactly when its head does or some node of its tail does. */
  lemma HitsCons(s: Store, rank: map<NodeId, nat>, xs: seq<NodeId>, x: NodeId, bound: nat)
    requires WellFormed(s) && Ranked(s, rank) && |xs| > 0
    requires forall i :: 0 <= i < |xs| ==> xs[i] in s && xs[i] in rank && rank[xs[i]] < bound
    ensures (exists i | 0 <= i < |xs| :: Hit(s, rank, xs[i], x, bound)) <==>
              Hit(s, rank, xs[0], x, bound) || exists i | 0 <= i < |xs[1..]| :: Hit(s, rank, xs[1..][i], x, bound)
  {
    var rest := xs[1..];
    if exists i | 0 <= i < |rest| :: Hit(s, rank, rest[i], x, bound) {
      var i :| 0 <= i < |rest| && Hit(s, rank, rest[i], x, bound);
      assert Hit(s, rank, xs[i + 1], x, bound);
    }
    if exists i | 0 <= i < |xs| :: Hit(s, rank, xs[i], x, bound) {
      var i :| 0 <= i < |xs| && Hit(s, rank, xs[i], x, bound);
      if i > 0 { assert Hit(s, rank, rest[i - 1], x, bound); }
    }
  }

  /**
   * find: x is reported exactly when it lies below the start node, reached
   * through directories only, and its name is selected.
   */
  lemma {:induction false} CollectMembers(s: Store, rank: map<NodeId, nat>, id: NodeId, select: string -> bool, x: NodeId)
    requires WellFormed(s) && Ranked(s, rank) && id in s
    ensures x in Collect(s, rank, id, select) <==> Below(s, rank, id, x) && Selected(s, x, select)
    decreases rank[id], 1
  {
    var xs := Children(s, id);
    var b := rank[id];
    ChildrenRanked(s, rank, id);
    CollectListMembers(s, rank, xs, select, b, x);
    if exists i | 0 <= i < |xs| :: Hit(s, rank, xs[i], x, b) {
      var i :| 0 <= i < |xs| && Hit(s, rank, xs[i], x, b);
      ChildAt(s, id, i);
      HitBelow(s, rank, id, xs[i], x);
    }
    if Below(s, rank, id, x) {
      BelowHit(s, rank, id, x);
    }
  }

  /** A child's entry sits lower in the ranking than its directory. */
  lemma ChildrenRanked(s: Store, rank: map<NodeId, nat>, id: NodeId)
    requires WellFormed(s) && Ranked(s, rank) && id in s
    ensures forall i :: 0 <= i < |Children(s, id)| ==>
              Children(s, id)[i] in s && Children(s, id)[i] in rank && rank[Children(s, id)[i]] < rank[id]
  {
    var xs := Children(s, id);
    var m := s[id].children;
    forall i | 0 <= i < |xs| ensures xs[i] in s && xs[i] in rank && rank[xs[i]] < rank[id] {
      ChildAt(s, id, i);
      var k :| k in m && m[k] == xs[i];
    }
  }

  lemma HitBelow(s: Store, rank: map<NodeId, nat>, id: NodeId, e: NodeId, x: NodeId)
    requires WellFormed(s) && Ranked(s, rank) && id in s && e in s[id].children.Values
    requires e in s && rank[e] < rank[id] && Hit(s, rank, e, x, rank[id])
    ensures Below(s, rank, id, x)
  {
    var m := s[id].children;
    var k :| k in m && m[k] == e;
  }

  lemma BelowHit(s: Store, rank: map<NodeId, nat>, id: NodeId, x: NodeId)
    requires WellFormed(s) && Ranked(s, rank) && id in s && Below(s, rank, id, x)
    ensures var xs := Children(s, id);
      (forall i :: 0 <= i < |xs| ==> xs[i] in s && xs[i] in rank && rank[xs[i]] < rank[id])
      && exists i | 0 <= i < |xs| :: Hit(s, rank, xs[i], x, rank[id])
  {
    var xs := Children(s, id);
    var m := s[id].children;
    ChildrenRanked(s, rank, id);
    var k :| k in m && Hit(s, rank, m[k], x, rank[id]);
    assert m[k] in xs;
    var i :| 0 <= i < |xs| && xs[i] == m[k];
  }

  lemma ChildAt(s: Store, id: NodeId, i: int)
    requires WellFormed(s) && id in s && 0 <= i < |Children(s, id)|
    ensures Children(s, id)[i] in s[id].children.Values
  {
    var xs := Children(s, id);
    assert xs[i] in xs;
  }

  lemma CollectAll(s: Store, rank: map<NodeId, nat>, id: NodeId, select: string -> bool)
    requires WellFormed(s) && Ranked(s, rank) && id in s
    ensures forall x :: x in Collect(s, rank, id, select) <==> Below(s, rank, id, x) && Selected(s, x, select)
  {
    forall x ensures x in Collect(s, rank, id, select) <==> Below(s, rank, id, x) && Selected(s, x, select) {
      CollectMembers(s, rank, id, select, x);
    }
  }

  /** SimpleVFile.java find: the lower-cased name contains the lower-cased search. */
  function Find(s: Store, ghost rank: map<NodeId, nat>, id: NodeId, search: string): (r: seq<NodeId>)
    requires WellFormed(s) && Ranked(s, rank) && id in s
    ensures forall x :: x in r <==> Below(s, rank, id, x) && x in s && Contains(ToLower(s[x].name), ToLower(search))
  {
    var select := (name: string) => Contains(ToLower(name), ToLower(search));
    CollectAll(s, rank, id, select);
    Collect(s, rank, id, select)
  }

  /** SimpleVFile.kt find: the name equals the search ignoring (ASCII) case. */
  function FindExact(s: Store, ghost rank: map<NodeId, nat>, id: NodeId, search: string): (r: seq<NodeId>)
    requires WellFormed(s) && Ranked(s, rank) && id in s
    ensures forall x :: x in r <==> Below(s, rank, id, x) && x in s && ToLower(s[x].name) == ToLower(search)
  {
    var select := (name: string) => ToLower(name) == ToLower(search);
    CollectAll(s, rank, id, select);
    Collect(s, rank, id, select)
  }
}
