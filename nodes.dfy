/**
 * The node store shared by every part of the file system: each node has a
 * name, a kind (what backs it), a name-keyed child map and a parent link.
 * Node identity (Java object identity) is a NodeId; the heap is a Store.
 */
module Nodes {
  import opened Wrappers
  import opened Text

  type NodeId = nat

  /** What backs a node; it fixes isDirectory(), length() and openStream(). */
  datatype Kind =
    | Stub                                               // a provider or server root (VFSStub)
    | Dir                                                // a MockFile built without content
    | Content(bytes: seq<byte>)                          // a MockFile built with content
    | Archive(isDir: bool, size: int, data: seq<byte>)   // an archive entry (ZipFile)
    | Disk(isDir: bool, size: int, data: seq<byte>)      // a file on disk (LocalFile, Files)

  datatype NodeRec = NodeRec(name: string, kind: Kind, children: map<string, NodeId>, parent: Option<NodeId>)

  type Store = map<NodeId, NodeRec>

  /**
   * The invariant the tree code keeps: every child-map key is the name of the
   * node stored under it, and every reference points into the store.
   * Acyclicity and parent/child agreement are NOT kept (see Tree.Ranked).
   */
  ghost predicate WellFormed(s: Store)
  {
    forall id | id in s ::
      (forall k | k in s[id].children :: s[id].children[k] in s && s[s[id].children[k]].name == k)
      && (s[id].parent.Some? ==> s[id].parent.value in s)
  }

  /** A node with no children and no parent, as every constructor creates. */
  function Detached(name: string, kind: Kind): (r: NodeRec)
    ensures r.name == name && r.kind == kind && r.children == map[] && r.parent.None?
  {
    NodeRec(name, kind, map[], None)
  }

  predicate IsDirectory(r: NodeRec)
  {
    match r.kind
    case Stub => true
    case Dir => true
    case Content(_) => false
    case Archive(isDir, _, _) => isDir
    case Disk(isDir, _, _) => isDir
  }

  /**
   * length(): a plain tree directory counts its children, an in-memory file
   * reports its byte count (the available() estimate), a root stub reports 0,
   * and archive and disk nodes report their recorded size.
   */
  function Length(r: NodeRec): (l: int)
    ensures r.kind.Dir? ==> l == |r.children|
    ensures r.kind.Content? ==> l == |r.kind.bytes|
  {
    match r.kind
    case Stub => 0
    case Dir => |r.children|
    case Content(b) => |b|
    case Archive(_, size, _) => size
    case Disk(_, size, _) => size
  }

  /** openStream(): the bytes a fresh stream yields, None for null. */
  function OpenStream(r: NodeRec): Option<seq<byte>>
  {
    match r.kind
    case Stub => None
    case Dir => None
    case Content(b) => Some(b)
    case Archive(_, _, data) => Some(data)
    case Disk(isDir, _, data) => if isDir then None else Some(data)
  }

  /** Only a node that is not a directory has content to stream, except archive directories. */
  lemma StreamOfDirectories(r: NodeRec)
    ensures !r.kind.Archive? ==> (OpenStream(r).None? <==> IsDirectory(r))
    ensures r.kind.Archive? ==> OpenStream(r) == Some(r.kind.data)
  {
  }

  predicate IsMax(m: nat, k: set<nat>) { m in k && forall x :: x in k ==> x <= m }

  lemma {:induction false} MaxExists(k: set<nat>)
    requires k != {}
    ensures exists m :: IsMax(m, k)
    decreases |k|
  {
    var x :| x in k;
    if k == {x} {
      assert IsMax(x, k);
    } else {
      MaxExists(k - {x});
      var m :| IsMax(m, k - {x});
      forall y | y in k ensures y == x || y in k - {x} { }
      if x <= m { assert IsMax(m, k); } else { assert IsMax(x, k); }
    }
  }

  function MaxOf(k: set<nat>): (m: nat)
    requires k != {}
    ensures IsMax(m, k)
  {
    MaxExists(k);
    var m :| IsMax(m, k);
    m
  }

  /** An identity no node in the store has: allocation of a new object. */
  function FreshId(s: Store): (r: NodeId)
    ensures r !in s
    ensures forall id :: id in s ==> id < r
  {
    if s.Keys == {} then 0 else MaxOf(s.Keys) + 1
  }

  /** A node stored under a key of a well-formed child map carries that key as its name. */
  lemma ValueKey(s: Store, d: NodeId, f: NodeId)
    requires WellFormed(s) && d in s && f in s
    requires f in s[d].children.Values
    ensures s[f].name in s[d].children && s[d].children[s[f].name] == f
  {
    var k :| k in s[d].children && s[d].children[k] == f;
  }
}
