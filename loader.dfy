/**
 * The bulk loaders over a directory on disk: LocalFileProvider (merges each
 * file's handler results as its task runs) and Files (tasks only record the
 * results; the merging happens after every task has been awaited).
 *
 * The thread pool is sequential here: each detection task runs when the
 * loader awaits it, in submission order, which is a schedule the pool may
 * choose. The disk is a Source value; a content handler is a function from
 * the file to its outcome.
 */
module Loading {
  import opened Wrappers
  import opened Text
  import opened Nodes
  import opened Lookup
  import opened Tree
  import opened Merging

  /** A file or directory on disk, with what File.listFiles lists under it. */
  datatype Source =
    | SFile(name: string, size: int, data: seq<byte>)
    | SDir(name: string, size: int, entries: seq<Source>)

  /** The kind of the LocalFile / Files node made for a source entry. */
  function DiskKind(src: Source): (k: Kind)
    ensures k.Disk? && k.isDir == src.SDir? && k.size == src.size
    ensures src.SFile? ==> k.data == src.data
  {
    if src.SDir? then Disk(true, src.size, []) else Disk(false, src.size, src.data)
  }

  /** A directory listing: distinct names, never "." or "..", at every level. */
  predicate Listing(es: seq<Source>)
    decreases es
  {
    (forall i, j :: 0 <= i < j < |es| ==> es[i].name != es[j].name)
    && forall i :: 0 <= i < |es| ==>
         es[i].name != "." && es[i].name != ".." && (es[i].SDir? ==> Listing(es[i].entries))
  }

  /** FileHandler.handle: null (declined), a collection of new nodes, or an IOException. */
  datatype Outcome = Declined | Produced(roots: seq<Entry>) | Failed

  type ContentHandler = Source -> Outcome

  /**
   * Every handler's result trees have distinct sibling names, as the child
   * maps of the nodes a handler builds do. Names "." and ".." are allowed.
   */
  ghost predicate WellBehaved(chs: seq<ContentHandler>)
  {
    forall i, f | 0 <= i < |chs| && chs[i](f).Produced? ::
      forall r | r in chs[i](f).roots :: Tidy(r)
  }

  /** No tree of the collection carries a "." or ".." name. */
  ghost predicate AllPlain(rs: seq<Entry>)
  {
    forall r | r in rs :: PlainNames(r)
  }

  /**
   * The collections one detection task obtains for a file: handlers in
   * order, null results skipped, and a task ends at the first exception.
   */
  function Results(chs: seq<ContentHandler>, f: Source): seq<seq<Entry>>
    decreases |chs|
  {
    if |chs| == 0 then []
    else match chs[0](f)
      case Declined => Results(chs[1..], f)
      case Failed => []
      case Produced(rs) => [rs] + Results(chs[1..], f)
  }

  function Flatten(rss: seq<seq<Entry>>): (r: seq<Entry>)
    ensures forall x :: x in r <==> exists i :: 0 <= i < |rss| && x in rss[i]
  {
    if |rss| == 0 then [] else rss[0] + Flatten(rss[1..])
  }

  /** Every result node a file's task merges. */
  function Yield(chs: seq<ContentHandler>, f: Source): seq<Entry>
  {
    Flatten(Results(chs, f))
  }

  /**
   * A task's collections are exactly the answers of the handlers that
   * produced one, provided no handler before them threw.
   */
  lemma {:induction false} ResultsExact(chs: seq<ContentHandler>, f: Source, rs: seq<Entry>)
    ensures rs in Results(chs, f) <==>
            exists i :: 0 <= i < |chs| && chs[i](f) == Produced(rs) && forall j :: 0 <= j < i ==> !chs[j](f).Failed?
    decreases |chs|
  {
    if |chs| > 0 {
      ResultsExact(chs[1..], f, rs);
      if rs in Results(chs, f) && chs[0](f) != Produced(rs) {
        var i :| 0 <= i < |chs[1..]| && chs[1..][i](f) == Produced(rs) && forall j :: 0 <= j < i ==> !chs[1..][j](f).Failed?;
        assert chs[i + 1](f) == Produced(rs);
        assert forall j :: 0 <= j < i + 1 ==> !chs[j](f).Failed? by {
          forall j | 0 <= j < i + 1 ensures !chs[j](f).Failed? {
            if j > 0 { assert chs[j] == chs[1..][j - 1]; }
          }
        }
      }
      if exists i :: 0 <= i < |chs| && chs[i](f) == Produced(rs) && forall j :: 0 <= j < i ==> !chs[j](f).Failed? {
        var i :| 0 <= i < |chs| && chs[i](f) == Produced(rs) && forall j :: 0 <= j < i ==> !chs[j](f).Failed?;
        if i > 0 {
          assert chs[1..][i - 1](f) == Produced(rs);
          assert forall j :: 0 <= j < i - 1 ==> !chs[1..][j](f).Failed? by {
            forall j | 0 <= j < i - 1 ensures !chs[1..][j](f).Failed? {
              assert chs[1..][j] == chs[j + 1];
            }
          }
        }
      }
    }
  }

  lemma WellBehavedYield(chs: seq<ContentHandler>, f: Source)
    requires WellBehaved(chs)
    ensures forall r | r in Yield(chs, f) :: Tidy(r)
  {
    forall r | r in Yield(chs, f) ensures Tidy(r) {
      var k :| 0 <= k < |Results(chs, f)| && r in Results(chs, f)[k];
      ResultsExact(chs, f, Results(chs, f)[k]);
    }
  }

  /** A detection task: the plain file and the directory node that contains it. */
  datatype Task = Task(file: Source, dir: NodeId)

  /** The plain files of a listing in depth-first order, the order the walk meets them. */
  function PlainFiles(es: seq<Source>): (r: seq<Source>)
    decreases es
  {
    if |es| == 0 then []
    else (if es[0].SDir? then PlainFiles(es[0].entries) else [es[0]]) + PlainFiles(es[1..])
  }

  function FilesOf(ts: seq<Task>): (r: seq<Source>)
    ensures |r| == |ts| && forall k :: 0 <= k < |ts| ==> r[k] == ts[k].file
  {
    if |ts| == 0 then [] else [ts[0].file] + FilesOf(ts[1..])
  }

  lemma {:induction false} PlainFilesSnoc(es: seq<Source>, i: int)
    requires 0 <= i < |es|
    ensures PlainFiles(es[..i + 1]) ==
            PlainFiles(es[..i]) + (if es[i].SDir? then PlainFiles(es[i].entries) else [es[i]])
    decreases i
  {
    if i > 0 {
      PlainFilesSnoc(es[1..], i - 1);
      assert es[1..][..i] == es[..i + 1][1..];
      assert es[1..][..i - 1] == es[..i][1..];
    }
  }

  /**
   * The node for source entry e sits in d's child map under e's name, was
   * created during the walk (it is in R), carries e's name and kind; a plain
   * file has its detection task scheduled with d, a directory's entries are
   * mirrored under its node.
   */
  ghost predicate Mirrored(s: Store, e: Source, d: NodeId, R: set<NodeId>, tasks: seq<Task>)
    decreases e
  {
    d in s && e.name != ".." && e.name in s[d].children
    && var x := s[d].children[e.name];
       x in s && x in R && s[x].name == e.name && s[x].kind == DiskKind(e)
       && (e.SFile? ==> Task(e, d) in tasks)
       && (e.SDir? ==> forall j :: 0 <= j < |e.entries| ==> Mirrored(s, e.entries[j], x, R, tasks))
  }

  /** The nodes in R keep their names, kinds and child entries. */
  ghost predicate Kept(s1: Store, s2: Store, R: set<NodeId>)
  {
    forall id | id in R && id in s1 ::
      id in s2 && s2[id].name == s1[id].name && s2[id].kind == s1[id].kind
      && forall k | k in s1[id].children :: k in s2[id].children && s2[id].children[k] == s1[id].children[k]
  }

  /** As Kept, except that an entry under "..", which a merge may replace, need not stay. */
  ghost predicate Retained(s1: Store, s2: Store, R: set<NodeId>)
  {
    forall id | id in R && id in s1 ::
      id in s2 && s2[id].name == s1[id].name && s2[id].kind == s1[id].kind
      && forall k | k in s1[id].children && k != ".." :: k in s2[id].children && s2[id].children[k] == s1[id].children[k]
  }

  lemma {:induction false} MirroredKept(s1: Store, s2: Store, e: Source, d: NodeId, R1: set<NodeId>, R2: set<NodeId>,
                                        t1: seq<Task>, t2: seq<Task>)
    requires Mirrored(s1, e, d, R1, t1) && R1 <= R2 && (forall t | t in t1 :: t in t2)
    requires Retained(s1, s2, R1)
    requires d in s2 && e.name in s2[d].children && s2[d].children[e.name] == s1[d].children[e.name]
    ensures Mirrored(s2, e, d, R2, t2)
    decreases e
  {
    var x := s1[d].children[e.name];
    if e.SDir? {
      forall j | 0 <= j < |e.entries| ensures Mirrored(s2, e.entries[j], x, R2, t2) {
        MirroredKept(s1, s2, e.entries[j], x, R1, R2, t1, t2);
      }
    }
  }

  /** What the walk changes in the nodes that existed before: only dir's child map. */
  ghost predicate WalkFrame(s0: Store, s: Store, dir: NodeId)
  {
    s0.Keys <= s.Keys
    && forall id | id in s0 ::
         s[id].name == s0[id].name && s[id].kind == s0[id].kind && s[id].parent == s0[id].parent
         && (id != dir ==> s[id].children == s0[id].children)
  }

  /** Loop invariant of the walk over a listing es, from the store s0. */
  ghost predicate Walked(s0: Store, s: Store, es: seq<Source>, dir: NodeId, i: int, tasks: seq<Task>)
  {
    0 <= i <= |es| && dir in s0 && WalkFrame(s0, s, dir)
    && (forall j :: 0 <= j < i ==> Mirrored(s, es[j], dir, s.Keys - s0.Keys, tasks))
    && (forall t | t in tasks :: t.dir in s)
    && FilesOf(tasks) == PlainFiles(es[..i])
  }

  lemma FilesOfAppend(a: seq<Task>, b: seq<Task>)
    ensures FilesOf(a + b) == FilesOf(a) + FilesOf(b)
  {
  }

  /** Creating the node for es[i] and adding it to dir keeps what the earlier entries established. */
  lemma AddedEntry(s0: Store, s1: Store, es: seq<Source>, dir: NodeId, i: int, tasks: seq<Task>, x: NodeId)
    requires Walked(s0, s1, es, dir, i, tasks) && i < |es| && Listing(es) && x !in s1
    ensures var s3 := Attached(s1[x := Detached(es[i].name, DiskKind(es[i]))], x, dir);
            WalkFrame(s0, s3, dir) && Kept(s1, s3, s1.Keys - s0.Keys)
            && (forall j :: 0 <= j < i ==> s3[dir].children[es[j].name] == s1[dir].children[es[j].name])
            && s3[dir].children[es[i].name] == x
  {
    var s3 := Attached(s1[x := Detached(es[i].name, DiskKind(es[i]))], x, dir);
    AddedOthers(s1, x, dir, Detached(es[i].name, DiskKind(es[i])));
    assert Kept(s1, s3, s1.Keys - s0.Keys);
  }

  /** Only dir and the new node x differ after x is created and added to dir. */
  lemma AddedOthers(s1: Store, x: NodeId, dir: NodeId, rec: NodeRec)
    requires x !in s1 && dir in s1
    ensures var s3 := Attached(s1[x := rec], x, dir);
            s3.Keys == s1.Keys + {x}
            && (forall id | id in s1 && id != dir :: s3[id] == s1[id])
            && s3[dir] == s1[dir].(children := s1[dir].children[rec.name := x])
  {
  }

  lemma WalkFileStep(s0: Store, s1: Store, es: seq<Source>, dir: NodeId, i: int, tasks: seq<Task>, x: NodeId)
    requires Walked(s0, s1, es, dir, i, tasks) && i < |es| && Listing(es) && x !in s1 && es[i].SFile?
    ensures Walked(s0, Attached(s1[x := Detached(es[i].name, DiskKind(es[i]))], x, dir), es, dir, i + 1,
                   tasks + [Task(es[i], dir)])
  {
    var s3 := Attached(s1[x := Detached(es[i].name, DiskKind(es[i]))], x, dir);
    var t3 := tasks + [Task(es[i], dir)];
    AddedEntry(s0, s1, es, dir, i, tasks, x);
    forall j | 0 <= j < i ensures Mirrored(s3, es[j], dir, s3.Keys - s0.Keys, t3) {
      MirroredKept(s1, s3, es[j], dir, s1.Keys - s0.Keys, s3.Keys - s0.Keys, tasks, t3);
    }
    assert Mirrored(s3, es[i], dir, s3.Keys - s0.Keys, t3);
    FilesOfAppend(tasks, [Task(es[i], dir)]);
    PlainFilesSnoc(es, i);
  }

  /** The directory case: the sub-walk under x only touched x and nodes it created. */
  lemma WalkDirStep(s0: Store, s1: Store, s3: Store, s4: Store, es: seq<Source>, dir: NodeId, i: int,
                    tasks: seq<Task>, x: NodeId, sub: seq<Task>)
    requires Walked(s0, s1, es, dir, i, tasks) && i < |es| && Listing(es) && x !in s1 && es[i].SDir?
    requires s3 == Attached(s1[x := Detached(es[i].name, DiskKind(es[i]))], x, dir)
    requires Walked(s3, s4, es[i].entries, x, |es[i].entries|, sub)
    ensures Walked(s0, s4, es, dir, i + 1, tasks + sub)
  {
    var t4 := tasks + sub;
    var R1 := s1.Keys - s0.Keys;
    var R4 := s4.Keys - s0.Keys;
    AddedEntry(s0, s1, es, dir, i, tasks, x);
    assert Kept(s1, s4, R1);
    forall j | 0 <= j < i ensures Mirrored(s4, es[j], dir, R4, t4) {
      MirroredKept(s1, s4, es[j], dir, R1, R4, tasks, t4);
    }
    forall j | 0 <= j < |es[i].entries| ensures Mirrored(s4, es[i].entries[j], x, R4, t4) {
      MirroredKept(s4, s4, es[i].entries[j], x, s4.Keys - s3.Keys, R4, sub, t4);
    }
    assert es[i].entries[..|es[i].entries|] == es[i].entries;
    assert Mirrored(s4, es[i], dir, R4, t4);
    FilesOfAppend(tasks, sub);
    PlainFilesSnoc(es, i);
  }

  /**
   * SimpleVFile.visit with the loaders' FileVisitor: each listed entry gets a
   * new node that is added to its parent before it is looked at; a
   * directory is walked depth-first, a plain file gets a detection task.
   */
  method Walk(fs: Vfs, es: seq<Source>, dir: NodeId) returns (tasks: seq<Task>)
    requires fs.Valid() && NoSelfParent(fs.store) && dir in fs.store && Listing(es)
    modifies fs
    ensures fs.Valid() && NoSelfParent(fs.store)
    ensures Walked(old(fs.store), fs.store, es, dir, |es|, tasks)
    decreases es
  {
    tasks := [];
    var i := 0;
    while i < |es|
      invariant fs.Valid() && NoSelfParent(fs.store)
      invariant Walked(old(fs.store), fs.store, es, dir, i, tasks)
    {
      ghost var s1 := fs.store;
      var x := fs.Create(es[i].name, DiskKind(es[i]));
      ValuesBelow(s1, dir, x);
      Attach(fs, dir, x);
      if es[i].SDir? {
        ghost var s3 := fs.store;
        var sub := Walk(fs, es[i].entries, x);
        WalkDirStep(old(fs.store), s1, s3, fs.store, es, dir, i, tasks, x, sub);
        tasks := tasks + sub;
      } else {
        WalkFileStep(old(fs.store), s1, es, dir, i, tasks, x);
        tasks := tasks + [Task(es[i], dir)];
      }
      i := i + 1;
    }
  }

  // ---------------------------------------------------------------------
  // Running the detection tasks.
  // ---------------------------------------------------------------------

  /**
   * Every node of the collection rs without "." or ".." names is absorbed into d:
   * copied there, or its children merged into d's node of that name.
   */
  ghost predicate AllAbsorbed(s: Store, hs: seq<Handler>, rs: seq<Entry>, d: NodeId)
  {
    forall r | r in rs && PlainNames(r) :: Absorbed(s, hs, r, d)
  }

  /** Every node of the collection rs is present under d. */
  ghost predicate AllPresent(s: Store, hs: seq<Handler>, rs: seq<Entry>, d: NodeId)
  {
    forall r | r in rs :: Present(s, hs, r, d)
  }

  lemma AllAbsorbedPresent(s: Store, hs: seq<Handler>, rs: seq<Entry>, d: NodeId)
    requires AllAbsorbed(s, hs, rs, d) && AllPlain(rs)
    ensures AllPresent(s, hs, rs, d)
  {
    forall r | r in rs ensures Present(s, hs, r, d) {
      AbsorbedPresent(s, hs, r, d);
    }
  }

  lemma AllAbsorbedKept(s1: Store, s2: Store, hs: seq<Handler>, rs: seq<Entry>, d: NodeId)
    requires AllAbsorbed(s1, hs, rs, d) && Enlarges(s1, s2, hs)
    ensures AllAbsorbed(s2, hs, rs, d)
  {
    forall r | r in rs && PlainNames(r) ensures Absorbed(s2, hs, r, d) {
      AbsorbedKept(s1, s2, hs, r, d);
    }
  }

  /** Loop invariant of MergeAll, from the store s0 it started from, after the first i roots. */
  ghost predicate MergingAll(s0: Store, s: Store, hs: seq<Handler>, rs: seq<Entry>, d: NodeId, i: int)
  {
    0 <= i <= |rs| && Enlarges(s0, s, hs) && (AllPlain(rs[..i]) ==> Grows(s0, s, hs))
    && AllAbsorbed(s, hs, rs[..i], d)
    && (AllPresent(s0, hs, rs, d) ==> s == s0)
  }

  lemma MergedAll(s0: Store, s1: Store, s2: Store, hs: seq<Handler>, rs: seq<Entry>, d: NodeId, i: int)
    requires MergingAll(s0, s1, hs, rs, d, i) && i < |rs| && MergeSpec(s1, s2, hs, rs[i], d)
    ensures MergingAll(s0, s2, hs, rs, d, i + 1)
  {
    assert rs[..i + 1] == rs[..i] + [rs[i]];
    EnlargesTrans(s0, s1, s2, hs);
    if AllPlain(rs[..i + 1]) {
      assert rs[i] in rs[..i + 1];
      GrowsTrans(s0, s1, s2, hs);
    }
    if PlainNames(rs[i]) {
      MergedAbsorbed(s1, s2, hs, rs[i], d);
    }
    AllAbsorbedKept(s1, s2, hs, rs[..i], d);
    if AllPresent(s0, hs, rs, d) {
      assert rs[i] in rs;
    }
  }

  /**
   * for (child : root.toArray()) merge(child, parent): every node of the
   * collection without "." or ".." names ends up absorbed, and then present,
   * so a second merge of the collection changes nothing.
   */
  method MergeAll(fs: Vfs, rs: seq<Entry>, d: NodeId)
    requires fs.Valid() && NoSelfParent(fs.store) && d in fs.store
    requires forall r | r in rs :: Tidy(r)
    modifies fs
    ensures fs.Valid() && NoSelfParent(fs.store)
    ensures Enlarges(old(fs.store), fs.store, fs.handlers) && (AllPlain(rs) ==> Grows(old(fs.store), fs.store, fs.handlers))
    ensures AllAbsorbed(fs.store, fs.handlers, rs, d)
    ensures AllPlain(rs) ==> AllPresent(fs.store, fs.handlers, rs, d)
    ensures AllPresent(old(fs.store), fs.handlers, rs, d) ==> fs.store == old(fs.store)
  {
    var i := 0;
    while i < |rs|
      invariant fs.Valid() && NoSelfParent(fs.store) && d in fs.store
      invariant MergingAll(old(fs.store), fs.store, fs.handlers, rs, d, i)
    {
      ghost var s1 := fs.store;
      Merge(fs, rs[i], d);
      MergedAll(old(fs.store), s1, fs.store, fs.handlers, rs, d, i);
      i := i + 1;
    }
    assert rs[..i] == rs;
    if AllPlain(rs) {
      AllAbsorbedPresent(fs.store, fs.handlers, rs, d);
    }
  }

  lemma ResultsStep(chs: seq<ContentHandler>, f: Source, i: int)
    requires 0 <= i < |chs|
    ensures chs[i](f).Declined? ==> Yield(chs[i..], f) == Yield(chs[i + 1..], f)
    ensures chs[i](f).Failed? ==> Yield(chs[i..], f) == []
    ensures chs[i](f).Produced? ==> Yield(chs[i..], f) == chs[i](f).roots + Yield(chs[i + 1..], f)
  {
    assert chs[i..][1..] == chs[i + 1..];
  }

  /** Loop invariant of a detection task: the collections merged so far are absorbed, the rest are to come. */
  ghost predicate Ran(s0: Store, s: Store, hs: seq<Handler>, chs: seq<ContentHandler>, t: Task, done: seq<Entry>, i: int)
  {
    0 <= i <= |chs| && t.dir in s && Enlarges(s0, s, hs) && (AllPlain(done) ==> Grows(s0, s, hs))
    && AllAbsorbed(s, hs, done, t.dir)
    && Yield(chs, t.file) == done + Yield(chs[i..], t.file)
  }

  lemma RanStep(s0: Store, s1: Store, s2: Store, hs: seq<Handler>, chs: seq<ContentHandler>, t: Task,
                done: seq<Entry>, i: int, rs: seq<Entry>)
    requires Ran(s0, s1, hs, chs, t, done, i) && i < |chs| && chs[i](t.file) == Produced(rs)
    requires Enlarges(s1, s2, hs) && (AllPlain(rs) ==> Grows(s1, s2, hs)) && AllAbsorbed(s2, hs, rs, t.dir)
    ensures Ran(s0, s2, hs, chs, t, done + rs, i + 1)
  {
    ResultsStep(chs, t.file, i);
    AllAbsorbedKept(s1, s2, hs, done, t.dir);
    EnlargesTrans(s0, s1, s2, hs);
    if AllPlain(done + rs) {
      GrowsTrans(s0, s1, s2, hs);
    }
  }

  /**
   * The LocalFileProvider detection task: every handler in turn; a null
   * result moves on, a collection is merged into the file's directory, an
   * exception ends a detection task (it is logged when it is awaited).
   */
  method RunTask(fs: Vfs, t: Task, chs: seq<ContentHandler>)
    requires fs.Valid() && NoSelfParent(fs.store) && t.dir in fs.store && WellBehaved(chs)
    modifies fs
    ensures fs.Valid() && NoSelfParent(fs.store)
    ensures Enlarges(old(fs.store), fs.store, fs.handlers)
    ensures AllPlain(Yield(chs, t.file)) ==> Grows(old(fs.store), fs.store, fs.handlers)
    ensures AllAbsorbed(fs.store, fs.handlers, Yield(chs, t.file), t.dir)
  {
    ghost var done: seq<Entry> := [];
    var i := 0;
    while i < |chs|
      invariant fs.Valid() && NoSelfParent(fs.store)
      invariant Ran(old(fs.store), fs.store, fs.handlers, chs, t, done, i)
    {
      match chs[i](t.file) {
        case Declined =>
          ResultsStep(chs, t.file, i);
        case Failed =>
          ResultsStep(chs, t.file, i);
          assert done + [] == done;
          return;
        case Produced(rs) =>
          ghost var s1 := fs.store;
          MergeAll(fs, rs, t.dir);
          RanStep(old(fs.store), s1, fs.store, fs.handlers, chs, t, done, i, rs);
          done := done + rs;
      }
      i := i + 1;
    }
    assert done + [] == done;
  }

  // ---------------------------------------------------------------------
  // The two insert procedures.
  // ---------------------------------------------------------------------

  /**
   * The result of loading a listing under dir: every entry's node is in
   * place (created by this load, R), and every plain file's handler results
   * are absorbed into the directory that contains it.
   */
  ghost predicate Loaded(s: Store, hs: seq<Handler>, chs: seq<ContentHandler>, e: Source, d: NodeId, R: set<NodeId>)
    decreases e
  {
    d in s && e.name in s[d].children
    && var x := s[d].children[e.name];
       x in s && x in R && s[x].name == e.name && s[x].kind == DiskKind(e)
       && (e.SFile? ==> AllAbsorbed(s, hs, Yield(chs, e), d))
       && (e.SDir? ==> forall j :: 0 <= j < |e.entries| ==> Loaded(s, hs, chs, e.entries[j], x, R))
  }

  ghost predicate TasksDone(s: Store, hs: seq<Handler>, chs: seq<ContentHandler>, tasks: seq<Task>)
  {
    forall t | t in tasks :: AllAbsorbed(s, hs, Yield(chs, t.file), t.dir)
  }

  lemma {:induction false} MirroredLoaded(s: Store, hs: seq<Handler>, chs: seq<ContentHandler>, e: Source, d: NodeId,
                                          R: set<NodeId>, tasks: seq<Task>)
    requires Mirrored(s, e, d, R, tasks) && TasksDone(s, hs, chs, tasks)
    ensures Loaded(s, hs, chs, e, d, R)
    decreases e
  {
    var x := s[d].children[e.name];
    if e.SDir? {
      forall j | 0 <= j < |e.entries| ensures Loaded(s, hs, chs, e.entries[j], x, R) {
        MirroredLoaded(s, hs, chs, e.entries[j], x, R, tasks);
      }
    }
  }

  /** After the walk, the detection tasks only grow the tree, so the walk's result stays in place. */
  lemma WalkThenTasks(s0: Store, s1: Store, s: Store, hs: seq<Handler>, chs: seq<ContentHandler>,
                      es: seq<Source>, dir: NodeId, tasks: seq<Task>)
    requires Walked(s0, s1, es, dir, |es|, tasks) && Enlarges(s1, s, hs) && TasksDone(s, hs, chs, tasks)
    ensures forall j :: 0 <= j < |es| ==> Loaded(s, hs, chs, es[j], dir, s.Keys - s0.Keys)
  {
    forall j | 0 <= j < |es| ensures Loaded(s, hs, chs, es[j], dir, s.Keys - s0.Keys) {
      MirroredKept(s1, s, es[j], dir, s1.Keys - s0.Keys, s.Keys - s0.Keys, tasks, tasks);
      MirroredLoaded(s, hs, chs, es[j], dir, s.Keys - s0.Keys, tasks);
    }
  }

  /** No task's handlers produce a tree with a "." or ".." name. */
  ghost predicate PlainTasks(chs: seq<ContentHandler>, tasks: seq<Task>)
  {
    forall t | t in tasks :: AllPlain(Yield(chs, t.file))
  }

  /** Loop invariant of the await loop, from the store s0, after the first k tasks. */
  ghost predicate TasksRan(s0: Store, s: Store, hs: seq<Handler>, chs: seq<ContentHandler>, tasks: seq<Task>, k: int)
  {
    0 <= k <= |tasks| && Enlarges(s0, s, hs)
    && (PlainTasks(chs, tasks[..k]) ==> Grows(s0, s, hs))
    && TasksDone(s, hs, chs, tasks[..k])
  }

  lemma TaskDoneStep(s0: Store, s1: Store, s2: Store, hs: seq<Handler>, chs: seq<ContentHandler>, tasks: seq<Task>, k: int)
    requires TasksRan(s0, s1, hs, chs, tasks, k) && k < |tasks|
    requires Enlarges(s1, s2, hs) && (AllPlain(Yield(chs, tasks[k].file)) ==> Grows(s1, s2, hs))
    requires AllAbsorbed(s2, hs, Yield(chs, tasks[k].file), tasks[k].dir)
    ensures TasksRan(s0, s2, hs, chs, tasks, k + 1)
  {
    assert tasks[..k + 1] == tasks[..k] + [tasks[k]];
    forall t | t in tasks[..k] ensures AllAbsorbed(s2, hs, Yield(chs, t.file), t.dir) {
      AllAbsorbedKept(s1, s2, hs, Yield(chs, t.file), t.dir);
    }
    EnlargesTrans(s0, s1, s2, hs);
    if PlainTasks(chs, tasks[..k + 1]) {
      assert tasks[k] in tasks[..k + 1];
      GrowsTrans(s0, s1, s2, hs);
    }
  }

  /** The await loop of LocalFileProvider.insert: every task runs in submission order. */
  method RunTasks(fs: Vfs, tasks: seq<Task>, chs: seq<ContentHandler>)
    requires fs.Valid() && NoSelfParent(fs.store) && WellBehaved(chs)
    requires forall t | t in tasks :: t.dir in fs.store
    modifies fs
    ensures fs.Valid() && NoSelfParent(fs.store)
    ensures Enlarges(old(fs.store), fs.store, fs.handlers)
    ensures PlainTasks(chs, tasks) ==> Grows(old(fs.store), fs.store, fs.handlers)
    ensures TasksDone(fs.store, fs.handlers, chs, tasks)
  {
    var k := 0;
    while k < |tasks|
      invariant fs.Valid() && NoSelfParent(fs.store)
      invariant forall t | t in tasks :: t.dir in fs.store
      invariant TasksRan(old(fs.store), fs.store, fs.handlers, chs, tasks, k)
    {
      ghost var s2 := fs.store;
      RunTask(fs, tasks[k], chs);
      TaskDoneStep(old(fs.store), s2, fs.store, fs.handlers, chs, tasks, k);
      k := k + 1;
    }
    assert tasks[..k] == tasks;
  }

  /**
   * LocalFileProvider.insert: the walk, then every task awaited in turn;
   * each task merges its results as it runs.
   */
  method InsertLocal(fs: Vfs, root: NodeId, es: seq<Source>, chs: seq<ContentHandler>)
    requires fs.Valid() && NoSelfParent(fs.store) && root in fs.store && Listing(es) && WellBehaved(chs)
    modifies fs
    ensures fs.Valid() && NoSelfParent(fs.store)
    ensures old(fs.store).Keys <= fs.store.Keys
    ensures forall id | id in old(fs.store) ::
              fs.store[id].name == old(fs.store)[id].name && fs.store[id].kind == old(fs.store)[id].kind
    ensures forall j :: 0 <= j < |es| ==> Loaded(fs.store, fs.handlers, chs, es[j], root, fs.store.Keys - old(fs.store).Keys)
  {
    var tasks := Walk(fs, es, root);
    ghost var s1 := fs.store;
    RunTasks(fs, tasks, chs);
    WalkThenTasks(old(fs.store), s1, fs.store, fs.handlers, chs, es, root, tasks);
  }

  /** An entry of the archives map: a recorded collection and the directory it is merged into. */
  datatype Archived = Archived(roots: seq<Entry>, dir: NodeId)

  /** What one Files detection task records: each collection with the file's directory. */
  function RecordsOf(chs: seq<ContentHandler>, t: Task): (r: seq<Archived>)
  {
    seq(|Results(chs, t.file)|, k requires 0 <= k < |Results(chs, t.file)| => Archived(Results(chs, t.file)[k], t.dir))
  }

  /** The archives after the detection tasks are awaited in submission order. */
  function ArchivesOf(chs: seq<ContentHandler>, tasks: seq<Task>): seq<Archived>
  {
    if |tasks| == 0 then [] else ArchivesOf(chs, tasks[..|tasks| - 1]) + RecordsOf(chs, tasks[|tasks| - 1])
  }

  /**
   * The Files detection task: archives.put(root, parent) for each non-null
   * result until a handler throws. Records, never merges.
   */
  method Record(t: Task, chs: seq<ContentHandler>) returns (recs: seq<Archived>)
    ensures recs == RecordsOf(chs, t)
  {
    recs := [];
    var i := 0;
    while i < |chs|
      invariant 0 <= i <= |chs|
      invariant Results(chs, t.file) == Roots(recs) + Results(chs[i..], t.file)
      invariant forall k :: 0 <= k < |recs| ==> recs[k].dir == t.dir
    {
      assert chs[i..][1..] == chs[i + 1..];
      match chs[i](t.file) {
        case Declined =>
        case Failed =>
          assert Roots(recs) + [] == Roots(recs);
          RecordsAre(recs, chs, t);
          return;
        case Produced(rs) =>
          RootsAppend(recs, [Archived(rs, t.dir)]);
          recs := recs + [Archived(rs, t.dir)];
      }
      i := i + 1;
    }
    assert Roots(recs) + [] == Roots(recs);
    RecordsAre(recs, chs, t);
  }

  /** Records whose collections are that task's results and whose directory is that task's are its records. */
  lemma RecordsAre(recs: seq<Archived>, chs: seq<ContentHandler>, t: Task)
    requires Results(chs, t.file) == Roots(recs)
    requires forall k :: 0 <= k < |recs| ==> recs[k].dir == t.dir
    ensures recs == RecordsOf(chs, t)
  {
  }

  function Roots(as_: seq<Archived>): (r: seq<seq<Entry>>)
    ensures |r| == |as_| && forall k :: 0 <= k < |as_| ==> r[k] == as_[k].roots
  {
    if |as_| == 0 then [] else [as_[0].roots] + Roots(as_[1..])
  }

  lemma RootsAppend(a: seq<Archived>, b: seq<Archived>)
    ensures Roots(a + b) == Roots(a) + Roots(b)
  {
  }

  /** The await loop of Files.insert: each task's collections recorded in submission order. */
  method RecordAll(tasks: seq<Task>, chs: seq<ContentHandler>) returns (archives: seq<Archived>)
    ensures archives == ArchivesOf(chs, tasks)
  {
    archives := [];
    var k := 0;
    while k < |tasks|
      invariant 0 <= k <= |tasks| && archives == ArchivesOf(chs, tasks[..k])
    {
      var recs := Record(tasks[k], chs);
      assert tasks[..k + 1][..k] == tasks[..k];
      archives := archives + recs;
      k := k + 1;
    }
    assert tasks[..k] == tasks;
  }

  /** Every collection a task obtains is recorded, with that task's directory. */
  lemma {:induction false} ArchivesCover(chs: seq<ContentHandler>, tasks: seq<Task>)
    ensures forall t, rs | t in tasks && rs in Results(chs, t.file) :: Archived(rs, t.dir) in ArchivesOf(chs, tasks)
    decreases |tasks|
  {
    if |tasks| > 0 {
      var init := tasks[..|tasks| - 1];
      ArchivesCover(chs, init);
      forall t, rs | t in tasks && rs in Results(chs, t.file) ensures Archived(rs, t.dir) in ArchivesOf(chs, tasks) {
        if t in init {
        } else {
          var j :| 0 <= j < |Results(chs, t.file)| && Results(chs, t.file)[j] == rs;
          assert RecordsOf(chs, t)[j] == Archived(rs, t.dir);
        }
      }
    }
  }

  /** Every recorded collection was obtained by the detection task of a walked file, for that file's directory. */
  lemma {:induction false} ArchivesFrom(chs: seq<ContentHandler>, tasks: seq<Task>, a: Archived)
    requires a in ArchivesOf(chs, tasks)
    ensures exists t :: t in tasks && t.dir == a.dir && a.roots in Results(chs, t.file)
    decreases |tasks|
  {
    var init := tasks[..|tasks| - 1];
    var last := tasks[|tasks| - 1];
    if a in ArchivesOf(chs, init) {
      ArchivesFrom(chs, init, a);
      var t :| t in init && t.dir == a.dir && a.roots in Results(chs, t.file);
      assert t in tasks;
    } else {
      var j :| 0 <= j < |RecordsOf(chs, last)| && RecordsOf(chs, last)[j] == a;
      assert last in tasks && a.roots == Results(chs, last.file)[j];
    }
  }

  /** Every recorded collection is absorbed into its directory. */
  ghost predicate ArchivesDone(s: Store, hs: seq<Handler>, archives: seq<Archived>)
  {
    forall a | a in archives :: AllAbsorbed(s, hs, a.roots, a.dir)
  }

  /** What the last loop of Files.insert needs: target directories exist, result trees are well-formed. */
  ghost predicate Mergeable(s: Store, archives: seq<Archived>)
  {
    forall a | a in archives :: a.dir in s && forall r | r in a.roots :: Tidy(r)
  }

  /** Loop invariant of the last loop of Files.insert, from the store s0, after the first m records. */
  ghost predicate MergingArchives(s0: Store, s: Store, hs: seq<Handler>, archives: seq<Archived>, m: int)
  {
    0 <= m <= |archives| && Enlarges(s0, s, hs)
    && ((forall a | a in archives[..m] :: AllPlain(a.roots)) ==> Grows(s0, s, hs))
    && ArchivesDone(s, hs, archives[..m])
  }

  lemma ArchiveDoneStep(s0: Store, s1: Store, s2: Store, hs: seq<Handler>, archives: seq<Archived>, m: int)
    requires MergingArchives(s0, s1, hs, archives, m) && m < |archives|
    requires Enlarges(s1, s2, hs) && (AllPlain(archives[m].roots) ==> Grows(s1, s2, hs))
    requires AllAbsorbed(s2, hs, archives[m].roots, archives[m].dir)
    ensures MergingArchives(s0, s2, hs, archives, m + 1)
  {
    assert archives[..m + 1] == archives[..m] + [archives[m]];
    forall a | a in archives[..m] ensures AllAbsorbed(s2, hs, a.roots, a.dir) {
      AllAbsorbedKept(s1, s2, hs, a.roots, a.dir);
    }
    EnlargesTrans(s0, s1, s2, hs);
    if forall a | a in archives[..m + 1] :: AllPlain(a.roots) {
      assert archives[m] in archives[..m + 1];
      GrowsTrans(s0, s1, s2, hs);
    }
  }

  /** The last loop of Files.insert: every recorded collection merged into its directory. */
  method MergeArchives(fs: Vfs, archives: seq<Archived>)
    requires fs.Valid() && NoSelfParent(fs.store) && Mergeable(fs.store, archives)
    modifies fs
    ensures fs.Valid() && NoSelfParent(fs.store)
    ensures Enlarges(old(fs.store), fs.store, fs.handlers)
    ensures (forall a | a in archives :: AllPlain(a.roots)) ==> Grows(old(fs.store), fs.store, fs.handlers)
    ensures ArchivesDone(fs.store, fs.handlers, archives)
  {
    var m := 0;
    while m < |archives|
      invariant 0 <= m <= |archives| && fs.Valid() && NoSelfParent(fs.store)
      invariant forall a | a in archives :: a.dir in fs.store
      invariant MergingArchives(old(fs.store), fs.store, fs.handlers, archives, m)
    {
      ghost var s2 := fs.store;
      assert archives[m] in archives;
      MergeAll(fs, archives[m].roots, archives[m].dir);
      ArchiveDoneStep(old(fs.store), s2, fs.store, fs.handlers, archives, m);
      m := m + 1;
    }
    assert archives[..m] == archives;
  }

  /** The recorded collections come from well-behaved handlers, for directories the walk made. */
  lemma ArchivesSound(chs: seq<ContentHandler>, tasks: seq<Task>, s: Store)
    requires WellBehaved(chs) && forall t | t in tasks :: t.dir in s
    ensures Mergeable(s, ArchivesOf(chs, tasks))
  {
    forall a | a in ArchivesOf(chs, tasks) ensures a.dir in s && forall r | r in a.roots :: Tidy(r) {
      ArchivesFrom(chs, tasks, a);
      var t :| t in tasks && t.dir == a.dir && a.roots in Results(chs, t.file);
      ResultsExact(chs, t.file, a.roots);
    }
  }

  lemma CoveredDone(s: Store, hs: seq<Handler>, chs: seq<ContentHandler>, tasks: seq<Task>)
    requires ArchivesDone(s, hs, ArchivesOf(chs, tasks))
    ensures TasksDone(s, hs, chs, tasks)
  {
    ArchivesCover(chs, tasks);
    forall t | t in tasks ensures AllAbsorbed(s, hs, Yield(chs, t.file), t.dir) {
      forall r | r in Yield(chs, t.file) && PlainNames(r) ensures Absorbed(s, hs, r, t.dir) {
        var k :| 0 <= k < |Results(chs, t.file)| && r in Results(chs, t.file)[k];
        assert Archived(Results(chs, t.file)[k], t.dir) in ArchivesOf(chs, tasks);
      }
    }
  }

  /**
   * Files.insert: the walk, the detection tasks awaited in turn (each only records its
   * collections), and then every recorded collection merged into its
   * directory.
   */
  method InsertFiles(fs: Vfs, root: NodeId, es: seq<Source>, chs: seq<ContentHandler>)
    requires fs.Valid() && NoSelfParent(fs.store) && root in fs.store && Listing(es) && WellBehaved(chs)
    modifies fs
    ensures fs.Valid() && NoSelfParent(fs.store)
    ensures old(fs.store).Keys <= fs.store.Keys
    ensures forall id | id in old(fs.store) ::
              fs.store[id].name == old(fs.store)[id].name && fs.store[id].kind == old(fs.store)[id].kind
    ensures forall j :: 0 <= j < |es| ==> Loaded(fs.store, fs.handlers, chs, es[j], root, fs.store.Keys - old(fs.store).Keys)
  {
    var tasks := Walk(fs, es, root);
    ghost var s1 := fs.store;
    var archives := RecordAll(tasks, chs);
    ArchivesSound(chs, tasks, fs.store);
    MergeArchives(fs, archives);
    CoveredDone(fs.store, fs.handlers, chs, tasks);
    WalkThenTasks(old(fs.store), s1, fs.store, fs.handlers, chs, es, root, tasks);
  }

  /**
   * The LocalFileProvider constructor: a node for the file itself, and
   * only for a directory the recursive insert.
   */
  method OpenLocal(fs: Vfs, src: Source, chs: seq<ContentHandler>) returns (root: NodeId)
    requires fs.Valid() && NoSelfParent(fs.store) && WellBehaved(chs)
    requires src.SDir? ==> Listing(src.entries)
    modifies fs
    ensures fs.Valid() && NoSelfParent(fs.store)
    ensures root !in old(fs.store) && root in fs.store && fs.store[root].name == src.name && fs.store[root].kind == DiskKind(src)
    ensures src.SFile? ==> fs.store == old(fs.store)[root := Detached(src.name, DiskKind(src))]
    ensures src.SDir? ==> forall j :: 0 <= j < |src.entries| ==>
              Loaded(fs.store, fs.handlers, chs, src.entries[j], root, fs.store.Keys - old(fs.store).Keys)
  {
    root := fs.Create(src.name, DiskKind(src));
    if src.SDir? {
      ghost var s1 := fs.store;
      InsertLocal(fs, root, src.entries, chs);
      OpenedDir(old(fs.store), s1, fs.store, fs.handlers, chs, src.entries, root);
    }
  }

  /**
   * The Files constructor: recursive exactly when the file is a directory;
   * the entries it creates itself are built non-recursive.
   */
  method OpenFiles(fs: Vfs, src: Source, chs: seq<ContentHandler>) returns (root: NodeId)
    requires fs.Valid() && NoSelfParent(fs.store) && WellBehaved(chs)
    requires src.SDir? ==> Listing(src.entries)
    modifies fs
    ensures fs.Valid() && NoSelfParent(fs.store)
    ensures root !in old(fs.store) && root in fs.store && fs.store[root].name == src.name && fs.store[root].kind == DiskKind(src)
    ensures src.SFile? ==> fs.store == old(fs.store)[root := Detached(src.name, DiskKind(src))]
    ensures src.SDir? ==> forall j :: 0 <= j < |src.entries| ==>
              Loaded(fs.store, fs.handlers, chs, src.entries[j], root, fs.store.Keys - old(fs.store).Keys)
  {
    root := fs.Create(src.name, DiskKind(src));
    var recursive := src.SDir?;
    if recursive {
      ghost var s1 := fs.store;
      InsertFiles(fs, root, src.entries, chs);
      OpenedDir(old(fs.store), s1, fs.store, fs.handlers, chs, src.entries, root);
    }
  }

  /** The nodes created by the insert are also nodes created since before the root. */
  lemma OpenedDir(s0: Store, s1: Store, s: Store, hs: seq<Handler>, chs: seq<ContentHandler>, es: seq<Source>, root: NodeId)
    requires s0.Keys <= s1.Keys && s1.Keys <= s.Keys
    requires forall j :: 0 <= j < |es| ==> Loaded(s, hs, chs, es[j], root, s.Keys - s1.Keys)
    ensures forall j :: 0 <= j < |es| ==> Loaded(s, hs, chs, es[j], root, s.Keys - s0.Keys)
  {
    forall j | 0 <= j < |es| ensures Loaded(s, hs, chs, es[j], root, s.Keys - s0.Keys) {
      LoadedWiden(s, hs, chs, es[j], root, s.Keys - s1.Keys, s.Keys - s0.Keys);
    }
  }

  lemma {:induction false} LoadedWiden(s: Store, hs: seq<Handler>, chs: seq<ContentHandler>, e: Source, d: NodeId,
                                       R1: set<NodeId>, R2: set<NodeId>)
    requires Loaded(s, hs, chs, e, d, R1) && R1 <= R2
    ensures Loaded(s, hs, chs, e, d, R2)
    decreases e
  {
    if e.SDir? {
      var x := s[d].children[e.name];
      forall j | 0 <= j < |e.entries| ensures Loaded(s, hs, chs, e.entries[j], x, R2) {
        LoadedWiden(s, hs, chs, e.entries[j], x, R1, R2);
      }
    }
  }
}
