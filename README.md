# java-vfs in Dafny

A model of the core of TimePath's java-vfs, a virtual file system. The model
covers:

- the in-memory tree of `SimpleVFile` nodes, which are joined by a name-keyed
  child map and a parent link;
- the operations on that tree: `add`, `addAll`, `remove`, `removeAll`,
  `setParent`, `get`, `query`, `list` and the recursive `find`;
- the `merge` shared by the bulk loaders;
- the two loaders, `LocalFileProvider` and `Files`, which walk a directory
  listing and run content handlers;
- the archive loader `ZipFileProvider`, with its `ZipFile` and `MockFile`
  nodes;
- the `SecurityProvider`/`SecurityController` decoration, built on
  `DelegateProvider`;
- the FTP front end `FTPFS`: its command loop, `canonicalize`, the LIST line
  format and the PORT/PASV/EPRT/EPSV address texts.

How the model is built:

- **Heap.** The Java heap is a `Store`, a map from node identities to node
  records (module `Nodes`).
- **Tree.** The tree is the class `Tree.Vfs`. Its methods update the store in
  place and have the same mutually recursive shape as the Java code:
  `add → addImpl → setParent → remove → removeImpl → setParent(null)`.
- **Exceptions.** `IllegalArgumentException("file cannot be this")` is the
  result `ok == false`.
- **Missing-file handlers.** These are functions from a directory and a name
  to an optional node already in the store, asked in registration order.
- **Content handlers.** These return a value tree (`Merging.Entry`).
  `Merging.Materialise` allocates it through the tree's own constructor and
  `add`.
- **Lookups and the FTP session.** Read-only lookups are functions
  (`Lookup`). The FTP session is a pure transition `FtpSession.Step` per
  command line, driven by `FtpSession.Drive` and by the `Connection` class.

Where the code and the behaviour one would expect from its names differ, the
model follows the code:

- **STOR and MKD** put the new node into the server root (`files.put` on the
  server itself), whatever the working directory.
- **MKD** replies "550 ... (it exists)" but still replaces the entry.
- **CWD** takes the operand from `substring(4)`. It canonicalises the operand
  and appends "/", so the result always starts with "/": the relative branch
  is dead, and CWD ignores the working directory (`FtpPaths.CwdIgnoresCwd`).
- **canonicalize** lets ".." remove a piece only while more than two pieces
  are held (`FtpPaths.DotDotRule`). It keeps "." pieces.
- **query** is the Kotlin version (a fold that stops at the first null), with
  `path.split("/")` read as the regular-expression split that drops trailing
  empty pieces (`Text.JavaSplit`). The Java version differs: it calls
  `SEPARATOR.split(path)` on the string `"/"`, which uses the path as the
  pattern. For a path such as "a/b" that yields one piece, so the Java query
  answers `get("a/b")`.
- **setParent(null)** detaches a node from its old parent but never clears
  its parent field. After a removal, `get("..")` still answers the old parent.
- **get** treats "." and ".." specially. A handler result named "." is
  merged into the directory itself, and one named ".." into its parent; a
  directory without a parent takes it into its child map under "..", where
  `get` never looks, and a second such result replaces the first. For any
  result the merge keeps every answer `get` gave (`Merging.Enlarges`); for
  trees without those names (`Merging.PlainNames`) it also overwrites
  nothing and leaves the result absorbed and present.

## Model

| member | source | states |
|---|---|---|
| `Nodes.Detached` | core/src/main/java/com/timepath/vfs/SimpleVFile.java:83-88 | a new node has the given name and kind, no children and no parent |
| `Nodes.Length` | core/src/main/java/com/timepath/vfs/SimpleVFile.java:185-194 | a tree directory's length is its child count; an in-memory file's length is its byte count |
| `Nodes.StreamOfDirectories` | core/src/main/java/com/timepath/vfs/MockFile.java:32-42 | outside archives, a node has no stream exactly when it is a directory; an archive entry always streams its data |
| `MockFiles.MockFile` | core/src/main/java/com/timepath/vfs/MockFile.java:21-42 | a detached node named as given; a directory exactly when the content is null; otherwise it streams the UTF-8 bytes of the content |
| `MockFiles.MockDir` | core/src/main/java/com/timepath/vfs/MockFile.java:17-19 | the one-argument constructor makes an empty directory with no stream and length 0 |
| `MockFiles.MockFileAsciiStream` | core/src/main/java/com/timepath/vfs/MockFile.java:21-24 | an ASCII text streams its code points, one byte per character, and its length is the text length |
| `ZipFiles.EntryName` | core/src/main/java/com/timepath/vfs/provider/zip/ZipFile.java:24-29 | the name is the suffix of the entry name after its last "/": it holds no "/", is empty for a directory entry "x/", and is the whole name when there is no "/" |
| `ZipFiles.ZipFile` | core/src/main/java/com/timepath/vfs/provider/zip/ZipFile.java:19-45 | the entry node has the entry's last name, is a directory exactly when the entry is, reports the entry size and streams the entry's data |
| `Text.SortedKeys` | src/main/java/com/timepath/vfs/ftp/FTPFS.java:56-61 | a set of names listed once each, strictly ascending in code-point order, which is `compareTo` order for characters of the Basic Multilingual Plane |
| `Text.StrLeTotal` | src/main/java/com/timepath/vfs/ftp/FTPFS.java:56-61 | the name order is total |
| `Text.StrLeAntisym` | src/main/java/com/timepath/vfs/ftp/FTPFS.java:56-61 | two names each at most the other are equal |
| `Text.StrLeTrans` | src/main/java/com/timepath/vfs/ftp/FTPFS.java:56-61 | the name order is transitive |
| `Text.JavaSplit` | core/src/main/kotlin/com/timepath/vfs/SimpleVFile.kt:150 | a text without the separator splits to itself; no piece holds the separator; trailing empty pieces are dropped |
| `Text.SplitAllJoin` | core/src/main/java/com/timepath/vfs/SimpleVFile.java:266 | joining the raw split pieces gives back the text, and no piece holds the separator |
| `Text.JoinSplitAll` | core/src/main/java/com/timepath/vfs/SimpleVFile.java:266 | splitting separator-free pieces after joining them gives back the pieces |
| `Text.LastIndexOf` | core/src/main/java/com/timepath/vfs/provider/zip/ZipFile.java:28 | -1 or the index of the last occurrence: the character is there and not after it |
| `Text.ToUpper` | src/main/java/com/timepath/vfs/ftp/FTPFS.java:201 | each character is upper-cased, the length is kept |
| `Text.ToLower` | core/src/main/java/com/timepath/vfs/SimpleVFile.java:400 | each character is lower-cased, the length is kept |
| `Text.NatToString` | src/main/java/com/timepath/vfs/ftp/FTPFS.java:276 | the decimal text of a length has at least one character and only digits |
| `Text.ParseBounded` | src/main/java/com/timepath/vfs/ftp/FTPFS.java:229 | a parsed number lies within the bounds of the Java type |
| `Text.DigitsOfNat` | src/main/java/com/timepath/vfs/ftp/FTPFS.java:347 | the decimal text of a natural number reads back as that number |
| `Text.ParseIntToString` | src/main/java/com/timepath/vfs/ftp/FTPFS.java:229 | `Integer.parseInt` reads back an int that `toString` formatted |
| `Text.PadLeft` | src/main/java/com/timepath/vfs/ftp/FTPFS.java:107 | "%ws" pads with leading spaces to at least w columns and ends with the text |
| `Text.PadRight` | src/main/java/com/timepath/vfs/ftp/FTPFS.java:109 | "%-ws" pads with trailing spaces to at least w columns and starts with the text |
| `Text.Utf8` | core/src/main/java/com/timepath/vfs/MockFile.java:23 | between one and four bytes per character |
| `Text.Utf8Ascii` | core/src/main/java/com/timepath/vfs/MockFile.java:23 | ASCII text encodes to its own code points |
| `Lookup.FirstHandled` | core/src/main/java/com/timepath/vfs/SimpleVFile.java:147-151 | none exactly when every handler declines; otherwise the answer of the first handler that answers |
| `Lookup.Get` | core/src/main/java/com/timepath/vfs/SimpleVFile.java:140-152 | "." is the node itself and ".." its parent field; then the child map; the handlers are asked only for a name not in the child map |
| `Lookup.Stack` | core/src/main/kotlin/com/timepath/vfs/SimpleVFile.kt:153-164 | the stack holds no "", "." or ".." and only pieces of the path, and is never longer than the split |
| `Lookup.Resolve` | core/src/main/kotlin/com/timepath/vfs/SimpleVFile.kt:166-172 | resolving ends in the store, and an empty stack resolves to the start node |
| `Lookup.QueryOf` | core/src/main/kotlin/com/timepath/vfs/SimpleVFile.kt:149-173 | the node query answers is a node of the store |
| `Lookup.ResolveAppend` | core/src/main/kotlin/com/timepath/vfs/SimpleVFile.kt:166-172 | resolving a concatenation resolves the first part, then the rest from where it stopped |
| `Lookup.ResolveDescends` | core/src/main/kotlin/com/timepath/vfs/SimpleVFile.kt:166-172 | every resolution step is a child-map lookup or a handler answer, never a climb |
| `Lookup.QueryDotSegments` | core/src/main/kotlin/com/timepath/vfs/SimpleVFile.kt:149-173 | query("a/./b/../c") equals query("a/c") |
| `Lookup.QueryLeadingParents` | core/src/main/kotlin/com/timepath/vfs/SimpleVFile.kt:159-161 | query("../../x") equals query("x"), which is get("x") |
| `Lookup.Children` | core/src/main/java/com/timepath/vfs/SimpleVFile.java:134-138 | list() returns each child node once, exactly the values of the child map, in ascending name order |
| `Lookup.ChildrenFacts` | core/src/main/java/com/timepath/vfs/SimpleVFile.java:134-138 | the values under the sorted keys are the child map's values, and each carries its key as its name |
| `Lookup.Collect` | core/src/main/java/com/timepath/vfs/SimpleVFile.java:398-412 | every node the recursive search reports is a node of the store |
| `Lookup.CollectList` | core/src/main/java/com/timepath/vfs/SimpleVFile.java:402-410 | every node reported for a run of siblings is a node of the store |
| `Lookup.CollectListMembers` | core/src/main/java/com/timepath/vfs/SimpleVFile.java:402-410 | the search over siblings reports exactly the selected nodes that are one of them or lie below one of them through directories |
| `Lookup.CollectMembers` | core/src/main/java/com/timepath/vfs/SimpleVFile.java:398-412 | the search reports x exactly when x lies below the start, reached through directories only, and x's name is selected |
| `Lookup.CollectAll` | core/src/main/java/com/timepath/vfs/SimpleVFile.java:398-412 | the same characterisation, for every node at once |
| `Lookup.Find` | core/src/main/java/com/timepath/vfs/SimpleVFile.java:398-412 | find reports exactly the nodes below the start whose lower-cased name contains the lower-cased search |
| `Lookup.FindExact` | core/src/main/kotlin/com/timepath/vfs/SimpleVFile.kt:265-276 | the Kotlin find reports exactly the nodes below the start whose name equals the search ignoring case |
| `Tree.PushPieces` | core/src/main/kotlin/com/timepath/vfs/SimpleVFile.kt:153-164 | the stack loop builds the resolver's stack of the split path |
| `Tree.Vfs.Query` | core/src/main/kotlin/com/timepath/vfs/SimpleVFile.kt:149-173 | query returns exactly the resolver's answer, a node of the store |
| `Tree.Vfs.GetAll` | core/src/main/kotlin/com/timepath/vfs/SimpleVFile.kt:166-172 | the fold of get over the stack returns the resolution of the stack |
| `Tree.Vfs.Create` | core/src/main/java/com/timepath/vfs/SimpleVFile.java:83-88 | a new object gets an identity no node had, and is stored detached under it with nothing else changed |
| `Tree.Vfs.Remove` | core/src/main/java/com/timepath/vfs/SimpleVFile.java:316-322 | remove(this) throws and changes nothing; otherwise f's name leaves the child map; elsewhere only entries under that name are lost; no parent field changes; on a tree without self-parents it succeeds |
| `Tree.Vfs.RemoveImpl` | core/src/main/java/com/timepath/vfs/SimpleVFile.java:439-444 | the entry under f's name leaves the child map, and the removed node is detached from its parent |
| `Tree.Vfs.SetParent` | core/src/main/java/com/timepath/vfs/SimpleVFile.java:246-255 | same parent: false and no change; null: detaches from the old parent; otherwise f ends in the new parent's child map under its name with that parent recorded, and the old parent no longer holds the name |
| `Tree.Vfs.Add` | core/src/main/java/com/timepath/vfs/SimpleVFile.java:295-303 | add(this) throws and changes nothing; a present child is left alone; otherwise f is moved under dir; never throws on a tree without self-parents |
| `Tree.Vfs.AddImpl` | core/src/main/java/com/timepath/vfs/SimpleVFile.java:333-339 | a present child is left alone; otherwise setParent moves f under dir, or the entry is put directly when dir already was f's parent |
| `Tree.Vfs.AddAll` | core/src/main/java/com/timepath/vfs/SimpleVFile.java:305-314 | afterwards every name of the added nodes maps to the last added node of that name; it succeeds on a tree without self-parents that does not add dir to itself; nothing else changes: other entries of dir keep their nodes, only added nodes change parent (to dir), and other directories lose only entries under added names |
| `Tree.AddBoundStep` | core/src/main/java/com/timepath/vfs/SimpleVFile.java:305-314 | one more add, or a skipped one, keeps addAll's frame bound |
| `Tree.Vfs.AddNext` | core/src/main/java/com/timepath/vfs/SimpleVFile.java:309-311 | one addImpl keeps the addAll invariant for one more node |
| `Tree.Vfs.RemoveAll` | core/src/main/java/com/timepath/vfs/SimpleVFile.java:324-331 | afterwards none of the names is in dir's child map, and the whole tree only lost entries under those names |
| `Tree.SetParentStopped` | core/src/main/java/com/timepath/vfs/SimpleVFile.java:246-249 | an exception from the removal ends setParent with false and only removals done |
| `Tree.SetParentDetached` | core/src/main/java/com/timepath/vfs/SimpleVFile.java:249-250 | setParent(null) reports a change and only drops entries under the node's name |
| `Tree.SetParentAddFailed` | core/src/main/java/com/timepath/vfs/SimpleVFile.java:250-253 | an exception from the new parent's add ends setParent with false, node identities, names and kinds kept |
| `Tree.SetParentMoves` | core/src/main/java/com/timepath/vfs/SimpleVFile.java:246-255 | removal, parent assignment and add together move the node under the new parent |
| `Tree.MoveCompose` | core/src/main/java/com/timepath/vfs/SimpleVFile.java:249-253 | a removal chain, the parent assignment and the add compose to one move |
| `Tree.OnlyDropsTrans` | core/src/main/java/com/timepath/vfs/SimpleVFile.java:439-444 | two removal chains under one name are one removal chain |
| `Tree.HoldersShrink` | core/src/main/java/com/timepath/vfs/SimpleVFile.java:440 | deleting an entry shrinks the set of nodes holding that name, which makes the removal recursion terminate |
| `Tree.DropKey` | core/src/main/java/com/timepath/vfs/SimpleVFile.java:440 | deleting the entry keeps the store consistent and the removed node in place |
| `Tree.PutKey` | core/src/main/java/com/timepath/vfs/SimpleVFile.java:336 | putting f under its name keeps the store consistent and moves f when dir already was its parent |
| `Tree.ShrinksStep` | core/src/main/java/com/timepath/vfs/SimpleVFile.java:327-329 | a removal step extends the set of lost names by one |
| `Tree.AddAllStep` | core/src/main/java/com/timepath/vfs/SimpleVFile.java:309-311 | after addImpl on node i, each name of the first i+1 nodes maps to the last of them carrying it |
| `Tree.AddAllDone` | core/src/main/java/com/timepath/vfs/SimpleVFile.java:305-314 | at the end of the loop the invariant covers every added node |
| `Tree.RemoveAllStep` | core/src/main/java/com/timepath/vfs/SimpleVFile.java:327-329 | after removeImpl on node i, none of the first i+1 names is left in dir |
| `Tree.GetAfterMove` | core/src/main/java/com/timepath/vfs/SimpleVFile.java:142-146 | after a move, get on the new parent finds the moved node, which records that parent |
| `Tree.GetAfterRemove` | core/src/main/java/com/timepath/vfs/SimpleVFile.java:145-151 | after a removal, get on the old parent falls through to the missing-file handlers |
| `Merging.Materialise` | core/src/main/java/com/timepath/vfs/provider/Files.java:57-60 | a handler's result tree is allocated as new, detached nodes mirroring its names, kinds and children, with old nodes untouched |
| `Merging.Attach` | core/src/main/java/com/timepath/vfs/provider/Files.java:60 | add of a new, parentless node puts it under its name and records dir as its parent |
| `Merging.Merge` | core/src/main/java/com/timepath/vfs/provider/Files.java:56-68 | for any result, every answer get gave is kept and only an entry under ".." may be replaced; for a result without "." or ".." names nothing existing is overwritten or lost, and when get(src.name) answered null it now answers a new node that roots an exact copy of src made of new nodes, otherwise it answers the same node and every child of src is absorbed into it (copied or merged, recursively); merging what is present changes nothing |
| `Merging.MergeTwice` | core/src/main/java/com/timepath/vfs/provider/local/LocalFileProvider.java:39-52 | merging the same result without "." or ".." names a second time leaves the tree the first merge left |
| `Merging.AbsorbedPresent` | core/src/main/java/com/timepath/vfs/provider/local/LocalFileProvider.java:39-52 | an absorbed result without "." or ".." names is present: get answers its root and, recursively, every child |
| `Merging.CopiedPresent` | core/src/main/java/com/timepath/vfs/provider/local/LocalFileProvider.java:39-52 | below a copy of such a result, every child is present |
| `Merging.EnlargesGetKept` | core/src/main/java/com/timepath/vfs/provider/Files.java:56-68 | a merge of any result, "." and ".." names included, never changes an answer get already gave |
| `Merging.EnlargesTrans` | core/src/main/java/com/timepath/vfs/provider/Files.java:62-66 | consecutive merges of any results compose |
| `Merging.AddedEnlarges` | core/src/main/java/com/timepath/vfs/provider/Files.java:58-60 | adding the new root under any name get did not answer, ".." included, keeps every other entry |
| `Merging.GrowsEnlarges` | core/src/main/java/com/timepath/vfs/provider/Files.java:56-68 | growth without any replaced entry is a special case of the general merge effect |
| `Merging.GrowsGetKept` | core/src/main/java/com/timepath/vfs/provider/Files.java:56-68 | a merge never changes an answer get already gave |
| `Merging.GrowsTrans` | core/src/main/java/com/timepath/vfs/provider/Files.java:62-66 | consecutive merges compose |
| `Merging.AddedFresh` | core/src/main/java/com/timepath/vfs/provider/Files.java:58-60 | adding the new root under a name get did not answer is a growth of the tree |
| `Merging.AddGetKept` | core/src/main/java/com/timepath/vfs/provider/Files.java:60 | adding under an unanswered name keeps every earlier answer of get |
| `Merging.CopyCopied` | core/src/main/java/com/timepath/vfs/provider/Files.java:57-60 | an exact copy is a copy in the looser sense that survives growth |
| `Merging.CopiedKept` | core/src/main/java/com/timepath/vfs/provider/Files.java:62-66 | a copy of a tree without "." or ".." names stays a copy while the tree grows, even where a ".." entry is replaced |
| `Merging.AbsorbedKept` | core/src/main/java/com/timepath/vfs/provider/Files.java:62-66 | what a merge absorbed, for a result without "." or ".." names, stays absorbed while the tree grows, even where a ".." entry is replaced |
| `Merging.MergedAbsorbed` | core/src/main/java/com/timepath/vfs/provider/Files.java:56-68 | the effect of one merge leaves src absorbed under parent |
| `Merging.AddedCopy` | core/src/main/java/com/timepath/vfs/provider/Files.java:58-60 | in the simple case, get(src.name) now answers the new root of an exact copy of src |
| `Merging.MergedStep` | core/src/main/java/com/timepath/vfs/provider/Files.java:62-66 | one more recursive merge extends the absorbed children by one, keeping earlier ones |
| `Merging.MergedDescent` | core/src/main/java/com/timepath/vfs/provider/Files.java:61-66 | after the recursive case, get answers the node it answered before and every child of src is absorbed into it |
| `Merging.AddedSpec` | core/src/main/java/com/timepath/vfs/provider/Files.java:58-60 | the simple case meets the merge specification |
| `Merging.DescendingDone` | core/src/main/java/com/timepath/vfs/provider/Files.java:61-66 | the recursive case meets the merge specification |
| `Loading.DiskKind` | core/src/main/java/com/timepath/vfs/provider/Files.java:87-117 | a disk node is a directory exactly when the file is, reports the file's size and streams its bytes |
| `Loading.ResultsExact` | core/src/main/java/com/timepath/vfs/provider/local/LocalFileProvider.java:76-83 | a task obtains exactly the collections of the handlers that answered, up to the first handler that throws |
| `Loading.WellBehavedYield` | core/src/main/java/com/timepath/vfs/provider/local/LocalFileProvider.java:76-83 | every result tree of well-behaved handlers has distinct sibling names, as a node's child map does; "." and ".." names are allowed |
| `Loading.Walk` | core/src/main/java/com/timepath/vfs/provider/local/LocalFileProvider.java:62-89 | each listed entry gets a new node added to its parent; directories are walked depth-first; each plain file gets a detection task with its directory, in the order the walk meets them |
| `Loading.AddedEntry` | core/src/main/java/com/timepath/vfs/provider/local/LocalFileProvider.java:65-66 | creating the entry's node and adding it keeps what the earlier entries established |
| `Loading.WalkFileStep` | core/src/main/java/com/timepath/vfs/provider/local/LocalFileProvider.java:70-86 | a plain file adds its node and schedules one task for its directory |
| `Loading.WalkDirStep` | core/src/main/java/com/timepath/vfs/provider/local/LocalFileProvider.java:67-69 | a directory adds its node, and the sub-walk mirrors its listing under that node |
| `Loading.MirroredKept` | core/src/main/java/com/timepath/vfs/provider/local/LocalFileProvider.java:62-89 | later steps of the walk keep what an earlier entry established |
| `Loading.MergeAll` | core/src/main/java/com/timepath/vfs/provider/local/LocalFileProvider.java:80-82 | for any collection, every answer get gave is kept; every root without "." or ".." names ends up absorbed into the file's directory and is then present; with no such names nothing is overwritten, and a collection already present is merged without change, so merging it twice equals merging it once |
| `Loading.MergedAll` | core/src/main/java/com/timepath/vfs/provider/local/LocalFileProvider.java:80-82 | one more merge of the loop keeps every earlier root absorbed and the no-change case intact |
| `Loading.AllAbsorbedPresent` | core/src/main/java/com/timepath/vfs/provider/local/LocalFileProvider.java:39-52 | an absorbed collection without "." or ".." names is present |
| `Loading.RunTask` | core/src/main/java/com/timepath/vfs/provider/local/LocalFileProvider.java:72-86 | a task merges every collection it obtains into the file's directory, stopping at the first exception; every answer get gave is kept, each root without "." or ".." names is absorbed there, and with no such names nothing is overwritten |
| `Loading.RunTasks` | core/src/main/java/com/timepath/vfs/provider/local/LocalFileProvider.java:91-97 | awaiting the detection tasks in submission order runs each one; every answer get gave is kept, every task's results without "." or ".." names are absorbed, and with no such names nothing is overwritten |
| `Loading.TaskDoneStep` | core/src/main/java/com/timepath/vfs/provider/local/LocalFileProvider.java:91-97 | one more awaited task keeps the earlier tasks' results absorbed |
| `Loading.InsertLocal` | core/src/main/java/com/timepath/vfs/provider/local/LocalFileProvider.java:59-99 | LocalFileProvider.insert, whatever names the handlers' results carry: every entry is mirrored by a new node, and every plain file's handler results without "." or ".." names are absorbed into its directory |
| `Loading.OpenLocal` | core/src/main/java/com/timepath/vfs/provider/local/LocalFileProvider.java:24-30 | the provider node is new and carries the file's name and kind; only a directory is loaded recursively, with the handlers' results loaded as by insert |
| `Loading.Record` | core/src/main/java/com/timepath/vfs/provider/Files.java:137-148 | the Files task records each collection with the file's directory, up to the first exception, and merges nothing |
| `Loading.RecordsAre` | core/src/main/java/com/timepath/vfs/provider/Files.java:141-145 | records carrying a task's collections and directory are its records |
| `Loading.RecordAll` | core/src/main/java/com/timepath/vfs/provider/Files.java:151-157 | the archives map holds every task's records in submission order |
| `Loading.ArchivesCover` | core/src/main/java/com/timepath/vfs/provider/Files.java:141-157 | every collection a task obtains is recorded with that task's directory |
| `Loading.ArchivesFrom` | core/src/main/java/com/timepath/vfs/provider/Files.java:141-157 | every recorded collection was obtained by a walked file's task, for that file's directory |
| `Loading.ArchivesSound` | core/src/main/java/com/timepath/vfs/provider/Files.java:141-157 | recorded collections come from well-behaved handlers and target directories the walk made |
| `Loading.MergeArchives` | core/src/main/java/com/timepath/vfs/provider/Files.java:159-165 | every recorded collection is merged into its directory: every answer get gave is kept, each root without "." or ".." names is absorbed there, and with no such names nothing is overwritten |
| `Loading.ArchiveDoneStep` | core/src/main/java/com/timepath/vfs/provider/Files.java:159-165 | one more merged record keeps the earlier records absorbed |
| `Loading.CoveredDone` | core/src/main/java/com/timepath/vfs/provider/Files.java:159-165 | once every record is merged, every task's results are absorbed into that task's directory |
| `Loading.InsertFiles` | core/src/main/java/com/timepath/vfs/provider/Files.java:124-166 | Files.insert, whatever names the handlers' results carry, reaches the same guarantee as LocalFileProvider.insert: every entry mirrored, every handler result without "." or ".." names absorbed into its directory |
| `Loading.OpenFiles` | core/src/main/java/com/timepath/vfs/provider/Files.java:32-47 | the Files node is new and carries the file's name and kind; it is recursive exactly for a directory, whatever names the handlers' results carry |
| `Loading.WalkThenTasks` | core/src/main/java/com/timepath/vfs/provider/local/LocalFileProvider.java:91-97 | the detection tasks keep every entry the walk made, even where a ".." entry is replaced, so the walk's result stays in place |
| `Loading.MirroredLoaded` | core/src/main/java/com/timepath/vfs/provider/local/LocalFileProvider.java:59-99 | a mirrored entry whose tasks are done is loaded |
| `Archives.DirSegments` | core/src/main/java/com/timepath/vfs/provider/zip/ZipFileProvider.java:33-36 | the directory pieces are the split name without its last piece, none holding "/" |
| `Archives.Descend` | core/src/main/java/com/timepath/vfs/provider/zip/ZipFileProvider.java:36-44 | the directory walk keeps the store consistent and old nodes' names and kinds, and only creates MockFile directories |
| `Archives.DescendKeeps` | core/src/main/java/com/timepath/vfs/provider/zip/ZipFileProvider.java:36-44 | the walk never changes an answer get already gave: existing directories are reused, never replaced |
| `Archives.DescendReuses` | core/src/main/java/com/timepath/vfs/provider/zip/ZipFileProvider.java:38-43 | when the whole directory path resolves, nothing is created and the walk ends where the path leads |
| `Archives.DescendResolves` | core/src/main/java/com/timepath/vfs/provider/zip/ZipFileProvider.java:36-44 | without ".." pieces, the directory reached is where the path resolves afterwards |
| `Archives.AttachedFresh` | core/src/main/java/com/timepath/vfs/provider/zip/ZipFileProvider.java:40-41 | a new detached node added to a directory changes only that directory's child map and the node |
| `Archives.AllocKeeps` | core/src/main/java/com/timepath/vfs/provider/zip/ZipFileProvider.java:40 | allocating a node nobody refers to changes no answer of get |
| `Archives.Placed` | core/src/main/java/com/timepath/vfs/provider/zip/ZipFileProvider.java:33-45 | placing an entry keeps the store consistent, and old nodes keep their names and kinds |
| `Archives.EntryPlaced` | core/src/main/java/com/timepath/vfs/provider/zip/ZipFileProvider.java:33-45 | after an entry is placed, its directory holds the entry's ZipFile node under its last name, replacing what was there; every other answer of get is unchanged |
| `Archives.ArchiveTree` | core/src/main/java/com/timepath/vfs/provider/zip/ZipFileProvider.java:27-46 | the loop over entries keeps the store consistent, and old nodes keep their names and kinds |
| `Archives.PlacedNodes` | core/src/main/java/com/timepath/vfs/provider/zip/ZipFileProvider.java:33-45 | each node an entry adds is a MockFile directory or that entry's ZipFile node |
| `Archives.ArchiveNodes` | core/src/main/java/com/timepath/vfs/provider/zip/ZipFileProvider.java:27-46 | each node the archive adds is a MockFile directory or the ZipFile node of one of its entries |
| `Archives.AddNew` | core/src/main/java/com/timepath/vfs/provider/zip/ZipFileProvider.java:40-41 | dir.add(new ...) allocates a detached node and adds it to dir |
| `Archives.DescendOne` | core/src/main/java/com/timepath/vfs/provider/zip/ZipFileProvider.java:37-43 | one get-or-create step keeps the walk invariant |
| `Archives.WalkingDone` | core/src/main/java/com/timepath/vfs/provider/zip/ZipFileProvider.java:36-44 | at the end of the loop, the store and directory are the walk's result |
| `Archives.DescendDirs` | core/src/main/java/com/timepath/vfs/provider/zip/ZipFileProvider.java:36-44 | the loop ends in the store and directory of the directory walk |
| `Archives.PlaceEntry` | core/src/main/java/com/timepath/vfs/provider/zip/ZipFileProvider.java:33-45 | one turn of the entry loop places the entry |
| `Archives.LoadArchive` | core/src/main/java/com/timepath/vfs/provider/zip/ZipFileProvider.java:22-47 | the provider is a new root stub, and every entry is placed in stream order |
| `Security.Wrap` | core/src/main/java/com/timepath/vfs/provider/security/SecurityProvider.java:39-44 | null stays null; any other node gets one more decoration with this controller, over the same tree node |
| `Security.WrapAll` | core/src/main/java/com/timepath/vfs/provider/DelegateProvider.java:38-46 | the same nodes in the same order, each decorated once more |
| `Security.WrapList` | core/src/main/java/com/timepath/vfs/provider/DelegateProvider.java:38-46 | the list-building loop produces the decorated list |
| `Security.FileGet` | core/src/main/java/com/timepath/vfs/provider/security/SecurityProvider.java:33-37 | get through a decorated node answers the data side's answer passed through the controller's get hook, which sees the current tree, and decorated with the same controller; a raw get answers a store node |
| `Security.FileList` | core/src/main/java/com/timepath/vfs/provider/security/SecurityProvider.java:27-31 | every listed node is decorated with the same controller |
| `Security.FileQuery` | core/src/main/java/com/timepath/vfs/provider/DelegateProvider.java:96-100 | query through a decorated node answers a node decorated with the same controller |
| `Security.FileParent` | core/src/main/java/com/timepath/vfs/provider/DelegateProvider.java:84-88 | the parent of a decorated node is decorated with the same controller |
| `Security.FileFind` | core/src/main/java/com/timepath/vfs/provider/DelegateProvider.java:72-76 | every match is decorated with the same controller |
| `Security.FileName` | core/src/main/java/com/timepath/vfs/provider/DelegateProvider.java:267-271 | the name is read through every decoration from the tree node |
| `Security.FileIsDirectory` | core/src/main/java/com/timepath/vfs/provider/DelegateProvider.java:155-158 | isDirectory is read through every decoration |
| `Security.FileLength` | core/src/main/java/com/timepath/vfs/provider/DelegateProvider.java:170-173 | length is read through every decoration |
| `Security.TransparentHooks` | core/src/main/java/com/timepath/vfs/provider/security/SecurityController.java:25-59 | with default controllers all the way down, get, list and openStream reach exactly what the tree gives |
| `Security.UnhookedAnswers` | core/src/main/java/com/timepath/vfs/provider/DelegateProvider.java:84-100 | query and getParent consult no hook: they reach the same tree nodes as the undecorated node, whatever the controllers |
| `Security.UnhookedFind` | core/src/main/java/com/timepath/vfs/provider/DelegateProvider.java:72-76 | find consults no hook: the matches are the undecorated node's, in the same order |
| `Security.QueryBypassesGet` | core/src/main/java/com/timepath/vfs/provider/DelegateProvider.java:96-100 | a controller hiding every node from get does not hide them from query |
| `Security.TransparentAdmits` | core/src/main/java/com/timepath/vfs/provider/security/SecurityController.java:36-38 | the default add hook always reaches the tree |
| `Security.FileAdd` | core/src/main/java/com/timepath/vfs/provider/security/SecurityProvider.java:46-51 | add reaches the tree's add only when every controller on the way calls parent.add; otherwise nothing changes, for any admit policy (forward or refuse); it returns the node itself |
| `Security.ControllerAdd` | core/src/main/java/com/timepath/vfs/provider/security/SecurityController.java:36-38 | security.add forwards to the data side's add exactly when the hook admits it |
| `Security.FileStream` | core/src/main/java/com/timepath/vfs/provider/security/SecurityProvider.java:62-65 | openStream goes through the stream hooks; with no stream hook on the way down the bytes are the tree node's own |
| `Security.FileAddAll` | core/src/main/java/com/timepath/vfs/provider/security/SecurityProvider.java:53-60 | on a transparent node, addAll behaves as the tree's addAll; a refusing controller changes nothing; for any admit policy (forward or refuse), only the added nodes change parent (to the data node) and other directories lose only entries under added names |
| `Security.ControllerAddAll` | core/src/main/java/com/timepath/vfs/provider/security/SecurityProvider.java:53-60 | security.add is applied to each node in order; with default controllers each name maps to the last node of that name; a refusing controller changes nothing; for any admit policy (forward or refuse), only the added nodes change parent (to the data node), the data node keeps its other entries, and other directories lose only entries under added names |
| `Security.AddNext` | core/src/main/java/com/timepath/vfs/provider/security/SecurityProvider.java:56-58 | one turn of the loop keeps the loop invariant |
| `Security.AddingAllStep` | core/src/main/java/com/timepath/vfs/provider/security/SecurityProvider.java:56-58 | one admitted or refused add extends the invariant, frame bound included, by one node |
| `Security.AddingAllDone` | core/src/main/java/com/timepath/vfs/provider/security/SecurityProvider.java:53-60 | at the end of the loop the invariant covers every node |
| `Security.FileRemove` | core/src/main/java/com/timepath/vfs/provider/DelegateProvider.java:215-218 | remove is forwarded through every decoration to the tree's remove, with the same effect |
| `Security.FileRemoveAll` | core/src/main/java/com/timepath/vfs/provider/DelegateProvider.java:220-223 | removeAll is forwarded through every decoration to the tree's removeAll, with the same effect |
| `FtpText.Int32` | src/main/java/com/timepath/vfs/ftp/FTPFS.java:229 | int arithmetic keeps the low 32 bits; values already in range are unchanged |
| `FtpText.Perms` | src/main/java/com/timepath/vfs/ftp/FTPFS.java:94-103 | ten characters; "d" first exactly for a directory; "rwxr--r--" for a directory and "r--r--r--" otherwise |
| `FtpText.FtpLine` | src/main/java/com/timepath/vfs/ftp/FTPFS.java:93-126 | the line starts with the permission column ("d" exactly for a directory) and ends with the date, a space and the name |
| `FtpText.FieldsWidth` | src/main/java/com/timepath/vfs/ftp/FTPFS.java:104-114 | a length of at most four digits and a user of at most eight characters fill exactly 43 columns before the date |
| `FtpText.FtpLineColumns` | src/main/java/com/timepath/vfs/ftp/FTPFS.java:93-126 | in that case the date starts at column 43, followed by one space and the name |
| `FtpText.PortFields` | src/main/java/com/timepath/vfs/ftp/FTPFS.java:250-259 | the PASV address has six fields |
| `FtpText.PasvReply` | src/main/java/com/timepath/vfs/ftp/FTPFS.java:253-260 | the reply is the prefix, the six fields and ")." |
| `FtpText.ParsePort` | src/main/java/com/timepath/vfs/ftp/FTPFS.java:225-232 | PORT's host is the first four fields joined by "."; the port is field 4 * 256 + field 5 in int arithmetic; too few fields, a non-int field or a refused port end the session |
| `FtpText.PortValue` | src/main/java/com/timepath/vfs/ftp/FTPFS.java:229-230 | the port is the int value of hi * 256 + lo, when the socket accepts it |
| `FtpText.PortRoundTrip` | src/main/java/com/timepath/vfs/ftp/FTPFS.java:225-259 | PORT reads back the host and port that PASV's fields announce |
| `FtpText.PasvRoundTrip` | src/main/java/com/timepath/vfs/ftp/FTPFS.java:245-260 | a client taking the text between the parentheses of the PASV reply gets back host and port |
| `FtpText.ParseEprt` | src/main/java/com/timepath/vfs/ftp/FTPFS.java:233-244 | EPRT splits after the delimiter into protocol, host and port, and both numbers must be ints |
| `FtpText.EprtRoundTrip` | src/main/java/com/timepath/vfs/ftp/FTPFS.java:233-244 | EPRT reads back host and port for any non-digit delimiter that the host does not contain |
| `FtpText.EpsvRoundTrip` | src/main/java/com/timepath/vfs/ftp/FTPFS.java:261-267 | splitting the EPSV reply at "\|" gives five fields, the fourth being the port |
| `FtpText.ReceiveText` | src/main/java/com/timepath/vfs/ftp/FTPFS.java:421-430 | the receive loop builds the text of the received lines |
| `FtpText.AssembledAllEmpty` | src/main/java/com/timepath/vfs/ftp/FTPFS.java:425-426 | only empty lines give an empty text |
| `FtpText.AssembledJoins` | src/main/java/com/timepath/vfs/ftp/FTPFS.java:423-430 | from the first non-empty line on, the text is the lines joined with CRLF: leading empty lines are dropped, later ones kept |
| `FtpPaths.StripSlash` | src/main/java/com/timepath/vfs/ftp/FTPFS.java:462-464 | one trailing "/" is cut off, and nothing else changes |
| `FtpPaths.Kept` | src/main/java/com/timepath/vfs/ftp/FTPFS.java:465-476 | the kept pieces are segments: not empty, not "..", and free of "/" |
| `FtpPaths.Canonicalize` | src/main/java/com/timepath/vfs/ftp/FTPFS.java:461-484 | the split loop and the join loop compute the canonical text |
| `FtpPaths.CanonicalPieces` | src/main/java/com/timepath/vfs/ftp/FTPFS.java:465-481 | the canonical text is "/" before each of its segments |
| `FtpPaths.CanonicalShape` | src/main/java/com/timepath/vfs/ftp/FTPFS.java:461-484 | the result is empty or starts with "/", never ends with "/", and splits into an empty piece followed by segments |
| `FtpPaths.CanonicalIdempotent` | src/main/java/com/timepath/vfs/ftp/FTPFS.java:461-484 | canonicalising twice is canonicalising once |
| `FtpPaths.CanonicalOfSlashed` | src/main/java/com/timepath/vfs/ftp/FTPFS.java:461-484 | slashed pieces canonicalise by running the loop over the pieces |
| `FtpPaths.SplitSlashed` | src/main/java/com/timepath/vfs/ftp/FTPFS.java:465 | splitting slashed pieces gives an empty piece followed by the pieces |
| `FtpPaths.KeptSegments` | src/main/java/com/timepath/vfs/ftp/FTPFS.java:467-476 | segments pass the loop unchanged |
| `FtpPaths.DotDotRule` | src/main/java/com/timepath/vfs/ftp/FTPFS.java:469-472 | ".." after segments drops the last one only when more than two are held |
| `FtpPaths.CdupRule` | src/main/java/com/timepath/vfs/ftp/FTPFS.java:290-291 | CDUP from a CWD-shaped directory follows the same more-than-two rule |
| `FtpPaths.Operand` | src/main/java/com/timepath/vfs/ftp/FTPFS.java:271 | an operand starting with "/" is used as is; otherwise the result is canonical |
| `FtpPaths.CwdIgnoresCwd` | src/main/java/com/timepath/vfs/ftp/FTPFS.java:292-297 | CWD's target is the canonical operand plus "/", whatever the working directory |
| `FtpSession.FirstVerb` | src/main/java/com/timepath/vfs/ftp/FTPFS.java:201-446 | the first verb in order whose keyword starts the command, Unknown when none does |
| `FtpSession.Classify` | src/main/java/com/timepath/vfs/ftp/FTPFS.java:201-446 | the dispatch picks the first keyword of the if-chain that starts the upper-cased command |
| `FtpSession.Substring` | src/main/java/com/timepath/vfs/ftp/FTPFS.java:226 | substring(k) fails exactly when k is past the end |
| `FtpSession.Skipped` | src/main/java/com/timepath/vfs/ftp/FTPFS.java:362 | skip never passes the end and skips exactly n bytes when n is in range |
| `FtpSession.Put` | src/main/java/com/timepath/vfs/ftp/FTPFS.java:412 | files.put keeps the directory in the store |
| `FtpSession.PutFacts` | src/main/java/com/timepath/vfs/ftp/FTPFS.java:433 | putting a new node keeps the store consistent and maps the key to that new node, and get finds it there |
| `FtpSession.TypeCmd` | src/main/java/com/timepath/vfs/ftp/FTPFS.java:218-224 | TYPE changes neither the tree nor the session |
| `FtpSession.PortCmd` | src/main/java/com/timepath/vfs/ftp/FTPFS.java:225-232 | PORT changes only the data connection |
| `FtpSession.EprtCmd` | src/main/java/com/timepath/vfs/ftp/FTPFS.java:233-244 | EPRT changes only the data connection |
| `FtpSession.PassiveCmd` | src/main/java/com/timepath/vfs/ftp/FTPFS.java:245-267 | PASV and EPSV change only the passive socket |
| `FtpSession.SizeCmd` | src/main/java/com/timepath/vfs/ftp/FTPFS.java:268-277 | SIZE changes neither the tree nor the session |
| `FtpSession.ModeCmd` | src/main/java/com/timepath/vfs/ftp/FTPFS.java:278-286 | MODE changes neither the tree nor the session |
| `FtpSession.ChangeDir` | src/main/java/com/timepath/vfs/ftp/FTPFS.java:287-305 | CWD/CDUP change only cwd, and only to the computed target |
| `FtpSession.Listing` | src/main/java/com/timepath/vfs/ftp/FTPFS.java:312-331 | one toFTPString line per child, in list order |
| `FtpSession.ListCmd` | src/main/java/com/timepath/vfs/ftp/FTPFS.java:306-333 | LIST changes neither the tree nor cwd, the offset or the passive socket |
| `FtpSession.MdtmCmd` | src/main/java/com/timepath/vfs/ftp/FTPFS.java:337-344 | MDTM changes neither the tree nor the session |
| `FtpSession.RenameFrom` | src/main/java/com/timepath/vfs/ftp/FTPFS.java:399-401 | RNFR changes only the pending-rename flag |
| `FtpSession.RenameTo` | src/main/java/com/timepath/vfs/ftp/FTPFS.java:402-403 | the line after RNFR changes only the pending-rename flag |
| `FtpSession.RestCmd` | src/main/java/com/timepath/vfs/ftp/FTPFS.java:345-347 | REST changes only the offset |
| `FtpSession.RetrCmd` | src/main/java/com/timepath/vfs/ftp/FTPFS.java:348-382 | RETR resets the offset, may use up the data connection, and changes nothing else |
| `FtpSession.MkdCmd` | src/main/java/com/timepath/vfs/ftp/FTPFS.java:404-412 | MKD keeps the store consistent and only adds under the root |
| `FtpSession.StorCmd` | src/main/java/com/timepath/vfs/ftp/FTPFS.java:413-436 | STOR keeps the store consistent and only adds under the root |
| `FtpSession.OptsCmd` | src/main/java/com/timepath/vfs/ftp/FTPFS.java:439-443 | OPTS changes neither the tree nor the session |
| `FtpSession.Unimplemented` | src/main/java/com/timepath/vfs/ftp/FTPFS.java:444-447 | an unknown command changes neither the tree nor the session |
| `FtpSession.Step` | src/main/java/com/timepath/vfs/ftp/FTPFS.java:196-452 | every command keeps the store consistent, only adds under the root, and leaves cwd alone or sets it to a CWD/CDUP target |
| `FtpSession.Run` | src/main/java/com/timepath/vfs/ftp/FTPFS.java:196-453 | the loop keeps the store consistent and the root in it |
| `FtpSession.Drive` | src/main/java/com/timepath/vfs/ftp/FTPFS.java:196-453 | the loop processes the lines in order until a command stops it |
| `FtpSession.Connection.constructor` | src/main/java/com/timepath/vfs/ftp/FTPFS.java:181-186 | a new connection starts at "/" with no passive socket and no data connection |
| `FtpSession.Connection.Adopt` | src/main/java/com/timepath/vfs/ftp/FTPFS.java:179-181 | the connection's fields take the values the session ended with |
| `FtpSession.Connection.Serve` | src/main/java/com/timepath/vfs/ftp/FTPFS.java:188-459 | the connection greets with "220 Welcome", then runs the loop; tree, replies, transfers and fields are the loop's result |
| `FtpSession.ThenAssoc` | src/main/java/com/timepath/vfs/ftp/FTPFS.java:196-453 | running commands one after another composes associatively |
| `FtpSession.RunUnfold` | src/main/java/com/timepath/vfs/ftp/FTPFS.java:196-453 | the loop runs the first command, then the rest unless it stopped |
| `FtpRules.CwdRule` | src/main/java/com/timepath/vfs/ftp/FTPFS.java:287-305 | CWD moves to the canonical operand plus "/" exactly when it resolves to a directory, and replies 250; otherwise it replies 550 and stays |
| `FtpRules.CdupTarget` | src/main/java/com/timepath/vfs/ftp/FTPFS.java:290-291 | CDUP's target from a CWD-shaped directory drops its last segment only at depth three or more |
| `FtpRules.CdupRuleStep` | src/main/java/com/timepath/vfs/ftp/FTPFS.java:287-305 | CDUP moves to that target exactly when it is a directory |
| `FtpRules.CwdMoveKeepsShape` | src/main/java/com/timepath/vfs/ftp/FTPFS.java:287-305 | after CWD or CDUP, cwd is still segments followed by "/" |
| `FtpRules.RunKeepsCwdShape` | src/main/java/com/timepath/vfs/ftp/FTPFS.java:196-453 | over a whole session, cwd always has that shape |
| `FtpRules.StartShaped` | src/main/java/com/timepath/vfs/ftp/FTPFS.java:181 | the initial cwd "/" has that shape |
| `FtpRules.RestRule` | src/main/java/com/timepath/vfs/ftp/FTPFS.java:345-347 | REST stores the parsed offset and reports it; an unparsable operand ends the session |
| `FtpRules.RetrRule` | src/main/java/com/timepath/vfs/ftp/FTPFS.java:348-382 | RETR of a missing file or a directory replies 550; a file is sent from the offset on over the data connection; the offset is reset in every case |
| `FtpRules.RestConsumedOnce` | src/main/java/com/timepath/vfs/ftp/FTPFS.java:345-362 | after REST n, the next RETR sends the file from byte n on, and a second RETR sends the whole file |
| `FtpRules.StepDispatch` | src/main/java/com/timepath/vfs/ftp/FTPFS.java:345-348 | outside a rename, a line classified as REST, RETR or STOR is handled by that command's rule |
| `FtpRules.RestRetrLines` | src/main/java/com/timepath/vfs/ftp/FTPFS.java:345-362 | a REST line then a RETR line of a plain file over a passive connection sends the file from the offset on and clears the offset |
| `FtpRules.RetrSends` | src/main/java/com/timepath/vfs/ftp/FTPFS.java:348-379 | RETR of a plain file over a passive connection sends it from the offset on |
| `FtpRules.ListRule` | src/main/java/com/timepath/vfs/ftp/FTPFS.java:306-333 | LIST sends the listing of cwd over the data connection and replies 150 then 226; without a usable connection, or with a cwd that query cannot find, it ends the session after 150 |
| `FtpRules.ListingLines` | src/main/java/com/timepath/vfs/ftp/FTPFS.java:312-331 | one line per child, sorted by name, each starting with the node's permission column and ending with its date and name |
| `FtpRules.StorRule` | src/main/java/com/timepath/vfs/ftp/FTPFS.java:413-436 | STOR puts a new file under the operand name into the root, holding the UTF-8 upload text, which get then finds |
| `FtpRules.MkdRule` | src/main/java/com/timepath/vfs/ftp/FTPFS.java:404-412 | MKD replies 550 exactly when a directory of that path exists, and puts a new directory into the root either way |
| `FtpRules.QueryRooted` | core/src/main/kotlin/com/timepath/vfs/SimpleVFile.kt:149-173 | query("/x") is get("x") |
| `FtpRules.StorThenRetr` | src/main/java/com/timepath/vfs/ftp/FTPFS.java:413-436 | a RETR of an uploaded file sends back exactly the uploaded text as UTF-8 |
| `FtpRules.SizeRule` | src/main/java/com/timepath/vfs/ftp/FTPFS.java:268-277 | SIZE replies 550 for a missing file or a directory, and otherwise 213 with the length |
| `FtpRules.StorThenSize` | src/main/java/com/timepath/vfs/ftp/FTPFS.java:268-277 | SIZE of an uploaded ASCII file reports the text's length |
| `FtpRules.MdtmMissing` | src/main/java/com/timepath/vfs/ftp/FTPFS.java:337-344 | MDTM of a missing file ends the session without a reply |
| `FtpRules.ModeRule` | src/main/java/com/timepath/vfs/ftp/FTPFS.java:278-286 | MODE accepts exactly S, B and C |
| `FtpRules.UnknownRule` | src/main/java/com/timepath/vfs/ftp/FTPFS.java:444-447 | an unknown command is answered 502 with its first word |
| `FtpRules.PortRule` | src/main/java/com/timepath/vfs/ftp/FTPFS.java:225-232 | PORT with PASV-style fields connects to that host and port |
| `FtpRules.EprtRule` | src/main/java/com/timepath/vfs/ftp/FTPFS.java:233-244 | EPRT with a well-formed operand connects to that host and port |
| `FtpRules.PassiveRule` | src/main/java/com/timepath/vfs/ftp/FTPFS.java:245-267 | PASV/EPSV open the passive socket on the chosen port, and the single reply announces it readably |
| `FtpRules.RenameSteps` | src/main/java/com/timepath/vfs/ftp/FTPFS.java:399-403 | RNFR replies 350 and the next line 250, and nothing is renamed |

## Left out

- Sockets, threads and the executor are not modelled. These include the accept loop, the detection task pool, and the latch-driven thread pool of LIST. The loaders run each task when it is awaited, and LIST builds its lines in order. Because of that, the races and locking (`synchronized`) of the original are not modelled.
- Clocks and dates are not modelled. Dates (`lastModified`, the LIST and MDTM formats) are text supplied per command. `setLastModified` and the per-node time stamps are not modelled.
- File-system I/O is not modelled. A disk tree is a `Loading.Source` value. `File.listFiles` returning null, disk reads and `extract` are not modelled.
- Zip decoding is not modelled. An archive is the sequence of its entries with their bytes, and `ZipInputStream` is not modelled.
- Host name resolution and connection failures are not modelled. A data connection is a `Link` value: it cannot fail once the port is valid.
- Plugin discovery (`ServiceLoader`, `locate`), `registerMissingFileHandler`, the listener registry, and the `fileAdded`/`fileModified`/`fileRemoved` notifications are not modelled. The core reads back only the registered missing-file handlers (in `get`); the model takes them as a fixed parameter `hs`, so registering one while the tree is in use is not modelled.
- `getPath`, `getIcon`, `owner`/`group` and the constant answers of `canRead`, `canWrite` and the other permission getters are not modelled. They are cosmetic or constant.
- Nodes.Length: caches nothing. The source stores the first `lengthEstimate()` of a file. The model answers the byte count, which is what that estimate is for in-memory streams.
- Lookup.Children: enumerates children in ascending name order. `HashMap` order is unspecified, so any fixed order is one that the source may use.
- Lookup.Find: requires an acyclic ranking of the tree (`Ranked`). The tree does not keep one. On a cycle, the source recurses until the stack overflows.
- Lookup.Find: states which nodes are reported, not the depth-first order of the report.
- Merging.Merge: proves the copy-or-absorb guarantee, presence and no-overwrite only for results without "." or ".." names (`PlainNames`). For other names the source's `get` answers without the child map, and only `Enlarges` is stated: every answer of get kept, and only an entry under ".." replaced.
- Loading.MergeAll: states that each root ends up absorbed (a copy of it, or a node its children were absorbed into), not which of the two the merge chose. An earlier merge, or a handler answering for a node of another collection, can answer the name first, so the choice is not pinned to the store before the load.
- Loading.RunTask: as for Loading.MergeAll, each result root is stated absorbed, not whether it was copied or descended into.
- Loading.InsertLocal: as for Loading.MergeAll, each handler result is stated absorbed into its directory, not whether it was copied or descended into.
- Loading.MergeArchives: as for Loading.MergeAll, each recorded root is stated absorbed, not whether it was copied or descended into.
- Loading.InsertFiles: as for Loading.MergeAll, each handler result is stated absorbed into its directory, not whether it was copied or descended into.
- Merging.Merge: pins the decision of the top level only (an exact copy, or the node that answered). Below that, each child is stated absorbed, because an earlier sibling's merge or a handler can answer a deeper name first.
- Security.ControllerAdd: a custom add hook is modelled as forward-or-refuse (`admit`): it either calls `parent.add(file)` or does nothing. An overriding `SecurityController.add` may do anything else to `parent` or `file` (add another node, remove one, re-parent one); those effects are not modelled, and the frame and "nothing changes" guarantees of `Security.FileAdd`, `Security.FileAddAll` and `Security.ControllerAddAll` hold for forward-or-refuse hooks only.
- Security.ControllerAddAll: for a custom add hook, states only the frame bound (who may change parent, which entries may go), not which nodes the hook adds.
- Text.StrLe: compares code points. Java strings are UTF-16, and `compareTo` compares UTF-16 units, so names with characters outside the Basic Multilingual Plane may sort differently.
- FtpSession.Substring: operand offsets (`charAt(5)`, `substring(4)`, `substring(5)` in FTPFS.java at lines 219, 226, 293 and 405) are counted in characters, not UTF-16 units. They agree for text inside the Basic Multilingual Plane.
- Text.ParseBounded: accepts ASCII digits only. Java's `parseInt` and `parseLong` also accept digits of other scripts.
- Text.JavaSplit: models the Kotlin `path.split("/")` as the regular-expression split that drops trailing empty pieces. That choice decides `query("a/")`: the split gives the single piece "a", so query answers `get("a/")`, where a split keeping the trailing empty piece would resolve the node a. The Java `query` splits the string "/" by the path instead, so it answers `get(path)` for any path that does not match the whole of "/"; that version is not modelled, and `DelegateProvider.query` forwards to whichever is in use.
- Loading.RecordAll: keeps every recorded collection in sequence. The source's `HashMap` keyed by collections would collapse two equal collections into one record. The model also merges the records in submission order, while the source merges them in the unspecified iteration order of that `HashMap` (Files.java:159-165). The absorbed guarantee of `Loading.MergeArchives` does not depend on that order, but the resulting store (which collection copies a name first, and which node ids are allocated) does.
- Lookup.Get: a missing-file handler is a pure function of the directory and the name that can answer only a node already in the store (`Lookup.HandlersClosed`). A `MissingFileHandler.handle` may instead build a new node on each call or answer according to the tree's current state. `Merging.GrowsGetKept`, `Archives.DescendKeeps` and Merge's no-overwrite guarantee rely on handlers being pure in this sense.
- Text.ToUpper: upper- and lower-casing are ASCII only. Java's locale- and Unicode-aware case mapping is not modelled.
- FtpSession.RestCmd: stores the parsed offset as is. A negative offset is clamped to zero when skipping (`FtpSession.Skipped`), as `InputStream.skip` does for the in-memory streams modelled here.
- FtpSession.RenameFrom: RNFR renames nothing in the source either. The handler reads the next line itself; the model marks the session as renaming, and the next line is consumed by `RenameTo`.
- DelegateProvider's `setParent` and the parent field of decorated nodes are not modelled. Decorations are values over tree nodes.
