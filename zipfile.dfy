/** ZipFile: the node for one archive entry, named after the last path segment. */
module ZipFiles {
  import opened Wrappers
  import opened Text
  import opened Nodes

  /** An archive entry as the archive reader delivers it, with its bytes. */
  datatype ZipEntry = ZipEntry(name: string, isDir: bool, size: int, data: seq<byte>)

  /** getName(): the part of the entry name after its last '/'. */
  function EntryName(entryName: string): (r: string)
    ensures '/' !in r
    ensures EndsWith(entryName, r)
    ensures EndsWith(entryName, "/") ==> r == ""
    ensures '/' !in entryName ==> r == entryName
  {
    var i := LastIndexOf(entryName, '/');
    AfterIndex(entryName, i);
    entryName[i + 1..]
  }

  lemma AfterIndex(s: string, i: int)
    requires i == LastIndexOf(s, '/')
    ensures '/' !in s[i + 1..]
    ensures EndsWith(s, s[i + 1..])
    ensures EndsWith(s, "/") ==> s[i + 1..] == ""
    ensures '/' !in s ==> s[i + 1..] == s
  {
    var r := s[i + 1..];
    forall j | 0 <= j < |r| ensures r[j] != '/' {
      assert r[j] == s[i + 1 + j];
    }
    if EndsWith(s, "/") {
      assert s[|s| - 1] == '/';
    }
    if '/' !in s {
      assert i == -1;
    }
  }

  /** new ZipFile(e, data): a detached node reading through to the entry. */
  function ZipFile(e: ZipEntry): (r: NodeRec)
    ensures r.name == EntryName(e.name) && r.children == map[] && r.parent.None?
    ensures r.kind == Archive(e.isDir, e.size, e.data)
    ensures IsDirectory(r) == e.isDir
    ensures Length(r) == e.size
    ensures OpenStream(r) == Some(e.data)
  {
    Detached(EntryName(e.name), Archive(e.isDir, e.size, e.data))
  }
}
