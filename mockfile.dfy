/** MockFile: the in-memory node that archive directories, MKD and STOR create. */
module MockFiles {
  import opened Wrappers
  import opened Text
  import opened Nodes

  /**
   * new MockFile(name, cont): a directory when the content is null, otherwise
   * a file holding the UTF-8 encoding of the content.
   */
  function MockFile(name: string, content: Option<string>): (r: NodeRec)
    ensures r.name == name && r.children == map[] && r.parent.None?
    ensures IsDirectory(r) <==> content.None?
    ensures content.None? ==> OpenStream(r).None?
    ensures content.Some? ==> OpenStream(r) == Some(Utf8(content.value))
  {
    Detached(name, if content.None? then Dir else Content(Utf8(content.value)))
  }

  /** new MockFile(name): the one-argument constructor passes a null content. */
  function MockDir(name: string): (r: NodeRec)
    ensures r.name == name && r.kind == Dir && r.children == map[] && r.parent.None?
    ensures IsDirectory(r) && OpenStream(r).None? && Length(r) == 0
  {
    MockFile(name, None)
  }

  /** An ASCII text file streams exactly its characters' code points. */
  lemma MockFileAsciiStream(name: string, text: string)
    requires forall i :: 0 <= i < |text| ==> text[i] as int < 0x80
    ensures OpenStream(MockFile(name, Some(text))) == Some(seq(|text|, i requires 0 <= i < |text| => text[i] as int))
    ensures Length(MockFile(name, Some(text))) == |text|
  {
    Utf8Ascii(text);
  }
}
