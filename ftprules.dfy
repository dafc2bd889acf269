/**
 * What one command line does to an FTP session, command by command, and
 * what short sequences of commands do: the promises of FTPFS.FTPConnection
 * stated over Step and Run.
 */
module FtpRules {
  import opened Wrappers
  import opened Text
  import opened Nodes
  import opened Lookup
  import opened MockFiles
  import opened FtpPaths
  import opened FtpText
  import opened FtpSession


  // ---------------------------------------------------------------------
  // Directory changes.
  // ---------------------------------------------------------------------

  /**
   * CWD: the operand from index 4 (the space after the verb included) is
   * canonicalised and given a trailing "/"; cwd becomes that text exactly
   * when query finds a directory there (250), otherwise it stays (550).
   * A line too short for the operand ends the session without a reply.
   */
  lemma CwdRule(st: Session, s: Store, hs: seq<Handler>, root: NodeId, cmd: string)
    requires Consistent(s, hs) && root in s
    ensures var o := ChangeDir(st, s, hs, root, cmd, false);
      && o.store == s && o.sent == []
      && (|cmd| < 4 ==> !o.go && o.replies == [] && o.next == st)
      && (|cmd| >= 4 ==>
            var t := Canonical(cmd[4..]) + "/";
            var f := QueryOf(s, hs, root, t);
            && o.go
            && (f.Some? && IsDirectory(s[f.value]) ==> o.next == st.(cwd := t) && o.replies == ["250 Directory successfully changed."])
            && (!(f.Some? && IsDirectory(s[f.value])) ==> o.next == st && o.replies == ["550 Failed to change directory."]))
  {
    if |cmd| >= 4 {
      CwdIgnoresCwd(st.cwd, cmd[4..]);
    }
  }

  /** The shapes cwd takes: "/"-prefixed segments, possibly followed by one "/". */
  ghost predicate CwdShaped(cwd: string, ps: seq<string>)
  {
    (forall i :: 0 <= i < |ps| ==> Segment(ps[i])) && (cwd == Slashed(ps) || cwd == Slashed(ps) + "/")
  }

  /** The directory CDUP computes from a cwd of canonical shape: the last segment goes only when more than two are held. */
  lemma CdupTarget(cwd: string, ps: seq<string>)
    requires CwdShaped(cwd, ps)
    ensures Canonical(cwd + "/..") == if |ps| > 2 then Slashed(ps[..|ps| - 1]) else Slashed(ps)
  {
    if cwd == Slashed(ps) {
      DotDotRule(ps);
    } else {
      assert cwd + "/.." == Slashed(ps) + "/" + "/..";
      CdupRule(ps);
    }
  }

  /**
   * CDUP: cwd + "/.." canonicalised, so the two top levels are never left;
   * cwd moves there when query finds a directory (250), otherwise 550.
   */
  lemma CdupRuleStep(st: Session, s: Store, hs: seq<Handler>, root: NodeId, cmd: string, ps: seq<string>)
    requires Consistent(s, hs) && root in s
    requires CwdShaped(st.cwd, ps)
    ensures var o := ChangeDir(st, s, hs, root, cmd, true);
      var t := if |ps| > 2 then Slashed(ps[..|ps| - 1]) else Slashed(ps);
      var f := QueryOf(s, hs, root, t);
      && o.store == s && o.sent == [] && o.go
      && (f.Some? && IsDirectory(s[f.value]) ==> o.next == st.(cwd := t) && o.replies == ["250 Directory successfully changed."])
      && (!(f.Some? && IsDirectory(s[f.value])) ==> o.next == st && o.replies == ["550 Failed to change directory."])
  {
    CdupTarget(st.cwd, ps);
  }

  /**
   * Every cwd a command can leave behind (the old one, the CWD target or
   * the CDUP target, which is all Step allows) is again of the canonical shape.
   */
  lemma CwdMoveKeepsShape(st: Session, cmd: string, c: string, ps: seq<string>)
    requires CwdShaped(st.cwd, ps)
    requires c == st.cwd || DirTarget(st, cmd, false) == Some(c) || DirTarget(st, cmd, true) == Some(c)
    ensures exists qs :: CwdShaped(c, qs)
  {
    if c == st.cwd {
      assert CwdShaped(c, ps);
    } else if DirTarget(st, cmd, false) == Some(c) {
      CwdIgnoresCwd(st.cwd, cmd[4..]);
      var qs := CanonicalPieces(cmd[4..]);
      assert CwdShaped(c, qs);
    } else {
      CdupTarget(st.cwd, ps);
      if |ps| > 2 {
        var qs := ps[..|ps| - 1];
        assert CwdShaped(c, qs);
      } else {
        assert CwdShaped(c, ps);
      }
    }
  }

  /** A whole run from a canonically shaped cwd (the initial "/" is one) ends with a canonically shaped cwd. */
  lemma {:induction false} RunKeepsCwdShape(st: Session, s: Store, hs: seq<Handler>, root: NodeId, lines: seq<string>, envs: seq<Env>, cfg: Config, ps: seq<string>)
    requires Consistent(s, hs) && root in s && |envs| == |lines|
    requires CwdShaped(st.cwd, ps)
    ensures exists qs :: CwdShaped(Run(st, s, hs, root, lines, envs, cfg).next.cwd, qs)
    decreases |lines|
  {
    if |lines| == 0 {
      assert CwdShaped(Run(st, s, hs, root, lines, envs, cfg).next.cwd, ps);
    } else {
      var o := Step(st, s, hs, root, lines[0], envs[0], cfg);
      RunUnfold(st, s, hs, root, lines, envs, cfg);
      CwdMoveKeepsShape(st, lines[0], o.next.cwd, ps);
      var qs :| CwdShaped(o.next.cwd, qs);
      if o.go {
        RunKeepsCwdShape(o.next, o.store, hs, root, lines[1..], envs[1..], cfg, qs);
      }
    }
  }

  /** A new connection's cwd, "/", is of the canonical shape. */
  lemma StartShaped()
    ensures CwdShaped(Start.cwd, [])
  {
    assert Slashed([]) + "/" == "/";
  }

  // ---------------------------------------------------------------------
  // REST and RETR (the restart marker of section 5 of RFC 3659).
  // ---------------------------------------------------------------------

  /** REST n stores n as the offset of the next RETR; an operand that is not a long ends the session. */
  lemma RestRule(st: Session, s: Store, cmd: string)
    ensures var o := RestCmd(st, s, cmd);
      && o.store == s && o.sent == []
      && (|cmd| >= 5 && ParseLong(cmd[5..]).Some? ==>
            var n := ParseLong(cmd[5..]).value;
            o.go && o.next == st.(skip := n) && o.replies == ["350 Skipped " + IntToString(n) + " bytes"])
      && (!(|cmd| >= 5 && ParseLong(cmd[5..]).Some?) ==> !o.go && o.next == st && o.replies == [])
  {
  }

  /**
   * RETR takes the offset and resets it to 0 whatever happens next. A file
   * that opens is sent from the offset (clamped to its length) over the
   * data connection, which is then closed; a missing path or a directory
   * gets 550 and nothing is sent.
   */
  lemma RetrRule(st: Session, s: Store, hs: seq<Handler>, root: NodeId, cmd: string)
    requires Consistent(s, hs) && root in s
    ensures var o := RetrCmd(st, s, hs, root, cmd);
      && o.store == s && o.next.skip == 0 && o.next.cwd == st.cwd && o.next.pasv == st.pasv
      && (|cmd| < 5 ==> !o.go && o.replies == [] && o.sent == [])
      && (|cmd| >= 5 ==>
            var f := QueryOf(s, hs, root, Operand(st.cwd, cmd[5..]));
            && (f.None? || IsDirectory(s[f.value]) ==>
                  o.go && o.replies == ["550 Failed to open file."] && o.sent == [] && o.next == st.(skip := 0))
            && (f.Some? && !IsDirectory(s[f.value]) && OpenStream(s[f.value]).Some? && Usable(Attach(st)) ==>
                  var b := OpenStream(s[f.value]).value;
                  && o.go && o.next.data == Closed
                  && o.replies == ["150 Opening BINARY mode data connection for file", "226 File sent"]
                  && o.sent == [Transfer(Attach(st), Bytes(b[Skipped(st.skip, |b|)..]))]))
  {
  }

  /**
   * The offset is consumed exactly once: after REST n, the next RETR of a
   * file over a passive connection sends it from n on (the first n bytes
   * are the ones skipped), and a second RETR sends the whole file.
   */
  lemma RestConsumedOnce(st: Session, s: Store, hs: seq<Handler>, root: NodeId, rest: string, retr: string, n: int)
    requires Consistent(s, hs) && root in s
    requires |rest| >= 5 && ParseLong(rest[5..]) == Some(n)
    requires |retr| >= 5 && st.pasv.Some?
    requires var f := QueryOf(s, hs, root, Operand(st.cwd, retr[5..]));
      f.Some? && !IsDirectory(s[f.value]) && OpenStream(s[f.value]).Some?
    ensures var b := OpenStream(s[QueryOf(s, hs, root, Operand(st.cwd, retr[5..])).value]).value;
      var o1 := RestCmd(st, s, rest);
      var o2 := RetrCmd(o1.next, o1.store, hs, root, retr);
      var o3 := RetrCmd(o2.next, o2.store, hs, root, retr);
      && o1.go && o2.go && o3.go
      && o2.sent == [Transfer(Accepted(st.pasv.value), Bytes(b[Skipped(n, |b|)..]))]
      && (0 <= n <= |b| ==> b[..n] + o2.sent[0].payload.bytes == b)
      && o3.sent == [Transfer(Accepted(st.pasv.value), Bytes(b))]
  {
    var o1 := RestCmd(st, s, rest);
    RestRule(st, s, rest);
    assert o1.next == st.(skip := n) && o1.store == s;
    RetrSends(o1.next, s, hs, root, retr);
    var o2 := RetrCmd(o1.next, o1.store, hs, root, retr);
    RetrSends(o2.next, s, hs, root, retr);
    var b := OpenStream(s[QueryOf(s, hs, root, Operand(st.cwd, retr[5..])).value]).value;
    SkipNone(b);
    if 0 <= n <= |b| {
      assert b[..n] + b[n..] == b;
    }
  }

  /** A RETR of a plain file over a passive connection sends it from the offset on and clears the offset. */
  lemma RetrSends(st: Session, s: Store, hs: seq<Handler>, root: NodeId, retr: string)
    requires Consistent(s, hs) && root in s
    requires |retr| >= 5 && st.pasv.Some?
    requires var f := QueryOf(s, hs, root, Operand(st.cwd, retr[5..]));
      f.Some? && !IsDirectory(s[f.value]) && OpenStream(s[f.value]).Some?
    ensures var b := OpenStream(s[QueryOf(s, hs, root, Operand(st.cwd, retr[5..])).value]).value;
      var o := RetrCmd(st, s, hs, root, retr);
      && o.go && o.store == s && o.next.skip == 0 && o.next.cwd == st.cwd && o.next.pasv == st.pasv
      && o.sent == [Transfer(Accepted(st.pasv.value), Bytes(b[Skipped(st.skip, |b|)..]))]
  {
    RetrRule(st, s, hs, root, retr);
  }

  /** Outside a rename, a line classified as REST, RETR or STOR is handled by that command's rule. */
  lemma StepDispatch(st: Session, s: Store, hs: seq<Handler>, root: NodeId, cmd: string, env: Env, cfg: Config)
    requires Consistent(s, hs) && root in s && !st.renaming
    ensures Classify(ToUpper(cmd)) == REST ==> Step(st, s, hs, root, cmd, env, cfg) == RestCmd(st, s, cmd)
    ensures Classify(ToUpper(cmd)) == RETR ==> Step(st, s, hs, root, cmd, env, cfg) == RetrCmd(st, s, hs, root, cmd)
    ensures Classify(ToUpper(cmd)) == STOR ==> Step(st, s, hs, root, cmd, env, cfg) == StorCmd(st, s, hs, root, cmd, env)
  {
  }

  /**
   * The REST/RETR promise over whole lines of the session: a REST line
   * followed by a RETR line of a plain file over a passive connection
   * sends the file from the offset on.
   */
  lemma {:induction false} RestRetrLines(st: Session, s: Store, hs: seq<Handler>, root: NodeId, rest: string, retr: string,
                                         n: int, e1: Env, e2: Env, cfg: Config)
    requires Consistent(s, hs) && root in s && !st.renaming && st.pasv.Some?
    requires Classify(ToUpper(rest)) == REST && Classify(ToUpper(retr)) == RETR
    requires |rest| >= 5 && ParseLong(rest[5..]) == Some(n) && |retr| >= 5
    requires var f := QueryOf(s, hs, root, Operand(st.cwd, retr[5..]));
      f.Some? && !IsDirectory(s[f.value]) && OpenStream(s[f.value]).Some?
    ensures var b := OpenStream(s[QueryOf(s, hs, root, Operand(st.cwd, retr[5..])).value]).value;
      var o1 := Step(st, s, hs, root, rest, e1, cfg);
      var o2 := Step(o1.next, o1.store, hs, root, retr, e2, cfg);
      && o1.go && o2.go && o2.next.skip == 0
      && o2.sent == [Transfer(Accepted(st.pasv.value), Bytes(b[Skipped(n, |b|)..]))]
  {
    StepDispatch(st, s, hs, root, rest, e1, cfg);
    var o1 := RestCmd(st, s, rest);
    RestRule(st, s, rest);
    StepDispatch(o1.next, o1.store, hs, root, retr, e2, cfg);
    RetrSends(o1.next, s, hs, root, retr);
  }

  lemma SkipNone(b: seq<byte>)
    ensures b[Skipped(0, |b|)..] == b
  {
  }

  // ---------------------------------------------------------------------
  // LIST.
  // ---------------------------------------------------------------------

  /**
   * LIST ignores its operand: after "150", cwd's children go out over the
   * data connection (a fresh accept when passive), which is then closed,
   * and "226" follows. With no usable connection, or a cwd that query
   * cannot find, the session ends after the "150".
   */
  lemma ListRule(st: Session, s: Store, hs: seq<Handler>, root: NodeId, env: Env, cfg: Config)
    requires Consistent(s, hs) && root in s
    ensures var o := ListCmd(st, s, hs, root, env, cfg);
      var link := Attach(st);
      var v := QueryOf(s, hs, root, st.cwd);
      && o.store == s && o.next.cwd == st.cwd && o.next.skip == st.skip && o.next.pasv == st.pasv
      && (!Usable(link) || v.None? ==> !o.go && o.replies == ["150 Here comes the directory listing."] && o.sent == [])
      && (Usable(link) && v.Some? ==>
            && o.go && o.next.data == Closed
            && o.replies == ["150 Here comes the directory listing.", "226 Directory send OK."]
            && o.sent == [Transfer(link, Lines(Listing(s, v.value, cfg.user, env.listDate)))])
  {
  }

  /** What a LIST line says about its node: the permission column, "d" exactly for a directory, the date and the name last. */
  predicate DescribesNode(line: string, r: NodeRec, date: string)
  {
    |line| >= 10 && line[..10] == Perms(IsDirectory(r))
    && (line[0] == 'd' <==> IsDirectory(r))
    && EndsWith(line, date + " " + r.name)
  }

  /**
   * The listing has one line per child and every child has a line, in
   * ascending name order; each line describes its child.
   */
  lemma ListingLines(s: Store, v: NodeId, user: string, date: NodeId -> string)
    requires WellFormed(s) && v in s
    ensures var r := Listing(s, v, user, date);
      var cs := Children(s, v);
      && |r| == |cs| == |s[v].children|
      && (forall x :: x in cs <==> x in s[v].children.Values)
      && (forall i, j :: 0 <= i < j < |cs| ==> StrLt(s[cs[i]].name, s[cs[j]].name))
      && (forall i :: 0 <= i < |r| ==> DescribesNode(r[i], s[cs[i]], date(cs[i])))
  {
    var r := Listing(s, v, user, date);
    var cs := Children(s, v);
    forall i | 0 <= i < |r|
      ensures DescribesNode(r[i], s[cs[i]], date(cs[i]))
    {
      assert r[i] == FtpLine(s[cs[i]], user, date(cs[i]));
    }
  }

  // ---------------------------------------------------------------------
  // STOR, MKD and RETR of what was stored.
  // ---------------------------------------------------------------------

  /**
   * STOR name: after "150", the uploaded lines (joined by CRLF, leading
   * empty lines dropped) become a new file in the root's child map, keyed
   * by the operand and replacing any entry there; the data connection is
   * closed. With no usable connection the session ends after the "150"
   * and the tree is unchanged.
   */
  lemma StorRule(st: Session, s: Store, hs: seq<Handler>, root: NodeId, cmd: string, env: Env)
    requires Consistent(s, hs) && root in s
    ensures var o := StorCmd(st, s, hs, root, cmd, env);
      && Consistent(o.store, hs) && o.sent == []
      && o.next.cwd == st.cwd && o.next.skip == st.skip && o.next.pasv == st.pasv
      && (|cmd| < 5 ==> !o.go && o.store == s && o.replies == [])
      && (|cmd| >= 5 && !Usable(Attach(st)) ==> !o.go && o.store == s && o.replies == ["150 Entering Transfer Mode"])
      && (|cmd| >= 5 && Usable(Attach(st)) ==>
            var key := cmd[5..];
            && o.go && o.next.data == Closed
            && o.replies == ["150 Entering Transfer Mode", "226 File uploaded successfully"]
            && o.store == Put(s, root, key, MockFile(key, Some(Assembled(env.upload))))
            && o.store[root].children == s[root].children[key := FreshId(s)]
            && OpenStream(o.store[FreshId(s)]) == Some(Utf8(Assembled(env.upload)))
            && !IsDirectory(o.store[FreshId(s)])
            && (key != "." && key != ".." ==> Get(o.store, hs, root, key) == Some(FreshId(s))))
  {
    if |cmd| >= 5 && Usable(Attach(st)) {
      var key := cmd[5..];
      PutFacts(s, hs, root, key, MockFile(key, Some(Assembled(env.upload))));
    }
  }

  /**
   * MKD: the operand from index 4 (keeping the space after the verb) is
   * put into the root's child map as a new directory whether or not the
   * reply is 550; the 550 is sent exactly when query already finds a
   * directory under that text.
   */
  lemma MkdRule(st: Session, s: Store, hs: seq<Handler>, root: NodeId, cmd: string)
    requires Consistent(s, hs) && root in s
    ensures var o := MkdCmd(st, s, hs, root, cmd);
      && Consistent(o.store, hs) && o.next == st && o.sent == []
      && (|cmd| < 4 ==> !o.go && o.store == s && o.replies == [])
      && (|cmd| >= 4 ==>
            var key := cmd[4..];
            var f := QueryOf(s, hs, root, key);
            && o.go
            && o.store == Put(s, root, key, MockDir(key))
            && IsDirectory(o.store[FreshId(s)])
            && (key != "." && key != ".." ==> Get(o.store, hs, root, key) == Some(FreshId(s)))
            && (f.Some? && IsDirectory(s[f.value]) <==> o.replies == ["550 Failed to create directory. (it exists)"])
            && (!(f.Some? && IsDirectory(s[f.value])) <==> o.replies == ["200 created directory."]))
  {
    if |cmd| >= 4 {
      PutFacts(s, hs, root, cmd[4..], MockDir(cmd[4..]));
    }
  }

  /** query("/x") for a plain name x is get(x) on the start node. */
  lemma QueryRooted(s: Store, hs: seq<Handler>, id: NodeId, x: string)
    requires Consistent(s, hs) && id in s && Plain(x)
    ensures QueryOf(s, hs, id, "/" + x) == Get(s, hs, id, x)
  {
    assert Slashed([x]) == "/" + x;
    SplitSlashed([x]);
    assert Stack(["", x]) == [x] by {
      assert ["", x][..1] == [""];
      assert [""][..0] == [];
    }
    assert [x][1..] == [];
  }

  /**
   * Upload then download: STOR name over a passive connection, then RETR
   * "/name" with no pending offset sends back the UTF-8 bytes of the text
   * the upload assembled.
   */
  lemma StorThenRetr(st: Session, s: Store, hs: seq<Handler>, root: NodeId, stor: string, retr: string, env: Env)
    requires Consistent(s, hs) && root in s
    requires |stor| >= 5 && Plain(stor[5..])
    requires |retr| >= 5 && retr[5..] == "/" + stor[5..]
    requires st.pasv.Some? && st.skip == 0
    ensures var o1 := StorCmd(st, s, hs, root, stor, env);
      var o2 := RetrCmd(o1.next, o1.store, hs, root, retr);
      && o1.go && o2.go
      && o2.replies == ["150 Opening BINARY mode data connection for file", "226 File sent"]
      && o2.sent == [Transfer(Accepted(st.pasv.value), Bytes(Utf8(Assembled(env.upload))))]
  {
    var o1 := StorCmd(st, s, hs, root, stor, env);
    StorRule(st, s, hs, root, stor, env);
    QueryRooted(o1.store, hs, root, stor[5..]);
    RetrRule(o1.next, o1.store, hs, root, retr);
    var b := Utf8(Assembled(env.upload));
    assert b[Skipped(0, |b|)..] == b;
  }

  // ---------------------------------------------------------------------
  // The other commands and the error paths.
  // ---------------------------------------------------------------------

  /** SIZE: "213 <length>" for a file, 550 for a missing path or a directory; nothing changes. */
  lemma SizeRule(st: Session, s: Store, hs: seq<Handler>, root: NodeId, cmd: string)
    requires Consistent(s, hs) && root in s
    ensures var o := SizeCmd(st, s, hs, root, cmd);
      && o.store == s && o.next == st && o.sent == []
      && (|cmd| < 5 ==> !o.go && o.replies == [])
      && (|cmd| >= 5 ==>
            var f := QueryOf(s, hs, root, Operand(st.cwd, cmd[5..]));
            && o.go
            && (f.None? || IsDirectory(s[f.value]) ==> o.replies == ["550 Could not get file size."])
            && (f.Some? && !IsDirectory(s[f.value]) ==> o.replies == ["213 " + IntToString(Length(s[f.value]))]))
  {
  }

  /** The SIZE of a file STOR created from ASCII text is the length of that text. */
  lemma StorThenSize(st: Session, s: Store, hs: seq<Handler>, root: NodeId, stor: string, size: string, env: Env)
    requires Consistent(s, hs) && root in s
    requires |stor| >= 5 && Plain(stor[5..]) && Usable(Attach(st))
    requires |size| >= 5 && size[5..] == "/" + stor[5..]
    requires forall i :: 0 <= i < |Assembled(env.upload)| ==> Assembled(env.upload)[i] as int < 0x80
    ensures var o1 := StorCmd(st, s, hs, root, stor, env);
      SizeCmd(o1.next, o1.store, hs, root, size).replies == ["213 " + IntToString(|Assembled(env.upload)|)]
  {
    var o1 := StorCmd(st, s, hs, root, stor, env);
    StorRule(st, s, hs, root, stor, env);
    QueryRooted(o1.store, hs, root, stor[5..]);
    MockFileAsciiStream(stor[5..], Assembled(env.upload));
    SizeRule(o1.next, o1.store, hs, root, size);
  }

  /** MDTM of a path query cannot find throws, and the session ends with no reply. */
  lemma MdtmMissing(st: Session, s: Store, hs: seq<Handler>, root: NodeId, cmd: string, env: Env)
    requires Consistent(s, hs) && root in s
    requires |cmd| >= 5 && QueryOf(s, hs, root, Operand(st.cwd, cmd[5..])).None?
    ensures var o := MdtmCmd(st, s, hs, root, cmd, env);
      !o.go && o.replies == [] && o.store == s && o.next == st
  {
  }

  /** MODE accepts exactly S, B and C, and changes nothing either way. */
  lemma ModeRule(st: Session, s: Store, cmd: string)
    requires |cmd| >= 5
    ensures var o := ModeCmd(st, s, cmd);
      && o.go && o.store == s && o.next == st
      && (cmd[5..] in ["S", "B", "C"] ==> o.replies == ["200 Mode set to " + cmd[5..] + "."])
      && (cmd[5..] !in ["S", "B", "C"] ==> o.replies == ["504 Bad MODE command."])
  {
  }

  /**
   * A line no verb matches gets "502 <first word> not implemented." and
   * the session goes on unchanged; a line of spaces has no first word,
   * and the session ends.
   */
  lemma UnknownRule(st: Session, s: Store, cmd: string)
    ensures var o := Unimplemented(st, s, cmd);
      var words := JavaSplit(cmd, ' ');
      && o.store == s && o.next == st && o.sent == []
      && (|words| > 0 ==> o.go && o.replies == ["502 " + words[0] + " not implemented."])
      && (|words| == 0 ==> !o.go && o.replies == [])
  {
  }

  /** PORT with the operand a client builds from a host and port points the data connection there. */
  lemma PortRule(st: Session, s: Store, cmd: string, h: Host, p: Port)
    requires |cmd| >= 5 && cmd[5..] == HostPort(h, p)
    ensures var o := PortCmd(st, s, cmd);
      && o.go && o.store == s && o.sent == []
      && o.next == st.(data := Connected(Dotted(h), p))
      && o.replies == ["200 PORT command successful."]
  {
    PortRoundTrip(h, p);
  }

  /** EPRT with an RFC 2428 operand points the data connection at its host and port. */
  lemma EprtRule(st: Session, s: Store, cmd: string, d: char, proto: nat, host: string, p: Port)
    requires |cmd| >= 5 && cmd[5..] == EprtArg(d, proto, host, p)
    requires !IsDigit(d) && d !in host && proto <= INT_MAX
    ensures var o := EprtCmd(st, s, cmd);
      && o.go && o.store == s && o.sent == []
      && o.next == st.(data := Connected(host, p))
      && o.replies == ["200 PORT command successful."]
  {
    EprtRoundTrip(d, proto, host, p);
  }

  // ---------------------------------------------------------------------
  // Branches written out in the dispatch itself.
  // ---------------------------------------------------------------------

  /**
   * PASV and EPSV record the announced port, so the next transfer accepts a
   * connection there; the one reply carries the port so that a client
   * decodes it back (section 4.1.2 of RFC 959, section 3 of RFC 2428).
   */
  lemma PassiveRule(st: Session, s: Store, env: Env, cfg: Config, extended: bool)
    ensures var o := PassiveCmd(st, s, env, cfg, extended);
      && o.go && o.store == s && o.sent == []
      && o.next == st.(pasv := Some(env.freePort))
      && Attach(o.next) == Accepted(env.freePort)
      && |o.replies| == 1
      && (!extended ==>
            var r := o.replies[0];
            ParsePort(r[|PasvPrefix|..|r| - 2]) == Some((Dotted(cfg.host), env.freePort)))
      && (extended ==>
            var fs := JavaSplit(o.replies[0], '|');
            |fs| == 5 && ParseInt(fs[3]) == Some(env.freePort))
  {
    if extended {
      EpsvRoundTrip(env.freePort);
    } else {
      PasvRoundTrip(cfg.host, env.freePort);
    }
  }

  /**
   * RNFR answers 350 and the line after it is taken as the new name:
   * "250 Renamed" when it is at least five characters long, with nothing
   * renamed and the session back where it was; a shorter line ends the
   * session.
   */
  lemma RenameSteps(st: Session, s: Store, rnfr: string, rnto: string)
    requires !st.renaming && |rnfr| >= 5
    ensures var o1 := RenameFrom(st, s, rnfr);
      var o2 := RenameTo(o1.next, o1.store, rnto);
      && o1.go && o1.next.renaming && o1.replies == ["350 Okay"] && o2.store == s && o2.sent == []
      && (|rnto| >= 5 ==> o2.go && o2.next == st && o2.replies == ["250 Renamed"])
      && (|rnto| < 5 ==> !o2.go && o2.replies == [])
  {
  }
}
