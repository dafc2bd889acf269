/**
 * One FTP control connection (FTPFS.FTPConnection): the command loop reads
 * a line, picks the first verb its upper-cased text starts with, replies,
 * and stops at QUIT, at an HTTP GET, or at any exception. Each command is
 * a pure transition Step of the session state; the loop is Serve.
 *
 * Sockets are replaced by values: the data connection is a Link, what LIST
 * and RETR send is a Transfer, the lines a STOR upload delivers and the
 * port the system picks for PASV/EPSV come from an Env per command, and
 * the dates of LIST and MDTM are text supplied by the Env.
 */
module FtpSession {
  import opened Wrappers
  import opened Text
  import opened Nodes
  import opened Lookup
  import opened Tree
  import opened MockFiles
  import opened FtpPaths
  import opened FtpText

  // ---------------------------------------------------------------------
  // Dispatch: the if-chain of run(), in source order.
  // ---------------------------------------------------------------------

  datatype Verb =
    | GET | USER | PASS | SYST | PWD | TYPE | PORT | EPRT | PASV | EPSV | SIZE | MODE | CWD | CDUP
    | LIST | QUIT | MDTM | REST | RETR | DELE | FEAT | HELP | SITE | RNFR | MKD | STOR | NOOP | OPTS
    | Unknown

  function Keyword(v: Verb): string
  {
    match v
    case GET => "GET"   case USER => "USER" case PASS => "PASS" case SYST => "SYST"
    case PWD => "PWD"   case TYPE => "TYPE" case PORT => "PORT" case EPRT => "EPRT"
    case PASV => "PASV" case EPSV => "EPSV" case SIZE => "SIZE" case MODE => "MODE"
    case CWD => "CWD"   case CDUP => "CDUP" case LIST => "LIST" case QUIT => "QUIT"
    case MDTM => "MDTM" case REST => "REST" case RETR => "RETR" case DELE => "DELE"
    case FEAT => "FEAT" case HELP => "HELP" case SITE => "SITE" case RNFR => "RNFR"
    case MKD => "MKD"   case STOR => "STOR" case NOOP => "NOOP" case OPTS => "OPTS"
    case Unknown => ""
  }

  /** The verbs in the order run() tests them. */
  const Order: seq<Verb> := [GET, USER, PASS, SYST, PWD, TYPE, PORT, EPRT, PASV, EPSV, SIZE, MODE, CWD, CDUP,
                             LIST, QUIT, MDTM, REST, RETR, DELE, FEAT, HELP, SITE, RNFR, MKD, STOR, NOOP, OPTS]

  /** The first verb of vs whose keyword starts the command, Unknown when none does. */
  function FirstVerb(up: string, vs: seq<Verb>): (r: Verb)
    requires Unknown !in vs
    ensures r == Unknown <==> forall i :: 0 <= i < |vs| ==> !StartsWith(up, Keyword(vs[i]))
    ensures r != Unknown ==> exists i :: 0 <= i < |vs| && vs[i] == r && StartsWith(up, Keyword(r))
                                         && forall j :: 0 <= j < i ==> !StartsWith(up, Keyword(vs[j]))
    decreases |vs|
  {
    if |vs| == 0 then Unknown
    else if StartsWith(up, Keyword(vs[0])) then vs[0]
    else
      var r := FirstVerb(up, vs[1..]);
      assert forall i :: 1 <= i < |vs| ==> vs[i] == vs[1..][i - 1];
      r
  }

  /**
   * The verb run() dispatches an upper-cased command to: the first keyword
   * in source order that starts it, or Unknown (the 502 branch) when none does.
   */
  function Classify(up: string): (r: Verb)
    ensures r == Unknown <==> forall i :: 0 <= i < |Order| ==> !StartsWith(up, Keyword(Order[i]))
    ensures r != Unknown ==> exists i :: 0 <= i < |Order| && Order[i] == r && StartsWith(up, Keyword(r))
                                         && forall j :: 0 <= j < i ==> !StartsWith(up, Keyword(Order[j]))
  {
    FirstVerb(up, Order)
  }

  // ---------------------------------------------------------------------
  // Session state, the outside world, and what one command produces.
  // ---------------------------------------------------------------------

  /** The data connection: none yet, one opened by PORT/EPRT, one accepted on the PASV socket, or closed after a transfer. */
  datatype Link = NoLink | Connected(host: string, port: Port) | Accepted(port: Port) | Closed

  predicate Usable(l: Link) { l.Connected? || l.Accepted? }

  /**
   * cwd, the REST offset, the passive socket's port (pasv), the data
   * connection, and whether the previous line was RNFR (whose handler reads
   * the following line itself).
   */
  datatype Session = Session(cwd: string, skip: int, pasv: Option<Port>, data: Link, renaming: bool)

  datatype Payload = Lines(lines: seq<string>) | Bytes(bytes: seq<byte>)

  /** What went out over a data connection. */
  datatype Transfer = Transfer(link: Link, payload: Payload)

  /**
   * What the outside world supplies to one command: the port a new server
   * socket gets, the lines a STOR upload delivers, and the formatted dates
   * of LIST lines and MDTM replies.
   */
  datatype Env = Env(freePort: Port, upload: seq<string>, listDate: NodeId -> string, mdtmDate: NodeId -> string)

  /** The server's address and the user.name property (owner and group of every LIST line). */
  datatype Config = Config(host: Host, user: string)

  /** The state after a command, the tree after it, the replies sent, the data sent, and whether the loop goes on. */
  datatype Outcome = Outcome(next: Session, store: Store, replies: seq<string>, sent: seq<Transfer>, go: bool)

  function Reply(st: Session, s: Store, replies: seq<string>): Outcome { Outcome(st, s, replies, [], true) }

  /** The loop breaks: QUIT, GET, or an exception after the replies already written. */
  function Stop(st: Session, s: Store, replies: seq<string>): Outcome { Outcome(st, s, replies, [], false) }

  /** String.substring(k); None where it throws. */
  function Substring(s: string, k: nat): (r: Option<string>)
    ensures r.Some? <==> k <= |s|
    ensures r.Some? ==> r.value == s[k..]
  {
    if k <= |s| then Some(s[k..]) else None
  }

  /** The data connection a transfer uses: a fresh accept on the PASV socket if there is one, otherwise the last one opened. */
  function Attach(st: Session): Link
  {
    if st.pasv.Some? then Accepted(st.pasv.value) else st.data
  }

  /** InputStream.skip on an in-memory stream: a negative count skips nothing, a large one skips to the end. */
  function Skipped(n: int, len: nat): (k: nat)
    ensures k <= len
    ensures 0 <= n <= len ==> k == n
  {
    if n < 0 then 0 else if n > len then len else n
  }

  // ---------------------------------------------------------------------
  // The tree changes MKD and STOR make: files.put(name, new MockFile(...)).
  // ---------------------------------------------------------------------

  /** A new node under a fresh identity, stored in dir's child map under key, replacing any entry there. */
  function Put(s: Store, dir: NodeId, key: string, rec: NodeRec): (r: Store)
    requires dir in s
    ensures dir in r
  {
    var id := FreshId(s);
    s[id := rec][dir := s[dir].(children := s[dir].children[key := id])]
  }

  /**
   * The only ways a command changes the tree: existing nodes other than the
   * root are untouched, the root keeps name, kind and parent, and its child
   * map only gains entries or has entries re-pointed to the one fresh node.
   */
  ghost predicate Grows(s0: Store, s1: Store, root: NodeId)
  {
    root in s0 && root in s1
    && s0.Keys <= s1.Keys <= s0.Keys + {FreshId(s0)}
    && (forall id | id in s0 && id != root :: s1[id] == s0[id])
    && s1[root].name == s0[root].name && s1[root].kind == s0[root].kind && s1[root].parent == s0[root].parent
    && s0[root].children.Keys <= s1[root].children.Keys
    && forall k | k in s1[root].children ::
         s1[root].children[k] == FreshId(s0) || (k in s0[root].children && s1[root].children[k] == s0[root].children[k])
  }

  lemma GrowsNothing(s: Store, root: NodeId)
    requires root in s
    ensures Grows(s, s, root)
  {
  }

  /**
   * put keeps the store consistent when the new node is named by its key and
   * is detached and childless (as every MockFile is); the parent field of a
   * replaced node is left as it was. The key then resolves to the new node.
   */
  lemma PutFacts(s: Store, hs: seq<Handler>, dir: NodeId, key: string, rec: NodeRec)
    requires Consistent(s, hs) && dir in s
    requires rec.name == key && rec.children == map[] && rec.parent.None?
    ensures var r := Put(s, dir, key, rec);
      && Consistent(r, hs)
      && Grows(s, r, dir)
      && r[FreshId(s)] == rec
      && r[dir].children == s[dir].children[key := FreshId(s)]
      && (key != "." && key != ".." ==> Get(r, hs, dir, key) == Some(FreshId(s)))
  {
    var id := FreshId(s);
    var r := Put(s, dir, key, rec);
    assert r[id] == rec;
    forall x | x in r ensures forall k | k in r[x].children :: r[x].children[k] in r && r[r[x].children[k]].name == k {
      if x == dir {
        forall k | k in r[x].children ensures r[x].children[k] in r && r[r[x].children[k]].name == k {
          if k != key { assert r[x].children[k] == s[dir].children[k]; }
        }
      } else if x != id {
        assert r[x] == s[x];
      }
    }
  }

  // ---------------------------------------------------------------------
  // The commands that need more than a fixed reply.
  // ---------------------------------------------------------------------

  /** TYPE: the character after "TYPE "; no character there throws. */
  function TypeCmd(st: Session, s: Store, cmd: string): (o: Outcome)
    ensures o.store == s && o.next == st && o.sent == []
  {
    if |cmd| <= 5 then Stop(st, s, [])
    else if cmd[5] == 'I' then Reply(st, s, ["200 Switching to Binary mode."])
    else if cmd[5] == 'A' then Reply(st, s, ["200 Switching to ASCII mode."])
    else Reply(st, s, [])
  }

  /** PORT: the data connection goes to the host and port of the operand. */
  function PortCmd(st: Session, s: Store, cmd: string): (o: Outcome)
    ensures o.store == s && o.next == st.(data := o.next.data) && o.sent == []
  {
    match Substring(cmd, 5)
    case None => Stop(st, s, [])
    case Some(arg) =>
      match ParsePort(arg)
      case None => Stop(st, s, [])
      case Some(hp) => Reply(st.(data := Connected(hp.0, hp.1)), s, ["200 PORT command successful."])
  }

  /** EPRT: as PORT, with the RFC 2428 operand. */
  function EprtCmd(st: Session, s: Store, cmd: string): (o: Outcome)
    ensures o.store == s && o.next == st.(data := o.next.data) && o.sent == []
  {
    match Substring(cmd, 5)
    case None => Stop(st, s, [])
    case Some(payload) =>
      match ParseEprt(payload)
      case None => Stop(st, s, [])
      case Some(hp) => Reply(st.(data := Connected(hp.0, hp.1)), s, ["200 PORT command successful."])
  }

  /** SIZE: the length of a file; a missing path or a directory gets 550. */
  function SizeCmd(st: Session, s: Store, hs: seq<Handler>, root: NodeId, cmd: string): (o: Outcome)
    requires Consistent(s, hs) && root in s
    ensures o.store == s && o.next == st && o.sent == []
  {
    match Substring(cmd, 5)
    case None => Stop(st, s, [])
    case Some(req) =>
      var f := QueryOf(s, hs, root, Operand(st.cwd, req));
      if f.None? || IsDirectory(s[f.value]) then Reply(st, s, ["550 Could not get file size."])
      else Reply(st, s, ["213 " + IntToString(Length(s[f.value]))])
  }

  /** MODE: S, B and C are accepted, anything else is refused. */
  function ModeCmd(st: Session, s: Store, cmd: string): (o: Outcome)
    ensures o.store == s && o.next == st && o.sent == []
  {
    match Substring(cmd, 5)
    case None => Stop(st, s, [])
    case Some(mode) =>
      if mode in ["S", "B", "C"] then Reply(st, s, ["200 Mode set to " + mode + "."])
      else Reply(st, s, ["504 Bad MODE command."])
  }

  /** The directory CWD (operand from index 4) or CDUP asks for. */
  function DirTarget(st: Session, cmd: string, up: bool): Option<string>
  {
    if up then Some(Canonical(st.cwd + "/.."))
    else match Substring(cmd, 4)
      case None => None
      case Some(arg) => Some(CwdTarget(st.cwd, arg))
  }

  /** CWD and CDUP: cwd moves to the target only when query finds a directory there. */
  function ChangeDir(st: Session, s: Store, hs: seq<Handler>, root: NodeId, cmd: string, up: bool): (o: Outcome)
    requires Consistent(s, hs) && root in s
    ensures o.store == s && o.next == st.(cwd := o.next.cwd) && o.sent == []
    ensures o.next.cwd == st.cwd || DirTarget(st, cmd, up) == Some(o.next.cwd)
  {
    match DirTarget(st, cmd, up)
    case None => Stop(st, s, [])
    case Some(target) =>
      var f := QueryOf(s, hs, root, target);
      if f.Some? && IsDirectory(s[f.value]) then Reply(st.(cwd := target), s, ["250 Directory successfully changed."])
      else Reply(st, s, ["550 Failed to change directory."])
  }

  /** The LIST lines of a directory: one toFTPString line per child, in name order. */
  function Listing(s: Store, v: NodeId, user: string, date: NodeId -> string): (r: seq<string>)
    requires WellFormed(s) && v in s
    ensures |r| == |Children(s, v)|
    ensures forall i :: 0 <= i < |r| ==> r[i] == FtpLine(s[Children(s, v)[i]], user, date(Children(s, v)[i]))
  {
    var cs := Children(s, v);
    seq(|cs|, i requires 0 <= i < |cs| => FtpLine(s[cs[i]], user, date(cs[i])))
  }

  /** LIST: the operand is ignored; cwd's children go out over the data connection, which is then closed. */
  function ListCmd(st: Session, s: Store, hs: seq<Handler>, root: NodeId, env: Env, cfg: Config): (o: Outcome)
    requires Consistent(s, hs) && root in s
    ensures o.store == s && o.next == st.(data := o.next.data)
  {
    var first := ["150 Here comes the directory listing."];
    var link := Attach(st);
    if !Usable(link) then Stop(st.(data := link), s, first)
    else
      match QueryOf(s, hs, root, st.cwd)
      case None => Stop(st.(data := link), s, first)
      case Some(v) =>
        Outcome(st.(data := Closed), s, first + ["226 Directory send OK."],
                [Transfer(link, Lines(Listing(s, v, cfg.user, env.listDate)))], true)
  }

  /** MDTM: the modification time of the node; a missing node throws. */
  function MdtmCmd(st: Session, s: Store, hs: seq<Handler>, root: NodeId, cmd: string, env: Env): (o: Outcome)
    requires Consistent(s, hs) && root in s
    ensures o.store == s && o.next == st && o.sent == []
  {
    match Substring(cmd, 5)
    case None => Stop(st, s, [])
    case Some(req) =>
      match QueryOf(s, hs, root, Operand(st.cwd, req))
      case None => Stop(st, s, [])
      case Some(f) => Reply(st, s, ["200 " + env.mdtmDate(f)])
  }

  /**
   * PASV and EPSV: the server opens a listening socket on a free port and
   * announces it, with the host for PASV and without it for EPSV.
   */
  function PassiveCmd(st: Session, s: Store, env: Env, cfg: Config, extended: bool): (o: Outcome)
    ensures o.store == s && o.next == st.(pasv := o.next.pasv) && o.sent == []
  {
    Reply(st.(pasv := Some(env.freePort)), s, [if extended then EpsvReply(env.freePort) else PasvReply(cfg.host, env.freePort)])
  }

  /** RNFR: a line of at least five characters puts the session in the renaming state. */
  function RenameFrom(st: Session, s: Store, cmd: string): (o: Outcome)
    ensures o.store == s && o.next == st.(renaming := o.next.renaming) && o.sent == []
  {
    if |cmd| < 5 then Stop(st, s, []) else Reply(st.(renaming := true), s, ["350 Okay"])
  }

  /** The line after RNFR, whatever its verb: answered as a rename, though nothing is renamed. */
  function RenameTo(st: Session, s: Store, cmd: string): (o: Outcome)
    ensures o.store == s && o.next == st.(renaming := o.next.renaming) && o.sent == []
  {
    if |cmd| < 5 then Stop(st, s, []) else Reply(st.(renaming := false), s, ["250 Renamed"])
  }

  /** REST: the operand, parsed as a long, becomes the offset of the next RETR. */
  function RestCmd(st: Session, s: Store, cmd: string): (o: Outcome)
    ensures o.store == s && o.next == st.(skip := o.next.skip) && o.sent == []
  {
    match Substring(cmd, 5)
    case None => Stop(st, s, [])
    case Some(arg) =>
      match ParseLong(arg)
      case None => Stop(st, s, [])
      case Some(n) => Reply(st.(skip := n), s, ["350 Skipped " + IntToString(n) + " bytes"])
  }

  /**
   * RETR: the offset is taken and reset before anything else; a file (not a
   * directory) is sent from the offset on and the data connection closed.
   */
  function RetrCmd(st: Session, s: Store, hs: seq<Handler>, root: NodeId, cmd: string): (o: Outcome)
    requires Consistent(s, hs) && root in s
    ensures o.store == s && o.next == st.(skip := 0, data := o.next.data)
  {
    var toSkip := st.skip;
    var st1 := st.(skip := 0);
    match Substring(cmd, 5)
    case None => Stop(st1, s, [])
    case Some(req) =>
      var f := QueryOf(s, hs, root, Operand(st.cwd, req));
      if f.Some? && !IsDirectory(s[f.value]) then
        var first := ["150 Opening BINARY mode data connection for file"];
        var link := Attach(st);
        match OpenStream(s[f.value])
        case None => Stop(st1.(data := link), s, first)
        case Some(b) =>
          if !Usable(link) then Stop(st1.(data := link), s, first)
          else Outcome(st1.(data := Closed), s, first + ["226 File sent"],
                       [Transfer(link, Bytes(b[Skipped(toSkip, |b|)..]))], true)
      else Reply(st1, s, ["550 Failed to open file."])
  }

  /** MKD: the operand from index 4 becomes a new directory under the root, whether or not one existed. */
  function MkdCmd(st: Session, s: Store, hs: seq<Handler>, root: NodeId, cmd: string): (o: Outcome)
    requires Consistent(s, hs) && root in s
    ensures Consistent(o.store, hs) && Grows(s, o.store, root)
    ensures o.next == st && o.sent == []
  {
    match Substring(cmd, 4)
    case None => Stop(st, s, [])
    case Some(folder) =>
      var f := QueryOf(s, hs, root, folder);
      var reply := if f.Some? && IsDirectory(s[f.value]) then "550 Failed to create directory. (it exists)"
                   else "200 created directory.";
      PutFacts(s, hs, root, folder, MockDir(folder));
      Reply(st, Put(s, root, folder, MockDir(folder)), [reply])
  }

  /** STOR: the uploaded lines become a new file under the root, replacing any entry of that name. */
  function StorCmd(st: Session, s: Store, hs: seq<Handler>, root: NodeId, cmd: string, env: Env): (o: Outcome)
    requires Consistent(s, hs) && root in s
    ensures Consistent(o.store, hs) && Grows(s, o.store, root)
    ensures o.next == st.(data := o.next.data) && o.sent == []
  {
    match Substring(cmd, 5)
    case None => Stop(st, s, [])
    case Some(file) =>
      var first := ["150 Entering Transfer Mode"];
      var link := Attach(st);
      if !Usable(link) then Stop(st.(data := link), s, first)
      else
        var rec := MockFile(file, Some(Assembled(env.upload)));
        PutFacts(s, hs, root, file, rec);
        Reply(st.(data := Closed), Put(s, root, file, rec), first + ["226 File uploaded successfully"])
  }

  /** OPTS: the upper-cased operand must hold an option and a value. */
  function OptsCmd(st: Session, s: Store, up: string): (o: Outcome)
    ensures o.store == s && o.next == st && o.sent == []
  {
    match Substring(up, 5)
    case None => Stop(st, s, [])
    case Some(rest) =>
      var args := JavaSplit(rest, ' ');
      if |args| < 2 then Stop(st, s, [])
      else Reply(st, s, ["200 " + args[0] + " always " + args[1] + "."])
  }

  /** Any other command: its first word is named in a 502 reply and the session goes on. */
  function Unimplemented(st: Session, s: Store, cmd: string): (o: Outcome)
    ensures o.store == s && o.next == st && o.sent == []
  {
    var words := JavaSplit(cmd, ' ');
    if |words| == 0 then Stop(st, s, [])
    else Reply(st, s, ["502 " + words[0] + " not implemented."])
  }

  /** One line from the client. */
  function Step(st: Session, s: Store, hs: seq<Handler>, root: NodeId, cmd: string, env: Env, cfg: Config): (o: Outcome)
    requires Consistent(s, hs) && root in s
    ensures Consistent(o.store, hs) && Grows(s, o.store, root)
    ensures o.next.cwd == st.cwd || DirTarget(st, cmd, false) == Some(o.next.cwd) || DirTarget(st, cmd, true) == Some(o.next.cwd)
  {
    GrowsNothing(s, root);
    if st.renaming then
      RenameTo(st, s, cmd)
    else
      var up := ToUpper(cmd);
      match Classify(up)
      case GET => Stop(st, s, ["This is an FTP server."])
      case USER => Reply(st, s, ["331 Please specify the password."])
      case PASS => Reply(st, s, ["230 Login successful."])
      case SYST => Reply(st, s, ["215 UNIX Type: L8"])
      case PWD => Reply(st, s, ["257 \"" + st.cwd + "\""])
      case TYPE => TypeCmd(st, s, cmd)
      case PORT => PortCmd(st, s, cmd)
      case EPRT => EprtCmd(st, s, cmd)
      case PASV => PassiveCmd(st, s, env, cfg, false)
      case EPSV => PassiveCmd(st, s, env, cfg, true)
      case SIZE => SizeCmd(st, s, hs, root, cmd)
      case MODE => ModeCmd(st, s, cmd)
      case CWD => ChangeDir(st, s, hs, root, cmd, false)
      case CDUP => ChangeDir(st, s, hs, root, cmd, true)
      case LIST => ListCmd(st, s, hs, root, env, cfg)
      case QUIT => Stop(st, s, ["221 Goodbye"])
      case MDTM => MdtmCmd(st, s, hs, root, cmd, env)
      case REST => RestCmd(st, s, cmd)
      case RETR => RetrCmd(st, s, hs, root, cmd)
      case DELE => Reply(st, s, ["550 Permission denied."])
      case FEAT => Reply(st, s, ["211-Features:", " MDTM", " PASV", "211 end"])
      case HELP => Reply(st, s, ["214-Commands supported:", "MDTM PASV", "214 End"])
      case SITE => Reply(st, s, ["200 Nothing to see here"])
      case RNFR => RenameFrom(st, s, cmd)
      case MKD => MkdCmd(st, s, hs, root, cmd)
      case STOR => StorCmd(st, s, hs, root, cmd, env)
      case NOOP => Reply(st, s, ["200 NOOP ok."])
      case OPTS => OptsCmd(st, s, up)
      case Unknown => Unimplemented(st, s, cmd)
  }

  // ---------------------------------------------------------------------
  // The command loop.
  // ---------------------------------------------------------------------

  /** The state a new connection starts in: cwd "/", no offset, no sockets. */
  const Start: Session := Session("/", 0, None, NoLink, false)

  /** a, then b from where a left off. */
  function Then(a: Outcome, b: Outcome): Outcome
  {
    Outcome(b.next, b.store, a.replies + b.replies, a.sent + b.sent, b.go)
  }

  /** The loop over the client's lines, one Env per line; it ends early when a command stops it. */
  function Run(st: Session, s: Store, hs: seq<Handler>, root: NodeId, lines: seq<string>, envs: seq<Env>, cfg: Config): (o: Outcome)
    requires Consistent(s, hs) && root in s && |envs| == |lines|
    ensures Consistent(o.store, hs) && root in o.store
    decreases |lines|
  {
    if |lines| == 0 then Reply(st, s, [])
    else
      var o := Step(st, s, hs, root, lines[0], envs[0], cfg);
      if !o.go then o else Then(o, Run(o.next, o.store, hs, root, lines[1..], envs[1..], cfg))
  }

  /** The loop of run() on values: handle lines until the input ends or a command stops it. */
  method Drive(st: Session, s: Store, hs: seq<Handler>, root: NodeId, lines: seq<string>, envs: seq<Env>, cfg: Config)
    returns (done: Outcome)
    requires Consistent(s, hs) && root in s && |envs| == |lines|
    ensures done == Run(st, s, hs, root, lines, envs, cfg)
  {
    ghost var total := Run(st, s, hs, root, lines, envs, cfg);
    var i := 0;
    var go := true;
    done := Reply(st, s, []);
    assert lines[0..] == lines && envs[0..] == envs;
    ThenUnit(st, s, total);
    while go && i < |lines|
      invariant 0 <= i <= |lines|
      invariant Consistent(done.store, hs) && root in done.store
      invariant go == done.go
      invariant go ==> total == Then(done, Run(done.next, done.store, hs, root, lines[i..], envs[i..], cfg))
      invariant !go ==> total == done
      decreases |lines| - i
    {
      var o := Step(done.next, done.store, hs, root, lines[i], envs[i], cfg);
      Advance(total, done, hs, root, lines[i..], envs[i..], cfg);
      assert lines[i..][1..] == lines[i + 1..] && envs[i..][1..] == envs[i + 1..];
      done := Then(done, o);
      go := o.go;
      i := i + 1;
    }
    if go {
      assert lines[i..] == [] && envs[i..] == [];
      ThenEmpty(done, done.next, done.store, hs, root, cfg);
    }
  }

  class Connection {
    var cwd: string
    var pasv: Option<Port>
    var data: Link

    /** A new connection: cwd is the root, no passive socket, no data connection. */
    constructor ()
      ensures cwd == "/" && pasv.None? && data.NoLink?
    {
      cwd := "/";
      pasv := None;
      data := NoLink;
    }

    /** The connection's fields take the values a session ended with. */
    method Adopt(st: Session)
      modifies this
      ensures cwd == st.cwd && pasv == st.pasv && data == st.data
    {
      cwd := st.cwd;
      pasv := st.pasv;
      data := st.data;
    }

    /**
     * run(): greet, then handle lines until the input ends or a command
     * stops the loop. The offset and the RNFR state are locals, as skip is.
     */
    method Serve(fs: Vfs, root: NodeId, lines: seq<string>, envs: seq<Env>, cfg: Config)
      returns (replies: seq<string>, sent: seq<Transfer>)
      requires fs.Valid() && root in fs.store && |envs| == |lines|
      modifies this, fs
      ensures fs.Valid() && root in fs.store
      ensures var o := Run(Session(old(cwd), 0, old(pasv), old(data), false), old(fs.store), fs.handlers, root, lines, envs, cfg);
        && replies == ["220 Welcome"] + o.replies
        && sent == o.sent
        && fs.store == o.store
        && cwd == o.next.cwd
        && pasv == o.next.pasv
        && data == o.next.data
    {
      var done := Drive(Session(cwd, 0, pasv, data, false), fs.store, fs.handlers, root, lines, envs, cfg);
      replies := ["220 Welcome"] + done.replies;
      sent := done.sent;
      fs.store := done.store;
      Adopt(done.next);
    }
  }

  /** Starting from nothing done, the whole run is what is left to do. */
  lemma ThenUnit(st: Session, s: Store, x: Outcome)
    ensures Then(Reply(st, s, []), x) == x
  {
    assert [] + x.replies == x.replies && [] + x.sent == x.sent;
  }

  /** Nothing left to do: what is done is the whole run. */
  lemma ThenEmpty(done: Outcome, st: Session, s: Store, hs: seq<Handler>, root: NodeId, cfg: Config)
    requires Consistent(s, hs) && root in s && done.next == st && done.store == s && done.go
    ensures Then(done, Run(st, s, hs, root, [], [], cfg)) == done
  {
    assert done.replies + [] == done.replies && done.sent + [] == done.sent;
  }

  /** The loop invariant of Serve carried over one step. */
  lemma Advance(total: Outcome, done: Outcome, hs: seq<Handler>, root: NodeId, lines: seq<string>, envs: seq<Env>, cfg: Config)
    requires Consistent(done.store, hs) && root in done.store && |envs| == |lines| > 0
    requires total == Then(done, Run(done.next, done.store, hs, root, lines, envs, cfg))
    ensures var o := Step(done.next, done.store, hs, root, lines[0], envs[0], cfg);
      && (o.go ==> total == Then(Then(done, o), Run(o.next, o.store, hs, root, lines[1..], envs[1..], cfg)))
      && (!o.go ==> total == Then(done, o))
  {
    var o := Step(done.next, done.store, hs, root, lines[0], envs[0], cfg);
    RunUnfold(done.next, done.store, hs, root, lines, envs, cfg);
    if o.go {
      ThenAssoc(done, o, Run(o.next, o.store, hs, root, lines[1..], envs[1..], cfg));
    }
  }

  /** Run over a non-empty input: the first step, then the rest unless the first one stopped. */
  lemma RunUnfold(st: Session, s: Store, hs: seq<Handler>, root: NodeId, lines: seq<string>, envs: seq<Env>, cfg: Config)
    requires Consistent(s, hs) && root in s && |envs| == |lines| > 0
    ensures var o := Step(st, s, hs, root, lines[0], envs[0], cfg);
      Run(st, s, hs, root, lines, envs, cfg)
        == if !o.go then o else Then(o, Run(o.next, o.store, hs, root, lines[1..], envs[1..], cfg))
  {
  }

  lemma ThenAssoc(a: Outcome, b: Outcome, c: Outcome)
    ensures Then(Then(a, b), c) == Then(a, Then(b, c))
  {
    assert a.replies + b.replies + c.replies == a.replies + (b.replies + c.replies);
    assert a.sent + b.sent + c.sent == a.sent + (b.sent + c.sent);
  }
}
