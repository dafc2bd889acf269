/**
 * Wire formats of the FTP session (FTPFS): the LIST line, the host-port
 * encodings of PASV/PORT (section 4.1.2 of RFC 959) and EPRT/EPSV
 * (sections 2 and 3 of RFC 2428), and the text STOR assembles from the
 * lines it receives.
 */
module FtpText {
  import opened Wrappers
  import opened Text
  import opened Nodes

  /** A TCP port number; Socket and ServerSocket refuse anything else. */
  type Port = p: int | 0 <= p < 0x1_0000

  /** An IPv4 address as InetAddress.getAddress() returns it: four octets. */
  type Host = h: seq<byte> | |h| == 4 witness [127, 0, 0, 1]

  /** Java int arithmetic: the low 32 bits, read as two's complement. */
  function Int32(x: int): (r: int)
    ensures INT_MIN <= r <= INT_MAX
    ensures INT_MIN <= x <= INT_MAX ==> r == x
  {
    (x - INT_MIN) % 0x1_0000_0000 + INT_MIN
  }

  // ---------------------------------------------------------------------
  // The LIST line (toFTPString).
  // ---------------------------------------------------------------------

  /** The permission column: read for everybody, write and search added for a directory's owner. */
  function Perms(dir: bool): (p: string)
    ensures |p| == 10
    ensures p[0] == 'd' <==> dir
    ensures p[1..] == (if dir then "rwxr--r--" else "r--r--r--")
  {
    if dir then "drwxr--r--" else "-r--r--r--"
  }

  /**
   * toFTPString after the permission column and up to the date: the
   * length right-aligned in four columns, owner and group left-aligned in
   * eight (both are the user name), the length again right-aligned in
   * eight, each preceded by a space, and a closing space.
   */
  function Columns(r: NodeRec, user: string): string
  {
    var size := IntToString(Length(r));
    " " + PadLeft(size, 4) + " " + PadRight(user, 8) + " " + PadRight(user, 8) + " " + PadLeft(size, 8) + " "
  }

  /** toFTPString up to the date. */
  function Fields(r: NodeRec, user: string): string
  {
    Perms(IsDirectory(r)) + Columns(r, user)
  }

  /** p is the prefix of p + q. */
  lemma Prefix(p: string, q: string)
    ensures |p + q| >= |p| && (p + q)[..|p|] == p
  {
  }

  /** head + date + " " + name, regrouped so that its tail is visible. */
  lemma Regroup(head: string, date: string, name: string)
    ensures head + date + " " + name == head + (date + " " + name)
    ensures |head| >= 10 ==> (head + date + " " + name)[..10] == head[..10]
  {
  }

  /**
   * toFTPString: the fields, the date (supplied as text), a space and the
   * name. The line starts with the permission column ("d" exactly for a
   * directory) and ends with the date, a space and the name.
   */
  function FtpLine(r: NodeRec, user: string, date: string): (line: string)
    ensures |line| >= 11 + |date| + |r.name|
    ensures line[..10] == Perms(IsDirectory(r))
    ensures line[0] == 'd' <==> IsDirectory(r)
    ensures EndsWith(line, date + " " + r.name)
  {
    var p := Perms(IsDirectory(r));
    Prefix(p, Columns(r, user));
    Regroup(Fields(r, user), date, r.name);
    Fields(r, user) + date + " " + r.name
  }

  /** Column where the date starts when size and user fit their widths. */
  const DateColumn: nat := 43

  /** With a length of at most four digits and a user name of at most eight characters the fields fill 43 columns. */
  lemma FieldsWidth(r: NodeRec, user: string)
    requires |IntToString(Length(r))| <= 4 && |user| <= 8
    ensures |Fields(r, user)| == DateColumn
    ensures Fields(r, user)[..10] == Perms(IsDirectory(r))
  {
    Prefix(Perms(IsDirectory(r)), Columns(r, user));
  }

  /**
   * When the length has at most four digits and the user name at most eight
   * characters, the line starts with the permission column (a directory
   * line exactly when the node is a directory), the date starts at column
   * 43 and the name is the tail after the date and one space.
   */
  lemma FtpLineColumns(r: NodeRec, user: string, date: string)
    requires |IntToString(Length(r))| <= 4 && |user| <= 8
    ensures var line := FtpLine(r, user, date);
      && |line| == DateColumn + |date| + 1 + |r.name|
      && line[..10] == Perms(IsDirectory(r))
      && (line[0] == 'd' <==> IsDirectory(r))
      && line[DateColumn..DateColumn + |date|] == date
      && line[DateColumn + |date|] == ' '
      && line[DateColumn + |date| + 1..] == r.name
  {
    FieldsWidth(r, user);
    Tail(Fields(r, user), date, r.name);
  }

  /** A line made of a head, a date, a space and a name: where each part lands. */
  lemma Tail(head: string, date: string, name: string)
    requires |head| >= 10
    ensures var line := head + date + " " + name;
      && |line| == |head| + |date| + 1 + |name|
      && line[..10] == head[..10]
      && line[|head|..|head| + |date|] == date
      && line[|head| + |date|] == ' '
      && line[|head| + |date| + 1..] == name
  {
    var line := head + date + " " + name;
    assert line == head + (date + " " + name);
  }

  // ---------------------------------------------------------------------
  // PASV and PORT (section 4.1.2 of RFC 959): h1,h2,h3,h4,p1,p2.
  // ---------------------------------------------------------------------

  /** The six decimal fields: the four octets, then the port's high and low byte. */
  function PortFields(h: Host, p: Port): (r: seq<string>)
    ensures |r| == 6
  {
    [NatToString(h[0]), NatToString(h[1]), NatToString(h[2]), NatToString(h[3]),
     NatToString(p / 256), NatToString(p % 256)]
  }

  /** The comma-separated host-port text of a PASV reply. */
  function HostPort(h: Host, p: Port): string
  {
    JoinWith(PortFields(h, p), ',')
  }

  /** The dotted-quad text PORT rebuilds from the first four fields. */
  function Dotted(h: Host): string
  {
    NatToString(h[0]) + "." + NatToString(h[1]) + "." + NatToString(h[2]) + "." + NatToString(h[3])
  }

  const PasvPrefix: string := "227 Entering Passive Mode ("

  /** The PASV reply for the listening port the system chose. */
  function PasvReply(h: Host, p: Port): (r: string)
    ensures |r| == |PasvPrefix| + |HostPort(h, p)| + 2
  {
    PasvPrefix + HostPort(h, p) + ")."
  }

  /**
   * PORT's operand: split at ",", the first four fields joined with "." as
   * the host, the port computed as field 4 * 256 + field 5 in int
   * arithmetic. Fewer than six fields, a field that is not an int, or a
   * port the socket refuses end the session (None).
   */
  function ParsePort(arg: string): (r: Option<(string, Port)>)
    ensures r.Some? ==> |JavaSplit(arg, ',')| >= 6
    ensures r.Some? ==> var args := JavaSplit(arg, ',');
      r.value.0 == args[0] + "." + args[1] + "." + args[2] + "." + args[3]
      && ParseInt(args[4]).Some? && ParseInt(args[5]).Some?
      && r.value.1 == Int32(ParseInt(args[4]).value * 256 + ParseInt(args[5]).value)
  {
    var args := JavaSplit(arg, ',');
    if |args| < 6 then None
    else
      match (ParseInt(args[4]), ParseInt(args[5]))
      case (Some(a), Some(b)) =>
        var port := PortValue(a, b);
        if port.Some? then Some((args[0] + "." + args[1] + "." + args[2] + "." + args[3], port.value)) else None
      case _ => None
  }

  /** The port from its two fields, in int arithmetic; None when it is out of range. */
  function PortValue(hi: int, lo: int): (r: Option<Port>)
    ensures r.Some? ==> r.value == Int32(hi * 256 + lo)
  {
    var port := Int32(hi * 256 + lo);
    if 0 <= port < 0x1_0000 then Some(port) else None
  }

  /** A decimal field of a byte value parses back to it. */
  lemma ParseField(n: nat)
    requires n <= INT_MAX
    ensures ParseInt(NatToString(n)) == Some(n)
  {
    ParseIntToString(n);
  }

  /** Splitting joined fields that hold no separator, the last one non-empty, gives them back. */
  lemma SplitJoined(pieces: seq<string>, c: char)
    requires |pieces| >= 2
    requires forall i :: 0 <= i < |pieces| ==> c !in pieces[i]
    requires pieces[|pieces| - 1] != ""
    ensures JavaSplit(JoinWith(pieces, c), c) == pieces
  {
    var s := JoinWith(pieces, c);
    JoinSplitAll(pieces, c);
    assert s == pieces[0] + [c] + JoinWith(pieces[1..], c);
    assert s[|pieces[0]|] == c;
  }

  /** Digits hold no separator. */
  lemma DigitsHaveNo(n: nat, c: char)
    requires !IsDigit(c)
    ensures c !in NatToString(n)
  {
  }

  /** PORT reads back what PASV announces: the same host and port. */
  lemma PortRoundTrip(h: Host, p: Port)
    ensures ParsePort(HostPort(h, p)) == Some((Dotted(h), p))
  {
    var fs := PortFields(h, p);
    forall i | 0 <= i < 6 ensures ',' !in fs[i] {
      DigitsHaveNo(if i < 4 then h[i] else if i == 4 then p / 256 else p % 256, ',');
    }
    SplitJoined(fs, ',');
    ParseField(p / 256);
    ParseField(p % 256);
  }

  /** A client that takes the text between the parentheses of the PASV reply gets back host and port. */
  lemma PasvRoundTrip(h: Host, p: Port)
    ensures var r := PasvReply(h, p);
      ParsePort(r[|PasvPrefix|..|r| - 2]) == Some((Dotted(h), p))
  {
    var r := PasvReply(h, p);
    assert r[|PasvPrefix|..|r| - 2] == HostPort(h, p);
    PortRoundTrip(h, p);
  }

  // ---------------------------------------------------------------------
  // EPRT and EPSV (sections 2 and 3 of RFC 2428).
  // ---------------------------------------------------------------------

  /**
   * EPRT's operand: its first character is the delimiter; the rest is split
   * at it into protocol, host and port. A missing field, a protocol or port
   * that is not an int, or a port the socket refuses end the session.
   */
  function ParseEprt(payload: string): (r: Option<(string, Port)>)
    ensures r.Some? ==> |payload| > 0 && |JavaSplit(payload[1..], payload[0])| >= 3
    ensures r.Some? ==> var args := JavaSplit(payload[1..], payload[0]);
      ParseInt(args[0]).Some? && r.value.0 == args[1] && ParseInt(args[2]) == Some(r.value.1)
  {
    if |payload| == 0 then None
    else
      var args := JavaSplit(payload[1..], payload[0]);
      if |args| < 3 || ParseInt(args[0]).None? then None
      else
        match ParseInt(args[2])
        case Some(port) => if 0 <= port < 0x1_0000 then Some((args[1], port)) else None
        case None => None
  }

  /** The EPRT operand for a protocol number, a host and a port, between delimiters d. */
  function EprtArg(d: char, proto: nat, host: string, p: Port): string
  {
    [d] + NatToString(proto) + [d] + host + [d] + NatToString(p) + [d]
  }

  /**
   * EPRT reads back the host and port of a well-formed operand, whatever
   * delimiter the client picks, as long as it is not a digit and the host
   * does not contain it.
   */
  lemma EprtRoundTrip(d: char, proto: nat, host: string, p: Port)
    requires !IsDigit(d) && d !in host && proto <= INT_MAX
    ensures ParseEprt(EprtArg(d, proto, host, p)) == Some((host, p))
  {
    var a := NatToString(proto);
    var b := NatToString(p);
    var pieces := [a, host, b, ""];
    DigitsHaveNo(proto, d);
    DigitsHaveNo(p, d);
    var s := EprtArg(d, proto, host, p);
    assert s[1..] == JoinWith(pieces, d) by {
      assert JoinWith(pieces[3..], d) == "";
      assert JoinWith(pieces[2..], d) == b + [d];
      assert JoinWith(pieces[1..], d) == host + [d] + b + [d];
    }
    JoinSplitAll(pieces, d);
    assert s[1..][|a|] == d;
    assert DropTrailingEmpty(pieces) == [a, host, b] by {
      assert pieces[..3] == [a, host, b];
    }
    ParseField(proto);
    ParseField(p);
  }

  const EpsvPrefix: string := "229 Entering Extended Passive Mode ("

  /** The EPSV reply: only the port, between three delimiters and a fourth. */
  function EpsvReply(p: Port): string
  {
    EpsvPrefix + "|||" + NatToString(p) + "|)."
  }

  /** A client splitting the EPSV reply at "|" finds the port in the fourth field. */
  lemma EpsvRoundTrip(p: Port)
    ensures |JavaSplit(EpsvReply(p), '|')| == 5
    ensures ParseInt(JavaSplit(EpsvReply(p), '|')[3]) == Some(p)
  {
    var b := NatToString(p);
    DigitsHaveNo(p, '|');
    EpsvJoined(b);
    SplitJoined([EpsvPrefix, "", "", b, ")."], '|');
    ParseField(p);
  }

  lemma EpsvJoined(b: string)
    ensures EpsvPrefix + "|||" + b + "|)." == JoinWith([EpsvPrefix, "", "", b, ")."], '|')
    ensures '|' !in EpsvPrefix
  {
    var pieces := [EpsvPrefix, "", "", b, ")."];
    assert JoinWith(pieces[4..], '|') == ").";
    assert JoinWith(pieces[3..], '|') == b + "|).";
    assert JoinWith(pieces[2..], '|') == "|" + b + "|).";
    assert JoinWith(pieces[1..], '|') == "||" + b + "|).";
  }

  // ---------------------------------------------------------------------
  // STOR: the received lines become one text.
  // ---------------------------------------------------------------------

  const CRLF: string := "\r\n"

  /** One turn of the receive loop: an empty text takes the line, otherwise CRLF and the line are appended. */
  function Append(text: string, line: string): string
  {
    if text == "" then line else text + CRLF + line
  }

  /** The text after the receive loop has read every line in order. */
  function Assembled(lines: seq<string>): string
    decreases |lines|
  {
    if |lines| == 0 then "" else Append(Assembled(lines[..|lines| - 1]), lines[|lines| - 1])
  }

  /** Lines joined with CRLF between them. */
  function JoinLines(lines: seq<string>): string
    requires |lines| >= 1
    decreases |lines|
  {
    if |lines| == 1 then lines[0] else lines[0] + CRLF + JoinLines(lines[1..])
  }

  /** The receive loop of STOR, reading lines until the end of the data stream. */
  method ReceiveText(lines: seq<string>) returns (text: string)
    ensures text == Assembled(lines)
  {
    text := "";
    var i := 0;
    while i < |lines|
      invariant 0 <= i <= |lines|
      invariant text == Assembled(lines[..i])
    {
      assert lines[..i + 1][..i] == lines[..i];
      var line := lines[i];
      if text == "" {
        text := line;
      } else {
        text := text + CRLF + line;
      }
      i := i + 1;
    }
    assert lines[..i] == lines;
  }

  lemma {:induction false} JoinLinesSnoc(lines: seq<string>, x: string)
    requires |lines| >= 1
    ensures JoinLines(lines + [x]) == JoinLines(lines) + CRLF + x
    decreases |lines|
  {
    if |lines| == 1 {
      assert (lines + [x])[1..] == [x];
    } else {
      JoinLinesSnoc(lines[1..], x);
      assert (lines + [x])[1..] == lines[1..] + [x];
    }
  }

  /** Only empty lines received: the text stays empty. */
  lemma {:induction false} AssembledAllEmpty(lines: seq<string>)
    requires forall i :: 0 <= i < |lines| ==> lines[i] == ""
    ensures Assembled(lines) == ""
    decreases |lines|
  {
    if |lines| > 0 {
      AssembledAllEmpty(lines[..|lines| - 1]);
    }
  }

  /**
   * Once a non-empty line has arrived at index k, the text is the lines
   * from k on joined with CRLF: leading empty lines are dropped, every later
   * line (empty or not) is kept.
   */
  lemma {:induction false} AssembledJoins(lines: seq<string>, k: nat)
    requires k < |lines| && lines[k] != ""
    requires forall i :: 0 <= i < k ==> lines[i] == ""
    ensures Assembled(lines) == JoinLines(lines[k..])
    decreases |lines|
  {
    var init := lines[..|lines| - 1];
    var last := lines[|lines| - 1];
    if k == |lines| - 1 {
      AssembledAllEmpty(init);
      assert lines[k..] == [last];
    } else {
      AssembledJoins(init, k);
      assert Assembled(init) != "" by { NonEmptyJoin(init[k..]); }
      JoinLinesSnoc(init[k..], last);
      assert init[k..] + [last] == lines[k..];
    }
  }

  /** Joined lines whose first one is not empty are not empty. */
  lemma NonEmptyJoin(lines: seq<string>)
    requires |lines| >= 1 && lines[0] != ""
    ensures JoinLines(lines) != ""
  {
    if |lines| > 1 {
      assert |JoinLines(lines)| >= |lines[0]|;
    }
  }
}
