/**
 * Path text of the FTP session: canonicalize and the resolution of an
 * operand against the working directory (FTPFS.FTPConnection).
 */
module FtpPaths {
  import opened Text

  /** A piece canonicalize keeps: not empty, not "..", free of separators. */
  predicate Segment(p: string)
  {
    p != "" && p != ".." && '/' !in p
  }

  /** One trailing "/" is cut off before splitting. */
  function StripSlash(s: string): (r: string)
    ensures EndsWith(s, "/") ==> r + "/" == s
    ensures !EndsWith(s, "/") ==> r == s
  {
    if EndsWith(s, "/") then s[..|s| - 1] else s
  }

  /**
   * One turn of the split loop: an empty token is skipped, ".." drops the
   * last piece only while more than two are held, anything else is kept.
   */
  function Keep(pieces: seq<string>, token: string): seq<string>
  {
    if token == "" then pieces
    else if token == ".." then (if |pieces| > 2 then pieces[..|pieces| - 1] else pieces)
    else pieces + [token]
  }

  /** The pieces list after the split loop has seen every token in order. */
  function Kept(tokens: seq<string>): (r: seq<string>)
    ensures (forall i :: 0 <= i < |tokens| ==> '/' !in tokens[i]) ==> forall i :: 0 <= i < |r| ==> Segment(r[i])
    decreases |tokens|
  {
    if |tokens| == 0 then []
    else
      var init := tokens[..|tokens| - 1];
      assert forall i :: 0 <= i < |init| ==> init[i] == tokens[i];
      Keep(Kept(init), tokens[|tokens| - 1])
  }

  /** The StringBuilder loop: "/" in front of every piece. */
  function Slashed(pieces: seq<string>): string
    decreases |pieces|
  {
    if |pieces| == 0 then "" else Slashed(pieces[..|pieces| - 1]) + "/" + pieces[|pieces| - 1]
  }

  /** canonicalize(path), as a function of the path. */
  function Canonical(path: string): string
  {
    Slashed(Kept(JavaSplit(StripSlash(path), '/')))
  }

  /** canonicalize: the split loop over a pieces list, then the join loop over a builder. */
  method Canonicalize(path: string) returns (ret: string)
    ensures ret == Canonical(path)
  {
    var str := path;
    if EndsWith(str, "/") {
      str := str[..|str| - 1];
    }
    var split := JavaSplit(str, '/');
    var pieces: seq<string> := [];
    var i := 0;
    while i < |split|
      invariant 0 <= i <= |split|
      invariant pieces == Kept(split[..i])
    {
      assert split[..i + 1][..i] == split[..i];
      var s := split[i];
      if s == "" {
      } else if s == ".." {
        if |pieces| > 2 {
          pieces := pieces[..|pieces| - 1];
        }
      } else {
        pieces := pieces + [s];
      }
      i := i + 1;
    }
    assert split[..i] == split;
    var sb := "";
    var j := 0;
    while j < |pieces|
      invariant 0 <= j <= |pieces|
      invariant sb == Slashed(pieces[..j])
    {
      assert pieces[..j + 1][..j] == pieces[..j];
      sb := sb + "/" + pieces[j];
      j := j + 1;
    }
    assert pieces[..j] == pieces;
    ret := sb;
  }

  /** Slashed text is the pieces joined by "/" behind an empty first piece. */
  lemma {:induction false} SlashedJoin(ps: seq<string>)
    ensures Slashed(ps) == JoinWith([""] + ps, '/')
    decreases |ps|
  {
    if |ps| > 0 {
      var init := ps[..|ps| - 1];
      SlashedJoin(init);
      JoinWithSnoc([""] + init, ps[|ps| - 1]);
      assert [""] + init + [ps[|ps| - 1]] == [""] + ps;
    }
  }

  lemma {:induction false} JoinWithSnoc(xs: seq<string>, y: string)
    requires |xs| >= 1
    ensures JoinWith(xs + [y], '/') == JoinWith(xs, '/') + "/" + y
    decreases |xs|
  {
    if |xs| == 1 {
      assert (xs + [y])[1..] == [y];
    } else {
      JoinWithSnoc(xs[1..], y);
      assert (xs + [y])[1..] == xs[1..] + [y];
    }
  }

  /** Splitting slashed text at "/" gives back an empty first piece and the pieces. */
  lemma SplitSlashed(ps: seq<string>)
    requires forall i :: 0 <= i < |ps| ==> '/' !in ps[i]
    requires |ps| > 0 ==> ps[|ps| - 1] != ""
    ensures JavaSplit(Slashed(ps), '/') == [""] + ps
  {
    SlashedJoin(ps);
    var all := [""] + ps;
    assert forall i :: 0 <= i < |all| ==> '/' !in all[i] by {
      forall i | 0 <= i < |all| ensures '/' !in all[i] {
        if i > 0 { assert all[i] == ps[i - 1]; }
      }
    }
    JoinSplitAll(all, '/');
    if |ps| == 0 {
      assert Slashed(ps) == "";
    } else {
      assert Slashed(ps) == Slashed(ps[..|ps| - 1]) + "/" + ps[|ps| - 1];
      assert '/' in Slashed(ps) by {
        assert Slashed(ps)[|Slashed(ps[..|ps| - 1])|] == '/';
      }
    }
  }

  /** A leading empty token changes nothing. */
  lemma {:induction false} KeptLeadingEmpty(ts: seq<string>)
    ensures Kept([""] + ts) == Kept(ts)
    decreases |ts|
  {
    if |ts| == 0 {
      assert Kept([""]) == Keep(Kept([]), "");
    } else {
      var init := ts[..|ts| - 1];
      KeptLeadingEmpty(init);
      assert ([""] + ts)[..|ts|] == [""] + init;
    }
  }

  /** Segments pass the split loop unchanged. */
  lemma {:induction false} KeptSegments(ps: seq<string>)
    requires forall i :: 0 <= i < |ps| ==> Segment(ps[i])
    ensures Kept(ps) == ps
    decreases |ps|
  {
    if |ps| > 0 {
      var init := ps[..|ps| - 1];
      KeptSegments(init);
      assert init + [ps[|ps| - 1]] == ps;
    }
  }

  /** Slashed text whose last piece is not empty canonicalises by running the loop over its pieces. */
  lemma CanonicalOfSlashed(ps: seq<string>)
    requires forall i :: 0 <= i < |ps| ==> '/' !in ps[i]
    requires |ps| > 0 ==> ps[|ps| - 1] != ""
    ensures Canonical(Slashed(ps)) == Slashed(Kept(ps))
  {
    NotEndingInSlash(ps);
    SplitSlashed(ps);
    KeptLeadingEmpty(ps);
  }

  lemma NotEndingInSlash(ps: seq<string>)
    requires forall i :: 0 <= i < |ps| ==> '/' !in ps[i]
    requires |ps| > 0 ==> ps[|ps| - 1] != ""
    ensures !EndsWith(Slashed(ps), "/")
  {
    if |ps| > 0 {
      var last := ps[|ps| - 1];
      var r := Slashed(ps);
      assert r == Slashed(ps[..|ps| - 1]) + "/" + last;
      assert r[|r| - 1] == last[|last| - 1];
    }
  }

  lemma {:induction false} SlashedStart(ps: seq<string>)
    ensures Slashed(ps) == "" || Slashed(ps)[0] == '/'
    decreases |ps|
  {
    if |ps| > 0 {
      var init := Slashed(ps[..|ps| - 1]);
      SlashedStart(ps[..|ps| - 1]);
      assert Slashed(ps) == init + "/" + ps[|ps| - 1];
      if init == "" { } else { assert Slashed(ps)[0] == init[0]; }
    }
  }

  /** The pieces canonicalize keeps for a path. */
  function CanonicalPieces(path: string): (r: seq<string>)
    ensures forall i :: 0 <= i < |r| ==> Segment(r[i])
    ensures Canonical(path) == Slashed(r)
  {
    Kept(JavaSplit(StripSlash(path), '/'))
  }

  /**
   * The shape of every result: empty, or "/" followed by pieces split at
   * "/" that are none of them empty or "..", with no trailing "/".
   */
  lemma CanonicalShape(path: string)
    ensures Canonical(path) == "" || Canonical(path)[0] == '/'
    ensures !EndsWith(Canonical(path), "/")
    ensures |JavaSplit(Canonical(path), '/')| > 0 && JavaSplit(Canonical(path), '/')[0] == ""
    ensures forall i :: 1 <= i < |JavaSplit(Canonical(path), '/')| ==> Segment(JavaSplit(Canonical(path), '/')[i])
  {
    var ps := CanonicalPieces(path);
    NotEndingInSlash(ps);
    SlashedStart(ps);
    SplitSlashed(ps);
    assert JavaSplit(Canonical(path), '/') == [""] + ps;
    forall i | 1 <= i < |[""] + ps| ensures Segment(([""] + ps)[i]) {
      assert ([""] + ps)[i] == ps[i - 1];
    }
  }

  /** canonicalize is idempotent. */
  lemma CanonicalIdempotent(path: string)
    ensures Canonical(Canonical(path)) == Canonical(path)
  {
    var ps := CanonicalPieces(path);
    CanonicalOfSlashed(ps);
    KeptSegments(ps);
  }

  lemma SlashedSnoc(ps: seq<string>, x: string)
    ensures Slashed(ps + [x]) == Slashed(ps) + "/" + x
  {
    assert (ps + [x])[..|ps|] == ps;
  }

  lemma KeptSnoc(ts: seq<string>, t: string)
    ensures Kept(ts + [t]) == Keep(Kept(ts), t)
  {
    assert (ts + [t])[..|ts|] == ts;
  }

  /** The pieces followed by "..": separator-free, and the last one is not empty. */
  lemma DotDotPieces(ps: seq<string>)
    requires forall i :: 0 <= i < |ps| ==> Segment(ps[i])
    ensures forall i :: 0 <= i < |ps + [".."]| ==> '/' !in (ps + [".."])[i]
  {
    forall i | 0 <= i < |ps + [".."]| ensures '/' !in (ps + [".."])[i] {
      if i < |ps| { assert (ps + [".."])[i] == ps[i]; }
    }
  }

  /**
   * A ".." after segments removes the last one only when more than two are
   * held: "/a/b/.." stays "/a/b" while "/a/b/c/.." becomes "/a/b".
   */
  lemma DotDotRule(ps: seq<string>)
    requires forall i :: 0 <= i < |ps| ==> Segment(ps[i])
    ensures Canonical(Slashed(ps) + "/..") == if |ps| > 2 then Slashed(ps[..|ps| - 1]) else Slashed(ps)
  {
    var qs := ps + [".."];
    DotDotText(ps);
    assert Canonical(Slashed(qs)) == Slashed(Kept(qs)) by {
      DotDotPieces(ps);
      CanonicalOfSlashed(qs);
    }
    assert Kept(qs) == Keep(ps, "..") by {
      KeptSnoc(ps, "..");
      KeptSegments(ps);
    }
  }

  /**
   * CDUP from a working directory set by CWD (segments plus a trailing "/"):
   * canonicalize(cwd + "/..") leaves the segments alone at depth two or less.
   */
  lemma CdupRule(ps: seq<string>)
    requires forall i :: 0 <= i < |ps| ==> Segment(ps[i])
    ensures Canonical(Slashed(ps) + "/" + "/..") == if |ps| > 2 then Slashed(ps[..|ps| - 1]) else Slashed(ps)
  {
    var qs := ps + ["", ".."];
    assert Slashed(qs) == Slashed(ps) + "/" + "/.." by { CdupText(ps); }
    assert Canonical(Slashed(qs)) == Slashed(Kept(qs)) by {
      forall i | 0 <= i < |qs| ensures '/' !in qs[i] {
        if i < |ps| { assert qs[i] == ps[i]; }
        else if i == |ps| { assert qs[i] == ""; }
        else { assert qs[i] == ".."; }
      }
      CanonicalOfSlashed(qs);
    }
    assert Kept(qs) == Keep(ps, "..") by { CdupKept(ps); }
  }

  lemma DotDotText(ps: seq<string>)
    ensures Slashed(ps + [".."]) == Slashed(ps) + "/.."
  {
    SlashedSnoc(ps, "..");
    var s := Slashed(ps);
    assert s + "/" + ".." == s + "/..";
  }

  lemma CdupText(ps: seq<string>)
    ensures Slashed(ps + ["", ".."]) == Slashed(ps) + "/" + "/.."
  {
    var ps1 := ps + [""];
    assert ps + ["", ".."] == ps1 + [".."];
    SlashedSnoc(ps, "");
    SlashedSnoc(ps1, "..");
    var s := Slashed(ps);
    assert s + "/" + "" == s + "/";
    assert s + "/" + "/" + ".." == s + "/" + "/..";
  }

  lemma CdupKept(ps: seq<string>)
    requires forall i :: 0 <= i < |ps| ==> Segment(ps[i])
    ensures Kept(ps + ["", ".."]) == Keep(ps, "..")
  {
    var ps1 := ps + [""];
    assert ps + ["", ".."] == ps1 + [".."];
    KeptSnoc(ps, "");
    KeptSnoc(ps1, "..");
    KeptSegments(ps);
  }

  /** SIZE, MDTM and RETR: an operand starting with "/" is used as it is, otherwise appended to cwd and canonicalised. */
  function Operand(cwd: string, req: string): (r: string)
    ensures StartsWith(req, "/") ==> r == req
    ensures !StartsWith(req, "/") ==> Canonical(r) == r
  {
    if StartsWith(req, "/") then req
    else
      CanonicalIdempotent(cwd + "/" + req);
      Canonical(cwd + "/" + req)
  }

  /**
   * The target CWD computes from its operand: canonicalised, given a
   * trailing "/", and resolved against cwd only when it does not start
   * with "/".
   */
  function CwdTarget(cwd: string, arg: string): string
  {
    var dir0 := Canonical(arg);
    var dir := if EndsWith(dir0, "/") then dir0 else dir0 + "/";
    if StartsWith(dir, "/") then dir else Canonical(cwd + "/" + dir)
  }

  /**
   * The relative branch is never taken: the canonical text always starts
   * with "/" once the "/" is appended, so CWD resolves from the root and
   * ignores cwd.
   */
  lemma CwdIgnoresCwd(cwd: string, arg: string)
    ensures CwdTarget(cwd, arg) == Canonical(arg) + "/"
  {
    CanonicalShape(arg);
    SlashedStart(CanonicalPieces(arg));
    var dir := Canonical(arg) + "/";
    assert dir[0] == '/';
  }
}
