/** split, and the choice of a request handler that rests on it. */
module Split {

  // ---- splitting ----

  /** s.find_first_of(delim, from), with |s| for npos. */
  function FindFirstOf(s: string, delim: string, from: nat): (i: nat)
    requires from <= |s|
    ensures from <= i <= |s|
    ensures forall j | from <= j < i :: s[j] !in delim
    ensures i < |s| ==> s[i] in delim
    decreases |s| - from
  {
    if from == |s| || s[from] in delim then from else FindFirstOf(s, delim, from + 1)
  }

  predicate Free(s: string, delim: string) {
    forall i | 0 <= i < |s| :: s[i] !in delim
  }

  /** The pieces of s with the delimiters that end all but the last of them. */
  ghost predicate Interleaves(s: string, pieces: seq<string>, delims: string, delim: string) {
    && |pieces| == |delims| + 1
    && Free(pieces[0], delim)
    && if delims == "" then s == pieces[0]
       else
         && delims[0] in delim
         && |pieces[0]| < |s| && s[..|pieces[0]|] == pieces[0] && s[|pieces[0]|] == delims[0]
         && Interleaves(s[|pieces[0]| + 1..], pieces[1..], delims[1..], delim)
  }

  /** The delimiters in s, in order. */
  function Delims(s: string, delim: string): string {
    if s == "" then "" else (if s[0] in delim then [s[0]] else "") + Delims(s[1..], delim)
  }

  function SplitOf(s: string, delim: string): seq<string> {
    var i := FindFirstOf(s, delim, 0);
    if i == |s| then [s] else [s[..i]] + SplitOf(s[i + 1..], delim)
  }

  /** The loop pushes a piece a delimiter and the rest at the end: npos minus last is never 0. */
  method Split(s: string, delim: string) returns (ret: seq<string>)
    ensures ret == SplitOf(s, delim)
  {
    hide SplitOf;
    ret := [];
    var last := 0;
    var index := FindFirstOf(s, delim, last);
    assert s[0..] == s;
    while index != |s|
      invariant last <= index <= |s| && index == FindFirstOf(s, delim, last)
      invariant SplitOf(s, delim) == ret + SplitOf(s[last..], delim)
      decreases |s| - last
    {
      NextPiece(s, delim, last);
      ret := ret + [s[last..index]];
      last := index + 1;
      index := FindFirstOf(s, delim, last);
    }
    LastPiece(s, delim, last);
    ret := ret + [s[last..]];
    assert ret == SplitOf(s, delim);
  }

  lemma FirstPiece(s: string, delim: string, i: nat)
    requires i < |s| && FindFirstOf(s, delim, 0) == i
    ensures SplitOf(s, delim) == [s[..i]] + SplitOf(s[i + 1..], delim)
  {
  }

  lemma NextPiece(s: string, delim: string, last: nat)
    requires last <= |s| && FindFirstOf(s, delim, last) < |s|
    ensures var i := FindFirstOf(s, delim, last);
            SplitOf(s[last..], delim) == [s[last..i]] + SplitOf(s[i + 1..], delim)
  {
    hide SplitOf;
    ShiftedFind(s, delim, last);
    var i := FindFirstOf(s, delim, last);
    assert s[last..][..i - last] == s[last..i];
    assert s[last..][i - last + 1..] == s[i + 1..];
    hide FindFirstOf;
    FirstPiece(s[last..], delim, i - last);
  }

  lemma LastPiece(s: string, delim: string, last: nat)
    requires last <= |s| && FindFirstOf(s, delim, last) == |s|
    ensures SplitOf(s[last..], delim) == [s[last..]]
  {
    ShiftedFind(s, delim, last);
  }

  lemma {:induction false} ShiftedFind(s: string, delim: string, from: nat)
    requires from <= |s|
    ensures FindFirstOf(s[from..], delim, 0) == FindFirstOf(s, delim, from) - from
  {
    assert forall k | 0 <= k < |s| - from :: s[from..][k] == s[from + k];
  }

  lemma {:induction false} DelimsFrom(s: string, delim: string, i: nat)
    requires i <= |s| && forall j | 0 <= j < i :: s[j] !in delim
    ensures Delims(s, delim) == Delims(s[i..], delim)
  {
    if i == 0 {
      assert s[0..] == s;
    } else {
      DelimsFrom(s[1..], delim, i - 1);
      assert s[1..][i - 1..] == s[i..];
    }
  }

  /** For any delimiter set: the pieces hold no delimiter, are one more than the delimiters in s, and
      with these in between make up s again. */
  lemma {:induction false} SplitInterleaves(s: string, delim: string)
    ensures Interleaves(s, SplitOf(s, delim), Delims(s, delim), delim)
    decreases |s|
  {
    var i := FindFirstOf(s, delim, 0);
    DelimsFrom(s, delim, i);
    if i < |s| {
      SplitInterleaves(s[i + 1..], delim);
      assert s[i..][1..] == s[i + 1..];
      var ps := SplitOf(s, delim);
      assert ps[1..] == SplitOf(s[i + 1..], delim) && Delims(s, delim)[1..] == Delims(s[i + 1..], delim);
      assert ps[0] == s[..i];
      assert Free(s[..i], delim);
    } else {
      assert s[i..] == "";
    }
  }

  /** And there is only one such way to take s apart. */
  lemma {:induction false} SplitUnique(s: string, pieces: seq<string>, delims: string, delim: string)
    requires Interleaves(s, pieces, delims, delim)
    ensures pieces == SplitOf(s, delim) && delims == Delims(s, delim)
    decreases |s|
  {
    var n := |pieces[0]|;
    FirstPieceEnds(s, pieces[0], delim);
    DelimsFrom(s, delim, n);
    if delims != "" {
      assert s[n..][1..] == s[n + 1..] && s[n..][0] == delims[0];
      SplitUnique(s[n + 1..], pieces[1..], delims[1..], delim);
      hide Interleaves, Free;
      assert pieces == [pieces[0]] + pieces[1..] && delims == [delims[0]] + delims[1..];
    } else {
      assert s[n..] == "";
      assert pieces == [pieces[0]];
    }
  }

  lemma FirstPieceEnds(s: string, piece: string, delim: string)
    requires |piece| <= |s| && s[..|piece|] == piece && Free(piece, delim)
    requires |piece| < |s| ==> s[|piece|] in delim
    ensures FindFirstOf(s, delim, 0) == |piece|
    ensures forall j | 0 <= j < |piece| :: s[j] !in delim
  {
    assert forall j | 0 <= j < |piece| :: s[j] == piece[j];
  }

  // ---- a single delimiter ----

  function Join(pieces: seq<string>, d: char): string
    requires pieces != []
  {
    if |pieces| == 1 then pieces[0] else pieces[0] + [d] + Join(pieces[1..], d)
  }

  function Count(s: string, d: char): nat {
    if s == "" then 0 else (if s[0] == d then 1 else 0) + Count(s[1..], d)
  }

  lemma {:induction false} JoinInterleaves(pieces: seq<string>, delims: string, d: char)
    requires |pieces| == |delims| + 1 && (forall i | 0 <= i < |delims| :: delims[i] == d)
    requires forall i | 0 <= i < |pieces| :: Free(pieces[i], [d])
    ensures Interleaves(Join(pieces, d), pieces, delims, [d])
  {
    if delims != "" {
      JoinInterleaves(pieces[1..], delims[1..], d);
      var s, n := Join(pieces, d), |pieces[0]|;
      assert s[..n] == pieces[0] && s[n + 1..] == Join(pieces[1..], d);
    }
  }

  lemma {:induction false} InterleavedIsJoin(s: string, pieces: seq<string>, delims: string, d: char)
    requires Interleaves(s, pieces, delims, [d])
    ensures s == Join(pieces, d)
    ensures forall i | 0 <= i < |pieces| :: Free(pieces[i], [d])
    decreases |delims|
  {
    if delims != "" {
      var n := |pieces[0]|;
      InterleavedIsJoin(s[n + 1..], pieces[1..], delims[1..], d);
      assert s == s[..n] + [s[n]] + s[n + 1..];
      forall i | 0 <= i < |pieces| ensures Free(pieces[i], [d]) {
        if i > 0 {
          assert pieces[i] == pieces[1..][i - 1];
        }
      }
    }
  }

  lemma {:induction false} DelimsCount(s: string, d: char)
    ensures |Delims(s, [d])| == Count(s, d)
  {
    if s != "" {
      DelimsCount(s[1..], d);
    }
  }

  /** Joining what split gives yields the string again; no piece holds the delimiter, and there is
      one piece more than delimiters. */
  lemma JoinOfSplit(s: string, d: char)
    ensures |SplitOf(s, [d])| == Count(s, d) + 1
    ensures Join(SplitOf(s, [d]), d) == s
    ensures forall i | 0 <= i < |SplitOf(s, [d])| :: Free(SplitOf(s, [d])[i], [d])
  {
    SplitInterleaves(s, [d]);
    InterleavedIsJoin(s, SplitOf(s, [d]), Delims(s, [d]), d);
    DelimsCount(s, d);
  }

  /** Splitting a join of pieces without the delimiter yields the pieces again. */
  lemma SplitOfJoin(pieces: seq<string>, d: char)
    requires pieces != [] && forall i | 0 <= i < |pieces| :: Free(pieces[i], [d])
    ensures SplitOf(Join(pieces, d), [d]) == pieces
  {
    var delims := seq(|pieces| - 1, _ => d);
    JoinInterleaves(pieces, delims, d);
    SplitUnique(Join(pieces, d), pieces, delims, [d]);
  }

  // ---- the handler for a request ----

  datatype Handler = TGPWrongHandler | TGProxyHandler(modelName: string, modelVer: string)

  /** The URL is anything without a slash, then the model's name and version, each after a slash. */
  ghost predicate Names(url: string, name: string, ver: string) {
    && name != "" && ver != ""
    && exists p: string ::
         && Free(p, "/") && Free(name, "/") && Free(ver, "/")
         && url == p + "/" + name + "/" + ver
  }

  /** A model is served exactly under a URL that names it; every other URL is turned away. */
  method OnRequest(url: string) returns (handler: Handler)
    ensures forall name, ver :: handler == TGProxyHandler(name, ver) <==> Names(url, name, ver)
  {
    RoutedIffNamed(url);
    if url == "/" {
      RootIsWrong();
      return TGPWrongHandler;
    }
    var terms := Split(url, "/");
    if |terms| == 3 {
      if terms[1] == "" || terms[2] == "" {
        return TGPWrongHandler;
      }
      return TGProxyHandler(terms[1], terms[2]);
    } else {
      return TGPWrongHandler;
    }
  }

  lemma RootIsWrong()
    ensures |SplitOf("/", "/")| == 2
  {
    JoinOfSplit("/", '/');
    assert Count("/", '/') == 1;
  }

  ghost predicate Routed(url: string, name: string, ver: string) {
    var terms := SplitOf(url, "/");
    |terms| == 3 && terms[1] == name != "" && terms[2] == ver != ""
  }

  lemma ThreeJoined(p: string, name: string, ver: string)
    ensures Join([p, name, ver], '/') == p + "/" + name + "/" + ver
  {
    assert [p, name, ver][1..] == [name, ver] && [name, ver][1..] == [ver];
    assert Join([name, ver], '/') == name + "/" + ver;
    assert p + "/" + (name + "/" + ver) == p + "/" + name + "/" + ver;
  }

  lemma RoutedIsNamed(url: string, name: string, ver: string)
    requires Routed(url, name, ver)
    ensures Names(url, name, ver)
  {
    var terms := SplitOf(url, "/");
    JoinOfSplit(url, '/');
    hide SplitOf, Free, Join;
    assert terms == [terms[0], name, ver];
    assert Free(terms[0], "/") && Free(terms[1], "/") && Free(terms[2], "/");
    ThreeJoined(terms[0], name, ver);
  }

  lemma NamedIsRouted(url: string, name: string, ver: string)
    requires Names(url, name, ver)
    ensures Routed(url, name, ver)
  {
    hide SplitOf, Free, Join;
    var p :| Free(p, "/") && Free(name, "/") && Free(ver, "/") && url == p + "/" + name + "/" + ver;
    ThreeJoined(p, name, ver);
    SplitOfJoin([p, name, ver], '/');
  }

  lemma RoutedIffNamed(url: string)
    ensures forall name, ver :: Routed(url, name, ver) <==> Names(url, name, ver)
  {
    hide Routed, Names;
    forall name, ver ensures Routed(url, name, ver) <==> Names(url, name, ver) {
      if Routed(url, name, ver) {
        RoutedIsNamed(url, name, ver);
      }
      if Names(url, name, ver) {
        NamedIsRouted(url, name, ver);
      }
    }
  }

  /** Hence a request reaches a model exactly if its URL has two slashes and a character after each,
      whatever stands before the first. */
  lemma TwoSlashes(url: string)
    ensures (exists name, ver :: Names(url, name, ver))
            <==> Count(url, '/') == 2 && |SplitOf(url, "/")| == 3
                 && SplitOf(url, "/")[1] != "" && SplitOf(url, "/")[2] != ""
  {
    RoutedIffNamed(url);
    JoinOfSplit(url, '/');
    if |SplitOf(url, "/")| == 3 && SplitOf(url, "/")[1] != "" && SplitOf(url, "/")[2] != "" {
      assert Routed(url, SplitOf(url, "/")[1], SplitOf(url, "/")[2]);
    }
  }

  /** An example: text before the first slash does not matter. */
  lemma TextBeforeSlashIsAccepted()
    ensures Names("x/m/v", "m", "v")
  {
    assert "x/m/v" == "x" + "/" + "m" + "/" + "v";
  }
}
