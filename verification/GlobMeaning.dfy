/** What compiled exclude patterns mean: for patterns without `?`, exactly the paths the globs cover. */
module GlobMeaning {
  import opened Common
  import opened Regexes
  import opened Excludes
  import opened Splitting

  // ---- patterns without a question mark -----------------------------------------------

  /** The pieces of a `?`-free pattern match what the glob matches. */
  lemma {:induction false} PiecesMatchGlob(pat: string, s: string)
    requires '?' !in pat && OneLine(s)
    ensures Pieces(pat).Some? && (MatchesAll(Pieces(pat).value, s) <==> Glob(pat, s))
    decreases |pat|
  {
    if pat == "" {
    } else if StartsWith(pat, "**") {
      var rest := AfterStars(pat);
      AfterStarsNoQuestion(pat);
      PiecesMatchGlob(rest, s);
      forall k | 0 <= k <= |s|
        ensures OneLine(s[..k]) && (MatchesAll(Pieces(rest).value, s[k..]) <==> Glob(rest, s[k..]))
      {
        PiecesMatchGlob(rest, s[k..]);
      }
      ConsPiece(Piece(AnyRun, false), Pieces(rest).value);
    } else if pat[0] == '*' {
      var rest := pat[1..];
      NoQuestion(rest);
      PiecesMatchGlob(rest, s);
      forall k | 0 <= k <= |s| ensures MatchesAll(Pieces(rest).value, s[k..]) <==> Glob(rest, s[k..]) {
        PiecesMatchGlob(rest, s[k..]);
      }
      ConsPiece(Piece(SegmentRun, false), Pieces(rest).value);
    } else {
      var rest := pat[1..];
      NoQuestion(rest);
      PiecesMatchGlob(rest, s);
      if s != "" {
        PiecesMatchGlob(rest, s[1..]);
      }
      ConsPiece(Piece(Lit(pat[0]), false), Pieces(rest).value);
    }
  }

  lemma ConsPiece(x: Piece, ps: seq<Piece>)
    ensures ([x] + ps)[0] == x && ([x] + ps)[1..] == ps
  {}

  lemma NoQuestion(s: string)
    requires '?' !in s
    ensures !StartsWith(s, "?") && SkipLazy(s) == s
  {
    FirstChar(s, "?");
  }

  lemma AfterStarsNoQuestion(pat: string)
    requires StartsWith(pat, "**") && '?' !in pat
    ensures '?' !in AfterStars(pat) && SkipLazy(AfterStars(pat)) == AfterStars(pat)
  {
    NoQuestion(AfterStars(pat));
  }

  lemma TailIsBoundary(path: string, k: nat)
    requires k <= |path| && OneLine(path)
    ensures MatchesTail(path[k..]) <==> k == |path| || path[k] == '/'
  {
    if k < |path| {
      assert path[k..][0] == path[k] && path[k..][1..] == path[k + 1..];
    }
  }

  /** Compiling a `?`-free pattern gives a regular expression that accepts exactly the paths the glob
      covers. */
  lemma CompiledMeansCovers(pat: string, path: string)
    requires '?' !in pat && OneLine(path)
    ensures Compiled(pat).Some? && (Test(Compiled(pat).value, path) <==> Covers(pat, path))
  {
    NoQuestion(pat);
    PiecesMatchGlob(pat, "");
    var re := Compiled(pat).value;
    forall i, k | 0 <= i <= k <= |path|
      ensures MatchesAll(re.body, path[i..k]) <==> Glob(pat, path[i..k])
      ensures MatchesTail(path[k..]) <==> k == |path| || path[k] == '/'
    {
      PiecesMatchGlob(pat, path[i..k]);
      TailIsBoundary(path, k);
    }
    if Test(re, path) {
      var i, k :| 0 <= i <= k <= |path| && (i == 0 || (re.segment && (re.loose || path[i - 1] == '/')))
                  && MatchesAll(re.body, path[i..k]) && MatchesTail(path[k..]);
      assert CoversAt(pat, path, i, k);
    }
    if Covers(pat, path) {
      var i, k :| CoversAt(pat, path, i, k);
      assert MatchesAll(re.body, path[i..k]) && MatchesTail(path[k..]);
    }
  }

  // ---- patterns with a question mark ----------------------------------------------------

  /** The pattern's literal characters, without the question marks. */
  function Witness(pat: string): string
    decreases |pat|
  {
    if pat == "" then ""
    else if StartsWith(pat, "**") then Witness(AfterStars(pat))
    else if pat[0] == '*' || pat[0] == '?' then Witness(pat[1..])
    else [pat[0]] + Witness(pat[1..])
  }

  lemma {:induction false} WitnessChars(pat: string)
    ensures '?' !in Witness(pat) && forall c :: c in Witness(pat) ==> c in pat
    decreases |pat|
  {
    if pat == "" {
    } else if StartsWith(pat, "**") {
      WitnessChars(AfterStars(pat));
    } else {
      WitnessChars(pat[1..]);
    }
  }

  lemma {:induction false} WitnessSkip(pat: string)
    ensures Witness(SkipLazy(pat)) == Witness(pat)
  {
    FirstChar(pat, "?");
    FirstChar(pat, "**");
  }

  lemma {:induction false} MatchesRunFirst(x: Piece, ps: seq<Piece>, s: string)
    requires MatchesAll(ps, s) && (x.atom.AnyRun? || x.atom.SegmentRun?)
    ensures MatchesAll([x] + ps, s)
  {
    ConsPiece(x, ps);
    assert s[..0] == "" && s[0..] == s;
  }

  lemma {:induction false} MatchesLitFirst(x: Piece, c: char, ps: seq<Piece>, s: string)
    requires MatchesAll(ps, s) && x.atom == Lit(c)
    ensures MatchesAll([x] + ps, [c] + s)
  {
    ConsPiece(x, ps);
    assert ([c] + s)[1..] == s;
  }

  lemma {:induction false} WitnessMatches(pat: string)
    ensures Pieces(pat).Some? ==> MatchesAll(Pieces(pat).value, Witness(pat))
    decreases |pat|
  {
    if pat == "" || Pieces(pat).None? {
    } else if StartsWith(pat, "**") {
      var rest := AfterStars(pat);
      WitnessSkip(rest);
      WitnessMatches(SkipLazy(rest));
      MatchesRunFirst(Piece(AnyRun, false), Pieces(SkipLazy(rest)).value, Witness(pat));
    } else if pat[0] == '*' {
      var rest := pat[1..];
      WitnessSkip(rest);
      WitnessMatches(SkipLazy(rest));
      MatchesRunFirst(Piece(SegmentRun, false), Pieces(SkipLazy(rest)).value, Witness(pat));
    } else {
      var optional := StartsWith(pat[1..], "?");
      var rest := if optional then SkipLazy(pat[2..]) else pat[1..];
      LiteralWitness(pat);
      WitnessMatches(rest);
      MatchesLitFirst(Piece(Lit(pat[0]), optional), pat[0], Pieces(rest).value, Witness(rest));
    }
  }

  lemma LiteralWitness(pat: string)
    requires pat != "" && pat[0] != '*' && pat[0] != '?'
    ensures Witness(pat) == [pat[0]] + Witness(if StartsWith(pat[1..], "?") then SkipLazy(pat[2..]) else pat[1..])
  {
    FirstChar(pat, "**");
    if StartsWith(pat[1..], "?") {
      WitnessSkip(pat[1..]);
      assert pat[1..][1..] == pat[2..];
      WitnessSkip(pat[2..]);
    }
  }

  lemma QuestionAfterStars(pat: string)
    requires StartsWith(pat, "**") && '?' in pat
    ensures '?' in AfterStars(pat)
  {
    Stars(pat);
    var n := |pat| - |AfterStars(pat)|;
    var i :| 0 <= i < |pat| && pat[i] == '?';
    assert i >= n && AfterStars(pat)[i - n] == pat[i];
  }

  /** The glob of a pattern with a question mark only matches text with one. */
  lemma {:induction false} GlobNeedsQuestion(pat: string, s: string)
    requires '?' in pat && Glob(pat, s)
    ensures '?' in s
    decreases |pat|
  {
    if StartsWith(pat, "**") {
      var k :| 0 <= k <= |s| && Glob(AfterStars(pat), s[k..]);
      QuestionAfterStars(pat);
      GlobNeedsQuestion(AfterStars(pat), s[k..]);
    } else if pat[0] == '*' {
      var k :| 0 <= k <= |s| && '/' !in s[..k] && Glob(pat[1..], s[k..]);
      GlobNeedsQuestion(pat[1..], s[k..]);
    } else if pat[0] != '?' {
      GlobNeedsQuestion(pat[1..], s[1..]);
    }
  }

  /** A pattern with a question mark does not compile, or its compiled form accepts a path the glob
      does not cover, made of the pattern's own characters. */
  lemma QuestionMarkBreaks(pat: string) returns (path: string)
    requires '?' in pat && Compiled(pat).Some?
    ensures (forall c :: c in path ==> c in pat)
    ensures Test(Compiled(pat).value, path) && !Covers(pat, path)
  {
    path := Witness(pat);
    WitnessChars(pat);
    var body := if '/' !in pat && StartsWith(pat, "?") then SkipLazy(pat[1..]) else pat;
    if '/' !in pat && StartsWith(pat, "?") {
      FirstChar(pat, "?");
      WitnessSkip(pat);
      WitnessSkip(pat[1..]);
    }
    assert Witness(body) == path;
    WitnessMatches(body);
    var re := Compiled(pat).value;
    assert path[0..|path|] == path && path[|path|..] == "";
    assert MatchesAll(re.body, path[0..|path|]) && MatchesTail(path[|path|..]);
    if Covers(pat, path) {
      var i, k :| CoversAt(pat, path, i, k);
      GlobNeedsQuestion(pat, path[i..k]);
      assert false;
    }
  }

  ghost predicate CompiledRight(pat: string, path: string) {
    Compiled(pat).Some? && (Test(Compiled(pat).value, path) <==> Covers(pat, path))
  }

  /** The compiler is right for a pattern, on all one-line paths, exactly when the pattern has no `?`. */
  lemma CompilerIsRightIff(pat: string)
    requires OneLine(pat)
    ensures (forall path :: OneLine(path) ==> CompiledRight(pat, path)) <==> '?' !in pat
  {
    if '?' !in pat {
      forall path | OneLine(path) ensures CompiledRight(pat, path) {
        CompiledMeansCovers(pat, path);
      }
    } else if Compiled(pat).Some? {
      var path := QuestionMarkBreaks(pat);
      forall i | 0 <= i < |path| ensures !LineTerminator(path[i]) {
        assert path[i] in path;
      }
      assert OneLine(path) && !CompiledRight(pat, path);
    } else {
      assert OneLine("") && !CompiledRight(pat, "");
    }
  }

  lemma {:induction false} RunStaysOnLine(s: string)
    ensures MatchesAll([Piece(AnyRun, false)], s) ==> OneLine(s)
  {
    var ps := [Piece(AnyRun, false)];
    assert ps[1..] == [];
    if MatchesAll(ps, s) {
      var k :| 0 <= k <= |s| && OneLine(s[..k]) && MatchesAll(ps[1..], s[k..]);
      assert s[k..] == "" && s[..k] == s;
    }
  }

  lemma EverythingPattern()
    ensures Compiled("**/") == Some(Regex(false, false, [Piece(AnyRun, false)])) && '?' !in "**/"
  {
    assert "**/"[..2] == "**" && AfterStars("**/") == "";
    FirstChar("", "?");
    FirstChar("**/", "?");
    assert Pieces("") == Some([]);
    assert [Piece(AnyRun, false)] + [] == [Piece(AnyRun, false)];
    assert "**/"[2] == '/';
  }

  lemma EverythingIsCovered(path: string)
    ensures Covers("**/", path)
  {
    assert "**/"[..2] == "**" && AfterStars("**/") == "";
    assert path[0..|path|] == path && path[|path|..] == "";
    assert Glob("**/", path);
    assert CoversAt("**/", path, 0, |path|);
  }

  lemma EverythingStaysOnLine(path: string)
    requires Test(Regex(false, false, [Piece(AnyRun, false)]), path)
    ensures OneLine(path)
  {
    var ps := [Piece(AnyRun, false)];
    var k :| 0 <= k <= |path| && MatchesAll(ps, path[0..k]) && MatchesTail(path[k..]);
    RunStaysOnLine(path[0..k]);
    forall i | 0 <= i < |path| ensures !LineTerminator(path[i]) {
      if i < k {
        assert path[0..k][i] == path[i];
      } else if i == k {
        assert path[k..][0] == path[i];
      } else {
        assert path[k..][1..][i - k - 1] == path[i];
      }
    }
  }

  /** Every pattern without `?` is decided rightly on a path exactly when the path has no line
      terminator: otherwise already the pattern for everything misses it. */
  lemma PathIsDecidedRightlyIff(path: string)
    ensures (forall pat :: '?' !in pat ==> CompiledRight(pat, path)) <==> OneLine(path)
  {
    if OneLine(path) {
      forall pat | '?' !in pat ensures CompiledRight(pat, path) {
        CompiledMeansCovers(pat, path);
      }
    } else {
      EverythingPattern();
      EverythingIsCovered(path);
      if CompiledRight("**/", path) {
        EverythingStaysOnLine(path);
      }
    }
  }

  // ---- consequences ------------------------------------------------------------------------

  /** Exclusion is inherited: whatever is below a covered path is covered. */
  lemma CoversDescendants(pat: string, path: string, below: string)
    requires Covers(pat, path)
    ensures Covers(pat, path + "/" + below)
  {
    var i, k :| CoversAt(pat, path, i, k);
    var deeper := path + "/" + below;
    assert deeper[i..k] == path[i..k];
    assert k == |path| ==> deeper[k] == '/';
    assert CoversAt(pat, deeper, i, k);
  }

  lemma {:induction false} PlainGlobIsOneSegment(pat: string, s: string)
    requires '/' !in pat && Glob(pat, s)
    requires forall i :: 0 <= i < |pat| - 1 ==> !(pat[i] == '*' && pat[i + 1] == '*')
    ensures '/' !in s
    decreases |pat|
  {
    if pat != "" {
      Stars(pat);
      forall i | 0 <= i < |pat[1..]| - 1 ensures !(pat[1..][i] == '*' && pat[1..][i + 1] == '*') {
        assert pat[i + 1] == pat[1..][i] && pat[i + 2] == pat[1..][i + 1];
      }
      if pat[0] == '*' {
        var k :| 0 <= k <= |s| && '/' !in s[..k] && Glob(pat[1..], s[k..]);
        PlainGlobIsOneSegment(pat[1..], s[k..]);
        assert s == s[..k] + s[k..];
      } else {
        PlainGlobIsOneSegment(pat[1..], s[1..]);
        assert s == [s[0]] + s[1..];
      }
    }
  }

  /** `path[i..k]` is one of the path's slash-separated segments. */
  ghost predicate SegmentAt(path: string, i: int, k: int) {
    && 0 <= i <= k <= |path| && '/' !in path[i..k]
    && (i == 0 || path[i - 1] == '/') && (k == |path| || path[k] == '/')
  }

  lemma ConcatFirst(c: char, qa: seq<string>, qb: seq<string>)
    requires |qa| > 0
    ensures [[c] + (qa + qb)[0]] + (qa + qb)[1..] == ([[c] + qa[0]] + qa[1..]) + qb
  {
    assert (qa + qb)[1..] == qa[1..] + qb;
  }

  lemma {:induction false} SplitAtSlash(a: string, b: string)
    ensures Split(Slash, a + "/" + b) == Split(Slash, a) + Split(Slash, b)
    decreases |a|
  {
    if a == "" {
      SlashFirst(b);
      assert a + "/" + b == "/" + b;
    } else {
      SplitAtSlash(a[1..], b);
      assert a + "/" + b == [a[0]] + (a[1..] + "/" + b) && a == [a[0]] + a[1..];
      SplitStep(a[0], a[1..], b);
    }
  }

  lemma {:induction false} SplitStep(c: char, a: string, b: string)
    requires Split(Slash, a + "/" + b) == Split(Slash, a) + Split(Slash, b)
    ensures Split(Slash, [c] + (a + "/" + b)) == Split(Slash, [c] + a) + Split(Slash, b)
  {
    if c == '/' {
      SlashFirst(a + "/" + b);
      SlashFirst(a);
    } else {
      CharFirst(c, a + "/" + b);
      CharFirst(c, a);
      ConcatFirst(c, Split(Slash, a), Split(Slash, b));
    }
  }

  lemma {:induction false} SlashFirst(s: string)
    ensures Split(Slash, "/" + s) == [""] + Split(Slash, s)
  {
    SplitSeparator(Slash, "/" + s);
    assert ("/" + s)[1..] == s;
  }

  lemma {:induction false} CharFirst(c: char, s: string)
    requires c != '/'
    ensures Split(Slash, [c] + s) == [[c] + Split(Slash, s)[0]] + Split(Slash, s)[1..]
  {
    SplitChar(Slash, [c] + s);
    assert ([c] + s)[1..] == s;
  }

  lemma {:induction false} OneSegment(seg: string)
    requires '/' !in seg
    ensures Split(Slash, seg) == [seg]
  {
    forall i | 0 <= i < |seg| ensures Length(Slash, seg[i..]) == 0 {
      assert seg[i..][0] == seg[i];
    }
    FreeWhole(Slash, seg);
  }

  lemma CutAt(path: string, j: int)
    requires 0 <= j < |path| && path[j] == '/'
    ensures path == path[..j] + "/" + path[j + 1..]
  {}

  lemma {:induction false} LastSegment(pre: string, seg: string)
    requires '/' !in seg && (pre == "" || pre[|pre| - 1] == '/')
    ensures seg in Split(Slash, pre + seg)
  {
    OneSegment(seg);
    if pre == "" {
      assert pre + seg == seg;
    } else {
      var front := pre[..|pre| - 1];
      assert pre + seg == front + "/" + seg;
      SplitAtSlash(front, seg);
    }
  }

  lemma {:induction false} SegmentIsSplit(path: string, i: int, k: int)
    requires SegmentAt(path, i, k)
    ensures path[i..k] in Split(Slash, path)
  {
    LastSegment(path[..i], path[i..k]);
    assert path[..k] == path[..i] + path[i..k];
    if k < |path| {
      CutAt(path, k);
      SplitAtSlash(path[..k], path[k + 1..]);
    } else {
      assert path[..k] == path;
    }
  }

  lemma {:induction false} FirstSlash(path: string) returns (j: int)
    requires '/' in path
    ensures 0 <= j < |path| && path[j] == '/' && '/' !in path[..j]
    decreases |path|
  {
    if path[0] == '/' {
      j := 0;
    } else {
      assert path == [path[0]] + path[1..];
      var i := FirstSlash(path[1..]);
      j := i + 1;
      assert path[..j] == [path[0]] + path[1..][..i];
    }
  }

  lemma {:induction false} SplitIsSegment(path: string, seg: string) returns (i: int, k: int)
    requires seg in Split(Slash, path)
    ensures SegmentAt(path, i, k) && path[i..k] == seg
    decreases |path|
  {
    if '/' !in path {
      i, k := 0, |path|;
      WholeSegment(path);
    } else {
      var j := FirstSlash(path);
      FirstPiece(path, j, seg);
      if seg == path[..j] {
        i, k := 0, j;
      } else {
        i, k := SplitIsSegment(path[j + 1..], seg);
        ShiftSegment(path, j, i, k);
        i, k := i + j + 1, k + j + 1;
      }
    }
  }

  lemma {:induction false} WholeSegment(path: string)
    requires '/' !in path
    ensures Split(Slash, path) == [path] && SegmentAt(path, 0, |path|) && path[0..|path|] == path
  {
    OneSegment(path);
    assert path[0..|path|] == path;
  }

  lemma {:induction false} FirstPiece(path: string, j: int, seg: string)
    requires 0 <= j < |path| && path[j] == '/' && '/' !in path[..j] && seg in Split(Slash, path)
    ensures seg == path[..j] || seg in Split(Slash, path[j + 1..])
    ensures SegmentAt(path, 0, j) && path[0..j] == path[..j]
  {
    assert path[0..j] == path[..j];
    CutAt(path, j);
    SplitAtSlash(path[..j], path[j + 1..]);
    OneSegment(path[..j]);
  }

  lemma ShiftSegment(path: string, j: int, i: int, k: int)
    requires 0 <= j < |path| && path[j] == '/' && SegmentAt(path[j + 1..], i, k)
    ensures SegmentAt(path, i + j + 1, k + j + 1) && path[i + j + 1..k + j + 1] == path[j + 1..][i..k]
  {
    var rest := path[j + 1..];
    var here, there := rest[i..k], path[i + j + 1..k + j + 1];
    assert forall q :: 0 <= q < k - i ==> here[q] == rest[i + q] == path[i + j + 1 + q] == there[q];
    assert here == there;
    assert i > 0 ==> rest[i - 1] == path[i + j];
    assert k < |rest| ==> rest[k] == path[k + j + 1];
  }

  /** A pattern without slash and double star covers a path exactly when it matches one of the path's
      segments. */
  lemma {:induction false} PlainPatternMatchesSegment(pat: string, path: string)
    requires '/' !in pat
    requires forall i :: 0 <= i < |pat| - 1 ==> !(pat[i] == '*' && pat[i + 1] == '*')
    ensures Covers(pat, path) <==> exists seg :: seg in Split(Slash, path) && Glob(pat, seg)
  {
    if Covers(pat, path) {
      var i, k :| CoversAt(pat, path, i, k);
      PlainGlobIsOneSegment(pat, path[i..k]);
      assert SegmentAt(path, i, k);
      SegmentIsSplit(path, i, k);
    }
    if exists seg :: seg in Split(Slash, path) && Glob(pat, seg) {
      var seg :| seg in Split(Slash, path) && Glob(pat, seg);
      var i, k := SplitIsSegment(path, seg);
      assert CoversAt(pat, path, i, k);
    }
  }
}
