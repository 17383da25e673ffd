/** Exclude lists and folder filters (obsidian/src/excludes.ts). */
module ExcludeLists {
  import opened Common
  import opened Regexes
  import opened Excludes
  import opened GlobMeaning
  import opened Splitting

  // ---- trimming ------------------------------------------------------------------

  /** JavaScript white space and line terminators. */
  predicate IsSpace(c: char) {
    || '\t' <= c <= '\r' || c == ' ' || c == '\U{a0}' || c == '\U{1680}' || '\U{2000}' <= c <= '\U{200a}'
    || c == '\U{2028}' || c == '\U{2029}' || c == '\U{202f}' || c == '\U{205f}' || c == '\U{3000}' || c == '\U{feff}'
  }

  /** The white space and line terminators of sections 12.2 and 12.3 of the ECMAScript Language Specification, by code
      points. */
  lemma Spaces(c: char)
    ensures IsSpace(c) <==>
            || c as int in {0x9, 0xA, 0xB, 0xC, 0xD, 0x20, 0xA0, 0x1680, 0x2028, 0x2029, 0x202F, 0x205F, 0x3000, 0xFEFF}
            || 0x2000 <= c as int <= 0x200A
  {}

  function TrimStart(s: string): string {
    if s != "" && IsSpace(s[0]) then TrimStart(s[1..]) else s
  }

  function TrimEnd(s: string): string {
    if s != "" && IsSpace(s[|s| - 1]) then TrimEnd(s[..|s| - 1]) else s
  }

  function Trim(s: string): string { TrimEnd(TrimStart(s)) }

  lemma {:induction false} TrimEndBounds(s: string)
    ensures TrimEnd(s) <= s && (TrimEnd(s) != "" ==> !IsSpace(TrimEnd(s)[|TrimEnd(s)| - 1]))
  {
    if s != "" && IsSpace(s[|s| - 1]) {
      TrimEndBounds(s[..|s| - 1]);
    }
  }

  lemma {:induction false} TrimStartBounds(s: string)
    ensures TrimStart(s) != "" ==> !IsSpace(TrimStart(s)[0])
  {
    if s != "" && IsSpace(s[0]) {
      TrimStartBounds(s[1..]);
    }
  }

  predicate AllSpace(s: string) {
    forall i :: 0 <= i < |s| ==> IsSpace(s[i])
  }

  lemma {:induction false} TrimStartCuts(s: string)
    ensures |TrimStart(s)| <= |s| && TrimStart(s) == s[|s| - |TrimStart(s)|..]
    ensures AllSpace(s[..|s| - |TrimStart(s)|])
  {
    if s != "" && IsSpace(s[0]) {
      TrimStartCuts(s[1..]);
      var t := TrimStart(s);
      assert s[|s| - |t|..] == s[1..][|s[1..]| - |t|..];
      assert s[..|s| - |t|] == [s[0]] + s[1..][..|s[1..]| - |t|];
    }
  }

  lemma {:induction false} TrimEndCuts(s: string)
    ensures TrimEnd(s) <= s && AllSpace(s[|TrimEnd(s)|..])
  {
    if s != "" && IsSpace(s[|s| - 1]) {
      var init := s[..|s| - 1];
      TrimEndCuts(init);
      assert s[|TrimEnd(s)|..] == init[|TrimEnd(s)|..] + [s[|s| - 1]];
    }
  }

  lemma TrimmedEnds(s: string)
    ensures Trim(s) != "" ==> !IsSpace(Trim(s)[0]) && !IsSpace(Trim(s)[|Trim(s)| - 1])
  {
    var t := TrimStart(s);
    TrimStartBounds(s);
    TrimEndBounds(t);
    if TrimEnd(t) != "" {
      assert TrimEnd(t)[0] == t[0];
    }
  }

  lemma ThreeParts(s: string, t: string, u: string)
    requires |t| <= |s| && t == s[|s| - |t|..] && u <= t
    ensures s == s[..|s| - |t|] + u + t[|u|..]
  {}

  /** Trimming cuts white space off both ends and leaves none there. */
  lemma TrimCuts(s: string) returns (front: string, back: string)
    ensures s == front + Trim(s) + back && AllSpace(front) && AllSpace(back)
    ensures Trim(s) != "" ==> !IsSpace(Trim(s)[0]) && !IsSpace(Trim(s)[|Trim(s)| - 1])
  {
    var t := TrimStart(s);
    TrimStartCuts(s);
    TrimEndCuts(t);
    front, back := s[..|s| - |t|], t[|TrimEnd(t)|..];
    ThreeParts(s, t, TrimEnd(t));
    TrimmedEnds(s);
  }

  lemma TrimTwice(s: string)
    ensures Trim(Trim(s)) == Trim(s)
  {
    var t := TrimStart(s);
    TrimStartBounds(s);
    TrimEndBounds(t);
    if TrimEnd(t) != "" {
      assert TrimEnd(t)[0] == t[0];
    }
  }

  // ---- exclude patterns -------------------------------------------------------------

  /** The pattern a line stands for: blank lines and comments stand for none. */
  function Active(raw: string): Option<string> {
    var trimmed := Trim(raw);
    if trimmed == "" || trimmed[0] == '#' then None else Some(trimmed)
  }

  /** A line is idle exactly when it is white space or its first other character is a number sign; the pattern of any
      other line is what stands between the white space at its ends. */
  lemma ActiveMeans(raw: string) returns (front: string, back: string)
    ensures AllSpace(front) && AllSpace(back)
    ensures match Active(raw)
            case None => AllSpace(raw) || exists i :: 0 <= i < |raw| && AllSpace(raw[..i]) && raw[i] == '#'
            case Some(p) => raw == front + p + back && p != "" && p[0] != '#' && !IsSpace(p[0]) && !IsSpace(p[|p| - 1])
  {
    front, back := TrimCuts(raw);
    var t := Trim(raw);
    if t == "" {
      assert raw == front + back;
    } else if t[0] == '#' {
      assert raw[..|front|] == front && raw[|front|] == '#';
    }
  }

  /** The result of `isExcluded`; None when a pattern does not compile. */
  function ExcludedBy(path: string, patterns: seq<string>): Option<bool> {
    if patterns == [] then Some(false)
    else
      match Active(patterns[0])
      case None => ExcludedBy(path, patterns[1..])
      case Some(p) =>
        match Compiled(p)
        case None => None
        case Some(re) => if Test(re, path) then Some(true) else ExcludedBy(path, patterns[1..])
  }

  /** One turn of the loop, in terms of the emitted source. */
  lemma {:induction false} ExcludedStep(path: string, patterns: seq<string>, i: nat)
    requires i < |patterns|
    ensures ExcludedBy(path, patterns[i..])
            == if Active(patterns[i]).None? then ExcludedBy(path, patterns[i + 1..])
               else
                 match ReadRegex(Source(Active(patterns[i]).value))
                 case None => None
                 case Some(re) => if Test(re, path) then Some(true) else ExcludedBy(path, patterns[i + 1..])
  {
    assert patterns[i..][0] == patterns[i] && patterns[i..][1..] == patterns[i + 1..];
    if Active(patterns[i]).Some? {
      SourceReadsBack(Active(patterns[i]).value);
    }
  }

  method IsExcluded(cache: PatternCache, path: string, patterns: seq<string>) returns (r: Option<bool>)
    requires cache.Valid()
    modifies cache
    ensures cache.Valid() && r == ExcludedBy(path, patterns)
  {
    if |patterns| == 0 {
      return Some(false);
    }
    var i := 0;
    while i < |patterns|
      invariant 0 <= i <= |patterns| && cache.Valid()
      invariant ExcludedBy(path, patterns) == ExcludedBy(path, patterns[i..])
    {
      ExcludedStep(path, patterns, i);
      var trimmed := Trim(patterns[i]);
      if trimmed == "" || trimmed[0] == '#' {
        i := i + 1;
        continue;
      }
      var re := cache.Compile(trimmed);
      if re.None? {
        return None;
      }
      if Test(re.value, path) {
        return Some(true);
      }
      i := i + 1;
    }
    return Some(false);
  }

  /** Without question marks a list excludes exactly the paths that one of its patterns covers. */
  lemma {:induction false} ExcludedMeansCovered(path: string, patterns: seq<string>)
    requires OneLine(path)
    requires forall raw :: raw in patterns && Active(raw).Some? ==> '?' !in Active(raw).value
    ensures ExcludedBy(path, patterns)
            == Some(exists raw :: raw in patterns && Active(raw).Some? && Covers(Active(raw).value, path))
  {
    if patterns != [] {
      assert patterns[0] in patterns && patterns == [patterns[0]] + patterns[1..];
      ExcludedMeansCovered(path, patterns[1..]);
      if Active(patterns[0]).Some? {
        CompiledMeansCovers(Active(patterns[0]).value, path);
      }
    }
  }

  /** Whatever is below an excluded path is excluded. */
  lemma {:induction false} ExclusionIsInherited(path: string, below: string, patterns: seq<string>)
    requires OneLine(path) && OneLine(below)
    requires forall raw :: raw in patterns && Active(raw).Some? ==> '?' !in Active(raw).value
    requires ExcludedBy(path, patterns) == Some(true)
    ensures ExcludedBy(path + "/" + below, patterns) == Some(true)
  {
    ExcludedMeansCovered(path, patterns);
    var raw :| raw in patterns && Active(raw).Some? && Covers(Active(raw).value, path);
    CoversDescendants(Active(raw).value, path, below);
    ExcludedMeansCovered(path + "/" + below, patterns);
  }

  // ---- the settings text ----------------------------------------------------------------

  function Actives(lines: seq<string>): seq<string> {
    if lines == [] then []
    else (match Active(lines[0]) case Some(p) => [p] case None => []) + Actives(lines[1..])
  }

  function ParseExcludePatterns(raw: string): seq<string> {
    Actives(Split(LineBreak, raw))
  }

  lemma ActiveTwice(raw: string)
    requires Active(raw).Some?
    ensures Active(Active(raw).value) == Active(raw)
  {
    TrimTwice(raw);
  }

  lemma {:induction false} ActivesKeepMeaning(path: string, lines: seq<string>)
    ensures ExcludedBy(path, Actives(lines)) == ExcludedBy(path, lines)
  {
    if lines != [] {
      ActivesKeepMeaning(path, lines[1..]);
      if Active(lines[0]).Some? {
        ActiveTwice(lines[0]);
        var p := Active(lines[0]).value;
        assert ([p] + Actives(lines[1..]))[1..] == Actives(lines[1..]);
      } else {
        assert Actives(lines) == Actives(lines[1..]);
      }
    }
  }

  /** The parsed settings text excludes what its lines, taken as patterns, exclude. */
  lemma {:induction false} ParsingKeepsMeaning(path: string, raw: string)
    ensures ExcludedBy(path, ParseExcludePatterns(raw)) == ExcludedBy(path, Split(LineBreak, raw))
  {
    ActivesKeepMeaning(path, Split(LineBreak, raw));
  }

  // ---- folders -----------------------------------------------------------------------------

  function StripStart(s: string): string {
    if s != "" && s[0] == '/' then StripStart(s[1..]) else s
  }

  function StripEnd(s: string): string {
    if s != "" && s[|s| - 1] == '/' then StripEnd(s[..|s| - 1]) else s
  }

  function NormalizeFolder(folder: string): string { StripEnd(StripStart(folder)) }

  predicate AllSlashes(s: string) {
    forall i :: 0 <= i < |s| ==> s[i] == '/'
  }

  lemma {:induction false} StripStartCuts(s: string)
    ensures |StripStart(s)| <= |s| && StripStart(s) == s[|s| - |StripStart(s)|..]
    ensures AllSlashes(s[..|s| - |StripStart(s)|])
    ensures StripStart(s) != "" ==> StripStart(s)[0] != '/'
  {
    if s != "" && s[0] == '/' {
      StripStartCuts(s[1..]);
      var t := StripStart(s);
      assert s[|s| - |t|..] == s[1..][|s[1..]| - |t|..];
      assert s[..|s| - |t|] == [s[0]] + s[1..][..|s[1..]| - |t|];
    }
  }

  lemma {:induction false} StripEndCuts(s: string)
    ensures StripEnd(s) <= s && AllSlashes(s[|StripEnd(s)|..])
    ensures StripEnd(s) != "" ==> StripEnd(s)[|StripEnd(s)| - 1] != '/'
  {
    if s != "" && s[|s| - 1] == '/' {
      var init := s[..|s| - 1];
      StripEndCuts(init);
      assert s[|StripEnd(s)|..] == init[|StripEnd(s)|..] + ['/'];
    }
  }

  /** Normalizing a folder cuts the slashes off both ends and leaves none there. */
  lemma NormalizeCuts(folder: string) returns (front: string, back: string)
    ensures folder == front + NormalizeFolder(folder) + back && AllSlashes(front) && AllSlashes(back)
    ensures var f := NormalizeFolder(folder); f != "" ==> f[0] != '/' && f[|f| - 1] != '/'
  {
    var t := StripStart(folder);
    StripStartCuts(folder);
    StripEndCuts(t);
    front, back := folder[..|folder| - |t|], t[|StripEnd(t)|..];
    ThreeParts(folder, t, StripEnd(t));
    assert StripEnd(t) != "" ==> StripEnd(t)[0] == t[0];
  }

  predicate IsInFolder(path: string, folder: string) {
    var f := NormalizeFolder(folder);
    f == "" || path == f || StartsWith(path, f + "/")
  }

  function Join(parts: seq<string>): string {
    if parts == [] then "" else if |parts| == 1 then parts[0] else parts[0] + "/" + Join(parts[1..])
  }

  lemma {:induction false} JoinPrefix(a: seq<string>, b: seq<string>)
    requires |a| > 0 && |b| > 0
    ensures Join(a + b) == Join(a) + "/" + Join(b)
  {
    if |a| == 1 {
      assert (a + b)[1..] == b;
    } else {
      JoinPrefix(a[1..], b);
      assert (a + b)[1..] == a[1..] + b;
      assert a[0] + "/" + (Join(a[1..]) + "/" + Join(b)) == (a[0] + "/" + Join(a[1..])) + "/" + Join(b);
    }
  }

  lemma {:induction false} JoinSplit(path: string)
    ensures Join(Split(Slash, path)) == path
    decreases |path|
  {
    if '/' in path {
      var j := FirstSlash(path);
      CutAt(path, j);
      SplitAtSlash(path[..j], path[j + 1..]);
      OneSegment(path[..j]);
      JoinSplit(path[j + 1..]);
      JoinPrefix([path[..j]], Split(Slash, path[j + 1..]));
    } else {
      OneSegment(path);
    }
  }

  /** A path is in a folder exactly when the folder is the vault root or its segments start the
      path's. */
  lemma {:induction false} InFolderMeansSegments(path: string, folder: string)
    ensures IsInFolder(path, folder)
            <==> NormalizeFolder(folder) == "" || Split(Slash, NormalizeFolder(folder)) <= Split(Slash, path)
  {
    var f := NormalizeFolder(folder);
    if StartsWith(path, f + "/") {
      var rest := path[|f| + 1..];
      assert path == f + "/" + rest;
      SplitAtSlash(f, rest);
    }
    if Split(Slash, f) <= Split(Slash, path) {
      var rest := Split(Slash, path)[|Split(Slash, f)|..];
      assert Split(Slash, path) == Split(Slash, f) + rest;
      JoinSplit(f);
      JoinSplit(path);
      if rest == [] {
        assert Split(Slash, path) == Split(Slash, f);
      } else {
        JoinPrefix(Split(Slash, f), rest);
        assert path == (f + "/") + Join(rest);
      }
    }
  }

  /** Exclude folders win over include folders; no include folders means everything is included. */
  method IsFolderFiltered(path: string, includeFolders: seq<string>, excludeFolders: seq<string>) returns (r: bool)
    ensures r <==> || (exists f :: f in excludeFolders && IsInFolder(path, f))
                   || (includeFolders != [] && forall f :: f in includeFolders ==> !IsInFolder(path, f))
  {
    for i := 0 to |excludeFolders|
      invariant forall f :: f in excludeFolders[..i] ==> !IsInFolder(path, f)
    {
      if IsInFolder(path, excludeFolders[i]) {
        return true;
      }
    }
    assert excludeFolders[..|excludeFolders|] == excludeFolders;
    if |includeFolders| == 0 {
      return false;
    }
    for i := 0 to |includeFolders|
      invariant forall f :: f in includeFolders[..i] ==> !IsInFolder(path, f)
    {
      if IsInFolder(path, includeFolders[i]) {
        return false;
      }
    }
    assert includeFolders[..|includeFolders|] == includeFolders;
    return true;
  }
}
