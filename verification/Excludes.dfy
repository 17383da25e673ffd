/** The exclude patterns: compiling a glob to a regular expression, and what the compiled pattern
    excludes (obsidian/src/excludes.ts). */
module Excludes {
  import opened Common
  import opened Regexes

  /** What the compiler escapes, and what it puts around the body. */
  const SPECIAL := ".+^${}()|[]\\"
  const TAIL := "(/.*)?$"
  const SEGMENT_START := "(^|/)"

  // ---- the compiler ------------------------------------------------------------------

  /** What is left of the pattern after a leading double star: a slash right after it is swallowed. */
  function AfterStars(pat: string): (r: string)
    requires StartsWith(pat, "**")
    ensures |r| < |pat|
  {
    if |pat| > 2 && pat[2] == '/' then pat[3..] else pat[2..]
  }

  function Body(pat: string): string
    decreases |pat|
  {
    if pat == "" then ""
    else if StartsWith(pat, "**") then ".*" + Body(AfterStars(pat))
    else if pat[0] == '*' then "[^/]*" + Body(pat[1..])
    else if pat[0] in SPECIAL then ['\\', pat[0]] + Body(pat[1..])
    else [pat[0]] + Body(pat[1..])
  }

  function Source(pat: string): string {
    (if '/' in pat then "^" else SEGMENT_START) + Body(pat) + TAIL
  }

  /** The loop over the pattern's characters. */
  method CompileBody(pattern: string) returns (body: string)
    ensures body == Body(pattern)
  {
    body := "";
    var i := 0;
    assert pattern[0..] == pattern && "" + Body(pattern) == Body(pattern);
    while i < |pattern|
      invariant 0 <= i <= |pattern|
      invariant body + Body(pattern[i..]) == Body(pattern)
    {
      var ch := pattern[i];
      BodyStep(pattern, i);
      if ch == '*' {
        if i + 1 < |pattern| && pattern[i + 1] == '*' {
          ghost var next := if i + 2 < |pattern| && pattern[i + 2] == '/' then i + 3 else i + 2;
          Regroup(body, ".*", Body(pattern[next..]));
          body := body + ".*";
          i := i + 2;
          if i < |pattern| && pattern[i] == '/' {
            i := i + 1;
          }
          continue;
        }
        Regroup(body, "[^/]*", Body(pattern[i + 1..]));
        body := body + "[^/]*";
        i := i + 1;
        continue;
      }
      if ch in SPECIAL {
        Regroup(body, ['\\', ch], Body(pattern[i + 1..]));
        body := body + ['\\', ch];
        i := i + 1;
        continue;
      }
      Regroup(body, [ch], Body(pattern[i + 1..]));
      body := body + [ch];
      i := i + 1;
    }
    assert pattern[|pattern|..] == "" && body + "" == body;
  }

  lemma Regroup(a: string, b: string, c: string)
    ensures a + (b + c) == (a + b) + c
  {}

  /** The compiler's module-level cache. */
  class PatternCache {
    var cache: map<string, string>

    /** Every cached source is what compiling its pattern afresh gives. */
    ghost predicate Valid()
      reads this
    {
      forall pat :: pat in cache ==> cache[pat] == Source(pat) && ReadRegex(Source(pat)).Some?
    }

    constructor ()
      ensures Valid() && cache == map[]
    {
      cache := map[];
    }

    /** None when the emitted source is not a regular expression. */
    method Compile(pattern: string) returns (re: Option<Regex>)
      requires Valid()
      modifies this
      ensures Valid() && re == ReadRegex(Source(pattern))
      ensures re.None? ==> cache == old(cache)
    {
      if pattern in cache {
        return ReadRegex(cache[pattern]);
      }
      var body := CompileBody(pattern);
      var anchored := (if '/' in pattern then "^" else SEGMENT_START) + body + TAIL;
      re := ReadRegex(anchored);
      if re.Some? {
        cache := cache[pattern := anchored];
      }
    }
  }

  /** One turn of the compiler's loop. */
  lemma BodyStep(pat: string, i: nat)
    requires i < |pat|
    ensures Body(pat[i..])
            == if pat[i] == '*' && i + 1 < |pat| && pat[i + 1] == '*' then
                 ".*" + Body(pat[if i + 2 < |pat| && pat[i + 2] == '/' then i + 3 else i + 2..])
               else if pat[i] == '*' then "[^/]*" + Body(pat[i + 1..])
               else if pat[i] in SPECIAL then ['\\', pat[i]] + Body(pat[i + 1..])
               else [pat[i]] + Body(pat[i + 1..])
  {
    var p := pat[i..];
    assert p[1..] == pat[i + 1..];
    if i + 1 < |pat| {
      assert p[..2] == [pat[i], pat[i + 1]];
      assert p[2..] == pat[i + 2..];
      if i + 2 < |pat| {
        assert p[3..] == pat[i + 3..];
      }
    }
  }

  // ---- what the patterns are meant to match ---------------------------------------------

  /** The glob matches all of `s`: `*` is any run without a slash, `**` any run at all (with the slash
      after it optional), and every other character stands for itself. */
  ghost predicate Glob(pat: string, s: string)
    decreases |pat|
  {
    if pat == "" then s == ""
    else if StartsWith(pat, "**") then exists k :: 0 <= k <= |s| && Glob(AfterStars(pat), s[k..])
    else if pat[0] == '*' then exists k :: 0 <= k <= |s| && '/' !in s[..k] && Glob(pat[1..], s[k..])
    else s != "" && s[0] == pat[0] && Glob(pat[1..], s[1..])
  }

  ghost predicate CoversAt(pat: string, path: string, i: int, k: int) {
    && 0 <= i <= k <= |path|
    && (i == 0 || ('/' !in pat && path[i - 1] == '/'))
    && Glob(pat, path[i..k])
    && (k == |path| || path[k] == '/')
  }

  /** The pattern covers the path: it matches a leading part of it (with a slash in the pattern) or a
      part that starts a segment (without), ending at the path's end or at a slash. */
  ghost predicate Covers(pat: string, path: string) {
    exists i, k :: CoversAt(pat, path, i, k)
  }

  // ---- reading back what was emitted ------------------------------------------------------

  /** The pattern read the way the regular expression engine reads its compiled form: a `?` makes the
      literal before it optional, is idle after a star, and is an error with nothing to repeat. */
  function Pieces(pat: string): Option<seq<Piece>>
    decreases |pat|
  {
    if pat == "" then Some([])
    else if StartsWith(pat, "**") then Prefixed(Piece(AnyRun, false), Pieces(SkipLazy(AfterStars(pat))))
    else if pat[0] == '*' then Prefixed(Piece(SegmentRun, false), Pieces(SkipLazy(pat[1..])))
    else if pat[0] == '?' then None
    else if StartsWith(pat[1..], "?") then Prefixed(Piece(Lit(pat[0]), true), Pieces(SkipLazy(pat[2..])))
    else Prefixed(Piece(Lit(pat[0]), false), Pieces(pat[1..]))
  }

  lemma {:induction false} BodyQuestion(pat: string)
    ensures StartsWith(Body(pat), "?") <==> StartsWith(pat, "?")
    ensures StartsWith(pat, "?") ==> Body(pat)[1..] == Body(pat[1..])
    ensures SkipLazy(Body(pat)) == Body(SkipLazy(pat))
    ensures Body(pat) == "" <==> pat == ""
  {
    if StartsWith(pat, "?") {
      assert pat[0] == '?';
    } else if pat != "" {
      assert pat[..1] == [pat[0]];
      assert pat[0] != '?';
      assert Body(pat)[0] != '?' by {
        assert '?' !in SPECIAL;
      }
    }
  }

  /** For every pattern, reading the emitted body gives the pattern's pieces. */
  lemma {:induction false} BodyReadsBack(pat: string)
    ensures ReadBody(Body(pat)) == Pieces(pat)
    decreases |pat|
  {
    if pat == "" {
    } else if StartsWith(pat, "**") {
      var rest := AfterStars(pat);
      var b := Body(pat);
      assert b[..2] == ".*" && b[2..] == Body(rest);
      BodyQuestion(rest);
      BodyReadsBack(SkipLazy(rest));
    } else if pat[0] == '*' {
      var b := Body(pat);
      assert b[..5] == "[^/]*" && b[5..] == Body(pat[1..]);
      FirstChar(b, ".*");
      assert b[0] == '[';
      BodyQuestion(pat[1..]);
      BodyReadsBack(SkipLazy(pat[1..]));
    } else {
      LiteralReadsBack(pat);
      if pat[0] != '?' {
        if StartsWith(pat[1..], "?") {
          assert pat[1..][1..] == pat[2..];
          BodyReadsBack(SkipLazy(pat[2..]));
        } else {
          BodyReadsBack(pat[1..]);
        }
      }
    }
  }

  lemma FirstChar(s: string, prefix: string)
    requires prefix != ""
    ensures StartsWith(s, prefix) ==> s != "" && s[0] == prefix[0]
  {
    if StartsWith(s, prefix) {
      assert s[..|prefix|][0] == s[0];
    }
  }

  lemma Stars(s: string)
    ensures StartsWith(s, "**") <==> |s| > 1 && s[0] == '*' && s[1] == '*'
  {
    if |s| > 1 {
      assert s[..2] == [s[0], s[1]];
    }
  }

  /** The escaped characters and the three the compiler treats on its own are all the syntax there is. */
  lemma SyntaxIsSpecial(c: char)
    ensures c in SYNTAX <==> c in SPECIAL || c == '*' || c == '?'
  {}

  lemma {:induction false} EscapedReads(c: char, rest: string)
    requires c in SYNTAX
    ensures ReadBody(['\\', c] + rest)
            == if StartsWith(rest, "?") then Prefixed(Piece(Lit(c), true), ReadBody(SkipLazy(rest[1..])))
               else Prefixed(Piece(Lit(c), false), ReadBody(rest))
  {
    var s := ['\\', c] + rest;
    FirstChar(s, ".*");
    FirstChar(s, "[^/]*");
    assert s[2..] == rest;
    if StartsWith(rest, "?") {
      assert s[3..] == rest[1..];
    }
  }

  lemma {:induction false} PlainReads(c: char, rest: string)
    requires c == '?' || c !in SYNTAX
    ensures ReadBody([c] + rest)
            == if c == '?' then None
               else if StartsWith(rest, "?") then Prefixed(Piece(Lit(c), true), ReadBody(SkipLazy(rest[1..])))
               else Prefixed(Piece(Lit(c), false), ReadBody(rest))
  {
    var s := [c] + rest;
    assert '.' in SYNTAX && '[' in SYNTAX && '\\' in SYNTAX && '?' in SYNTAX;
    FirstChar(s, ".*");
    FirstChar(s, "[^/]*");
    assert s[1..] == rest;
    if StartsWith(rest, "?") {
      assert s[2..] == rest[1..];
    }
  }

  /** Reading one literal of an emitted body. */
  lemma {:induction false} LiteralReadsBack(pat: string)
    requires pat != "" && pat[0] != '*'
    ensures ReadBody(Body(pat))
            == if pat[0] == '?' then None
               else if StartsWith(pat[1..], "?") then Prefixed(Piece(Lit(pat[0]), true),
                   ReadBody(Body(SkipLazy(pat[2..]))))
               else Prefixed(Piece(Lit(pat[0]), false), ReadBody(Body(pat[1..])))
  {
    FirstChar(pat, "**");
    LiteralReads(pat[0], Body(pat[1..]));
    BodyQuestion(pat[1..]);
    if StartsWith(pat[1..], "?") {
      assert pat[1..][1..] == pat[2..];
      BodyQuestion(pat[2..]);
    }
  }

  /** A literal and what follows it, escaped or not. */
  lemma {:induction false} LiteralReads(c: char, rest: string)
    requires c != '*'
    ensures ReadBody((if c in SPECIAL then ['\\', c] else [c]) + rest)
            == if c == '?' then None
               else if StartsWith(rest, "?") then Prefixed(Piece(Lit(c), true), ReadBody(SkipLazy(rest[1..])))
               else Prefixed(Piece(Lit(c), false), ReadBody(rest))
  {
    SyntaxIsSpecial(c);
    if c in SPECIAL {
      assert '?' !in SPECIAL;
      EscapedReads(c, rest);
    } else {
      PlainReads(c, rest);
    }
  }

  /** The compiled regular expression, for every pattern. */
  function Compiled(pat: string): Option<Regex> {
    if '/' in pat then
      (match Pieces(pat)
       case Some(body) => Some(Regex(false, false, body))
       case None => None)
    else
      var loose := StartsWith(pat, "?");
      match Pieces(if loose then SkipLazy(pat[1..]) else pat)
      case Some(body) => Some(Regex(true, loose, body))
      case None => None
  }

  lemma SourceReadsBack(pat: string)
    ensures ReadRegex(Source(pat)) == Compiled(pat)
  {
    var src, b := Source(pat), Body(pat);
    assert src[|src| - |TAIL|..] == TAIL;
    var front := src[..|src| - |TAIL|];
    if '/' in pat {
      assert front == "^" + b;
      assert front[..1] == "^" && front[1..] == b;
      BodyReadsBack(pat);
    } else {
      assert front == SEGMENT_START + b;
      assert front[..5] == SEGMENT_START && front[5..] == b;
      FirstChar(front, "^");
      assert front[0] == '(';
      BodyQuestion(pat);
      if StartsWith(pat, "?") {
        BodyQuestion(pat[1..]);
        BodyReadsBack(SkipLazy(pat[1..]));
      } else {
        BodyReadsBack(pat);
      }
    }
  }
}
