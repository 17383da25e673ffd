/** The regular expressions the exclude compiler emits: how their source text reads, and what they
    match. Only the constructs it is meant to emit are read; any other use of a syntax character, like
    an open parenthesis or a `?` with nothing to repeat, is an error. */
module Regexes {
  import opened Common

  datatype Atom = AnyRun | SegmentRun | Lit(c: char)

  /** An atom; a literal followed by `?` is optional. */
  datatype Piece = Piece(atom: Atom, optional: bool)

  /** `segment`: the body starts at the path's start or after a slash, instead of at the start only;
      `loose`: the start group is optional, so the body starts anywhere. */
  datatype Regex = Regex(segment: bool, loose: bool, body: seq<Piece>)

  /** The syntax characters of the language (ECMAScript Language Specification, section 22.2.1). */
  const SYNTAX := "^$\\.*+?()[]{}|"

  /** The group at the end, and the one at the start of an expression that is not anchored. */
  const REST := "(/.*)?$"
  const BOUNDARY := "(^|/)"

  // ---- reading ---------------------------------------------------------------------

  /** Drops one `?`, which after a quantifier only asks for a short match. */
  function SkipLazy(s: string): (r: string)
    ensures |r| <= |s|
  {
    if StartsWith(s, "?") then s[1..] else s
  }

  function ReadBody(s: string): Option<seq<Piece>>
    decreases |s|
  {
    if s == "" then Some([])
    else if StartsWith(s, ".*") then Prefixed(Piece(AnyRun, false), ReadBody(SkipLazy(s[2..])))
    else if StartsWith(s, "[^/]*") then Prefixed(Piece(SegmentRun, false), ReadBody(SkipLazy(s[5..])))
    else if s[0] == '\\' && |s| > 1 && s[1] in SYNTAX then
      if StartsWith(s[2..], "?") then Prefixed(Piece(Lit(s[1]), true), ReadBody(SkipLazy(s[3..])))
      else Prefixed(Piece(Lit(s[1]), false), ReadBody(s[2..]))
    else if s[0] in SYNTAX then None
    else if StartsWith(s[1..], "?") then Prefixed(Piece(Lit(s[0]), true), ReadBody(SkipLazy(s[2..])))
    else Prefixed(Piece(Lit(s[0]), false), ReadBody(s[1..]))
  }

  function Prefixed(x: Piece, rest: Option<seq<Piece>>): Option<seq<Piece>> {
    match rest
    case Some(ps) => Some([x] + ps)
    case None => None
  }

  /** `new RegExp(source)`; None when it throws. */
  function ReadRegex(source: string): Option<Regex> {
    if |source| < |REST| || source[|source| - |REST|..] != REST then None
    else
      var front := source[..|source| - |REST|];
      if StartsWith(front, "^") then
        (match ReadBody(front[1..])
         case Some(body) => Some(Regex(false, false, body))
         case None => None)
      else if StartsWith(front, BOUNDARY) then
        var rest := front[5..];
        var loose := StartsWith(rest, "?");
        match ReadBody(if loose then SkipLazy(rest[1..]) else rest)
        case Some(body) => Some(Regex(true, loose, body))
        case None => None
      else None
  }

  // ---- matching ----------------------------------------------------------------------

  predicate LineTerminator(c: char) {
    c == '\n' || c == '\r' || c == '\U{2028}' || c == '\U{2029}'
  }

  /** Section 12.3 of the ECMAScript Language Specification, by code points. */
  lemma LineTerminators(c: char)
    ensures LineTerminator(c) <==> c as int in {0xA, 0xD, 0x2028, 0x2029}
  {}

  predicate OneLine(s: string) {
    forall i :: 0 <= i < |s| ==> !LineTerminator(s[i])
  }

  /** The pieces match all of `s`. */
  predicate MatchesAll(ps: seq<Piece>, s: string)
    decreases |ps|
  {
    if ps == [] then s == ""
    else
      match ps[0].atom
      case AnyRun => exists k :: 0 <= k <= |s| && OneLine(s[..k]) && MatchesAll(ps[1..], s[k..])
      case SegmentRun => exists k :: 0 <= k <= |s| && '/' !in s[..k] && MatchesAll(ps[1..], s[k..])
      case Lit(c) => (|s| > 0 && s[0] == c && MatchesAll(ps[1..], s[1..])) || (ps[0].optional && MatchesAll(ps[1..], s))
  }

  predicate MatchesTail(s: string) {
    s == "" || (s[0] == '/' && OneLine(s[1..]))
  }

  /** `re.test(path)`. */
  predicate Test(re: Regex, path: string) {
    exists i, k :: 0 <= i <= k <= |path|
                   && (i == 0 || (re.segment && (re.loose || path[i - 1] == '/')))
                   && MatchesAll(re.body, path[i..k]) && MatchesTail(path[k..])
  }
}
