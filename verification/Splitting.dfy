/** Splitting text at line breaks, at blank lines and at slashes, as JavaScript's `split` does with
    the expressions `\r?\n`, `\r?\n\r?\n` and with "/". */
module Splitting {

  datatype Separator = LineBreak | BlankLine | Slash

  /** The length of the line break that starts the text, or 0. */
  function BreakLength(s: string): (n: nat)
    ensures n <= |s|
  {
    if |s| > 0 && s[0] == '\n' then 1
    else if |s| > 1 && s[0] == '\r' && s[1] == '\n' then 2
    else 0
  }

  /** The length of the separator that starts the text, or 0. */
  function Length(k: Separator, s: string): (n: nat)
    ensures n <= |s|
  {
    match k
    case LineBreak => BreakLength(s)
    case BlankLine =>
      var a := BreakLength(s);
      var b := BreakLength(s[a..]);
      if a > 0 && b > 0 then a + b else 0
    case Slash => if |s| > 0 && s[0] == '/' then 1 else 0
  }

  /** Separators are cut at the leftmost position where one starts. */
  function Split(k: Separator, s: string): (r: seq<string>)
    ensures |r| > 0
    decreases |s|
  {
    if s == "" then [""]
    else if Length(k, s) > 0 then [""] + Split(k, s[Length(k, s)..])
    else
      var rest := Split(k, s[1..]);
      [[s[0]] + rest[0]] + rest[1..]
  }

  // ---- what a split is ---------------------------------------------------------------

  ghost predicate IsSeparator(k: Separator, sep: string) {
    match k
    case LineBreak => sep == "\n" || sep == "\r\n"
    case BlankLine => sep == "\n\n" || sep == "\r\n\n" || sep == "\n\r\n" || sep == "\r\n\r\n"
    case Slash => sep == "/"
  }

  ghost predicate Free(k: Separator, s: string) {
    forall i :: 0 <= i < |s| ==> Length(k, s[i..]) == 0
  }

  /** `s` is the pieces, joined by separators. */
  ghost predicate Joins(k: Separator, pieces: seq<string>, s: string)
    decreases |pieces|
  {
    if |pieces| == 0 then false
    else if |pieces| == 1 then s == pieces[0]
    else exists sep, rest :: IsSeparator(k, sep) && s == pieces[0] + sep + rest && Joins(k, pieces[1..], rest)
  }

  lemma SeparatorAt(k: Separator, s: string)
    requires Length(k, s) > 0
    ensures IsSeparator(k, s[..Length(k, s)])
  {
    if k.BlankLine? {
      var a := BreakLength(s);
      var b := BreakLength(s[a..]);
      assert s[..a] + s[a..][..b] == s[..a + b];
    }
  }

  /** A separator inside a prefix is one of the whole text, of the same length. */
  lemma PrefixLength(k: Separator, a: string, b: string)
    requires Length(k, a) > 0
    ensures Length(k, a + b) == Length(k, a)
  {
    BreakPrefix(a, b);
    if k.BlankLine? {
      var n := BreakLength(a);
      assert (a + b)[n..] == a[n..] + b;
      BreakPrefix(a[n..], b);
    }
  }

  lemma BreakPrefix(a: string, b: string)
    ensures BreakLength(a) > 0 ==> BreakLength(a + b) == BreakLength(a)
  {
    var s := a + b;
    assert forall i :: 0 <= i < |a| ==> s[i] == a[i];
  }

  lemma {:induction false} FreeWhole(k: Separator, s: string)
    requires Free(k, s)
    ensures Split(k, s) == [s]
    decreases |s|
  {
    if s != "" {
      assert s[0..] == s;
      forall i | 0 <= i < |s[1..]| ensures Length(k, s[1..][i..]) == 0 {
        assert s[1..][i..] == s[i + 1..];
      }
      FreeWhole(k, s[1..]);
      assert [s[0]] + s[1..] == s;
    }
  }

  /** Splitting cuts the text at separators. */
  lemma {:induction false} SplitJoins(k: Separator, s: string)
    ensures Joins(k, Split(k, s), s)
    decreases |s|
  {
    if s == "" {
    } else if Length(k, s) > 0 {
      var n := Length(k, s);
      SeparatorAt(k, s);
      SplitJoins(k, s[n..]);
      assert s == "" + s[..n] + s[n..];
      JoinsCons(k, "", s[..n], Split(k, s[n..]), s[n..], s);
    } else {
      SplitJoins(k, s[1..]);
      assert s == [s[0]] + s[1..];
      JoinsLonger(k, s[0], Split(k, s[1..]), s[1..]);
    }
  }

  lemma {:induction false} JoinsCons(k: Separator, x: string, sep: string, pieces: seq<string>, rest: string, s: string)
    requires IsSeparator(k, sep) && Joins(k, pieces, rest) && s == x + sep + rest
    ensures Joins(k, [x] + pieces, s)
  {
    assert ([x] + pieces)[1..] == pieces;
  }

  lemma {:induction false} JoinsLonger(k: Separator, c: char, pieces: seq<string>, s: string)
    requires |pieces| > 0 && Joins(k, pieces, s)
    ensures Joins(k, [[c] + pieces[0]] + pieces[1..], [c] + s)
  {
    if |pieces| > 1 {
      var sep, rest :| IsSeparator(k, sep) && s == pieces[0] + sep + rest && Joins(k, pieces[1..], rest);
      LongerText(c, pieces[0], sep, rest);
      JoinsCons(k, [c] + pieces[0], sep, pieces[1..], rest, [c] + s);
    }
  }

  lemma LongerText(c: char, x: string, sep: string, rest: string)
    ensures [c] + (x + sep + rest) == ([c] + x) + sep + rest
  {}

  /** The first piece is a front part of the text. */
  lemma {:induction false} FirstPieceIsPrefix(k: Separator, s: string)
    ensures Split(k, s)[0] <= s
    decreases |s|
  {
    if s != "" && Length(k, s) == 0 {
      FirstPieceIsPrefix(k, s[1..]);
      assert s == [s[0]] + s[1..];
    }
  }

  /** No piece contains a separator, so nothing is left uncut. */
  lemma {:induction false} PiecesAreFree(k: Separator, s: string)
    ensures forall q :: q in Split(k, s) ==> Free(k, q)
    decreases |s|
  {
    if s == "" {
      assert Length(k, "") == 0;
    } else if Length(k, s) > 0 {
      PiecesAreFree(k, s[Length(k, s)..]);
    } else {
      var rest := Split(k, s[1..]);
      PiecesAreFree(k, s[1..]);
      assert rest[0] in rest;
      FirstPieceIsPrefix(k, s[1..]);
      FreeFirst(k, s, rest[0]);
    }
  }

  lemma FreeFirst(k: Separator, s: string, piece: string)
    requires s != "" && Length(k, s) == 0 && piece <= s[1..] && Free(k, piece)
    ensures Free(k, [s[0]] + piece)
  {
    var q := [s[0]] + piece;
    var more := s[1..][|piece|..];
    assert s == q + more;
    forall i | 0 <= i < |q| ensures Length(k, q[i..]) == 0 {
      if i == 0 {
        assert q[0..] == q;
        if Length(k, q) > 0 {
          PrefixLength(k, q, more);
        }
      } else {
        assert q[i..] == piece[i - 1..];
      }
    }
  }

  // ---- splitting text that keeps growing ------------------------------------------------

  /** If appending text makes a separator start here, there was none at all before. */
  lemma NewSeparator(k: Separator, a: string, b: string)
    requires a != "" && Length(k, a) == 0 && Length(k, a + b) > 0
    ensures Free(k, a)
  {
    var s := a + b;
    assert forall i :: 0 <= i < |a| ==> s[i] == a[i];
    forall i | 0 <= i < |a| ensures Length(k, a[i..]) == 0 {
      if i > 0 {
        NoSeparatorInside(k, a, b, i);
      } else {
        assert a[0..] == a;
      }
    }
  }

  lemma {:induction false} SplitChar(k: Separator, s: string)
    requires s != "" && Length(k, s) == 0
    ensures var rest := Split(k, s[1..]); Split(k, s) == [[s[0]] + rest[0]] + rest[1..]
  {}

  lemma {:induction false} SplitSeparator(k: Separator, s: string)
    requires Length(k, s) > 0
    ensures Split(k, s) == [""] + Split(k, s[Length(k, s)..])
  {}

  lemma GrowCons<T>(x: T, qs: seq<T>, grown: seq<T>, tail: seq<T>)
    requires |qs| > 0 && grown == qs[..|qs| - 1] + tail
    ensures ([x] + qs)[|[x] + qs| - 1] == qs[|qs| - 1]
    ensures [x] + grown == ([x] + qs)[..|[x] + qs| - 1] + tail
  {
    assert ([x] + qs)[..|[x] + qs| - 1] == [x] + qs[..|qs| - 1];
  }

  lemma GrowFirst(c: char, qs: seq<string>, grown: seq<string>, tail: seq<string>)
    requires |qs| > 1 && |grown| > 0 && grown == qs[..|qs| - 1] + tail
    ensures var ps := [[c] + qs[0]] + qs[1..];
            ps[|ps| - 1] == qs[|qs| - 1] && [[c] + grown[0]] + grown[1..] == ps[..|ps| - 1] + tail
  {
    var ps := [[c] + qs[0]] + qs[1..];
    assert grown[0] == qs[0];
    assert grown[1..] == qs[1..|qs| - 1] + tail;
    assert ps[..|ps| - 1] == [[c] + qs[0]] + qs[1..|qs| - 1];
  }

  /** The pieces of a text stay when more text arrives, except the last one, which goes on. */
  lemma {:induction false} SplitGrows(k: Separator, a: string, b: string)
    ensures Split(k, a + b) == Split(k, a)[..|Split(k, a)| - 1] + Split(k, Split(k, a)[|Split(k, a)| - 1] + b)
    decreases |a|
  {
    if |Split(k, a)| == 1 {
      SplitJoins(k, a);
    } else if Length(k, a) > 0 {
      SplitGrowsBySeparator(k, a, b);
    } else {
      SplitGrowsByChar(k, a, b);
    }
  }

  lemma {:induction false} SeparatorStep(k: Separator, a: string, b: string)
    requires Length(k, a) > 0
    ensures Split(k, a) == [""] + Split(k, a[Length(k, a)..])
    ensures Split(k, a + b) == [""] + Split(k, a[Length(k, a)..] + b)
  {
    PrefixLength(k, a, b);
    assert (a + b)[Length(k, a)..] == a[Length(k, a)..] + b;
    SplitSeparator(k, a);
    SplitSeparator(k, a + b);
  }

  lemma {:induction false} SplitGrowsBySeparator(k: Separator, a: string, b: string)
    requires Length(k, a) > 0
    ensures Split(k, a + b) == Split(k, a)[..|Split(k, a)| - 1] + Split(k, Split(k, a)[|Split(k, a)| - 1] + b)
    decreases |a|, 0
  {
    var rest := a[Length(k, a)..];
    SeparatorStep(k, a, b);
    SplitGrows(k, rest, b);
    var qs := Split(k, rest);
    GrowCons("", qs, Split(k, rest + b), Split(k, qs[|qs| - 1] + b));
  }

  lemma {:induction false} SplitGrowsByChar(k: Separator, a: string, b: string)
    requires |Split(k, a)| > 1 && Length(k, a) == 0
    ensures Split(k, a + b) == Split(k, a)[..|Split(k, a)| - 1] + Split(k, Split(k, a)[|Split(k, a)| - 1] + b)
    decreases |a|, 0
  {
    if Length(k, a + b) > 0 {
      NewSeparator(k, a, b);
      FreeWhole(k, a);
    }
    assert (a + b)[1..] == a[1..] + b && (a + b)[0] == a[0];
    SplitChar(k, a);
    SplitChar(k, a + b);
    SplitGrows(k, a[1..], b);
    var qs := Split(k, a[1..]);
    GrowFirst(a[0], qs, Split(k, a[1..] + b), Split(k, qs[|qs| - 1] + b));
  }

  /** A blank line, character by character. */
  lemma BlankLength(s: string)
    ensures Length(BlankLine, s)
            == if |s| > 1 && s[0] == '\n' && s[1] == '\n' then 2
               else if |s| > 2 && s[0] == '\n' && s[1] == '\r' && s[2] == '\n' then 3
               else if |s| > 2 && s[0] == '\r' && s[1] == '\n' && s[2] == '\n' then 3
               else if |s| > 3 && s[0] == '\r' && s[1] == '\n' && s[2] == '\r' && s[3] == '\n' then 4
               else 0
  {
    var t := s[BreakLength(s)..];
    assert forall i :: 0 <= i < |t| ==> t[i] == s[BreakLength(s) + i];
  }

  lemma NoSeparatorInside(k: Separator, a: string, b: string, i: nat)
    requires 0 < i < |a| && Length(k, a) == 0 && Length(k, a + b) > 0
    ensures Length(k, a[i..]) == 0
  {
    var s, t := a + b, a[i..];
    assert s[0] == a[0] && s[1] == a[1] && t[0] == a[i];
    if k.BlankLine? {
      BlankLength(a);
      BlankLength(s);
      BlankLength(t);
      assert |a| > 2 ==> s[2] == a[2];
      assert |t| > 1 ==> t[1] == a[i + 1];
    }
  }

  /** A separator is cut wherever one starts: none is missed, whichever of its forms it has. */
  lemma LengthIsZeroIff(k: Separator, s: string)
    ensures Length(k, s) == 0 <==> forall j :: 0 <= j <= |s| ==> !IsSeparator(k, s[..j])
  {
    if Length(k, s) > 0 {
      SeparatorAt(k, s);
    } else {
      forall j | 0 <= j <= |s| ensures !IsSeparator(k, s[..j]) {
        if IsSeparator(k, s[..j]) {
          SeparatorStarts(k, s, j);
        }
      }
    }
  }

  lemma SeparatorStarts(k: Separator, s: string, j: nat)
    requires j <= |s| && IsSeparator(k, s[..j])
    ensures Length(k, s) > 0
  {
    var sep := s[..j];
    assert forall i :: 0 <= i < j ==> sep[i] == s[i];
    if k.BlankLine? {
      var a := BreakLength(s);
      assert s[a..][0] == s[a];
      if a + 1 < j { assert s[a..][1] == s[a + 1]; }
    }
  }

  lemma SeparatorIsText(k: Separator, sep: string)
    requires IsSeparator(k, sep)
    ensures |sep| > 0
  {}

  lemma FreeStretch(k: Separator, s: string, i: nat, j: nat)
    requires Free(k, s) && i <= j <= |s|
    ensures !IsSeparator(k, s[i..j])
  {
    if IsSeparator(k, s[i..j]) {
      SeparatorIsText(k, s[i..j]);
      assert s[i..][..j - i] == s[i..j];
      SeparatorStarts(k, s[i..], j - i);
    }
  }

  /** No piece contains any form of the separator. */
  lemma {:induction false} PiecesHoldNoSeparator(k: Separator, s: string, piece: string, i: nat, j: nat)
    requires piece in Split(k, s) && i <= j <= |piece|
    ensures !IsSeparator(k, piece[i..j])
  {
    PiecesAreFree(k, s);
    FreeStretch(k, piece, i, j);
  }
}
