/** The globs as documented (obsidian/src/excludes.ts:4-6), where a slash always stands for itself, against
    the globs as compiled, where a slash right after a double star is swallowed (line 27). */
module GlobDocumented {
  import opened Common
  import opened Excludes

  /** `*` is any run without a slash, `**` any run at all, and every other character stands for itself. */
  ghost predicate Documented(pat: string, s: string)
    decreases |pat|
  {
    if pat == "" then s == ""
    else if StartsWith(pat, "**") then exists k :: 0 <= k <= |s| && Documented(pat[2..], s[k..])
    else if pat[0] == '*' then exists k :: 0 <= k <= |s| && '/' !in s[..k] && Documented(pat[1..], s[k..])
    else s != "" && s[0] == pat[0] && Documented(pat[1..], s[1..])
  }

  /** Some double star of the pattern is followed by a slash. */
  predicate Swallows(pat: string)
    decreases |pat|
  {
    pat != "" &&
    if StartsWith(pat, "**") then (|pat| > 2 && pat[2] == '/') || Swallows(pat[2..]) else Swallows(pat[1..])
  }

  lemma {:induction false} WithoutSwallowing(pat: string, s: string)
    requires !Swallows(pat)
    ensures Glob(pat, s) <==> Documented(pat, s)
    decreases |pat|
  {
    if pat == "" {
    } else if StartsWith(pat, "**") {
      assert AfterStars(pat) == pat[2..];
      forall k | 0 <= k <= |s| ensures Glob(pat[2..], s[k..]) <==> Documented(pat[2..], s[k..]) {
        WithoutSwallowing(pat[2..], s[k..]);
      }
    } else if pat[0] == '*' {
      forall k | 0 <= k <= |s| ensures Glob(pat[1..], s[k..]) <==> Documented(pat[1..], s[k..]) {
        WithoutSwallowing(pat[1..], s[k..]);
      }
    } else if s != "" {
      WithoutSwallowing(pat[1..], s[1..]);
    }
  }

  // ---- a text that only the compiled glob matches ------------------------------------------------------

  /** The shortest text that the compiled glob matches. */
  function Shortest(pat: string): string
    decreases |pat|
  {
    if pat == "" then ""
    else if StartsWith(pat, "**") then Shortest(AfterStars(pat))
    else if pat[0] == '*' then Shortest(pat[1..])
    else [pat[0]] + Shortest(pat[1..])
  }

  lemma {:induction false} ShortestMatches(pat: string)
    ensures Glob(pat, Shortest(pat))
    decreases |pat|
  {
    var s := Shortest(pat);
    if pat == "" {
    } else if StartsWith(pat, "**") {
      ShortestMatches(AfterStars(pat));
      assert s[0..] == s;
    } else if pat[0] == '*' {
      ShortestMatches(pat[1..]);
      assert s[0..] == s && '/' !in s[..0];
    } else {
      ShortestMatches(pat[1..]);
      assert s[1..] == Shortest(pat[1..]);
    }
  }

  function Slashes(s: string): nat {
    if s == "" then 0 else (if s[0] == '/' then 1 else 0) + Slashes(s[1..])
  }

  lemma {:induction false} SlashesOfRest(s: string, k: nat)
    requires k <= |s|
    ensures Slashes(s[k..]) <= Slashes(s)
  {
    if k == 0 {
      assert s[0..] == s;
    } else {
      SlashesOfRest(s[1..], k - 1);
      assert s[1..][k - 1..] == s[k..];
    }
  }

  /** The documented glob needs every slash of the pattern. */
  lemma {:induction false} DocumentedNeedsSlashes(pat: string, s: string)
    requires Documented(pat, s)
    ensures Slashes(pat) <= Slashes(s)
    decreases |pat|
  {
    if pat == "" {
    } else if StartsWith(pat, "**") {
      var k :| 0 <= k <= |s| && Documented(pat[2..], s[k..]);
      DocumentedNeedsSlashes(pat[2..], s[k..]);
      SlashesOfRest(s, k);
      StarsHaveNoSlash(pat);
    } else if pat[0] == '*' {
      var k :| 0 <= k <= |s| && '/' !in s[..k] && Documented(pat[1..], s[k..]);
      DocumentedNeedsSlashes(pat[1..], s[k..]);
      SlashesOfRest(s, k);
    } else {
      DocumentedNeedsSlashes(pat[1..], s[1..]);
    }
  }

  lemma {:induction false} StarsHaveNoSlash(pat: string)
    requires StartsWith(pat, "**")
    ensures Slashes(pat) == Slashes(pat[2..])
  {
    assert pat[..2] == "**" && pat[0] == pat[..2][0] && pat[1] == pat[..2][1];
    assert pat[1..][1..] == pat[2..];
  }

  lemma {:induction false} ShortestDropsSlashes(pat: string)
    ensures Slashes(Shortest(pat)) <= Slashes(pat)
    ensures Swallows(pat) ==> Slashes(Shortest(pat)) < Slashes(pat)
    decreases |pat|
  {
    if pat == "" {
    } else if StartsWith(pat, "**") {
      ShortestDropsSlashes(AfterStars(pat));
      StarsHaveNoSlash(pat);
      if |pat| > 2 && pat[2] == '/' {
        assert pat[2..][1..] == pat[3..];
      }
    } else if pat[0] == '*' {
      ShortestDropsSlashes(pat[1..]);
    } else {
      ShortestDropsSlashes(pat[1..]);
      assert Shortest(pat)[1..] == Shortest(pat[1..]);
    }
  }

  /** The compiled glob is the documented one, on all texts, exactly when no double star of the pattern is
      followed by a slash. */
  lemma {:induction false} CompiledAsDocumentedIff(pat: string)
    ensures (forall s :: Glob(pat, s) <==> Documented(pat, s)) <==> !Swallows(pat)
  {
    if Swallows(pat) {
      ShortestMatches(pat);
      ShortestDropsSlashes(pat);
      var s := Shortest(pat);
      if Documented(pat, s) {
        DocumentedNeedsSlashes(pat, s);
      }
      assert Glob(pat, s) && !Documented(pat, s);
    } else {
      forall s ensures Glob(pat, s) <==> Documented(pat, s) {
        WithoutSwallowing(pat, s);
      }
    }
  }
}
