/** The exact McNemar test of two arms: the p-value and the pair counts
    (evals/scripts/compute_blog_extras.py). Probabilities are real numbers. */
module McNemar {
  import opened Common

  /** The binomial coefficient, by Pascal's rule. */
  function Choose(n: nat, k: int): nat {
    if k < 0 || k > n then 0
    else if n == 0 then 1
    else Choose(n - 1, k - 1) + Choose(n - 1, k)
  }

  /** The sum of the coefficients from `lo` up to, not including, `hi`. */
  function SumChoose(n: nat, lo: int, hi: int): nat
    decreases hi - lo
  {
    if lo >= hi then 0 else SumChoose(n, lo, hi - 1) + Choose(n, hi - 1)
  }

  // ---- binomial coefficients ------------------------------------------------------------

  lemma {:induction false} ChooseSymmetric(n: nat, k: int)
    ensures Choose(n, k) == Choose(n, n - k)
  {
    if 0 <= k <= n && n > 0 {
      ChooseSymmetric(n - 1, k - 1);
      ChooseSymmetric(n - 1, k);
    }
  }

  function Factorial(n: nat): (f: nat)
    ensures f > 0
  {
    if n == 0 then 1 else n * Factorial(n - 1)
  }

  lemma MoveFactor(x: int, m: int, f: int, g: int, total: int)
    requires x * f * g == total
    ensures x * (m * f) * g == m * total && x * f * (m * g) == m * total
  {
    assert x * (m * f) * g == m * (x * f * g);
    assert x * f * (m * g) == m * (x * f * g);
  }

  /** Pascal's rule computes the library's coefficient, n! / (k! (n - k)!). */
  lemma {:induction false} ChooseIsFactorialRatio(n: nat, k: nat)
    requires k <= n
    ensures Choose(n, k) * Factorial(k) * Factorial(n - k) == Factorial(n)
  {
    if n == 0 {
      assert Choose(0, 0) == 1 && Factorial(0) == 1;
    } else {
      var left, right, f, g := Choose(n - 1, k - 1), Choose(n - 1, k), Factorial(k), Factorial(n - k);
      if k > 0 {
        ChooseIsFactorialRatio(n - 1, k - 1);
        MoveFactor(left, k, Factorial(k - 1), g, Factorial(n - 1));
      } else {
        assert left == 0;
      }
      if k < n {
        ChooseIsFactorialRatio(n - 1, k);
        MoveFactor(right, n - k, f, Factorial(n - k - 1), Factorial(n - 1));
      } else {
        assert right == 0;
      }
      assert left * f * g == k * Factorial(n - 1) && right * f * g == (n - k) * Factorial(n - 1);
      AddProducts(left, right, f, g, k, n - k, Factorial(n - 1));
    }
  }

  lemma AddProducts(x: int, y: int, f: int, g: int, a: int, b: int, t: int)
    requires x * f * g == a * t && y * f * g == b * t
    ensures (x + y) * f * g == (a + b) * t
  {
    assert (x + y) * f * g == x * f * g + y * f * g;
  }

  lemma {:induction false} ChoosePositive(n: nat, k: int)
    requires 0 <= k <= n
    ensures Choose(n, k) > 0
  {
    if n > 0 {
      if k < n { ChoosePositive(n - 1, k); } else { ChoosePositive(n - 1, k - 1); }
    }
  }

  lemma {:induction false} SumPascal(n: nat, hi: int)
    requires 0 <= hi
    ensures SumChoose(n + 1, 0, hi) == SumChoose(n, 0, hi) + SumChoose(n, 0, hi - 1)
    decreases hi
  {
    if hi > 0 {
      SumPascal(n, hi - 1);
      assert Choose(n + 1, hi - 1) == Choose(n, hi - 2) + Choose(n, hi - 1);
    }
  }

  /** A row of Pascal's triangle sums to a power of two. */
  lemma {:induction false} RowSum(n: nat)
    ensures SumChoose(n, 0, n + 1) == Pow2(n)
  {
    if n == 0 {
      assert SumChoose(0, 0, 0) == 0;
    } else {
      RowSum(n - 1);
      SumPascal(n - 1, n + 1);
      assert Choose(n - 1, n) == 0;
    }
  }

  lemma {:induction false} SumSplits(n: nat, lo: int, mid: int, hi: int)
    requires lo <= mid <= hi
    ensures SumChoose(n, lo, hi) == SumChoose(n, lo, mid) + SumChoose(n, mid, hi)
    decreases hi - mid
  {
    if mid < hi {
      SumSplits(n, lo, mid, hi - 1);
    }
  }

  /** The upper tail is the mirror image of the lower one. */
  lemma {:induction false} TailsMirror(n: nat, k: nat)
    requires k <= n + 1
    ensures SumChoose(n, n + 1 - k, n + 1) == SumChoose(n, 0, k)
    decreases k
  {
    if k > 0 {
      TailsMirror(n, k - 1);
      SumSplits(n, n + 1 - k, n + 2 - k, n + 1);
      assert SumChoose(n, n + 1 - k, n + 1 - k) == 0;
      ChooseSymmetric(n, k - 1);
    }
  }

  lemma {:induction false} SumGrows(n: nat, j: nat, k: nat)
    requires j <= k
    ensures SumChoose(n, 0, j) <= SumChoose(n, 0, k)
    decreases k - j
  {
    if j < k {
      SumGrows(n, j, k - 1);
    }
  }

  // ---- the p-value -------------------------------------------------------------------------

  /** P(X <= k) and P(X >= k) for X ~ Bin(n, 1/2). */
  function AtMost(n: nat, k: nat): real { SumChoose(n, 0, k + 1) as real / Pow2(n) as real }

  function AtLeast(n: nat, k: nat): real { SumChoose(n, k, n + 1) as real / Pow2(n) as real }

  /** The value the script computes before clipping. */
  function Unclipped(b: nat, c: nat): real {
    2.0 * SumChoose(b + c, 0, Min(b, c) + 1) as real / Pow2(b + c) as real
  }

  function PValue(b: nat, c: nat): real {
    if b + c == 0 then 1.0 else if Unclipped(b, c) < 1.0 then Unclipped(b, c) else 1.0
  }

  /** The loop that sums the coefficients. */
  method ExactPValue(b: nat, c: nat) returns (p: real)
    ensures p == PValue(b, c)
  {
    var n := b + c;
    if n == 0 {
      return 1.0;
    }
    var k := Min(b, c);
    var cdf := 0;
    for i := 0 to k + 1
      invariant cdf == SumChoose(n, 0, i)
    {
      cdf := cdf + Choose(n, i);
    }
    p := 2.0 * cdf as real / Pow2(n) as real;
    if 1.0 < p {
      p := 1.0;
    }
  }

  lemma AddFractions(x: real, y: real, d: real)
    requires d > 0.0
    ensures x / d + y / d == (x + y) / d
  {}

  /** Before clipping, the value is the documented two-tailed sum. */
  lemma UnclippedIsTwoTails(b: nat, c: nat)
    ensures Unclipped(b, c) == AtMost(b + c, Min(b, c)) + AtLeast(b + c, Max(b, c))
  {
    var n, k := b + c, Min(b, c);
    TailsMirror(n, k + 1);
    assert Max(b, c) == n + 1 - (k + 1);
    var s := SumChoose(n, 0, k + 1);
    AddFractions(s as real, s as real, Pow2(n) as real);
    assert 2.0 * s as real == s as real + s as real;
  }

  /** The p-value is the documented two-tailed sum clipped at 1 (of no discordant pairs it is 1). */
  lemma PValueIsTwoTailed(b: nat, c: nat)
    ensures var sum := AtMost(b + c, Min(b, c)) + AtLeast(b + c, Max(b, c));
            PValue(b, c) == if sum < 1.0 then sum else 1.0
  {
    UnclippedIsTwoTails(b, c);
    if b + c == 0 {
      assert SumChoose(0, 0, 0) == 0 && SumChoose(0, 0, 1) == 1;
      assert Unclipped(0, 0) == 2.0;
    }
  }

  /** The two tails cover a whole row and, when they meet, the middle twice. */
  lemma TailsAgainstRow(b: nat, c: nat)
    ensures var n, k := b + c, Min(b, c);
            && (b == c ==> 2 * SumChoose(n, 0, k + 1) == Pow2(n) + Choose(n, k))
            && (b != c ==> 2 * SumChoose(n, 0, k + 1) <= Pow2(n))
  {
    var n, k := b + c, Min(b, c);
    RowSum(n);
    TailsMirror(n, k + 1);
    if b == c {
      SumSplits(n, 0, k + 1, n + 1);
      SumSplits(n, k, k + 1, n + 1);
      assert SumChoose(n, k, k) == 0;
    } else {
      SumSplits(n, 0, k + 1, n + 1);
      SumSplits(n, k + 1, n - k, n + 1);
    }
  }

  lemma FractionAgainstOne(x: nat, d: nat)
    requires d > 0
    ensures x as real / d as real > 1.0 <==> x > d
    ensures x > 0 ==> x as real / d as real > 0.0
  {
    if x > d {
      assert x as real > d as real;
    }
  }

  /** Clipping is needed exactly for equal counts of discordant pairs. */
  lemma ClipsIffBalanced(b: nat, c: nat)
    ensures Unclipped(b, c) > 1.0 <==> b == c
  {
    var n, k := b + c, Min(b, c);
    TailsAgainstRow(b, c);
    ChoosePositive(n, k);
    FractionAgainstOne(2 * SumChoose(n, 0, k + 1), Pow2(n));
    assert 2.0 * SumChoose(n, 0, k + 1) as real == (2 * SumChoose(n, 0, k + 1)) as real;
  }

  lemma PValueIsProbability(b: nat, c: nat)
    ensures 0.0 < PValue(b, c) <= 1.0 && PValue(b, c) == PValue(c, b)
  {
    var n, k := b + c, Min(b, c);
    SumGrows(n, 1, k + 1);
    assert SumChoose(n, 0, 0) == 0;
    ChoosePositive(n, 0);
    FractionAgainstOne(2 * SumChoose(n, 0, k + 1), Pow2(n));
    assert 2.0 * SumChoose(n, 0, k + 1) as real == (2 * SumChoose(n, 0, k + 1)) as real;
  }

  lemma DivideMonotone(x: real, y: real, d: real)
    requires x <= y && d > 0.0
    ensures x / d <= y / d
  {}

  /** For a fixed number of discordant pairs, a more lopsided split is never less significant. */
  lemma LopsidedIsSmaller(b: nat, c: nat, b': nat, c': nat)
    requires b + c == b' + c' && Max(b, c) - Min(b, c) <= Max(b', c') - Min(b', c')
    ensures PValue(b', c') <= PValue(b, c)
  {
    SmallerUnclipped(b, c, b', c');
  }

  lemma SmallerUnclipped(b: nat, c: nat, b': nat, c': nat)
    requires b + c == b' + c' && Min(b', c') <= Min(b, c)
    ensures Unclipped(b', c') <= Unclipped(b, c)
  {
    MoreTailIsMore(b + c, Min(b', c') + 1, Min(b, c) + 1);
  }

  lemma {:induction false} MoreTailIsMore(n: nat, j: nat, k: nat)
    requires j <= k
    ensures 2.0 * SumChoose(n, 0, j) as real / Pow2(n) as real <= 2.0 * SumChoose(n, 0, k) as real / Pow2(n) as real
  {
    SumGrows(n, j, k);
    DivideMonotone(2.0 * SumChoose(n, 0, j) as real, 2.0 * SumChoose(n, 0, k) as real, Pow2(n) as real);
  }

  // ---- the pair counts ------------------------------------------------------------------------

  datatype RowResult = RowResult(qid: string, arm: string, correct: bool)

  type Table = map<string, map<string, bool>>

  /** Groups the rows; a later row of the same question and arm replaces an earlier one. */
  function Grouped(rows: seq<RowResult>): Table {
    if rows == [] then map[]
    else
      var t, r := Grouped(rows[..|rows| - 1]), rows[|rows| - 1];
      t[r.qid := (if r.qid in t then t[r.qid] else map[])[r.arm := r.correct]]
  }

  lemma GroupedTake(rows: seq<RowResult>, i: nat)
    requires i < |rows|
    ensures var t, r := Grouped(rows[..i]), rows[i];
            Grouped(rows[..i + 1]) == t[r.qid := (if r.qid in t then t[r.qid] else map[])[r.arm := r.correct]]
    ensures (set r | r in rows[..i + 1] :: r.arm) == (set r | r in rows[..i] :: r.arm) + {rows[i].arm}
  {
    assert rows[..i + 1][..i] == rows[..i];
    assert rows[..i + 1] == rows[..i] + [rows[i]];
  }

  method GroupRows(rows: seq<RowResult>) returns (byQid: Table, armsSeen: set<string>)
    ensures byQid == Grouped(rows) && armsSeen == set r | r in rows :: r.arm
  {
    byQid, armsSeen := map[], {};
    for i := 0 to |rows|
      invariant byQid == Grouped(rows[..i]) && armsSeen == set r | r in rows[..i] :: r.arm
    {
      GroupedTake(rows, i);
      var r := rows[i];
      if r.qid !in byQid {
        byQid := byQid[r.qid := map[]];
      }
      byQid := byQid[r.qid := byQid[r.qid][r.arm := r.correct]];
      armsSeen := armsSeen + {r.arm};
    }
    assert rows[..|rows|] == rows;
  }

  /** The questions both arms answered, the first as `ci` and the second as `cj`. */
  function Where(t: Table, qids: seq<string>, ai: string, aj: string, ci: bool, cj: bool): nat {
    if qids == [] then 0
    else
      var q := qids[|qids| - 1];
      Where(t, qids[..|qids| - 1], ai, aj, ci, cj)
      + if q in t && ai in t[q] && aj in t[q] && t[q][ai] == ci && t[q][aj] == cj then 1 else 0
  }

  function Answered(t: Table, qids: seq<string>, ai: string, aj: string): nat {
    if qids == [] then 0
    else
      var q := qids[|qids| - 1];
      Answered(t, qids[..|qids| - 1], ai, aj) + if q in t && ai in t[q] && aj in t[q] then 1 else 0
  }

  /** The 2x2 table of one pair of arms. */
  method CountPair(t: Table, qids: seq<string>, ai: string, aj: string) returns (b: nat, c: nat, both: nat,
        neither: nat)
    requires forall q :: q in qids ==> q in t
    ensures b == Where(t, qids, ai, aj, true, false) && c == Where(t, qids, ai, aj, false, true)
    ensures both == Where(t, qids, ai, aj, true, true) && neither == Where(t, qids, ai, aj, false, false)
  {
    b, c, both, neither := 0, 0, 0, 0;
    for i := 0 to |qids|
      invariant b == Where(t, qids[..i], ai, aj, true, false) && c == Where(t, qids[..i], ai, aj, false, true)
      invariant both == Where(t, qids[..i], ai, aj, true, true) && neither == Where(t, qids[..i], ai, aj, false, false)
    {
      assert qids[..i + 1][..i] == qids[..i];
      var row := t[qids[i]];
      if ai !in row || aj !in row {
        continue;
      }
      var ci, cj := row[ai], row[aj];
      if ci && !cj {
        b := b + 1;
      } else if cj && !ci {
        c := c + 1;
      } else if ci && cj {
        both := both + 1;
      } else {
        neither := neither + 1;
      }
    }
    assert qids[..|qids|] == qids;
  }

  /** A question both arms answered, the first as `ci` and the second as `cj`. */
  predicate InCell(t: Table, q: string, ai: string, aj: string, ci: bool, cj: bool) {
    q in t && ai in t[q] && aj in t[q] && t[q][ai] == ci && t[q][aj] == cj
  }

  ghost function Cell(t: Table, qids: seq<string>, ai: string, aj: string, ci: bool, cj: bool): set<int> {
    set i | 0 <= i < |qids| && InCell(t, qids[i], ai, aj, ci, cj)
  }

  lemma CellGrows(t: Table, qids: seq<string>, ai: string, aj: string, ci: bool, cj: bool)
    requires qids != []
    ensures var n := |qids| - 1;
            && n !in Cell(t, qids[..n], ai, aj, ci, cj)
            && Cell(t, qids, ai, aj, ci, cj)
               == Cell(t, qids[..n], ai, aj, ci, cj) + if InCell(t, qids[n], ai, aj, ci, cj) then {n} else {}
  {
    var n := |qids| - 1;
    assert forall i :: 0 <= i < n ==> qids[..n][i] == qids[i];
  }

  /** Each cell counts the positions of such questions. */
  lemma {:induction false} WhereCounts(t: Table, qids: seq<string>, ai: string, aj: string, ci: bool, cj: bool)
    ensures Where(t, qids, ai, aj, ci, cj) == |Cell(t, qids, ai, aj, ci, cj)|
  {
    if qids != [] {
      WhereCounts(t, qids[..|qids| - 1], ai, aj, ci, cj);
      CellGrows(t, qids, ai, aj, ci, cj);
    }
  }

  /** Every question that both arms answered is counted in exactly one cell. */
  lemma {:induction false} CellsPartition(t: Table, qids: seq<string>, ai: string, aj: string)
    ensures Where(t, qids, ai, aj, true, false) + Where(t, qids, ai, aj, false, true)
            + Where(t, qids, ai, aj, true, true) + Where(t, qids, ai, aj, false, false) == Answered(t, qids, ai, aj)
  {
    if qids != [] {
      CellsPartition(t, qids[..|qids| - 1], ai, aj);
    }
  }

  lemma {:induction false} CellsTranspose(t: Table, qids: seq<string>, ai: string, aj: string, ci: bool, cj: bool)
    ensures Where(t, qids, ai, aj, ci, cj) == Where(t, qids, aj, ai, cj, ci)
  {
    if qids != [] {
      CellsTranspose(t, qids[..|qids| - 1], ai, aj, ci, cj);
    }
  }

  /** Comparing the arms the other way round gives the same p-value. */
  lemma {:induction false} ArmsCommute(t: Table, qids: seq<string>, ai: string, aj: string)
    ensures PValue(Where(t, qids, ai, aj, true, false), Where(t, qids, ai, aj, false, true))
            == PValue(Where(t, qids, aj, ai, true, false), Where(t, qids, aj, ai, false, true))
  {
    CellsTranspose(t, qids, ai, aj, true, false);
    CellsTranspose(t, qids, ai, aj, false, true);
    PValueIsProbability(Where(t, qids, ai, aj, true, false), Where(t, qids, ai, aj, false, true));
  }

  /** The grouped table holds each question's and arm's last row. */
  lemma {:induction false} GroupedKeepsLast(rows: seq<RowResult>, i: nat)
    requires i < |rows| && forall j :: i < j < |rows| ==> rows[j].qid != rows[i].qid || rows[j].arm != rows[i].arm
    ensures var t := Grouped(rows);
            rows[i].qid in t && rows[i].arm in t[rows[i].qid] && t[rows[i].qid][rows[i].arm] == rows[i].correct
  {
    var n := |rows| - 1;
    if i < n {
      assert rows[..n][i] == rows[i];
      forall j | i < j < n ensures rows[..n][j].qid != rows[..n][i].qid || rows[..n][j].arm != rows[..n][i].arm {
        assert rows[..n][j] == rows[j];
      }
      GroupedKeepsLast(rows[..n], i);
    }
  }
}
