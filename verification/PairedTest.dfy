/** The exact paired test of the benchmark arms (bench/synthesis/db3_arms.py): McNemar against the
    single-hop arm, with float division read as exact rationals. */
module PairedTest {

  /** math.comb, by Pascal's rule; CombIsBinomial ties it to factorials. */
  function Comb(n: nat, k: nat): nat {
    if k == 0 then 1 else if n == 0 then 0 else Comb(n - 1, k - 1) + Comb(n - 1, k)
  }

  function Pow2(n: nat): (r: nat)
    ensures r > 0
  {
    if n == 0 then 1 else 2 * Pow2(n - 1)
  }

  /** The sum of comb(n, k) for k from 0 to m. */
  function SumTo(n: nat, m: nat): nat {
    Comb(n, m) + if m == 0 then 0 else SumTo(n, m - 1)
  }

  function Min(a: nat, b: nat): nat { if a <= b then a else b }

  function Gap(b: nat, c: nat): nat { if b <= c then c - b else b - c }

  /** The p-value as the script computes it from the two discordant counts. */
  function PValue(b: nat, c: nat): real {
    var n := b + c;
    if n == 0 then 1.0
    else
      var x := SumTo(n, Min(b, c)) as real / Pow2(n) as real * 2.0;
      if x <= 1.0 then x else 1.0
  }

  // ---------------------------------------------------------------- binomial coefficients

  lemma {:induction false} CombAbove(n: nat, k: nat)
    requires k > n
    ensures Comb(n, k) == 0
  {
    if n == 0 {
    } else {
      CombAbove(n - 1, k - 1);
      CombAbove(n - 1, k);
    }
  }

  lemma {:induction false} CombPositive(n: nat, k: nat)
    requires k <= n
    ensures Comb(n, k) >= 1
  {
    if 0 < k < n {
      CombPositive(n - 1, k - 1);
    } else if k == n && n > 0 {
      CombPositive(n - 1, n - 1);
    }
  }

  lemma {:induction false} CombMirror(n: nat, k: nat)
    requires k <= n
    ensures Comb(n, k) == Comb(n, n - k)
  {
    if n == 0 {
    } else {
      CombAbove(n - 1, n);
      if k == 0 {
        CombMirror(n - 1, 0);
      } else if k == n {
        CombMirror(n - 1, n - 1);
      } else {
        CombMirror(n - 1, k - 1);
        CombMirror(n - 1, k);
      }
    }
  }

  function Factorial(n: nat): (r: nat)
    ensures r > 0
  {
    if n == 0 then 1 else n * Factorial(n - 1)
  }

  lemma {:induction false} CombSelf(n: nat)
    ensures Comb(n, n) == 1
  {
    if n == 0 {
    } else {
      CombAbove(n - 1, n);
      CombSelf(n - 1);
    }
  }

  lemma {:induction false} CombIsBinomial(n: nat, k: nat)
    requires k <= n
    ensures Comb(n, k) * (Factorial(k) * Factorial(n - k)) == Factorial(n)
  {
    if k == n {
      CombSelf(n);
    } else if k > 0 {
      CombIsBinomial(n - 1, k - 1);
      CombIsBinomial(n - 1, k);
      var f, g := Factorial(k - 1), Factorial(n - k - 1);
      assert Factorial(k) == k * f && Factorial(n - k) == (n - k) * g && Factorial(n) == n * Factorial(n - 1);
      BinomialStep(n, k, Comb(n - 1, k - 1), Comb(n - 1, k), f, g, Factorial(n - 1));
    }
  }

  lemma BinomialStep(n: nat, k: nat, a: nat, b: nat, f: nat, g: nat, h: nat)
    requires 0 < k < n && a * (f * ((n - k) * g)) == h && b * ((k * f) * g) == h
    ensures (a + b) * ((k * f) * ((n - k) * g)) == n * h
  {
    assert a * ((k * f) * ((n - k) * g)) == k * (a * (f * ((n - k) * g)));
    assert b * ((k * f) * ((n - k) * g)) == (n - k) * (b * ((k * f) * g));
    assert k * h + (n - k) * h == n * h;
  }

  lemma {:induction false} SumPascal(n: nat, m: nat)
    requires n > 0
    ensures SumTo(n, m) == SumTo(n - 1, m) + if m == 0 then 0 else SumTo(n - 1, m - 1)
  {
    if m == 0 {
    } else {
      SumPascal(n, m - 1);
    }
  }

  lemma {:induction false} RowSum(n: nat)
    ensures SumTo(n, n) == Pow2(n)
  {
    if n == 0 {
    } else {
      RowSum(n - 1);
      SumPascal(n, n);
      CombAbove(n - 1, n);
    }
  }

  /** The two tails of a row: what is up to m, and what is above it read from the other end. */
  lemma {:induction false} TailsMeet(n: nat, m: nat)
    requires m < n
    ensures SumTo(n, m) + SumTo(n, n - m - 1) == Pow2(n)
  {
    if m == 0 {
      RowSum(n);
      CombMirror(n, n);
    } else {
      TailsMeet(n, m - 1);
      CombMirror(n, m);
    }
  }

  lemma {:induction false} SumGrows(n: nat, m: nat, k: nat)
    requires m < k <= n
    ensures SumTo(n, m) < SumTo(n, k)
  {
    CombPositive(n, k);
    if m < k - 1 {
      SumGrows(n, m, k - 1);
    }
  }

  lemma SumPositive(n: nat, m: nat)
    ensures SumTo(n, m) >= 1
  {
    if m > 0 { SumPositive(n, m - 1); }
  }

  // ---------------------------------------------------------------- where the minimum cuts

  /** Twice the smaller tail reaches the whole row exactly when the counts differ by at most one. */
  lemma TwiceTheTail(b: nat, c: nat)
    requires b + c > 0
    ensures var n, m := b + c, Min(b, c);
            (2 * SumTo(n, m) >= Pow2(n) <==> Gap(b, c) <= 1) && SumTo(n, m) >= 1
  {
    var n, m := b + c, Min(b, c);
    SumPositive(n, m);
    if m < n {
      TailsMeet(n, m);
      if m < n - m - 1 {
        SumGrows(n, m, n - m - 1);
      } else if n - m - 1 < m {
        SumGrows(n, n - m - 1, m);
      }
    }
  }

  lemma DoubledShare(s: real, w: real)
    requires w > 0.0
    ensures s / w * 2.0 == (2.0 * s) / w
  {
  }

  lemma CappedAtOne(a: real, w: real)
    requires w > 0.0
    ensures (if a / w <= 1.0 then a / w else 1.0) == if a >= w then 1.0 else a / w
  {
    if a >= w { AtLeastOne(a, w); } else { BelowOne(a, w); }
    if a > w { DivMonotone(w, a, w); AtLeastOne(w, w); }
  }

  lemma PAsFraction(b: nat, c: nat)
    requires b + c > 0
    ensures PValue(b, c) == if Gap(b, c) <= 1 then 1.0 else (2 * SumTo(b + c, Min(b, c))) as real / Pow2(b + c) as real
  {
    var s, w := SumTo(b + c, Min(b, c)), Pow2(b + c);
    TwiceTheTail(b, c);
    DoubledShare(s as real, w as real);
    assert 2.0 * (s as real) == (2 * s) as real;
    CappedAtOne((2 * s) as real, w as real);
  }

  lemma AtLeastOne(a: real, w: real)
    requires w > 0.0 && a >= w
    ensures a / w >= 1.0 && (a == w ==> a / w == 1.0)
  {
  }

  lemma BelowOne(a: real, w: real)
    requires w > 0.0 && a < w
    ensures a / w < 1.0
  {
  }

  lemma DivMonotone(a: real, b: real, w: real)
    requires w > 0.0 && a < b
    ensures a / w < b / w
  {
  }

  // ---------------------------------------------------------------- the exact two-sided test, as its reference

  /** Of all 2^n ways n discordant pairs can fall, those at least as lopsided as a difference of g,
      counted by how many fell one way, below j. */
  function Lopsided(n: nat, g: nat, j: nat): nat {
    if j == 0 then 0 else Lopsided(n, g, j - 1) + if Gap(2 * (j - 1), n) >= g then Comb(n, j - 1) else 0
  }

  lemma {:induction false} LopsidedAll(n: nat, g: nat, j: nat)
    requires g <= 1 && (g == 1 ==> n % 2 == 1)
    ensures Lopsided(n, g, j + 1) == SumTo(n, j)
  {
    if j == 0 {
    } else {
      LopsidedAll(n, g, j - 1);
    }
  }

  lemma {:induction false} LopsidedLow(n: nat, m: nat, j: nat)
    requires 2 * m < n && j <= m
    ensures Lopsided(n, n - 2 * m, j + 1) == SumTo(n, j)
  {
    if j == 0 {
    } else {
      LopsidedLow(n, m, j - 1);
    }
  }

  lemma {:induction false} LopsidedMiddle(n: nat, m: nat, j: nat)
    requires 2 * m < n && m <= j <= n - m - 1
    ensures Lopsided(n, n - 2 * m, j + 1) == SumTo(n, m)
    decreases j
  {
    if j == m { LopsidedLow(n, m, m); } else { LopsidedMiddle(n, m, j - 1); }
  }

  lemma {:induction false} LopsidedHigh(n: nat, m: nat, j: nat)
    requires 2 * m < n && n - m - 1 <= j <= n
    ensures Lopsided(n, n - 2 * m, j + 1) == SumTo(n, m) + SumTo(n, j) - SumTo(n, n - m - 1)
    decreases j
  {
    if j == n - m - 1 { LopsidedMiddle(n, m, j); } else { LopsidedHigh(n, m, j - 1); }
  }

  lemma LopsidedNear(n: nat, g: nat)
    requires g <= 1 && (g == 1 ==> n % 2 == 1)
    ensures Lopsided(n, g, n + 1) == Pow2(n)
  {
    LopsidedAll(n, g, n);
    RowSum(n);
  }

  lemma LopsidedFar(n: nat, m: nat)
    requires 2 * m < n
    ensures Lopsided(n, n - 2 * m, n + 1) == 2 * SumTo(n, m)
  {
    LopsidedHigh(n, m, n);
    RowSum(n);
    TailsMeet(n, m);
  }

  lemma LopsidedTotal(b: nat, c: nat)
    ensures Lopsided(b + c, Gap(b, c), b + c + 1) == if Gap(b, c) <= 1 then Pow2(b + c) else 2 * SumTo(b + c, Min(b, c))
  {
    if Gap(b, c) <= 1 {
      assert Gap(b, c) == 1 ==> b + c == 2 * Min(b, c) + 1;
      LopsidedNear(b + c, Gap(b, c));
    } else {
      assert Gap(b, c) == b + c - 2 * Min(b, c);
      LopsidedFar(b + c, Min(b, c));
    }
  }

  /** The script's p-value is the exact two-sided one: the share of all outcomes that are at least as
      lopsided as the one observed. */
  lemma ExactTwoSided(b: nat, c: nat)
    ensures PValue(b, c) == Lopsided(b + c, Gap(b, c), b + c + 1) as real / Pow2(b + c) as real
  {
    LopsidedTotal(b, c);
    AtLeastOne(Pow2(b + c) as real, Pow2(b + c) as real);
    if b + c > 0 { PAsFraction(b, c); }
  }

  // ---------------------------------------------------------------- its shape

  lemma Positive(a: real, w: real)
    requires a > 0.0 && w > 0.0
    ensures a / w > 0.0
  {
  }

  /** Symmetric in the two counts, in (0, 1], and 1 exactly when they differ by at most one. */
  lemma PValueShape(b: nat, c: nat)
    ensures PValue(b, c) == PValue(c, b)
    ensures 0.0 < PValue(b, c) <= 1.0
    ensures PValue(b, c) == 1.0 <==> Gap(b, c) <= 1
  {
    if b + c > 0 {
      var n, m := b + c, Min(b, c);
      PAsFraction(b, c);
      PAsFraction(c, b);
      TwiceTheTail(b, c);
      if Gap(b, c) > 1 {
        BelowOne((2 * SumTo(n, m)) as real, Pow2(n) as real);
        Positive((2 * SumTo(n, m)) as real, Pow2(n) as real);
      }
    }
  }

  /** For a fixed total the p-value strictly falls as the counts grow more lopsided, from the first
      step past a difference of one. */
  lemma MoreLopsidedIsSmaller(b: nat, c: nat, b': nat, c': nat)
    requires b + c == b' + c' && Gap(b, c) > Gap(b', c') && Gap(b, c) > 1
    ensures PValue(b, c) < PValue(b', c')
  {
    PValueShape(b, c);
    PValueShape(b', c');
    if Gap(b', c') > 1 {
      var n, m, m' := b + c, Min(b, c), Min(b', c');
      PAsFraction(b, c);
      PAsFraction(b', c');
      SumGrows(n, m, m');
      DivMonotone((2 * SumTo(n, m)) as real, (2 * SumTo(n, m')) as real, Pow2(n) as real);
    }
  }

  // ---------------------------------------------------------------- the counts

  /** A question and a replicate. */
  type Key = (string, nat)

  /** Whether an arm was right, where it answered. */
  type Verdicts = map<Key, bool>

  /** The pairs (question, replicate) both arms answered, where only the first was right. */
  function OnlyFirst(first: Verdicts, second: Verdicts): set<Key> {
    set k | k in first && k in second && first[k] && !second[k]
  }

  /** p for an arm against the single-hop arm. */
  function ArmPValue(base: Verdicts, other: Verdicts): real {
    PValue(|OnlyFirst(other, base)|, |OnlyFirst(base, other)|)
  }

  /** The pairs both arms answered on which their verdicts differ. */
  ghost function Discordant(a: Verdicts, b: Verdicts): set<Key> {
    set k | k in a && k in b && a[k] != b[k]
  }

  /** The pairs both arms answered that the first got right. */
  ghost function RightIn(a: Verdicts, b: Verdicts): set<Key> {
    set k | k in a && k in b && a[k]
  }

  /** How many more the one arm got right than the other, either way round. */
  ghost function Margin(a: Verdicts, b: Verdicts): nat {
    Gap(|RightIn(a, b)|, |RightIn(b, a)|)
  }

  lemma DiscordantSplits(a: Verdicts, b: Verdicts)
    ensures |Discordant(a, b)| == |OnlyFirst(a, b)| + |OnlyFirst(b, a)|
  {
    assert Discordant(a, b) == OnlyFirst(a, b) + OnlyFirst(b, a) && OnlyFirst(a, b) !! OnlyFirst(b, a);
  }

  ghost function BothRight(a: Verdicts, b: Verdicts): set<Key> {
    set k | k in a && k in b && a[k] && b[k]
  }

  lemma RightSplits(a: Verdicts, b: Verdicts)
    ensures |RightIn(a, b)| == |OnlyFirst(a, b)| + |BothRight(a, b)|
  {
    assert RightIn(a, b) == OnlyFirst(a, b) + BothRight(a, b) && OnlyFirst(a, b) !! BothRight(a, b);
  }

  /** The two counts are fixed by what the arms got right: together they are the discordant pairs, and
      they differ by how much more the one got right. */
  lemma CountsAreTheDiscordant(a: Verdicts, b: Verdicts)
    ensures |OnlyFirst(a, b)| + |OnlyFirst(b, a)| == |Discordant(a, b)|
    ensures |OnlyFirst(a, b)| - |OnlyFirst(b, a)| == |RightIn(a, b)| - |RightIn(b, a)|
  {
    DiscordantSplits(a, b);
    RightSplits(a, b);
    RightSplits(b, a);
    assert BothRight(a, b) == BothRight(b, a);
  }

  /** The p of two arms is the share, among all ways their discordant pairs could have fallen, of those
      at least as far apart as the arms' numbers of right answers are. */
  lemma ArmPValueByAnswers(base: Verdicts, other: Verdicts)
    ensures var n := |Discordant(other, base)|;
            ArmPValue(base, other) == Lopsided(n, Margin(other, base), n + 1) as real / Pow2(n) as real
  {
    CountsAreTheDiscordant(other, base);
    ExactTwoSided(|OnlyFirst(other, base)|, |OnlyFirst(base, other)|);
  }

  /** It does not matter which arm is called the baseline. */
  lemma BaselineDoesNotMatter(base: Verdicts, other: Verdicts)
    ensures ArmPValue(base, other) == ArmPValue(other, base)
  {
    PValueShape(|OnlyFirst(other, base)|, |OnlyFirst(base, other)|);
  }

  /** How many of `some` are among the keys gone through. */
  ghost predicate Counted(some: set<Key>, all: set<Key>, keys: set<Key>, n: nat) {
    n == |some * (all - keys)|
  }

  lemma CountedNone(some: set<Key>, all: set<Key>)
    ensures Counted(some, all, all, 0)
  {
    assert some * (all - all) == {};
  }

  lemma CountedNext(some: set<Key>, all: set<Key>, keys: set<Key>, n: nat, k: Key)
    requires Counted(some, all, keys, n) && keys <= all && k in keys
    ensures Counted(some, all, keys - {k}, n + if k in some then 1 else 0)
  {
    assert some * (all - (keys - {k})) == some * (all - keys) + if k in some then {k} else {};
  }

  lemma CountedAll(some: set<Key>, all: set<Key>, n: nat)
    requires Counted(some, all, {}, n) && some <= all
    ensures n == |some|
  {
    assert some * (all - {}) == some;
  }

  lemma InOnlyFirst(a: Verdicts, b: Verdicts)
    ensures OnlyFirst(a, b) <= a.Keys * b.Keys
    ensures forall k :: k in a.Keys * b.Keys ==> (k in OnlyFirst(a, b) <==> a[k] && !b[k])
  {
  }

  /** The script's counts over the common keys. */
  method CountArms(base: Verdicts, other: Verdicts) returns (b: nat, c: nat)
    ensures b == |OnlyFirst(other, base)| && c == |OnlyFirst(base, other)|
  {
    b, c := 0, 0;
    var all := base.Keys * other.Keys;
    var keys := all;
    ghost var plus, minus := OnlyFirst(other, base), OnlyFirst(base, other);
    InOnlyFirst(other, base);
    InOnlyFirst(base, other);
    CountedNone(plus, all);
    CountedNone(minus, all);
    while keys != {}
      invariant keys <= all && Counted(plus, all, keys, b) && Counted(minus, all, keys, c)
      decreases keys
    {
      var k :| k in keys;
      CountedNext(plus, all, keys, b, k);
      CountedNext(minus, all, keys, c, k);
      if other[k] && !base[k] { b := b + 1; }
      if base[k] && !other[k] { c := c + 1; }
      keys := keys - {k};
    }
    CountedAll(plus, all, b);
    CountedAll(minus, all, c);
  }
}
