/**
 The one-sided Mann-Whitney comparison of `src/benchmark_bisect.rs`.

 The source sorts both samples together, walks the sorted list block by block,
 gives every member of a block of ties the block's average rank, and adds up the
 ranks of the candidate's members. The independent reading used here counts
 pairs: one for every (baseline, candidate) pair in which the candidate is
 larger, one half for every tied pair.
 */
module RankSum {

  // ---------------------------------------------------------------------------
  // Sums over sequences
  // ---------------------------------------------------------------------------

  function Sum<T>(f: T -> real, s: seq<T>): real {
    if s == [] then 0.0 else f(s[0]) + Sum(f, s[1..])
  }

  lemma {:induction false} SumConcat<T>(f: T -> real, a: seq<T>, b: seq<T>)
    ensures Sum(f, a + b) == Sum(f, a) + Sum(f, b)
  {
    if a == [] {
      assert a + b == b;
    } else {
      assert (a + b)[1..] == a[1..] + b;
      SumConcat(f, a[1..], b);
    }
  }

  lemma {:induction false} SumConstant<T>(f: T -> real, s: seq<T>, x: real)
    requires forall t | t in s :: f(t) == x
    ensures Sum(f, s) == |s| as real * x
  {
    if s != [] { SumConstant(f, s[1..], x); }
  }

  lemma SumOne<T>(f: T -> real, x: T)
    ensures Sum(f, [x]) == f(x)
  {
    assert [x][1..] == [];
  }

  lemma SumAround<T>(f: T -> real, low: seq<T>, x: T, high: seq<T>)
    ensures Sum(f, low + [x] + high) == f(x) + Sum(f, low + high)
  {
    SumConcat(f, low + [x], high);
    SumConcat(f, low, [x]);
    SumConcat(f, low, high);
    SumOne(f, x);
  }

  lemma AroundIndex<T>(b: seq<T>, k: nat)
    requires k < |b|
    ensures b == b[..k] + [b[k]] + b[k + 1..]
  {
  }

  lemma MultisetSplit<T>(b: seq<T>, k: nat)
    requires k < |b|
    ensures multiset(b[..k] + b[k + 1..]) == multiset(b) - multiset{b[k]}
  {
    assert b == b[..k] + ([b[k]] + b[k + 1..]);
  }

  lemma MultisetHead<T>(a: seq<T>)
    requires a != []
    ensures multiset(a[1..]) == multiset(a) - multiset{a[0]}
  {
    assert a == [a[0]] + a[1..];
  }

  /** A sum does not depend on the order of its terms. */
  lemma {:induction false} SumPermuted<T>(f: T -> real, a: seq<T>, b: seq<T>)
    requires multiset(a) == multiset(b)
    ensures Sum(f, a) == Sum(f, b)
  {
    if a == [] {
      assert |multiset(b)| == |b|;
    } else {
      assert a[0] in multiset(a);
      var k :| 0 <= k < |b| && b[k] == a[0];
      assert multiset(a[1..]) == multiset(b[..k] + b[k + 1..]) by {
        MultisetHead(a);
        MultisetSplit(b, k);
      }
      SumPermuted(f, a[1..], b[..k] + b[k + 1..]);
      AroundIndex(b, k);
      SumAround(f, b[..k], b[k], b[k + 1..]);
    }
  }

  // ---------------------------------------------------------------------------
  // The pair count
  // ---------------------------------------------------------------------------

  function Score(b: real, c: real): real {
    if b < c then 1.0 else if b == c then 0.5 else 0.0
  }

  function Beats(c: real): real -> real {
    b => Score(b, c)
  }

  /** How many of `base` the value `c` beats, ties counting one half. */
  function Wins(base: seq<real>, c: real): real {
    Sum(Beats(c), base)
  }

  /** The pair count of two samples: Mann and Whitney's U for `cand`. */
  function PairCount(base: seq<real>, cand: seq<real>): real {
    if cand == [] then 0.0 else Wins(base, cand[0]) + PairCount(base, cand[1..])
  }

  lemma {:induction false} PairCountConcat(a: seq<real>, b: seq<real>, cand: seq<real>)
    ensures PairCount(a + b, cand) == PairCount(a, cand) + PairCount(b, cand)
  {
    if cand != [] {
      SumConcat(Beats(cand[0]), a, b);
      PairCountConcat(a, b, cand[1..]);
    }
  }

  lemma {:induction false} PairCountOfOne(x: real, ys: seq<real>)
    ensures PairCount([x], ys) + Wins(ys, x) == |ys| as real
  {
    if ys != [] {
      SumOne(Beats(ys[0]), x);
      assert Score(x, ys[0]) + Score(ys[0], x) == 1.0;
      PairCountOfOne(x, ys[1..]);
    }
  }

  lemma {:induction false} NothingToBeat(ys: seq<real>)
    ensures PairCount([], ys) == 0.0
  {
    if ys != [] { NothingToBeat(ys[1..]); }
  }

  /** Every pair is won by one side or split: the two counts fill the grid. */
  lemma {:induction false} PairCountsFillTheGrid(a: seq<real>, b: seq<real>)
    ensures PairCount(a, b) + PairCount(b, a) == |a| as real * |b| as real
  {
    if a == [] {
      NothingToBeat(b);
    } else {
      assert a == [a[0]] + a[1..];
      PairCountConcat([a[0]], a[1..], b);
      PairCountOfOne(a[0], b);
      PairCountsFillTheGrid(a[1..], b);
      assert |a| as real * |b| as real == |b| as real + |a[1..]| as real * |b| as real;
    }
  }

  // ---------------------------------------------------------------------------
  // Sorting the pooled samples
  // ---------------------------------------------------------------------------

  /** A pooled sample: its value, and whether it came from the candidate. */
  datatype Tagged = Tagged(value: real, candidate: bool)

  ghost predicate SortedByValue(s: seq<Tagged>) {
    forall i, j | 0 <= i < j < |s| :: s[i].value <= s[j].value
  }

  lemma InsertedMultiset<T>(s: seq<T>, k: nat, x: T)
    requires k <= |s|
    ensures multiset(s[..k] + [x] + s[k..]) == multiset(s) + multiset{x}
  {
    assert s == s[..k] + s[k..];
  }

  method InsertByValue(s: seq<Tagged>, x: Tagged) returns (r: seq<Tagged>)
    requires SortedByValue(s)
    ensures SortedByValue(r)
    ensures multiset(r) == multiset(s) + multiset{x}
  {
    var k := |s|;
    while k > 0 && s[k - 1].value > x.value
      invariant 0 <= k <= |s|
      invariant forall i | k <= i < |s| :: x.value < s[i].value
    {
      k := k - 1;
    }
    InsertedMultiset(s, k, x);
    r := s[..k] + [x] + s[k..];
  }

  /** Any sorted rearrangement will do: ties may come out in any order. */
  method SortPooled(all: seq<Tagged>) returns (r: seq<Tagged>)
    ensures SortedByValue(r)
    ensures multiset(r) == multiset(all)
  {
    r := [];
    for k := 0 to |all|
      invariant SortedByValue(r)
      invariant multiset(r) == multiset(all[..k])
    {
      assert all[..k + 1] == all[..k] + [all[k]];
      r := InsertByValue(r, all[k]);
    }
    assert all[..|all|] == all;
  }

  // ---------------------------------------------------------------------------
  // The rank loop
  // ---------------------------------------------------------------------------

  function BeatsTagged(c: real): Tagged -> real {
    (t: Tagged) => Score(t.value, c)
  }

  /** The rank of value `x` in `pool` when ties share their average rank. */
  function MidRank(pool: seq<Tagged>, x: real): real {
    Sum(BeatsTagged(x), pool) + 0.5
  }

  function RankIfCandidate(pool: seq<Tagged>): Tagged -> real {
    (t: Tagged) => if t.candidate then MidRank(pool, t.value) else 0.0
  }

  function OneIfCandidate(): Tagged -> real {
    (t: Tagged) => if t.candidate then 1.0 else 0.0
  }

  lemma WinsOverLow(low: seq<Tagged>, x: real)
    requires forall t | t in low :: t.value < x
    ensures Sum(BeatsTagged(x), low) == |low| as real
  {
    assert forall t | t in low :: BeatsTagged(x)(t) == 1.0;
    SumConstant(BeatsTagged(x), low, 1.0);
  }

  lemma WinsOverMid(mid: seq<Tagged>, x: real)
    requires forall t | t in mid :: t.value == x
    ensures Sum(BeatsTagged(x), mid) == |mid| as real / 2.0
  {
    assert forall t | t in mid :: BeatsTagged(x)(t) == 0.5;
    SumConstant(BeatsTagged(x), mid, 0.5);
  }

  lemma WinsOverHigh(high: seq<Tagged>, x: real)
    requires forall t | t in high :: t.value > x
    ensures Sum(BeatsTagged(x), high) == 0.0
  {
    assert forall t | t in high :: BeatsTagged(x)(t) == 0.0;
    SumConstant(BeatsTagged(x), high, 0.0);
  }

  lemma SumOfThree(f: Tagged -> real, low: seq<Tagged>, mid: seq<Tagged>, high: seq<Tagged>)
    ensures Sum(f, low + mid + high) == Sum(f, low) + Sum(f, mid) + Sum(f, high)
  {
    SumConcat(f, low + mid, high);
    SumConcat(f, low, mid);
  }

  /** Three stretches below, at and above `x` contribute one, a half and nothing each. */
  lemma WinsOverStretches(low: seq<Tagged>, mid: seq<Tagged>, high: seq<Tagged>, x: real)
    requires forall t | t in low :: t.value < x
    requires forall t | t in mid :: t.value == x
    requires forall t | t in high :: t.value > x
    ensures Sum(BeatsTagged(x), low + mid + high) == |low| as real + |mid| as real / 2.0
  {
    WinsOverLow(low, x);
    WinsOverMid(mid, x);
    WinsOverHigh(high, x);
    SumOfThree(BeatsTagged(x), low, mid, high);
  }

  /** In a sorted pool the average rank of a block is its members' mid-rank. */
  lemma BlockRank(pool: seq<Tagged>, i: nat, j: nat, x: real)
    requires i <= j < |pool|
    requires forall t | t in pool[..i] :: t.value < x
    requires forall t | t in pool[i..j + 1] :: t.value == x
    requires forall t | t in pool[j + 1..] :: t.value > x
    ensures MidRank(pool, x) == (i + j) as real / 2.0 + 1.0
  {
    assert pool == pool[..i] + pool[i..j + 1] + pool[j + 1..];
    WinsOverStretches(pool[..i], pool[i..j + 1], pool[j + 1..], x);
  }

  lemma {:induction false} BlockSum(block: seq<Tagged>, pool: seq<Tagged>, x: real)
    requires forall t | t in block :: t.value == x
    ensures Sum(RankIfCandidate(pool), block) == Sum(OneIfCandidate(), block) * MidRank(pool, x)
  {
    if block != [] { BlockSum(block[1..], pool, x); }
  }

  method CountCandidates(block: seq<Tagged>) returns (n: nat)
    ensures n as real == Sum(OneIfCandidate(), block)
  {
    n := 0;
    var k := |block|;
    while k > 0
      invariant 0 <= k <= |block|
      invariant n as real == Sum(OneIfCandidate(), block[k..])
    {
      k := k - 1;
      assert block[k..][1..] == block[k + 1..];
      if block[k].candidate { n := n + 1; }
    }
    assert block[0..] == block;
  }

  /** Everything before `i` lies below it. */
  ghost predicate StartsBlock(all: seq<Tagged>, i: nat) {
    i < |all| ==> forall k | 0 <= k < i :: all[k].value < all[i].value
  }

  /** `i` to `j` are ties, and everything after them lies above. */
  ghost predicate IsBlock(all: seq<Tagged>, i: nat, j: nat) {
    && i <= j < |all|
    && (forall k | i <= k <= j :: all[k].value == all[i].value)
    && (forall k | j < k < |all| :: all[k].value > all[i].value)
  }

  lemma NextBlockStarts(all: seq<Tagged>, i: nat, j: nat)
    requires StartsBlock(all, i) && IsBlock(all, i, j)
    ensures StartsBlock(all, j + 1)
  {
  }

  /** The last index of the block of ties that starts at `i`. */
  method BlockEnd(all: seq<Tagged>, i: nat) returns (j: nat)
    requires i < |all| && SortedByValue(all)
    ensures IsBlock(all, i, j)
  {
    j := i;
    while j + 1 < |all| && all[j + 1].value == all[i].value
      invariant i <= j < |all|
      invariant forall k | i <= k <= j :: all[k].value == all[i].value
    {
      j := j + 1;
    }
  }

  lemma BlockStep(all: seq<Tagged>, i: nat, j: nat, count: real, mid: real)
    requires i <= j < |all|
    requires forall t | t in all[i..j + 1] :: t.value == all[i].value
    requires count == Sum(OneIfCandidate(), all[i..j + 1]) && mid == MidRank(all, all[i].value)
    ensures Sum(RankIfCandidate(all), all[..j + 1]) == Sum(RankIfCandidate(all), all[..i]) + count * mid
  {
    var before, block := all[..i], all[i..j + 1];
    assert all[..j + 1] == before + block;
    SumConcat(RankIfCandidate(all), before, block);
    BlockSum(block, all, all[i].value);
  }

  lemma BlockMidRank(all: seq<Tagged>, i: nat, j: nat)
    requires StartsBlock(all, i) && IsBlock(all, i, j)
    ensures MidRank(all, all[i].value) == (i + j) as real / 2.0 + 1.0
    ensures forall t | t in all[i..j + 1] :: t.value == all[i].value
  {
    BlockRank(all, i, j, all[i].value);
  }

  /** One turn of the loop: a block adds its candidates' mid-ranks. */
  lemma BlockTurn(all: seq<Tagged>, i: nat, j: nat, n: nat, avgRank: real)
    requires StartsBlock(all, i) && IsBlock(all, i, j)
    requires n as real == Sum(OneIfCandidate(), all[i..j + 1]) && avgRank == (i + j) as real / 2.0 + 1.0
    ensures Sum(RankIfCandidate(all), all[..j + 1]) == Sum(RankIfCandidate(all), all[..i]) + n as real * avgRank
  {
    BlockMidRank(all, i, j);
    BlockStep(all, i, j, n as real, avgRank);
  }

  /** The tie-averaging loop over a sorted pool adds up mid-ranks. */
  method RankLoop(all: seq<Tagged>) returns (rankSum: real)
    requires SortedByValue(all)
    ensures rankSum == Sum(RankIfCandidate(all), all)
  {
    rankSum := 0.0;
    var i := 0;
    while i < |all|
      invariant 0 <= i <= |all|
      invariant StartsBlock(all, i)
      invariant rankSum == Sum(RankIfCandidate(all), all[..i])
    {
      var j := BlockEnd(all, i);
      var avgRank := (i + j) as real / 2.0 + 1.0;
      var n := CountCandidates(all[i..j + 1]);
      BlockTurn(all, i, j, n, avgRank);
      NextBlockStarts(all, i, j);
      rankSum := rankSum + n as real * avgRank;
      i := j + 1;
    }
    assert all[..|all|] == all;
  }

  // ---------------------------------------------------------------------------
  // The rank sum is the pair count
  // ---------------------------------------------------------------------------

  function TagAll(xs: seq<real>, candidate: bool): seq<Tagged> {
    if xs == [] then [] else [Tagged(xs[0], candidate)] + TagAll(xs[1..], candidate)
  }

  function Pooled(base: seq<real>, cand: seq<real>): seq<Tagged> {
    TagAll(base, false) + TagAll(cand, true)
  }

  lemma {:induction false} WinsTagged(xs: seq<real>, candidate: bool, c: real)
    ensures Sum(BeatsTagged(c), TagAll(xs, candidate)) == Wins(xs, c)
  {
    if xs != [] {
      SumConcat(BeatsTagged(c), [Tagged(xs[0], candidate)], TagAll(xs[1..], candidate));
      SumOne(BeatsTagged(c), Tagged(xs[0], candidate));
      WinsTagged(xs[1..], candidate, c);
    }
  }

  lemma PooledMidRank(base: seq<real>, cand: seq<real>, sorted: seq<Tagged>, x: real)
    requires multiset(sorted) == multiset(Pooled(base, cand))
    ensures MidRank(sorted, x) == Wins(base, x) + Wins(cand, x) + 0.5
  {
    SumPermuted(BeatsTagged(x), sorted, Pooled(base, cand));
    SumConcat(BeatsTagged(x), TagAll(base, false), TagAll(cand, true));
    WinsTagged(base, false, x);
    WinsTagged(cand, true, x);
  }

  lemma {:induction false} BaselineHasNoRank(xs: seq<real>, pool: seq<Tagged>)
    ensures Sum(RankIfCandidate(pool), TagAll(xs, false)) == 0.0
  {
    if xs != [] {
      SumConcat(RankIfCandidate(pool), [Tagged(xs[0], false)], TagAll(xs[1..], false));
      SumOne(RankIfCandidate(pool), Tagged(xs[0], false));
      BaselineHasNoRank(xs[1..], pool);
    }
  }

  lemma {:induction false} CandidatesRank(base: seq<real>, cand: seq<real>, sorted: seq<Tagged>, xs: seq<real>)
    requires multiset(sorted) == multiset(Pooled(base, cand))
    ensures Sum(RankIfCandidate(sorted), TagAll(xs, true))
         == PairCount(base, xs) + PairCount(cand, xs) + |xs| as real / 2.0
  {
    if xs != [] {
      SumConcat(RankIfCandidate(sorted), [Tagged(xs[0], true)], TagAll(xs[1..], true));
      SumOne(RankIfCandidate(sorted), Tagged(xs[0], true));
      PooledMidRank(base, cand, sorted, xs[0]);
      CandidatesRank(base, cand, sorted, xs[1..]);
    }
  }

  /**
   Whatever order the sort leaves ties in, the rank sum less n(n+1)/2 is the
   pair count.
   */
  lemma RankSumIsPairCount(base: seq<real>, cand: seq<real>, sorted: seq<Tagged>)
    requires multiset(sorted) == multiset(Pooled(base, cand))
    ensures Sum(RankIfCandidate(sorted), sorted) - |cand| as real * (|cand| as real + 1.0) / 2.0
         == PairCount(base, cand)
  {
    SumPermuted(RankIfCandidate(sorted), sorted, Pooled(base, cand));
    SumConcat(RankIfCandidate(sorted), TagAll(base, false), TagAll(cand, true));
    BaselineHasNoRank(base, sorted);
    CandidatesRank(base, cand, sorted, cand);
    PairCountsFillTheGrid(cand, cand);
  }

  // ---------------------------------------------------------------------------
  // The p-value
  // ---------------------------------------------------------------------------

  /** The standard normal distribution function and the square root, as inputs. */
  datatype Numerics = Numerics(cdf: real -> real, sqrt: real -> real)

  ghost predicate SqrtPositive(num: Numerics) {
    forall x: real | x > 0.0 :: num.sqrt(x) > 0.0
  }

  /** The variance of the pair count under the null hypothesis. */
  function Variance(n1: real, n2: real): real {
    n1 * n2 * (n1 + n2 + 1.0) / 12.0
  }

  lemma VariancePositive(n1: real, n2: real)
    requires n1 > 0.0 && n2 > 0.0
    ensures Variance(n1, n2) > 0.0
  {
    assert n1 * n2 > 0.0;
    assert (n1 * n2) * (n1 + n2 + 1.0) > 0.0;
  }

  /** The numbers from 0 to `n`, and their squares, added up. */
  function UpTo(n: nat): nat {
    if n == 0 then 0 else UpTo(n - 1) + n
  }

  function SquaresUpTo(n: nat): nat {
    if n == 0 then 0 else SquaresUpTo(n - 1) + n * n
  }

  /** The squared distances of the numbers from 0 to `k` from half of `n`, times four. */
  function SpreadUpTo(n: nat, k: nat): int {
    (2 * k - n) * (2 * k - n) + if k == 0 then 0 else SpreadUpTo(n, k - 1)
  }

  lemma {:induction false} UpToIs(n: nat)
    ensures 2 * UpTo(n) == n * (n + 1)
  {
    if n > 0 { UpToIs(n - 1); }
  }

  lemma {:induction false} SquaresUpToIs(n: nat)
    ensures 6 * SquaresUpTo(n) == n * (n + 1) * (2 * n + 1)
  {
    if n > 0 {
      SquaresUpToIs(n - 1);
      SquaresStep(n);
    }
  }

  lemma SquaresStep(n: nat)
    ensures (n - 1) * n * (2 * n - 1) + 6 * (n * n) == n * (n + 1) * (2 * n + 1)
  {
  }

  lemma {:induction false} SpreadUpToIs(n: nat, k: nat)
    ensures SpreadUpTo(n, k) == 4 * SquaresUpTo(k) - 4 * (n * UpTo(k)) + n * n * (k + 1)
  {
    if k > 0 {
      SpreadUpToIs(n, k - 1);
      SpreadOf(n, k, UpTo(k - 1));
    }
  }

  lemma SpreadOf(n: nat, k: nat, u: nat)
    ensures (2 * k - n) * (2 * k - n) == 4 * (k * k) - 4 * (n * k) + n * n
    ensures n * (u + k) == n * u + n * k && n * n * (k + 1) == n * n * k + n * n
  {
  }

  /**
   With one baseline sample the pair count is, under the null hypothesis, each of the
   numbers from 0 to `n` equally often, and the variance is their mean squared
   distance from half of `n`.
   */
  lemma VarianceOfOneBaseline(n: nat)
    ensures 4.0 * ((n + 1) as real * Variance(1.0, n as real)) == SpreadUpTo(n, n) as real
  {
    SpreadIs(n);
    VarianceMatches(n, SpreadUpTo(n, n));
  }

  lemma SpreadIs(n: nat)
    ensures 3 * SpreadUpTo(n, n) == (n + 1) * n * (n + 2)
  {
    UpToIs(n);
    SquaresUpToIs(n);
    SpreadUpToIs(n, n);
    SpreadClosed(n, UpTo(n), SquaresUpTo(n), SpreadUpTo(n, n));
  }

  lemma VarianceMatches(n: nat, s: int)
    requires 3 * s == (n + 1) * n * (n + 2)
    ensures 4.0 * ((n + 1) as real * Variance(1.0, n as real)) == s as real
  {
    VarianceClosed(n as real);
    RealProduct(n + 1, n, n + 2);
  }

  lemma RealProduct(a: nat, b: nat, c: nat)
    ensures (a * b * c) as real == a as real * b as real * c as real
  {
    assert (a * b) as real == a as real * b as real;
  }

  lemma SpreadClosed(n: nat, u: nat, q: nat, s: int)
    requires 2 * u == n * (n + 1) && 6 * q == n * (n + 1) * (2 * n + 1) && s == 4 * q - 4 * (n * u) + n * n * (n + 1)
    ensures 3 * s == (n + 1) * n * (n + 2)
  {
    assert 12 * (n * u) == 6 * (n * (n * (n + 1)));
    assert 12 * q == 2 * (n * (n + 1) * (2 * n + 1));
  }

  lemma VarianceClosed(x: real)
    ensures 12.0 * ((x + 1.0) * Variance(1.0, x)) == (x + 1.0) * x * (x + 2.0)
  {
  }

  lemma VarianceSymmetric(n1: real, n2: real)
    ensures Variance(n1, n2) == Variance(n2, n1)
  {
  }

  function Standardized(u: real, mean: real, sd: real): real
    requires sd > 0.0
  {
    (u - mean - 0.5) / sd
  }

  /** The continuity-corrected score of a pair count `u` for given sample sizes. */
  ghost function ScoreOf(num: Numerics, n1: real, n2: real, u: real): real
    requires SqrtPositive(num) && n1 > 0.0 && n2 > 0.0
  {
    VariancePositive(n1, n2);
    Standardized(u, n1 * n2 / 2.0, num.sqrt(Variance(n1, n2)))
  }

  ghost function ZScore(num: Numerics, base: seq<real>, cand: seq<real>): real
    requires SqrtPositive(num) && base != [] && cand != []
  {
    ScoreOf(num, |base| as real, |cand| as real, PairCount(base, cand))
  }

  ghost function PValue(num: Numerics, base: seq<real>, cand: seq<real>): real
    requires SqrtPositive(num)
  {
    if base == [] || cand == [] then 1.0 else 1.0 - num.cdf(ZScore(num, base, cand))
  }

  /** The statistic of `mann_whitney_p`: sort, rank, and take off the smallest possible rank sum. */
  method CountByRanks(base: seq<real>, cand: seq<real>) returns (u: real)
    ensures u == PairCount(base, cand)
  {
    var n2 := |cand| as real;
    var all := SortPooled(Pooled(base, cand));
    var rankSum := RankLoop(all);
    RankSumIsPairCount(base, cand, all);
    u := rankSum - n2 * (n2 + 1.0) / 2.0;
  }

  /** `mann_whitney_p`: the p-value read off the pair count. */
  method MannWhitneyP(num: Numerics, base: seq<real>, cand: seq<real>) returns (p: real)
    requires SqrtPositive(num)
    ensures p == PValue(num, base, cand)
  {
    if |base| == 0 || |cand| == 0 { return 1.0; }
    var n1, n2 := |base| as real, |cand| as real;
    var u := CountByRanks(base, cand);
    VariancePositive(n1, n2);
    var mean := n1 * n2 / 2.0;
    var sd := num.sqrt(Variance(n1, n2));
    var z := Standardized(u, mean, sd);
    p := 1.0 - num.cdf(z);
  }

  /** What the argument below needs of the normal distribution function. */
  ghost predicate SymmetricCdf(num: Numerics) {
    && (forall z: real :: num.cdf(-z) == 1.0 - num.cdf(z))
    && (forall y: real, z: real | y <= z :: num.cdf(y) <= num.cdf(z))
  }

  /** Without samples on one side there is no evidence at all. */
  lemma NoSamplesNoEvidence(num: Numerics, base: seq<real>, cand: seq<real>)
    requires SqrtPositive(num) && (base == [] || cand == [])
    ensures PValue(num, base, cand) == 1.0
  {
  }

  /** A p-value is a probability when the distribution function yields probabilities. */
  lemma PValueIsProbability(num: Numerics, base: seq<real>, cand: seq<real>)
    requires SqrtPositive(num) && forall z: real :: 0.0 <= num.cdf(z) <= 1.0
    ensures 0.0 <= PValue(num, base, cand) <= 1.0
  {
  }

  /** The score changes sign half a pair above the mean. */
  lemma ScoreIsCorrected(u: real, mean: real, sd: real)
    requires sd > 0.0
    ensures Standardized(u, mean, sd) > 0.0 <==> u > mean + 0.5
    ensures Standardized(u, mean, sd) == 0.0 <==> u == mean + 0.5
  {
    var x := u - mean - 0.5;
    var q := x / sd;
    assert q * sd == x;
    if q > 0.0 { PositiveTimes(q, sd); }
    if q < 0.0 { PositiveTimes(-q, sd); }
  }

  lemma PositiveTimes(x: real, y: real)
    requires x > 0.0 && y > 0.0
    ensures x * y > 0.0 && -x * y < 0.0
  {
  }

  lemma QuotientMonotone(x: real, y: real, sd: real)
    requires sd > 0.0 && x <= y
    ensures x / sd <= y / sd
  {
  }

  lemma StandardizedMonotone(u: real, u': real, mean: real, sd: real)
    requires sd > 0.0 && u <= u'
    ensures Standardized(u, mean, sd) <= Standardized(u', mean, sd)
  {
    QuotientMonotone(u - mean - 0.5, u' - mean - 0.5, sd);
  }

  /** The more pairs a candidate wins over the baseline, that is, the slower it is, the smaller the p-value. */
  lemma SlowerIsMoreSignificant(num: Numerics, base: seq<real>, cand: seq<real>, cand': seq<real>)
    requires SqrtPositive(num) && SymmetricCdf(num) && base != [] && cand != [] && |cand| == |cand'|
    requires PairCount(base, cand) <= PairCount(base, cand')
    ensures PValue(num, base, cand') <= PValue(num, base, cand)
  {
    ScoresFollowPairs(num, base, cand, cand');
    assert num.cdf(ZScore(num, base, cand)) <= num.cdf(ZScore(num, base, cand'));
  }

  lemma ScoresFollowPairs(num: Numerics, base: seq<real>, cand: seq<real>, cand': seq<real>)
    requires SqrtPositive(num) && base != [] && cand != [] && |cand| == |cand'|
    requires PairCount(base, cand) <= PairCount(base, cand')
    ensures ZScore(num, base, cand) <= ZScore(num, base, cand')
  {
    ScoreMonotone(num, |base| as real, |cand| as real, PairCount(base, cand), PairCount(base, cand'));
  }

  lemma ScoreMonotone(num: Numerics, n1: real, n2: real, u: real, u': real)
    requires SqrtPositive(num) && n1 > 0.0 && n2 > 0.0 && u <= u'
    ensures ScoreOf(num, n1, n2, u) <= ScoreOf(num, n1, n2, u')
  {
    VariancePositive(n1, n2);
    StandardizedMonotone(u, u', n1 * n2 / 2.0, num.sqrt(Variance(n1, n2)));
  }

  lemma DivideBySd(x: real, y: real, sd: real)
    requires sd > 0.0 && x + y <= 0.0
    ensures x / sd <= -(y / sd)
  {
    assert x / sd + y / sd == (x + y) / sd;
  }

  lemma ZScoresOppose(num: Numerics, a: seq<real>, b: seq<real>)
    requires SqrtPositive(num) && a != [] && b != []
    ensures ZScore(num, a, b) <= -ZScore(num, b, a)
  {
    var n1, n2 := |a| as real, |b| as real;
    PairCountsFillTheGrid(a, b);
    VariancePositive(n1, n2);
    assert n1 * n2 == n2 * n1;
    assert Variance(n1, n2) == Variance(n2, n1);
    var x := PairCount(a, b) - n1 * n2 / 2.0 - 0.5;
    var y := PairCount(b, a) - n2 * n1 / 2.0 - 0.5;
    DivideBySd(x, y, num.sqrt(Variance(n1, n2)));
  }

  /**
   Two samples cannot both look slower than the other: the opposite p-values add
   up to at least one, so below one half at most one direction is significant.
   */
  lemma OppositePValues(num: Numerics, a: seq<real>, b: seq<real>)
    requires SqrtPositive(num) && SymmetricCdf(num)
    ensures PValue(num, a, b) + PValue(num, b, a) >= 1.0
  {
    if a != [] && b != [] {
      ZScoresOppose(num, a, b);
      var y := ZScore(num, b, a);
      assert num.cdf(ZScore(num, a, b)) <= num.cdf(-y);
      assert num.cdf(-y) == 1.0 - num.cdf(y);
    }
  }
}
