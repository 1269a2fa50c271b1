/**
 Regression detection and the commit bisection of `src/benchmark_bisect.rs`:
 the statistical judge, and the search run with it.
 */
module Bisect {
  import opened Options
  import opened RankSum
  import opened NoisySearch

  // ---------------------------------------------------------------------------
  // Median
  // ---------------------------------------------------------------------------

  ghost predicate Ascending(s: seq<real>) {
    forall i, j | 0 <= i < j < |s| :: s[i] <= s[j]
  }

  /** The first place in `s` whose entry is not below `x`. */
  function Position(s: seq<real>, x: real): (k: nat)
    ensures k <= |s|
    ensures forall i | 0 <= i < k :: s[i] < x
    ensures k < |s| ==> x <= s[k]
  {
    if s == [] || x <= s[0] then 0 else 1 + Position(s[1..], x)
  }

  function Inserted(s: seq<real>, x: real): (r: seq<real>)
    ensures |r| == |s| + 1
  {
    s[..Position(s, x)] + [x] + s[Position(s, x)..]
  }

  function Sorted(s: seq<real>): (r: seq<real>)
    ensures |r| == |s|
  {
    if s == [] then [] else Inserted(Sorted(s[1..]), s[0])
  }

  lemma InsertedAscends(s: seq<real>, x: real)
    requires Ascending(s)
    ensures Ascending(Inserted(s, x))
  {
  }

  lemma {:induction false} SortedAscends(s: seq<real>)
    ensures Ascending(Sorted(s))
  {
    if s != [] {
      SortedAscends(s[1..]);
      InsertedAscends(Sorted(s[1..]), s[0]);
    }
  }

  lemma {:induction false} SortedRearranges(s: seq<real>)
    ensures multiset(Sorted(s)) == multiset(s)
  {
    if s != [] {
      var t := Sorted(s[1..]);
      SortedRearranges(s[1..]);
      InsertedMultiset(t, Position(t, s[0]), s[0]);
      InsertedMultiset(s[1..], 0, s[0]);
      assert s[1..][..0] + [s[0]] + s[1..][0..] == s;
    }
  }

  /** The middle entry, or the mean of the two middle entries. */
  function Middle(s: seq<real>): real
    requires s != []
  {
    var n := |s|;
    if n % 2 == 1 then s[n / 2] else (s[n / 2 - 1] + s[n / 2]) / 2.0
  }

  /** `median`; the source's NaN for no samples is `None`. */
  function Median(samples: seq<real>): Option<real> {
    if samples == [] then None else Some(Middle(Sorted(samples)))
  }

  function OneIfBelow(m: real): real -> real {
    x => if x < m then 1.0 else 0.0
  }

  function OneIfAbove(m: real): real -> real {
    x => if x > m then 1.0 else 0.0
  }

  lemma {:induction false} SumAtMostLength(f: real -> real, s: seq<real>)
    requires forall x :: f(x) <= 1.0
    ensures Sum(f, s) <= |s| as real
  {
    if s != [] { SumAtMostLength(f, s[1..]); }
  }

  /** At most half the samples lie on either side of the median. */
  lemma MedianIsCentral(samples: seq<real>, m: real)
    requires Median(samples) == Some(m)
    ensures Sum(OneIfBelow(m), samples) <= |samples| as real / 2.0
    ensures Sum(OneIfAbove(m), samples) <= |samples| as real / 2.0
  {
    var s := MedianOfSome(samples, m);
    MedianOfPermuted(samples, s, m);
  }

  lemma MedianOfSome(samples: seq<real>, m: real) returns (s: seq<real>)
    requires Median(samples) == Some(m)
    ensures Ascending(s) && s != [] && multiset(samples) == multiset(s) && |samples| == |s| && m == Middle(s)
  {
    s := Sorted(samples);
    SortedAscends(samples);
    SortedRearranges(samples);
  }

  lemma MedianOfPermuted(samples: seq<real>, s: seq<real>, m: real)
    requires Ascending(s) && s != [] && multiset(samples) == multiset(s) && |samples| == |s|
    requires m == Middle(s)
    ensures Sum(OneIfBelow(m), samples) <= |samples| as real / 2.0
    ensures Sum(OneIfAbove(m), samples) <= |samples| as real / 2.0
  {
    SumPermuted(OneIfBelow(m), samples, s);
    SumPermuted(OneIfAbove(m), samples, s);
    MedianOfSorted(s, m);
  }

  lemma MedianOfSorted(s: seq<real>, m: real)
    requires Ascending(s) && s != []
    requires m == Middle(s)
    ensures Sum(OneIfBelow(m), s) <= |s| as real / 2.0
    ensures Sum(OneIfAbove(m), s) <= |s| as real / 2.0
  {
    HalfBelow(s, m);
    HalfAbove(s, m);
  }

  lemma NoneBelow(s: seq<real>, m: real)
    requires forall i | 0 <= i < |s| :: m <= s[i]
    ensures Sum(OneIfBelow(m), s) == 0.0
  {
    SumConstant(OneIfBelow(m), s, 0.0);
  }

  lemma NoneAbove(s: seq<real>, m: real)
    requires forall i | 0 <= i < |s| :: s[i] <= m
    ensures Sum(OneIfAbove(m), s) == 0.0
  {
    SumConstant(OneIfAbove(m), s, 0.0);
  }

  lemma HalfBelow(s: seq<real>, m: real)
    requires forall i | |s| / 2 <= i < |s| :: m <= s[i]
    ensures Sum(OneIfBelow(m), s) <= |s| as real / 2.0
  {
    var k := |s| / 2;
    assert s == s[..k] + s[k..];
    SumConcat(OneIfBelow(m), s[..k], s[k..]);
    SumAtMostLength(OneIfBelow(m), s[..k]);
    NoneBelow(s[k..], m);
  }

  lemma HalfAbove(s: seq<real>, m: real)
    requires forall i | 0 <= i < |s| - |s| / 2 :: s[i] <= m
    ensures Sum(OneIfAbove(m), s) <= |s| as real / 2.0
  {
    var k := |s| - |s| / 2;
    assert s == s[..k] + s[k..];
    SumConcat(OneIfAbove(m), s[..k], s[k..]);
    NoneAbove(s[..k], m);
    SumAtMostLength(OneIfAbove(m), s[k..]);
  }

  // ---------------------------------------------------------------------------
  // Detection
  // ---------------------------------------------------------------------------

  datatype Config = Config(alpha: real, minEffectPct: real, maxAttempts: nat)

  /** `effect` is `None` where the source computes a NaN. */
  datatype Comparison = Comparison(effect: Option<real>, pValue: real, confidence: real, regressed: bool)

  function Abs(x: real): real { if x < 0.0 then -x else x }

  /** The relative change between two medians. */
  function EffectBetween(base: Option<real>, cand: Option<real>): Option<real> {
    match base
    case None => Some(0.0)
    case Some(b) =>
      if b == 0.0 then Some(0.0)
      else match cand
           case None => None
           case Some(c) => Some((c - b) / Abs(b) * 100.0)
  }

  function EffectSize(base: seq<real>, cand: seq<real>): Option<real> {
    EffectBetween(Median(base), Median(cand))
  }

  /** The effect is the change of the median in percent of the baseline median, and shares its sign. */
  lemma EffectIsRelativeChange(b: real, c: real)
    requires b != 0.0
    ensures EffectBetween(Some(b), Some(c)).Some?
    ensures var e := EffectBetween(Some(b), Some(c)).value; e * Abs(b) == 100.0 * (c - b) && (e > 0.0 <==> c > b)
  {
    Percent(c - b, Abs(b));
  }

  lemma Percent(x: real, y: real)
    requires y > 0.0
    ensures (x / y * 100.0) * y == 100.0 * x && (x / y * 100.0 > 0.0 <==> x > 0.0)
  {
    var q := x / y;
    assert q * y == x;
    SameSign(q, y);
  }

  lemma SameSign(x: real, y: real)
    requires y > 0.0
    ensures x * y > 0.0 <==> x > 0.0
  {
  }

  /** Without a baseline to relate it to, a change is no effect; without a candidate there is none to speak of. */
  lemma EffectWithoutMedians(base: seq<real>, cand: seq<real>)
    ensures Median(base) == None || Median(base) == Some(0.0) ==> EffectSize(base, cand) == Some(0.0)
    ensures Median(base).Some? && Median(base) != Some(0.0) && cand == [] ==> EffectSize(base, cand) == None
  {
  }

  function Judged(cfg: Config, effect: Option<real>, p: real): Comparison {
    Comparison(effect, p, 1.0 - p, p < cfg.alpha && effect.Some? && effect.value >= cfg.minEffectPct)
  }

  ghost function Compare(num: Numerics, cfg: Config, base: seq<real>, cand: seq<real>): Comparison
    requires SqrtPositive(num)
  {
    Judged(cfg, EffectSize(base, cand), PValue(num, base, cand))
  }

  /**
   A regression is reported exactly when the p-value is below the level and the
   median has risen by at least the threshold, in percent of the baseline median.
   */
  lemma RegressedExactly(num: Numerics, cfg: Config, base: seq<real>, cand: seq<real>, b: real, c: real)
    requires SqrtPositive(num) && Median(base) == Some(b) && Median(cand) == Some(c) && b != 0.0
    ensures Compare(num, cfg, base, cand).regressed <==>
              PValue(num, base, cand) < cfg.alpha && 100.0 * (c - b) >= cfg.minEffectPct * Abs(b)
    ensures var r := Compare(num, cfg, base, cand); r.pValue == PValue(num, base, cand) && r.pValue + r.confidence == 1.0
  {
    JudgedExactly(cfg, b, c, PValue(num, base, cand));
  }

  lemma JudgedExactly(cfg: Config, b: real, c: real, p: real)
    requires b != 0.0
    ensures Judged(cfg, EffectBetween(Some(b), Some(c)), p).regressed <==>
              p < cfg.alpha && 100.0 * (c - b) >= cfg.minEffectPct * Abs(b)
  {
    EffectIsRelativeChange(b, c);
    AtLeastTimes(EffectBetween(Some(b), Some(c)).value, cfg.minEffectPct, Abs(b));
  }

  lemma AtLeastTimes(x: real, y: real, t: real)
    requires t > 0.0
    ensures x >= y <==> x * t >= y * t
  {
    SameSign(y - x, t);
    assert (y - x) * t == y * t - x * t;
  }

  method DetectRegression(num: Numerics, cfg: Config, base: seq<real>, cand: seq<real>) returns (r: Comparison)
    requires SqrtPositive(num)
    ensures r == Compare(num, cfg, base, cand)
  {
    var p := MannWhitneyP(num, base, cand);
    r := Judged(cfg, EffectSize(base, cand), p);
  }

  /**
   No two sample lists regress against each other: at a significance level of
   at most one half, a reported slowdown has exactly one direction.
   */
  lemma RegressionHasOneDirection(num: Numerics, cfg: Config, a: seq<real>, b: seq<real>)
    requires SqrtPositive(num) && SymmetricCdf(num) && cfg.alpha <= 0.5
    ensures !(Compare(num, cfg, a, b).regressed && Compare(num, cfg, b, a).regressed)
  {
    OppositePValues(num, a, b);
  }

  // ---------------------------------------------------------------------------
  // The statistical judge
  // ---------------------------------------------------------------------------

  datatype Commit = Commit(sha: string, author: string)

  /**
   The inputs of one bisection. `run(k, c)` is what the k-th benchmark run
   returns when it is made at commit `c`: any runner, whatever state it keeps
   between runs, behaves in one bisection like some such function.
   */
  datatype Setup = Setup(
    num: Numerics,
    cfg: Config,
    commits: seq<Commit>,
    good: seq<real>,
    bad: seq<real>,
    run: (nat, Commit) -> Outcomes)

  datatype Outcomes = Samples(samples: seq<real>) | Failed(reason: string)

  /** One midpoint against both known distributions; `None` when they disagree. */
  ghost function Verdict(s: Setup, samples: seq<real>): Option<bool>
    requires SqrtPositive(s.num)
  {
    var slowerThanGood := Compare(s.num, s.cfg, s.good, samples).regressed;
    var fasterThanBad := Compare(s.num, s.cfg, samples, s.bad).regressed;
    if slowerThanGood && !fasterThanBad then Some(true)
    else if !slowerThanGood && fasterThanBad then Some(false)
    else None
  }

  /** A verdict is given exactly when one of the two comparisons shows a regression and the other does not. */
  lemma VerdictExactly(s: Setup, samples: seq<real>, bad: bool)
    requires SqrtPositive(s.num)
    ensures Verdict(s, samples) == Some(bad) <==>
              && (Compare(s.num, s.cfg, s.good, samples).regressed <==> bad)
              && (Compare(s.num, s.cfg, samples, s.bad).regressed <==> !bad)
  {
  }

  /** `verdict` is the verdict of `s` on every list of samples. */
  ghost predicate VerdictBy(s: Setup, verdict: seq<real> -> Option<bool>)
    requires SqrtPositive(s.num)
  {
    forall x {:trigger Verdict(s, x)} :: verdict(x) == Verdict(s, x)
  }

  /** The fallback rule: is the median nearer to the known-bad one? */
  predicate NearerBad(s: Setup, samples: seq<real>) {
    match (Median(samples), Median(s.bad), Median(s.good))
    case (Some(m), Some(b), Some(g)) => Abs(m - b) < Abs(m - g)
    case _ => false
  }

  /** Between a faster good and a slower bad median, the fallback splits halfway. */
  lemma FallbackSplitsHalfway(s: Setup, samples: seq<real>, m: real, b: real, g: real)
    requires Median(samples) == Some(m) && Median(s.bad) == Some(b) && Median(s.good) == Some(g) && g < b
    ensures NearerBad(s, samples) <==> m > (g + b) / 2.0
  {
  }

  /** Where one of the three medians is missing, the comparison the source makes with a NaN is false. */
  lemma FallbackWithoutMedians(s: Setup, samples: seq<real>)
    requires samples == [] || s.bad == [] || s.good == []
    ensures !NearerBad(s, samples)
  {
  }

  function RunAt(s: Setup, mid: nat, call: nat): Result<seq<real>>
    requires mid < |s.commits|
  {
    match s.run(call, s.commits[mid])
    case Samples(x) => Success(x)
    case Failed(reason) => Failure(Runner(s.commits[mid].sha, reason))
  }

  ghost function TrialAt(s: Setup, verdict: seq<real> -> Option<bool>, mid: nat, call: nat): Trial
    requires mid < |s.commits|
  {
    Trial((k: nat) => RunAt(s, mid, call + k), verdict, x => NearerBad(s, x), s.cfg.maxAttempts)
  }

  function Attempts(cfg: Config): nat { if cfg.maxAttempts < 1 then 1 else cfg.maxAttempts }

  /** The two tests and the judgements of a bisection, as functions. */
  datatype Reading = Reading(verdict: seq<real> -> Option<bool>, judge: Judge)

  /** `r` reads verdicts and judgements off the inputs `s`. */
  ghost predicate Reads(r: Reading, s: Setup)
    requires SqrtPositive(s.num)
  {
    && VerdictBy(s, r.verdict)
    && forall mid: nat, call: nat {:trigger TrialAt(s, r.verdict, mid, call)} | mid < |s.commits| ::
         r.judge(mid, call) == Resample(TrialAt(s, r.verdict, mid, call), 0, [])
  }

  /** There is always such a reading. */
  ghost function ReadingOf(s: Setup): (r: Reading)
    requires SqrtPositive(s.num)
    ensures Reads(r, s)
  {
    var verdict: seq<real> -> Option<bool> := x => Verdict(s, x);
    Reading(verdict,
            (mid: nat, call: nat) =>
              if mid < |s.commits| then Resample(TrialAt(s, verdict, mid, call), 0, []) else Failure(RangeTooSmall))
  }

  lemma JudgementCost(s: Setup, r: Reading, mid: nat, call: nat)
    requires SqrtPositive(s.num) && Reads(r, s) && mid < |s.commits| && r.judge(mid, call).Success?
    ensures var j := r.judge(mid, call).value;
            1 <= j.calls <= Attempts(s.cfg) && (j.noisy || j.calls == 1)
  {
    ResampleCost(TrialAt(s, r.verdict, mid, call), 0, []);
  }

  /** Both tests of one midpoint. */
  method TestBoth(s: Setup, ghost reading: Reading, samples: seq<real>) returns (v: Option<bool>)
    requires SqrtPositive(s.num) && VerdictBy(s, reading.verdict)
    ensures v == reading.verdict(samples)
  {
    var slower := DetectRegression(s.num, s.cfg, s.good, samples);
    var faster := DetectRegression(s.num, s.cfg, samples, s.bad);
    match (slower.regressed, faster.regressed) {
      case (true, false) => v := Some(true);
      case (false, true) => v := Some(false);
      case _ => v := None;
    }
    assert v == Verdict(s, samples);
  }

  /** The inner loop: sample `mid` until the two tests agree or attempts run out. */
  method Classify(s: Setup, ghost reading: Reading, mid: nat, call: nat) returns (r: Result<Judgement>)
    requires SqrtPositive(s.num) && Reads(reading, s) && mid < |s.commits|
    ensures r == reading.judge(mid, call)
  {
    var samples, verdict, attempts := [], None, 0;
    var max := Attempts(s.cfg);
    ghost var t := TrialAt(s, reading.verdict, mid, call);
    while attempts < max
      invariant attempts <= max && verdict == None
      invariant attempts < max ==> Resample(t, 0, []) == Resample(t, attempts, samples)
      invariant attempts == max ==>
        Resample(t, 0, []) == Success(Judgement(NearerBad(s, samples), true, attempts, samples))
    {
      var out := RunAt(s, mid, call + attempts);
      if out.Failure? { return Failure(out.error); }
      samples := samples + out.value;
      attempts := attempts + 1;
      verdict := TestBoth(s, reading, samples);
      if verdict.Some? { break; }
    }
    var noisy := attempts > 1 || verdict.None?;
    var isBad := if verdict.Some? then verdict.value else NearerBad(s, samples);
    r := Success(Judgement(isBad, noisy, attempts, samples));
  }

  // ---------------------------------------------------------------------------
  // The bisection
  // ---------------------------------------------------------------------------

  datatype Evidence = Evidence(
    commit: Commit, lastGood: Commit, comparison: Comparison, benchmarkRuns: nat, noisyMidpoints: nat)

  /** The samples of the last round judged `bad`, or the initial ones. */
  function LastSamples(rounds: seq<Round>, bad: bool, initial: seq<real>): seq<real> {
    if rounds == [] then initial
    else
      var last := rounds[|rounds| - 1].judged;
      if last.bad == bad then last.samples else LastSamples(rounds[..|rounds| - 1], bad, initial)
  }

  /** The search of a bisection over N = |commits| - 1. */
  ghost function SearchOf(s: Setup, r: Reading): Result<Outcome>
    requires |s.commits| >= 2
  {
    Search(r.judge, 0, |s.commits| - 1, 0)
  }

  ghost function EvidenceOf(s: Setup, o: Outcome): Evidence
    requires SqrtPositive(s.num) && o.lo < |s.commits| && o.hi < |s.commits|
  {
    Evidence(s.commits[o.hi], s.commits[o.lo],
             Compare(s.num, s.cfg, LastSamples(o.rounds, false, s.good), LastSamples(o.rounds, true, s.bad)),
             Calls(o.rounds), Noisy(o.rounds))
  }

  /** The loop variables of the search when it stops. */
  datatype Narrowed = Narrowed(
    lo: nat, hi: nat, loSamples: seq<real>, hiSamples: seq<real>, runs: nat, noisy: nat)

  function NarrowedBy(s: Setup, o: Outcome): Narrowed {
    Narrowed(o.lo, o.hi, LastSamples(o.rounds, false, s.good), LastSamples(o.rounds, true, s.bad),
             Calls(o.rounds), Noisy(o.rounds))
  }

  /** What the rounds made so far have gathered. */
  ghost predicate Gathered(
    s: Setup, rounds: seq<Round>, loSamples: seq<real>, hiSamples: seq<real>, runs: nat, noisy: nat)
  {
    && loSamples == LastSamples(rounds, false, s.good) && hiSamples == LastSamples(rounds, true, s.bad)
    && runs == Calls(rounds) && noisy == Noisy(rounds)
  }

  lemma GatheredOnce(
    s: Setup, rounds: seq<Round>, loSamples: seq<real>, hiSamples: seq<real>, runs: nat, noisy: nat, r: Round)
    requires Gathered(s, rounds, loSamples, hiSamples, runs, noisy)
    ensures var j := r.judged;
            Gathered(s, rounds + [r], if j.bad then loSamples else j.samples, if j.bad then j.samples else hiSamples,
                     runs + j.calls, noisy + if j.noisy then 1 else 0)
  {
    RoundAdded(rounds, r);
    assert (rounds + [r])[..|rounds|] == rounds;
  }

  /** After `rounds`, the search of `whole` still has to treat the range from `lo` to `hi`. */
  ghost predicate Left(judge: Judge, whole: Result<Outcome>, rounds: seq<Round>, lo: nat, hi: nat, runs: nat) {
    lo < hi && whole == Preceded(rounds, Search(judge, lo, hi, runs))
  }

  lemma LeftOnce(
    judge: Judge, whole: Result<Outcome>, rounds: seq<Round>, lo: nat, hi: nat, runs: nat, mid: nat, j: Judgement)
    requires Left(judge, whole, rounds, lo, hi, runs) && hi - lo > 1 && mid == lo + (hi - lo) / 2
    requires judge(mid, runs) == Success(j)
    ensures var round := Round(mid, runs, j);
            if j.bad then Left(judge, whole, rounds + [round], lo, mid, runs + j.calls)
            else Left(judge, whole, rounds + [round], mid, hi, runs + j.calls)
  {
    SearchStep(judge, rounds, lo, hi, runs, j);
  }

  lemma LeftFails(
    judge: Judge, whole: Result<Outcome>, rounds: seq<Round>, lo: nat, hi: nat, runs: nat, mid: nat, e: BisectError)
    requires Left(judge, whole, rounds, lo, hi, runs) && hi - lo > 1 && mid == lo + (hi - lo) / 2
    requires judge(mid, runs) == Failure(e)
    ensures whole == Failure(e)
  {
  }

  lemma LeftNothing(judge: Judge, whole: Result<Outcome>, rounds: seq<Round>, lo: nat, hi: nat, runs: nat)
    requires Left(judge, whole, rounds, lo, hi, runs) && hi - lo <= 1
    ensures whole == Success(Outcome(lo, hi, rounds))
  {
    assert rounds + [] == rounds;
  }

  /** After `rounds` the loop variables are `n`, and the search of `whole` still has to treat their range. */
  ghost predicate Narrowing(s: Setup, judge: Judge, whole: Result<Outcome>, rounds: seq<Round>, n: Narrowed) {
    && n.lo < n.hi < |s.commits| && Left(judge, whole, rounds, n.lo, n.hi, n.runs)
    && Gathered(s, rounds, n.loSamples, n.hiSamples, n.runs, n.noisy)
  }

  /** The loop variables after a round. */
  function NarrowedOnce(n: Narrowed, mid: nat, j: Judgement): Narrowed {
    var noisy := n.noisy + if j.noisy then 1 else 0;
    if j.bad then Narrowed(n.lo, mid, n.loSamples, j.samples, n.runs + j.calls, noisy)
    else Narrowed(mid, n.hi, j.samples, n.hiSamples, n.runs + j.calls, noisy)
  }

  lemma NarrowingOnce(
    s: Setup, judge: Judge, whole: Result<Outcome>, rounds: seq<Round>, n: Narrowed, mid: nat, j: Judgement)
    requires Narrowing(s, judge, whole, rounds, n) && n.hi - n.lo > 1 && mid == n.lo + (n.hi - n.lo) / 2
    requires judge(mid, n.runs) == Success(j)
    ensures Narrowing(s, judge, whole, rounds + [Round(mid, n.runs, j)], NarrowedOnce(n, mid, j))
  {
    LeftOnce(judge, whole, rounds, n.lo, n.hi, n.runs, mid, j);
    GatheredOnce(s, rounds, n.loSamples, n.hiSamples, n.runs, n.noisy, Round(mid, n.runs, j));
  }

  lemma NarrowingFails(
    s: Setup, judge: Judge, whole: Result<Outcome>, rounds: seq<Round>, n: Narrowed, mid: nat, e: BisectError)
    requires Narrowing(s, judge, whole, rounds, n) && n.hi - n.lo > 1 && mid == n.lo + (n.hi - n.lo) / 2
    requires judge(mid, n.runs) == Failure(e)
    ensures whole == Failure(e)
  {
    LeftFails(judge, whole, rounds, n.lo, n.hi, n.runs, mid, e);
  }

  lemma NarrowingEnds(s: Setup, judge: Judge, whole: Result<Outcome>, rounds: seq<Round>, n: Narrowed)
    requires Narrowing(s, judge, whole, rounds, n) && n.hi - n.lo <= 1
    ensures whole == Success(Outcome(n.lo, n.hi, rounds)) && n == NarrowedBy(s, whole.value)
  {
    LeftNothing(judge, whole, rounds, n.lo, n.hi, n.runs);
  }

  lemma NarrowingStarts(s: Setup, judge: Judge)
    requires |s.commits| >= 2
    ensures Narrowing(s, judge, Search(judge, 0, |s.commits| - 1, 0), [],
                      Narrowed(0, |s.commits| - 1, s.good, s.bad, 0, 0))
  {
    PrecededByNothing(Search(judge, 0, |s.commits| - 1, 0));
  }

  /** What the search loop leaves, given what the specification found. */
  ghost predicate NarrowsTo(s: Setup, whole: Result<Outcome>, r: Result<Narrowed>) {
    match whole
    case Failure(e) => r == Failure(e)
    case Success(o) => o.lo < |s.commits| && o.hi < |s.commits| && r == Success(NarrowedBy(s, o))
  }

  /** The binary search of `bisect` with its counters and sample buffers. */
  method Narrow(s: Setup, ghost reading: Reading) returns (r: Result<Narrowed>)
    requires SqrtPositive(s.num) && Reads(reading, s) && |s.commits| >= 2
    ensures NarrowsTo(s, Search(reading.judge, 0, |s.commits| - 1, 0), r)
  {
    var n := Narrowed(0, |s.commits| - 1, s.good, s.bad, 0, 0);
    ghost var whole, rounds: seq<Round> := Search(reading.judge, 0, |s.commits| - 1, 0), [];
    NarrowingStarts(s, reading.judge);
    while n.hi - n.lo > 1
      invariant Narrowing(s, reading.judge, whole, rounds, n)
      decreases n.hi - n.lo
    {
      var mid := n.lo + (n.hi - n.lo) / 2;
      var judged := Classify(s, reading, mid, n.runs);
      if judged.Failure? {
        NarrowingFails(s, reading.judge, whole, rounds, n, mid, judged.error);
        return Failure(judged.error);
      }
      var j := judged.value;
      NarrowingOnce(s, reading.judge, whole, rounds, n, mid, j);
      rounds := rounds + [Round(mid, n.runs, j)];
      var noisy := if j.noisy then n.noisy + 1 else n.noisy;
      if j.bad {
        n := Narrowed(n.lo, mid, n.loSamples, j.samples, n.runs + j.calls, noisy);
      } else {
        n := Narrowed(mid, n.hi, j.samples, n.hiSamples, n.runs + j.calls, noisy);
      }
    }
    NarrowingEnds(s, reading.judge, whole, rounds, n);
    r := Success(n);
  }

  lemma PrecededByNothing(r: Result<Outcome>)
    ensures Preceded([], r) == r
  {
    if r.Success? { assert [] + r.value.rounds == r.value.rounds; }
  }

  // ---------------------------------------------------------------------------
  // What the evidence means
  // ---------------------------------------------------------------------------

  /** A round judged commit `c` so, on the samples `x`. */
  ghost predicate RoundMeasured(rounds: seq<Round>, c: nat, bad: bool, x: seq<real>) {
    exists k | 0 <= k < |rounds| ::
      rounds[k].mid == c && rounds[k].judged.bad == bad && rounds[k].judged.samples == x
  }

  /** `x` are samples of commit `c`: the given ones if it ends the range, or those of a round that judged it so. */
  ghost predicate MeasuredFor(rounds: seq<Round>, c: nat, bad: bool, end: nat, given: seq<real>, x: seq<real>) {
    (c == end && x == given) || RoundMeasured(rounds, c, bad, x)
  }

  lemma {:induction false} LastSamplesCons(round: Round, rounds: seq<Round>, bad: bool, initial: seq<real>)
    ensures LastSamples([round] + rounds, bad, initial)
         == LastSamples(rounds, bad, if round.judged.bad == bad then round.judged.samples else initial)
  {
    var all := [round] + rounds;
    if rounds == [] {
      assert all == [round] && all[..0] == [];
    } else {
      assert all[..|all| - 1] == [round] + rounds[..|rounds| - 1];
      LastSamplesCons(round, rounds[..|rounds| - 1], bad, initial);
    }
  }

  lemma MeasuredFirst(round: Round, rounds: seq<Round>)
    ensures RoundMeasured([round] + rounds, round.mid, round.judged.bad, round.judged.samples)
  {
    assert ([round] + rounds)[0] == round;
  }

  lemma MeasuredLater(round: Round, rounds: seq<Round>, c: nat, bad: bool, x: seq<real>)
    requires RoundMeasured(rounds, c, bad, x)
    ensures RoundMeasured([round] + rounds, c, bad, x)
  {
    var k :| 0 <= k < |rounds| && rounds[k].mid == c && rounds[k].judged.bad == bad && rounds[k].judged.samples == x;
    assert ([round] + rounds)[k + 1] == rounds[k];
  }

  /** A round that set the end of the range aside, or left it alone, comes before the others. */
  lemma MeasuredBefore(
    round: Round, rounds: seq<Round>, c: nat, bad: bool, end': nat, given': seq<real>, end: nat, given: seq<real>,
    x: seq<real>)
    requires MeasuredFor(rounds, c, bad, end', given', x)
    requires (end', given') == if round.judged.bad == bad then (round.mid, round.judged.samples) else (end, given)
    ensures MeasuredFor([round] + rounds, c, bad, end, given, x)
  {
    MeasuredFirst(round, rounds);
    if RoundMeasured(rounds, c, bad, x) { MeasuredLater(round, rounds, c, bad, x); }
  }

  /** The buffers of the search hold what was measured at the commits it ends on. */
  lemma {:induction false} SamplesOfTheAnswer(
    judge: Judge, lo: nat, hi: nat, call: nat, good: seq<real>, bad: seq<real>)
    requires lo < hi && Search(judge, lo, hi, call).Success?
    ensures var o := Search(judge, lo, hi, call).value;
            && MeasuredFor(o.rounds, o.lo, false, lo, good, LastSamples(o.rounds, false, good))
            && MeasuredFor(o.rounds, o.hi, true, hi, bad, LastSamples(o.rounds, true, bad))
    decreases hi - lo
  {
    if hi - lo > 1 {
      var round, a, b := FirstRound(judge, lo, hi, call);
      var j := round.judged;
      var good', bad' := if j.bad then good else j.samples, if j.bad then j.samples else bad;
      SamplesOfTheAnswer(judge, a, b, call + j.calls, good', bad');
      var o := Search(judge, a, b, call + j.calls).value;
      LastSamplesCons(round, o.rounds, false, good);
      LastSamplesCons(round, o.rounds, true, bad);
      MeasuredBefore(round, o.rounds, o.lo, false, a, good', lo, good, LastSamples(o.rounds, false, good'));
      MeasuredBefore(round, o.rounds, o.hi, true, b, bad', hi, bad, LastSamples(o.rounds, true, bad'));
    }
  }

  /**
   `e` names neighbours: commit `i`, which starts the range or was judged good, and
   its successor, which ends the range or was judged bad. It compares the samples
   measured for the one with those measured for the other, and counts the runs and
   the noisy rounds that were made.
   */
  ghost predicate Blames(s: Setup, rounds: seq<Round>, e: Evidence, i: nat, x: seq<real>, y: seq<real>)
    requires SqrtPositive(s.num)
  {
    && i + 1 < |s.commits| && e.lastGood == s.commits[i] && e.commit == s.commits[i + 1]
    && MeasuredFor(rounds, i, false, 0, s.good, x)
    && MeasuredFor(rounds, i + 1, true, |s.commits| - 1, s.bad, y)
    && e.comparison == Compare(s.num, s.cfg, x, y)
    && e.benchmarkRuns == Calls(rounds) && e.noisyMidpoints == Noisy(rounds)
  }

  lemma EvidenceBlames(s: Setup, reading: Reading) returns (i: nat, x: seq<real>, y: seq<real>)
    requires SqrtPositive(s.num) && |s.commits| >= 2 && SearchOf(s, reading).Success?
    ensures var o := SearchOf(s, reading).value;
            && o.lo < |s.commits| && o.hi < |s.commits|
            && Blames(s, o.rounds, EvidenceOf(s, o), i, x, y) && Genuine(reading.judge, o.rounds)
  {
    var n := |s.commits| - 1;
    var o := SearchOf(s, reading).value;
    SearchEndsAdjacent(reading.judge, 0, n, 0);
    SearchIsGenuine(reading.judge, 0, n, 0);
    SamplesOfTheAnswer(reading.judge, 0, n, 0, s.good, s.bad);
    i, x, y := o.lo, LastSamples(o.rounds, false, s.good), LastSamples(o.rounds, true, s.bad);
  }

  /** When every verdict follows one threshold, the evidence names exactly the commits on its two sides. */
  ghost predicate BlamesThreshold(s: Setup, reading: Reading, e: Evidence) {
    forall t: nat | FollowsThreshold(s, reading, t) :: e.commit == s.commits[t] && e.lastGood == s.commits[t - 1]
  }

  ghost predicate FollowsThreshold(s: Setup, reading: Reading, t: nat) {
    0 < t < |s.commits| && Threshold(reading.judge, 0, |s.commits| - 1, t)
  }

  lemma EvidenceAtThreshold(s: Setup, o: Outcome, e: Evidence, t: nat)
    requires SqrtPositive(s.num) && 0 < t < |s.commits| && o.hi == t && o.lo == t - 1 && e == EvidenceOf(s, o)
    ensures e.commit == s.commits[t] && e.lastGood == s.commits[t - 1]
  {
  }

  lemma EvidenceBlamesThreshold(s: Setup, reading: Reading, o: Outcome, e: Evidence)
    requires SqrtPositive(s.num) && |s.commits| >= 2 && SearchOf(s, reading) == Success(o)
    requires o.lo < |s.commits| && o.hi < |s.commits| && e == EvidenceOf(s, o)
    ensures BlamesThreshold(s, reading, e)
  {
    forall t: nat | FollowsThreshold(s, reading, t) ensures e.commit == s.commits[t] && e.lastGood == s.commits[t - 1] {
      SearchFindsThreshold(reading.judge, 0, |s.commits| - 1, 0, t);
      EvidenceAtThreshold(s, o, e, t);
    }
  }

  /** Some run of the benchmark, made at commit `mid`, failed with the reason that `e` gives. */
  ghost predicate RunFailed(s: Setup, e: BisectError, mid: nat) {
    && e.Runner? && 0 < mid < |s.commits| && e.sha == s.commits[mid].sha
    && exists k: nat :: s.run(k, s.commits[mid]) == Failed(e.reason)
  }

  lemma {:induction false} ResampleFailure(t: Trial, attempts: nat, samples: seq<real>) returns (k: nat)
    requires attempts < t.Attempts() && Resample(t, attempts, samples).Failure?
    ensures t.run(k) == Failure(Resample(t, attempts, samples).error)
    decreases t.Attempts() - attempts
  {
    if t.run(attempts).Failure? {
      k := attempts;
    } else {
      k := ResampleFailure(t, attempts + 1, samples + t.run(attempts).value);
    }
  }

  lemma JudgeFailure(s: Setup, r: Reading, mid: nat, call: nat)
    requires SqrtPositive(s.num) && Reads(r, s) && 0 < mid < |s.commits| && r.judge(mid, call).Failure?
    ensures RunFailed(s, r.judge(mid, call).error, mid)
  {
    var t := TrialAt(s, r.verdict, mid, call);
    var k := ResampleFailure(t, 0, []);
    assert t.run(k) == RunAt(s, mid, call + k);
    assert s.run(call + k, s.commits[mid]).Failed?;
  }

  /** A search that fails does so with the error of a judgement inside its range. */
  lemma {:induction false} SearchFailure(judge: Judge, lo: nat, hi: nat, call: nat) returns (mid: nat, at: nat)
    requires lo < hi && Search(judge, lo, hi, call).Failure?
    ensures lo < mid < hi && judge(mid, at) == Failure(Search(judge, lo, hi, call).error)
    decreases hi - lo
  {
    mid, at := lo + (hi - lo) / 2, call;
    if judge(mid, call).Success? {
      var j := judge(mid, call).value;
      if j.bad {
        mid, at := SearchFailure(judge, lo, mid, call + j.calls);
      } else {
        mid, at := SearchFailure(judge, mid, hi, call + j.calls);
      }
    }
  }

  lemma BisectionFailure(s: Setup, r: Reading) returns (mid: nat)
    requires SqrtPositive(s.num) && Reads(r, s) && |s.commits| >= 2 && SearchOf(s, r).Failure?
    ensures RunFailed(s, SearchOf(s, r).error, mid)
  {
    var at;
    mid, at := SearchFailure(r.judge, 0, |s.commits| - 1, 0);
    JudgeFailure(s, r, mid, at);
  }

  /** `bisect`: the range and regression checks, the search, and its evidence. */
  method Bisection(s: Setup, ghost reading: Reading) returns (r: Result<Evidence>)
    requires SqrtPositive(s.num) && Reads(reading, s)
    ensures |s.commits| < 2 ==> r == Failure(RangeTooSmall)
    ensures |s.commits| >= 2 && !Compare(s.num, s.cfg, s.good, s.bad).regressed ==> r == Failure(NoRegression)
    ensures |s.commits| >= 2 && Compare(s.num, s.cfg, s.good, s.bad).regressed ==>
              match Search(reading.judge, 0, |s.commits| - 1, 0)
              case Failure(e) => r == Failure(e)
              case Success(o) => o.lo < |s.commits| && o.hi < |s.commits| && r == Success(EvidenceOf(s, o))
    ensures r.Failure? ==>
              r.error == RangeTooSmall || r.error == NoRegression || exists mid :: RunFailed(s, r.error, mid)
    ensures r.Success? ==>
              && |s.commits| >= 2 && SearchOf(s, reading).Success? && BlamesThreshold(s, reading, r.value)
              && Genuine(reading.judge, SearchOf(s, reading).value.rounds)
              && exists i, x, y :: Blames(s, SearchOf(s, reading).value.rounds, r.value, i, x, y)
  {
    if |s.commits| < 2 { return Failure(RangeTooSmall); }
    var known := DetectRegression(s.num, s.cfg, s.good, s.bad);
    if !known.regressed { return Failure(NoRegression); }
    var narrowed := Narrow(s, reading);
    if narrowed.Failure? {
      ghost var mid := BisectionFailure(s, reading);
      return Failure(narrowed.error);
    }
    var n := narrowed.value;
    var comparison := DetectRegression(s.num, s.cfg, n.loSamples, n.hiSamples);
    r := Success(Evidence(s.commits[n.hi], s.commits[n.lo], comparison, n.runs, n.noisy));
    ghost var i, x, y := EvidenceBlames(s, reading);
    EvidenceBlamesThreshold(s, reading, SearchOf(s, reading).value, r.value);
  }

  /** The run budget of a bisection over N = |commits| - 1 candidate commits. */
  lemma BisectionRunBudget(s: Setup, reading: Reading)
    requires SqrtPositive(s.num) && Reads(reading, s) && |s.commits| >= 2
    requires Search(reading.judge, 0, |s.commits| - 1, 0).Success?
    ensures var rounds := Search(reading.judge, 0, |s.commits| - 1, 0).value.rounds;
            var n := |s.commits| - 1;
            && FloorLog2(n) <= Calls(rounds) <= Attempts(s.cfg) * CeilLog2(n)
            && (Noisy(rounds) == 0 ==> Calls(rounds) == |rounds| <= CeilLog2(n))
  {
    forall mid: nat, call: nat | mid < |s.commits| - 1 && reading.judge(mid, call).Success?
      ensures var j := reading.judge(mid, call).value;
              1 <= j.calls <= Attempts(s.cfg) && (j.noisy || j.calls == 1)
    {
      JudgementCost(s, reading, mid, call);
    }
    SearchRunBudget(reading.judge, 0, |s.commits| - 1, 0, Attempts(s.cfg));
  }

  // ---------------------------------------------------------------------------
  // The documented count
  // ---------------------------------------------------------------------------

  /** Two distributions that `bisect` accepts, at a level and under a distribution function that make sense. */
  ghost predicate Regressing(s: Setup) {
    && SqrtPositive(s.num) && SymmetricCdf(s.num) && s.cfg.alpha <= 0.5
    && |s.commits| >= 2 && Compare(s.num, s.cfg, s.good, s.bad).regressed
  }

  /** Every run, at whatever commit, returns the samples `x`. */
  ghost predicate RunsAlways(s: Setup, x: seq<real>) {
    forall k: nat, c: Commit :: s.run(k, c) == Samples(x)
  }

  /** The known distributions are judged as what they are. */
  lemma KnownAreRecognised(s: Setup)
    requires Regressing(s)
    ensures Verdict(s, s.bad) == Some(true) && Verdict(s, s.good) == Some(false)
  {
    RegressionHasOneDirection(s.num, s.cfg, s.bad, s.bad);
    RegressionHasOneDirection(s.num, s.cfg, s.good, s.good);
  }

  function Known(s: Setup, bad: bool): seq<real> {
    if bad then s.bad else s.good
  }

  /** A runner that always measures one of them has every commit judged so, at its first run. */
  lemma JudgedAtOnce(s: Setup, r: Reading, bad: bool, mid: nat, call: nat)
    requires Regressing(s) && RunsAlways(s, Known(s, bad)) && Reads(r, s) && mid < |s.commits|
    ensures r.judge(mid, call) == Success(Judgement(bad, false, 1, Known(s, bad)))
  {
    KnownAreRecognised(s);
    var t, x := TrialAt(s, r.verdict, mid, call), Known(s, bad);
    assert t.run(0) == RunAt(s, mid, call) == Success(x);
    assert [] + x == x && t.verdict(x) == Verdict(s, x);
  }

  /** No midpoint was noisy. */
  ghost predicate CleanlySearched(s: Setup, r: Reading) {
    && |s.commits| >= 2 && SqrtPositive(s.num) && Reads(r, s)
    && SearchOf(s, r).Success? && Noisy(SearchOf(s, r).value.rounds) == 0
  }

  /** So its bisection is clean, and takes floor(log2 N) runs if all is bad and ceil(log2 N) if all is good. */
  lemma SteadyRunsReachBounds(s: Setup, r: Reading, bad: bool)
    requires Regressing(s) && RunsAlways(s, Known(s, bad)) && Reads(r, s)
    ensures CleanlySearched(s, r)
    ensures Calls(SearchOf(s, r).value.rounds)
         == if bad then FloorLog2(|s.commits| - 1) else CeilLog2(|s.commits| - 1)
  {
    var n := |s.commits| - 1;
    SteadyIsClean(s, r, bad, n);
    CleanBounds(r.judge, n, bad);
  }

  lemma SteadyIsClean(s: Setup, r: Reading, bad: bool, n: nat)
    requires Regressing(s) && RunsAlways(s, Known(s, bad)) && Reads(r, s) && n < |s.commits|
    ensures Clean(r.judge, n) && Unanimous(r.judge, 0, n, bad)
  {
    forall mid: nat, call: nat | mid < n ensures r.judge(mid, call) == Success(Judgement(bad, false, 1, Known(s, bad))) {
      JudgedAtOnce(s, r, bad, mid, call);
    }
  }

  /** Whatever the runner, a bisection without noise takes the documented number of runs. */
  ghost predicate DocumentedCount(s: Setup)
    requires |s.commits| >= 2
  {
    forall run: (nat, Commit) -> Outcomes, r: Reading | CleanlySearched(s.(run := run), r) ::
      Calls(SearchOf(s.(run := run), r).value.rounds) == CeilLog2(|s.commits| - 1)
  }

  lemma CountFailsAt(s: Setup, run: (nat, Commit) -> Outcomes, r: Reading)
    requires |s.commits| >= 2 && CleanlySearched(s.(run := run), r)
    requires Calls(SearchOf(s.(run := run), r).value.rounds) != CeilLog2(|s.commits| - 1)
    ensures !DocumentedCount(s)
  {
  }

  lemma CleanTakesCeil(s: Setup, r: Reading)
    requires CleanlySearched(s, r) && |s.commits| - 1 == Pow2(FloorLog2(|s.commits| - 1))
    ensures Calls(SearchOf(s, r).value.rounds) == CeilLog2(|s.commits| - 1)
  {
    var n := |s.commits| - 1;
    LogsAgreeExactly(n);
    BisectionRunBudget(s, r);
    RoundCount(r.judge, 0, n, 0);
  }

  /**
   For any two distributions that `bisect` accepts and any commits, the documented
   "exactly ceil(log2(N)) benchmark runs" without noise holds for every runner if
   and only if N is a power of two. Otherwise the runner that always measures the
   bad distribution makes one run less.
   */
  lemma DocumentedBisectionCount(s: Setup)
    requires Regressing(s)
    ensures DocumentedCount(s) <==> |s.commits| - 1 == Pow2(FloorLog2(|s.commits| - 1))
  {
    if |s.commits| - 1 == Pow2(FloorLog2(|s.commits| - 1)) {
      CountHolds(s);
    } else {
      CountFails(s);
    }
  }

  lemma CountHolds(s: Setup)
    requires |s.commits| >= 2 && |s.commits| - 1 == Pow2(FloorLog2(|s.commits| - 1))
    ensures DocumentedCount(s)
  {
    forall run: (nat, Commit) -> Outcomes, r: Reading | CleanlySearched(s.(run := run), r)
      ensures Calls(SearchOf(s.(run := run), r).value.rounds) == CeilLog2(|s.commits| - 1)
    {
      CleanTakesCeil(s.(run := run), r);
    }
  }

  lemma CountFails(s: Setup)
    requires Regressing(s) && |s.commits| - 1 != Pow2(FloorLog2(|s.commits| - 1))
    ensures !DocumentedCount(s)
  {
    var run: (nat, Commit) -> Outcomes := (k: nat, c: Commit) => Samples(s.bad);
    var t := s.(run := run);
    var r := ReadingOf(t);
    BadRunsFallShort(t, r);
    CountFailsAt(s, run, r);
  }

  lemma BadRunsFallShort(t: Setup, r: Reading)
    requires Regressing(t) && RunsAlways(t, Known(t, true)) && Reads(r, t)
    requires |t.commits| - 1 != Pow2(FloorLog2(|t.commits| - 1))
    ensures CleanlySearched(t, r) && Calls(SearchOf(t, r).value.rounds) != CeilLog2(|t.commits| - 1)
  {
    SteadyRunsReachBounds(t, r, true);
    FloorIsNotCeil(|t.commits| - 1);
  }

  lemma FloorIsNotCeil(n: nat)
    requires n > 0 && n != Pow2(FloorLog2(n))
    ensures FloorLog2(n) != CeilLog2(n)
  {
    LogsAgreeExactly(n);
  }
}
