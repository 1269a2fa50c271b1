/**
 The control structure of `bisect` in `src/benchmark_bisect.rs`: a binary search
 whose midpoints are judged by repeated sampling. The judge is a parameter here;
 `Bisect` supplies the statistical one.
 */
module NoisySearch {
  import opened Options

  datatype Result<+T> = Success(value: T) | Failure(error: BisectError)

  datatype BisectError = RangeTooSmall | NoRegression | Runner(sha: string, reason: string)

  // ---------------------------------------------------------------------------
  // One midpoint
  // ---------------------------------------------------------------------------

  /**
   Sampling at one commit: `run(k)` is the outcome of the k-th benchmark run,
   `verdict` compares the samples so far with both known distributions, and
   `fallback` decides when attempts run out.
   */
  datatype Trial = Trial(
    run: nat -> Result<seq<real>>,
    verdict: seq<real> -> Option<bool>,
    fallback: seq<real> -> bool,
    maxAttempts: nat)
  {
    function Attempts(): nat { if maxAttempts < 1 then 1 else maxAttempts }
  }

  /** What one midpoint was judged, and what the judgement cost. */
  datatype Judgement = Judgement(bad: bool, noisy: bool, calls: nat, samples: seq<real>)

  /** The re-sampling loop from its `attempts`-th attempt on. */
  function Resample(t: Trial, attempts: nat, samples: seq<real>): Result<Judgement>
    requires attempts < t.Attempts()
    decreases t.Attempts() - attempts
  {
    match t.run(attempts)
    case Failure(e) => Failure(e)
    case Success(more) =>
      var all := samples + more;
      match t.verdict(all)
      case Some(isBad) => Success(Judgement(isBad, attempts > 0, attempts + 1, all))
      case None =>
        if attempts + 1 < t.Attempts() then Resample(t, attempts + 1, all)
        else Success(Judgement(t.fallback(all), true, attempts + 1, all))
  }

  lemma {:induction false} ResampleCost(t: Trial, attempts: nat, samples: seq<real>)
    requires attempts < t.Attempts() && Resample(t, attempts, samples).Success?
    ensures var j := Resample(t, attempts, samples).value;
            && attempts < j.calls <= t.Attempts() && (j.noisy || j.calls == 1)
            && (j.calls <= t.maxAttempts || j.calls == 1)
    decreases t.Attempts() - attempts
  {
    var all := samples + t.run(attempts).value;
    if t.verdict(all).None? && attempts + 1 < t.Attempts() {
      ResampleCost(t, attempts + 1, all);
    }
  }

  /** Without any verdict every attempt is made, at least one, and the fallback decides on all samples. */
  lemma {:induction false} ResampleExhausts(t: Trial, attempts: nat, samples: seq<real>)
    requires attempts < t.Attempts() && Resample(t, attempts, samples).Success?
    requires forall x :: t.verdict(x) == None
    ensures var j := Resample(t, attempts, samples).value;
            && (t.maxAttempts > 1 ==> j.calls == t.maxAttempts) && (t.maxAttempts <= 1 ==> j.calls == 1)
            && j.noisy && j.bad == t.fallback(j.samples)
    decreases t.Attempts() - attempts
  {
    if attempts + 1 < t.Attempts() { ResampleExhausts(t, attempts + 1, samples + t.run(attempts).value); }
  }

  // ---------------------------------------------------------------------------
  // The search
  // ---------------------------------------------------------------------------

  datatype Round = Round(mid: nat, call: nat, judged: Judgement)

  datatype Outcome = Outcome(lo: nat, hi: nat, rounds: seq<Round>)

  /** `judge(mid, call)`: the judgement of commit `mid` when reached at run `call`. */
  type Judge = (nat, nat) -> Result<Judgement>

  function Preceded(rounds: seq<Round>, r: Result<Outcome>): Result<Outcome> {
    match r
    case Success(o) => Success(o.(rounds := rounds + o.rounds))
    case Failure(e) => Failure(e)
  }

  /** The rounds of a search over the open range (lo, hi) from run `call` on. */
  function Search(judge: Judge, lo: nat, hi: nat, call: nat): Result<Outcome>
    requires lo < hi
    decreases hi - lo
  {
    if hi - lo <= 1 then Success(Outcome(lo, hi, []))
    else
      var mid := lo + (hi - lo) / 2;
      match judge(mid, call)
      case Failure(e) => Failure(e)
      case Success(j) =>
        Preceded([Round(mid, call, j)],
                 if j.bad then Search(judge, lo, mid, call + j.calls) else Search(judge, mid, hi, call + j.calls))
  }

  lemma PrecededTwice(rounds: seq<Round>, round: Round, r: Result<Outcome>)
    ensures Preceded(rounds, Preceded([round], r)) == Preceded(rounds + [round], r)
  {
    if r.Success? {
      assert rounds + ([round] + r.value.rounds) == rounds + [round] + r.value.rounds;
    }
  }

  /** One turn of the search loop moves a round from the rest to the front. */
  lemma SearchStep(judge: Judge, rounds: seq<Round>, lo: nat, hi: nat, call: nat, j: Judgement)
    requires hi - lo > 1 && judge(lo + (hi - lo) / 2, call) == Success(j)
    ensures Preceded(rounds, Search(judge, lo, hi, call))
         == Preceded(rounds + [Round(lo + (hi - lo) / 2, call, j)],
                     if j.bad then Search(judge, lo, lo + (hi - lo) / 2, call + j.calls)
                     else Search(judge, lo + (hi - lo) / 2, hi, call + j.calls))
  {
    var mid := lo + (hi - lo) / 2;
    PrecededTwice(rounds, Round(mid, call, j),
                  if j.bad then Search(judge, lo, mid, call + j.calls) else Search(judge, mid, hi, call + j.calls));
  }

  // ---------------------------------------------------------------------------
  // What the search finds
  // ---------------------------------------------------------------------------

  ghost predicate Genuine(judge: Judge, rounds: seq<Round>) {
    forall r | r in rounds :: judge(r.mid, r.call) == Success(r.judged)
  }

  ghost predicate JudgedAt(rounds: seq<Round>, c: nat, bad: bool) {
    exists k | 0 <= k < |rounds| :: rounds[k].mid == c && rounds[k].judged.bad == bad
  }

  lemma JudgedLater(round: Round, rounds: seq<Round>, c: nat, bad: bool)
    ensures JudgedAt(rounds, c, bad) ==> JudgedAt([round] + rounds, c, bad)
    ensures round.mid == c && round.judged.bad == bad ==> JudgedAt([round] + rounds, c, bad)
  {
    var all := [round] + rounds;
    if JudgedAt(rounds, c, bad) {
      var k :| 0 <= k < |rounds| && rounds[k].mid == c && rounds[k].judged.bad == bad;
      assert all[k + 1] == rounds[k];
    }
    if round.mid == c && round.judged.bad == bad {
      assert all[0] == round;
    }
  }

  /** For any runner that does not fail, the search ends on adjacent commits of the range. */
  lemma {:induction false} SearchEndsAdjacent(judge: Judge, lo: nat, hi: nat, call: nat)
    requires lo < hi && Search(judge, lo, hi, call).Success?
    ensures var o := Search(judge, lo, hi, call).value;
            lo <= o.lo && o.hi == o.lo + 1 && o.hi <= hi
    decreases hi - lo
  {
    if hi - lo > 1 {
      var mid := lo + (hi - lo) / 2;
      var j := judge(mid, call).value;
      if j.bad {
        SearchEndsAdjacent(judge, lo, mid, call + j.calls);
      } else {
        SearchEndsAdjacent(judge, mid, hi, call + j.calls);
      }
    }
  }

  /**
   The older commit of the answer is the first one or was judged good, the newer
   one is the last one or was judged bad.
   */
  lemma {:induction false} SearchAnswerWasJudged(judge: Judge, lo: nat, hi: nat, call: nat)
    requires lo < hi && Search(judge, lo, hi, call).Success?
    ensures var o := Search(judge, lo, hi, call).value;
            && (o.lo == lo || JudgedAt(o.rounds, o.lo, false))
            && (o.hi == hi || JudgedAt(o.rounds, o.hi, true))
    decreases hi - lo
  {
    if hi - lo > 1 {
      var mid := lo + (hi - lo) / 2;
      var j := judge(mid, call).value;
      var a, b := if j.bad then lo else mid, if j.bad then mid else hi;
      SearchAnswerWasJudged(judge, a, b, call + j.calls);
      var rest := Search(judge, a, b, call + j.calls).value;
      JudgedLater(Round(mid, call, j), rest.rounds, rest.lo, false);
      JudgedLater(Round(mid, call, j), rest.rounds, rest.hi, true);
    }
  }

  /** The first round of a search that does not fail, and the search it leaves. */
  lemma FirstRound(judge: Judge, lo: nat, hi: nat, call: nat) returns (round: Round, a: nat, b: nat)
    requires hi - lo > 1 && Search(judge, lo, hi, call).Success?
    ensures round.mid == lo + (hi - lo) / 2 && round.call == call && judge(round.mid, call) == Success(round.judged)
    ensures lo <= a < b <= hi && (a, b) == if round.judged.bad then (lo, round.mid) else (round.mid, hi)
    ensures var rest := Search(judge, a, b, call + round.judged.calls);
            && rest.Success? && Search(judge, lo, hi, call).value.rounds == [round] + rest.value.rounds
            && Search(judge, lo, hi, call).value.lo == rest.value.lo && Search(judge, lo, hi, call).value.hi == rest.value.hi
  {
    var mid := lo + (hi - lo) / 2;
    round := Round(mid, call, judge(mid, call).value);
    a, b := if round.judged.bad then lo else mid, if round.judged.bad then mid else hi;
  }

  /** Every recorded judgement is the judge's. */
  lemma {:induction false} SearchIsGenuine(judge: Judge, lo: nat, hi: nat, call: nat)
    requires lo < hi && Search(judge, lo, hi, call).Success?
    ensures Genuine(judge, Search(judge, lo, hi, call).value.rounds)
    decreases hi - lo
  {
    if hi - lo > 1 {
      var round, a, b := FirstRound(judge, lo, hi, call);
      SearchIsGenuine(judge, a, b, call + round.judged.calls);
    }
  }

  /** Only commits strictly inside the range are ever benchmarked. */
  lemma {:induction false} RoundsInside(judge: Judge, lo: nat, hi: nat, call: nat)
    requires lo < hi && Search(judge, lo, hi, call).Success?
    ensures forall r | r in Search(judge, lo, hi, call).value.rounds :: lo < r.mid < hi
    decreases hi - lo
  {
    if hi - lo > 1 {
      var round, a, b := FirstRound(judge, lo, hi, call);
      RoundsInside(judge, a, b, call + round.judged.calls);
    }
  }

  /** All midpoints strictly inside the range are judged by one threshold. */
  ghost predicate Threshold(judge: Judge, lo: nat, hi: nat, t: nat) {
    forall mid: nat, call: nat | lo < mid < hi && judge(mid, call).Success? ::
      judge(mid, call).value.bad <==> t <= mid
  }

  /** When all verdicts follow one threshold, the search returns exactly it. */
  lemma {:induction false} SearchFindsThreshold(judge: Judge, lo: nat, hi: nat, call: nat, t: nat)
    requires lo < t <= hi && Search(judge, lo, hi, call).Success?
    requires Threshold(judge, lo, hi, t)
    ensures Search(judge, lo, hi, call).value.hi == t
    ensures Search(judge, lo, hi, call).value.lo == t - 1
    decreases hi - lo
  {
    if hi - lo > 1 {
      var mid := lo + (hi - lo) / 2;
      var j := judge(mid, call).value;
      if j.bad {
        SearchFindsThreshold(judge, lo, mid, call + j.calls, t);
      } else {
        SearchFindsThreshold(judge, mid, hi, call + j.calls, t);
      }
    }
  }

  // ---------------------------------------------------------------------------
  // What the search costs
  // ---------------------------------------------------------------------------

  function FloorLog2(n: nat): nat
    requires n > 0
  {
    if n == 1 then 0 else 1 + FloorLog2(n / 2)
  }

  function CeilLog2(n: nat): nat
    requires n > 0
  {
    if n == 1 then 0 else 1 + CeilLog2((n + 1) / 2)
  }

  function Pow2(k: nat): (p: nat)
    ensures p > 0
  {
    if k == 0 then 1 else 2 * Pow2(k - 1)
  }

  /** The two logarithms are the ones their names promise. */
  lemma {:induction false} FloorBracket(n: nat)
    requires n > 0
    ensures Pow2(FloorLog2(n)) <= n < 2 * Pow2(FloorLog2(n))
  {
    if n > 1 { FloorBracket(n / 2); }
  }

  lemma {:induction false} CeilBracket(n: nat)
    requires n > 0
    ensures n <= Pow2(CeilLog2(n)) < 2 * n
  {
    if n > 1 { CeilBracket((n + 1) / 2); }
  }

  lemma {:induction false} LogsMonotone(m: nat, n: nat)
    requires 0 < m <= n
    ensures FloorLog2(m) <= FloorLog2(n) && CeilLog2(m) <= CeilLog2(n)
  {
    if m > 1 {
      LogsMonotone(m / 2, n / 2);
      LogsMonotone((m + 1) / 2, (n + 1) / 2);
    }
  }

  /** Either half of a width is one round nearer to both logarithms. */
  lemma HalfLogs(w: nat, half: nat)
    requires w > 1 && w - 1 <= 2 * half <= w + 1
    ensures 0 < half && FloorLog2(w) <= 1 + FloorLog2(half) && 1 + CeilLog2(half) <= CeilLog2(w)
  {
    LogsMonotone(w / 2, half);
    LogsMonotone(half, (w + 1) / 2);
  }

  /** A search makes between floor and ceiling of log2 of its width in rounds. */
  lemma {:induction false} RoundCount(judge: Judge, lo: nat, hi: nat, call: nat)
    requires lo < hi && Search(judge, lo, hi, call).Success?
    ensures FloorLog2(hi - lo) <= |Search(judge, lo, hi, call).value.rounds| <= CeilLog2(hi - lo)
    decreases hi - lo
  {
    if hi - lo > 1 {
      var round, a, b := FirstRound(judge, lo, hi, call);
      HalfLogs(hi - lo, b - a);
      RoundCount(judge, a, b, call + round.judged.calls);
    }
  }

  lemma {:induction false} PowersMonotone(j: nat, k: nat)
    requires j <= k
    ensures Pow2(j) <= Pow2(k)
  {
    if j < k { PowersMonotone(j, k - 1); }
  }

  /** In powers: the rounds of a search over a width of N satisfy 2^rounds < 2N and N < 2^(rounds+1). */
  lemma RoundPowers(judge: Judge, lo: nat, hi: nat, call: nat)
    requires lo < hi && Search(judge, lo, hi, call).Success?
    ensures var rounds := |Search(judge, lo, hi, call).value.rounds|;
            Pow2(rounds) < 2 * (hi - lo) && hi - lo < Pow2(rounds + 1)
  {
    var rounds, w := |Search(judge, lo, hi, call).value.rounds|, hi - lo;
    RoundCount(judge, lo, hi, call);
    CeilBracket(w);
    FloorBracket(w);
    PowersMonotone(rounds, CeilLog2(w));
    PowersMonotone(FloorLog2(w), rounds);
  }

  ghost predicate Unanimous(judge: Judge, lo: nat, hi: nat, bad: bool) {
    forall mid: nat, call: nat | lo < mid < hi && judge(mid, call).Success? :: judge(mid, call).value.bad == bad
  }

  /**
   Both bounds are reached at every width: unanimous bad verdicts take the floor,
   unanimous good verdicts the ceiling.
   */
  lemma {:induction false} RoundBoundsReached(judge: Judge, lo: nat, hi: nat, call: nat, bad: bool)
    requires lo < hi && Search(judge, lo, hi, call).Success?
    requires Unanimous(judge, lo, hi, bad)
    ensures |Search(judge, lo, hi, call).value.rounds| == if bad then FloorLog2(hi - lo) else CeilLog2(hi - lo)
    decreases hi - lo
  {
    var w := hi - lo;
    if w > 1 {
      var mid := lo + w / 2;
      var j := judge(mid, call).value;
      assert hi - mid == (w + 1) / 2;
      if bad {
        RoundBoundsReached(judge, lo, mid, call + j.calls, bad);
      } else {
        RoundBoundsReached(judge, mid, hi, call + j.calls, bad);
      }
    }
  }

  /** The two logarithms agree on the powers of two and are one apart elsewhere. */
  lemma {:induction false} LogsAgreeExactly(n: nat)
    requires n > 0
    ensures CeilLog2(n) == FloorLog2(n) + if n == Pow2(FloorLog2(n)) then 0 else 1
  {
    if n > 1 {
      LogsAgreeExactly((n + 1) / 2);
      LogsAgreeExactly(n / 2);
      FloorBracket(n / 2);
      FloorBracket((n + 1) / 2);
      PowersGrow(FloorLog2(n / 2), FloorLog2((n + 1) / 2));
    }
  }

  lemma {:induction false} PowersGrow(j: nat, k: nat)
    ensures j < k ==> 2 * Pow2(j) <= Pow2(k)
  {
    if j < k - 1 { PowersGrow(j, k - 1); }
  }

  /**
   The search makes ceil(log2) rounds whatever the verdicts if and only if its
   width is a power of two.
   */
  lemma CeilRoundsExactly(lo: nat, hi: nat)
    requires lo < hi
    ensures (forall judge: Judge, call: nat | Search(judge, lo, hi, call).Success? ::
               |Search(judge, lo, hi, call).value.rounds| == CeilLog2(hi - lo))
       <==> hi - lo == Pow2(FloorLog2(hi - lo))
  {
    LogsAgreeExactly(hi - lo);
    if hi - lo == Pow2(FloorLog2(hi - lo)) {
      forall judge: Judge, call: nat | Search(judge, lo, hi, call).Success?
        ensures |Search(judge, lo, hi, call).value.rounds| == CeilLog2(hi - lo)
      {
        RoundCount(judge, lo, hi, call);
      }
    } else {
      CleanSearchSucceeds(AllBad(), lo, hi, 0);
      RoundBoundsReached(AllBad(), lo, hi, 0, true);
    }
  }

  function Calls(rounds: seq<Round>): nat {
    if rounds == [] then 0 else rounds[0].judged.calls + Calls(rounds[1..])
  }

  function Noisy(rounds: seq<Round>): nat {
    if rounds == [] then 0 else (if rounds[0].judged.noisy then 1 else 0) + Noisy(rounds[1..])
  }

  lemma {:induction false} RoundAdded(rounds: seq<Round>, r: Round)
    ensures Calls(rounds + [r]) == Calls(rounds) + r.judged.calls
    ensures Noisy(rounds + [r]) == Noisy(rounds) + if r.judged.noisy then 1 else 0
  {
    if rounds == [] {
      assert rounds + [r] == [r];
      assert [r][1..] == [];
    } else {
      assert (rounds + [r])[1..] == rounds[1..] + [r];
      RoundAdded(rounds[1..], r);
    }
  }

  /** Every judgement costs one run when clean and at most `budget` runs at all. */
  ghost predicate Affordable(judge: Judge, hi: nat, budget: nat) {
    forall mid: nat, call: nat | mid < hi && judge(mid, call).Success? ::
      var j := judge(mid, call).value;
      1 <= j.calls <= budget && (j.noisy || j.calls == 1)
  }

  lemma {:induction false} RunCount(judge: Judge, rounds: seq<Round>, hi: nat, budget: nat)
    requires Genuine(judge, rounds) && Affordable(judge, hi, budget)
    requires forall r | r in rounds :: r.mid < hi
    ensures |rounds| <= Calls(rounds) <= budget * |rounds|
    ensures Noisy(rounds) <= |rounds|
    ensures Noisy(rounds) == 0 ==> Calls(rounds) == |rounds|
  {
    if rounds != [] {
      assert 1 <= rounds[0].judged.calls <= budget && (rounds[0].judged.noisy || rounds[0].judged.calls == 1) by {
        assert judge(rounds[0].mid, rounds[0].call) == Success(rounds[0].judged);
      }
      RunCount(judge, rounds[1..], hi, budget);
      TimesNext(budget, |rounds| - 1);
    }
  }

  /**
   The run budget of a whole search: at most `budget` runs a round, and between
   floor and ceiling of log2 of the width when no round was noisy.
   */
  lemma SearchRunBudget(judge: Judge, lo: nat, hi: nat, call: nat, budget: nat)
    requires lo < hi && Search(judge, lo, hi, call).Success? && Affordable(judge, hi, budget)
    ensures var rounds := Search(judge, lo, hi, call).value.rounds;
            && FloorLog2(hi - lo) <= Calls(rounds) <= budget * CeilLog2(hi - lo)
            && (Noisy(rounds) == 0 ==> Calls(rounds) == |rounds| <= CeilLog2(hi - lo))
  {
    var rounds := Search(judge, lo, hi, call).value.rounds;
    SearchIsGenuine(judge, lo, hi, call);
    RoundsInside(judge, lo, hi, call);
    RoundCount(judge, lo, hi, call);
    RunCount(judge, rounds, hi, budget);
    TimesMonotone(budget, |rounds|, CeilLog2(hi - lo));
  }

  lemma TimesNext(k: nat, n: nat)
    ensures k * (n + 1) == k + k * n
  {
  }

  lemma TimesMonotone(k: nat, a: nat, b: nat)
    requires a <= b
    ensures k * a <= k * b
  {
  }

  // ---------------------------------------------------------------------------
  // The documented cost
  // ---------------------------------------------------------------------------

  /** Every midpoint below `hi` is classified at once: one run each, none of them noisy. */
  ghost predicate Clean(judge: Judge, hi: nat) {
    forall mid: nat, call: nat | mid < hi ::
      var r := judge(mid, call);
      r.Success? && !r.value.noisy && r.value.calls == 1
  }

  /** The judge that calls every midpoint bad, at once. */
  function AllBad(): Judge {
    (mid: nat, call: nat) => Success(Judgement(true, false, 1, []))
  }

  lemma {:induction false} CleanSearchSucceeds(judge: Judge, lo: nat, hi: nat, call: nat)
    requires lo < hi && Clean(judge, hi)
    ensures Search(judge, lo, hi, call).Success?
    decreases hi - lo
  {
    if hi - lo > 1 {
      var mid := lo + (hi - lo) / 2;
      assert judge(mid, call).Success?;
      CleanSearchSucceeds(judge, lo, mid, call + judge(mid, call).value.calls);
      CleanSearchSucceeds(judge, mid, hi, call + judge(mid, call).value.calls);
    }
  }

  /** With clean classifications the benchmark runs are the rounds. */
  lemma CleanRunsAreRounds(judge: Judge, lo: nat, hi: nat, call: nat)
    requires lo < hi && Clean(judge, hi)
    ensures Search(judge, lo, hi, call).Success?
    ensures var rounds := Search(judge, lo, hi, call).value.rounds; Noisy(rounds) == 0 && Calls(rounds) == |rounds|
  {
    CleanSearchSucceeds(judge, lo, hi, call);
    var rounds := Search(judge, lo, hi, call).value.rounds;
    SearchIsGenuine(judge, lo, hi, call);
    RoundsInside(judge, lo, hi, call);
    NoneNoisy(judge, rounds, hi);
    RunCount(judge, rounds, hi, 1);
  }

  lemma {:induction false} NoneNoisy(judge: Judge, rounds: seq<Round>, hi: nat)
    requires Clean(judge, hi) && Genuine(judge, rounds) && forall r | r in rounds :: r.mid < hi
    ensures Noisy(rounds) == 0
  {
    if rounds != [] {
      assert judge(rounds[0].mid, rounds[0].call) == Success(rounds[0].judged);
      assert Genuine(judge, rounds[1..]);
      NoneNoisy(judge, rounds[1..], hi);
    }
  }

  /** Clean verdicts that all agree take the floor, or the ceiling, in runs. */
  lemma CleanBounds(judge: Judge, hi: nat, bad: bool)
    requires 0 < hi && Clean(judge, hi) && Unanimous(judge, 0, hi, bad)
    ensures Search(judge, 0, hi, 0).Success?
    ensures var rounds := Search(judge, 0, hi, 0).value.rounds;
            Noisy(rounds) == 0 && Calls(rounds) == if bad then FloorLog2(hi) else CeilLog2(hi)
  {
    CleanRunsAreRounds(judge, 0, hi, 0);
    RoundBoundsReached(judge, 0, hi, 0, bad);
  }

  ghost predicate TakesCeil(judge: Judge, lo: nat, hi: nat, call: nat)
    requires lo < hi
  {
    && Search(judge, lo, hi, call).Success?
    && Calls(Search(judge, lo, hi, call).value.rounds) == CeilLog2(hi - lo)
  }

  /**
   The documented "exactly ceil(log2(N)) benchmark runs" with clean
   classifications holds if and only if N is a power of two. Otherwise the search
   in which every midpoint is bad makes one run less.
   */
  lemma DocumentedCountIsExact(lo: nat, hi: nat)
    requires lo < hi
    ensures (forall judge: Judge, call: nat | Clean(judge, hi) :: TakesCeil(judge, lo, hi, call))
       <==> hi - lo == Pow2(FloorLog2(hi - lo))
    ensures hi - lo != Pow2(FloorLog2(hi - lo)) ==>
              && Clean(AllBad(), hi) && Search(AllBad(), lo, hi, 0).Success?
              && Calls(Search(AllBad(), lo, hi, 0).value.rounds) == CeilLog2(hi - lo) - 1
  {
    LogsAgreeExactly(hi - lo);
    if hi - lo == Pow2(FloorLog2(hi - lo)) {
      forall judge: Judge, call: nat | Clean(judge, hi) ensures TakesCeil(judge, lo, hi, call) {
        CleanRunsAreRounds(judge, lo, hi, call);
        RoundCount(judge, lo, hi, call);
      }
    } else {
      assert Clean(AllBad(), hi);
      CleanRunsAreRounds(AllBad(), lo, hi, 0);
      RoundBoundsReached(AllBad(), lo, hi, 0, true);
      assert !TakesCeil(AllBad(), lo, hi, 0);
    }
  }
}
