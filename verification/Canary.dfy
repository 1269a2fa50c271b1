/**
 Canary promotion, as in `src/canary_promotion_controller.rs`: the phase machine of
 `reconcile` and the three weight progressions. What the gates answer is an
 arbitrary input. Weights are 32-bit and the addition of a step wraps around.
 */
module Canary {
  import opened Options

  const U32 := 0x1_0000_0000

  type Weight = n: int | 0 <= n < U32

  datatype Progression =
    | Linear(initial: Weight, stepSize: Weight)
    | Exponential(initial: Weight, multiplier: real)
    | Stepwise(steps: seq<Weight>)

  datatype Phase =
    | Pending | AnalyzingBaseline | CanaryActive | WaitingForAnalysis | ReadyToPromote | Promoting
    | Completed | RollingBack | RolledBack | Failed

  datatype GateResult = GateResult(passed: bool, violationCount: nat)

  datatype Status = Status(
    phase: Phase, weight: Weight, step: nat, gateResults: seq<GateResult>, rollbackInProgress: bool)

  /** What evaluating the gates yields: a verdict each, or an error that ends the reconcile. */
  datatype Evaluation = Verdicts(passed: seq<bool>) | EvaluationError

  /** The human override annotation. */
  datatype Override = Promote | Rollback | Unknown(action: string)

  datatype Reply = Ok | Error | Panic

  function Initial(): Status {
    Status(Pending, 0, 0, [], false)
  }

  // ---------------------------------------------------------------------------
  // Weights
  // ---------------------------------------------------------------------------

  function Min(a: int, b: int): int {
    if a < b then a else b
  }

  function InitialWeight(p: Progression): Weight {
    match p
    case Linear(w, _) => w
    case Exponential(w, _) => w
    case Stepwise(steps) => if steps == [] then 5 else steps[0]
  }

  /** The conversion of a product to an unsigned number. */
  function Truncated(x: real): nat {
    if x <= 0.0 then 0 else x.Floor
  }

  function Multiplied(w: Weight, m: real): nat {
    Truncated(w as real * m)
  }

  /** A product is truncated to the whole number below it, and a negative one to none. */
  lemma MultipliedIsFloor(w: Weight, m: real)
    ensures w as real * m >= 0.0 ==> Multiplied(w, m) as real <= w as real * m < Multiplied(w, m) as real + 1.0
    ensures w as real * m < 0.0 ==> Multiplied(w, m) == 0
  {
  }

  function NextWeight(p: Progression, current: Weight, step: nat): Weight {
    match p
    case Linear(_, s) => Min((current + s) % U32, 100)
    case Exponential(_, m) => Min(Multiplied(current, m), 100)
    case Stepwise(steps) => if step < |steps| then steps[step] else 100
  }

  /** Weights that are computed are at most full, and steps that have run out mean full weight. */
  lemma NextWeightAtMostFull(p: Progression, current: Weight, step: nat)
    ensures !p.Stepwise? ==> NextWeight(p, current, step) <= 100
    ensures p.Stepwise? && step >= |p.steps| ==> NextWeight(p, current, step) == 100
  {
  }

  // ---------------------------------------------------------------------------
  // One reconcile
  // ---------------------------------------------------------------------------

  function Results(passed: seq<bool>): seq<GateResult> {
    seq(|passed|, i requires 0 <= i < |passed| => GateResult(passed[i], if passed[i] then 0 else 1))
  }

  /** One result per gate, with one violation exactly for a gate that failed. */
  lemma ResultsMean(passed: seq<bool>)
    ensures |Results(passed)| == |passed|
    ensures forall i | 0 <= i < |passed| ::
              Results(passed)[i].passed == passed[i] && Results(passed)[i].violationCount == if passed[i] then 0 else 1
    ensures AllPassed(Results(passed)) <==> false !in passed
    ensures HasViolations(Results(passed)) <==> false in passed
  {
    var results := Results(passed);
    if false in passed {
      var i :| 0 <= i < |passed| && passed[i] == false;
      assert !results[i].passed && results[i].violationCount > 0;
    } else {
      forall i | 0 <= i < |passed| ensures passed[i] { assert passed[i] in passed; }
    }
  }

  predicate AllPassed(results: seq<GateResult>) {
    forall i | 0 <= i < |results| :: results[i].passed
  }

  predicate HasViolations(results: seq<GateResult>) {
    exists i | 0 <= i < |results| :: results[i].violationCount > 0
  }

  function Analyzed(s: Status, results: seq<GateResult>): Status {
    if AllPassed(results) then s.(phase := ReadyToPromote, gateResults := results)
    else if HasViolations(results) then s.(phase := RollingBack, gateResults := results, rollbackInProgress := true)
    else s.(gateResults := results)
  }

  function Advanced(p: Progression, s: Status): Status {
    var next := NextWeight(p, s.weight, s.step);
    if next >= 100 then s.(phase := Completed, weight := 100, step := s.step + 1)
    else s.(phase := Promoting, weight := next, step := s.step + 1)
  }

  function Next(p: Progression, s: Status, e: Evaluation): Status {
    match s.phase
    case Pending => s.(phase := AnalyzingBaseline)
    case AnalyzingBaseline => s.(phase := CanaryActive, weight := InitialWeight(p), step := 0)
    case CanaryActive => s.(phase := WaitingForAnalysis)
    case WaitingForAnalysis => if e.Verdicts? then Analyzed(s, Results(e.passed)) else s
    case ReadyToPromote => Advanced(p, s)
    case Promoting => s.(phase := CanaryActive)
    case RollingBack => s.(phase := RolledBack, weight := 0)
    case _ => s
  }

  function Overridden(s: Status, o: Override): Status {
    match o
    case Promote => s.(phase := Completed, weight := 100)
    case Rollback => s.(phase := RolledBack, weight := 0)
    case Unknown(_) => s
  }

  /** What `reconcile` leaves of the stored status: an override, which needs one, goes before the phase machine. */
  function Reconciled(p: Progression, status: Option<Status>, order: Option<Override>, e: Evaluation): Option<Status> {
    match order
    case Some(o) => if status.Some? then Some(Overridden(status.value, o)) else None
    case None => Some(Next(p, Current(status), e))
  }

  /** The status a reconcile starts from. */
  function Current(status: Option<Status>): Status {
    if status.Some? then status.value else Initial()
  }

  /** One failed gate is enough to roll back; there is no retry. */
  lemma FailureRollsBack(p: Progression, s: Status, passed: seq<bool>)
    requires s.phase == WaitingForAnalysis
    ensures Next(p, s, Verdicts(passed)).phase == if false in passed then RollingBack else ReadyToPromote
    ensures var after := Next(p, s, Verdicts(passed));
            after.gateResults == Results(passed) && after.weight == s.weight && after.step == s.step
  {
    var results := Results(passed);
    if false in passed {
      var i :| 0 <= i < |passed| && passed[i] == false;
      assert !results[i].passed && results[i].violationCount > 0;
    } else {
      forall i | 0 <= i < |results| ensures results[i].passed { assert passed[i] in passed; }
    }
  }

  class ProgressiveDelivery {
    const progression: Progression
    var status: Option<Status>

    constructor (progression: Progression)
      ensures this.progression == progression && status == None
    {
      this.progression := progression;
      status := None;
    }

    /** `evaluate_gates`, given what each gate answers. */
    method EvaluateGates(passed: seq<bool>) returns (results: seq<GateResult>)
      ensures results == Results(passed) && |results| == |passed|
      ensures forall i | 0 <= i < |passed| ::
                results[i].passed == passed[i] && results[i].violationCount == if passed[i] then 0 else 1
    {
      results := [];
      for i := 0 to |passed|
        invariant results == Results(passed[..i])
      {
        results := results + [GateResult(passed[i], if passed[i] then 0 else 1)];
      }
      assert passed[..|passed|] == passed;
    }

    /** `handle_override`, which panics on a resource without a status. */
    method HandleOverride(o: Override) returns (r: Reply)
      modifies this
      ensures r == if old(status).None? then Panic else if o.Unknown? then Error else Ok
      ensures old(status).None? <==> status.None?
      ensures old(status).Some? && o == Promote ==> status.value == old(status).value.(phase := Completed, weight := 100)
      ensures old(status).Some? && o == Rollback ==> status.value == old(status).value.(phase := RolledBack, weight := 0)
      ensures o.Unknown? ==> status == old(status)
    {
      if status.None? { return Panic; }
      match o {
        case Promote =>
          status := Some(status.value.(phase := Completed, weight := 100));
        case Rollback =>
          status := Some(status.value.(phase := RolledBack, weight := 0));
        case Unknown(_) =>
          return Error;
      }
      return Ok;
    }

    /** `reconcile`: an override annotation goes first, otherwise one step of the phase machine is taken. */
    method Reconcile(order: Option<Override>, e: Evaluation) returns (r: Reply)
      modifies this
      ensures status == Reconciled(progression, old(status), order, e)
      ensures order.Some? ==> r == (if old(status).None? then Panic else if order.value.Unknown? then Error else Ok)
      ensures order.None? ==>
                r == if Current(old(status)).phase == WaitingForAnalysis && e.EvaluationError? then Error else Ok
      ensures order == Some(Promote) && old(status).Some? ==>
                status.value == old(status).value.(phase := Completed, weight := 100)
      ensures order == Some(Rollback) && old(status).Some? ==>
                status.value == old(status).value.(phase := RolledBack, weight := 0)
    {
      if order.Some? {
        r := HandleOverride(order.value);
        return;
      }
      if status.None? { status := Some(Initial()); }
      var s := status.value;
      match s.phase {
        case Pending =>
          status := Some(s.(phase := AnalyzingBaseline));
        case AnalyzingBaseline =>
          status := Some(s.(phase := CanaryActive, weight := InitialWeight(progression), step := 0));
        case CanaryActive =>
          status := Some(s.(phase := WaitingForAnalysis));
        case WaitingForAnalysis =>
          if e.EvaluationError? { return Error; }
          var results := EvaluateGates(e.passed);
          s := s.(gateResults := results);
          if AllPassed(results) {
            s := s.(phase := ReadyToPromote);
          } else if HasViolations(results) {
            s := s.(phase := RollingBack, rollbackInProgress := true);
          }
          status := Some(s);
        case ReadyToPromote =>
          var next := NextWeight(progression, s.weight, s.step);
          s := s.(step := s.step + 1);
          if next >= 100 {
            s := s.(phase := Completed, weight := 100);
          } else {
            s := s.(phase := Promoting, weight := next);
          }
          status := Some(s);
        case Promoting =>
          status := Some(s.(phase := CanaryActive));
        case RollingBack =>
          status := Some(s.(phase := RolledBack, weight := 0));
        case _ =>
      }
      return Ok;
    }
  }

  // ---------------------------------------------------------------------------
  // Safety over every run
  // ---------------------------------------------------------------------------

  ghost predicate IsRun(p: Progression, run: seq<Status>, evals: seq<Evaluation>) {
    && |run| == |evals| + 1 && run[0] == Initial()
    && forall i | 0 <= i < |evals| :: run[i + 1] == Next(p, run[i], evals[i])
  }

  ghost predicate Sound(s: Status) {
    && (s.phase == Completed ==> s.weight == 100)
    && (s.phase == RolledBack ==> s.weight == 0)
    && s.phase != Failed
    && (s.phase == ReadyToPromote ==> AllPassed(s.gateResults))
    && (s.rollbackInProgress <==> s.phase == RollingBack || s.phase == RolledBack)
    && (s.phase == Pending || s.phase == AnalyzingBaseline ==> s.weight == 0 && s.step == 0 && s.gateResults == [])
  }

  /**
   In every run, a completed canary has weight 100, one rolled back has weight 0, and
   one that has not started has neither weight nor results.
   */
  lemma {:induction false} RunsAreSound(p: Progression, run: seq<Status>, evals: seq<Evaluation>, n: nat)
    requires IsRun(p, run, evals) && n < |run|
    ensures Sound(run[n])
  {
    if n > 0 {
      RunsAreSound(p, run, evals, n - 1);
      assert run[n - 1 + 1] == Next(p, run[n - 1], evals[n - 1]);
    }
  }

  /** Completed and rolled back are final. */
  lemma {:induction false} EndsAreFinal(p: Progression, run: seq<Status>, evals: seq<Evaluation>, n: nat, m: nat)
    requires IsRun(p, run, evals) && n <= m < |run| && (run[n].phase == Completed || run[n].phase == RolledBack)
    ensures run[m] == run[n]
    decreases m
  {
    if n < m {
      EndsAreFinal(p, run, evals, n, m - 1);
      assert run[m - 1 + 1] == Next(p, run[m - 1], evals[m - 1]);
    }
  }

  ghost predicate AllPass(e: Evaluation) {
    e.Verdicts? && false !in e.passed
  }

  /**
   Whenever the weight changes, it is set for the first time, or reset by a
   rollback that a failed analysis started, or the reconcile before was an
   analysis at the old weight in which every gate passed.
   */
  lemma WeightChangesAreEarned(p: Progression, run: seq<Status>, evals: seq<Evaluation>, n: nat)
    requires IsRun(p, run, evals) && n < |evals| && run[n + 1].weight != run[n].weight
    ensures match run[n].phase
            case AnalyzingBaseline => run[n + 1].weight == InitialWeight(p)
            case RollingBack => n > 0 && run[n + 1].weight == 0 && EndedAnalysis(run, evals, n, false)
            case ReadyToPromote => n > 0 && EndedAnalysis(run, evals, n, true)
            case _ => false
  {
    assert run[n + 1] == Next(p, run[n], evals[n]);
    if n > 0 {
      assert run[n - 1 + 1] == Next(p, run[n - 1], evals[n - 1]);
      var e := evals[n - 1];
      if run[n - 1].phase == WaitingForAnalysis && e.Verdicts? { FailureRollsBack(p, run[n - 1], e.passed); }
    }
  }

  /** The reconcile before state `n` was an analysis at the weight of state `n`, passed or not. */
  ghost predicate EndedAnalysis(run: seq<Status>, evals: seq<Evaluation>, n: nat, passed: bool)
    requires 0 < n < |run| == |evals| + 1
  {
    && run[n - 1].phase == WaitingForAnalysis && run[n - 1].weight == run[n].weight
    && evals[n - 1].Verdicts? && (passed <==> AllPass(evals[n - 1]))
  }

  /** How many times a run has promoted before state `n`. */
  ghost function Promotions(run: seq<Status>, n: nat): nat
    requires n < |run|
  {
    if n == 0 then 0 else Promotions(run, n - 1) + if run[n - 1].phase == ReadyToPromote then 1 else 0
  }

  /** The step number counts the promotions made. */
  lemma {:induction false} StepsCountPromotions(p: Progression, run: seq<Status>, evals: seq<Evaluation>, n: nat)
    requires IsRun(p, run, evals) && n < |run|
    ensures run[n].step == Promotions(run, n)
  {
    if n > 0 {
      StepsCountPromotions(p, run, evals, n - 1);
      RunsAreSound(p, run, evals, n - 1);
      assert run[n - 1 + 1] == Next(p, run[n - 1], evals[n - 1]);
    }
  }

  /** Two reconciles after a failed analysis the canary is rolled back, at no weight, for good. */
  lemma RollbackCompletes(p: Progression, run: seq<Status>, evals: seq<Evaluation>, n: nat, m: nat)
    requires IsRun(p, run, evals) && n + 2 <= m < |run| && run[n].phase == WaitingForAnalysis
    requires evals[n].Verdicts? && false in evals[n].passed
    ensures run[m].phase == RolledBack && run[m].weight == 0
  {
    assert run[n + 1] == Next(p, run[n], evals[n]);
    FailureRollsBack(p, run[n], evals[n].passed);
    assert run[n + 1 + 1] == Next(p, run[n + 1], evals[n + 1]);
    EndsAreFinal(p, run, evals, n + 2, m);
  }

  // ---------------------------------------------------------------------------
  // Runs with overrides
  // ---------------------------------------------------------------------------

  /** A run of reconciles, from a resource without a status, each with or without an override. */
  ghost predicate IsOverriddenRun(
    p: Progression, run: seq<Option<Status>>, orders: seq<Option<Override>>, evals: seq<Evaluation>)
  {
    && |run| == |evals| + 1 == |orders| + 1 && run[0] == None
    && forall i | 0 <= i < |evals| :: run[i + 1] == Reconciled(p, run[i], orders[i], evals[i])
  }

  /** Without overrides these are the runs of the phase machine. */
  lemma NoOverrideIsRun(
    p: Progression, run: seq<Option<Status>>, orders: seq<Option<Override>>, evals: seq<Evaluation>)
    requires IsOverriddenRun(p, run, orders, evals) && forall i | 0 <= i < |orders| :: orders[i] == None
    ensures IsRun(p, seq(|run|, i requires 0 <= i < |run| => Current(run[i])), evals)
  {
    var plain := seq(|run|, i requires 0 <= i < |run| => Current(run[i]));
    forall i | 0 <= i < |evals| ensures plain[i + 1] == Next(p, plain[i], evals[i]) {
      assert run[i + 1] == Reconciled(p, run[i], orders[i], evals[i]);
    }
  }

  /** From every status, promote ends at full weight, rollback at none, and nothing else of the status changes. */
  lemma OverrideMeans(s: Status, o: Override)
    ensures var r := Overridden(s, o);
            && (o == Promote ==> r.phase == Completed && r.weight == 100)
            && (o == Rollback ==> r.phase == RolledBack && r.weight == 0)
            && (o.Unknown? ==> r == s)
            && r.step == s.step && r.gateResults == s.gateResults && r.rollbackInProgress == s.rollbackInProgress
  {
  }

  ghost predicate SoundEnds(status: Option<Status>) {
    status.Some? ==>
      && (status.value.phase == Completed ==> status.value.weight == 100)
      && (status.value.phase == RolledBack ==> status.value.weight == 0)
      && status.value.phase != Failed
      && (status.value.phase == ReadyToPromote ==> AllPassed(status.value.gateResults))
  }

  /** With overrides too, a completed canary has weight 100 and one rolled back has weight 0. */
  lemma {:induction false} OverriddenRunsAreSound(
    p: Progression, run: seq<Option<Status>>, orders: seq<Option<Override>>, evals: seq<Evaluation>, n: nat)
    requires IsOverriddenRun(p, run, orders, evals) && n < |run|
    ensures SoundEnds(run[n])
  {
    if n > 0 {
      OverriddenRunsAreSound(p, run, orders, evals, n - 1);
      assert run[n - 1 + 1] == Reconciled(p, run[n - 1], orders[n - 1], evals[n - 1]);
      SoundStep(p, run[n - 1], orders[n - 1], evals[n - 1]);
    }
  }

  lemma SoundStep(p: Progression, status: Option<Status>, order: Option<Override>, e: Evaluation)
    requires SoundEnds(status)
    ensures SoundEnds(Reconciled(p, status, order, e))
  {
    if order.Some? && status.Some? { OverrideMeans(status.value, order.value); }
  }

  ghost predicate AtEnd(status: Option<Status>) {
    status.Some? && (status.value.phase == Completed || status.value.phase == RolledBack)
  }

  /** The end that the last promote or rollback among `orders` names, if there is one. */
  function NamedEnd(orders: seq<Option<Override>>, phase: Phase): Phase {
    if orders == [] then phase
    else
      match orders[|orders| - 1]
      case Some(Promote) => Completed
      case Some(Rollback) => RolledBack
      case _ => NamedEnd(orders[..|orders| - 1], phase)
  }

  lemma EndStep(p: Progression, status: Option<Status>, order: Option<Override>, e: Evaluation)
    requires AtEnd(status)
    ensures var after := Reconciled(p, status, order, e);
            && AtEnd(after)
            && (order == None || order.value.Unknown? ==> after == status)
            && (order == Some(Promote) ==> after.value.phase == Completed && after.value.weight == 100)
            && (order == Some(Rollback) ==> after.value.phase == RolledBack && after.value.weight == 0)
  {
  }

  /** An end is left only by an override, and then for the end which that override names. */
  lemma {:induction false} EndsFollowOverrides(
    p: Progression, run: seq<Option<Status>>, orders: seq<Option<Override>>, evals: seq<Evaluation>, n: nat, m: nat)
    requires IsOverriddenRun(p, run, orders, evals) && n <= m < |run| && AtEnd(run[n])
    ensures AtEnd(run[m]) && run[m].value.phase == NamedEnd(orders[n..m], run[n].value.phase)
    ensures (forall i | n <= i < m :: orders[i] == None || orders[i].value.Unknown?) ==> run[m] == run[n]
    decreases m
  {
    if n < m {
      EndsFollowOverrides(p, run, orders, evals, n, m - 1);
      assert run[m - 1 + 1] == Reconciled(p, run[m - 1], orders[m - 1], evals[m - 1]);
      EndStep(p, run[m - 1], orders[m - 1], evals[m - 1]);
      assert orders[n..m][..m - 1 - n] == orders[n..m - 1];
    }
  }

  // ---------------------------------------------------------------------------
  // The violation threshold
  // ---------------------------------------------------------------------------

  /** Reconcile `n` of the run is an analysis that yields verdicts. */
  ghost predicate IsAnalysis(run: seq<Status>, evals: seq<Evaluation>, n: nat) {
    n < |evals| && n < |run| && run[n].phase == WaitingForAnalysis && evals[n].Verdicts?
  }

  ghost predicate GateFailed(e: Evaluation, g: nat) {
    e.Verdicts? && g < |e.passed| && !e.passed[g]
  }

  /** How many analyses in a row gate `g` has failed, up to reconcile `n`; other reconciles do not count. */
  ghost function Violations(run: seq<Status>, evals: seq<Evaluation>, g: nat, n: nat): nat {
    var before := if n == 0 then 0 else Violations(run, evals, g, n - 1);
    if !IsAnalysis(run, evals, n) then before
    else if GateFailed(evals[n], g) then 1 + before
    else 0
  }

  /** The documented rule: some gate is in violation, and as often in a row as its threshold asks. */
  ghost predicate DueAsDocumented(run: seq<Status>, evals: seq<Evaluation>, thresholds: seq<nat>, n: nat) {
    exists g | 0 <= g < |thresholds| ::
      Violations(run, evals, g, n) >= 1 && Violations(run, evals, g, n) >= thresholds[g]
  }

  ghost predicate RolledOff(s: Status) {
    s.phase == RollingBack || s.phase == RolledBack
  }

  lemma RollbackStays(p: Progression, s: Status, e: Evaluation)
    ensures RolledOff(s) ==> RolledOff(Next(p, s, e))
    ensures s.phase == WaitingForAnalysis && e.Verdicts? && false in e.passed ==> RolledOff(Next(p, s, e))
  {
    if s.phase == WaitingForAnalysis && e.Verdicts? { FailureRollsBack(p, s, e.passed); }
  }

  /** In a run that is not rolling back, no analysis so far has failed. */
  lemma {:induction false} NoViolationYet(p: Progression, run: seq<Status>, evals: seq<Evaluation>, g: nat, n: nat)
    requires IsRun(p, run, evals) && n < |evals| && !RolledOff(run[n + 1])
    ensures Violations(run, evals, g, n) == 0
  {
    assert run[n + 1] == Next(p, run[n], evals[n]);
    RollbackStays(p, run[n], evals[n]);
    if n > 0 { NoViolationYet(p, run, evals, g, n - 1); }
    assert GateFailed(evals[n], g) ==> evals[n].passed[g] in evals[n].passed;
  }

  /** So at an analysis a gate has failed once in a row if it fails now, and otherwise not at all. */
  lemma ViolationsAtAnalysis(p: Progression, run: seq<Status>, evals: seq<Evaluation>, g: nat, n: nat)
    requires IsRun(p, run, evals) && IsAnalysis(run, evals, n)
    ensures Violations(run, evals, g, n) == if GateFailed(evals[n], g) then 1 else 0
  {
    if n > 0 { NoViolationYet(p, run, evals, g, n - 1); }
  }

  lemma DueExactly(p: Progression, run: seq<Status>, evals: seq<Evaluation>, thresholds: seq<nat>, n: nat)
    requires IsRun(p, run, evals) && IsAnalysis(run, evals, n)
    ensures DueAsDocumented(run, evals, thresholds, n) <==>
              exists g | 0 <= g < |thresholds| :: GateFailed(evals[n], g) && thresholds[g] <= 1
  {
    forall g: nat ensures Violations(run, evals, g, n) == if GateFailed(evals[n], g) then 1 else 0 {
      ViolationsAtAnalysis(p, run, evals, g, n);
    }
    if g :| 0 <= g < |thresholds| && GateFailed(evals[n], g) && thresholds[g] <= 1 {
      assert Violations(run, evals, g, n) == 1;
    }
  }

  /** The run rolls back after analysis `n` when, and only when, the documented rule says so. */
  ghost predicate HonoursThresholds(run: seq<Status>, evals: seq<Evaluation>, thresholds: seq<nat>, n: nat)
    requires n + 1 < |run|
  {
    run[n + 1].phase == RollingBack <==> DueAsDocumented(run, evals, thresholds, n)
  }

  /**
   An analysis with one verdict per threshold honours the documented thresholds if
   and only if every gate passed, or a gate failed whose threshold is at most one.
   */
  lemma ThresholdsHonouredExactly(
    p: Progression, run: seq<Status>, evals: seq<Evaluation>, thresholds: seq<nat>, n: nat)
    requires IsRun(p, run, evals) && IsAnalysis(run, evals, n) && |evals[n].passed| == |thresholds|
    ensures HonoursThresholds(run, evals, thresholds, n) <==>
              || AllPass(evals[n])
              || exists g | 0 <= g < |thresholds| :: !evals[n].passed[g] && thresholds[g] <= 1
  {
    FailureRollsBack(p, run[n], evals[n].passed);
    assert run[n + 1] == Next(p, run[n], evals[n]);
    DueExactly(p, run, evals, thresholds, n);
    if g :| 0 <= g < |thresholds| && !evals[n].passed[g] && thresholds[g] <= 1 {
      assert evals[n].passed[g] in evals[n].passed && GateFailed(evals[n], g);
    }
    if g :| 0 <= g < |thresholds| && GateFailed(evals[n], g) && thresholds[g] <= 1 {
      assert !evals[n].passed[g];
    }
  }

  /** Every analysis of every run honours them. */
  ghost predicate AlwaysHonours(p: Progression, thresholds: seq<nat>) {
    forall run: seq<Status>, evals: seq<Evaluation>, n: nat
      | IsRun(p, run, evals) && IsAnalysis(run, evals, n) && |evals[n].passed| == |thresholds| ::
      HonoursThresholds(run, evals, thresholds, n)
  }

  function OnlyFails(gates: nat, g: nat): Evaluation {
    Verdicts(seq(gates, i => i != g))
  }

  /** A run whose first analysis is failed by one gate alone. */
  lemma FailsOnce(p: Progression, e: Evaluation) returns (run: seq<Status>, evals: seq<Evaluation>)
    requires e.Verdicts?
    ensures IsRun(p, run, evals) && IsAnalysis(run, evals, 3) && evals[3] == e
  {
    var s0 := Initial();
    var s1 := Next(p, s0, e);
    var s2 := Next(p, s1, e);
    var s3 := Next(p, s2, e);
    run, evals := [s0, s1, s2, s3, Next(p, s3, e)], [e, e, e, e];
  }

  /** Beyond one: a single failure of a gate with a higher threshold rolls back before it is due. */
  lemma HighThresholdIgnored(p: Progression, thresholds: seq<nat>, g: nat)
    returns (run: seq<Status>, evals: seq<Evaluation>)
    requires g < |thresholds| && thresholds[g] > 1
    ensures IsRun(p, run, evals) && IsAnalysis(run, evals, 3) && |evals[3].passed| == |thresholds|
    ensures run[4].phase == RollingBack && !DueAsDocumented(run, evals, thresholds, 3)
  {
    var e := OnlyFails(|thresholds|, g);
    run, evals := FailsOnce(p, e);
    DueExactly(p, run, evals, thresholds, 3);
    assert forall i: nat | i < |thresholds| && GateFailed(e, i) :: i == g;
    assert e.passed[g] in e.passed;
    FailureRollsBack(p, run[3], e.passed);
    assert run[3 + 1] == Next(p, run[3], evals[3]);
  }

  /** Whatever the progression, the thresholds are honoured in every run if and only if none is above one. */
  lemma ThresholdsOfOneOnly(p: Progression, thresholds: seq<nat>)
    ensures AlwaysHonours(p, thresholds) <==> forall g | 0 <= g < |thresholds| :: thresholds[g] <= 1
  {
    if g :| 0 <= g < |thresholds| && thresholds[g] > 1 {
      var run, evals := HighThresholdIgnored(p, thresholds, g);
      assert !HonoursThresholds(run, evals, thresholds, 3);
    } else {
      forall run: seq<Status>, evals: seq<Evaluation>, n: nat
        | IsRun(p, run, evals) && IsAnalysis(run, evals, n) && |evals[n].passed| == |thresholds|
        ensures HonoursThresholds(run, evals, thresholds, n)
      {
        ThresholdsHonouredExactly(p, run, evals, thresholds, n);
        if !AllPass(evals[n]) {
          var g :| 0 <= g < |thresholds| && evals[n].passed[g] == false;
          assert thresholds[g] <= 1;
        }
      }
    }
  }

  /** One gate with threshold two that fails once: rolled back, although the second violation is still missing. */
  lemma ThresholdTwoFailsOnce(p: Progression) returns (run: seq<Status>, evals: seq<Evaluation>)
    ensures IsRun(p, run, evals) && IsAnalysis(run, evals, 3) && evals[3] == Verdicts([false])
    ensures run[4].phase == RollingBack && !DueAsDocumented(run, evals, [2], 3)
  {
    var e := Verdicts([false]);
    run, evals := FailsOnce(p, e);
    DueExactly(p, run, evals, [2], 3);
    assert e.passed[0] in e.passed;
    FailureRollsBack(p, run[3], e.passed);
    assert run[3 + 1] == Next(p, run[3], evals[3]);
  }

  // ---------------------------------------------------------------------------
  // How long a passing run takes
  // ---------------------------------------------------------------------------

  /** The weight at which analysis number `j` takes place, counting from 0. */
  function WeightAt(p: Progression, j: nat): Weight {
    if j == 0 then InitialWeight(p) else NextWeight(p, WeightAt(p, j - 1), j - 1)
  }

  /** The first `k` analyses do not lead to full weight. */
  ghost predicate BelowFull(p: Progression, k: nat) {
    forall i | 0 <= i < k :: NextWeight(p, WeightAt(p, i), i) < 100
  }

  /** Analysis number `k`, counting from 1, is the first that leads to full weight. */
  ghost predicate FullAt(p: Progression, k: nat) {
    k >= 1 && BelowFull(p, k - 1) && NextWeight(p, WeightAt(p, k - 1), k - 1) >= 100
  }

  ghost predicate PassingRun(p: Progression, run: seq<Status>, evals: seq<Evaluation>) {
    IsRun(p, run, evals) && forall i | 0 <= i < |evals| :: AllPass(evals[i])
  }

  lemma PassingStep(p: Progression, run: seq<Status>, evals: seq<Evaluation>, n: nat)
    requires PassingRun(p, run, evals) && n < |evals|
    ensures run[n].phase == WaitingForAnalysis ==>
              run[n + 1].phase == ReadyToPromote && run[n + 1].weight == run[n].weight && run[n + 1].step == run[n].step
    ensures run[n].phase != WaitingForAnalysis ==> run[n + 1] == Next(p, run[n], evals[n])
  {
  }

  ghost predicate At(s: Status, phase: Phase, weight: Weight, step: nat) {
    s.phase == phase && s.weight == weight && s.step == step
  }

  /** The three reconciles of an analysis, up to the decision. */
  lemma Analysis(p: Progression, run: seq<Status>, evals: seq<Evaluation>, n: nat, w: Weight, j: nat)
    requires PassingRun(p, run, evals) && n < |run| && At(run[n], CanaryActive, w, j)
    ensures n + 1 < |run| ==> At(run[n + 1], WaitingForAnalysis, w, j)
    ensures n + 2 < |run| ==> At(run[n + 2], ReadyToPromote, w, j)
    ensures n + 3 < |run| ==> run[n + 3] == Advanced(p, run[n + 2])
  {
  }

  /** While full weight is not reached, analysis `j` starts at reconcile `4j + 2`. */
  lemma {:induction false} RoundStarts(p: Progression, run: seq<Status>, evals: seq<Evaluation>, j: nat)
    requires PassingRun(p, run, evals) && BelowFull(p, j) && 4 * j + 2 < |run|
    ensures At(run[4 * j + 2], CanaryActive, WeightAt(p, j), j)
  {
    if j == 0 {
      PassingStep(p, run, evals, 0);
      PassingStep(p, run, evals, 1);
    } else {
      var n := 4 * (j - 1) + 2;
      RoundStarts(p, run, evals, j - 1);
      Analysis(p, run, evals, n, WeightAt(p, j - 1), j - 1);
      PassingStep(p, run, evals, n + 3);
    }
  }

  /** Before an analysis has led to full weight, the run is not completed. */
  lemma NotYetCompleted(p: Progression, run: seq<Status>, evals: seq<Evaluation>, k: nat, n: nat)
    requires PassingRun(p, run, evals) && BelowFull(p, k) && n < |run| && n < 4 * k + 5
    ensures run[n].phase != Completed
  {
    if n < 2 {
      if n == 1 { PassingStep(p, run, evals, 0); }
    } else {
      var j := (n - 2) / 4;
      RoundStarts(p, run, evals, j);
      Analysis(p, run, evals, 4 * j + 2, WeightAt(p, j), j);
    }
  }

  /** A passing run whose `k`-th analysis is the first to lead to full weight completes at reconcile `4k + 1`. */
  lemma CompletesExactly(p: Progression, run: seq<Status>, evals: seq<Evaluation>, k: nat, n: nat)
    requires PassingRun(p, run, evals) && n < |run|
    requires FullAt(p, k)
    ensures run[n].phase == Completed <==> n >= 4 * k + 1
  {
    if n < 4 * k + 1 {
      NotYetCompleted(p, run, evals, k - 1, n);
    } else {
      var start := 4 * (k - 1) + 2;
      RoundStarts(p, run, evals, k - 1);
      Analysis(p, run, evals, start, WeightAt(p, k - 1), k - 1);
      EndsAreFinal(p, run, evals, start + 3, n);
    }
  }

  lemma NeverCompletes(p: Progression, run: seq<Status>, evals: seq<Evaluation>, n: nat)
    requires PassingRun(p, run, evals) && n < |run| && BelowFull(p, n)
    ensures run[n].phase != Completed
  {
    NotYetCompleted(p, run, evals, n, n);
  }

  // ---------------------------------------------------------------------------
  // The three progressions
  // ---------------------------------------------------------------------------

  /** The two progressions step alike, whatever the step number. */
  ghost predicate SameSteps(p: Progression, q: Progression) {
    forall v: Weight, i: nat, j: nat :: NextWeight(p, v, i) == NextWeight(q, v, j)
  }

  lemma {:induction false} OneStepAhead(p: Progression, q: Progression, j: nat)
    requires SameSteps(p, q) && InitialWeight(q) == NextWeight(p, InitialWeight(p), 0)
    ensures WeightAt(p, j + 1) == WeightAt(q, j)
  {
    if j > 0 {
      OneStepAhead(p, q, j - 1);
      assert NextWeight(p, WeightAt(p, j), j) == NextWeight(q, WeightAt(q, j - 1), j - 1);
    }
  }

  /** A progression that starts where another is after one analysis needs one analysis less. */
  lemma FullLater(p: Progression, q: Progression, k: nat)
    requires SameSteps(p, q) && InitialWeight(q) == NextWeight(p, InitialWeight(p), 0) < 100 && FullAt(q, k)
    ensures FullAt(p, k + 1)
  {
    forall i | 0 <= i < k ensures NextWeight(p, WeightAt(p, i), i) < 100 {
      if i > 0 {
        OneStepAhead(p, q, i - 1);
        assert NextWeight(p, WeightAt(p, i), i) == NextWeight(q, WeightAt(q, i - 1), i - 1);
      }
    }
    OneStepAhead(p, q, k - 1);
    assert NextWeight(p, WeightAt(p, k), k) == NextWeight(q, WeightAt(q, k - 1), k - 1);
  }

  // Linear

  /** The number of analyses without overflow, `max(1, ceil((100 - w) / s))`. */
  function LinearRounds(w: nat, s: nat): nat
    requires s >= 1
  {
    if w + s >= 100 then 1 else (99 - w + s) / s
  }

  /** It is the smallest count of steps, at least one, that reaches 100. */
  lemma LinearRoundsIsLeast(w: nat, s: nat)
    requires s >= 1
    ensures var k := LinearRounds(w, s);
            k >= 1 && w + k * s >= 100 && (k > 1 ==> w + (k - 1) * s < 100)
  {
  }

  lemma Times(i: nat, k: nat, s: nat)
    requires i <= k
    ensures i * s <= k * s
  {
  }

  lemma QuotientIs(a: nat, d: nat, q: nat)
    requires d >= 1 && q * d <= a < q * d + d
    ensures a / d == q
  {
    var p := a / d;
    assert p * d <= a < p * d + d;
    if p < q { Times(p + 1, q, d); }
    if q < p { Times(q + 1, p, d); }
  }

  lemma QuotientStep(a: nat, d: nat)
    requires 1 <= d <= a
    ensures a / d == (a - d) / d + 1
  {
    var q := (a - d) / d;
    assert q * d <= a - d < q * d + d;
    QuotientIs(a, d, q + 1);
  }

  lemma LinearRoundsStep(w: nat, s: nat)
    requires s >= 1 && w + s < 100
    ensures LinearRounds(w, s) == LinearRounds(w + s, s) + 1
  {
    QuotientStep(99 - w + s, s);
    if w + s + s >= 100 { QuotientIs(99 - w, s, 1); }
  }

  lemma PlainStep(w: Weight, s: Weight)
    requires w + s < U32
    ensures NextWeight(Linear(w, s), w, 0) == Min(w + s, 100)
  {
  }

  lemma {:induction false} LinearFull(w: Weight, s: Weight)
    requires s >= 1 && w + s < U32
    ensures FullAt(Linear(w, s), LinearRounds(w, s))
    decreases 100 - w
  {
    PlainStep(w, s);
    if w + s < 100 {
      LinearFull(w + s, s);
      LinearRoundsStep(w, s);
      FullLater(Linear(w, s), Linear(w + s, s), LinearRounds(w + s, s));
    }
  }

  lemma WrappedStep(v: Weight, s: Weight)
    requires v < 100 && s >= 100
    ensures NextWeight(Linear(v, s), v, 0) == if v >= U32 - s then v - (U32 - s) else 100
  {
  }

  /** A step that wraps around takes `U32 - s` off the weight, until the weight is too small to wrap. */
  lemma {:induction false} WrappingFull(v: Weight, s: Weight)
    requires v < 100 && s >= 100
    ensures FullAt(Linear(v, s), v / (U32 - s) + 1)
    decreases v
  {
    var d := U32 - s;
    WrappedStep(v, s);
    if v >= d {
      WrappingFull(v - d, s);
      QuotientStep(v, d);
      FullLater(Linear(v, s), Linear(v - d, s), (v - d) / d + 1);
    } else {
      QuotientIs(v, d, 0);
    }
  }

  /** The first step wraps around and lands below full weight. */
  predicate WrapsBelow(w: Weight, s: Weight) {
    U32 <= w + s < U32 + 100
  }

  /**
   The number of analyses of every linear progression with a positive step. A first
   step that wraps below full weight costs an analysis and restarts the canary at the
   wrapped weight; from there it climbs step by step, or falls by `U32 - s` at each
   further analysis until a step no longer wraps.
   */
  function LinearAnalyses(w: Weight, s: Weight): nat
    requires s >= 1
  {
    if !WrapsBelow(w, s) then LinearRounds(w, s)
    else
      var v := w + s - U32;
      1 + if s < 100 then LinearRounds(v, s) else v / (U32 - s) + 1
  }

  /** From the wrapped weight on. */
  lemma WrappedFull(v: Weight, s: Weight)
    requires v < 100 && s >= 1
    ensures FullAt(Linear(v, s), if s < 100 then LinearRounds(v, s) else v / (U32 - s) + 1)
  {
    if s < 100 { LinearFull(v, s); } else { WrappingFull(v, s); }
  }

  lemma FirstStep(w: Weight, s: Weight)
    requires w + s >= U32
    ensures NextWeight(Linear(w, s), w, 0) == Min(w + s - U32, 100)
  {
  }

  lemma LinearFullAlways(w: Weight, s: Weight)
    requires s >= 1
    ensures FullAt(Linear(w, s), LinearAnalyses(w, s))
  {
    if w + s < U32 {
      LinearFull(w, s);
    } else {
      FirstStep(w, s);
      if WrapsBelow(w, s) {
        var v := w + s - U32;
        WrappedFull(v, s);
        FullLater(Linear(w, s), Linear(v, s), LinearAnalyses(w, s) - 1);
      }
    }
  }

  /** Every passing linear run with a positive step completes at reconcile `4k + 1`, `k` being its number of analyses. */
  lemma LinearTakes(w: Weight, s: Weight, run: seq<Status>, evals: seq<Evaluation>, n: nat)
    requires s >= 1 && PassingRun(Linear(w, s), run, evals) && n < |run|
    ensures run[n].phase == Completed <==> n >= 4 * LinearAnalyses(w, s) + 1
  {
    LinearFullAlways(w, s);
    CompletesExactly(Linear(w, s), run, evals, LinearAnalyses(w, s), n);
  }

  lemma WrappingTakesLonger(w: Weight, s: Weight)
    requires s >= 1
    ensures LinearAnalyses(w, s) == LinearRounds(w, s) <==> !WrapsBelow(w, s)
    ensures WrapsBelow(w, s) ==> LinearRounds(w, s) == 1 < LinearAnalyses(w, s)
  {
    if WrapsBelow(w, s) { WrappingCosts(w, s); }
  }

  /** The count without overflow sees full weight at once; the wrapped step costs at least one analysis more. */
  lemma WrappingCosts(w: Weight, s: Weight)
    requires s >= 1 && WrapsBelow(w, s)
    ensures LinearRounds(w, s) == 1 < LinearAnalyses(w, s)
  {
    var v := w + s - U32;
    if s < 100 {
      LinearRoundsIsLeast(v, s);
      assert LinearAnalyses(w, s) == 1 + LinearRounds(v, s);
    } else {
      QuotientNatural(v, U32 - s);
      assert LinearAnalyses(w, s) == 1 + (v / (U32 - s) + 1);
    }
  }

  lemma QuotientNatural(a: nat, d: nat)
    requires d >= 1
    ensures a / d >= 0
  {
  }

  /**
   The count without overflow is right if and only if the first step does not wrap below
   full weight. A run that is long enough to tell shows it.
   */
  lemma LinearFormulaExactly(w: Weight, s: Weight, run: seq<Status>, evals: seq<Evaluation>)
    requires s >= 1 && PassingRun(Linear(w, s), run, evals) && |run| > 5
    ensures (forall n | 0 <= n < |run| :: run[n].phase == Completed <==> n >= 4 * LinearRounds(w, s) + 1)
       <==> !WrapsBelow(w, s)
  {
    WrappingTakesLonger(w, s);
    forall n | 0 <= n < |run| ensures run[n].phase == Completed <==> n >= 4 * LinearAnalyses(w, s) + 1 {
      LinearTakes(w, s, run, evals, n);
    }
    if WrapsBelow(w, s) { assert run[5].phase != Completed; }
  }

  /** With step size 0 a canary completes, at once, if and only if it starts at full weight. */
  lemma ZeroStepTakes(w: Weight, run: seq<Status>, evals: seq<Evaluation>, n: nat)
    requires PassingRun(Linear(w, 0), run, evals) && n < |run|
    ensures run[n].phase == Completed <==> w >= 100 && n >= 5
  {
    if w >= 100 {
      CompletesExactly(Linear(w, 0), run, evals, 1, n);
    } else {
      forall i | 0 <= i < n ensures NextWeight(Linear(w, 0), WeightAt(Linear(w, 0), i), i) < 100 { StaysPut(w, i); }
      NeverCompletes(Linear(w, 0), run, evals, n);
    }
  }

  lemma {:induction false} StaysPut(w: Weight, j: nat)
    requires w < 100
    ensures WeightAt(Linear(w, 0), j) == w
  {
    if j > 0 { StaysPut(w, j - 1); }
  }

  // Stepwise

  ghost predicate FirstFull(steps: seq<Weight>, k: nat) {
    && k <= |steps| && (k < |steps| ==> steps[k] >= 100)
    && forall i | 0 <= i < k :: steps[i] < 100
  }

  /** A passing stepwise run completes after one analysis more than the index of the first full step, or their number. */
  lemma StepwiseTakes(steps: seq<Weight>, k: nat, run: seq<Status>, evals: seq<Evaluation>, n: nat)
    requires FirstFull(steps, k) && PassingRun(Stepwise(steps), run, evals) && n < |run|
    ensures run[n].phase == Completed <==> n >= 4 * (k + 1) + 1
  {
    CompletesExactly(Stepwise(steps), run, evals, k + 1, n);
  }

  /** The first configured step is analysed twice, each later one once. */
  lemma StepwiseWeights(steps: seq<Weight>, j: nat)
    requires 0 < |steps| && j <= |steps|
    ensures WeightAt(Stepwise(steps), j) == steps[if j == 0 then 0 else j - 1]
  {
  }

  /** Without configured steps the canary starts at five percent and is full after one analysis. */
  lemma NoStepsStartAtFive()
    ensures WeightAt(Stepwise([]), 0) == 5 && FullAt(Stepwise([]), 1)
  {
  }

  // Exponential

  /** Once a weight does not grow under multiplication, no smaller weight does either. */
  lemma StuckBelow(w: Weight, v: Weight, m: real)
    requires Multiplied(w, m) <= w && v <= w
    ensures Multiplied(v, m) <= v
  {
    if v as real * m > 0.0 {
      if m <= 1.0 {
        Scaled(v as real, 1.0 - m);
        assert v as real * m == v as real - v as real * (1.0 - m);
      } else {
        assert v as real * (m - 1.0) <= w as real * (m - 1.0) by { Scaled((w - v) as real, m - 1.0); }
        assert v as real * m == v as real + v as real * (m - 1.0);
        assert w as real * m == w as real + w as real * (m - 1.0);
      }
    }
  }

  lemma Scaled(x: real, y: real)
    requires x >= 0.0 && y >= 0.0
    ensures x * y >= 0.0
  {
  }

  /** A weight that grows keeps growing. */
  lemma GrowsOn(w: Weight, v: Weight, m: real)
    requires Multiplied(w, m) > w && w <= v
    ensures Multiplied(v, m) > v
  {
    assert w as real * m == w as real + w as real * (m - 1.0);
    assert v as real * m == v as real + v as real * (m - 1.0);
    assert m > 1.0 by {
      if m <= 1.0 { Scaled(w as real, 1.0 - m); }
    }
    Scaled((v - w) as real, m - 1.0);
    assert v as real * (m - 1.0) == w as real * (m - 1.0) + (v - w) as real * (m - 1.0);
  }

  lemma NextStuck(w: Weight, v: Weight, m: real, j: nat)
    requires Multiplied(w, m) <= w && Multiplied(w, m) < 100 && v <= w && (v == w || v < 100)
    ensures NextWeight(Exponential(w, m), v, j) <= w && NextWeight(Exponential(w, m), v, j) < 100
  {
    StuckBelow(w, v, m);
    assert v == w || Multiplied(v, m) <= v < 100;
  }

  lemma {:induction false} StuckWeights(w: Weight, m: real, j: nat)
    requires Multiplied(w, m) <= w && Multiplied(w, m) < 100
    ensures var v := WeightAt(Exponential(w, m), j);
            v <= w && (v == w || v < 100) && NextWeight(Exponential(w, m), v, j) < 100
  {
    if j > 0 {
      StuckWeights(w, m, j - 1);
      NextStuck(w, WeightAt(Exponential(w, m), j - 1), m, j - 1);
    }
    NextStuck(w, WeightAt(Exponential(w, m), j), m, j);
  }

  /** The first multiplication reaches full weight, or grows. */
  predicate Growing(w: Weight, m: real) {
    Multiplied(w, m) >= 100 || Multiplied(w, m) > w
  }

  /** How many analyses a growing exponential progression takes. */
  function ExponentialRounds(w: Weight, m: real): (k: nat)
    requires Growing(w, m)
    ensures k >= 1
    decreases 100 - w
  {
    if Multiplied(w, m) >= 100 then 1 else
    GrowsOn(w, Multiplied(w, m), m);
    1 + ExponentialRounds(Multiplied(w, m), m)
  }

  /** At most one for each percent that is missing. */
  lemma {:induction false} ExponentialRoundsBounded(w: Weight, m: real)
    requires Growing(w, m)
    ensures ExponentialRounds(w, m) <= if w < 100 then 100 - w else 1
    decreases 100 - w
  {
    if Multiplied(w, m) < 100 {
      GrowsOn(w, Multiplied(w, m), m);
      ExponentialRoundsBounded(Multiplied(w, m), m);
    }
  }

  lemma {:induction false} ExponentialFull(w: Weight, m: real)
    requires Growing(w, m)
    ensures FullAt(Exponential(w, m), ExponentialRounds(w, m))
    decreases 100 - w
  {
    var v := Multiplied(w, m);
    if v < 100 {
      GrowsOn(w, v, m);
      ExponentialFull(v, m);
      FullLater(Exponential(w, m), Exponential(v, m), ExponentialRounds(v, m));
    }
  }

  /** An exponential progression reaches full weight if and only if its first multiplication does, or grows. */
  lemma ExponentialCompletes(w: Weight, m: real)
    ensures (exists k: nat :: FullAt(Exponential(w, m), k)) <==> Growing(w, m)
  {
    if Growing(w, m) {
      ExponentialFull(w, m);
    } else {
      forall k: nat | k >= 1 ensures !FullAt(Exponential(w, m), k) { StuckWeights(w, m, k - 1); }
    }
  }

  /**
   A passing exponential run completes after `ExponentialRounds` analyses if it grows,
   at most one for each percent that was missing, and never otherwise.
   */
  lemma ExponentialTakes(w: Weight, m: real, run: seq<Status>, evals: seq<Evaluation>, n: nat)
    requires PassingRun(Exponential(w, m), run, evals) && n < |run|
    ensures run[n].phase == Completed <==> Growing(w, m) && n >= 4 * ExponentialRounds(w, m) + 1
    ensures Growing(w, m) && n >= 4 * (if w < 100 then 100 - w else 1) + 1 ==> run[n].phase == Completed
  {
    var p := Exponential(w, m);
    if Growing(w, m) {
      ExponentialRoundsBounded(w, m);
      ExponentialFull(w, m);
      CompletesExactly(p, run, evals, ExponentialRounds(w, m), n);
    } else {
      forall i | 0 <= i < n ensures NextWeight(p, WeightAt(p, i), i) < 100 { StuckWeights(w, m, i); }
      NeverCompletes(p, run, evals, n);
    }
  }
}
