/**
 The drain protocol of `src/connection_drain.rs` with whole methods, and the
 straggler block, as steps: what every run keeps, and the controller itself.
 */
module DrainProtocol {

  datatype Phase = Active | StopIntake | Draining | Terminated

  /**
   The controller's counters, and the guards that are alive. `cut` are stream
   guards that were interrupted and not dropped yet; `grace` and `final` count
   the drains that wait for streams and for the rest.
   */
  datatype Model = Model(
    phase: Phase,
    inFlight: int,
    streams: int,
    peak: int,
    interrupted: int,
    conns: set<nat>,
    open: set<nat>,
    cut: set<nat>,
    grace: nat,
    final: nat,
    admitted: nat,
    released: nat)

  datatype Step =
    | StopIntakeStep
    | AcquireStep(g: nat)
    | OpenStep(g: nat)
    | DropConnection(g: nat)
    | DropStream(g: nat)
    | BeginDrain
    | InterruptStragglers
    | FinishDrain

  const INITIAL := Model(Active, 0, 0, 0, 0, {}, {}, {}, 0, 0, 0, 0)

  /** Guards are new when they are created and alive when they are dropped. */
  predicate Enabled(m: Model, s: Step) {
    match s
    case AcquireStep(g) => g !in m.conns + m.open + m.cut
    case OpenStep(g) => g !in m.conns + m.open + m.cut
    case DropConnection(g) => g in m.conns
    case DropStream(g) => g in m.open + m.cut
    case InterruptStragglers => m.grace > 0
    case FinishDrain => m.final > 0
    case _ => true
  }

  function Max(a: int, b: int): int { if a > b then a else b }

  function After(m: Model, s: Step): Model
    requires Enabled(m, s)
  {
    match s
    case StopIntakeStep => m.(phase := StopIntake)
    case AcquireStep(g) =>
      if m.phase != Active then m
      else m.(inFlight := m.inFlight + 1, peak := Max(m.peak, m.inFlight + 1), conns := m.conns + {g},
              admitted := m.admitted + 1)
    case OpenStep(g) =>
      if m.phase != Active then m
      else m.(streams := m.streams + 1, inFlight := m.inFlight + 1, peak := Max(m.peak, m.inFlight + 1),
              open := m.open + {g}, admitted := m.admitted + 1)
    case DropConnection(g) =>
      m.(inFlight := m.inFlight - 1, conns := m.conns - {g}, released := m.released + 1)
    case DropStream(g) =>
      if m.streams > 0 then
        m.(streams := m.streams - 1, inFlight := m.inFlight - 1, open := m.open - {g}, cut := m.cut - {g},
           released := m.released + 1)
      else m.(open := m.open - {g}, cut := m.cut - {g})
    case BeginDrain =>
      if m.streams > 0 then m.(phase := Draining, grace := m.grace + 1)
      else m.(phase := Draining, final := m.final + 1)
    case InterruptStragglers =>
      if m.streams > 0 then
        m.(interrupted := m.interrupted + m.streams, inFlight := m.inFlight - m.streams, streams := 0,
           open := {}, cut := m.cut + m.open, grace := m.grace - 1, final := m.final + 1)
      else m.(grace := m.grace - 1, final := m.final + 1)
    case FinishDrain => m.(phase := Terminated, final := m.final - 1)
  }

  /**
   What every step keeps. `in_flight` is the live connections plus the live
   uninterrupted streams; admissions are released, interrupted or in flight; a
   drain in its last wait has no uninterrupted stream left to wait for.
   */
  ghost predicate Inv(m: Model) {
    && m.conns !! m.open && m.conns !! m.cut && m.open !! m.cut
    && m.inFlight == |m.conns| + |m.open|
    && m.streams == |m.open|
    && m.admitted == m.released + m.interrupted + m.inFlight
    && m.inFlight <= m.peak
    && (m.grace > 0 || m.final > 0 || m.cut != {} ==> m.phase != Active)
    && (m.final > 0 || m.cut != {} ==> m.open == {})
  }

  lemma InvStep(m: Model, s: Step)
    requires Inv(m) && Enabled(m, s)
    ensures Inv(After(m, s))
    ensures m.phase != Active ==> After(m, s).phase != Active
    ensures After(m, s).peak == Max(m.peak, After(m, s).inFlight)
  {
  }

  // ---------------------------------------------------------------------------
  // Runs
  // ---------------------------------------------------------------------------

  ghost predicate Next(m: Model, m': Model) {
    exists s | Enabled(m, s) :: m' == After(m, s)
  }

  ghost predicate IsRun(run: seq<Model>) {
    && run != [] && run[0] == INITIAL
    && forall i | 0 <= i < |run| - 1 :: Next(run[i], run[i + 1])
  }

  lemma InvNext(m: Model, m': Model)
    requires Inv(m) && Next(m, m')
    ensures Inv(m')
    ensures m.phase != Active ==> m'.phase != Active
    ensures m'.peak == Max(m.peak, m'.inFlight)
  {
    var s :| Enabled(m, s) && m' == After(m, s);
    InvStep(m, s);
  }

  lemma InvInitial()
    ensures Inv(INITIAL)
  {
  }

  /** Every run keeps the invariant in every state. */
  lemma {:induction false} RunsKeepInv(run: seq<Model>, i: nat)
    requires IsRun(run) && i < |run|
    ensures Inv(run[i])
  {
    if i == 0 {
      InvInitial();
    } else {
      RunsKeepInv(run, i - 1);
      assert Next(run[i - 1], run[i - 1 + 1]);
      InvNext(run[i - 1], run[i]);
    }
  }

  lemma PeakStep(run: seq<Model>, n: nat)
    requires IsRun(run) && 0 < n < |run|
    ensures run[n].peak == Max(run[n - 1].peak, run[n].inFlight)
  {
    RunsKeepInv(run, n - 1);
    assert Next(run[n - 1], run[n - 1 + 1]);
    InvNext(run[n - 1], run[n]);
  }

  /** `peak_in_flight` bounds every in_flight the run has seen, and was reached. */
  lemma {:induction false} PeakIsMaximum(run: seq<Model>, n: nat) returns (top: nat)
    requires IsRun(run) && n < |run|
    ensures forall i | 0 <= i <= n :: run[i].inFlight <= run[n].peak
    ensures top <= n && run[top].inFlight == run[n].peak
  {
    if n == 0 {
      top := 0;
    } else {
      top := PeakIsMaximum(run, n - 1);
      PeakStep(run, n);
      if run[n].inFlight > run[n - 1].peak { top := n; }
    }
  }

  /** The phase never returns to Active, so nothing is admitted after it has left. */
  lemma {:induction false} PhaseNeverReturns(run: seq<Model>, i: nat, j: nat)
    requires IsRun(run) && i <= j < |run| && run[i].phase != Active
    ensures run[j].phase != Active
    ensures run[j].admitted == run[i].admitted
    decreases j
  {
    if i < j {
      PhaseNeverReturns(run, i, j - 1);
      assert Next(run[j - 1], run[j - 1 + 1]);
    }
  }

  /** What a step does to the phase, whatever else it does. */
  lemma PhaseStep(m: Model, s: Step)
    requires Enabled(m, s)
    ensures After(m, s).phase == match s
                                 case StopIntakeStep => StopIntake
                                 case BeginDrain => Draining
                                 case FinishDrain => Terminated
                                 case _ => m.phase
  {
  }

  /** The guards that are alive, and the drains that are under way. */
  function Live(m: Model): set<nat> { m.conns + m.open + m.cut }

  function Waiting(m: Model): nat { m.grace + m.final }

  lemma DropKeepsOthers(conns: set<nat>, open: set<nat>, cut: set<nat>, g: nat)
    requires conns !! open && conns !! cut
    ensures g in conns ==> (conns - {g}) + open + cut == conns + open + cut - {g}
    ensures g in open + cut ==> conns + (open - {g}) + (cut - {g}) == conns + open + cut - {g}
  {
  }

  /**
   A guard comes into being when work is admitted and goes when it is dropped;
   nothing else creates or destroys one.
   */
  lemma GuardsStep(m: Model, s: Step)
    requires Inv(m) && Enabled(m, s)
    ensures Live(After(m, s)) == match s
                                 case AcquireStep(g) => if m.phase == Active then Live(m) + {g} else Live(m)
                                 case OpenStep(g) => if m.phase == Active then Live(m) + {g} else Live(m)
                                 case DropConnection(g) => Live(m) - {g}
                                 case DropStream(g) => Live(m) - {g}
                                 case _ => Live(m)
  {
    if s.DropConnection? || s.DropStream? { DropKeepsOthers(m.conns, m.open, m.cut, s.g); }
  }

  /** A drain is under way from its beginning to its end, and waits for streams first if any is open. */
  lemma DrainsStep(m: Model, s: Step)
    requires Inv(m) && Enabled(m, s)
    ensures Waiting(After(m, s)) == Waiting(m) + if s.BeginDrain? then 1 else if s.FinishDrain? then -1 else 0
    ensures s.BeginDrain? ==> (After(m, s).grace > m.grace <==> m.open != {})
    ensures s.InterruptStragglers? ==> After(m, s).grace == m.grace - 1
  {
  }

  /** A step that asks for admission. */
  predicate Asks(s: Step) {
    s.AcquireStep? || s.OpenStep?
  }

  ghost predicate IsStepRun(run: seq<Model>, steps: seq<Step>) {
    && |run| == |steps| + 1 && run[0] == INITIAL
    && forall i | 0 <= i < |steps| :: Enabled(run[i], steps[i]) && run[i + 1] == After(run[i], steps[i])
  }

  lemma {:induction false} StaysInactive(run: seq<Model>, steps: seq<Step>, i: nat, j: nat)
    requires IsStepRun(run, steps) && i <= j < |run| && run[i].phase != Active
    ensures run[j].phase != Active
    decreases j
  {
    if i < j {
      StaysInactive(run, steps, i, j - 1);
      PhaseStep(run[j - 1], steps[j - 1]);
      assert run[j - 1 + 1] == After(run[j - 1], steps[j - 1]);
    }
  }

  /** Work is admitted under a new name and counted exactly in phase Active; otherwise nothing happens at all. */
  lemma AdmittedExactly(m: Model, s: Step)
    requires Enabled(m, s) && Asks(s)
    ensures m.phase != Active ==> After(m, s) == m
    ensures m.phase == Active ==>
              && After(m, s).admitted == m.admitted + 1 && After(m, s).inFlight == m.inFlight + 1
              && s.g in After(m, s).conns + After(m, s).open
              && After(m, s).streams == m.streams + if s.OpenStep? then 1 else 0
  {
  }

  /** After intake was stopped, or a drain has begun, in any run, a request for admission does nothing. */
  lemma NothingAfterStop(run: seq<Model>, steps: seq<Step>, i: nat, j: nat)
    requires IsStepRun(run, steps) && i < j < |steps|
    requires (steps[i] == StopIntakeStep || steps[i] == BeginDrain) && Asks(steps[j])
    ensures run[j + 1] == run[j]
  {
    assert run[i + 1] == After(run[i], steps[i]);
    PhaseStep(run[i], steps[i]);
    StaysInactive(run, steps, i + 1, j);
    AdmittedExactly(run[j], steps[j]);
    assert run[j + 1] == After(run[j], steps[j]);
  }

  // ---------------------------------------------------------------------------
  // The controller
  // ---------------------------------------------------------------------------

  datatype DrainMetrics = DrainMetrics(peakInFlight: int, forcedTerminations: int, streamsInterrupted: int)

  /** The controller; `model` is its counters together with the guards it has handed out. */
  class DrainController {
    var phase: Phase
    var inFlight: int
    var streams: int
    var peakInFlight: int
    var streamsInterrupted: int
    ghost var model: Model

    ghost predicate Valid()
      reads this
    {
      && phase == model.phase
      && inFlight == model.inFlight
      && streams == model.streams
      && peakInFlight == model.peak
      && streamsInterrupted == model.interrupted
      && Inv(model)
    }

    /** No counter has changed. */
    twostate predicate CountsAreOld()
      reads this
    {
      && inFlight == old(inFlight) && streams == old(streams) && peakInFlight == old(peakInFlight)
      && streamsInterrupted == old(streamsInterrupted)
    }

    constructor ()
      ensures Valid() && model == INITIAL
      ensures phase == Active && inFlight == streams == peakInFlight == streamsInterrupted == 0
    {
      phase := Active;
      inFlight, streams, peakInFlight, streamsInterrupted := 0, 0, 0, 0;
      model := INITIAL;
    }

    method StopIntake()
      requires Valid()
      modifies this
      ensures Valid() && model == After(old(model), StopIntakeStep)
      ensures phase == Phase.StopIntake && CountsAreOld()
    {
      InvStep(model, StopIntakeStep);
      phase := Phase.StopIntake;
      model := After(model, StopIntakeStep);
    }

    /** Admits one unit of work under the name `g`, or refuses it. */
    method Acquire(ghost g: nat) returns (ok: bool)
      requires Valid() && Enabled(model, AcquireStep(g))
      modifies this
      ensures Valid() && model == After(old(model), AcquireStep(g))
      ensures ok <==> old(phase) == Active
      ensures ok <==> g in model.conns
      ensures phase == old(phase) && streams == old(streams) && streamsInterrupted == old(streamsInterrupted)
      ensures inFlight == old(inFlight) + if ok then 1 else 0
      ensures peakInFlight == if ok then Max(old(peakInFlight), inFlight) else old(peakInFlight)
    {
      InvStep(model, AcquireStep(g));
      ok := phase == Active;
      if ok {
        inFlight := inFlight + 1;
        var current := inFlight;
        if current > peakInFlight { peakInFlight := current; }
      }
      model := After(model, AcquireStep(g));
    }

    method OpenStream(ghost g: nat) returns (ok: bool)
      requires Valid() && Enabled(model, OpenStep(g))
      modifies this
      ensures Valid() && model == After(old(model), OpenStep(g))
      ensures ok <==> old(phase) == Active
      ensures ok <==> g in model.open
      ensures phase == old(phase) && streamsInterrupted == old(streamsInterrupted)
      ensures inFlight == old(inFlight) + (if ok then 1 else 0) && streams == old(streams) + if ok then 1 else 0
      ensures peakInFlight == if ok then Max(old(peakInFlight), inFlight) else old(peakInFlight)
    {
      InvStep(model, OpenStep(g));
      ok := phase == Active;
      if ok {
        streams := streams + 1;
        inFlight := inFlight + 1;
        var current := inFlight;
        if current > peakInFlight { peakInFlight := current; }
      }
      model := After(model, OpenStep(g));
    }

    /** `ConnectionGuard::drop`: the counter cannot underflow. */
    method ReleaseConnection(ghost g: nat)
      requires Valid() && g in model.conns
      modifies this
      ensures Valid() && model == After(old(model), DropConnection(g))
      ensures 0 <= inFlight == old(inFlight) - 1
      ensures phase == old(phase) && streams == old(streams) && g !in model.conns
    {
      InvStep(model, DropConnection(g));
      inFlight := inFlight - 1;
      model := After(model, DropConnection(g));
    }

    /** `StreamGuard::drop`: releases the slot exactly when the stream was not interrupted. */
    method ReleaseStream(ghost g: nat)
      requires Valid() && g in model.open + model.cut
      modifies this
      ensures Valid() && model == After(old(model), DropStream(g))
      ensures 0 <= inFlight == if g in old(model.open) then old(inFlight) - 1 else old(inFlight)
      ensures streams - old(streams) == inFlight - old(inFlight) && phase == old(phase) && g !in model.open + model.cut
    {
      InvStep(model, DropStream(g));
      if streams > 0 {
        streams := streams - 1;
        inFlight := inFlight - 1;
      }
      model := After(model, DropStream(g));
    }

    /** The first part of `drain`; `waits` tells whether streams get their grace. */
    method Begin() returns (waits: bool)
      requires Valid()
      modifies this
      ensures Valid() && model == After(old(model), BeginDrain)
      ensures waits <==> old(model.open) != {}
      ensures phase == Draining && CountsAreOld() && Live(model) == Live(old(model))
      ensures model.grace == old(model.grace) + (if waits then 1 else 0)
      ensures model.final == old(model.final) + if waits then 0 else 1
    {
      InvStep(model, BeginDrain);
      phase := Draining;
      waits := streams > 0;
      model := After(model, BeginDrain);
    }

    /** The straggler block: every stream that is still open is released once. */
    method Interrupt()
      requires Valid() && model.grace > 0
      modifies this
      ensures Valid() && model == After(old(model), InterruptStragglers)
      ensures model.open == {} && inFlight == |model.conns|
      ensures streamsInterrupted == old(streamsInterrupted) + |old(model.open)|
      ensures streams == 0 && phase == old(phase) && model.conns == old(model.conns)
      ensures model.cut == old(model.cut + model.open)
      ensures model.grace == old(model.grace) - 1 && model.final == old(model.final) + 1
    {
      InvStep(model, InterruptStragglers);
      var stragglers := streams;
      if stragglers > 0 {
        streamsInterrupted := streamsInterrupted + stragglers;
        inFlight := inFlight - stragglers;
        streams := 0;
      }
      model := After(model, InterruptStragglers);
    }

    /** The end of `drain`: forced terminations are exactly the connections still held. */
    method Finish() returns (metrics: DrainMetrics)
      requires Valid() && model.final > 0
      modifies this
      ensures Valid() && model == After(old(model), FinishDrain)
      ensures metrics == DrainMetrics(peakInFlight, |model.conns|, streamsInterrupted)
      ensures metrics.forcedTerminations == 0 <==> model.conns == {}
      ensures phase == Terminated && CountsAreOld() && Live(model) == Live(old(model))
      ensures model.final == old(model.final) - 1
    {
      InvStep(model, FinishDrain);
      var remaining := inFlight;
      phase := Terminated;
      model := After(model, FinishDrain);
      metrics := DrainMetrics(peakInFlight, remaining, streamsInterrupted);
    }
  }
}
