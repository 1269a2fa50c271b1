/**
 The drain protocol of `src/connection_drain.rs` with single atomic operations as
 steps. Any number of tasks run `acquire`, `open_stream`, `drain`, `stop_intake`
 and the guards' `drop` in any interleaving.
 */
module DrainAtomic {

  const USIZE := 0x1_0000_0000_0000_0000

  datatype Phase = Active | StopIntake | Draining | Terminated

  /** Where a task stands between two atomic operations. */
  datatype Pc =
    | Idle
    | AcquireChecked                // saw Active in `acquire`
    | AcquireAdded(current: nat)    // added to in_flight, peak not yet raised
    | ConnHeld                      // owns a ConnectionGuard
    | OpenChecked                   // saw Active in `open_stream`
    | OpenCounted                   // added to streams only
    | OpenAdded(current: nat)       // added to both, peak not yet raised
    | StreamHeld                    // owns a StreamGuard
    | DropCounted                   // took one off streams, in_flight not yet
    | DrainBegun                    // wrote Draining
    | DrainGrace                    // waits for streams
    | Loaded(stragglers: nat)       // read streams again, and it was not zero
    | Booked(stragglers: nat)       // added them to streams_interrupted
    | Subtracted(stragglers: nat)   // took them off in_flight
    | DrainFinal                    // waits for the rest
    | DrainRead(remaining: nat)     // read in_flight

  /** The shared variables, and bookkeeping of the model. */
  datatype Shared = Shared(
    phase: Phase,
    // The sum of all additions to and subtractions from in_flight. The atomic
    // wraps around, so what it holds is this sum modulo the word size.
    added: int,
    streams: nat,
    peak: nat,
    interrupted: nat,
    // Live stream guards whose count was taken away, what the stores of zero
    // lost or gained, and whether stragglers were ever found.
    orphans: int,
    drift: int,
    cut: bool)
  {
    /** What a load of in_flight returns. */
    function InFlight(): nat { added % USIZE }
  }

  datatype State = State(sh: Shared, pcs: seq<Pc>)

  // ---------------------------------------------------------------------------
  // Steps
  // ---------------------------------------------------------------------------

  datatype Move = Stop | Acquire | Open | Drain | Go

  /** A task may start an operation only when it runs none. */
  predicate Enabled(s: State, t: nat, m: Move) {
    t < |s.pcs| && (m == Go <==> s.pcs[t] != Idle)
  }

  /** Starting an operation; `stop_intake` is over with its only write. */
  function Started(sh: Shared, m: Move): (Shared, Pc) {
    match m
    case Stop => (sh.(phase := StopIntake), Idle)
    case Acquire => (sh, if sh.phase == Active then AcquireChecked else Idle)
    case Open => (sh, if sh.phase == Active then OpenChecked else Idle)
    case Drain => (sh.(phase := Draining), DrainBegun)
    case Go => (sh, Idle)
  }

  /** The next atomic operation of a task that stands at `pc`. */
  function Continued(sh: Shared, pc: Pc): (Shared, Pc) {
    match pc
    case Idle => (sh, Idle)
    case AcquireChecked => (sh.(added := sh.added + 1), AcquireAdded(sh.InFlight() + 1))
    case AcquireAdded(c) => (sh.(peak := if c > sh.peak then c else sh.peak), ConnHeld)
    case ConnHeld => (sh.(added := sh.added - 1), Idle)
    case OpenChecked => (sh.(streams := sh.streams + 1), OpenCounted)
    case OpenCounted => (sh.(added := sh.added + 1), OpenAdded(sh.InFlight() + 1))
    case OpenAdded(c) => (sh.(peak := if c > sh.peak then c else sh.peak), StreamHeld)
    case StreamHeld =>
      if sh.streams > 0 then (sh.(streams := sh.streams - 1), DropCounted)
      else (sh.(orphans := sh.orphans - 1), Idle)
    case DropCounted => (sh.(added := sh.added - 1), Idle)
    case DrainBegun => (sh, if sh.streams > 0 then DrainGrace else DrainFinal)
    case DrainGrace => if sh.streams > 0 then (sh.(cut := true), Loaded(sh.streams)) else (sh, DrainFinal)
    case Loaded(n) => (sh.(interrupted := sh.interrupted + n), Booked(n))
    case Booked(n) => (sh.(added := sh.added - n), Subtracted(n))
    case Subtracted(n) =>
      (sh.(streams := 0, orphans := sh.orphans + sh.streams, drift := sh.drift + sh.streams - n), DrainFinal)
    case DrainFinal => (sh, DrainRead(sh.InFlight()))
    case DrainRead(_) => (sh.(phase := Terminated), Idle)
  }

  function Stepped(sh: Shared, pc: Pc, m: Move): (Shared, Pc) {
    if m == Go then Continued(sh, pc) else Started(sh, m)
  }

  /** One atomic operation of task `t`. */
  function After(s: State, t: nat, m: Move): State
    requires Enabled(s, t, m)
  {
    var (sh, pc) := Stepped(s.sh, s.pcs[t], m);
    State(sh, s.pcs[t := pc])
  }

  predicate Initial(s: State) {
    s == State(Shared(Active, 0, 0, 0, 0, 0, 0, false), seq(|s.pcs|, _ => Idle))
  }

  ghost predicate Next(s: State, s': State) {
    exists t, m | Enabled(s, t, m) :: s' == After(s, t, m)
  }

  ghost predicate IsRun(run: seq<State>) {
    && run != [] && Initial(run[0])
    && forall i | 0 <= i < |run| - 1 :: Next(run[i], run[i + 1])
  }

  // ---------------------------------------------------------------------------
  // Counting tasks
  // ---------------------------------------------------------------------------

  /** The quantities that are added up over all tasks. */
  datatype Role = Conns | StreamGuards | OpenHalf | HalfOpen | DropHalf | InBlock | BlockValue | Owed | Units | Drains

  function Weight(r: Role, pc: Pc): nat {
    match r
    case Conns => if pc.AcquireAdded? || pc.ConnHeld? then 1 else 0
    case StreamGuards => if pc.OpenCounted? || pc.OpenAdded? || pc.StreamHeld? then 1 else 0
    case OpenHalf => if pc.OpenCounted? then 1 else 0
    case HalfOpen => if pc.OpenChecked? || pc.OpenCounted? then 1 else 0
    case DropHalf => if pc.DropCounted? then 1 else 0
    case InBlock => if pc.Loaded? || pc.Booked? || pc.Subtracted? then 1 else 0
    case BlockValue => if pc.Loaded? || pc.Booked? || pc.Subtracted? then pc.stragglers else 0
    case Owed => if pc.Subtracted? then pc.stragglers else 0
    case Units =>
      if pc.AcquireAdded? || pc.ConnHeld? || pc.OpenCounted? || pc.OpenAdded? || pc.StreamHeld? || pc.DropCounted?
      then 1 else 0
    case Drains => if pc.DrainBegun? || pc.DrainGrace? || pc.Loaded? || pc.Booked? || pc.Subtracted? then 1 else 0
  }

  function Count(r: Role, pcs: seq<Pc>): nat {
    if pcs == [] then 0 else Weight(r, pcs[0]) + Count(r, pcs[1..])
  }

  lemma {:induction false} CountUpdate(r: Role, pcs: seq<Pc>, t: nat, pc: Pc)
    requires t < |pcs|
    ensures Count(r, pcs[t := pc]) == Count(r, pcs) - Weight(r, pcs[t]) + Weight(r, pc)
    ensures Count(r, pcs) >= Weight(r, pcs[t])
  {
    if t > 0 {
      assert pcs[t := pc][1..] == pcs[1..][t - 1 := pc];
      CountUpdate(r, pcs[1..], t - 1, pc);
    } else {
      assert pcs[t := pc][1..] == pcs[1..];
    }
  }

  lemma {:induction false} CountIdle(r: Role, n: nat)
    ensures Count(r, seq(n, _ => Idle)) == 0
  {
    var pcs := seq(n, _ => Idle);
    if n > 0 {
      assert pcs[1..] == seq(n - 1, _ => Idle);
      CountIdle(r, n - 1);
    }
  }

  /** Every unit of in_flight belongs to a task of its own. */
  lemma {:induction false} UnitsSplit(pcs: seq<Pc>)
    ensures Count(Units, pcs) == Count(Conns, pcs) + Count(StreamGuards, pcs) + Count(DropHalf, pcs)
    ensures Count(Units, pcs) <= |pcs|
  {
    if pcs != [] { UnitsSplit(pcs[1..]); }
  }

  lemma {:induction false} OpenNests(pcs: seq<Pc>)
    ensures Count(OpenHalf, pcs) <= Count(StreamGuards, pcs)
    ensures Count(OpenHalf, pcs) <= Count(HalfOpen, pcs)
  {
    if pcs != [] { OpenNests(pcs[1..]); }
  }

  lemma {:induction false} BlockNests(pcs: seq<Pc>)
    ensures Count(Owed, pcs) <= Count(BlockValue, pcs)
    ensures Count(InBlock, pcs) == 0 ==> Count(BlockValue, pcs) == 0
    ensures Count(InBlock, pcs) <= Count(Drains, pcs)
  {
    if pcs != [] { BlockNests(pcs[1..]); }
  }

  lemma UnitsAdd(pcs: seq<Pc>)
    ensures Count(Units, pcs) == Count(Conns, pcs) + Count(StreamGuards, pcs) + Count(DropHalf, pcs)
    ensures Count(Units, pcs) <= |pcs|
    ensures Count(OpenHalf, pcs) <= Count(StreamGuards, pcs)
    ensures Count(OpenHalf, pcs) <= Count(HalfOpen, pcs)
    ensures Count(Owed, pcs) <= Count(BlockValue, pcs)
    ensures Count(InBlock, pcs) == 0 ==> Count(BlockValue, pcs) == 0
    ensures Count(InBlock, pcs) <= Count(Drains, pcs)
  {
    UnitsSplit(pcs);
    OpenNests(pcs);
    BlockNests(pcs);
  }

  // ---------------------------------------------------------------------------
  // Every interleaving
  // ---------------------------------------------------------------------------

  /** What in_flight should hold: live guards and half-done operations. */
  function Expected(s: State): int {
    Count(Conns, s.pcs) + s.sh.streams - Count(OpenHalf, s.pcs) + Count(DropHalf, s.pcs) - Count(Owed, s.pcs)
  }

  /**
   True of every reachable state, whatever the interleaving. The in_flight
   counter is off by exactly what the stores of zero lost or gained; live stream
   guards are counted or orphaned; the phase is not Active once a drain began.
   */
  ghost predicate Inv(s: State) {
    && s.sh.added == Expected(s) + s.sh.drift
    && s.sh.streams + s.sh.orphans == Count(StreamGuards, s.pcs)
    && s.sh.orphans >= 0
    && (Count(Drains, s.pcs) > 0 || s.sh.cut ==> s.sh.phase != Active)
  }

  lemma InvInitial(s: State)
    requires Initial(s)
    ensures Inv(s)
  {
    forall r: Role ensures Count(r, s.pcs) == 0 { CountIdle(r, |s.pcs|); }
  }

  /** The counter less the part of the counted side that one task can change. */
  function Balance(sh: Shared, pc: Pc): int {
    sh.added - sh.drift - sh.streams
    - Weight(Conns, pc) + Weight(OpenHalf, pc) - Weight(DropHalf, pc) + Weight(Owed, pc)
  }

  /** One operation moves the counter and the counted side by the same amount. */
  lemma StepBalances(sh: Shared, pc: Pc, m: Move)
    requires m == Go <==> pc != Idle
    ensures Balance(Stepped(sh, pc, m).0, Stepped(sh, pc, m).1) == Balance(sh, pc)
  {
  }

  /** The stream guards it creates or drops are counted or orphaned. */
  lemma StepKeepsGuards(sh: Shared, pc: Pc, m: Move)
    requires m == Go <==> pc != Idle
    ensures var (sh', pc') := Stepped(sh, pc, m);
            && sh'.streams + sh'.orphans - Weight(StreamGuards, pc') == sh.streams + sh.orphans - Weight(StreamGuards, pc)
            && (sh'.orphans >= sh.orphans || (sh.streams == 0 && pc == StreamHeld && sh'.orphans == sh.orphans - 1))
  {
  }

  /** A drain that began keeps the phase away from Active, and nothing brings it back. */
  lemma StepKeepsPhase(sh: Shared, pc: Pc, m: Move)
    requires m == Go <==> pc != Idle
    ensures var (sh', pc') := Stepped(sh, pc, m);
            && (Weight(Drains, pc') > Weight(Drains, pc) ==> sh'.phase != Active)
            && (sh'.cut != sh.cut ==> Weight(Drains, pc) > 0)
            && (sh.phase != Active ==> sh'.phase != Active)
  {
  }

  lemma InvStep(s: State, t: nat, m: Move)
    requires Inv(s) && Enabled(s, t, m)
    ensures Inv(After(s, t, m))
  {
    var (sh', pc') := Stepped(s.sh, s.pcs[t], m);
    StepBalances(s.sh, s.pcs[t], m);
    StepKeepsGuards(s.sh, s.pcs[t], m);
    StepKeepsPhase(s.sh, s.pcs[t], m);
    CountUpdate(Conns, s.pcs, t, pc');
    CountUpdate(OpenHalf, s.pcs, t, pc');
    CountUpdate(DropHalf, s.pcs, t, pc');
    CountUpdate(Owed, s.pcs, t, pc');
    CountUpdate(StreamGuards, s.pcs, t, pc');
    CountUpdate(Drains, s.pcs, t, pc');
  }

  /** In_flight against the live guards: half-done operations, orphans and the drift are all the difference. */
  ghost predicate Accounted(s: State) {
    s.sh.added == Count(Conns, s.pcs) + Count(StreamGuards, s.pcs) - s.sh.orphans
                  - Count(OpenHalf, s.pcs) + Count(DropHalf, s.pcs) - Count(Owed, s.pcs) + s.sh.drift
  }

  /** Every state of every run: the counters are exact up to the recorded orphans and drift. */
  lemma {:induction false} CountersUpToDrift(run: seq<State>)
    requires IsRun(run)
    ensures forall i | 0 <= i < |run| :: Inv(run[i]) && Accounted(run[i])
  {
    var n := |run| - 1;
    if n == 0 {
      InvInitial(run[0]);
    } else {
      CountersUpToDrift(run[..n]);
      assert run[..n][n - 1] == run[n - 1] && Next(run[n - 1], run[n]);
      var t, m :| Enabled(run[n - 1], t, m) && run[n] == After(run[n - 1], t, m);
      InvStep(run[n - 1], t, m);
      forall i | 0 <= i < |run| ensures Inv(run[i]) && Accounted(run[i]) {
        if i < n { assert run[..n][i] == run[i]; }
      }
    }
  }

  // ---------------------------------------------------------------------------
  // Interleavings in which the straggler block is undisturbed
  // ---------------------------------------------------------------------------

  /**
   The side condition. Stragglers are loaded only when no other drain is between
   its load and its store and no task is half way through `open_stream`, its
   phase check included; and no stream count is given back in between.
   */
  ghost predicate Polite(s: State, t: nat, m: Move)
    requires Enabled(s, t, m)
  {
    s.sh.streams > 0 ==>
      && (s.pcs[t] == DrainGrace ==> Count(HalfOpen, s.pcs) == 0 && Count(InBlock, s.pcs) == 0)
      && (s.pcs[t] == StreamHeld ==> Count(InBlock, s.pcs) == 0)
  }

  ghost predicate PoliteNext(s: State, s': State) {
    exists t, m | Enabled(s, t, m) && Polite(s, t, m) :: s' == After(s, t, m)
  }

  ghost predicate IsPoliteRun(run: seq<State>) {
    && run != [] && Initial(run[0])
    && forall i | 0 <= i < |run| - 1 :: PoliteNext(run[i], run[i + 1])
  }

  ghost predicate PoliteInv(s: State) {
    && Inv(s)
    && s.sh.drift == 0
    && Count(InBlock, s.pcs) <= 1
    && (Count(InBlock, s.pcs) == 1 ==> s.sh.streams == Count(BlockValue, s.pcs))
    && (s.sh.cut ==> Count(HalfOpen, s.pcs) == 0)
    && (s.sh.cut && Count(InBlock, s.pcs) == 0 ==> s.sh.streams == 0)
    && (!s.sh.cut ==> s.sh.orphans == 0 && Count(InBlock, s.pcs) == 0)
  }

  /** The counters equal the live guards plus the half-done operations, without wrapping. */
  lemma CountersExact(s: State)
    requires PoliteInv(s) && |s.pcs| < USIZE
    ensures 0 <= s.sh.added <= |s.pcs|
    ensures s.sh.InFlight() == Expected(s)
    ensures s.sh.streams + s.sh.orphans == Count(StreamGuards, s.pcs)
  {
    UnitsAdd(s.pcs);
  }

  /** Once stragglers were cut off, what a drain reads is connections and drops under way. */
  lemma ForcedTerminations(s: State)
    requires PoliteInv(s) && |s.pcs| < USIZE && s.sh.cut && Count(InBlock, s.pcs) == 0
    ensures s.sh.InFlight() == Count(Conns, s.pcs) + Count(DropHalf, s.pcs)
  {
    CountersExact(s);
    UnitsAdd(s.pcs);
  }

  /** The only task in the block holds the whole block value. */
  lemma OneInBlock(pcs: seq<Pc>, t: nat)
    requires t < |pcs| && Weight(InBlock, pcs[t]) == 1 && Count(InBlock, pcs) == 1
    ensures Count(BlockValue, pcs) == Weight(BlockValue, pcs[t])
  {
    CountUpdate(InBlock, pcs, t, Idle);
    CountUpdate(BlockValue, pcs, t, Idle);
    UnitsAdd(pcs[t := Idle]);
  }

  /** How one operation touches the block and the half-done opens. */
  lemma StepTouches(sh: Shared, pc: Pc, m: Move)
    requires m == Go <==> pc != Idle
    ensures var (sh', pc') := Stepped(sh, pc, m);
            && (sh'.drift != sh.drift ==> pc.Subtracted? && sh'.drift == sh.drift + sh.streams - pc.stragglers)
            && (Weight(InBlock, pc') > Weight(InBlock, pc) ==>
                  pc == DrainGrace && sh.streams > 0 && sh'.streams == sh.streams && pc' == Loaded(sh.streams))
            && (Weight(InBlock, pc') == Weight(InBlock, pc) ==> Weight(BlockValue, pc') == Weight(BlockValue, pc))
            && (Weight(InBlock, pc') < Weight(InBlock, pc) ==> pc.Subtracted?)
            && (Weight(HalfOpen, pc') > Weight(HalfOpen, pc) ==> sh.phase == Active)
            && (sh'.cut != sh.cut ==> sh'.cut && pc == DrainGrace && sh.streams > 0)
            && (sh.cut ==> sh'.cut)
  {
  }

  /** What changes streams and orphans. */
  lemma StepTouchesStreams(sh: Shared, pc: Pc, m: Move)
    requires m == Go <==> pc != Idle
    ensures var (sh', pc') := Stepped(sh, pc, m);
            && (sh'.streams != sh.streams ==> pc == OpenChecked || (pc == StreamHeld && sh.streams > 0) || pc.Subtracted?)
            && (sh'.orphans > sh.orphans ==> pc.Subtracted?)
            && (pc == OpenChecked ==> Weight(HalfOpen, pc) == 1)
            && (pc.Subtracted? ==> sh'.streams == 0)
  {
  }

  lemma BlockStep(s: State, t: nat, m: Move)
    requires PoliteInv(s) && Enabled(s, t, m) && Polite(s, t, m)
    ensures var s' := After(s, t, m);
            && s'.sh.drift == 0
            && Count(InBlock, s'.pcs) <= 1
            && (Count(InBlock, s'.pcs) == 1 ==> s'.sh.streams == Count(BlockValue, s'.pcs))
  {
    var pc := s.pcs[t];
    var (sh', pc') := Stepped(s.sh, pc, m);
    StepTouches(s.sh, pc, m);
    StepTouchesStreams(s.sh, pc, m);
    CountUpdate(InBlock, s.pcs, t, pc');
    CountUpdate(BlockValue, s.pcs, t, pc');
    CountUpdate(HalfOpen, s.pcs, t, pc');
    UnitsAdd(s.pcs);
    if pc.Subtracted? { OneInBlock(s.pcs, t); }
  }

  lemma CutStep(s: State, t: nat, m: Move)
    requires PoliteInv(s) && Enabled(s, t, m) && Polite(s, t, m)
    ensures var s' := After(s, t, m);
            && (s'.sh.cut ==> Count(HalfOpen, s'.pcs) == 0)
            && (s'.sh.cut && Count(InBlock, s'.pcs) == 0 ==> s'.sh.streams == 0)
            && (!s'.sh.cut ==> s'.sh.orphans == 0 && Count(InBlock, s'.pcs) == 0)
  {
    var pc := s.pcs[t];
    var (sh', pc') := Stepped(s.sh, pc, m);
    StepTouches(s.sh, pc, m);
    StepTouchesStreams(s.sh, pc, m);
    StepKeepsGuards(s.sh, pc, m);
    CountUpdate(InBlock, s.pcs, t, pc');
    CountUpdate(HalfOpen, s.pcs, t, pc');
    CountUpdate(StreamGuards, s.pcs, t, pc');
    UnitsAdd(s.pcs);
  }

  /**
   In every run that keeps the side condition, every state has exact counters:
   in_flight is connections plus counted streams plus half-done operations, and
   it never wraps, so no subtraction underflows.
   */
  lemma {:induction false} PoliteRunsAreExact(run: seq<State>)
    requires IsPoliteRun(run) && |run[0].pcs| < USIZE
    ensures forall i | 0 <= i < |run| :: |run[i].pcs| == |run[0].pcs| && PoliteInv(run[i])
    ensures forall i | 0 <= i < |run| :: 0 <= run[i].sh.added && run[i].sh.InFlight() == Expected(run[i])
  {
    var n := |run| - 1;
    if n == 0 {
      InvInitial(run[0]);
      forall r: Role ensures Count(r, run[0].pcs) == 0 { CountIdle(r, |run[0].pcs|); }
      CountersExact(run[0]);
    } else {
      PoliteRunsAreExact(run[..n]);
      assert run[..n][n - 1] == run[n - 1] && PoliteNext(run[n - 1], run[n]);
      var t, m :| Enabled(run[n - 1], t, m) && Polite(run[n - 1], t, m) && run[n] == After(run[n - 1], t, m);
      InvStep(run[n - 1], t, m);
      BlockStep(run[n - 1], t, m);
      CutStep(run[n - 1], t, m);
      CountersExact(run[n]);
      forall i | 0 <= i < |run|
        ensures |run[i].pcs| == |run[0].pcs| && PoliteInv(run[i])
        ensures 0 <= run[i].sh.added && run[i].sh.InFlight() == Expected(run[i])
      {
        if i < n { assert run[..n][i] == run[i]; }
      }
    }
  }

  // ---------------------------------------------------------------------------
  // Without the side condition
  // ---------------------------------------------------------------------------

  lemma Extended(run: seq<State>, t: nat, m: Move) returns (longer: seq<State>)
    requires IsRun(run) && Enabled(run[|run| - 1], t, m)
    ensures IsRun(longer) && longer == run + [After(run[|run| - 1], t, m)]
  {
    longer := run + [After(run[|run| - 1], t, m)];
    forall i | 0 <= i < |longer| - 1 ensures Next(longer[i], longer[i + 1]) {
      if i < |run| - 1 {
        assert longer[i] == run[i] && longer[i + 1] == run[i + 1];
      }
    }
  }

  /** A run of three tasks that ends with them at `a`, `b` and `c`. */
  ghost predicate EndsAt(run: seq<State>, sh: Shared, a: Pc, b: Pc, c: Pc) {
    IsRun(run) && run[|run| - 1] == State(sh, [a, b, c])
  }

  ghost predicate CanMove(pc: Pc, m: Move) {
    m == Go <==> pc != Idle
  }

  lemma MoveFirst(run: seq<State>, sh: Shared, a: Pc, b: Pc, c: Pc, m: Move, sh': Shared, a': Pc)
    returns (longer: seq<State>)
    requires EndsAt(run, sh, a, b, c) && CanMove(a, m) && Stepped(sh, a, m) == (sh', a')
    ensures EndsAt(longer, sh', a', b, c)
  {
    longer := Extended(run, 0, m);
  }

  lemma MoveSecond(run: seq<State>, sh: Shared, a: Pc, b: Pc, c: Pc, m: Move, sh': Shared, b': Pc)
    returns (longer: seq<State>)
    requires EndsAt(run, sh, a, b, c) && CanMove(b, m) && Stepped(sh, b, m) == (sh', b')
    ensures EndsAt(longer, sh', a, b', c)
  {
    longer := Extended(run, 1, m);
  }

  lemma MoveThird(run: seq<State>, sh: Shared, a: Pc, b: Pc, c: Pc, m: Move, sh': Shared, c': Pc)
    returns (longer: seq<State>)
    requires EndsAt(run, sh, a, b, c) && CanMove(c, m) && Stepped(sh, c, m) == (sh', c')
    ensures EndsAt(longer, sh', a, b, c')
  {
    longer := Extended(run, 2, m);
  }

  /** The first and third task begin to open a stream; the first completes. */
  lemma StreamOpened() returns (run: seq<State>)
    ensures EndsAt(run, Shared(Active, 1, 1, 1, 0, 0, 0, false), StreamHeld, Idle, OpenChecked)
  {
    var s0 := Shared(Active, 0, 0, 0, 0, 0, 0, false);
    var s1, s2 := Shared(Active, 0, 1, 0, 0, 0, 0, false), Shared(Active, 1, 1, 0, 0, 0, 0, false);
    assert [Idle, Idle, Idle] == seq(3, _ => Idle);
    run := [State(s0, [Idle, Idle, Idle])];
    run := MoveThird(run, s0, Idle, Idle, Idle, Open, s0, OpenChecked);
    run := MoveFirst(run, s0, Idle, Idle, OpenChecked, Open, s0, OpenChecked);
    run := MoveFirst(run, s0, OpenChecked, Idle, OpenChecked, Go, s1, OpenCounted);
    run := MoveFirst(run, s1, OpenCounted, Idle, OpenChecked, Go, s2, OpenAdded(1));
    run := MoveFirst(run, s2, OpenAdded(1), Idle, OpenChecked, Go, Shared(Active, 1, 1, 1, 0, 0, 0, false), StreamHeld);
  }

  /** The second task then drains up to the load of the stragglers. */
  lemma StragglersLoaded() returns (run: seq<State>)
    ensures EndsAt(run, Shared(Draining, 1, 1, 1, 0, 0, 0, true), StreamHeld, Loaded(1), OpenChecked)
  {
    var s0, s1 := Shared(Active, 1, 1, 1, 0, 0, 0, false), Shared(Draining, 1, 1, 1, 0, 0, 0, false);
    run := StreamOpened();
    run := MoveSecond(run, s0, StreamHeld, Idle, OpenChecked, Drain, s1, DrainBegun);
    run := MoveSecond(run, s1, StreamHeld, DrainBegun, OpenChecked, Go, s1, DrainGrace);
    run := MoveSecond(run, s1, StreamHeld, DrainGrace, OpenChecked, Go,
                      Shared(Draining, 1, 1, 1, 0, 0, 0, true), Loaded(1));
  }

  /** The first task takes its stream off the count inside the block. */
  lemma DroppedInsideBlock() returns (run: seq<State>)
    ensures EndsAt(run, Shared(Draining, 0, 0, 1, 1, 0, 0, true), DropCounted, Subtracted(1), OpenChecked)
  {
    var s0, s1 := Shared(Draining, 1, 1, 1, 0, 0, 0, true), Shared(Draining, 1, 0, 1, 0, 0, 0, true);
    var s2, s3 := Shared(Draining, 1, 0, 1, 1, 0, 0, true), Shared(Draining, 0, 0, 1, 1, 0, 0, true);
    run := StragglersLoaded();
    run := MoveFirst(run, s0, StreamHeld, Loaded(1), OpenChecked, Go, s1, DropCounted);
    run := MoveSecond(run, s1, DropCounted, Loaded(1), OpenChecked, Go, s2, Booked(1));
    run := MoveSecond(run, s2, DropCounted, Booked(1), OpenChecked, Go, s3, Subtracted(1));
  }

  /**
   A stream dropped between the load and the store of the straggler block is
   released twice: in_flight wraps to the largest word.
   */
  lemma DropInsideBlockUnderflows() returns (run: seq<State>)
    ensures EndsAt(run, Shared(Draining, -1, 0, 1, 1, 0, -1, true), Idle, DrainFinal, OpenChecked)
    ensures run[|run| - 1].sh.InFlight() == USIZE - 1
  {
    var s0, s1 := Shared(Draining, 0, 0, 1, 1, 0, 0, true), Shared(Draining, 0, 0, 1, 1, 0, -1, true);
    StoreStep(s0, 1);
    run := DroppedInsideBlock();
    run := MoveSecond(run, s0, DropCounted, Subtracted(1), OpenChecked, Go, s1, DrainFinal);
    run := MoveFirst(run, s1, DropCounted, DrainFinal, OpenChecked, Go, Shared(Draining, -1, 0, 1, 1, 0, -1, true), Idle);
  }

  /** The store of zero turns the streams it forgets into orphans. */
  lemma StoreStep(sh: Shared, n: nat)
    ensures Stepped(sh, Subtracted(n), Go)
         == (Shared(sh.phase, sh.added, 0, sh.peak, sh.interrupted, sh.orphans + sh.streams, sh.drift + sh.streams - n, sh.cut),
             DrainFinal)
  {
  }

  /** The block runs through, and the first task's guard is an orphan. */
  lemma StreamOrphaned() returns (run: seq<State>)
    ensures EndsAt(run, Shared(Draining, 0, 0, 1, 1, 1, 0, true), StreamHeld, DrainFinal, OpenChecked)
  {
    var s0, s1 := Shared(Draining, 1, 1, 1, 0, 0, 0, true), Shared(Draining, 1, 1, 1, 1, 0, 0, true);
    var s2, s3 := Shared(Draining, 0, 1, 1, 1, 0, 0, true), Shared(Draining, 0, 0, 1, 1, 1, 0, true);
    StoreStep(s2, 1);
    run := StragglersLoaded();
    run := MoveSecond(run, s0, StreamHeld, Loaded(1), OpenChecked, Go, s1, Booked(1));
    run := MoveSecond(run, s1, StreamHeld, Booked(1), OpenChecked, Go, s2, Subtracted(1));
    run := MoveSecond(run, s2, StreamHeld, Subtracted(1), OpenChecked, Go, s3, DrainFinal);
  }

  lemma CountedLate() returns (run: seq<State>)
    ensures EndsAt(run, Shared(Draining, 0, 1, 1, 1, 1, 0, true), StreamHeld, DrainFinal, OpenCounted)
  {
    var s0, s1 := Shared(Draining, 0, 0, 1, 1, 1, 0, true), Shared(Draining, 0, 1, 1, 1, 1, 0, true);
    run := StreamOrphaned();
    run := MoveThird(run, s0, StreamHeld, DrainFinal, OpenChecked, Go, s1, OpenCounted);
  }

  /**
   The block need not be disturbed: a task that passed the phase check before
   the drain, and counts its stream after the block, lets an orphaned guard give
   back a count that is not its own, and in_flight wraps.
   */
  lemma LateOpenUnderflows() returns (run: seq<State>)
    ensures EndsAt(run, Shared(Draining, -1, 0, 1, 1, 1, 0, true), Idle, DrainFinal, OpenCounted)
    ensures run[|run| - 1].sh.InFlight() == USIZE - 1
  {
    var s0, s1 := Shared(Draining, 0, 0, 1, 1, 1, 0, true), Shared(Draining, 0, 1, 1, 1, 1, 0, true);
    run := CountedLate();
    run := MoveFirst(run, s1, StreamHeld, DrainFinal, OpenCounted, Go, s0, DropCounted);
    run := MoveFirst(run, s0, DropCounted, DrainFinal, OpenCounted, Go, Shared(Draining, -1, 0, 1, 1, 1, 0, true), Idle);
  }

  /** The first task holds a stream, and two drains have both loaded it. */
  lemma LoadedTwice() returns (run: seq<State>)
    ensures EndsAt(run, Shared(Draining, 1, 1, 1, 0, 0, 0, true), StreamHeld, Loaded(1), Loaded(1))
  {
    var s0, s1 := Shared(Active, 1, 1, 1, 0, 0, 0, false), Shared(Draining, 1, 1, 1, 0, 0, 0, false);
    var s2 := Shared(Draining, 1, 1, 1, 0, 0, 0, true);
    run := OneStream();
    run := MoveSecond(run, s0, StreamHeld, Idle, Idle, Drain, s1, DrainBegun);
    run := MoveSecond(run, s1, StreamHeld, DrainBegun, Idle, Go, s1, DrainGrace);
    run := MoveThird(run, s1, StreamHeld, DrainGrace, Idle, Drain, s1, DrainBegun);
    run := MoveThird(run, s1, StreamHeld, DrainGrace, DrainBegun, Go, s1, DrainGrace);
    run := MoveSecond(run, s1, StreamHeld, DrainGrace, DrainGrace, Go, s2, Loaded(1));
    run := MoveThird(run, s2, StreamHeld, Loaded(1), DrainGrace, Go, s2, Loaded(1));
  }

  lemma OneStream() returns (run: seq<State>)
    ensures EndsAt(run, Shared(Active, 1, 1, 1, 0, 0, 0, false), StreamHeld, Idle, Idle)
  {
    var s0 := Shared(Active, 0, 0, 0, 0, 0, 0, false);
    var s1, s2 := Shared(Active, 0, 1, 0, 0, 0, 0, false), Shared(Active, 1, 1, 0, 0, 0, 0, false);
    assert [Idle, Idle, Idle] == seq(3, _ => Idle);
    run := [State(s0, [Idle, Idle, Idle])];
    run := MoveFirst(run, s0, Idle, Idle, Idle, Open, s0, OpenChecked);
    run := MoveFirst(run, s0, OpenChecked, Idle, Idle, Go, s1, OpenCounted);
    run := MoveFirst(run, s1, OpenCounted, Idle, Idle, Go, s2, OpenAdded(1));
    run := MoveFirst(run, s2, OpenAdded(1), Idle, Idle, Go, Shared(Active, 1, 1, 1, 0, 0, 0, false), StreamHeld);
  }

  /** Two drains that both load one straggler both take it off: in_flight wraps without any drop or open. */
  lemma TwoDrainsUnderflow() returns (run: seq<State>)
    ensures EndsAt(run, Shared(Draining, -1, 1, 1, 2, 0, 0, true), StreamHeld, Subtracted(1), Subtracted(1))
    ensures run[|run| - 1].sh.InFlight() == USIZE - 1
  {
    var s0, s1 := Shared(Draining, 1, 1, 1, 0, 0, 0, true), Shared(Draining, 1, 1, 1, 1, 0, 0, true);
    var s2, s3 := Shared(Draining, 1, 1, 1, 2, 0, 0, true), Shared(Draining, 0, 1, 1, 2, 0, 0, true);
    run := LoadedTwice();
    run := MoveSecond(run, s0, StreamHeld, Loaded(1), Loaded(1), Go, s1, Booked(1));
    run := MoveThird(run, s1, StreamHeld, Booked(1), Loaded(1), Go, s2, Booked(1));
    run := MoveSecond(run, s2, StreamHeld, Booked(1), Booked(1), Go, s3, Subtracted(1));
    run := MoveThird(run, s3, StreamHeld, Subtracted(1), Booked(1), Go,
                     Shared(Draining, -1, 1, 1, 2, 0, 0, true), Subtracted(1));
  }

  // ---------------------------------------------------------------------------
  // Admission
  // ---------------------------------------------------------------------------

  /** Past the phase check, and without a guard yet. */
  predicate Admitting(pc: Pc) {
    pc.AcquireChecked? || pc.AcquireAdded? || pc.OpenChecked? || pc.OpenCounted? || pc.OpenAdded?
  }

  predicate Holding(pc: Pc) {
    pc.ConnHeld? || pc.StreamHeld?
  }

  /** How many operations of its own an admission under way still needs. */
  function StepsLeft(pc: Pc): nat {
    match pc
    case AcquireChecked => 2
    case AcquireAdded(_) => 1
    case OpenChecked => 3
    case OpenCounted => 2
    case OpenAdded(_) => 1
    case _ => 0
  }

  /** Where task `u` stands. */
  function At(s: State, u: nat): Pc {
    if u < |s.pcs| then s.pcs[u] else Idle
  }

  /** The number of changes of task `u` between states `i` and `j`. */
  ghost function Moves(run: seq<State>, u: nat, i: nat, j: nat): nat
    requires i <= j < |run|
    decreases j
  {
    if i == j then 0 else Moves(run, u, i, j - 1) + if At(run[j - 1], u) != At(run[j], u) then 1 else 0
  }

  /** How an admission under way may change in one step. */
  ghost predicate AdmissionGoesOn(pc: Pc, pc': Pc) {
    Admitting(pc) ==>
      && (pc' == pc || StepsLeft(pc') == StepsLeft(pc) - 1)
      && if StepsLeft(pc') > 0 then Admitting(pc') else Holding(pc')
  }

  lemma AdmissionStep(s: State, s': State, u: nat)
    requires Next(s, s')
    ensures AdmissionGoesOn(At(s, u), At(s', u))
  {
  }

  lemma {:induction false} AdmissionChain(run: seq<State>, i: nat, j: nat, u: nat)
    requires i <= j < |run| && Admitting(At(run[i], u))
    requires forall k | i <= k < j :: AdmissionGoesOn(At(run[k], u), At(run[k + 1], u))
    ensures var left, made := StepsLeft(At(run[i], u)), Moves(run, u, i, j);
            && (made < left ==> Admitting(At(run[j], u)) && StepsLeft(At(run[j], u)) == left - made)
            && (made == left ==> Holding(At(run[j], u)))
            && (made >= left ==> exists k :: i < k <= j && Holding(At(run[k], u)))
    decreases j
  {
    if i < j {
      AdmissionChain(run, i, j - 1, u);
      assert AdmissionGoesOn(At(run[j - 1], u), At(run[j - 1 + 1], u));
    }
  }

  /**
   An admission that has passed the check is never refused, in any run: after each
   of its task's own operations one less is left, and with the last of them it
   holds its guard.
   */
  lemma AdmissionProceeds(run: seq<State>, i: nat, j: nat, u: nat)
    requires IsRun(run) && i <= j < |run| && Admitting(At(run[i], u))
    ensures var left, made := StepsLeft(At(run[i], u)), Moves(run, u, i, j);
            && (made < left ==> Admitting(At(run[j], u)) && StepsLeft(At(run[j], u)) == left - made)
            && (made == left ==> Holding(At(run[j], u)))
            && (made >= left ==> exists k :: i < k <= j && Holding(At(run[k], u)))
  {
    forall k | i <= k < j ensures AdmissionGoesOn(At(run[k], u), At(run[k + 1], u)) {
      AdmissionStep(run[k], run[k + 1], u);
    }
    AdmissionChain(run, i, j, u);
  }

  /** Away from Active, the phase stays away and nobody passes the check. */
  ghost predicate NobodyEnters(s: State, s': State, u: nat) {
    s.sh.phase != Active ==>
      && s'.sh.phase != Active
      && (Admitting(At(s', u)) ==> Admitting(At(s, u)))
      && (Holding(At(s', u)) ==> Holding(At(s, u)) || Admitting(At(s, u)))
  }

  lemma StepAdmission(s: State, s': State, u: nat)
    requires Next(s, s')
    ensures NobodyEnters(s, s', u)
  {
  }

  lemma {:induction false} NobodyEntersLater(run: seq<State>, i: nat, j: nat, u: nat)
    requires i <= j < |run| && forall k | i <= k < j :: NobodyEnters(run[k], run[k + 1], u)
    ensures NobodyEnters(run[i], run[j], u)
    decreases j
  {
    if i < j {
      NobodyEntersLater(run, i, j - 1, u);
      assert NobodyEnters(run[j - 1], run[j - 1 + 1], u);
    }
  }

  /**
   Once the phase has left Active, which `stop_intake` makes it do, it stays
   away, and any guard that appears later belongs to a task that had already
   passed the phase check.
   */
  lemma LateAdmissionsWerePending(run: seq<State>, i: nat, j: nat, u: nat)
    requires IsRun(run) && i <= j < |run|
    ensures NobodyEnters(run[i], run[j], u)
  {
    forall k | i <= k < j ensures NobodyEnters(run[k], run[k + 1], u) {
      StepAdmission(run[k], run[k + 1], u);
    }
    NobodyEntersLater(run, i, j, u);
  }

  /** `stop_intake` and the start of a drain leave Active; no operation but a drain's last writes the phase otherwise. */
  lemma PhaseAfter(s: State, t: nat, m: Move)
    requires Enabled(s, t, m)
    ensures After(s, t, m).sh.phase == if m == Stop then StopIntake else if m == Drain then Draining
                                       else if s.pcs[t].DrainRead? then Terminated else s.sh.phase
  {
  }

  /** A drain grants streams their grace exactly when some are open. */
  lemma GraceExactly(sh: Shared)
    ensures Continued(sh, DrainBegun).1 == DrainGrace <==> sh.streams > 0
  {
  }

  /** The count an admission saw when it added itself, where it still has to raise the peak. */
  function Seen(pc: Pc): nat {
    match pc
    case AcquireAdded(c) => c
    case OpenAdded(c) => c
    case _ => 0
  }

  /** Between states `i` and `i + 1`, task `u` completed its admission. */
  ghost predicate Completes(run: seq<State>, i: nat, u: nat) {
    i + 1 < |run| && Seen(At(run[i], u)) > 0 && Holding(At(run[i + 1], u))
  }

  /** One step raises the peak to what a completed admission saw, and changes it in no other way. */
  ghost predicate PeakFollows(s: State, s': State) {
    && s.sh.peak <= s'.sh.peak
    && (forall u: nat | Seen(At(s, u)) > 0 && Holding(At(s', u)) :: Seen(At(s, u)) <= s'.sh.peak)
    && (s'.sh.peak != s.sh.peak ==>
          exists u: nat :: Seen(At(s, u)) == s'.sh.peak && Seen(At(s, u)) > 0 && Holding(At(s', u)))
  }

  lemma PeakStep(s: State, t: nat, m: Move)
    requires Enabled(s, t, m)
    ensures PeakFollows(s, After(s, t, m))
  {
    var s' := After(s, t, m);
    assert forall u: nat | u != t :: At(s', u) == At(s, u);
    if s'.sh.peak != s.sh.peak { assert Seen(At(s, t)) == s'.sh.peak && Holding(At(s', t)); }
  }

  /** What an admission sees is in_flight as it is once the admission has added itself. */
  lemma SeenIsInFlight(s: State, t: nat)
    requires Enabled(s, t, Go) && (s.pcs[t] == AcquireChecked || s.pcs[t] == OpenCounted)
    ensures Seen(At(After(s, t, Go), t)) == s.sh.InFlight() + 1
    ensures After(s, t, Go).sh.added == s.sh.added + 1
  {
  }

  /**
   In every run, the peak is the largest in_flight that a completed admission saw: it
   bounds them all, and it is zero or one of them.
   */
  lemma {:induction false} PeakIsLargestSeen(run: seq<State>, n: nat)
    requires IsRun(run) && n < |run|
    ensures forall i: nat, u: nat | i < n && Completes(run, i, u) :: Seen(At(run[i], u)) <= run[n].sh.peak
    ensures run[n].sh.peak == 0
         || exists i: nat, u: nat :: i < n && Completes(run, i, u) && Seen(At(run[i], u)) == run[n].sh.peak
  {
    if n > 0 {
      PeakIsLargestSeen(run, n - 1);
      assert Next(run[n - 1], run[n - 1 + 1]);
      var t, m :| Enabled(run[n - 1], t, m) && run[n] == After(run[n - 1], t, m);
      PeakStep(run[n - 1], t, m);
      if run[n].sh.peak != run[n - 1].sh.peak {
        var u: nat :| Seen(At(run[n - 1], u)) == run[n].sh.peak && Seen(At(run[n - 1], u)) > 0 && Holding(At(run[n], u));
        assert Completes(run, n - 1, u);
      }
    }
  }

  /** A task enters an admission exactly when it asks for one in phase Active. */
  lemma EntersExactly(s: State, t: nat, m: Move)
    requires Enabled(s, t, m) && (m == Acquire || m == Open)
    ensures Admitting(At(After(s, t, m), t)) <==> s.sh.phase == Active
    ensures s.sh.phase != Active ==> After(s, t, m) == s
  {
    if s.sh.phase != Active { assert s.pcs[t := Idle] == s.pcs; }
  }

  /** After a `stop_intake`, or the start of a drain, in any run, a request for admission does nothing. */
  lemma NothingAfterStop(run: seq<State>, i: nat, j: nat, t: nat, m: Move, u: nat, n: Move)
    requires IsRun(run) && i < j < |run| && Enabled(run[i], t, m) && run[i + 1] == After(run[i], t, m)
    requires (m == Stop || m == Drain) && Enabled(run[j], u, n) && (n == Acquire || n == Open)
    ensures After(run[j], u, n) == run[j]
  {
    PhaseAfter(run[i], t, m);
    LateAdmissionsWerePending(run, i + 1, j, u);
    EntersExactly(run[j], u, n);
  }

  /**
   The admissions completed after the phase has left Active are exactly those that
   had passed the check before: a task without a guard at state `i` holds one at
   some later state up to `j` if and only if it was already admitting at `i` and
   has made the operations it still needed.
   */
  lemma LateAdmissionsExactly(run: seq<State>, i: nat, j: nat, u: nat)
    requires IsRun(run) && i <= j < |run| && run[i].sh.phase != Active && !Holding(At(run[i], u))
    ensures (exists k :: i < k <= j && Holding(At(run[k], u))) <==>
              Admitting(At(run[i], u)) && Moves(run, u, i, j) >= StepsLeft(At(run[i], u))
  {
    if k :| i < k <= j && Holding(At(run[k], u)) {
      LateAdmissionsWerePending(run, i, k, u);
      AdmissionProceeds(run, i, k, u);
      MovesGrow(run, u, i, k, j);
    }
    if Admitting(At(run[i], u)) { AdmissionProceeds(run, i, j, u); }
  }

  lemma {:induction false} MovesGrow(run: seq<State>, u: nat, i: nat, k: nat, j: nat)
    requires i <= k <= j < |run|
    ensures Moves(run, u, i, k) <= Moves(run, u, i, j)
    decreases j
  {
    if k < j { MovesGrow(run, u, i, k, j - 1); }
  }
}
