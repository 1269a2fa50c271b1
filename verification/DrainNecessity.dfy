/**
 The other half of the drain's side condition: no part of it can be dropped. From any
 state that an interleaving with the condition reaches, a step against it can be
 continued so that in_flight falls below zero.
 */
module DrainNecessity {
  import opened DrainAtomic

  /** `longer` continues `run` and ends in `s`. */
  ghost predicate Continues(longer: seq<State>, run: seq<State>, s: State) {
    IsRun(longer) && run <= longer && longer[|longer| - 1] == s
  }

  lemma OneMore(longer: seq<State>, run: seq<State>, s: State, t: nat, m: Move) returns (next: seq<State>)
    requires Continues(longer, run, s) && Enabled(s, t, m)
    ensures Continues(next, run, After(s, t, m))
  {
    next := Extended(longer, t, m);
  }

  // ---------------------------------------------------------------------------
  // Counting
  // ---------------------------------------------------------------------------

  lemma {:induction false} SomeTask(r: Role, pcs: seq<Pc>) returns (u: nat)
    requires Count(r, pcs) > 0
    ensures u < |pcs| && Weight(r, pcs[u]) > 0
  {
    if Weight(r, pcs[0]) > 0 {
      u := 0;
    } else {
      var v := SomeTask(r, pcs[1..]);
      u := v + 1;
    }
  }

  ghost predicate IdleBut(pcs: seq<Pc>, keep: set<nat>) {
    forall t | 0 <= t < |pcs| && t !in keep :: pcs[t] == Idle
  }

  lemma {:induction false} NoneCounted(r: Role, pcs: seq<Pc>)
    requires IdleBut(pcs, {})
    ensures Count(r, pcs) == 0
  {
    if pcs != [] { NoneCounted(r, pcs[1..]); }
  }

  lemma OneCounted(r: Role, pcs: seq<Pc>, u: nat)
    requires u < |pcs| && IdleBut(pcs, {u})
    ensures Count(r, pcs) == Weight(r, pcs[u])
  {
    CountUpdate(r, pcs, u, Idle);
    NoneCounted(r, pcs[u := Idle]);
  }

  lemma TwoCounted(r: Role, pcs: seq<Pc>, u: nat, v: nat)
    requires u < |pcs| && v < |pcs| && u != v && IdleBut(pcs, {u, v})
    ensures Count(r, pcs) == Weight(r, pcs[u]) + Weight(r, pcs[v])
  {
    CountUpdate(r, pcs, u, Idle);
    OneCounted(r, pcs[u := Idle], v);
  }

  lemma EachCounted(r: Role, pcs: seq<Pc>, t: nat)
    requires t < |pcs| && Count(r, pcs) == 0
    ensures Weight(r, pcs[t]) == 0
  {
    CountUpdate(r, pcs, t, Idle);
  }

  // ---------------------------------------------------------------------------
  // Letting tasks finish
  // ---------------------------------------------------------------------------

  /** The operations a task outside the block needs until it is idle, at most. */
  function Remaining(pc: Pc): nat {
    match pc
    case Idle => 0
    case AcquireChecked => 3
    case AcquireAdded(_) => 2
    case ConnHeld => 1
    case OpenChecked => 5
    case OpenCounted => 4
    case OpenAdded(_) => 3
    case StreamHeld => 2
    case DropCounted => 1
    case DrainBegun => 4
    case DrainGrace => 3
    case DrainFinal => 2
    case DrainRead(_) => 1
    case _ => 0
  }

  /** A task outside the block with no stream counted but, perhaps, its own. */
  ghost predicate CanFinish(sh: Shared, pc: Pc) {
    && sh.phase != Active && Weight(InBlock, pc) == 0
    && (sh.streams == 0 || (sh.streams == 1 && (pc.OpenCounted? || pc.OpenAdded? || pc.StreamHeld?)))
  }

  lemma FinishStep(sh: Shared, pc: Pc)
    requires CanFinish(sh, pc) && pc != Idle
    ensures var (sh', pc') := Stepped(sh, pc, Go);
            CanFinish(sh', pc') && Remaining(pc') < Remaining(pc) && sh'.drift == sh.drift
  {
  }

  /** Nothing is counted, the drift is `drift`, and new work is refused. */
  ghost predicate Settled(sh: Shared, drift: int) {
    sh.phase != Active && sh.streams == 0 && sh.drift == drift
  }

  /** Task `t` runs alone until it is idle. */
  lemma {:induction false} RunAlone(longer: seq<State>, run: seq<State>, s: State, t: nat)
    returns (next: seq<State>, s': State)
    requires Continues(longer, run, s) && t < |s.pcs| && CanFinish(s.sh, s.pcs[t])
    ensures Continues(next, run, s') && s'.pcs == s.pcs[t := Idle] && Settled(s'.sh, s.sh.drift)
    decreases Remaining(s.pcs[t])
  {
    if s.pcs[t] == Idle {
      next, s' := longer, s;
    } else {
      FinishStep(s.sh, s.pcs[t]);
      var mid := OneMore(longer, run, s, t, Go);
      next, s' := RunAlone(mid, run, After(s, t, Go), t);
    }
  }

  ghost predicate Outside(pcs: seq<Pc>) {
    forall t | 0 <= t < |pcs| :: Weight(InBlock, pcs[t]) == 0
  }

  /** All tasks from `n` down, but those in `keep`, run until they are idle. */
  lemma {:induction false} RunOut(longer: seq<State>, run: seq<State>, s: State, keep: set<nat>, n: nat)
    returns (next: seq<State>, s': State)
    requires Continues(longer, run, s) && n <= |s.pcs| && Settled(s.sh, s.sh.drift) && Outside(s.pcs)
    ensures Continues(next, run, s') && Settled(s'.sh, s.sh.drift) && |s'.pcs| == |s.pcs|
    ensures forall t | 0 <= t < |s.pcs| :: s'.pcs[t] == if t < n && t !in keep then Idle else s.pcs[t]
    decreases n
  {
    next, s' := longer, s;
    if n > 0 {
      if n - 1 !in keep { next, s' := RunAlone(longer, run, s, n - 1); }
      next, s' := RunOut(next, run, s', keep, n - 1);
    }
  }

  /** Everything but `keep` runs out. */
  lemma Quiesce(longer: seq<State>, run: seq<State>, s: State, keep: set<nat>)
    returns (next: seq<State>, s': State)
    requires Continues(longer, run, s) && Settled(s.sh, s.sh.drift) && Count(InBlock, s.pcs) == 0
    ensures Continues(next, run, s') && Settled(s'.sh, s.sh.drift) && |s'.pcs| == |s.pcs| && Inv(s')
    ensures IdleBut(s'.pcs, keep) && forall t | t in keep && t < |s.pcs| :: s'.pcs[t] == s.pcs[t]
  {
    forall t | 0 <= t < |s.pcs| ensures Weight(InBlock, s.pcs[t]) == 0 { EachCounted(InBlock, s.pcs, t); }
    next, s' := RunOut(longer, run, s, keep, |s.pcs|);
    CountersUpToDrift(next);
  }

  // ---------------------------------------------------------------------------
  // Letting the block finish
  // ---------------------------------------------------------------------------

  ghost predicate StoresZero(sh: Shared, sh': Shared, n: nat) {
    sh'.phase == sh.phase && sh'.cut == sh.cut && sh'.streams == 0 && sh'.drift == sh.drift + sh.streams - n
  }

  lemma BlockOperation(sh: Shared, pc: Pc)
    requires Weight(InBlock, pc) == 1
    ensures var (sh', pc') := Stepped(sh, pc, Go);
            if pc.Subtracted? then pc' == DrainFinal && StoresZero(sh, sh', pc.stragglers)
            else Weight(InBlock, pc') == 1 && pc'.stragglers == pc.stragglers && sh' == sh.(added := sh'.added, interrupted := sh'.interrupted)
  {
  }

  /** A drain in the block runs alone through its store. */
  lemma {:induction false} RunBlock(longer: seq<State>, run: seq<State>, s: State, d: nat)
    returns (next: seq<State>, s': State)
    requires Continues(longer, run, s) && d < |s.pcs| && Weight(InBlock, s.pcs[d]) == 1
    ensures Continues(next, run, s') && s'.pcs == s.pcs[d := DrainFinal]
    ensures StoresZero(s.sh, s'.sh, Weight(BlockValue, s.pcs[d]))
    decreases if s.pcs[d].Loaded? then 2 else if s.pcs[d].Booked? then 1 else 0
  {
    var m := After(s, d, Go);
    BlockOperation(s.sh, s.pcs[d]);
    next := OneMore(longer, run, s, d, Go);
    if s.pcs[d].Subtracted? {
      s' := m;
    } else {
      next, s' := RunBlock(next, run, m, d);
    }
  }

  // ---------------------------------------------------------------------------
  // The three parts of the condition
  // ---------------------------------------------------------------------------

  /** The sum is below zero, by no more than one for each task: the atomic has wrapped around. */
  ghost predicate Wrapped(s: State) {
    -|s.pcs| <= s.sh.added < 0
  }

  lemma WrappedReads(s: State)
    requires Wrapped(s) && |s.pcs| < USIZE
    ensures s.sh.InFlight() == USIZE + s.sh.added
  {
  }

  /** With every task idle, in_flight is the drift. */
  lemma IdleIsDrift(s: State)
    requires Inv(s) && s.sh.streams == 0 && IdleBut(s.pcs, {})
    ensures s.sh.added == s.sh.drift
  {
    NoneCounted(Conns, s.pcs);
    NoneCounted(OpenHalf, s.pcs);
    NoneCounted(DropHalf, s.pcs);
    NoneCounted(Owed, s.pcs);
  }

  /** The drain in the block of a polite state holds the whole stream count. */
  lemma TheBlock(s: State) returns (d: nat)
    requires PoliteInv(s) && Count(InBlock, s.pcs) > 0
    ensures d < |s.pcs| && Weight(InBlock, s.pcs[d]) == 1 && Weight(BlockValue, s.pcs[d]) == s.sh.streams
    ensures Count(InBlock, s.pcs) == 1 && s.sh.phase != Active
  {
    d := SomeTask(InBlock, s.pcs);
    OneInBlock(s.pcs, d);
    UnitsAdd(s.pcs);
  }

  /** A drift below zero shows once everything has run out. */
  lemma DriftShows(longer: seq<State>, run: seq<State>, s: State) returns (next: seq<State>)
    requires Continues(longer, run, s) && s.sh.phase != Active && s.sh.streams == 0 && Count(InBlock, s.pcs) == 0
    requires -|s.pcs| <= s.sh.drift < 0
    ensures IsRun(next) && run <= next && Wrapped(next[|next| - 1])
  {
    var s';
    next, s' := Quiesce(longer, run, s, {});
    IdleIsDrift(s');
  }

  /** A stream dropped while a drain is in the block. */
  lemma DropDisturbs(longer: seq<State>, run: seq<State>, s: State, t: nat) returns (next: seq<State>)
    requires t < |s.pcs| && s.pcs[t] == StreamHeld && s.sh.streams > 0 && Count(InBlock, s.pcs) > 0
    requires Continues(longer, run, After(s, t, Go)) && PoliteInv(s)
    ensures IsRun(next) && run <= next && Wrapped(next[|next| - 1])
  {
    var s1 := After(s, t, Go);
    var d := TheBlock(s);
    CountUpdate(InBlock, s.pcs, t, DropCounted);
    var s2;
    next, s2 := RunBlock(longer, run, s1, d);
    CountUpdate(InBlock, s1.pcs, d, DrainFinal);
    next := DriftShows(next, run, s2);
  }

  /** A second drain that loads the stragglers while one is in the block. */
  lemma SecondDrainDisturbs(longer: seq<State>, run: seq<State>, s: State, t: nat) returns (next: seq<State>)
    requires t < |s.pcs| && s.pcs[t] == DrainGrace && s.sh.streams > 0 && Count(InBlock, s.pcs) > 0
    requires Continues(longer, run, After(s, t, Go)) && PoliteInv(s)
    ensures IsRun(next) && run <= next && Wrapped(next[|next| - 1])
  {
    var s1 := After(s, t, Go);
    var d := TheBlock(s);
    CountUpdate(InBlock, s.pcs, t, Loaded(s.sh.streams));
    var s2, s3;
    next, s2 := RunBlock(longer, run, s1, d);
    CountUpdate(InBlock, s1.pcs, d, DrainFinal);
    next, s3 := RunBlock(next, run, s2, t);
    CountUpdate(InBlock, s2.pcs, t, DrainFinal);
    UnitsAdd(s.pcs);
    next := DriftShows(next, run, s3);
  }

  /** After the block, an open that was counted but not added leaves in_flight one short. */
  lemma CountedOpenShows(longer: seq<State>, run: seq<State>, s: State, u: nat) returns (next: seq<State>)
    requires Continues(longer, run, s) && Settled(s.sh, 0) && Count(InBlock, s.pcs) == 0
    requires u < |s.pcs| && s.pcs[u] == OpenCounted
    ensures IsRun(next) && run <= next && Wrapped(next[|next| - 1])
  {
    var s';
    next, s' := Quiesce(longer, run, s, {u});
    OneCounted(Conns, s'.pcs, u);
    OneCounted(OpenHalf, s'.pcs, u);
    OneCounted(DropHalf, s'.pcs, u);
    OneCounted(Owed, s'.pcs, u);
  }

  lemma NothingAdded(s: State, u: nat, v: nat)
    requires Inv(s) && Settled(s.sh, 0) && u < |s.pcs| && v < |s.pcs| && IdleBut(s.pcs, {u, v})
    requires s.pcs[u] == OpenChecked && s.pcs[v] == StreamHeld
    ensures s.sh.added == 0
  {
    TwoCounted(Conns, s.pcs, u, v);
    TwoCounted(OpenHalf, s.pcs, u, v);
    TwoCounted(DropHalf, s.pcs, u, v);
    TwoCounted(Owed, s.pcs, u, v);
  }

  /** `u` counts its stream, and `v`, an orphan, gives the count back with a unit of in_flight. */
  lemma OrphanGivesBack(longer: seq<State>, run: seq<State>, s: State, u: nat, v: nat)
    returns (next: seq<State>, s': State)
    requires Continues(longer, run, s) && s.sh.streams == 0
    requires u < |s.pcs| && v < |s.pcs| && s.pcs[u] == OpenChecked && s.pcs[v] == StreamHeld
    ensures Continues(next, run, s') && s'.sh.added == s.sh.added - 1 && |s'.pcs| == |s.pcs|
  {
    next := OneMore(longer, run, s, u, Go);
    s' := After(s, u, Go);
    next := OneMore(next, run, s', v, Go);
    s' := After(s', v, Go);
    next := OneMore(next, run, s', v, Go);
    s' := After(s', v, Go);
  }

  /** After the block, an open that is counted late lets an orphan give back a count that is not its own. */
  lemma LateOpenShows(longer: seq<State>, run: seq<State>, s: State, u: nat, v: nat) returns (next: seq<State>)
    requires Continues(longer, run, s) && Settled(s.sh, 0) && Count(InBlock, s.pcs) == 0
    requires u < |s.pcs| && v < |s.pcs| && s.pcs[u] == OpenChecked && s.pcs[v] == StreamHeld
    ensures IsRun(next) && run <= next && Wrapped(next[|next| - 1])
  {
    var s1, s2;
    next, s1 := Quiesce(longer, run, s, {u, v});
    NothingAdded(s1, u, v);
    next, s2 := OrphanGivesBack(next, run, s1, u, v);
  }

  /** After the block, with a half-open stream and a live stream guard left. */
  lemma HalfOpenShows(longer: seq<State>, run: seq<State>, s: State) returns (next: seq<State>)
    requires Continues(longer, run, s) && Settled(s.sh, 0) && Count(InBlock, s.pcs) == 0
    requires Count(HalfOpen, s.pcs) > 0 && Count(StreamGuards, s.pcs) > 0
    ensures IsRun(next) && run <= next && Wrapped(next[|next| - 1])
  {
    var u := SomeTask(HalfOpen, s.pcs);
    var v := SomeTask(StreamGuards, s.pcs);
    if s.pcs[u] == OpenCounted {
      next := CountedOpenShows(longer, run, s, u);
    } else if s.pcs[v] == OpenCounted {
      next := CountedOpenShows(longer, run, s, v);
    } else if s.pcs[v].OpenAdded? {
      CountUpdate(InBlock, s.pcs, v, StreamHeld);
      next := OneMore(longer, run, s, v, Go);
      next := LateOpenShows(next, run, After(s, v, Go), u, v);
    } else {
      next := LateOpenShows(longer, run, s, u, v);
    }
  }

  lemma SameCount(r: Role, pcs: seq<Pc>, t: nat, pc: Pc)
    requires t < |pcs| && Weight(r, pcs[t]) == Weight(r, pc)
    ensures Count(r, pcs[t := pc]) == Count(r, pcs)
  {
    CountUpdate(r, pcs, t, pc);
  }

  lemma AfterTheBlock(pcs: seq<Pc>, t: nat)
    requires t < |pcs| && pcs[t] == DrainGrace
    ensures forall r | r in {InBlock, StreamGuards, HalfOpen} :: Count(r, pcs[t := DrainFinal]) == Count(r, pcs)
  {
    SameCount(InBlock, pcs, t, DrainFinal);
    SameCount(StreamGuards, pcs, t, DrainFinal);
    SameCount(HalfOpen, pcs, t, DrainFinal);
  }

  /** A drain that loads the stragglers while a stream is half open. */
  lemma OpenDisturbs(longer: seq<State>, run: seq<State>, s: State, t: nat) returns (next: seq<State>)
    requires t < |s.pcs| && s.pcs[t] == DrainGrace && s.sh.streams > 0
    requires Continues(longer, run, After(s, t, Go)) && PoliteInv(s)
    requires Count(InBlock, s.pcs) == 0 && Count(HalfOpen, s.pcs) > 0
    ensures IsRun(next) && run <= next && Wrapped(next[|next| - 1])
  {
    CountUpdate(Drains, s.pcs, t, Idle);
    var s2;
    next, s2 := RunBlock(longer, run, After(s, t, Go), t);
    assert s2.pcs == s.pcs[t := DrainFinal];
    AfterTheBlock(s.pcs, t);
    next := HalfOpenShows(next, run, s2);
  }

  lemma ImpoliteDisturbs(run: seq<State>, s: State, t: nat, m: Move) returns (longer: seq<State>)
    requires Enabled(s, t, m) && !Polite(s, t, m) && PoliteInv(s) && Continues(run, run, After(s, t, m))
    ensures IsRun(longer) && run <= longer && Wrapped(longer[|longer| - 1])
  {
    if s.pcs[t] == StreamHeld {
      longer := DropDisturbs(run, run, s, t);
    } else if Count(InBlock, s.pcs) > 0 {
      longer := SecondDrainDisturbs(run, run, s, t);
    } else {
      longer := OpenDisturbs(run, run, s, t);
    }
  }

  /**
   The side condition is exactly what is needed. A run that keeps it has exact
   counters; and a run that has kept it so far and then takes a step against it,
   any step against any of its parts, can go on so that in_flight wraps around.
   */
  lemma ImpoliteStepCanWrap(run: seq<State>, t: nat, m: Move) returns (longer: seq<State>)
    requires IsPoliteRun(run) && |run[0].pcs| < USIZE
    requires Enabled(run[|run| - 1], t, m) && !Polite(run[|run| - 1], t, m)
    ensures IsRun(longer) && run + [After(run[|run| - 1], t, m)] <= longer
    ensures Wrapped(longer[|longer| - 1])
  {
    var s := run[|run| - 1];
    PoliteRunsAreExact(run);
    PoliteRunIsRun(run);
    var began := Extended(run, t, m);
    assert began == run + [After(s, t, m)];
    longer := ImpoliteDisturbs(began, s, t, m);
  }

  lemma PoliteRunIsRun(run: seq<State>)
    requires IsPoliteRun(run)
    ensures IsRun(run)
  {
    forall i | 0 <= i < |run| - 1 ensures Next(run[i], run[i + 1]) {
      assert PoliteNext(run[i], run[i + 1]);
    }
  }
}
