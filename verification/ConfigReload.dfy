/**
 The hot-reload protocol of `src/config_reload.rs`. Reload attempts and readers
 interleave at the granularity of lock operations and writes; the full log of
 accepted snapshots, which the program does not keep, is what the bounded history
 and the live snapshot are compared with.
 */
module ConfigReload {
  import opened Options

  const MAX_HISTORY := 32
  const MAX_CONFIG_BYTES := 8 * 1024 * 1024

  type Bytes = seq<int>
  datatype Config = Config(text: string)
  datatype Parsed = Good(payload: Config) | Bad(message: string)

  /** The digest as text, the parser, and the validator's complaint if it has one. */
  datatype Env = Env(sha: Bytes -> string, parse: Bytes -> Parsed, complaint: Config -> Option<string>)

  datatype Snapshot = Snapshot(version: nat, sha: string, bytesLen: nat, payload: Config)
  datatype ReloadEvent = ReloadEvent(oldVersion: nat, newVersion: nat)
  datatype ReloadError = Parse(message: string) | Invalid(message: string) | Unchanged | TooLarge(bytesLen: nat)

  function First(initial: Config): Snapshot {
    Snapshot(1, "genesis", 0, initial)
  }

  function Min(a: int, b: int): int {
    if a < b then a else b
  }

  /** What a bounded history should hold. */
  function Retained(log: seq<Snapshot>): seq<Snapshot> {
    log[|log| - Min(MAX_HISTORY, |log|)..]
  }

  /** The last 32 entries, or all of them. */
  lemma RetainedIsTail(log: seq<Snapshot>)
    ensures |Retained(log)| == if |log| < 32 then |log| else 32
    ensures Retained(log) == log[|log| - |Retained(log)|..]
  {
  }

  // ---------------------------------------------------------------------------
  // Steps
  // ---------------------------------------------------------------------------

  /** Where a reload attempt stands. */
  datatype Attempt =
    | Submitted(bytes: Bytes)
    | Differs(bytes: Bytes)
    | Validated(payload: Config, sha: string, bytesLen: nat)
    | Locked(payload: Config, sha: string, bytesLen: nat)
    | Swapped(next: Snapshot)
    | Writing(next: Snapshot)
    | Pushed(next: Snapshot)
    | Leaving(next: Snapshot)
    | Accepted(next: Snapshot)
    | Rejected(error: ReloadError)
  {
    predicate HoldsCurrent() {
      Locked? || Swapped? || Writing? || Pushed? || Leaving?
    }

    predicate HoldsHistory() {
      Writing? || Pushed?
    }

    /** The snapshot that has reached the history. */
    function Committed(): Option<Snapshot> {
      match this
      case Pushed(s) => Some(s)
      case Leaving(s) => Some(s)
      case Accepted(s) => Some(s)
      case _ => None
    }
  }

  datatype Shared = Shared(
    current: Snapshot, currentHolder: Option<nat>,
    history: seq<Snapshot>, historyHolder: Option<nat>, log: seq<Snapshot>, authors: seq<nat>)

  /** The shared state, the attempts, and the version each reader saw last. */
  datatype State = State(shared: Shared, attempts: seq<Attempt>, seen: seq<nat>)

  datatype Step = Advance(attempt: nat) | ReadCurrent(reader: nat) | ReadHistory(reader: nat)

  predicate CanAdvance(sh: Shared, a: Attempt) {
    match a
    case Submitted(bytes) => |bytes| > MAX_CONFIG_BYTES || sh.currentHolder == None
    case Validated(_, _, _) => sh.currentHolder == None
    case Swapped(_) => sh.historyHolder == None
    case Accepted(_) => false
    case Rejected(_) => false
    case _ => true
  }

  /** The attempt after its next step. */
  function Advanced(env: Env, sh: Shared, a: Attempt): Attempt {
    match a
    case Submitted(bytes) =>
      if |bytes| > MAX_CONFIG_BYTES then Rejected(TooLarge(|bytes|))
      else if sh.current.sha == env.sha(bytes) then Rejected(Unchanged) else Differs(bytes)
    case Differs(bytes) =>
      (match env.parse(bytes)
       case Bad(m) => Rejected(Parse(m))
       case Good(p) =>
         if env.complaint(p).Some? then Rejected(Invalid(env.complaint(p).value))
         else Validated(p, env.sha(bytes), |bytes|))
    case Validated(p, d, n) => Locked(p, d, n)
    case Locked(p, d, n) => Swapped(Snapshot(sh.current.version + 1, d, n, p))
    case Swapped(s) => Writing(s)
    case Writing(s) => Pushed(s)
    case Pushed(s) => if |sh.history| > MAX_HISTORY then a else Leaving(s)
    case Leaving(s) => Accepted(s)
    case _ => a
  }

  /** The shared state after that step by attempt `i`. */
  function SharedAfter(sh: Shared, i: nat, a: Attempt): Shared {
    match a
    case Validated(_, _, _) => sh.(currentHolder := Some(i))
    case Locked(p, d, n) => sh.(current := Snapshot(sh.current.version + 1, d, n, p))
    case Swapped(_) => sh.(historyHolder := Some(i))
    case Writing(s) => sh.(history := sh.history + [s], log := sh.log + [s], authors := sh.authors + [i])
    case Pushed(_) =>
      if |sh.history| > MAX_HISTORY then sh.(history := sh.history[1..]) else sh.(historyHolder := None)
    case Leaving(_) => sh.(currentHolder := None)
    case _ => sh
  }

  /** A reader needs no writer on the lock it reads under; the fallback may be tried at any time. */
  predicate Enabled(s: State, t: Step) {
    match t
    case Advance(i) => i < |s.attempts| && CanAdvance(s.shared, s.attempts[i])
    case ReadCurrent(r) => r < |s.seen| && s.shared.currentHolder == None
    case ReadHistory(r) => r < |s.seen| && s.shared.historyHolder == None && s.shared.history != []
  }

  function After(env: Env, s: State, t: Step): State
    requires Enabled(s, t)
  {
    match t
    case Advance(i) =>
      State(SharedAfter(s.shared, i, s.attempts[i]),
            s.attempts[i := Advanced(env, s.shared, s.attempts[i])], s.seen)
    case ReadCurrent(r) => s.(seen := s.seen[r := s.shared.current.version])
    case ReadHistory(r) => s.(seen := s.seen[r := s.shared.history[|s.shared.history| - 1].version])
  }

  ghost predicate Initial(s: State, initial: Config) {
    && s.shared == Shared(First(initial), None, [First(initial)], None, [First(initial)], [])
    && (forall i | 0 <= i < |s.attempts| :: s.attempts[i].Submitted?)
    && forall r | 0 <= r < |s.seen| :: s.seen[r] == 0
  }

  ghost predicate IsRun(env: Env, run: seq<State>, steps: seq<Step>, initial: Config) {
    && |run| == |steps| + 1 && Initial(run[0], initial)
    && forall i | 0 <= i < |steps| :: Enabled(run[i], steps[i]) && run[i + 1] == After(env, run[i], steps[i])
  }

  // ---------------------------------------------------------------------------
  // The invariant
  // ---------------------------------------------------------------------------

  /** A lock has the holder whose attempt says so, and no other. */
  ghost predicate LocksMatch(sh: Shared, attempts: seq<Attempt>) {
    && (forall i | 0 <= i < |attempts| :: attempts[i].HoldsCurrent() <==> sh.currentHolder == Some(i))
    && (forall i | 0 <= i < |attempts| :: attempts[i].HoldsHistory() <==> sh.historyHolder == Some(i))
    && (sh.currentHolder.Some? ==> sh.currentHolder.value < |attempts|)
    && (sh.historyHolder.Some? ==> sh.historyHolder.value < |attempts|)
  }

  /** What `current` and `history` hold, given the attempt inside the critical section, if any. */
  ghost predicate Consistent(sh: Shared, inside: Option<Attempt>) {
    var n := |sh.log|;
    && n > 0
    && (if inside.Some? && (inside.value.Swapped? || inside.value.Writing?)
        then sh.current == inside.value.next && sh.current.version == n + 1
        else sh.current == sh.log[n - 1])
    && (inside.Some? && (inside.value.Pushed? || inside.value.Leaving?) ==> inside.value.next == sh.log[n - 1])
    && (if inside.Some? && inside.value.Pushed?
        then Min(MAX_HISTORY, n) <= |sh.history| <= Min(MAX_HISTORY + 1, n) && sh.history == sh.log[n - |sh.history|..]
        else sh.history == Retained(sh.log))
  }

  ghost predicate Numbered(log: seq<Snapshot>) {
    forall k | 0 <= k < |log| :: log[k].version == k + 1
  }

  ghost function Inside(s: State): Option<Attempt> {
    if s.shared.currentHolder.Some? && s.shared.currentHolder.value < |s.attempts|
    then Some(s.attempts[s.shared.currentHolder.value]) else None
  }

  /** The checks before the critical section accept `bytes`, but for the comparison with the live digest. */
  predicate Passes(env: Env, bytes: Bytes) {
    |bytes| <= MAX_CONFIG_BYTES && env.parse(bytes).Good? && env.complaint(env.parse(bytes).payload) == None
  }

  /** The reason is the one that `bytes` give. */
  predicate Explains(env: Env, error: ReloadError, bytes: Bytes) {
    match error
    case TooLarge(n) => n == |bytes| > MAX_CONFIG_BYTES
    case Unchanged => |bytes| <= MAX_CONFIG_BYTES
    case Parse(m) => |bytes| <= MAX_CONFIG_BYTES && env.parse(bytes) == Bad(m)
    case Invalid(m) =>
      |bytes| <= MAX_CONFIG_BYTES && env.parse(bytes).Good? && env.complaint(env.parse(bytes).payload) == Some(m)
  }

  predicate Holds(env: Env, payload: Config, sha: string, bytesLen: nat, bytes: Bytes) {
    Passes(env, bytes) && payload == env.parse(bytes).payload && sha == env.sha(bytes) && bytesLen == |bytes|
  }

  /** Where an attempt that submitted `bytes` may stand. */
  predicate ComesFrom(env: Env, a: Attempt, bytes: Bytes) {
    match a
    case Submitted(b) => b == bytes
    case Differs(b) => b == bytes && |bytes| <= MAX_CONFIG_BYTES
    case Validated(p, d, n) => Holds(env, p, d, n, bytes)
    case Locked(p, d, n) => Holds(env, p, d, n, bytes)
    case Swapped(s) => Holds(env, s.payload, s.sha, s.bytesLen, bytes)
    case Writing(s) => Holds(env, s.payload, s.sha, s.bytesLen, bytes)
    case Pushed(s) => Holds(env, s.payload, s.sha, s.bytesLen, bytes)
    case Leaving(s) => Holds(env, s.payload, s.sha, s.bytesLen, bytes)
    case Accepted(s) => Holds(env, s.payload, s.sha, s.bytesLen, bytes)
    case Rejected(e) => Explains(env, e, bytes)
  }

  /** Entries after the first and committed attempts match one to one. */
  ghost predicate Authored(sh: Shared, attempts: seq<Attempt>) {
    && |sh.log| == |sh.authors| + 1
    && (forall k | 0 <= k < |sh.authors| ::
          sh.authors[k] < |attempts| && attempts[sh.authors[k]].Committed() == Some(sh.log[k + 1]))
    && (forall i | 0 <= i < |attempts| && attempts[i].Committed().Some? ::
          var v := attempts[i].Committed().value.version; 2 <= v <= |sh.log| && sh.authors[v - 2] == i)
  }

  ghost predicate SeenPublished(s: State) {
    forall r | 0 <= r < |s.seen| :: s.seen[r] <= |s.shared.log|
  }

  ghost predicate Core(s: State) {
    LocksMatch(s.shared, s.attempts) && Consistent(s.shared, Inside(s)) && Numbered(s.shared.log)
  }

  lemma LocksStep(env: Env, s: State, i: nat)
    requires LocksMatch(s.shared, s.attempts) && i < |s.attempts| && CanAdvance(s.shared, s.attempts[i])
    ensures var s' := After(env, s, Advance(i)); LocksMatch(s'.shared, s'.attempts)
  {
  }

  lemma PushConsistent(env: Env, sh: Shared, i: nat, a: Attempt)
    requires a.Writing? && Consistent(sh, Some(a)) && Numbered(sh.log)
    ensures Numbered(SharedAfter(sh, i, a).log) && Consistent(SharedAfter(sh, i, a), Some(Pushed(a.next)))
  {
    PushKeepsTail(sh.log, a.next);
    PushNumbers(sh.log, a.next);
    PushedIsConsistent(sh, SharedAfter(sh, i, a), a.next);
  }

  lemma PushNumbers(log: seq<Snapshot>, s: Snapshot)
    requires Numbered(log) && s.version == |log| + 1
    ensures Numbered(log + [s])
  {
  }

  /** What an entry leaves behind once it has reached log and history. */
  lemma PushedIsConsistent(sh: Shared, after: Shared, s: Snapshot)
    requires sh.log != [] && after.log == sh.log + [s] && after.history == Retained(sh.log) + [s] && after.current == s
    requires var h, l := after.history, after.log;
             Min(MAX_HISTORY, |l|) <= |h| <= Min(MAX_HISTORY + 1, |l|) && h == l[|l| - |h|..]
    ensures Consistent(after, Some(Pushed(s)))
  {
  }

  /** A retained tail with one entry appended is a tail of the log with that entry appended. */
  lemma PushKeepsTail(log: seq<Snapshot>, s: Snapshot)
    requires log != []
    ensures var h, l := Retained(log) + [s], log + [s];
            Min(MAX_HISTORY, |l|) <= |h| <= Min(MAX_HISTORY + 1, |l|) && h == l[|l| - |h|..]
  {
  }

  lemma TrimConsistent(env: Env, sh: Shared, i: nat, a: Attempt)
    requires a.Pushed? && Consistent(sh, Some(a))
    ensures Consistent(SharedAfter(sh, i, a), Some(Advanced(env, sh, a)))
  {
    if |sh.history| > MAX_HISTORY {
      assert sh.history[1..] == sh.log[|sh.log| - MAX_HISTORY..];
    }
  }

  /** One step of the attempt inside the critical section. */
  lemma ConsistentStep(env: Env, sh: Shared, i: nat, a: Attempt)
    requires a.HoldsCurrent() && Consistent(sh, Some(a)) && Numbered(sh.log)
    ensures var sh', a' := SharedAfter(sh, i, a), Advanced(env, sh, a);
            Numbered(sh'.log) && Consistent(sh', if a.Leaving? then None else Some(a'))
  {
    if a.Writing? {
      PushConsistent(env, sh, i, a);
    } else if a.Pushed? {
      TrimConsistent(env, sh, i, a);
    }
  }

  lemma CoreStep(env: Env, s: State, i: nat)
    requires Core(s) && i < |s.attempts| && CanAdvance(s.shared, s.attempts[i])
    ensures Core(After(env, s, Advance(i)))
  {
    LocksStep(env, s, i);
    var a := s.attempts[i];
    if a.HoldsCurrent() {
      ConsistentStep(env, s.shared, i, a);
    } else {
      var s' := After(env, s, Advance(i));
      assert s'.shared.currentHolder == Some(i) || Inside(s') == Inside(s);
    }
  }

  lemma InitialCore(s: State, initial: Config)
    requires Initial(s, initial)
    ensures Core(s)
  {
  }

  lemma CoreNext(env: Env, s: State, t: Step)
    requires Core(s) && Enabled(s, t)
    ensures Core(After(env, s, t))
  {
    if t.Advance? {
      CoreStep(env, s, t.attempt);
    } else {
      assert Inside(After(env, s, t)) == Inside(s);
    }
  }

  /** Every state of every run keeps the locks, the live snapshot and the history consistent. */
  lemma {:induction false} RunsKeepCore(env: Env, run: seq<State>, steps: seq<Step>, initial: Config, n: nat)
    requires IsRun(env, run, steps, initial) && n < |run|
    ensures Core(run[n])
  {
    if n == 0 {
      InitialCore(run[0], initial);
    } else {
      RunsKeepCore(env, run, steps, initial, n - 1);
      CoreNext(env, run[n - 1], steps[n - 1]);
      assert run[n - 1 + 1] == After(env, run[n - 1], steps[n - 1]);
    }
  }

  // ---------------------------------------------------------------------------
  // What every run guarantees
  // ---------------------------------------------------------------------------

  /** The log has no gaps, a free live snapshot is its last entry, and a free history its last 32. */
  lemma PublishedStateIsLatest(env: Env, run: seq<State>, steps: seq<Step>, initial: Config, n: nat)
    requires IsRun(env, run, steps, initial) && n < |run|
    ensures var sh := run[n].shared;
            && sh.log != [] && Numbered(sh.log)
            && (sh.currentHolder == None ==> sh.current == sh.log[|sh.log| - 1])
            && (sh.historyHolder == None ==> sh.history == Retained(sh.log))
  {
    RunsKeepCore(env, run, steps, initial, n);
  }

  /** A read returns the number of the last accepted snapshot, from the live value or through the fallback. */
  lemma ReadsAreLatest(env: Env, s: State, t: Step)
    requires Core(s) && Enabled(s, t) && !t.Advance?
    ensures After(env, s, t) == s.(seen := s.seen[t.reader := |s.shared.log|])
  {
  }

  /** While no attempt holds the live snapshot, every reader can proceed, directly and through the fallback. */
  lemma ReadersProceed(s: State, r: nat)
    requires Core(s) && s.shared.currentHolder == None && r < |s.seen|
    ensures Enabled(s, ReadCurrent(r)) && Enabled(s, ReadHistory(r))
  {
    assert forall i | 0 <= i < |s.attempts| :: s.attempts[i].HoldsHistory() ==> s.attempts[i].HoldsCurrent();
  }

  /** The log grows at its end, and no reader goes back. */
  ghost predicate Progress(s: State, s': State) {
    && s.shared.log <= s'.shared.log && |s.seen| == |s'.seen|
    && forall r | 0 <= r < |s.seen| :: s.seen[r] <= s'.seen[r]
  }

  lemma StepProgress(env: Env, s: State, t: Step)
    requires Core(s) && SeenPublished(s) && Enabled(s, t)
    ensures Progress(s, After(env, s, t)) && SeenPublished(After(env, s, t))
  {
    if t.Advance? {
      AdvanceProgress(s.shared, t.attempt, s.attempts[t.attempt]);
    } else {
      ReadsAreLatest(env, s, t);
    }
  }

  lemma AdvanceProgress(sh: Shared, i: nat, a: Attempt)
    ensures sh.log <= SharedAfter(sh, i, a).log
  {
  }

  lemma {:induction false} RunsProgress(env: Env, run: seq<State>, steps: seq<Step>, initial: Config, n: nat)
    requires IsRun(env, run, steps, initial) && n < |run|
    ensures SeenPublished(run[n]) && (n > 0 ==> Progress(run[n - 1], run[n]))
  {
    if n > 0 {
      RunsProgress(env, run, steps, initial, n - 1);
      RunsKeepCore(env, run, steps, initial, n - 1);
      StepProgress(env, run[n - 1], steps[n - 1]);
      assert run[n - 1 + 1] == After(env, run[n - 1], steps[n - 1]);
    }
  }

  lemma {:induction false} ProgressChains(run: seq<State>, n: nat, m: nat)
    requires n <= m < |run| && forall i | 0 < i < |run| :: Progress(run[i - 1], run[i])
    ensures Progress(run[n], run[m])
    decreases m
  {
    if n < m { ProgressChains(run, n, m - 1); }
  }

  /** Accepted snapshots are never revoked, and the versions one reader sees never go backwards. */
  lemma SeenNeverGoesBack(env: Env, run: seq<State>, steps: seq<Step>, initial: Config, n: nat, m: nat)
    requires IsRun(env, run, steps, initial) && n <= m < |run|
    ensures Progress(run[n], run[m])
  {
    forall i | 0 < i < |run| ensures Progress(run[i - 1], run[i]) {
      RunsProgress(env, run, steps, initial, i);
    }
    ProgressChains(run, n, m);
  }

  // ---------------------------------------------------------------------------
  // Who wrote which entry
  // ---------------------------------------------------------------------------

  lemma AuthoredStep(env: Env, s: State, i: nat)
    requires Core(s) && Authored(s.shared, s.attempts) && i < |s.attempts| && CanAdvance(s.shared, s.attempts[i])
    ensures Authored(SharedAfter(s.shared, i, s.attempts[i]), s.attempts[i := Advanced(env, s.shared, s.attempts[i])])
  {
    var a, a' := s.attempts[i], Advanced(env, s.shared, s.attempts[i]);
    if a.Writing? {
      assert Inside(s) == Some(a);
      AuthoredPush(s.shared, SharedAfter(s.shared, i, a), s.attempts, i, a', a.next);
    } else {
      AuthoredQuiet(s.shared, SharedAfter(s.shared, i, a), s.attempts, i, a');
    }
  }

  lemma AuthoredQuiet(sh: Shared, sh': Shared, attempts: seq<Attempt>, i: nat, a: Attempt)
    requires Authored(sh, attempts) && i < |attempts| && sh'.log == sh.log && sh'.authors == sh.authors
    requires a.Committed() == attempts[i].Committed()
    ensures Authored(sh', attempts[i := a])
  {
  }

  lemma AuthoredPush(sh: Shared, sh': Shared, attempts: seq<Attempt>, i: nat, a: Attempt, s: Snapshot)
    requires Authored(sh, attempts) && i < |attempts| && sh'.log == sh.log + [s] && sh'.authors == sh.authors + [i]
    requires attempts[i].Committed() == None && a.Committed() == Some(s) && s.version == |sh.log| + 1
    ensures Authored(sh', attempts[i := a])
  {
  }

  /** In every run, log entries after the first and committed attempts match one to one. */
  lemma {:induction false} EntriesHaveOneAuthor(
    env: Env, run: seq<State>, steps: seq<Step>, initial: Config, n: nat)
    requires IsRun(env, run, steps, initial) && n < |run|
    ensures Authored(run[n].shared, run[n].attempts)
  {
    if n > 0 {
      EntriesHaveOneAuthor(env, run, steps, initial, n - 1);
      RunsKeepCore(env, run, steps, initial, n - 1);
      if steps[n - 1].Advance? { AuthoredStep(env, run[n - 1], steps[n - 1].attempt); }
      assert run[n - 1 + 1] == After(env, run[n - 1], steps[n - 1]);
    }
  }

  lemma ComesFromStep(env: Env, sh: Shared, a: Attempt, bytes: Bytes)
    requires ComesFrom(env, a, bytes)
    ensures ComesFrom(env, Advanced(env, sh, a), bytes)
  {
  }

  /** Every attempt carries, to its end, what the bytes it was given amount to. */
  lemma {:induction false} AttemptsKeepBytes(
    env: Env, run: seq<State>, steps: seq<Step>, initial: Config, i: nat, n: nat)
    requires IsRun(env, run, steps, initial) && n < |run| && i < |run[0].attempts|
    ensures |run[n].attempts| == |run[0].attempts|
    ensures ComesFrom(env, run[n].attempts[i], run[0].attempts[i].bytes)
  {
    if n > 0 {
      AttemptsKeepBytes(env, run, steps, initial, i, n - 1);
      var s, t := run[n - 1], steps[n - 1];
      assert run[n - 1 + 1] == After(env, s, t);
      if t == Advance(i) { ComesFromStep(env, s.shared, s.attempts[i], run[0].attempts[i].bytes); }
    }
  }

  /** Every accepted snapshot is made of the bytes its author submitted, which fit, parsed and passed the validator. */
  lemma AcceptedIsGenuine(env: Env, run: seq<State>, steps: seq<Step>, initial: Config, n: nat, k: nat)
    requires IsRun(env, run, steps, initial) && n < |run| && k < |run[n].shared.authors|
    ensures k + 1 < |run[n].shared.log| && run[n].shared.authors[k] < |run[0].attempts|
    ensures var bytes := run[0].attempts[run[n].shared.authors[k]].bytes;
            && Passes(env, bytes) && |bytes| <= 8_388_608
            && run[n].shared.log[k + 1] == Snapshot(k + 2, env.sha(bytes), |bytes|, env.parse(bytes).payload)
  {
    var sh := run[n].shared;
    EntriesHaveOneAuthor(env, run, steps, initial, n);
    RunsKeepCore(env, run, steps, initial, n);
    assert sh.authors[k] < |run[n].attempts|;
    SameAttempts(env, run, steps, initial, n);
    AttemptsKeepBytes(env, run, steps, initial, sh.authors[k], n);
  }

  lemma {:induction false} SameAttempts(env: Env, run: seq<State>, steps: seq<Step>, initial: Config, n: nat)
    requires IsRun(env, run, steps, initial) && n < |run|
    ensures |run[n].attempts| == |run[0].attempts|
  {
    if n > 0 {
      SameAttempts(env, run, steps, initial, n - 1);
      assert run[n - 1 + 1] == After(env, run[n - 1], steps[n - 1]);
    }
  }

  // ---------------------------------------------------------------------------
  // Rejected attempts
  // ---------------------------------------------------------------------------

  ghost predicate PastChecks(a: Attempt) {
    !a.Submitted? && !a.Differs? && !a.Rejected?
  }

  lemma {:induction false} StaysPastChecks(
    env: Env, run: seq<State>, steps: seq<Step>, initial: Config, i: nat, n: nat, m: nat)
    requires IsRun(env, run, steps, initial) && n <= m < |run| && i < |run[n].attempts| && PastChecks(run[n].attempts[i])
    ensures i < |run[m].attempts| && PastChecks(run[m].attempts[i])
    decreases m
  {
    if n < m {
      StaysPastChecks(env, run, steps, initial, i, n, m - 1);
      assert run[m - 1 + 1] == After(env, run[m - 1], steps[m - 1]);
    }
  }

  /** No step of an attempt that ends up rejected changed any shared state. */
  lemma RejectedChangedNothing(
    env: Env, run: seq<State>, steps: seq<Step>, initial: Config, i: nat, n: nat, m: nat)
    requires IsRun(env, run, steps, initial) && n < m < |run| && steps[n] == Advance(i)
    requires i < |run[m].attempts| && run[m].attempts[i].Rejected?
    ensures run[n + 1].shared == run[n].shared
  {
    assert run[n + 1] == After(env, run[n], steps[n]);
    if PastChecks(run[n].attempts[i]) {
      StaysPastChecks(env, run, steps, initial, i, n, m);
    }
  }

  // ---------------------------------------------------------------------------
  // Repeated contents
  // ---------------------------------------------------------------------------

  /** If nothing was accepted between an attempt's comparison and its lock, the digest it brings is a new one. */
  lemma NewDigestUnlessOvertaken(
    env: Env, run: seq<State>, steps: seq<Step>, initial: Config, i: nat, n: nat, m: nat)
    requires IsRun(env, run, steps, initial) && n < m < |steps|
    requires steps[n] == Advance(i) && run[n].attempts[i].Submitted? && run[n + 1].attempts[i].Differs?
    requires i < |run[m].attempts| && run[m].attempts[i].Validated?
    requires run[n].shared.log == run[m].shared.log
    ensures var log := run[m].shared.log; log != [] && run[m].attempts[i].sha != log[|log| - 1].sha
  {
    RunsKeepCore(env, run, steps, initial, n);
    assert run[n + 1] == After(env, run[n], steps[n]);
    SameAttempts(env, run, steps, initial, n);
    AttemptsKeepBytes(env, run, steps, initial, i, n);
    AttemptsKeepBytes(env, run, steps, initial, i, m);
  }

  /** `run` is a run that ends in `s`. */
  ghost predicate EndsIn(env: Env, run: seq<State>, steps: seq<Step>, initial: Config, s: State) {
    IsRun(env, run, steps, initial) && run[|run| - 1] == s
  }

  lemma Extend(env: Env, run: seq<State>, steps: seq<Step>, initial: Config, s: State, t: Step)
    requires EndsIn(env, run, steps, initial, s) && Enabled(s, t)
    ensures EndsIn(env, run + [After(env, s, t)], steps + [t], initial, After(env, s, t))
  {
  }

  /** Attempt `i` is `a`, the log is `log`, and nobody holds a lock that `a` does not. */
  ghost predicate Alone(s: State, i: nat, a: Attempt, log: seq<Snapshot>) {
    && Core(s) && i < |s.attempts| && s.attempts[i] == a && s.shared.log == log
    && (!a.HoldsCurrent() ==> s.shared.currentHolder == None)
    && (!a.HoldsHistory() ==> s.shared.historyHolder == None)
  }

  /** A step of an attempt that runs alone leaves it alone, and leaves the other attempts as they are. */
  lemma AloneStep(env: Env, s: State, i: nat, a: Attempt, log: seq<Snapshot>)
    requires Alone(s, i, a, log) && CanAdvance(s.shared, a)
    ensures var s' := After(env, s, Advance(i));
            && Alone(s', i, Advanced(env, s.shared, a), if a.Writing? then log + [a.next] else log)
            && s'.attempts == s.attempts[i := Advanced(env, s.shared, a)]
  {
    CoreStep(env, s, i);
  }

  lemma LeavingIsAccepted(
    env: Env, run: seq<State>, steps: seq<Step>, initial: Config, s: State, i: nat, next: Snapshot, log: seq<Snapshot>)
    returns (run': seq<State>, steps': seq<Step>, s': State)
    requires EndsIn(env, run, steps, initial, s) && Alone(s, i, Leaving(next), log)
    ensures EndsIn(env, run', steps', initial, s')
    ensures Alone(s', i, Accepted(next), log) && s'.attempts == s.attempts[i := Accepted(next)]
  {
    AloneStep(env, s, i, Leaving(next), log);
    Extend(env, run, steps, initial, s, Advance(i));
    s' := After(env, s, Advance(i));
    run', steps' := run + [s'], steps + [Advance(i)];
  }

  lemma PushedStep(env: Env, s: State, i: nat, next: Snapshot, log: seq<Snapshot>)
    requires Alone(s, i, Pushed(next), log)
    ensures var s' := After(env, s, Advance(i));
            if |s.shared.history| > MAX_HISTORY
            then Alone(s', i, Pushed(next), log) && s'.attempts == s.attempts && |s'.shared.history| < |s.shared.history|
            else Alone(s', i, Leaving(next), log) && s'.attempts == s.attempts[i := Leaving(next)]
  {
    AloneStep(env, s, i, Pushed(next), log);
  }

  /** Trimming, then leaving the critical section. */
  lemma PushedIsAccepted(
    env: Env, run: seq<State>, steps: seq<Step>, initial: Config, s: State, i: nat, next: Snapshot, log: seq<Snapshot>)
    returns (run': seq<State>, steps': seq<Step>, s': State)
    requires EndsIn(env, run, steps, initial, s) && Alone(s, i, Pushed(next), log)
    ensures EndsIn(env, run', steps', initial, s')
    ensures Alone(s', i, Accepted(next), log) && s'.attempts == s.attempts[i := Accepted(next)]
    decreases |s.shared.history|
  {
    var m := After(env, s, Advance(i));
    PushedStep(env, s, i, next, log);
    Extend(env, run, steps, initial, s, Advance(i));
    if |s.shared.history| > MAX_HISTORY {
      run', steps', s' := PushedIsAccepted(env, run + [m], steps + [Advance(i)], initial, m, i, next, log);
    } else {
      run', steps', s' := LeavingIsAccepted(env, run + [m], steps + [Advance(i)], initial, m, i, next, log);
    }
  }

  lemma WritingIsAccepted(
    env: Env, run: seq<State>, steps: seq<Step>, initial: Config, s: State, i: nat, next: Snapshot, log: seq<Snapshot>)
    returns (run': seq<State>, steps': seq<Step>, s': State)
    requires EndsIn(env, run, steps, initial, s) && Alone(s, i, Writing(next), log)
    ensures EndsIn(env, run', steps', initial, s')
    ensures Alone(s', i, Accepted(next), log + [next]) && s'.attempts == s.attempts[i := Accepted(next)]
  {
    var t := Advance(i);
    AloneStep(env, s, i, Writing(next), log);
    Extend(env, run, steps, initial, s, t);
    var s1 := After(env, s, t);
    run', steps', s' := PushedIsAccepted(env, run + [s1], steps + [t], initial, s1, i, next, log + [next]);
  }

  /** An attempt that has swapped the live snapshot and runs alone is accepted. */
  lemma SwappedIsAccepted(
    env: Env, run: seq<State>, steps: seq<Step>, initial: Config, s: State, i: nat, next: Snapshot, log: seq<Snapshot>)
    returns (run': seq<State>, steps': seq<Step>, s': State)
    requires EndsIn(env, run, steps, initial, s) && Alone(s, i, Swapped(next), log)
    ensures EndsIn(env, run', steps', initial, s')
    ensures Alone(s', i, Accepted(next), log + [next]) && s'.attempts == s.attempts[i := Accepted(next)]
  {
    var t := Advance(i);
    AloneStep(env, s, i, Swapped(next), log);
    Extend(env, run, steps, initial, s, t);
    var s1 := After(env, s, t);
    run', steps', s' := WritingIsAccepted(env, run + [s1], steps + [t], initial, s1, i, next, log);
  }

  /** Two attempts with the same bytes can both pass the comparison and both be accepted. */
  lemma SameBytesAcceptedTwice(env: Env, bytes: Bytes, payload: Config, initial: Config)
    returns (run: seq<State>, steps: seq<Step>)
    requires |bytes| <= MAX_CONFIG_BYTES && env.sha(bytes) != "genesis"
    requires env.parse(bytes) == Good(payload) && env.complaint(payload) == None
    ensures IsRun(env, run, steps, initial)
    ensures var log := run[|run| - 1].shared.log; |log| == 3 && log[1].sha == log[2].sha == env.sha(bytes)
  {
    var s;
    run, steps, s := BothValidated(env, bytes, payload, initial);
    run, steps, s := FirstAccepted(env, run, steps, initial, s, payload, env.sha(bytes), |bytes|);
    run, steps, s := SecondAccepted(env, run, steps, initial, s, payload, env.sha(bytes), |bytes|);
  }

  /** Both attempts have passed all checks, and nothing has been accepted. */
  ghost predicate TwoReady(s: State, initial: Config, p: Config, d: string, n: nat) {
    && Core(s) && s.attempts == [Validated(p, d, n), Validated(p, d, n)] && s.shared.log == [First(initial)]
    && s.shared.currentHolder == None && s.shared.historyHolder == None
  }

  lemma BothValidated(env: Env, bytes: Bytes, payload: Config, initial: Config)
    returns (run: seq<State>, steps: seq<Step>, s: State)
    requires |bytes| <= MAX_CONFIG_BYTES && env.sha(bytes) != "genesis"
    requires env.parse(bytes) == Good(payload) && env.complaint(payload) == None
    ensures EndsIn(env, run, steps, initial, s) && TwoReady(s, initial, payload, env.sha(bytes), |bytes|)
  {
    var first := First(initial);
    s := State(Shared(first, None, [first], None, [first], []), [Submitted(bytes), Submitted(bytes)], []);
    run, steps := [s], [];
    assert EndsIn(env, run, steps, initial, s);
    run, steps, s := ToValidated(env, run, steps, initial, s, bytes, payload);
  }

  lemma FirstAccepted(
    env: Env, run: seq<State>, steps: seq<Step>, initial: Config, s: State, p: Config, d: string, n: nat)
    returns (run': seq<State>, steps': seq<Step>, s': State)
    requires EndsIn(env, run, steps, initial, s) && TwoReady(s, initial, p, d, n)
    ensures EndsIn(env, run', steps', initial, s')
    ensures Alone(s', 1, Validated(p, d, n), [First(initial), Snapshot(2, d, n, p)])
  {
    run', steps', s' := AcceptAlone(env, run, steps, initial, s, 0, [First(initial)], p, d, n);
    assert s'.attempts[1] == s.attempts[1];
    assert [First(initial)] + [Snapshot(2, d, n, p)] == [First(initial), Snapshot(2, d, n, p)];
  }

  lemma SecondAccepted(
    env: Env, run: seq<State>, steps: seq<Step>, initial: Config, s: State, p: Config, d: string, n: nat)
    returns (run': seq<State>, steps': seq<Step>, s': State)
    requires EndsIn(env, run, steps, initial, s)
    requires Alone(s, 1, Validated(p, d, n), [First(initial), Snapshot(2, d, n, p)])
    ensures EndsIn(env, run', steps', initial, s')
    ensures s'.shared.log == [First(initial), Snapshot(2, d, n, p), Snapshot(3, d, n, p)]
  {
    var log := [First(initial), Snapshot(2, d, n, p)];
    run', steps', s' := AcceptAlone(env, run, steps, initial, s, 1, log, p, d, n);
    assert log + [Snapshot(3, d, n, p)] == [First(initial), Snapshot(2, d, n, p), Snapshot(3, d, n, p)];
  }

  lemma ToValidated(env: Env, run: seq<State>, steps: seq<Step>, initial: Config, s: State, bytes: Bytes, payload: Config)
    returns (run': seq<State>, steps': seq<Step>, s': State)
    requires EndsIn(env, run, steps, initial, s) && Initial(s, initial)
    requires s.attempts == [Submitted(bytes), Submitted(bytes)]
    requires |bytes| <= MAX_CONFIG_BYTES && env.sha(bytes) != "genesis"
    requires env.parse(bytes) == Good(payload) && env.complaint(payload) == None
    ensures EndsIn(env, run', steps', initial, s') && Core(s')
    ensures var v := Validated(payload, env.sha(bytes), |bytes|); s' == s.(attempts := [v, v])
  {
    var v := Validated(payload, env.sha(bytes), |bytes|);
    var d := Differs(bytes);
    var s1 := s.(attempts := [d, Submitted(bytes)]);
    var s2 := s.(attempts := [d, d]);
    var s3 := s.(attempts := [v, d]);
    s' := s.(attempts := [v, v]);
    assert After(env, s, Advance(0)) == s1;
    assert After(env, s1, Advance(1)) == s2;
    assert After(env, s2, Advance(0)) == s3;
    assert After(env, s3, Advance(1)) == s';
    Extend(env, run, steps, initial, s, Advance(0));
    Extend(env, run + [s1], steps + [Advance(0)], initial, s1, Advance(1));
    Extend(env, run + [s1] + [s2], steps + [Advance(0)] + [Advance(1)], initial, s2, Advance(0));
    run', steps' := run + [s1] + [s2] + [s3], steps + [Advance(0)] + [Advance(1)] + [Advance(0)];
    Extend(env, run', steps', initial, s3, Advance(1));
    run', steps' := run' + [s'], steps' + [Advance(1)];
    RunsKeepCore(env, run', steps', initial, |run'| - 1);
  }

  /** The two steps into the critical section, then the way through it. */
  lemma AcceptAlone(
    env: Env, run: seq<State>, steps: seq<Step>, initial: Config, s: State, i: nat, log: seq<Snapshot>,
    p: Config, d: string, n: nat)
    returns (run': seq<State>, steps': seq<Step>, s': State)
    requires EndsIn(env, run, steps, initial, s) && Alone(s, i, Validated(p, d, n), log)
    ensures EndsIn(env, run', steps', initial, s')
    ensures var next := Snapshot(|log| + 1, d, n, p);
            Alone(s', i, Accepted(next), log + [next]) && s'.attempts == s.attempts[i := Accepted(next)]
  {
    var t := Advance(i);
    AloneStep(env, s, i, Validated(p, d, n), log);
    Extend(env, run, steps, initial, s, t);
    var s1 := After(env, s, t);
    AloneStep(env, s1, i, Locked(p, d, n), log);
    Extend(env, run + [s1], steps + [t], initial, s1, t);
    var s2 := After(env, s1, t);
    assert s1.shared.current.version == |log|;
    run', steps', s' := SwappedIsAccepted(
      env, run + [s1] + [s2], steps + [t] + [t], initial, s2, i, Snapshot(|log| + 1, d, n, p), log);
  }

  // ---------------------------------------------------------------------------
  // The reloader as an object
  // ---------------------------------------------------------------------------

  datatype Outcome = Reloaded(event: ReloadEvent) | Refused(error: ReloadError)

  /** The loop that pops the oldest entries. */
  method TrimFront(h: seq<Snapshot>) returns (r: seq<Snapshot>)
    ensures r == Retained(h)
  {
    r := h;
    while |r| > MAX_HISTORY
      invariant Min(MAX_HISTORY, |h|) <= |r| <= |h| && r == h[|h| - |r|..]
      decreases |r|
    {
      r := r[1..];
    }
  }

  lemma RetainedTrims(log: seq<Snapshot>, s: Snapshot)
    ensures Retained(Retained(log) + [s]) == Retained(log + [s])
  {
  }

  /** A reloader used by one task at a time; the log is kept for the contracts only. */
  class ConfigReloader {
    const env: Env
    var current: Snapshot
    var history: seq<Snapshot>
    ghost var log: seq<Snapshot>

    ghost predicate Valid()
      reads this
    {
      log != [] && Numbered(log) && current == log[|log| - 1] && history == Retained(log)
    }

    constructor (env: Env, initial: Config)
      ensures Valid() && this.env == env && log == [First(initial)]
      ensures current.version == 1 && current.sha == "genesis" && current.bytesLen == 0 && current.payload == initial
    {
      this.env := env;
      current := First(initial);
      history := [First(initial)];
      log := [First(initial)];
    }

    /** The critical section: swaps the live snapshot, appends to the history and trims it. */
    method Publish(next: Snapshot)
      requires Valid() && next.version == |log| + 1
      modifies this
      ensures Valid() && log == old(log) + [next]
    {
      RetainedTrims(log, next);
      current := next;
      log := log + [next];
      history := TrimFront(history + [next]);
    }

    /** `try_reload_bytes`: accepts exactly new, admissible, valid contents; a refusal changes nothing. */
    method TryReloadBytes(bytes: Bytes) returns (r: Outcome)
      requires Valid()
      modifies this
      ensures Valid()
      ensures r.Reloaded? <==> Passes(env, bytes) && old(current).sha != env.sha(bytes)
      ensures r.Reloaded? ==>
                && log == old(log) + [Snapshot(|old(log)| + 1, env.sha(bytes), |bytes|, env.parse(bytes).payload)]
                && r.event == ReloadEvent(|old(log)|, |old(log)| + 1)
      ensures r.Refused? ==> Explains(env, r.error, bytes) && unchanged(this)
      ensures r == Refused(Unchanged) <==> |bytes| <= MAX_CONFIG_BYTES && old(current).sha == env.sha(bytes)
    {
      if |bytes| > MAX_CONFIG_BYTES { return Refused(TooLarge(|bytes|)); }
      var digest := env.sha(bytes);
      if current.sha == digest { return Refused(Unchanged); }
      var parsed := env.parse(bytes);
      if parsed.Bad? { return Refused(Parse(parsed.message)); }
      var complaint := env.complaint(parsed.payload);
      if complaint.Some? { return Refused(Invalid(complaint.value)); }
      var next := Snapshot(current.version + 1, digest, |bytes|, parsed.payload);
      r := Reloaded(ReloadEvent(current.version, next.version));
      Publish(next);
    }

    /** `get_blocking`, given which of its 100 tries find either lock free; `None` is the panic. */
    method GetBlocking(currentFree: nat -> bool, historyFree: nat -> bool) returns (r: Option<Config>)
      requires Valid()
      ensures r == None <==> forall i | 0 <= i < 100 :: !currentFree(i) && !historyFree(i)
      ensures r.Some? ==> r.value == log[|log| - 1].payload
    {
      for i := 0 to 100
        invariant forall j | 0 <= j < i :: !currentFree(j) && !historyFree(j)
      {
        if currentFree(i) { return Some(current.payload); }
        if historyFree(i) && |history| > 0 { return Some(history[|history| - 1].payload); }
      }
      return None;
    }
  }
}
