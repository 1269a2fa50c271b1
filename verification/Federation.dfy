/**
 Generation vectors and the reconciliation of replicated states, as in
 `src/federation_consistency.rs`. The hash of a cluster name is a parameter.
 */
module Federation {
  datatype Cluster = Cluster(name: string)
  type Vector = map<Cluster, nat>

  // ---------------------------------------------------------------------------
  // Vectors: merge is a join
  // ---------------------------------------------------------------------------

  function Get(v: Vector, c: Cluster): nat {
    if c in v then v[c] else 0
  }

  function Incremented(v: Vector, c: Cluster): Vector {
    v[c := Get(v, c) + 1]
  }

  ghost predicate Leq(a: Vector, b: Vector) {
    forall c: Cluster :: Get(a, c) <= Get(b, c)
  }

  /** Above everywhere, and higher somewhere; a missing entry reads as 0. */
  ghost predicate StrictlyAbove(a: Vector, b: Vector) {
    Leq(b, a) && exists c: Cluster :: Get(b, c) < Get(a, c)
  }

  function Max(a: nat, b: nat): nat {
    if a < b then b else a
  }

  function Merged(a: Vector, b: Vector): Vector {
    map c | c in a.Keys + b.Keys :: Max(Get(a, c), Get(b, c))
  }

  lemma SameVector(a: Vector, b: Vector)
    requires a.Keys == b.Keys && forall c | c in a :: a[c] == b[c]
    ensures a == b
  {
  }

  /** `m` is `a` with the entries of `b` outside `rest` merged in. */
  ghost predicate MergedOutside(m: Vector, a: Vector, b: Vector, rest: set<Cluster>) {
    && m.Keys == a.Keys + (b.Keys - rest)
    && forall c | c in m :: m[c] == if c in rest then Get(a, c) else Max(Get(a, c), Get(b, c))
  }

  lemma MergedEntry(m: Vector, a: Vector, b: Vector, rest: set<Cluster>, c: Cluster)
    requires c in rest && c in b && MergedOutside(m, a, b, rest)
    ensures MergedOutside(m[c := if c in m then Max(m[c], b[c]) else b[c]], a, b, rest - {c})
  {
  }

  lemma MergedEnds(m: Vector, a: Vector, b: Vector)
    ensures MergedOutside(a, a, b, b.Keys)
    ensures MergedOutside(m, a, b, {}) ==> m == Merged(a, b)
  {
  }

  /** `merge`: walks the other vector in whatever order the hash map yields. */
  method Merge(a: Vector, b: Vector) returns (merged: Vector)
    ensures merged == Merged(a, b)
  {
    merged := a;
    var rest := b.Keys;
    MergedEnds(merged, a, b);
    while rest != {}
      invariant rest <= b.Keys && MergedOutside(merged, a, b, rest)
      decreases |rest|
    {
      var c :| c in rest;
      MergedEntry(merged, a, b, rest, c);
      merged := merged[c := if c in merged then Max(merged[c], b[c]) else b[c]];
      rest := rest - {c};
    }
    MergedEnds(merged, a, b);
  }

  /** A merge is the least upper bound of its arguments. */
  lemma MergeIsLeastUpperBound(a: Vector, b: Vector, u: Vector)
    ensures Leq(a, Merged(a, b)) && Leq(b, Merged(a, b))
    ensures Leq(Merged(a, b), u) <==> Leq(a, u) && Leq(b, u)
  {
  }

  lemma MergedAt(a: Vector, b: Vector, c: Cluster)
    ensures Get(Merged(a, b), c) == Max(Get(a, c), Get(b, c))
  {
  }

  lemma MergeAssociative(a: Vector, b: Vector, c: Vector)
    ensures Merged(Merged(a, b), c) == Merged(a, Merged(b, c))
  {
    var left, right := Merged(Merged(a, b), c), Merged(a, Merged(b, c));
    assert left.Keys == a.Keys + b.Keys + c.Keys == right.Keys;
    forall k | k in left ensures left[k] == right[k] {
      MergedAt(a, b, k);
      MergedAt(b, c, k);
      MergedAt(Merged(a, b), c, k);
      MergedAt(a, Merged(b, c), k);
      assert k in right.Keys;
    }
    SameVector(left, right);
  }

  lemma MergeCommutes(a: Vector, b: Vector)
    ensures Merged(a, b) == Merged(b, a)
  {
  }

  lemma MergeIdempotent(a: Vector)
    ensures Merged(a, a) == a
  {
  }

  // ---------------------------------------------------------------------------
  // Vectors: what domination decides
  // ---------------------------------------------------------------------------

  /** What `dominates` computes: clusters present only in `b` are never looked at. */
  ghost predicate Dominates(a: Vector, b: Vector) {
    && (forall c | c in a && c in b :: b[c] <= a[c])
    && exists c :: c in a && (c in b ==> b[c] < a[c])
  }

  /** `dominates` */
  method CheckDominates(a: Vector, b: Vector) returns (r: bool)
    ensures r <==> Dominates(a, b)
  {
    var higher := false;
    var rest := a.Keys;
    while rest != {}
      invariant rest <= a.Keys
      invariant forall c | c in a.Keys - rest && c in b :: b[c] <= a[c]
      invariant higher <==> exists c :: c in a.Keys - rest && (c in b ==> b[c] < a[c])
      decreases |rest|
    {
      var c :| c in rest;
      if c in b {
        if a[c] < b[c] { return false; }
        if a[c] > b[c] { higher := true; }
      } else {
        higher := true;
      }
      rest := rest - {c};
    }
    return higher;
  }

  /** On vectors over one cluster set, domination is the strict pointwise order. */
  lemma DominatesIsStrictOrder(a: Vector, b: Vector)
    requires a.Keys == b.Keys
    ensures Dominates(a, b) <==> StrictlyAbove(a, b)
  {
    if Dominates(a, b) {
      var c :| c in a && (c in b ==> b[c] < a[c]);
      assert c in b.Keys;
      assert Get(b, c) < Get(a, c);
      forall k: Cluster ensures Get(b, k) <= Get(a, k) { assert k in a <==> k in b.Keys; }
    }
    if StrictlyAbove(a, b) {
      var c: Cluster :| Get(b, c) < Get(a, c);
      forall k | k in a && k in b ensures b[k] <= a[k] { assert Get(b, k) <= Get(a, k); }
    }
  }

  lemma DominationTransitive(a: Vector, b: Vector, c: Vector)
    requires a.Keys == b.Keys == c.Keys && Dominates(a, b) && Dominates(b, c)
    ensures Dominates(a, c)
  {
  }

  lemma DominationAsymmetric(a: Vector, b: Vector)
    requires a.Keys == b.Keys && Dominates(a, b)
    ensures !Dominates(b, a)
  {
  }

  /** Off a common cluster set it is not even asymmetric. */
  lemma DominationCanBeMutual(a: Cluster, b: Cluster)
    requires a != b
    ensures Dominates(map[a := 1], map[b := 2]) && Dominates(map[b := 2], map[a := 1])
  {
    assert a in map[a := 1] && b in map[b := 2];
  }

  ghost predicate Positive(v: Vector) {
    forall c | c in v :: v[c] > 0
  }

  /**
   On vectors with positive entries, which is all that increments and merges
   build, domination means the strict order exactly when no cluster of `b` is
   missing from `a`.
   */
  lemma DominatesExactly(a: Vector, b: Vector)
    requires Positive(a) && Positive(b)
    ensures StrictlyAbove(a, b) <==> Dominates(a, b) && b.Keys <= a.Keys
  {
    if Dominates(a, b) && b.Keys <= a.Keys {
      var c :| c in a && (c in b ==> b[c] < a[c]);
      assert Get(b, c) < Get(a, c);
      forall k: Cluster ensures Get(b, k) <= Get(a, k) { assert k in b ==> k in a.Keys; }
    }
    if StrictlyAbove(a, b) {
      var c: Cluster :| Get(b, c) < Get(a, c);
      forall k | k in b ensures k in a && b[k] <= a[k] { assert Get(b, k) <= Get(a, k); }
    }
  }

  lemma VectorsStayPositive(a: Vector, b: Vector, c: Cluster)
    requires Positive(a) && Positive(b)
    ensures Positive(Merged(a, b)) && Positive(Incremented(a, c))
    ensures StrictlyAbove(Incremented(a, c), a) && Dominates(Incremented(a, c), a)
    ensures forall d: Cluster :: Get(Incremented(a, c), d) - Get(a, d) == if d == c then 1 else 0
  {
  }

  // ---------------------------------------------------------------------------
  // Reconciliation
  // ---------------------------------------------------------------------------

  datatype State = State(
    resourceId: string, vector: Vector, lastModifier: Cluster, lastModifiedAt: int, specHash: string)

  type ClusterHash = Cluster -> nat

  ghost predicate Above(a: State, b: State) {
    Dominates(a.vector, b.vector)
  }

  ghost predicate Concurrent(a: State, b: State) {
    !Above(a, b) && !Above(b, a)
  }

  /** `r` beats `w` in the tiebreak. */
  predicate Beats(hash: ClusterHash, r: State, w: State) {
    || hash(r.lastModifier) > hash(w.lastModifier)
    || (hash(r.lastModifier) == hash(w.lastModifier) && r.lastModifiedAt > w.lastModifiedAt)
  }

  function Resolved(hash: ClusterHash, local: State, remotes: seq<State>): State
    decreases |remotes|
  {
    if remotes == [] then local else
    var w := Resolved(hash, local, remotes[..|remotes| - 1]);
    var r := remotes[|remotes| - 1];
    if Beats(hash, r, w) then r else w
  }

  ghost function Latest(local: State, remotes: seq<State>): State
    decreases |remotes|
  {
    if remotes == [] then local else
    var w := Latest(local, remotes[..|remotes| - 1]);
    var r := remotes[|remotes| - 1];
    if Above(r, w) then r else w
  }

  function MergedAll(local: State, remotes: seq<State>): Vector
    decreases |remotes|
  {
    if remotes == [] then local.vector
    else Merged(MergedAll(local, remotes[..|remotes| - 1]), remotes[|remotes| - 1].vector)
  }

  ghost predicate HasConflict(local: State, remotes: seq<State>) {
    exists r :: r in remotes && Concurrent(local, r)
  }

  /** The state chosen, still with its own vector. */
  ghost function Pick(hash: ClusterHash, local: State, remotes: seq<State>): State {
    if HasConflict(local, remotes) then Resolved(hash, local, remotes) else Latest(local, remotes)
  }

  ghost function Reconciled(hash: ClusterHash, local: State, remotes: seq<State>): State {
    Pick(hash, local, remotes).(vector := MergedAll(local, remotes))
  }

  /** `resolve_conflicts` */
  method ResolveConflicts(hash: ClusterHash, local: State, remotes: seq<State>) returns (winner: State)
    ensures winner == Resolved(hash, local, remotes)
  {
    winner := local;
    var highestHash := hash(local.lastModifier);
    for i := 0 to |remotes|
      invariant winner == Resolved(hash, local, remotes[..i]) && highestHash == hash(winner.lastModifier)
    {
      assert remotes[..i + 1][..i] == remotes[..i];
      var remoteHash := hash(remotes[i].lastModifier);
      if remoteHash > highestHash
        || (remoteHash == highestHash && remotes[i].lastModifiedAt > winner.lastModifiedAt) {
        winner := remotes[i];
        highestHash := remoteHash;
      }
    }
    assert remotes[..|remotes|] == remotes;
  }

  method MergeVectors(local: State, remotes: seq<State>) returns (merged: Vector)
    ensures merged == MergedAll(local, remotes)
  {
    merged := local.vector;
    for i := 0 to |remotes|
      invariant merged == MergedAll(local, remotes[..i])
    {
      assert remotes[..i + 1][..i] == remotes[..i];
      merged := Merge(merged, remotes[i].vector);
    }
    assert remotes[..|remotes|] == remotes;
  }

  method DetectConflict(local: State, remotes: seq<State>) returns (found: bool)
    ensures found <==> HasConflict(local, remotes)
  {
    for i := 0 to |remotes|
      invariant forall k | 0 <= k < i :: !Concurrent(local, remotes[k])
    {
      var above := CheckDominates(local.vector, remotes[i].vector);
      var below := CheckDominates(remotes[i].vector, local.vector);
      if !above && !below {
        assert remotes[i] in remotes;
        return true;
      }
    }
    return false;
  }

  method PickLatest(local: State, remotes: seq<State>) returns (latest: State)
    ensures latest == Latest(local, remotes)
  {
    latest := local;
    for i := 0 to |remotes|
      invariant latest == Latest(local, remotes[..i])
    {
      assert remotes[..i + 1][..i] == remotes[..i];
      var newer := CheckDominates(remotes[i].vector, latest.vector);
      if newer { latest := remotes[i]; }
    }
    assert remotes[..|remotes|] == remotes;
  }

  /** `reconcile_state` */
  method ReconcileState(hash: ClusterHash, local: State, remotes: seq<State>) returns (result: State)
    ensures result == Reconciled(hash, local, remotes)
  {
    var merged := MergeVectors(local, remotes);
    var conflict := DetectConflict(local, remotes);
    if conflict {
      result := ResolveConflicts(hash, local, remotes);
    } else {
      result := PickLatest(local, remotes);
    }
    result := result.(vector := merged);
  }

  // ---------------------------------------------------------------------------
  // What the folds choose
  // ---------------------------------------------------------------------------

  /** `remotes` lists, in any order and with any repetition, what a cluster holding `local` sees. */
  ghost predicate Sees(held: set<State>, local: State, remotes: seq<State>) {
    && local in held
    && (forall r | r in remotes :: r in held)
    && forall s | s in held :: s == local || s in remotes
  }

  lemma {:induction false} ResolvedIsBest(hash: ClusterHash, local: State, remotes: seq<State>)
    ensures Resolved(hash, local, remotes) == local || Resolved(hash, local, remotes) in remotes
    ensures !Beats(hash, local, Resolved(hash, local, remotes))
    ensures forall r | r in remotes :: !Beats(hash, r, Resolved(hash, local, remotes))
    ensures forall r | r in remotes :: hash(r.lastModifier) <= hash(Resolved(hash, local, remotes).lastModifier)
    decreases |remotes|
  {
    if remotes != [] {
      var before := remotes[..|remotes| - 1];
      assert remotes == before + [remotes[|remotes| - 1]];
      ResolvedIsBest(hash, local, before);
    }
  }

  ghost predicate OneClusterSet(states: set<State>) {
    forall a, b | a in states && b in states :: a.vector.Keys == b.vector.Keys
  }

  /** The state kept without a conflict is at or above the local one, and nothing seen is above it. */
  lemma {:induction false} LatestIsMaximal(states: set<State>, local: State, remotes: seq<State>)
    requires OneClusterSet(states) && local in states && forall r | r in remotes :: r in states
    ensures Latest(local, remotes) in states
    ensures Latest(local, remotes) == local || Above(Latest(local, remotes), local)
    ensures !Above(local, Latest(local, remotes))
    ensures forall r | r in remotes :: !Above(r, Latest(local, remotes))
    decreases |remotes|
  {
    if remotes == [] {
      Irreflexive(local);
    } else {
      var last := remotes[|remotes| - 1];
      var before := remotes[..|remotes| - 1];
      assert remotes == before + [last];
      LatestIsMaximal(states, local, before);
      var w := Latest(local, before);
      Irreflexive(last);
      if Above(last, w) {
        if w != local { DominationTransitive(last.vector, w.vector, local.vector); }
        forall r | r == local || r in before ensures !Above(r, last) {
          if Above(r, last) { DominationTransitive(r.vector, last.vector, w.vector); }
        }
      }
    }
  }

  lemma Irreflexive(s: State)
    ensures !Above(s, s)
  {
  }

  /** A newer remote that is seen first is never lost. */
  lemma {:induction false} LatestKeepsFirst(states: set<State>, local: State, first: State, rest: seq<State>)
    requires OneClusterSet(states) && local in states && first in states && forall r | r in rest :: r in states
    requires Above(first, local)
    ensures Latest(local, [first] + rest) in states
    ensures Latest(local, [first] + rest) == first || Above(Latest(local, [first] + rest), first)
    decreases |rest|
  {
    var all := [first] + rest;
    if rest == [] {
      assert all[..0] == [];
      assert Latest(local, all[..0]) == local;
    } else {
      var before := rest[..|rest| - 1];
      assert all[..|all| - 1] == [first] + before;
      LatestKeepsFirst(states, local, first, before);
      var w := Latest(local, [first] + before);
      var last := rest[|rest| - 1];
      if Above(last, w) && w != first { DominationTransitive(last.vector, w.vector, first.vector); }
    }
  }

  lemma {:induction false} MergedAllKeys(local: State, remotes: seq<State>)
    ensures forall c :: c in MergedAll(local, remotes) <==>
                          c in local.vector || exists r :: r in remotes && c in r.vector
    decreases |remotes|
  {
    if remotes != [] {
      var before := remotes[..|remotes| - 1];
      assert remotes == before + [remotes[|remotes| - 1]];
      MergedAllKeys(local, before);
    }
  }

  lemma {:induction false} MergedAllIsLeast(local: State, remotes: seq<State>, u: Vector)
    ensures Leq(MergedAll(local, remotes), u) <==> Leq(local.vector, u) && forall r | r in remotes :: Leq(r.vector, u)
    decreases |remotes|
  {
    if remotes != [] {
      var before, last := remotes[..|remotes| - 1], remotes[|remotes| - 1];
      assert remotes == before + [last];
      MergedAllIsLeast(local, before, u);
      MergeIsLeastUpperBound(MergedAll(local, before), last.vector, u);
    }
  }

  lemma VectorsEqual(a: Vector, b: Vector)
    requires a.Keys == b.Keys && Leq(a, b) && Leq(b, a)
    ensures a == b
  {
    forall c | c in a ensures a[c] == b[c] {
      assert Get(a, c) <= Get(b, c) && Get(b, c) <= Get(a, c) && c in b.Keys;
    }
  }

  /** Every cluster computes the same merged vector, whatever it sees first. */
  lemma MergedVectorsAgree(held: set<State>, l: State, rs: seq<State>, l': State, rs': seq<State>)
    requires Sees(held, l, rs) && Sees(held, l', rs')
    ensures MergedAll(l, rs) == MergedAll(l', rs')
  {
    var m, m' := MergedAll(l, rs), MergedAll(l', rs');
    MergedAllKeys(l, rs);
    MergedAllKeys(l', rs');
    assert m.Keys == m'.Keys;
    MergedAllIsLeast(l, rs, m');
    MergedAllIsLeast(l', rs', m');
    MergedAllIsLeast(l, rs, m);
    MergedAllIsLeast(l', rs', m);
    VectorsEqual(m, m');
  }

  // ---------------------------------------------------------------------------
  // One round
  // ---------------------------------------------------------------------------

  /** The order in which a cluster receives the other clusters' states. */
  ghost predicate View(states: set<State>, local: State, remotes: seq<State>) {
    && Sees(states, local, remotes) && local !in remotes
    && forall i, j | 0 <= i < j < |remotes| :: remotes[i] != remotes[j]
  }

  /** No two states share both the modifier's hash and the time. */
  ghost predicate Tiebroken(hash: ClusterHash, states: set<State>) {
    forall a, b | a in states && b in states && a != b :: Beats(hash, a, b) || Beats(hash, b, a)
  }

  /** Every cluster picks `t`, for every order of its remotes. */
  ghost predicate AllPick(hash: ClusterHash, states: set<State>, t: State) {
    forall local, remotes | View(states, local, remotes) :: Pick(hash, local, remotes) == t
  }

  ghost predicate Chain(states: set<State>) {
    forall a, b | a in states && b in states && a != b :: !Concurrent(a, b)
  }

  ghost predicate Antichain(states: set<State>) {
    forall a, b | a in states && b in states && a != b :: Concurrent(a, b)
  }

  /** `s` is concurrent with no other state. */
  ghost predicate Comparable(states: set<State>, s: State) {
    forall x | x in states && x != s :: !Concurrent(s, x)
  }

  ghost predicate Best(hash: ClusterHash, states: set<State>, m: State) {
    m in states && forall s | s in states :: !Beats(hash, s, m)
  }

  /** The tiebreak's favourite `m` tops whatever lies at or above a state without concurrent partners. */
  ghost predicate FavouriteTops(states: set<State>, m: State) {
    forall i, j | i in states && j in states && Comparable(states, i) && (j == i || Above(j, i)) ::
      j == m || Above(m, j)
  }

  lemma Enumerate(s: set<State>) returns (q: seq<State>)
    ensures forall x :: x in q <==> x in s
    ensures forall i, j | 0 <= i < j < |q| :: q[i] != q[j]
  {
    if s == {} {
      q := [];
    } else {
      var x :| x in s;
      var rest := Enumerate(s - {x});
      q := [x] + rest;
    }
  }

  lemma SomeView(states: set<State>, local: State) returns (remotes: seq<State>)
    requires local in states
    ensures View(states, local, remotes)
  {
    remotes := Enumerate(states - {local});
  }

  lemma ConflictSeen(states: set<State>, local: State, remotes: seq<State>)
    requires View(states, local, remotes)
    ensures HasConflict(local, remotes) <==> !Comparable(states, local)
  {
  }

  lemma ResolvedIsFavourite(hash: ClusterHash, states: set<State>, m: State, local: State, remotes: seq<State>)
    requires Tiebroken(hash, states) && Best(hash, states, m) && Sees(states, local, remotes)
    ensures Resolved(hash, local, remotes) == m
  {
    ResolvedIsBest(hash, local, remotes);
    var w := Resolved(hash, local, remotes);
    assert m == local || m in remotes;
    assert w != m ==> Beats(hash, w, m) || Beats(hash, m, w);
  }

  lemma FavouriteExists(hash: ClusterHash, states: set<State>) returns (m: State)
    requires states != {}
    ensures Best(hash, states, m)
  {
    var local :| local in states;
    var remotes := SomeView(states, local);
    m := Resolved(hash, local, remotes);
    ResolvedIsBest(hash, local, remotes);
  }

  /** In a chain, every cluster picks the top. */
  lemma ChainPicksTop(hash: ClusterHash, states: set<State>) returns (t: State)
    requires states != {} && OneClusterSet(states) && Chain(states)
    ensures t in states && forall s | s in states && s != t :: Above(t, s)
    ensures AllPick(hash, states, t)
  {
    var first :| first in states;
    var order := SomeView(states, first);
    LatestIsMaximal(states, first, order);
    t := Latest(first, order);
    forall s | s in states && s != t ensures Above(t, s) { assert s == first || s in order; }
    forall local, remotes | View(states, local, remotes) ensures Pick(hash, local, remotes) == t {
      ConflictSeen(states, local, remotes);
      LatestIsMaximal(states, local, remotes);
      assert t == local || t in remotes;
    }
  }

  lemma FavouriteWins(hash: ClusterHash, states: set<State>, m: State)
    requires OneClusterSet(states) && Tiebroken(hash, states) && Best(hash, states, m) && FavouriteTops(states, m)
    ensures AllPick(hash, states, m)
  {
    forall local, remotes | View(states, local, remotes) ensures Pick(hash, local, remotes) == m {
      ConflictSeen(states, local, remotes);
      ResolvedIsFavourite(hash, states, m, local, remotes);
      LatestIsMaximal(states, local, remotes);
      assert m == local || m in remotes;
    }
  }

  /** In an antichain, every cluster picks the tiebreak's favourite. */
  lemma AntichainPicksFavourite(hash: ClusterHash, states: set<State>, m: State)
    requires |states| >= 2 && OneClusterSet(states) && Antichain(states)
    requires Tiebroken(hash, states) && Best(hash, states, m)
    ensures AllPick(hash, states, m)
  {
    forall i | i in states ensures !Comparable(states, i) {
      assert |states - {i}| >= 1;
      var x :| x in states - {i};
      assert Concurrent(i, x);
    }
    FavouriteWins(hash, states, m);
  }

  /** An order in which `i` hears of `j` first. */
  lemma ViewWithFirst(states: set<State>, i: State, j: State) returns (rest: seq<State>)
    requires i in states && j in states && i != j
    ensures View(states, i, [j] + rest)
  {
    rest := Enumerate(states - {i} - {j});
  }

  lemma AgreementTops(hash: ClusterHash, states: set<State>, t: State, i: State, j: State)
    requires OneClusterSet(states) && AllPick(hash, states, t)
    requires i in states && j in states && Comparable(states, i) && (j == i || Above(j, i))
    ensures j == t || Above(t, j)
  {
    if j == i {
      var remotes := SomeView(states, i);
      ConflictSeen(states, i, remotes);
      LatestIsMaximal(states, i, remotes);
    } else {
      var rest := ViewWithFirst(states, i, j);
      ConflictSeen(states, i, [j] + rest);
      assert forall r | r in rest :: r in [j] + rest;
      LatestKeepsFirst(states, i, j, rest);
    }
  }

  /** Where two states are concurrent, only the favourite can be agreed on. */
  lemma AgreementIsFavourite(hash: ClusterHash, states: set<State>, m: State, t: State)
    requires Tiebroken(hash, states) && Best(hash, states, m) && AllPick(hash, states, t) && !Chain(states)
    ensures t == m
  {
    var a, b :| a in states && b in states && a != b && Concurrent(a, b);
    var order := SomeView(states, a);
    ConflictSeen(states, a, order);
    ResolvedIsFavourite(hash, states, m, a, order);
  }

  lemma AgreementNeedsFavourite(hash: ClusterHash, states: set<State>, m: State, t: State)
    requires OneClusterSet(states) && Tiebroken(hash, states) && Best(hash, states, m)
    requires AllPick(hash, states, t) && !Chain(states)
    ensures FavouriteTops(states, m)
  {
    AgreementIsFavourite(hash, states, m, t);
    forall i, j | i in states && j in states && Comparable(states, i) && (j == i || Above(j, i))
      ensures j == m || Above(m, j)
    {
      AgreementTops(hash, states, m, i, j);
    }
  }

  /**
   Exactly when one round agrees: for states over one cluster set with a decisive
   tiebreak, all clusters pick one state in every order if and only if the states
   form a chain or the favourite tops whatever lies above an unconflicted state.
   Chains and antichains are the two extremes.
   */
  lemma OneRoundAgreesExactly(hash: ClusterHash, states: set<State>, m: State)
    requires OneClusterSet(states) && Tiebroken(hash, states) && Best(hash, states, m)
    ensures (exists t :: AllPick(hash, states, t)) <==> Chain(states) || FavouriteTops(states, m)
  {
    if t :| AllPick(hash, states, t) {
      if !Chain(states) { AgreementNeedsFavourite(hash, states, m, t); }
    }
    if Chain(states) {
      var top := ChainPicksTop(hash, states);
    } else if FavouriteTops(states, m) {
      FavouriteWins(hash, states, m);
    }
  }

  // ---------------------------------------------------------------------------
  // Further rounds
  // ---------------------------------------------------------------------------

  /** `s` may be what some cluster holds after a round over `states`. */
  ghost predicate RoundResult(hash: ClusterHash, states: set<State>, s: State) {
    exists local, remotes :: Sees(states, local, remotes) && s == Reconciled(hash, local, remotes)
  }

  lemma {:induction false} LatestIsSeen(local: State, remotes: seq<State>)
    ensures Latest(local, remotes) == local || Latest(local, remotes) in remotes
    decreases |remotes|
  {
    if remotes != [] { LatestIsSeen(local, remotes[..|remotes| - 1]); }
  }

  lemma ResultsComeFromStates(hash: ClusterHash, states: set<State>, s: State) returns (origin: State)
    requires RoundResult(hash, states, s)
    ensures origin in states && s == origin.(vector := s.vector)
  {
    var local, remotes :| Sees(states, local, remotes) && s == Reconciled(hash, local, remotes);
    origin := Pick(hash, local, remotes);
    ResolvedIsBest(hash, local, remotes);
    LatestIsSeen(local, remotes);
  }

  lemma ResultsShareVector(hash: ClusterHash, states: set<State>, s: State, s': State)
    requires RoundResult(hash, states, s) && RoundResult(hash, states, s')
    ensures s.vector == s'.vector
  {
    var l, rs :| Sees(states, l, rs) && s == Reconciled(hash, l, rs);
    var l', rs' :| Sees(states, l', rs') && s' == Reconciled(hash, l', rs');
    MergedVectorsAgree(states, l, rs, l', rs');
  }

  lemma {:induction false} SameVectorsMerge(local: State, remotes: seq<State>)
    requires forall r | r in remotes :: r.vector == local.vector
    ensures MergedAll(local, remotes) == local.vector
    decreases |remotes|
  {
    if remotes != [] {
      assert remotes[|remotes| - 1] in remotes;
      SameVectorsMerge(local, remotes[..|remotes| - 1]);
    }
  }

  lemma ResultsTiebroken(hash: ClusterHash, states: set<State>, a: State, b: State)
    requires Tiebroken(hash, states) && RoundResult(hash, states, a) && RoundResult(hash, states, b) && a != b
    ensures Beats(hash, a, b) || Beats(hash, b, a)
  {
    ResultsShareVector(hash, states, a, b);
    var a' := ResultsComeFromStates(hash, states, a);
    var b' := ResultsComeFromStates(hash, states, b);
    assert a' != b';
    assert Beats(hash, a', b') || Beats(hash, b', a');
  }

  /** With equal vectors every peer is a conflict, so the favourite is picked. */
  lemma SameVectorsReconcile(hash: ClusterHash, held: set<State>, u: State, local: State, remotes: seq<State>)
    requires Tiebroken(hash, held) && Best(hash, held, u) && Sees(held, local, remotes) && remotes != []
    requires forall a | a in held :: a.vector == u.vector
    ensures Reconciled(hash, local, remotes) == u
  {
    assert remotes[0] in remotes && remotes[0] in held;
    Irreflexive(local);
    assert Concurrent(local, remotes[0]);
    ResolvedIsFavourite(hash, held, u, local, remotes);
    SameVectorsMerge(local, remotes);
  }

  /**
   Two rounds always suffice: from any states whatever, over any cluster sets,
   with a decisive tiebreak. Whatever mixture `held` the first round left behind,
   every cluster that sees at least one other reconciles it to one state.
   */
  lemma SecondRoundConverges(hash: ClusterHash, states: set<State>, held: set<State>) returns (u: State)
    requires Tiebroken(hash, states)
    requires held != {} && forall s | s in held :: RoundResult(hash, states, s)
    ensures u in held
    ensures forall local, remotes | Sees(held, local, remotes) && remotes != [] ::
              Reconciled(hash, local, remotes) == u
  {
    forall a, b | a in held && b in held ensures a.vector == b.vector {
      ResultsShareVector(hash, states, a, b);
    }
    forall a, b | a in held && b in held && a != b ensures Beats(hash, a, b) || Beats(hash, b, a) {
      ResultsTiebroken(hash, states, a, b);
    }
    u := FavouriteExists(hash, held);
    forall local, remotes | Sees(held, local, remotes) && remotes != []
      ensures Reconciled(hash, local, remotes) == u
    {
      SameVectorsReconcile(hash, held, u, local, remotes);
    }
  }

  /** Once all clusters hold one state, a further round changes nothing. */
  lemma AgreedStateIsFixed(hash: ClusterHash, s: State, remotes: seq<State>)
    requires forall r | r in remotes :: r == s
    ensures Reconciled(hash, s, remotes) == s
  {
    SameVectorsMerge(s, remotes);
    ResolvedIsBest(hash, s, remotes);
    LatestIsSeen(s, remotes);
  }

  /** When all clusters pick one state, they end the round holding one state, and a second round changes nothing. */
  lemma AgreementIsStable(hash: ClusterHash, states: set<State>, t: State) returns (u: State)
    requires states != {} && AllPick(hash, states, t)
    ensures forall local, remotes | View(states, local, remotes) :: Reconciled(hash, local, remotes) == u
    ensures forall remotes: seq<State> | (forall r | r in remotes :: r == u) :: Reconciled(hash, u, remotes) == u
  {
    var first :| first in states;
    var order := SomeView(states, first);
    u := t.(vector := MergedAll(first, order));
    forall local, remotes | View(states, local, remotes) ensures Reconciled(hash, local, remotes) == u {
      MergedVectorsAgree(states, local, remotes, first, order);
    }
    forall remotes: seq<State> | forall r | r in remotes :: r == u ensures Reconciled(hash, u, remotes) == u {
      AgreedStateIsFixed(hash, u, remotes);
    }
  }

  /**
   States whose cluster sets are disjoint dominate each other, so after one round
   two clusters have swapped them; only the second round makes them agree.
   */
  lemma DisjointStatesSwap(hash: ClusterHash, a: State, b: State)
    requires a.vector.Keys !! b.vector.Keys && a.vector != map[] && b.vector != map[]
    ensures Pick(hash, a, [b]) == b && Pick(hash, b, [a]) == a
  {
    var x :| x in a.vector;
    var y :| y in b.vector;
    assert Above(a, b) && Above(b, a);
    assert [b][..0] == [] && [a][..0] == [];
    assert Latest(a, [b][..0]) == a && Latest(b, [a][..0]) == b;
  }
}
