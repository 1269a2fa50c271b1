/**
 The semantic-versioning release gate of `scripts/semver_gate.py`: the level a
 change of resource definitions requires, the level a version change grants, and
 what a whole series of accepted releases guarantees.
 */
module ReleaseGate {
  import opened Options
  import opened CrdLint
  import opened Decimals
  import opened VersionText

  // ---------------------------------------------------------------------------
  // Version bumps
  // ---------------------------------------------------------------------------

  /** The numbers of a parsed version. */
  datatype Triple = Triple(major: nat, minor: nat, patch: nat)

  datatype Level = Unchanged | Patch | Minor | Major

  predicate Precedes(a: Triple, b: Triple) {
    || a.major < b.major
    || (a.major == b.major && a.minor < b.minor)
    || (a.major == b.major && a.minor == b.minor && a.patch < b.patch)
  }

  function Numerals(t: Triple): string {
    Core(SemVer(t.major, t.minor, t.patch, ""))
  }

  predicate PreChar(c: char) {
    IsDigit(c) || 'A' <= c <= 'Z' || 'a' <= c <= 'z' || c == '.' || c == '-'
  }

  /** The characters the pattern lists, by their codes: digits, letters, the hyphen and the full stop. */
  ghost predicate Listed(c: char) {
    var n := c as int;
    48 <= n <= 57 || 65 <= n <= 90 || 97 <= n <= 122 || n == 45 || n == 46
  }

  lemma PreCharsAre(c: char)
    ensures PreChar(c) <==> Listed(c)
  {
  }

  predicate AllPreChars(s: string) {
    forall i | 0 <= i < |s| :: PreChar(s[i])
  }

  /** A numeral without leading zeros. */
  function ParseNumeral(s: string): Option<nat> {
    if s == [] || !AllDigits(s) || (s[0] == '0' && |s| > 1) then None else Some(Value(s))
  }

  function ParseThree(parts: seq<string>): Option<Triple> {
    if |parts| != 3 then None else
    var a, b, c := ParseNumeral(parts[0]), ParseNumeral(parts[1]), ParseNumeral(parts[2]);
    if a.Some? && b.Some? && c.Some? then Some(Triple(a.value, b.value, c.value)) else None
  }

  /** The end of the pattern also matches before one final newline. */
  function WithoutNewline(s: string): string {
    if s != [] && s[|s| - 1] == '\n' then s[..|s| - 1] else s
  }

  /** Nothing follows position `i`, or a hyphen stands there and a pre-release follows it. */
  predicate PreAfter(s: string, i: nat)
    requires i <= |s|
  {
    i < |s| ==> i + 1 < |s| && AllPreChars(s[i + 1..])
  }

  /** `parse_semver`, as a scan: what precedes the first hyphen must be three numerals. */
  function ParseSemver(text: string): Option<Triple> {
    var s := WithoutNewline(text);
    var i := IndexOf(s, '-');
    if PreAfter(s, i) then ParseThree(Split(s[..i], '.')) else None
  }

  /** The suffix the pattern allows after the numerals. */
  ghost predicate PreSuffix(x: string) {
    x == "" || (x[0] == '-' && |x| > 1 && forall i | 1 <= i < |x| :: Listed(x[i]))
  }

  lemma PreSuffixIsScanned(x: string)
    ensures PreSuffix(x) <==> x == "" || (x[0] == '-' && |x| > 1 && AllPreChars(x[1..]))
  {
    forall c ensures PreChar(c) <==> Listed(c) { PreCharsAre(c); }
    if |x| > 1 { assert forall i | 1 <= i < |x| :: x[i] == x[1..][i - 1]; }
    if |x| > 1 && AllPreChars(x[1..]) {
      forall i | 1 <= i < |x| ensures Listed(x[i]) { assert PreChar(x[1..][i - 1]); }
    }
  }

  ghost predicate Matches(s: string, t: Triple) {
    Numerals(t) <= s && PreSuffix(s[|Numerals(t)|..])
  }

  lemma NumeralParses(s: string, n: nat)
    ensures ParseNumeral(s) == Some(n) <==> s == Shown(n)
  {
    ShownReads(n);
    if n >= 10 { ShownLeads(n); }
    if ParseNumeral(s).Some? { NumeralIsShown(s); }
  }

  lemma {:induction false} ShownLeads(n: nat)
    requires n > 0
    ensures Shown(n)[0] != '0'
  {
    if n >= 10 {
      ShownLeads(n / 10);
      assert Shown(n)[0] == Shown(n / 10)[0];
    }
  }

  lemma ThreeParse(core: string, t: Triple)
    ensures ParseThree(Split(core, '.')) == Some(t) <==> core == Numerals(t)
  {
    var parts := Split(core, '.');
    CoreSplits(SemVer(t.major, t.minor, t.patch, ""));
    NumeralParses(Shown(t.major), t.major);
    NumeralParses(Shown(t.minor), t.minor);
    NumeralParses(Shown(t.patch), t.patch);
    if |parts| == 3 {
      SplitInThree(core, '.');
      NumeralParses(parts[0], t.major);
      NumeralParses(parts[1], t.minor);
      NumeralParses(parts[2], t.patch);
    }
  }

  lemma PatternParses(s: string, t: Triple)
    requires Matches(s, t)
    ensures s[..IndexOf(s, '-')] == Numerals(t) && PreAfter(s, IndexOf(s, '-'))
  {
    var n := Numerals(t);
    var x := s[|n|..];
    CoreShape(SemVer(t.major, t.minor, t.patch, ""));
    assert s == n + x;
    PreSuffixIsScanned(x);
    if x == "" {
      SplitLast(n, '-');
    } else {
      assert s == n + ['-'] + x[1..];
      SplitFirst(n, '-', x[1..]);
      assert s[|n| + 1..] == x[1..];
    }
  }

  lemma ParsedMatches(s: string, t: Triple, i: nat)
    requires i == IndexOf(s, '-') && s[..i] == Numerals(t) && PreAfter(s, i)
    ensures Matches(s, t)
  {
    var x := s[i..];
    PreSuffixIsScanned(x);
    if x != "" { assert x[1..] == s[i + 1..]; }
  }

  /** `text` is `s`, or `s` and one final newline. */
  ghost predicate UpToNewline(text: string, s: string) {
    text == s || text == s + ['\n']
  }

  lemma PatternHasNoNewline(s: string, t: Triple)
    requires Matches(s, t)
    ensures s != [] && s[|s| - 1] != '\n'
  {
    var core := Numerals(t);
    CoreShape(SemVer(t.major, t.minor, t.patch, ""));
    if |s| > |core| {
      var x := s[|core|..];
      assert Listed(x[|x| - 1]) && x[|x| - 1] == s[|s| - 1];
    } else {
      assert s == core;
    }
  }

  lemma NewlineIsRemoved(text: string, s: string)
    requires UpToNewline(text, s) && s != [] && s[|s| - 1] != '\n'
    ensures WithoutNewline(text) == s
  {
  }

  /**
   The scan accepts exactly the texts of the pattern, with or without one final
   newline, and yields the numbers they spell.
   */
  lemma ParseSemverIsPattern(text: string, t: Triple)
    ensures ParseSemver(text) == Some(t) <==> exists s :: Matches(s, t) && UpToNewline(text, s)
  {
    if ParseSemver(text) == Some(t) { ScannedMatches(text, t); }
    if s :| Matches(s, t) && UpToNewline(text, s) { MatchingIsScanned(text, s, t); }
  }

  lemma ScannedMatches(text: string, t: Triple)
    requires ParseSemver(text) == Some(t)
    ensures Matches(WithoutNewline(text), t) && UpToNewline(text, WithoutNewline(text))
  {
    var s := WithoutNewline(text);
    ThreeParse(s[..IndexOf(s, '-')], t);
    ParsedMatches(s, t, IndexOf(s, '-'));
  }

  lemma MatchingIsScanned(text: string, s: string, t: Triple)
    requires Matches(s, t) && UpToNewline(text, s)
    ensures ParseSemver(text) == Some(t)
  {
    PatternHasNoNewline(s, t);
    NewlineIsRemoved(text, s);
    PatternParses(s, t);
    ThreeParse(s[..IndexOf(s, '-')], t);
  }

  function BumpOf(prev: Option<Triple>, next: Option<Triple>): Option<Level> {
    if prev.None? || next.None? || !Precedes(prev.value, next.value) then None
    else if next.value.major > prev.value.major then Some(Major)
    else if next.value.minor > prev.value.minor then Some(Minor)
    else Some(Patch)
  }

  /** The leftmost number in which two versions differ. */
  function FirstDifference(a: Triple, b: Triple): Level {
    if a.major != b.major then Major else if a.minor != b.minor then Minor
    else if a.patch != b.patch then Patch else Unchanged
  }

  /** A bump is valid exactly when that number grows, and is named after it. */
  lemma BumpIsFirstDifference(a: Triple, b: Triple)
    ensures BumpOf(Some(a), Some(b)) ==
            match FirstDifference(a, b)
            case Major => if a.major < b.major then Some(Major) else None
            case Minor => if a.minor < b.minor then Some(Minor) else None
            case Patch => if a.patch < b.patch then Some(Patch) else None
            case Unchanged => None
  {
  }

  /** `bump_level`; `None` stands for "invalid". */
  function BumpLevel(prev: string, next: string): Option<Level> {
    BumpOf(ParseSemver(prev), ParseSemver(next))
  }

  /** The position in the list of levels. */
  function Rank(l: Level): nat {
    match l case Unchanged => 0 case Patch => 1 case Minor => 2 case Major => 3
  }

  lemma LevelsAreRanked()
    ensures Rank(Unchanged) < Rank(Patch) < Rank(Minor) < Rank(Major)
  {
  }

  function Higher(a: Level, b: Level): Level {
    if Rank(a) < Rank(b) then b else a
  }

  /** Two bumps in a row amount to the higher of the two. */
  lemma BumpsCompose(a: Option<Triple>, b: Option<Triple>, c: Option<Triple>)
    requires BumpOf(a, b).Some? && BumpOf(b, c).Some?
    ensures BumpOf(a, c) == Some(Higher(BumpOf(a, b).value, BumpOf(b, c).value))
  {
  }

  // ---------------------------------------------------------------------------
  // What a change requires
  // ---------------------------------------------------------------------------

  /** Resource definitions by file path. */
  type Crds = map<string, Crd>

  datatype Reason =
    | CrdRemoved(path: string)
    | Broken(path: string, problem: Problem)
    | NewServedVersion(path: string, version: string)
    | NewCrd(path: string)

  ghost predicate IsBreaking(prev: Crds, next: Crds, r: Reason) {
    match r
    case CrdRemoved(p) => p in prev && p !in next
    case Broken(p, problem) => p in prev && p in next && IsProblem(prev[p], next[p], problem)
    case _ => false
  }

  ghost predicate IsAdditive(prev: Crds, next: Crds, r: Reason) {
    match r
    case NewServedVersion(p, v) => p in prev && p in next && v in next[p] && v !in prev[p] && next[p][v].served
    case NewCrd(p) => p in next && p !in prev
    case _ => false
  }

  ghost predicate Breaking(prev: Crds, next: Crds) {
    exists p :: p in prev && (p in next ==> !CrdCompatible(prev[p], next[p]))
  }

  ghost predicate Additive(prev: Crds, next: Crds) {
    exists r :: IsAdditive(prev, next, r)
  }

  ghost function Impact(prev: Crds, next: Crds): Level {
    if Breaking(prev, next) then Major else if Additive(prev, next) then Minor else Unchanged
  }

  method NewVersions(p: string, prev: Crd, next: Crd) returns (reasons: seq<Reason>)
    ensures forall r :: r in reasons <==>
                          r.NewServedVersion? && r.path == p && r.version in next && r.version !in prev
                          && next[r.version].served
  {
    reasons := [];
    var rest := next.Keys;
    while rest != {}
      invariant rest <= next.Keys
      invariant forall r :: r in reasons <==>
                              r.NewServedVersion? && r.path == p && r.version in next.Keys - rest
                              && r.version !in prev && next[r.version].served
      decreases |rest|
    {
      var v :| v in rest;
      if v !in prev && next[v].served { reasons := reasons + [NewServedVersion(p, v)]; }
      rest := rest - {v};
    }
  }

  method Tag(p: string, problems: seq<Problem>) returns (reasons: seq<Reason>)
    ensures forall r :: r in reasons <==> r.Broken? && r.path == p && r.problem in problems
  {
    reasons := [];
    for i := 0 to |problems|
      invariant forall r :: r in reasons <==> r.Broken? && r.path == p && r.problem in problems[..i]
    {
      reasons := reasons + [Broken(p, problems[i])];
    }
  }

  ghost predicate About(prev: Crds, r: Reason, rest: set<string>) {
    r.path in prev && r.path !in rest
  }

  method CompareAll(prev: Crds, next: Crds) returns (breaking: seq<Reason>, additive: seq<Reason>)
    ensures forall r :: r in breaking <==> IsBreaking(prev, next, r)
    ensures forall r :: r in additive <==> IsAdditive(prev, next, r) && r.path in prev
  {
    breaking, additive := [], [];
    var rest := prev.Keys;
    while rest != {}
      invariant rest <= prev.Keys
      invariant forall r :: r in breaking <==> IsBreaking(prev, next, r) && About(prev, r, rest)
      invariant forall r :: r in additive <==> IsAdditive(prev, next, r) && About(prev, r, rest)
      decreases |rest|
    {
      var p :| p in rest;
      if p !in next {
        breaking := breaking + [CrdRemoved(p)];
      } else {
        var problems := CompareCrds(prev[p], next[p]);
        var broken := Tag(p, problems);
        var versions := NewVersions(p, prev[p], next[p]);
        breaking := breaking + broken;
        additive := additive + versions;
      }
      rest := rest - {p};
    }
  }

  method NewCrds(prev: Crds, next: Crds) returns (reasons: seq<Reason>)
    ensures forall r :: r in reasons <==> r.NewCrd? && r.path in next && r.path !in prev
  {
    reasons := [];
    var rest := next.Keys - prev.Keys;
    while rest != {}
      invariant rest <= next.Keys - prev.Keys
      invariant forall r :: r in reasons <==> r.NewCrd? && r.path in next.Keys - prev.Keys && r.path !in rest
      decreases |rest|
    {
      var p :| p in rest;
      reasons := reasons + [NewCrd(p)];
      rest := rest - {p};
    }
  }

  /** `crd_impact`: the level, and exactly the reasons for it. */
  method CrdImpact(prev: Crds, next: Crds) returns (level: Level, reasons: seq<Reason>)
    ensures level == Impact(prev, next)
    ensures level == Major ==> forall r :: r in reasons <==> IsBreaking(prev, next, r)
    ensures level == Minor ==> forall r :: r in reasons <==> IsAdditive(prev, next, r)
    ensures reasons == [] <==> level == Unchanged
  {
    var breaking, additive := CompareAll(prev, next);
    var added := NewCrds(prev, next);
    additive := additive + added;
    BreakingHasReason(prev, next);
    if |breaking| > 0 {
      assert IsBreaking(prev, next, breaking[0]);
      return Major, breaking;
    }
    if |additive| > 0 {
      assert forall r :: r in additive <==> IsAdditive(prev, next, r);
      assert IsAdditive(prev, next, additive[0]);
      return Minor, additive;
    }
    return Unchanged, [];
  }

  lemma BreakingHasReason(prev: Crds, next: Crds)
    ensures Breaking(prev, next) <==> exists r :: IsBreaking(prev, next, r)
  {
    if Breaking(prev, next) {
      var p :| p in prev && (p in next ==> !CrdCompatible(prev[p], next[p]));
      if p in next {
        var problem := SomeProblem(prev[p], next[p]);
        assert IsBreaking(prev, next, Broken(p, problem));
      } else {
        assert IsBreaking(prev, next, CrdRemoved(p));
      }
    }
    if r :| IsBreaking(prev, next, r) {
      if r.Broken? { ProblemsBreak(prev[r.path], next[r.path], r.problem); }
    }
  }

  lemma SomeProblem(prev: Crd, next: Crd) returns (p: Problem)
    requires !CrdCompatible(prev, next)
    ensures IsProblem(prev, next, p)
  {
    var v :| v in prev && !if v in next then Compatible(prev[v].schema, next[v].schema) else !prev[v].served;
    if v in next {
      SchemaReport(v, prev[v].schema, next[v].schema);
      p :| SchemaProblem(v, prev[v].schema, next[v].schema, p);
    } else {
      p := ServedRemoved(v);
    }
  }

  lemma ProblemsBreak(prev: Crd, next: Crd, p: Problem)
    requires IsProblem(prev, next, p)
    ensures !CrdCompatible(prev, next)
  {
  }

  // ---------------------------------------------------------------------------
  // Two steps
  // ---------------------------------------------------------------------------

  ghost predicate Present(crds: Crds, p: string, v: string) {
    p in crds && v in crds[p]
  }

  /** Where a version is present in both, its served flag is the same. */
  ghost predicate ServedAlike(a: Crds, b: Crds) {
    forall p, v | Present(a, p, v) && Present(b, p, v) :: a[p][v].served == b[p][v].served
  }

  /** A version present before and after is present in between. */
  ghost predicate NotReadded(a: Crds, b: Crds, c: Crds) {
    forall p, v | Present(a, p, v) && Present(c, p, v) && p in b :: v in b[p]
  }

  lemma BreakingComposes(a: Crds, b: Crds, c: Crds)
    requires ServedAlike(a, b) && NotReadded(a, b, c) && Breaking(a, c)
    ensures Breaking(a, b) || Breaking(b, c)
  {
  }

  lemma AdditiveComposes(a: Crds, b: Crds, c: Crds)
    requires ServedAlike(b, c) && Additive(a, c) && !Breaking(a, b)
    ensures Additive(a, b) || Additive(b, c)
  {
    var r :| IsAdditive(a, c, r);
    if r.NewCrd? {
      assert IsAdditive(a, b, NewCrd(r.path)) || IsAdditive(b, c, NewCrd(r.path));
    } else {
      assert r.path in b;
      assert Present(b, r.path, r.version) ==> Present(c, r.path, r.version);
      assert IsAdditive(a, b, r) || IsAdditive(b, c, r);
    }
  }

  /** What two steps require together is no more than what one of them requires. */
  lemma ImpactSubadditive(a: Crds, b: Crds, c: Crds)
    requires ServedAlike(a, b) && ServedAlike(b, c) && NotReadded(a, b, c)
    ensures Rank(Impact(a, c)) <= Rank(Higher(Impact(a, b), Impact(b, c)))
  {
    if Breaking(a, c) {
      BreakingComposes(a, b, c);
    } else if Additive(a, c) && !Breaking(a, b) {
      AdditiveComposes(a, b, c);
    }
  }

  // ---------------------------------------------------------------------------
  // A series of releases
  // ---------------------------------------------------------------------------

  /** A released version, `None` if its text does not parse, and the definitions it ships. */
  datatype Release = Release(version: Option<Triple>, crds: Crds)

  /** The version part of `cmd_check`: the bump is valid and at least what the change requires. */
  ghost predicate Passes(base: Release, next: Release) {
    && BumpOf(base.version, next.version).Some?
    && Rank(BumpOf(base.version, next.version).value) >= Rank(Impact(base.crds, next.crds))
  }

  method CheckBump(baseVersion: string, base: Crds, version: string, next: Crds) returns (ok: bool)
    ensures ok <==> Passes(Release(ParseSemver(baseVersion), base), Release(ParseSemver(version), next))
  {
    var required, reasons := CrdImpact(base, next);
    var actual := BumpLevel(baseVersion, version);
    if actual.None? { return false; }
    return Rank(actual.value) >= Rank(required);
  }

  /** No version's served flag flips, and none is dropped and re-added. */
  ghost predicate Steady(releases: seq<Release>) {
    && (forall i, j | 0 <= i < j < |releases| :: ServedAlike(releases[i].crds, releases[j].crds))
    && (forall i, j, k | 0 <= i < j < k < |releases| ::
          NotReadded(releases[i].crds, releases[j].crds, releases[k].crds))
  }

  lemma PassesCompose(a: Release, b: Release, c: Release)
    requires Passes(a, b) && Passes(b, c)
    requires ServedAlike(a.crds, b.crds) && ServedAlike(b.crds, c.crds) && NotReadded(a.crds, b.crds, c.crds)
    ensures Passes(a, c)
  {
    BumpsCompose(a.version, b.version, c.version);
    ImpactSubadditive(a.crds, b.crds, c.crds);
  }

  /** In a steady series whose every step passes the gate, any later release passes against any earlier one. */
  lemma {:induction false} SeriesPasses(releases: seq<Release>, i: nat, j: nat)
    requires Steady(releases) && i < j < |releases|
    requires forall k | 0 <= k < |releases| - 1 :: Passes(releases[k], releases[k + 1])
    ensures Passes(releases[i], releases[j])
    decreases j
  {
    assert Passes(releases[j - 1], releases[j - 1 + 1]);
    if i < j - 1 {
      SeriesPasses(releases, i, j - 1);
      PassesCompose(releases[i], releases[j - 1], releases[j]);
    }
  }

  // ---------------------------------------------------------------------------
  // Both conditions are needed
  // ---------------------------------------------------------------------------

  /** A later patch release passes if and only if the change asks for no more. */
  lemma PatchPasses(t: Triple, u: Triple, a: Crds, b: Crds)
    requires t.major == u.major && t.minor == u.minor && t.patch < u.patch
    ensures Passes(Release(Some(t), a), Release(Some(u), b)) <==> Rank(Impact(a, b)) <= Rank(Patch)
  {
  }

  /** Shipped in three successive patch releases, both steps pass the gate and the two together do not. */
  ghost predicate SlipsThrough(t: Triple, a: Crds, b: Crds, c: Crds) {
    var first, second, third := Release(Some(t), a), Release(Some(t.(patch := t.patch + 1)), b),
                                Release(Some(t.(patch := t.patch + 2)), c);
    Passes(first, second) && Passes(second, third) && !Passes(first, third)
  }

  lemma HiddenSlipsThrough(t: Triple, a: Crds, b: Crds, c: Crds)
    requires Impact(a, b) == Unchanged && Impact(b, c) == Unchanged && Rank(Impact(a, c)) > Rank(Patch)
    ensures SlipsThrough(t, a, b, c)
  {
    var second, third := t.(patch := t.patch + 1), t.(patch := t.patch + 2);
    PatchPasses(t, second, a, b);
    PatchPasses(second, third, b, c);
    PatchPasses(t, third, a, c);
  }

  lemma SameIsCompatible(s: Schema, v: string, served: bool, served': bool)
    ensures CrdCompatible(map[v := Version(served, s)], map[v := Version(served', s)])
    ensures CrdCompatible(map[], map[v := Version(served', s)])
    ensures !served ==> CrdCompatible(map[v := Version(served, s)], map[])
  {
  }

  /** Un-serving a version and removing it later asks for no bump at either step, yet is breaking. */
  lemma ServedFlipHidesRemoval(release: Triple, p: string, v: string, s: Schema)
    ensures var a: Crds := map[p := map[v := Version(true, s)]];
            var b: Crds := map[p := map[v := Version(false, s)]];
            var c: Crds := map[p := map[]];
            && Impact(a, b) == Unchanged && Impact(b, c) == Unchanged && Impact(a, c) == Major
            && SlipsThrough(release, a, b, c)
  {
    SameIsCompatible(s, v, true, false);
    SameIsCompatible(s, v, false, false);
    var a: Crds := map[p := map[v := Version(true, s)]];
    var c: Crds := map[p := map[]];
    assert v in a[p];
    assert p in a && !CrdCompatible(a[p], c[p]);
    HiddenSlipsThrough(release, a, map[p := map[v := Version(false, s)]], c);
  }

  /** Dropping an unserved version and adding it back changed asks for no bump at either step. */
  lemma ReaddHidesChange(release: Triple, p: string, v: string, s: Schema, t: Schema)
    requires !Compatible(s, t)
    ensures var a: Crds := map[p := map[v := Version(false, s)]];
            var b: Crds := map[p := map[]];
            var c: Crds := map[p := map[v := Version(false, t)]];
            && Impact(a, b) == Unchanged && Impact(b, c) == Unchanged && Impact(a, c) == Major
            && SlipsThrough(release, a, b, c)
  {
    SameIsCompatible(s, v, false, false);
    SameIsCompatible(t, v, false, false);
    var a: Crds := map[p := map[v := Version(false, s)]];
    var c: Crds := map[p := map[v := Version(false, t)]];
    assert v in a[p];
    assert p in a && !CrdCompatible(a[p], c[p]);
    HiddenSlipsThrough(release, a, map[p := map[]], c);
  }

  /** Adding a version unserved and serving it later asks for no bump at either step, yet is an addition. */
  lemma ServedFlipHidesAddition(release: Triple, p: string, v: string, s: Schema)
    ensures var a: Crds := map[p := map[]];
            var b: Crds := map[p := map[v := Version(false, s)]];
            var c: Crds := map[p := map[v := Version(true, s)]];
            && Impact(a, b) == Unchanged && Impact(b, c) == Unchanged && Impact(a, c) == Minor
            && SlipsThrough(release, a, b, c)
  {
    SameIsCompatible(s, v, false, true);
    SameIsCompatible(s, v, false, false);
    var a: Crds := map[p := map[]];
    var c: Crds := map[p := map[v := Version(true, s)]];
    assert v in c[p];
    assert IsAdditive(a, c, NewServedVersion(p, v));
    HiddenSlipsThrough(release, a, map[p := map[v := Version(false, s)]], c);
  }
}
