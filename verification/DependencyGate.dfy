/**
 The dependency upgrade gate of `src/dependency_contract.rs`: the generated contract
 suite, the compatibility matrix and the verdict. The time the generation took is
 a parameter.
 */
module DependencyGate {
  import opened VersionText

  datatype ChangeKind = RemovedApi | ChangedSignature | ChangedReturnType | RenamedConfigKey | BehaviorChange

  datatype Change = Change(api: string, kind: ChangeKind) {
    predicate Fatal() {
      kind != BehaviorChange
    }
  }

  datatype CallSite = CallSite(consumer: string, location: string, apis: seq<string>) {
    /** `touches`: some call is to `api`, or to a name that starts with it. */
    predicate Touches(api: string) {
      exists i | 0 <= i < |apis| :: api <= apis[i]
    }
  }

  /** `a` is `api` or lies under it, as the documentation of `touches` has it. */
  ghost predicate IsOrUnder(a: string, api: string) {
    a == api || Key(api, "") <= a
  }

  ghost predicate TouchesAsDocumented(site: CallSite, api: string) {
    exists a :: a in site.apis && IsOrUnder(a, api)
  }

  /** `a` is a longer name that merely begins like `api`. */
  ghost predicate BeginsLike(a: string, api: string) {
    api <= a && !IsOrUnder(a, api)
  }

  /** What is documented is found. */
  lemma DocumentedIsFound(site: CallSite, api: string)
    requires TouchesAsDocumented(site, api)
    ensures site.Touches(api)
  {
    var a :| a in site.apis && IsOrUnder(a, api);
    var i :| 0 <= i < |site.apis| && site.apis[i] == a;
    assert api <= Key(api, "");
  }

  /** More than that is found: a call of `foobar` touches `foo`. */
  lemma OtherNamesAreFound()
    ensures var site := CallSite("consumer", "file:1", ["foobar"]);
            site.Touches("foo") && !TouchesAsDocumented(site, "foo")
  {
    var site := CallSite("consumer", "file:1", ["foobar"]);
    assert "foo" <= site.apis[0];
    assert Key("foo", "")[3] == ':' && "foobar"[3] == 'b';
  }

  /**
   `touches` means what it documents if and only if some name used is `api` or lies
   under it, or no name used merely begins like `api`.
   */
  lemma TouchesExactly(site: CallSite, api: string)
    ensures (site.Touches(api) <==> TouchesAsDocumented(site, api)) <==>
              TouchesAsDocumented(site, api) || forall a | a in site.apis :: !BeginsLike(a, api)
  {
    if TouchesAsDocumented(site, api) {
      DocumentedIsFound(site, api);
    } else if site.Touches(api) {
      var i :| 0 <= i < |site.apis| && api <= site.apis[i];
      assert site.apis[i] in site.apis;
    } else {
      forall a | a in site.apis ensures !BeginsLike(a, api) {
        var i :| 0 <= i < |site.apis| && site.apis[i] == a;
      }
    }
  }

  // ---------------------------------------------------------------------------
  // The contract suite
  // ---------------------------------------------------------------------------

  datatype Assertion = ApiResolves | ConfigKeyHonoured

  /** A contract test; its identifier and assertion follow from what it is made of. */
  datatype Test = Test(consumer: string, api: string, location: string) {
    function Id(): string {
      Key(consumer, api) + ['@'] + location
    }

    function Asserts(): Assertion {
      AssertionFor(api[LeafStart(api, |api|)..])
    }
  }

  function AssertionFor(leaf: string): Assertion {
    if leaf != [] && KeyLike(leaf) then ConfigKeyHonoured else ApiResolves
  }

  /** Where the text after the last double colon begins, looking no further than `i`. */
  function LeafStart(api: string, i: nat): (r: nat)
    requires i <= |api|
    ensures r <= i && (r > 0 ==> ColonsBefore(api, r))
    ensures forall j: nat | r < j <= i :: !ColonsBefore(api, j)
  {
    if i == 0 || ColonsBefore(api, i) then i else LeafStart(api, i - 1)
  }

  predicate ColonsBefore(api: string, j: nat) {
    2 <= j <= |api| && api[j - 2] == api[j - 1] == ':'
  }

  /** Lower-case letters, underscores and hyphens only. */
  predicate KeyLike(s: string) {
    forall i | 0 <= i < |s| :: 'a' <= s[i] <= 'z' || s[i] == '_' || s[i] == '-'
  }

  function Key(consumer: string, api: string): string {
    consumer + [':', ':'] + api
  }

  /** `leaf` is all of `api`, or what follows a double colon. */
  ghost predicate EndsWith(api: string, leaf: string) {
    api == leaf || exists prefix :: api == Key(prefix, leaf)
  }

  lemma LeafIsEnd(api: string)
    ensures EndsWith(api, api[LeafStart(api, |api|)..])
  {
    var start := LeafStart(api, |api|);
    if start > 0 { KeyParts(api, start); }
  }

  lemma KeyParts(api: string, start: nat)
    requires ColonsBefore(api, start)
    ensures api == Key(api[..start - 2], api[start..])
  {
    assert api[start - 2..start] == [':', ':'];
    assert api == api[..start - 2] + api[start - 2..start] + api[start..];
  }

  lemma LeafStartIs(api: string, start: nat)
    requires start <= |api| && (start > 0 ==> ColonsBefore(api, start))
    requires forall j: nat | start < j <= |api| :: !ColonsBefore(api, j)
    ensures LeafStart(api, |api|) == start
  {
    var r := LeafStart(api, |api|);
    assert r > 0 ==> ColonsBefore(api, r);
  }

  /** Before `leaf` stands nothing, or a double colon. */
  lemma EndAt(api: string, leaf: string)
    requires EndsWith(api, leaf)
    ensures |leaf| <= |api| && api[|api| - |leaf|..] == leaf
    ensures |api| > |leaf| ==> ColonsBefore(api, |api| - |leaf|)
  {
    if api != leaf {
      var prefix :| api == Key(prefix, leaf);
      assert |api| - |leaf| == |prefix| + 2;
    }
  }

  lemma NoColonsAfter(api: string, start: nat)
    requires start <= |api| && ':' !in api[start..]
    ensures forall j: nat | start < j <= |api| :: !ColonsBefore(api, j)
  {
    forall j: nat | start < j <= |api| ensures !ColonsBefore(api, j) {
      assert api[start..][j - 1 - start] in api[start..];
    }
  }

  /** A name without a colon at the end of `api` is all that follows the last double colon. */
  lemma EndIsLeaf(api: string, leaf: string)
    requires EndsWith(api, leaf) && ':' !in leaf
    ensures api[LeafStart(api, |api|)..] == leaf
  {
    EndAt(api, leaf);
    NoColonsAfter(api, |api| - |leaf|);
    LeafStartIs(api, |api| - |leaf|);
  }

  /**
   A test asserts a configuration key if and only if its API is, or ends after a
   double colon in, a name of lower-case letters, underscores and hyphens.
   */
  lemma AssertsExactly(t: Test)
    ensures t.Asserts() == ConfigKeyHonoured <==>
              exists leaf :: leaf != [] && LowerCaseName(leaf) && EndsWith(t.api, leaf)
  {
    if t.Asserts() == ConfigKeyHonoured { var leaf := LeafOf(t); }
    if leaf :| leaf != [] && LowerCaseName(leaf) && EndsWith(t.api, leaf) {
      KeyLikeIsName(leaf);
      KeyLikeEndIsLeaf(t.api, leaf);
    }
  }

  /** By character codes: lower-case letters, the underscore and the hyphen. */
  ghost predicate LowerCaseName(s: string) {
    forall i | 0 <= i < |s| :: 97 <= s[i] as int <= 122 || s[i] as int == 95 || s[i] as int == 45
  }

  lemma KeyLikeIsName(s: string)
    ensures KeyLike(s) <==> LowerCaseName(s)
  {
  }

  lemma LeafOf(t: Test) returns (leaf: string)
    requires t.Asserts() == ConfigKeyHonoured
    ensures leaf != [] && LowerCaseName(leaf) && EndsWith(t.api, leaf)
  {
    leaf := t.api[LeafStart(t.api, |t.api|)..];
    LeafIsEnd(t.api);
    KeyLikeIsName(leaf);
  }

  lemma KeyLikeEndIsLeaf(api: string, leaf: string)
    requires KeyLike(leaf) && EndsWith(api, leaf)
    ensures api[LeafStart(api, |api|)..] == leaf
  {
    KeyLikeHasNoColon(leaf);
    EndIsLeaf(api, leaf);
  }

  lemma KeyLikeHasNoColon(leaf: string)
    requires KeyLike(leaf)
    ensures ':' !in leaf
  {
  }

  function KeyOf(t: Test): string {
    Key(t.consumer, t.api)
  }

  /** Every use of an API, in the order the call sites list them. */
  function Uses(sites: seq<CallSite>): seq<Test> {
    if sites == [] then [] else Uses(sites[..|sites| - 1]) + UsesAt(sites[|sites| - 1])
  }

  function UsesAt(site: CallSite): seq<Test> {
    seq(|site.apis|, i requires 0 <= i < |site.apis| => Test(site.consumer, site.apis[i], site.location))
  }

  lemma UsesAdded(sites: seq<CallSite>, site: CallSite)
    ensures Uses(sites + [site]) == Uses(sites) + UsesAt(site)
  {
  }

  function Keys(ts: seq<Test>): set<string> {
    set t | t in ts :: KeyOf(t)
  }

  /** The uses that are kept: the first under each key. */
  function Kept(uses: seq<Test>): seq<Test> {
    if uses == [] then [] else
    var before, last := Kept(uses[..|uses| - 1]), uses[|uses| - 1];
    if KeyOf(last) in Keys(before) then before else before + [last]
  }

  /** The uses are exactly the names that call sites list, with the consumer and the place that list them. */
  lemma {:induction false} UsesComeFromSites(sites: seq<CallSite>, u: Test)
    ensures u in Uses(sites) <==>
              exists s :: s in sites && u.consumer == s.consumer && u.location == s.location && u.api in s.apis
  {
    if sites != [] {
      var init, last := sites[..|sites| - 1], sites[|sites| - 1];
      UsesComeFromSites(init, u);
      UsesOfSite(last, u);
      assert sites == init + [last];
    }
  }

  lemma UsesOfSite(site: CallSite, u: Test)
    ensures u in UsesAt(site) <==> u.consumer == site.consumer && u.location == site.location && u.api in site.apis
  {
    if u.consumer == site.consumer && u.location == site.location && u.api in site.apis {
      var i :| 0 <= i < |site.apis| && site.apis[i] == u.api;
      assert UsesAt(site)[i] == u;
    }
  }

  lemma KeysAdded(ts: seq<Test>, t: Test)
    ensures Keys(ts + [t]) == Keys(ts) + {KeyOf(t)}
  {
  }

  lemma KeptStep(uses: seq<Test>, t: Test)
    ensures Kept(uses + [t]) == if KeyOf(t) in Keys(Kept(uses)) then Kept(uses) else Kept(uses) + [t]
  {
  }

  /** What a suite is for: every use is covered by one test, which comes from its first use. */
  ghost predicate Covers(tests: seq<Test>, uses: seq<Test>) {
    && Keys(tests) == Keys(uses)
    && (forall i, j | 0 <= i < j < |tests| :: KeyOf(tests[i]) != KeyOf(tests[j]))
    && forall t | t in tests :: FirstUse(t, uses)
  }

  ghost predicate FirstUse(t: Test, uses: seq<Test>) {
    exists k :: 0 <= k < |uses| && uses[k] == t && forall j | 0 <= j < k :: KeyOf(uses[j]) != KeyOf(t)
  }

  lemma FirstUseStays(t: Test, uses: seq<Test>, u: Test)
    requires FirstUse(t, uses)
    ensures FirstUse(t, uses + [u])
  {
    var k :| 0 <= k < |uses| && uses[k] == t && forall j | 0 <= j < k :: KeyOf(uses[j]) != KeyOf(t);
    assert (uses + [u])[k] == t;
  }

  lemma NewUseIsFirst(uses: seq<Test>, u: Test)
    requires KeyOf(u) !in Keys(uses)
    ensures FirstUse(u, uses + [u])
  {
    forall j | 0 <= j < |uses| ensures KeyOf(uses[j]) != KeyOf(u) { assert uses[j] in uses; }
    assert (uses + [u])[|uses|] == u;
  }

  lemma NewKeyIsApart(ts: seq<Test>, t: Test)
    requires KeyOf(t) !in Keys(ts)
    ensures forall i | 0 <= i < |ts| :: KeyOf(ts[i]) != KeyOf(t)
  {
    forall i | 0 <= i < |ts| ensures KeyOf(ts[i]) != KeyOf(t) { assert ts[i] in ts; }
  }

  lemma {:induction false} KeptCovers(uses: seq<Test>)
    ensures Covers(Kept(uses), uses)
  {
    if uses != [] {
      var init, last := uses[..|uses| - 1], uses[|uses| - 1];
      var before := Kept(init);
      KeptCovers(init);
      assert uses == init + [last];
      KeysAdded(init, last);
      KeysAdded(before, last);
      forall t | t in before ensures FirstUse(t, uses) { FirstUseStays(t, init, last); }
      if KeyOf(last) !in Keys(before) {
        NewUseIsFirst(init, last);
        NewKeyIsApart(before, last);
      }
    }
  }

  function Consumers(sites: seq<CallSite>): set<string> {
    set s | s in sites :: s.consumer
  }

  lemma ConsumersAdded(sites: seq<CallSite>, site: CallSite)
    ensures Consumers(sites + [site]) == Consumers(sites) + {site.consumer}
  {
  }

  ghost predicate AscendingTexts(ks: seq<string>) {
    forall i, j | 0 <= i < j < |ks| :: TextLess(ks[i], ks[j])
  }

  lemma LeastText(s: set<string>) returns (k: string)
    requires s != {}
    ensures k in s && forall x | x in s :: x == k || TextLess(k, x)
    decreases |s|
  {
    k :| k in s;
    if s != {k} {
      var m := LeastText(s - {k});
      TextLessTotal(k, m);
      if TextLess(k, m) {
        forall x | x in s ensures x == k || TextLess(k, x) {
          if x != k && x != m { TextLessTransitive(k, m, x); }
        }
      } else {
        k := m;
      }
    }
  }

  /** The elements of an ordered set, in order. */
  method InOrder(s: set<string>) returns (ks: seq<string>)
    ensures AscendingTexts(ks) && forall k :: k in ks <==> k in s
  {
    ks := [];
    var rest := s;
    while rest != {}
      invariant rest <= s && AscendingTexts(ks) && forall k :: k in ks <==> k in s - rest
      invariant forall i, x | 0 <= i < |ks| && x in rest :: TextLess(ks[i], x)
      decreases |rest|
    {
      ghost var least := LeastText(rest);
      var k :| k in rest && forall x | x in rest :: x == k || TextLess(k, x);
      ks := ks + [k];
      rest := rest - {k};
    }
  }

  /** The suite after `uses`, the number of uses it leaves out and the keys it covers. */
  ghost predicate Suite(uses: seq<Test>, tests: seq<Test>, deduplicated: nat, seen: set<string>) {
    tests == Kept(uses) && |tests| + deduplicated == |uses| && seen == Keys(tests)
  }

  lemma SuiteStep(uses: seq<Test>, tests: seq<Test>, deduplicated: nat, seen: set<string>, t: Test)
    requires Suite(uses, tests, deduplicated, seen)
    ensures if KeyOf(t) in seen then Suite(uses + [t], tests, deduplicated + 1, seen)
            else Suite(uses + [t], tests + [t], deduplicated, seen + {KeyOf(t)})
  {
    KeptStep(uses, t);
    KeysAdded(tests, t);
  }

  lemma SiteAdded(sites: seq<CallSite>, i: nat)
    requires i < |sites|
    ensures Uses(sites[..i + 1]) == Uses(sites[..i]) + UsesAt(sites[i])
    ensures Consumers(sites[..i + 1]) == Consumers(sites[..i]) + {sites[i].consumer}
  {
    assert sites[..i + 1] == sites[..i] + [sites[i]];
    ConsumersAdded(sites[..i], sites[i]);
    UsesAdded(sites[..i], sites[i]);
  }

  /** `generate`: the first use under each key becomes a test, and every other use is counted. */
  method Generate(sites: seq<CallSite>) returns (tests: seq<Test>, consumers: seq<string>, deduplicated: nat)
    ensures tests == Kept(Uses(sites)) && |tests| + deduplicated == |Uses(sites)|
    ensures AscendingTexts(consumers) && forall k :: k in consumers <==> k in Consumers(sites)
  {
    tests, deduplicated := [], 0;
    var seen: set<string>, named: set<string> := {}, {};
    for i := 0 to |sites|
      invariant Suite(Uses(sites[..i]), tests, deduplicated, seen)
      invariant named == Consumers(sites[..i])
    {
      SiteAdded(sites, i);
      named := named + {sites[i].consumer};
      tests, deduplicated, seen := GenerateAt(sites[i], tests, deduplicated, seen, Uses(sites[..i]));
    }
    assert sites[..|sites|] == sites;
    consumers := InOrder(named);
  }

  /** The inner loop, over the names one call site uses. */
  method GenerateAt(site: CallSite, tests0: seq<Test>, deduplicated0: nat, seen0: set<string>, ghost before: seq<Test>)
    returns (tests: seq<Test>, deduplicated: nat, seen: set<string>)
    requires Suite(before, tests0, deduplicated0, seen0)
    ensures Suite(before + UsesAt(site), tests, deduplicated, seen)
  {
    tests, deduplicated, seen := tests0, deduplicated0, seen0;
    ghost var uses := UsesAt(site);
    assert before + uses[..0] == before;
    for i := 0 to |site.apis|
      invariant Suite(before + uses[..i], tests, deduplicated, seen)
    {
      var t := Test(site.consumer, site.apis[i], site.location);
      assert before + uses[..i + 1] == before + uses[..i] + [t];
      SuiteStep(before + uses[..i], tests, deduplicated, seen, t);
      var key := Key(site.consumer, site.apis[i]);
      if key in seen {
        deduplicated := deduplicated + 1;
      } else {
        seen := seen + {key};
        tests := tests + [t];
      }
    }
    assert before + uses[..|site.apis|] == before + uses;
  }

  ghost predicate NoColon(ts: seq<Test>) {
    forall t | t in ts :: ':' !in t.consumer
  }

  lemma KeyPinsPair(c: string, a: string, c': string, a': string)
    requires ':' !in c && ':' !in c' && Key(c, a) == Key(c', a')
    ensures c == c' && a == a'
  {
    var k, k' := Key(c, a), Key(c', a');
    assert k == c + [':'] + ([':'] + a) && k' == c' + [':'] + ([':'] + a');
    SplitFirst(c, ':', [':'] + a);
    SplitFirst(c', ':', [':'] + a');
    assert k[..|c|] == c && k'[..|c'|] == c';
    assert k[|c| + 2..] == a && k'[|c'| + 2..] == a';
  }

  /** For consumers without a colon, the suite has exactly one test per consumer and API used. */
  lemma OneTestPerPair(uses: seq<Test>, u: Test) returns (i: nat)
    requires NoColon(uses) && u in uses
    ensures var tests := Kept(uses);
            && i < |tests| && tests[i].consumer == u.consumer && tests[i].api == u.api
            && forall j | 0 <= j < |tests| && tests[j].consumer == u.consumer && tests[j].api == u.api :: j == i
  {
    var tests := Kept(uses);
    KeptCovers(uses);
    assert KeyOf(u) in Keys(uses);
    var t :| t in tests && KeyOf(t) == KeyOf(u);
    assert FirstUse(t, uses);
    i :| 0 <= i < |tests| && tests[i] == t;
    KeyPinsPair(t.consumer, t.api, u.consumer, u.api);
    forall j | 0 <= j < |tests| && tests[j].consumer == u.consumer && tests[j].api == u.api ensures j == i {
      assert KeyOf(tests[j]) == KeyOf(tests[i]);
    }
  }

  lemma LastAt(t: Test)
    requires '@' !in t.location
    ensures |KeyOf(t)| < |t.Id()| && t.Id()[|KeyOf(t)|] == '@'
    ensures forall i | |KeyOf(t)| < i < |t.Id()| :: t.Id()[i] != '@'
    ensures t.Id()[..|KeyOf(t)|] == KeyOf(t) && t.Id()[|KeyOf(t)| + 1..] == t.location
  {
    assert forall i | |KeyOf(t)| < i < |t.Id()| :: t.Id()[i] in t.location;
  }

  /** An identifier can be taken apart again at its last `@`. */
  lemma IdPinsTest(t: Test, u: Test)
    requires '@' !in t.location && '@' !in u.location && t.Id() == u.Id()
    ensures KeyOf(t) == KeyOf(u) && t.location == u.location
  {
    LastAt(t);
    LastAt(u);
  }

  /** Where locations hold no `@`, the tests of a suite have different identifiers. */
  lemma IdsAreDistinct(uses: seq<Test>, i: nat, j: nat)
    requires i < j < |Kept(uses)| && forall u | u in uses :: '@' !in u.location
    ensures Kept(uses)[i].Id() != Kept(uses)[j].Id()
  {
    var tests := Kept(uses);
    KeptCovers(uses);
    assert FirstUse(tests[i], uses) && FirstUse(tests[j], uses) by {
      assert tests[i] in tests && tests[j] in tests;
    }
    if tests[i].Id() == tests[j].Id() { IdPinsTest(tests[i], tests[j]); }
  }

  /** The shorter consumer's pair runs into the longer one's: a colon, or a whole key, changes sides. */
  ghost predicate Overlaps(c: string, a: string, c': string, a': string) {
    || (c' == c + [':'] && a == [':'] + a')
    || exists m :: c' == Key(c, m) && a == Key(m, a')
  }

  lemma OverlapsCollide(c: string, a: string, c': string, a': string)
    requires Overlaps(c, a, c', a')
    ensures Key(c, a) == Key(c', a') && |c| < |c'|
  {
    if c' == c + [':'] && a == [':'] + a' {
      assert Key(c, a) == c + [':', ':', ':'] + a' == Key(c', a');
    } else {
      var m :| c' == Key(c, m) && a == Key(m, a');
      assert Key(c, a) == c + [':', ':'] + m + [':', ':'] + a' == Key(c', a');
    }
  }

  lemma CollisionsOverlap(c: string, a: string, c': string, a': string)
    requires |c| < |c'| && Key(c, a) == Key(c', a')
    ensures Overlaps(c, a, c', a')
  {
    var k, n := Key(c, a), |c'|;
    assert k[..|c|] == c && k[|c| + 2..] == a && k[..n] == c' && k[n + 2..] == a';
    assert k[|c|] == k[|c| + 1] == k[n] == k[n + 1] == ':';
    if n == |c| + 1 {
      assert c' == c + [':'] && a == [':'] + a';
    } else {
      var m := k[|c| + 2..n];
      assert c' == Key(c, m);
      assert a == k[|c| + 2..n] + k[n..n + 2] + k[n + 2..];
      assert a == Key(m, a');
    }
  }

  /** Two pairs share a key if and only if they are the same pair or one runs into the other. */
  lemma KeysCollideExactly(c: string, a: string, c': string, a': string)
    ensures Key(c, a) == Key(c', a') <==>
              (c == c' && a == a') || Overlaps(c, a, c', a') || Overlaps(c', a', c, a)
  {
    if Key(c, a) == Key(c', a') {
      if |c| < |c'| {
        CollisionsOverlap(c, a, c', a');
      } else if |c'| < |c| {
        CollisionsOverlap(c', a', c, a);
      } else {
        assert Key(c, a)[..|c|] == c && Key(c', a')[..|c'|] == c';
        assert Key(c, a)[|c| + 2..] == a && Key(c', a')[|c'| + 2..] == a';
      }
    }
    if Overlaps(c, a, c', a') { OverlapsCollide(c, a, c', a'); }
    if Overlaps(c', a', c, a) { OverlapsCollide(c', a', c, a); }
  }

  ghost predicate SamePair(t: Test, u: Test) {
    t.consumer == u.consumer && t.api == u.api
  }

  /** Every consumer and API that is used has a test of its own. */
  ghost predicate AllPairsTested(tests: seq<Test>, uses: seq<Test>) {
    forall u | u in uses :: exists t :: t in tests && SamePair(t, u)
  }

  ghost predicate NoOverlap(uses: seq<Test>) {
    forall u, v | u in uses && v in uses :: !Overlaps(u.consumer, u.api, v.consumer, v.api)
  }

  lemma OverlapUntested(uses: seq<Test>, u: Test, v: Test)
    requires AllPairsTested(Kept(uses), uses) && u in uses && v in uses
    ensures !Overlaps(u.consumer, u.api, v.consumer, v.api)
  {
    var t :| t in Kept(uses) && SamePair(t, u);
    var t' :| t' in Kept(uses) && SamePair(t', v);
    if KeyOf(t) == KeyOf(t') { OneTestPerKey(uses, t, t'); }
    if Overlaps(u.consumer, u.api, v.consumer, v.api) { OverlapsCollide(u.consumer, u.api, v.consumer, v.api); }
  }

  lemma OneTestPerKey(uses: seq<Test>, t: Test, t': Test)
    requires t in Kept(uses) && t' in Kept(uses) && KeyOf(t) == KeyOf(t')
    ensures t == t'
  {
    var tests := Kept(uses);
    KeptCovers(uses);
    var i :| 0 <= i < |tests| && tests[i] == t;
    var j :| 0 <= j < |tests| && tests[j] == t';
    assert KeyOf(tests[i]) == KeyOf(tests[j]);
  }

  lemma TestedWithoutOverlap(uses: seq<Test>, u: Test) returns (t: Test)
    requires NoOverlap(uses) && u in uses
    ensures t in Kept(uses) && SamePair(t, u)
  {
    KeptCovers(uses);
    assert KeyOf(u) in Keys(uses);
    t :| t in Kept(uses) && KeyOf(t) == KeyOf(u);
    assert FirstUse(t, uses);
    KeysCollideExactly(t.consumer, t.api, u.consumer, u.api);
  }

  /** The suite tests every consumer and API that is used if and only if no two uses run into each other. */
  lemma AllTestedExactly(uses: seq<Test>)
    ensures AllPairsTested(Kept(uses), uses) <==> NoOverlap(uses)
  {
    if AllPairsTested(Kept(uses), uses) {
      forall u, v | u in uses && v in uses ensures !Overlaps(u.consumer, u.api, v.consumer, v.api) {
        OverlapUntested(uses, u, v);
      }
    }
    if NoOverlap(uses) {
      forall u | u in uses ensures exists t :: t in Kept(uses) && SamePair(t, u) {
        var t := TestedWithoutOverlap(uses, u);
      }
    }
  }

  /** With a colon, two different pairs can share a key, and the second is not tested. */
  lemma ColonsCollide(c: string, m: string, a: string, l: string)
    ensures var one, two := Test(Key(c, m), a, l), Test(c, Key(m, a), l);
            one != two && Kept([one, two]) == [one]
  {
    var one, two := Test(Key(c, m), a, l), Test(c, Key(m, a), l);
    assert |one.consumer| > |two.consumer|;
    assert KeyOf(one) == KeyOf(two);
    assert [one, two][..1] == [one] && [one][..0] == [];
    assert Kept([one]) == [one] by { assert Kept([one][..0]) == []; }
    assert one in Kept([one]) && KeyOf(two) in Keys(Kept([one]));
  }

  // ---------------------------------------------------------------------------
  // The compatibility matrix
  // ---------------------------------------------------------------------------

  datatype CellStatus = Compatible | Incompatible | Unverified

  datatype Cell = Cell(consumer: string, status: CellStatus, causes: seq<Change>, evidence: seq<string>)

  /** Some call site of the consumer uses what changed. */
  ghost predicate Hits(sites: seq<CallSite>, consumer: string, change: Change) {
    exists s :: s in sites && s.consumer == consumer && s.Touches(change.api)
  }

  /** What a row must say of its consumer. */
  ghost predicate CellCorrect(cell: Cell, sites: seq<CallSite>, changes: seq<Change>) {
    && (cell.status == Incompatible <==>
          exists c :: c in changes && c.Fatal() && Hits(sites, cell.consumer, c))
    && (cell.status == Compatible <==> forall c | c in changes :: !Hits(sites, cell.consumer, c))
    && (forall c :: c in cell.causes <==> c in changes && Hits(sites, cell.consumer, c))
    && AscendingTexts(cell.evidence)
    && (forall l :: l in cell.evidence <==>
          exists c, s :: c in changes && s in sites && s.consumer == cell.consumer && s.Touches(c.api) && s.location == l)
  }

  ghost predicate OwnSites(own: seq<CallSite>, sites: seq<CallSite>, consumer: string) {
    forall s :: s in own <==> s in sites && s.consumer == consumer
  }

  /** The call sites of each consumer. */
  method Group(sites: seq<CallSite>) returns (groups: map<string, seq<CallSite>>)
    ensures groups.Keys == Consumers(sites)
    ensures forall k | k in groups :: OwnSites(groups[k], sites, k)
  {
    groups := map[];
    for i := 0 to |sites|
      invariant groups.Keys == Consumers(sites[..i])
      invariant forall k | k in groups :: OwnSites(groups[k], sites[..i], k)
    {
      var site := sites[i];
      var own := if site.consumer in groups then groups[site.consumer] else [];
      ghost var before := groups;
      groups := groups[site.consumer := own + [site]];
      GroupGrows(sites, i, own, before);
    }
    assert sites[..|sites|] == sites;
  }

  lemma GroupGrows(sites: seq<CallSite>, i: nat, own: seq<CallSite>, groups: map<string, seq<CallSite>>)
    requires i < |sites| && own == if sites[i].consumer in groups then groups[sites[i].consumer] else []
    requires groups.Keys == Consumers(sites[..i])
    requires forall k | k in groups :: OwnSites(groups[k], sites[..i], k)
    ensures var groups' := groups[sites[i].consumer := own + [sites[i]]];
            && groups'.Keys == Consumers(sites[..i + 1])
            && forall k | k in groups' :: OwnSites(groups'[k], sites[..i + 1], k)
  {
  }

  method Touching(own: seq<CallSite>, api: string) returns (hit: seq<CallSite>, locations: set<string>)
    ensures forall s :: s in hit <==> s in own && s.Touches(api)
    ensures locations == set s | s in hit :: s.location
  {
    hit, locations := [], {};
    for i := 0 to |own|
      invariant forall s :: s in hit <==> s in own[..i] && s.Touches(api)
      invariant locations == set s | s in hit :: s.location
    {
      if own[i].Touches(api) {
        ghost var before := hit;
        hit := hit + [own[i]];
        assert forall s :: s in hit <==> s in before || s == own[i];
        locations := locations + {own[i].location};
      }
    }
  }

  ghost predicate HitBy(own: seq<CallSite>, c: Change) {
    exists s :: s in own && s.Touches(c.api)
  }

  ghost predicate Witnesses(own: seq<CallSite>, changes: seq<Change>, l: string) {
    exists c, s :: c in changes && s in own && s.Touches(c.api) && s.location == l
  }

  /** One row of the matrix, from the call sites of its consumer. */
  method BuildCell(consumer: string, own: seq<CallSite>, changes: seq<Change>) returns (cell: Cell)
    ensures cell.consumer == consumer
    ensures forall c :: c in cell.causes <==> c in changes && HitBy(own, c)
    ensures cell.status == if exists c :: c in cell.causes && c.Fatal() then Incompatible
                           else if cell.causes == [] then Compatible else Unverified
    ensures AscendingTexts(cell.evidence) && forall l :: l in cell.evidence <==> Witnesses(own, changes, l)
  {
    var causes: seq<Change>, evidence: set<string>, fatal := [], {}, false;
    for i := 0 to |changes|
      invariant forall c :: c in causes <==> c in changes[..i] && HitBy(own, c)
      invariant fatal <==> exists c :: c in causes && c.Fatal()
      invariant forall l :: l in evidence <==> Witnesses(own, changes[..i], l)
    {
      var change := changes[i];
      var hit, locations := Touching(own, change.api);
      WitnessesGrow(own, changes, i, hit, locations);
      if |hit| > 0 {
        assert hit[0] in hit;
        ghost var before := causes;
        causes := causes + [change];
        assert forall c :: c in causes <==> c in before || c == change;
        if change.Fatal() {
          fatal := true;
          assert change in causes;
        }
        evidence := evidence + locations;
      }
    }
    assert changes[..|changes|] == changes;
    var status := if fatal then Incompatible else if |causes| == 0 then Compatible else Unverified;
    var ordered := InOrder(evidence);
    cell := Cell(consumer, status, causes, ordered);
  }

  lemma WitnessesGrow(own: seq<CallSite>, changes: seq<Change>, i: nat, hit: seq<CallSite>, locations: set<string>)
    requires i < |changes| && forall s :: s in hit <==> s in own && s.Touches(changes[i].api)
    requires locations == set s | s in hit :: s.location
    ensures HitBy(own, changes[i]) <==> hit != []
    ensures forall l :: Witnesses(own, changes[..i + 1], l) <==> Witnesses(own, changes[..i], l) || l in locations
  {
    if hit != [] { assert hit[0] in hit; }
    forall l ensures Witnesses(own, changes[..i + 1], l) <==> Witnesses(own, changes[..i], l) || l in locations {
      if Witnesses(own, changes[..i], l) {
        var c, s :| c in changes[..i] && s in own && s.Touches(c.api) && s.location == l;
        assert c in changes[..i + 1];
      }
      if l in locations {
        var s :| s in hit && s.location == l;
        assert changes[i] in changes[..i + 1];
      }
      if Witnesses(own, changes[..i + 1], l) {
        var c, s :| c in changes[..i + 1] && s in own && s.Touches(c.api) && s.location == l;
        assert c in changes[..i] || c == changes[i];
      }
    }
  }

  /** A row built from a consumer's own call sites is right about all call sites. */
  lemma OwnCellCorrect(cell: Cell, own: seq<CallSite>, sites: seq<CallSite>, changes: seq<Change>)
    requires OwnSites(own, sites, cell.consumer)
    requires forall c :: c in cell.causes <==> c in changes && HitBy(own, c)
    requires cell.status == if exists c :: c in cell.causes && c.Fatal() then Incompatible
                            else if cell.causes == [] then Compatible else Unverified
    requires AscendingTexts(cell.evidence) && forall l :: l in cell.evidence <==> Witnesses(own, changes, l)
    ensures CellCorrect(cell, sites, changes)
  {
    forall c ensures HitBy(own, c) <==> Hits(sites, cell.consumer, c) {
      if HitBy(own, c) { var s :| s in own && s.Touches(c.api); }
      if Hits(sites, cell.consumer, c) {
        var s :| s in sites && s.consumer == cell.consumer && s.Touches(c.api);
        assert s in own;
      }
    }
    if cell.causes != [] { assert cell.causes[0] in cell.causes; }
    forall l ensures Witnesses(own, changes, l) <==>
      exists c, s :: c in changes && s in sites && s.consumer == cell.consumer && s.Touches(c.api) && s.location == l
    {
      if Witnesses(own, changes, l) {
        var c, s :| c in changes && s in own && s.Touches(c.api) && s.location == l;
        assert s in sites && s.consumer == cell.consumer;
      }
      if c, s :| c in changes && s in sites && s.consumer == cell.consumer && s.Touches(c.api) && s.location == l {
        assert s in own;
      }
    }
  }

  /** One row for each consumer, in their order. */
  ghost predicate RowsFor(cells: seq<Cell>, consumers: seq<string>) {
    |cells| == |consumers| && forall i | 0 <= i < |cells| :: cells[i].consumer == consumers[i]
  }

  /** `construct`: one correct row per consumer, ordered by consumer. */
  method Construct(sites: seq<CallSite>, changes: seq<Change>)
    returns (cells: seq<Cell>, ghost consumers: seq<string>)
    ensures AscendingTexts(consumers) && forall k :: k in consumers <==> k in Consumers(sites)
    ensures RowsFor(cells, consumers)
    ensures forall i | 0 <= i < |cells| :: CellCorrect(cells[i], sites, changes)
  {
    var groups := Group(sites);
    var order := InOrder(groups.Keys);
    cells, consumers := [], order;
    for i := 0 to |order|
      invariant |cells| == i && forall j | 0 <= j < i :: cells[j].consumer == order[j]
      invariant forall j | 0 <= j < i :: CellCorrect(cells[j], sites, changes)
    {
      var k := order[i];
      assert k in order;
      var cell := BuildCell(k, groups[k], changes);
      OwnCellCorrect(cell, groups[k], sites, changes);
      cells := cells + [cell];
    }
  }

  // ---------------------------------------------------------------------------
  // The verdict
  // ---------------------------------------------------------------------------

  /** Five minutes, in nanoseconds. */
  const BUDGET := 300_000_000_000

  datatype Proposal = Proposal(from: SemVer, to: SemVer, changes: seq<Change>, sites: seq<CallSite>)

  datatype Reason = MajorBump | NotNewer | NoCallSites | OverBudget | ConsumerBreaks(consumer: string)

  /** What is wrong with an upgrade whose suite took `elapsed` nanoseconds to generate. */
  ghost predicate Objection(p: Proposal, enforceBudget: bool, elapsed: nat, r: Reason) {
    match r
    case MajorBump => p.to.major > p.from.major
    case NotNewer => !Rises(p.from, p.to)
    case NoCallSites => p.sites == []
    case OverBudget => enforceBudget && elapsed > BUDGET
    case ConsumerBreaks(k) => Broken(p, k)
  }

  /** When an upgrade may be merged. */
  ghost predicate Acceptable(p: Proposal, enforceBudget: bool, elapsed: nat) {
    && Rises(p.from, p.to) && p.to.major <= p.from.major
    && p.sites != []
    && (enforceBudget ==> elapsed <= BUDGET)
    && forall s, c | s in p.sites && c in p.changes && c.Fatal() :: !s.Touches(c.api)
  }

  /**
   The four kinds of change that break a call block every upgrade in which a call
   site touches one; a change of behaviour alone never blocks.
   */
  lemma KindsThatBlock(p: Proposal, enforceBudget: bool, elapsed: nat)
    ensures Acceptable(p, enforceBudget, elapsed) <==>
              && Rises(p.from, p.to) && p.to.major <= p.from.major
              && p.sites != [] && (enforceBudget ==> elapsed <= 300_000_000_000)
              && forall s, c | s in p.sites && c in p.changes && s.Touches(c.api) ::
                   && c.kind != RemovedApi && c.kind != ChangedSignature
                   && c.kind != ChangedReturnType && c.kind != RenamedConfigKey
  {
  }

  ghost predicate Blocked(cells: seq<Cell>, k: string) {
    exists c :: c in cells && c.consumer == k && c.status == Incompatible
  }

  ghost predicate Broken(p: Proposal, k: string) {
    exists c :: c in p.changes && c.Fatal() && Hits(p.sites, k, c)
  }

  method BlockedConsumers(cells: seq<Cell>) returns (reasons: seq<Reason>)
    ensures forall r :: r in reasons <==> r.ConsumerBreaks? && Blocked(cells, r.consumer)
  {
    reasons := [];
    for i := 0 to |cells|
      invariant forall r :: r in reasons <==> r.ConsumerBreaks? && Blocked(cells[..i], r.consumer)
    {
      assert forall c :: c in cells[..i + 1] <==> c in cells[..i] || c == cells[i];
      if cells[i].status == Incompatible { reasons := reasons + [ConsumerBreaks(cells[i].consumer)]; }
    }
    assert cells[..|cells|] == cells;
  }

  /** `validate`: approves exactly the acceptable upgrades, and otherwise lists exactly the objections. */
  method Validate(p: Proposal, enforceBudget: bool, elapsed: nat) returns (approved: bool, reasons: seq<Reason>)
    ensures approved <==> Acceptable(p, enforceBudget, elapsed)
    ensures forall r :: r in reasons <==> Objection(p, enforceBudget, elapsed, r)
  {
    var cells, consumers := Construct(p.sites, p.changes);
    reasons := [];
    if p.to.major > p.from.major { reasons := reasons + [MajorBump]; }
    if !Rises(p.from, p.to) { reasons := reasons + [NotNewer]; }
    if |p.sites| == 0 { reasons := reasons + [NoCallSites]; }
    if enforceBudget && elapsed > BUDGET { reasons := reasons + [OverBudget]; }
    var blocked := BlockedConsumers(cells);
    BlockedMeansBroken(p, cells, consumers);
    reasons := reasons + blocked;
    approved := |reasons| == 0;
    NoObjections(p, enforceBudget, elapsed, reasons);
  }

  lemma BlockedMeansBroken(p: Proposal, cells: seq<Cell>, consumers: seq<string>)
    requires RowsFor(cells, consumers) && forall k :: k in consumers <==> k in Consumers(p.sites)
    requires forall i | 0 <= i < |cells| :: CellCorrect(cells[i], p.sites, p.changes)
    ensures forall k :: Blocked(cells, k) <==> Broken(p, k)
  {
    forall k ensures Blocked(cells, k) <==> Broken(p, k) {
      if Broken(p, k) {
        var c :| c in p.changes && c.Fatal() && Hits(p.sites, k, c);
        var s :| s in p.sites && s.consumer == k && s.Touches(c.api);
        assert k in Consumers(p.sites);
        var i :| 0 <= i < |consumers| && consumers[i] == k;
        assert CellCorrect(cells[i], p.sites, p.changes) && cells[i] in cells;
      }
      if Blocked(cells, k) {
        var c :| c in cells && c.consumer == k && c.status == Incompatible;
        var i :| 0 <= i < |cells| && cells[i] == c;
        assert CellCorrect(cells[i], p.sites, p.changes);
      }
    }
  }

  lemma NoObjections(p: Proposal, enforceBudget: bool, elapsed: nat, reasons: seq<Reason>)
    requires forall r :: r in reasons <==> Objection(p, enforceBudget, elapsed, r)
    ensures reasons == [] <==> Acceptable(p, enforceBudget, elapsed)
  {
    if reasons == [] {
      assert MajorBump !in reasons && NotNewer !in reasons && NoCallSites !in reasons && OverBudget !in reasons;
      forall s, c | s in p.sites && c in p.changes && c.Fatal() ensures !s.Touches(c.api) {
        assert ConsumerBreaks(s.consumer) !in reasons;
        assert !Hits(p.sites, s.consumer, c);
      }
    } else {
      assert Objection(p, enforceBudget, elapsed, reasons[0]);
    }
  }

  /** When an upgrade may be merged, by the documented meaning of `touches`. */
  ghost predicate AcceptableAsDocumented(p: Proposal, enforceBudget: bool, elapsed: nat) {
    && Rises(p.from, p.to) && p.to.major <= p.from.major
    && p.sites != []
    && (enforceBudget ==> elapsed <= BUDGET)
    && forall s, c | s in p.sites && c in p.changes && c.Fatal() :: !TouchesAsDocumented(s, c.api)
  }

  /** Some name used merely begins like one with a fatal change. */
  ghost predicate SomeBeginsLike(p: Proposal) {
    exists s, c, a :: s in p.sites && c in p.changes && a in s.apis && c.Fatal() && BeginsLike(a, c.api)
  }

  lemma BeginsLikeTouches(site: CallSite, a: string, api: string)
    requires a in site.apis && BeginsLike(a, api)
    ensures site.Touches(api)
  {
    var i :| 0 <= i < |site.apis| && site.apis[i] == a;
  }

  /**
   The gate is never laxer than documented, and it is stricter, blocking an upgrade
   that the documented meaning would let through, if and only if that upgrade is
   otherwise in order and some name used merely begins like a fatally changed one.
   */
  lemma UndulyBlockedExactly(p: Proposal, enforceBudget: bool, elapsed: nat)
    ensures Acceptable(p, enforceBudget, elapsed) ==> AcceptableAsDocumented(p, enforceBudget, elapsed)
    ensures AcceptableAsDocumented(p, enforceBudget, elapsed) ==>
              (!Acceptable(p, enforceBudget, elapsed) <==> SomeBeginsLike(p))
  {
    if Acceptable(p, enforceBudget, elapsed) {
      forall s, c | s in p.sites && c in p.changes && c.Fatal() ensures !TouchesAsDocumented(s, c.api) {
        if TouchesAsDocumented(s, c.api) { DocumentedIsFound(s, c.api); }
      }
    }
    if AcceptableAsDocumented(p, enforceBudget, elapsed) {
      if SomeBeginsLike(p) {
        var s, c, a :| s in p.sites && c in p.changes && a in s.apis && c.Fatal() && BeginsLike(a, c.api);
        BeginsLikeTouches(s, a, c.api);
      } else {
        forall s, c | s in p.sites && c in p.changes && c.Fatal() ensures !s.Touches(c.api) {
          TouchesExactly(s, c.api);
        }
      }
    }
  }

  /** Removing `foo` blocks a consumer that only calls `foobar`. */
  lemma UndulyBlocked()
    ensures var p := Proposal(SemVer(1, 0, 0, ""), SemVer(1, 1, 0, ""), [Change("foo", RemovedApi)],
                              [CallSite("consumer", "file:1", ["foobar"])]);
            !Acceptable(p, true, 0) && AcceptableAsDocumented(p, true, 0)
  {
    var site, change := CallSite("consumer", "file:1", ["foobar"]), Change("foo", RemovedApi);
    OtherNamesAreFound();
    assert site in [site] && change in [change] && change.Fatal();
  }

  /** The verdict depends on which call sites and changes there are, not on their order or repetition. */
  lemma VerdictIgnoresOrder(p: Proposal, q: Proposal, enforceBudget: bool, elapsed: nat)
    requires p.from == q.from && p.to == q.to
    requires forall s :: s in p.sites <==> s in q.sites
    requires forall c :: c in p.changes <==> c in q.changes
    ensures Acceptable(p, enforceBudget, elapsed) <==> Acceptable(q, enforceBudget, elapsed)
  {
    if p.sites != [] { assert p.sites[0] in q.sites; }
    if q.sites != [] { assert q.sites[0] in p.sites; }
  }

  /** A further breaking change never unblocks an upgrade, nor does a further call site of an exercised dependency. */
  lemma MoreNeverUnblocks(p: Proposal, q: Proposal, enforceBudget: bool, elapsed: nat)
    requires p.from == q.from && p.to == q.to && p.sites != []
    requires forall s | s in p.sites :: s in q.sites
    requires forall c | c in p.changes :: c in q.changes
    ensures Acceptable(q, enforceBudget, elapsed) ==> Acceptable(p, enforceBudget, elapsed)
  {
  }
}
