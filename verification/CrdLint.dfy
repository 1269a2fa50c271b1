/**
 The custom-resource compatibility linter of `scripts/crd_migration_lint.py`:
 schemas flattened to dotted paths, and the report that compares two of them.
 */
module CrdLint {
  import opened Options

  datatype Schema = Schema(
    declaredType: Option<string>, required: seq<string>, properties: seq<Property>, items: Option<Schema>)

  datatype Property = Property(name: string, schema: Schema)

  type PathTypes = map<string, string>

  function TypeOf(s: Schema): string {
    if s.declaredType.Some? then s.declaredType.value else "object"
  }

  function PathTo(prefix: string, name: string): string {
    if prefix == "" then name else prefix + ['.'] + name
  }

  function ItemsPath(path: string): string {
    path + ['[', ']']
  }

  // ---------------------------------------------------------------------------
  // Flattening
  // ---------------------------------------------------------------------------

  /** The paths contributed by one property. */
  function Entry(p: Property, prefix: string): PathTypes
    decreases p.schema, |p.schema.properties| + 1
  {
    var path := PathTo(prefix, p.name);
    var own := map[path := TypeOf(p.schema)] + WalkedUpTo(p.schema, path, |p.schema.properties|);
    if p.schema.items.Some?
    then own + WalkedUpTo(p.schema.items.value, ItemsPath(path), |p.schema.items.value.properties|)
    else own
  }

  /** The paths of the first `n` properties; a later write to a path replaces an earlier one. */
  function WalkedUpTo(s: Schema, prefix: string, n: nat): PathTypes
    requires n <= |s.properties|
    decreases s, n
  {
    if n == 0 then map[] else WalkedUpTo(s, prefix, n - 1) + Entry(s.properties[n - 1], prefix)
  }

  function Walked(s: Schema, prefix: string): PathTypes {
    WalkedUpTo(s, prefix, |s.properties|)
  }

  lemma WriteThenUpdate(a: PathTypes, k: string, t: string, b: PathTypes)
    ensures a[k := t] + b == a + (map[k := t] + b)
  {
  }

  lemma UpdateTwice(a: PathTypes, b: PathTypes, c: PathTypes)
    ensures (a + b) + c == a + (b + c)
  {
  }

  /** `_walk_properties` */
  method WalkProperties(s: Schema, prefix: string) returns (out: PathTypes)
    ensures out == Walked(s, prefix)
    decreases s
  {
    out := map[];
    for i := 0 to |s.properties|
      invariant out == WalkedUpTo(s, prefix, i)
    {
      var prop := s.properties[i].schema;
      var path := PathTo(prefix, s.properties[i].name);
      ghost var before := out;
      out := out[path := TypeOf(prop)];
      var inner := WalkProperties(prop, path);
      WriteThenUpdate(before, path, TypeOf(prop), inner);
      out := out + inner;
      if prop.items.Some? {
        var item := WalkProperties(prop.items.value, ItemsPath(path));
        UpdateTwice(before, map[path := TypeOf(prop)] + inner, item);
        out := out + item;
      }
    }
  }

  function RequiredHere(required: seq<string>, prefix: string): set<string> {
    set n | n in required :: PathTo(prefix, n)
  }

  /** Required paths of a schema and of its first `n` properties; items are not entered. */
  function RequiredUpTo(s: Schema, prefix: string, n: nat): set<string>
    requires n <= |s.properties|
    decreases s, n
  {
    if n == 0 then RequiredHere(s.required, prefix)
    else RequiredUpTo(s, prefix, n - 1) + RequiredOf(s.properties[n - 1], prefix)
  }

  function RequiredOf(p: Property, prefix: string): set<string>
    decreases p.schema, |p.schema.properties| + 1
  {
    RequiredUpTo(p.schema, PathTo(prefix, p.name), |p.schema.properties|)
  }

  function Required(s: Schema, prefix: string): set<string> {
    RequiredUpTo(s, prefix, |s.properties|)
  }

  /** `_required_paths` */
  method RequiredPaths(s: Schema, prefix: string) returns (out: set<string>)
    ensures out == Required(s, prefix)
    decreases s
  {
    out := {};
    for i := 0 to |s.required|
      invariant out == RequiredHere(s.required[..i], prefix)
    {
      assert s.required[..i + 1] == s.required[..i] + [s.required[i]];
      out := out + {PathTo(prefix, s.required[i])};
    }
    assert s.required[..|s.required|] == s.required;
    for i := 0 to |s.properties|
      invariant out == RequiredUpTo(s, prefix, i)
    {
      var inner := RequiredPaths(s.properties[i].schema, PathTo(prefix, s.properties[i].name));
      out := out + inner;
    }
  }

  // ---------------------------------------------------------------------------
  // Comparison
  // ---------------------------------------------------------------------------

  datatype Version = Version(served: bool, schema: Schema)
  type Crd = map<string, Version>

  datatype Problem =
    | ServedRemoved(version: string)
    | PropertyRemoved(version: string, path: string)
    | TypeChanged(version: string, path: string, before: string, after: string)
    | BecameRequired(version: string, path: string)

  ghost predicate Included(a: PathTypes, b: PathTypes) {
    forall k | k in a :: k in b && b[k] == a[k]
  }

  /** What an empty report on one version means. */
  ghost predicate Compatible(prev: Schema, next: Schema) {
    && Included(Walked(prev, ""), Walked(next, ""))
    && forall k | k in Required(next, "") && k in Walked(prev, "") :: k in Required(prev, "")
  }

  ghost predicate CrdCompatible(prev: Crd, next: Crd) {
    forall v | v in prev :: if v in next then Compatible(prev[v].schema, next[v].schema) else !prev[v].served
  }

  /** The breaking changes between two schemas of version `v`. */
  ghost predicate SchemaProblem(v: string, prev: Schema, next: Schema, p: Problem) {
    var before, after := Walked(prev, ""), Walked(next, "");
    match p
    case ServedRemoved(_) => false
    case PropertyRemoved(w, k) => w == v && k in before && k !in after
    case TypeChanged(w, k, t, u) => w == v && k in before && k in after && before[k] == t && after[k] == u && t != u
    case BecameRequired(w, k) => w == v && k in before && k in Required(next, "") && k !in Required(prev, "")
  }

  /** The breaking changes between two resource definitions. */
  ghost predicate IsProblem(prev: Crd, next: Crd, p: Problem) {
    var v := p.version;
    && v in prev
    && if v in next then SchemaProblem(v, prev[v].schema, next[v].schema, p) else p.ServedRemoved? && prev[v].served
  }

  method CompareProperties(v: string, before: PathTypes, after: PathTypes) returns (problems: seq<Problem>)
    ensures forall p :: p in problems <==>
                          || (p.PropertyRemoved? && p.version == v && p.path in before && p.path !in after)
                          || (p.TypeChanged? && p.version == v && p.path in before && p.path in after
                              && p.before == before[p.path] && p.after == after[p.path] && p.before != p.after)
  {
    problems := [];
    var rest := before.Keys;
    while rest != {}
      invariant rest <= before.Keys
      invariant forall p :: p in problems <==>
                              || (p.PropertyRemoved? && p.version == v && p.path in before.Keys - rest && p.path !in after)
                              || (p.TypeChanged? && p.version == v && p.path in before.Keys - rest && p.path in after
                                  && p.before == before[p.path] && p.after == after[p.path] && p.before != p.after)
      decreases |rest|
    {
      var k :| k in rest;
      if k !in after {
        problems := problems + [PropertyRemoved(v, k)];
      } else if after[k] != before[k] {
        problems := problems + [TypeChanged(v, k, before[k], after[k])];
      }
      rest := rest - {k};
    }
  }

  method CompareRequired(v: string, before: PathTypes, newly: set<string>) returns (problems: seq<Problem>)
    ensures forall p :: p in problems <==> p.BecameRequired? && p.version == v && p.path in before && p.path in newly
  {
    problems := [];
    var rest := newly;
    while rest != {}
      invariant rest <= newly
      invariant forall p :: p in problems <==>
                              p.BecameRequired? && p.version == v && p.path in before && p.path in newly - rest
      decreases |rest|
    {
      var k :| k in rest;
      if k in before { problems := problems + [BecameRequired(v, k)]; }
      rest := rest - {k};
    }
  }

  method CompareSchemas(v: string, prev: Schema, next: Schema) returns (problems: seq<Problem>)
    ensures forall p :: p in problems <==> SchemaProblem(v, prev, next, p)
  {
    var before := WalkProperties(prev, "");
    var after := WalkProperties(next, "");
    var changed := CompareProperties(v, before, after);
    var prevRequired := RequiredPaths(prev, "");
    var nextRequired := RequiredPaths(next, "");
    var required := CompareRequired(v, before, nextRequired - prevRequired);
    problems := changed + required;
  }

  /** `compare_crds`: the report lists exactly the breaking changes. */
  method CompareCrds(prev: Crd, next: Crd) returns (problems: seq<Problem>)
    ensures forall p :: p in problems <==> IsProblem(prev, next, p)
    ensures problems == [] <==> CrdCompatible(prev, next)
  {
    problems := [];
    var rest := prev.Keys;
    while rest != {}
      invariant rest <= prev.Keys
      invariant forall p :: p in problems <==> IsProblem(prev, next, p) && p.version !in rest
      decreases |rest|
    {
      var v :| v in rest;
      if v in next {
        var found := CompareSchemas(v, prev[v].schema, next[v].schema);
        problems := problems + found;
      } else if prev[v].served {
        problems := problems + [ServedRemoved(v)];
      }
      rest := rest - {v};
    }
    EmptyReport(prev, next, problems);
  }

  lemma SchemaReport(v: string, prev: Schema, next: Schema)
    ensures (forall p :: !SchemaProblem(v, prev, next, p)) <==> Compatible(prev, next)
  {
    var before, after := Walked(prev, ""), Walked(next, "");
    if forall p :: !SchemaProblem(v, prev, next, p) {
      forall k | k in before ensures k in after && after[k] == before[k] {
        assert !SchemaProblem(v, prev, next, PropertyRemoved(v, k));
        if k in after { assert !SchemaProblem(v, prev, next, TypeChanged(v, k, before[k], after[k])); }
      }
      forall k | k in Required(next, "") && k in before ensures k in Required(prev, "") {
        assert !SchemaProblem(v, prev, next, BecameRequired(v, k));
      }
    }
  }

  lemma EmptyReport(prev: Crd, next: Crd, problems: seq<Problem>)
    requires forall p :: p in problems <==> IsProblem(prev, next, p)
    ensures problems == [] <==> CrdCompatible(prev, next)
  {
    forall v | v in prev && v in next { SchemaReport(v, prev[v].schema, next[v].schema); }
    if problems == [] {
      forall v | v in prev
        ensures if v in next then Compatible(prev[v].schema, next[v].schema) else !prev[v].served
      {
        if v in next {
          forall p ensures !SchemaProblem(v, prev[v].schema, next[v].schema, p) {
            assert p !in problems;
            assert SchemaProblem(v, prev[v].schema, next[v].schema, p) ==> p.version == v;
          }
        } else {
          assert ServedRemoved(v) !in problems;
        }
      }
    } else {
      var p := problems[0];
      assert p in problems;
    }
  }

  // ---------------------------------------------------------------------------
  // Compatibility is a preorder
  // ---------------------------------------------------------------------------

  lemma CompatibleReflexive(s: Schema)
    ensures Compatible(s, s)
  {
  }

  lemma CompatibleTransitive(a: Schema, b: Schema, c: Schema)
    requires Compatible(a, b) && Compatible(b, c)
    ensures Compatible(a, c)
  {
  }
}
