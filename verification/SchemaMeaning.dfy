/**
 What a schema means, before and after the conversion of `SchemaConversion`: the
 OpenAPI 3.0 reading of a CRD schema (section 4.7.24 of OpenAPI 3.0.3, with the
 Kubernetes int-or-string extension) and the JSON Schema draft-07 reading of the
 output agree on every value.
 */
module SchemaMeaning {
  import opened Options
  import opened SchemaConversion

  datatype Dialect = OpenApi | Draft7

  /**
   The parts both dialects share and this model leaves open: the assertion made
   by a keyword that is copied through, and regular expression matching.
   */
  datatype Interp = Interp(copied: (Key, Json, Json) -> bool, matches: (Key, Key) -> bool)

  // ---------------------------------------------------------------------------
  // Validity
  // ---------------------------------------------------------------------------

  predicate HasType(t: string, v: Json) {
    match v
    case Null => t == "null"
    case Bool(_) => t == "boolean"
    case Num(n) => t == "number" || (t == "integer" && n == n.Floor as real)
    case Str(_) => t == "string"
    case Arr(_) => t == "array"
    case Obj(_) => t == "object"
  }

  predicate TypeHolds(arg: Json, v: Json) {
    match arg
    case Str(t) => HasType(t, v)
    case Arr(ts) => exists i | 0 <= i < |ts| :: ts[i].Str? && HasType(ts[i].s, v)
    case _ => false
  }

  predicate IsIntOrString(v: Json) {
    HasType("integer", v) || HasType("string", v)
  }

  /** The `type` keyword; in OpenAPI `nullable` adds null to it. */
  predicate TypeClause(d: Dialect, f: seq<Field>, v: Json) {
    var orNull := d.OpenApi? && IsTrue(f, NullableKey) && v.Null?;
    && (Get(f, TypeKey).Some? ==> TypeHolds(Get(f, TypeKey).value, v) || orNull)
    && (d.OpenApi? && IsTrue(f, IntOrStringKey) ==> IsIntOrString(v) || orNull)
  }

  ghost predicate CopiedClause(it: Interp, f: seq<Field>, v: Json) {
    forall k | KindOf(k) == Copied && k != TypeKey && Get(f, k).Some? :: it.copied(k, Get(f, k).value, v)
  }

  /** The entries of a mapping-valued keyword. */
  function Entries(s: Json, k: Key): (r: seq<Field>)
    requires s.Obj?
    ensures forall i | 0 <= i < |r| :: r[i].value < s
  {
    var v := Get(s.fields, k);
    if v.Some? && v.value.Obj? then
      GetSmaller(s, k);
      v.value.fields
    else []
  }

  /** `key` is described by `properties` or `patternProperties`. */
  predicate Described(it: Interp, s: Json, key: Key)
    requires s.Obj?
  {
    var props, patterns := Entries(s, Properties), Entries(s, PatternProperties);
    || (exists i | 0 <= i < |props| :: props[i].key == key)
    || (exists i | 0 <= i < |patterns| :: it.matches(patterns[i].key, key))
  }

  ghost predicate Valid(d: Dialect, it: Interp, s: Json, v: Json)
    decreases s, 2
  {
    match s
    case Bool(b) => b
    case Obj(f) =>
      && TypeClause(d, f, v)
      && CopiedClause(it, f, v)
      && MemberClauses(d, it, s, v)
      && CombinedClauses(d, it, s, v)
    case _ => true
  }

  ghost predicate MemberClauses(d: Dialect, it: Interp, s: Json, v: Json)
    requires s.Obj?
    decreases s, 1, 1
  {
    && PropertiesClause(d, it, s, v)
    && PatternsClause(d, it, s, v)
    && AdditionalClause(d, it, s, v)
    && ItemsClause(d, it, s, v)
  }

  ghost predicate CombinedClauses(d: Dialect, it: Interp, s: Json, v: Json)
    requires s.Obj?
    decreases s, 1, 1
  {
    && NotClause(d, it, s, v)
    && (Branches(s, AllOf).Some? ==> forall b | b in Verdicts(d, it, s, AllOf, v) :: b)
    && (Branches(s, AnyOf).Some? ==> exists b | b in Verdicts(d, it, s, AnyOf, v) :: b)
    && (Branches(s, OneOf).Some? ==> ExactlyOne(Verdicts(d, it, s, OneOf, v)))
  }

  ghost predicate PropertiesClause(d: Dialect, it: Interp, s: Json, v: Json)
    requires s.Obj?
    decreases s, 1, 0
  {
    var props := Entries(s, Properties);
    v.Obj? ==> forall i, j | 0 <= i < |props| && 0 <= j < |v.fields| && props[i].key == v.fields[j].key ::
      Valid(d, it, props[i].value, v.fields[j].value)
  }

  ghost predicate PatternsClause(d: Dialect, it: Interp, s: Json, v: Json)
    requires s.Obj?
    decreases s, 1, 0
  {
    var props := Entries(s, PatternProperties);
    v.Obj? ==> forall i, j | 0 <= i < |props| && 0 <= j < |v.fields| && it.matches(props[i].key, v.fields[j].key) ::
      Valid(d, it, props[i].value, v.fields[j].value)
  }

  ghost predicate AdditionalClause(d: Dialect, it: Interp, s: Json, v: Json)
    requires s.Obj?
    decreases s, 1, 0
  {
    var a := Held(s, AdditionalProperties);
    v.Obj? && a.Some? ==> forall j | 0 <= j < |v.fields| && !Described(it, s, v.fields[j].key) ::
      Valid(d, it, a.value, v.fields[j].value)
  }

  ghost predicate ItemsClause(d: Dialect, it: Interp, s: Json, v: Json)
    requires s.Obj?
    decreases s, 1, 0
  {
    var a := Held(s, Items);
    v.Arr? && a.Some? ==>
      if a.value.Arr? then
        forall i | 0 <= i < |v.items| && i < |a.value.items| :: Valid(d, it, a.value.items[i], v.items[i])
      else
        forall i | 0 <= i < |v.items| :: Valid(d, it, a.value, v.items[i])
  }

  ghost predicate NotClause(d: Dialect, it: Interp, s: Json, v: Json)
    requires s.Obj?
    decreases s, 1, 0
  {
    var a := Held(s, Not);
    a.Some? ==> !Valid(d, it, a.value, v)
  }

  /** The alternatives of a list-valued keyword. */
  function Branches(s: Json, k: Key): (r: Option<seq<Json>>)
    requires s.Obj?
    ensures r.Some? ==> forall i | 0 <= i < |r.value| :: r.value[i] < s
  {
    var v := Get(s.fields, k);
    if v.Some? && v.value.Arr? then
      GetSmaller(s, k);
      Some(v.value.items)
    else None
  }

  /** The schema a schema-valued keyword holds. */
  function Held(s: Json, k: Key): (r: Option<Json>)
    requires s.Obj?
    ensures r.Some? ==> r.value < s
  {
    var v := Get(s.fields, k);
    if v.Some? then
      GetSmaller(s, k);
      v
    else None
  }

  /** Which alternatives of `k` accept `v`. */
  ghost function Verdicts(d: Dialect, it: Interp, s: Json, k: Key, v: Json): seq<bool>
    requires s.Obj?
    decreases s, 1, 0
  {
    var b := Branches(s, k);
    if b.None? then []
    else seq(|b.value|, i requires 0 <= i < |b.value| => Valid(d, it, b.value[i], v))
  }

  predicate ExactlyOne(bs: seq<bool>) {
    exists i | 0 <= i < |bs| :: bs[i] && forall j | 0 <= j < |bs| && j != i :: !bs[j]
  }

  // ---------------------------------------------------------------------------
  // The schemas the theorem is about
  // ---------------------------------------------------------------------------

  /** The type names a `type` keyword lists. */
  function Names(t: Json): set<string> {
    match t
    case Str(name) => {name}
    case Arr(items) => set x | x in items && x.Str? :: x.s
    case _ => {}
  }

  /** A nullable `type` is a name or a list. */
  predicate WellTyped(f: seq<Field>) {
    IsTrue(f, NullableKey) && Get(f, TypeKey).Some? ==>
      Get(f, TypeKey).value.Str? || Get(f, TypeKey).value.Arr?
  }

  /** The extension that writes the keyword `k` as well, and what it writes. */
  function Flag(k: Key): Key {
    if k == TypeKey then IntOrStringKey else PreserveUnknownKey
  }

  function FlagValue(k: Key): Json {
    if k == TypeKey then INTEGER_OR_STRING else Bool(true)
  }

  /** The extension is true, and the keyword does not come after it. */
  predicate FlagWins(f: seq<Field>, k: Key) {
    IsTrue(f, Flag(k)) && (Get(f, k).None? || Find(f, k) < Find(f, Flag(k)))
  }

  /**
   Beside a true int-or-string, only the later of the two keywords is written. An
   earlier `type` must then list all integers and strings; a later one must list
   nothing else, but null where `nullable` allows it.
   */
  predicate TypesKept(f: seq<Field>) {
    Get(f, TypeKey).Some? && IsTrue(f, IntOrStringKey) ==>
      var names := Names(Get(f, TypeKey).value);
      if FlagWins(f, TypeKey) then "string" in names && ("integer" in names || "number" in names)
      else
        && "boolean" !in names && "number" !in names && "array" !in names && "object" !in names
        && ("null" in names ==> IsTrue(f, NullableKey))
  }

  /** A schema that, by its keywords, asks nothing. */
  predicate Vacuous(s: Json)
    decreases s, 2
  {
    match s
    case Bool(b) => b
    case Obj(f) => forall i | 0 <= i < |f| :: VacuousEntry(f[i])
    case _ => true
  }

  predicate VacuousEntry(e: Field)
    decreases e.value, 3
  {
    var v := e.value;
    match e.key
    case ListType | ListMapKeys | MapType | Validations | EmbeddedResource => true
    case PreserveUnknownKey | NullableKey | Definitions => true
    case IntOrStringKey => !Truthy(v)
    case Properties | PatternProperties => v.Obj? ==> forall i | 0 <= i < |v.fields| :: Vacuous(v.fields[i].value)
    case Items => if v.Arr? then forall i | 0 <= i < |v.items| :: Vacuous(v.items[i]) else Vacuous(v)
    case AdditionalProperties => Vacuous(v)
    case AllOf => v.Arr? ==> forall i | 0 <= i < |v.items| :: Vacuous(v.items[i])
    case AnyOf => v.Arr? ==> exists i | 0 <= i < |v.items| :: Vacuous(v.items[i])
    case Not => v == Bool(false)
    case _ => false
  }

  /** No true preserve-unknown-fields after `additionalProperties` overwrites it, or it asked nothing. */
  predicate AdditionalKept(f: seq<Field>) {
    Get(f, AdditionalProperties).Some? && FlagWins(f, AdditionalProperties) ==>
      Vacuous(Get(f, AdditionalProperties).value)
  }

  /** Well-shaped schemas in which neither of the two collisions loses anything. */
  ghost predicate Clean(s: Json)
    decreases s, 2
  {
    match s
    case Arr(items) => forall i | 0 <= i < |items| :: Clean(items[i])
    case Obj(f) => CleanInside(s) && WellTyped(f) && TypesKept(f) && AdditionalKept(f)
    case _ => true
  }

  /** Distinct keys, and clean schemas below. */
  ghost predicate CleanInside(s: Json)
    requires s.Obj?
    decreases s, 1
  {
    Distinct(s.fields) && forall i | 0 <= i < |s.fields| :: CleanEntry(s.fields[i])
  }

  ghost predicate CleanEntry(e: Field)
    decreases e.value, 3
  {
    var v := e.value;
    match KindOf(e.key)
    case SchemaMap => (v.Obj? && forall i | 0 <= i < |v.fields| :: Clean(v.fields[i].value)) || v.Null?
    case SchemaValue => Clean(v)
    case SchemaList => v.Arr? && forall i | 0 <= i < |v.items| :: Clean(v.items[i])
    case _ => true
  }

  // ---------------------------------------------------------------------------
  // What the output holds
  // ---------------------------------------------------------------------------

  /** The key an entry writes. */
  function EmittedKey(e: Field): Option<Key> {
    match KindOf(e.key)
    case Dropped | Nullable => None
    case IntOrString => if Truthy(e.value) then Some(TypeKey) else None
    case PreserveUnknown => if Truthy(e.value) then Some(AdditionalProperties) else None
    case _ => Some(e.key)
  }

  lemma EmittedKeyIsKey(e: Field, k: Key)
    ensures Assigns(Emitted(e), k) <==> EmittedKey(e) == Some(k)
  {
  }

  /** The entry that alone, or last, writes `k` decides what the output holds. */
  lemma OutLast(s: Json, k: Key, i: nat)
    requires s.Obj? && i < |s.fields| && EmittedKey(s.fields[i]) == Some(k)
    requires forall j | i < j < |s.fields| :: EmittedKey(s.fields[j]) != Some(k)
    ensures Emitted(s.fields[i]).Some?
    ensures Get(Written(Emissions(s)), k) == Some(Emitted(s.fields[i]).value.value)
  {
    var es := Emissions(s);
    EmittedKeyIsKey(s.fields[i], k);
    forall e | e in es[i + 1..] ensures !Assigns(e, k) {
      var j :| i < j < |es| && es[j] == e;
      EmittedKeyIsKey(s.fields[j], k);
    }
    WrittenLast(es, k, i);
  }

  lemma OutAbsent(s: Json, k: Key)
    requires s.Obj?
    requires forall j | 0 <= j < |s.fields| :: EmittedKey(s.fields[j]) != Some(k)
    ensures Get(Written(Emissions(s)), k) == None
  {
    var es := Emissions(s);
    forall e | e in es ensures !Assigns(e, k) {
      var j :| 0 <= j < |es| && es[j] == e;
      EmittedKeyIsKey(s.fields[j], k);
    }
    WrittenAbsent(es, k);
  }

  lemma PatchKeeps(f: seq<Field>, out: seq<Field>, k: Key)
    requires k != TypeKey
    ensures Get(Patched(f, out), k) == Get(out, k)
  {
    if IsTrue(f, NullableKey) && Get(out, TypeKey).Some? {
      GetWhatWasNotSet(out, TypeKey, WithNull(Get(out, TypeKey).value), k);
    }
  }

  /** The converted entries of `s`. */
  function Out(s: Json): seq<Field>
    requires s.Obj?
  {
    Converted(s).fields
  }

  /** Keywords that only their own entry can write. */
  predicate Plain(k: Key) {
    match k
    case Properties | PatternProperties | Definitions | Items | Not | AllOf | AnyOf | OneOf | Other(_) => true
    case _ => false
  }

  lemma PlainEmitted(e: Field)
    requires Plain(e.key)
    ensures Emitted(e) == Some(Field(e.key, Transformed(e.key, e.value)))
  {
  }

  lemma PlainKeyOnly(s: Json, k: Key)
    requires s.Obj? && Plain(k)
    ensures forall j | 0 <= j < |s.fields| :: EmittedKey(s.fields[j]) == Some(k) <==> s.fields[j].key == k
  {
  }

  lemma PlainPresent(s: Json, k: Key)
    requires s.Obj? && Distinct(s.fields) && Plain(k) && Get(s.fields, k).Some?
    ensures Get(Written(Emissions(s)), k) == Some(Transformed(k, Get(s.fields, k).value))
  {
    var i := Find(s.fields, k);
    PlainKeyOnly(s, k);
    OutLast(s, k, i);
    PlainEmitted(s.fields[i]);
  }

  lemma PlainOut(s: Json, k: Key)
    requires s.Obj? && Distinct(s.fields) && Plain(k)
    ensures Get(Out(s), k) == if Get(s.fields, k).Some? then Some(Transformed(k, Get(s.fields, k).value)) else None
  {
    PatchKeeps(s.fields, Written(Emissions(s)), k);
    if Get(s.fields, k).Some? {
      PlainPresent(s, k);
    } else {
      PlainKeyOnly(s, k);
      OutAbsent(s, k);
    }
  }

  /** Who writes `type` and who writes `additionalProperties`. */
  lemma WhoWrites(e: Field)
    ensures EmittedKey(e) == Some(TypeKey) <==> e.key == TypeKey || (e.key == IntOrStringKey && Truthy(e.value))
    ensures EmittedKey(e) == Some(AdditionalProperties) <==>
              e.key == AdditionalProperties || (e.key == PreserveUnknownKey && Truthy(e.value))
  {
  }

  predicate TwoWriters(k: Key) {
    k == TypeKey || k == AdditionalProperties
  }

  /** The entry at `i` is the last of those that write `k`. */
  lemma OutLastOf(s: Json, k: Key, i: nat)
    requires s.Obj? && i < |s.fields| && TwoWriters(k) && EmittedKey(s.fields[i]) == Some(k)
    requires forall j | i < j < |s.fields| ::
               s.fields[j].key != k && (s.fields[j].key == Flag(k) ==> !Truthy(s.fields[j].value))
    ensures Emitted(s.fields[i]).Some?
    ensures Get(Written(Emissions(s)), k) == Some(Emitted(s.fields[i]).value.value)
  {
    forall j | i < j < |s.fields| ensures EmittedKey(s.fields[j]) != Some(k) { WhoWrites(s.fields[j]); }
    OutLast(s, k, i);
  }

  lemma FlagEmits(e: Field, k: Key)
    requires TwoWriters(k) && e.key == Flag(k) && Truthy(e.value)
    ensures Emitted(e) == Some(Field(k, FlagValue(k)))
  {
  }

  lemma KeywordEmits(e: Field, k: Key)
    requires TwoWriters(k) && e.key == k
    ensures Emitted(e) == Some(Field(k, Transformed(k, e.value)))
  {
  }

  lemma FlagDecides(s: Json, k: Key, i: nat)
    requires s.Obj? && Distinct(s.fields) && TwoWriters(k)
    requires i < |s.fields| && s.fields[i].key == Flag(k) && Truthy(s.fields[i].value)
    requires forall j | i < j < |s.fields| :: s.fields[j].key != k
    ensures Get(Written(Emissions(s)), k) == Some(FlagValue(k))
  {
    WhoWrites(s.fields[i]);
    FlagEmits(s.fields[i], k);
    OutLastOf(s, k, i);
  }

  lemma KeywordDecides(s: Json, k: Key, i: nat)
    requires s.Obj? && Distinct(s.fields) && TwoWriters(k) && i < |s.fields| && s.fields[i].key == k
    requires forall j | i < j < |s.fields| && s.fields[j].key == Flag(k) :: !Truthy(s.fields[j].value)
    ensures Get(Written(Emissions(s)), k) == Some(Transformed(k, s.fields[i].value))
  {
    WhoWrites(s.fields[i]);
    KeywordEmits(s.fields[i], k);
    OutLastOf(s, k, i);
  }

  lemma NobodyWrites(s: Json, k: Key)
    requires s.Obj? && TwoWriters(k)
    requires forall j | 0 <= j < |s.fields| ::
               s.fields[j].key != k && (s.fields[j].key == Flag(k) ==> !Truthy(s.fields[j].value))
    ensures Get(Written(Emissions(s)), k) == None
  {
    forall j | 0 <= j < |s.fields| ensures EmittedKey(s.fields[j]) != Some(k) { WhoWrites(s.fields[j]); }
    OutAbsent(s, k);
  }

  /** What is left under `k` when all entries are written: the later of the two writers decides. */
  function Left(f: seq<Field>, k: Key): Option<Json> {
    if FlagWins(f, k) then Some(FlagValue(k))
    else if Get(f, k).Some? then Some(Transformed(k, Get(f, k).value))
    else None
  }

  /** The only place of a key. */
  lemma OnlyPlace(f: seq<Field>, k: Key, j: nat)
    requires Distinct(f) && j < |f| && f[j].key == k
    ensures Find(f, k) == j
  {
  }

  lemma LaterDecides(s: Json, k: Key)
    requires s.Obj? && Distinct(s.fields) && TwoWriters(k)
    ensures Get(Written(Emissions(s)), k) == Left(s.fields, k)
  {
    var f, i, n := s.fields, Find(s.fields, k), Find(s.fields, Flag(k));
    forall j | 0 <= j < |f| && f[j].key == k ensures j == i { OnlyPlace(f, k, j); }
    forall j | 0 <= j < |f| && f[j].key == Flag(k) ensures j == n { OnlyPlace(f, Flag(k), j); }
    if FlagWins(f, k) {
      FlagDecides(s, k, n);
    } else if i < |f| {
      KeywordDecides(s, k, i);
    } else {
      NobodyWrites(s, k);
    }
  }

  lemma AdditionalOut(s: Json)
    requires s.Obj? && Distinct(s.fields)
    ensures Get(Out(s), AdditionalProperties) == Left(s.fields, AdditionalProperties)
  {
    PatchKeeps(s.fields, Written(Emissions(s)), AdditionalProperties);
    LaterDecides(s, AdditionalProperties);
  }

  // ---------------------------------------------------------------------------
  // Schemas that ask nothing
  // ---------------------------------------------------------------------------

  lemma EntryIsVacuous(s: Json, k: Key)
    requires s.Obj? && Vacuous(s) && Get(s.fields, k).Some?
    ensures VacuousEntry(Field(k, Get(s.fields, k).value))
  {
    assert VacuousEntry(s.fields[Find(s.fields, k)]);
  }

  lemma VacuousType(d: Dialect, s: Json, v: Json)
    requires s.Obj? && Vacuous(s)
    ensures TypeClause(d, s.fields, v)
  {
    if Get(s.fields, TypeKey).Some? { EntryIsVacuous(s, TypeKey); }
    if Get(s.fields, IntOrStringKey).Some? { EntryIsVacuous(s, IntOrStringKey); }
  }

  lemma VacuousCopied(it: Interp, s: Json, v: Json)
    requires s.Obj? && Vacuous(s)
    ensures CopiedClause(it, s.fields, v)
  {
    forall k | KindOf(k) == Copied && Get(s.fields, k).Some? ensures false { EntryIsVacuous(s, k); }
  }

  lemma {:induction false} VacuousProperties(d: Dialect, it: Interp, s: Json, v: Json)
    requires s.Obj? && Vacuous(s)
    ensures PropertiesClause(d, it, s, v)
    decreases s, 0
  {
    var props := Entries(s, Properties);
    if Get(s.fields, Properties).Some? { EntryIsVacuous(s, Properties); }
    forall i, w | 0 <= i < |props| ensures Valid(d, it, props[i].value, w) {
      VacuousAccepts(d, it, props[i].value, w);
    }
  }

  lemma {:induction false} VacuousPatterns(d: Dialect, it: Interp, s: Json, v: Json)
    requires s.Obj? && Vacuous(s)
    ensures PatternsClause(d, it, s, v)
    decreases s, 0
  {
    var props := Entries(s, PatternProperties);
    if Get(s.fields, PatternProperties).Some? { EntryIsVacuous(s, PatternProperties); }
    forall i, w | 0 <= i < |props| ensures Valid(d, it, props[i].value, w) {
      VacuousAccepts(d, it, props[i].value, w);
    }
  }

  lemma {:induction false} VacuousAdditional(d: Dialect, it: Interp, s: Json, v: Json)
    requires s.Obj? && Vacuous(s)
    ensures AdditionalClause(d, it, s, v)
    decreases s, 0
  {
    var a := Held(s, AdditionalProperties);
    if a.Some? {
      EntryIsVacuous(s, AdditionalProperties);
      forall w ensures Valid(d, it, a.value, w) { VacuousAccepts(d, it, a.value, w); }
    }
  }

  lemma {:induction false} VacuousItems(d: Dialect, it: Interp, s: Json, v: Json)
    requires s.Obj? && Vacuous(s)
    ensures ItemsClause(d, it, s, v)
    decreases s, 0
  {
    var a := Held(s, Items);
    if a.Some? {
      EntryIsVacuous(s, Items);
      if a.value.Arr? {
        forall i, w | 0 <= i < |a.value.items| ensures Valid(d, it, a.value.items[i], w) {
          VacuousAccepts(d, it, a.value.items[i], w);
        }
      } else {
        forall w ensures Valid(d, it, a.value, w) { VacuousAccepts(d, it, a.value, w); }
      }
    }
  }

  lemma {:induction false} VacuousAllOf(d: Dialect, it: Interp, s: Json, v: Json)
    requires s.Obj? && Vacuous(s) && Branches(s, AllOf).Some?
    ensures forall b | b in Verdicts(d, it, s, AllOf, v) :: b
    decreases s, 0
  {
    EntryIsVacuous(s, AllOf);
    var a := Branches(s, AllOf).value;
    forall i | 0 <= i < |a| ensures Verdicts(d, it, s, AllOf, v)[i] { VacuousAccepts(d, it, a[i], v); }
  }

  lemma {:induction false} VacuousAnyOf(d: Dialect, it: Interp, s: Json, v: Json)
    requires s.Obj? && Vacuous(s) && Branches(s, AnyOf).Some?
    ensures true in Verdicts(d, it, s, AnyOf, v)
    decreases s, 0
  {
    EntryIsVacuous(s, AnyOf);
    var a := Branches(s, AnyOf).value;
    var i :| 0 <= i < |a| && Vacuous(a[i]);
    VacuousAccepts(d, it, a[i], v);
    assert Verdicts(d, it, s, AnyOf, v)[i];
  }

  lemma {:induction false} VacuousCombined(d: Dialect, it: Interp, s: Json, v: Json)
    requires s.Obj? && Vacuous(s)
    ensures CombinedClauses(d, it, s, v)
    decreases s, 1
  {
    if Held(s, Not).Some? { EntryIsVacuous(s, Not); }
    if Branches(s, AllOf).Some? { VacuousAllOf(d, it, s, v); }
    if Branches(s, AnyOf).Some? { VacuousAnyOf(d, it, s, v); }
    if Branches(s, OneOf).Some? { EntryIsVacuous(s, OneOf); }
  }

  /** A schema whose keywords ask nothing accepts every value, in both readings. */
  lemma {:induction false} VacuousAccepts(d: Dialect, it: Interp, s: Json, v: Json)
    requires Vacuous(s)
    ensures Valid(d, it, s, v)
    decreases s, 2
  {
    if s.Obj? {
      VacuousType(d, s, v);
      VacuousCopied(it, s, v);
      VacuousProperties(d, it, s, v);
      VacuousPatterns(d, it, s, v);
      VacuousAdditional(d, it, s, v);
      VacuousItems(d, it, s, v);
      VacuousCombined(d, it, s, v);
    }
  }

  // ---------------------------------------------------------------------------
  // Meaning is preserved
  // ---------------------------------------------------------------------------

  lemma WithNullHolds(t: Json, v: Json)
    requires t.Str? || t.Arr?
    ensures TypeHolds(WithNull(t), v) <==> TypeHolds(t, v) || v.Null?
  {
    var ts := if t.Str? then [t] else t.items;
    var all := ts + [Str("null")];
    assert WithNull(t) == Arr(all);
    if TypeHolds(t, v) {
      var i :| 0 <= i < |ts| && ts[i].Str? && HasType(ts[i].s, v);
      assert all[i] == ts[i];
    }
    if v.Null? { assert all[|ts|].Str? && HasType(all[|ts|].s, v); }
  }

  lemma IntegerOrStringHolds(v: Json)
    ensures TypeHolds(INTEGER_OR_STRING, v) <==> IsIntOrString(v)
  {
    var ts := INTEGER_OR_STRING.items;
    assert ts[0] == Str("integer") && ts[1] == Str("string");
    if HasType("integer", v) { assert ts[0].Str? && HasType(ts[0].s, v); }
    if HasType("string", v) { assert ts[1].Str? && HasType(ts[1].s, v); }
  }

  function OrNull(t: Option<Json>, nullable: bool): Option<Json> {
    if nullable && t.Some? then Some(WithNull(t.value)) else t
  }

  lemma PatchedType(f: seq<Field>, out: seq<Field>)
    ensures Get(Patched(f, out), TypeKey) == OrNull(Get(out, TypeKey), IsTrue(f, NullableKey))
  {
    if IsTrue(f, NullableKey) && Get(out, TypeKey).Some? {
      GetWhatWasSet(out, TypeKey, WithNull(Get(out, TypeKey).value));
    }
  }

  lemma TypeOut(s: Json)
    requires s.Obj? && Distinct(s.fields)
    ensures Get(Out(s), TypeKey) == OrNull(Left(s.fields, TypeKey), IsTrue(s.fields, NullableKey))
  {
    PatchedType(s.fields, Written(Emissions(s)));
    LaterDecides(s, TypeKey);
  }

  predicate TypeLike(t: Option<Json>) {
    t.Some? ==> t.value.Str? || t.value.Arr?
  }

  /** What an output asks of types. */
  predicate TypeAsked(t: Option<Json>, nullable: bool, v: Json) {
    t.Some? ==> TypeHolds(t.value, v) || (nullable && v.Null?)
  }

  lemma OrNullAsks(out: seq<Field>, t: Option<Json>, nullable: bool, v: Json)
    requires (nullable ==> TypeLike(t)) && Get(out, TypeKey) == OrNull(t, nullable)
    ensures TypeClause(Draft7, out, v) <==> TypeAsked(t, nullable, v)
  {
    if t.Some? && nullable { WithNullHolds(t.value, v); }
  }

  lemma LeftIsTypeLike(f: seq<Field>)
    requires WellTyped(f) && IsTrue(f, NullableKey)
    ensures TypeLike(Left(f, TypeKey))
  {
  }

  lemma TypeClauseOut(s: Json, v: Json)
    requires s.Obj? && Distinct(s.fields) && WellTyped(s.fields)
    ensures TypeClause(Draft7, Out(s), v) <==> TypeAsked(Left(s.fields, TypeKey), IsTrue(s.fields, NullableKey), v)
  {
    TypeOut(s);
    if IsTrue(s.fields, NullableKey) { LeftIsTypeLike(s.fields); }
    OrNullAsks(Out(s), Left(s.fields, TypeKey), IsTrue(s.fields, NullableKey), v);
  }

  lemma NamesHold(t: Json, v: Json)
    ensures TypeHolds(t, v) <==> exists n :: n in Names(t) && HasType(n, v)
  {
    if TypeHolds(t, v) {
      if t.Arr? {
        var i :| 0 <= i < |t.items| && t.items[i].Str? && HasType(t.items[i].s, v);
        assert t.items[i] in t.items && t.items[i].s in Names(t);
      } else {
        assert t.s in Names(t);
      }
    }
    if n :| n in Names(t) && HasType(n, v) {
      if t.Arr? {
        var x :| x in t.items && x.Str? && x.s == n;
        var i :| 0 <= i < |t.items| && t.items[i] == x;
      }
    }
  }

  /** A later type that lists nothing else admits only integers and strings, or null. */
  lemma OnlyIntegersAndStrings(t: Json, v: Json)
    requires var names := Names(t);
             "boolean" !in names && "number" !in names && "array" !in names && "object" !in names
    requires TypeHolds(t, v)
    ensures IsIntOrString(v) || (v.Null? && "null" in Names(t))
  {
    NamesHold(t, v);
    var n :| n in Names(t) && HasType(n, v);
  }

  /** An earlier type that lists them admits all integers and strings. */
  lemma AllIntegersAndStrings(t: Json, v: Json)
    requires "string" in Names(t) && ("integer" in Names(t) || "number" in Names(t))
    requires IsIntOrString(v)
    ensures TypeHolds(t, v)
  {
    NamesHold(t, v);
    if v.Str? {
      assert HasType("string", v);
    } else if "integer" in Names(t) {
      assert HasType("integer", v);
    } else {
      assert HasType("number", v);
    }
  }

  /** What is left of the types asks as much as the source did. */
  lemma LeftAsksTheSame(f: seq<Field>, v: Json)
    requires TypesKept(f)
    ensures TypeClause(OpenApi, f, v) <==> TypeAsked(Left(f, TypeKey), IsTrue(f, NullableKey), v)
  {
    IntegerOrStringHolds(v);
    if Get(f, TypeKey).Some? && IsTrue(f, IntOrStringKey) {
      var t := Get(f, TypeKey).value;
      if FlagWins(f, TypeKey) {
        if IsIntOrString(v) { AllIntegersAndStrings(t, v); }
      } else if TypeHolds(t, v) {
        OnlyIntegersAndStrings(t, v);
      }
    }
  }

  lemma TypePreserved(s: Json, v: Json)
    requires s.Obj? && Distinct(s.fields) && WellTyped(s.fields) && TypesKept(s.fields)
    ensures TypeClause(OpenApi, s.fields, v) <==> TypeClause(Draft7, Out(s), v)
  {
    TypeClauseOut(s, v);
    LeftAsksTheSame(s.fields, v);
  }

  lemma CopiedPreserved(it: Interp, s: Json, v: Json)
    requires s.Obj? && CleanInside(s)
    ensures CopiedClause(it, s.fields, v) <==> CopiedClause(it, Out(s), v)
  {
    forall k | KindOf(k) == Copied && k != TypeKey ensures Get(Out(s), k) == Get(s.fields, k) {
      PlainOut(s, k);
    }
  }

  /** Everything inside a clean mapping-valued keyword is clean, and is converted in place. */
  lemma EntriesOut(s: Json, k: Key)
    requires s.Obj? && CleanInside(s) && k in {Properties, PatternProperties}
    ensures var a, b := Entries(s, k), Entries(Converted(s), k);
            && |a| == |b|
            && forall i | 0 <= i < |a| :: Clean(a[i].value) && b[i] == Field(a[i].key, Converted(a[i].value))
  {
    PlainOut(s, k);
    var i := Find(s.fields, k);
    if i < |s.fields| { assert CleanEntry(s.fields[i]); }
  }

  lemma BranchesOut(s: Json, k: Key)
    requires s.Obj? && CleanInside(s) && k in {AllOf, AnyOf, OneOf}
    ensures var a, b := Branches(s, k), Branches(Converted(s), k);
            && (a.Some? <==> b.Some?)
            && (a.Some? ==> |a.value| == |b.value|)
            && (a.Some? ==> forall i | 0 <= i < |a.value| ::
                              Clean(a.value[i]) && b.value[i] == Converted(a.value[i]))
  {
    PlainOut(s, k);
    var i := Find(s.fields, k);
    if i < |s.fields| { assert CleanEntry(s.fields[i]); }
  }

  ghost predicate SameKeys(a: seq<Field>, b: seq<Field>) {
    |a| == |b| && forall i | 0 <= i < |a| :: a[i].key == b[i].key
  }

  lemma DescribedBySameKeys(it: Interp, s: Json, t: Json, key: Key)
    requires s.Obj? && t.Obj?
    requires SameKeys(Entries(s, Properties), Entries(t, Properties))
    requires SameKeys(Entries(s, PatternProperties), Entries(t, PatternProperties))
    ensures Described(it, s, key) ==> Described(it, t, key)
  {
  }

  lemma DescribedPreserved(it: Interp, s: Json, key: Key)
    requires s.Obj? && CleanInside(s)
    ensures Described(it, s, key) <==> Described(it, Converted(s), key)
  {
    EntriesOut(s, Properties);
    EntriesOut(s, PatternProperties);
    DescribedBySameKeys(it, s, Converted(s), key);
    DescribedBySameKeys(it, Converted(s), s, key);
  }

  lemma {:induction false} PropertiesPreserved(it: Interp, s: Json, v: Json)
    requires s.Obj? && CleanInside(s)
    ensures PropertiesClause(OpenApi, it, s, v) <==> PropertiesClause(Draft7, it, Converted(s), v)
    decreases s, 0
  {
    EntriesOut(s, Properties);
    var a := Entries(s, Properties);
    forall i, w | 0 <= i < |a|
      ensures Valid(OpenApi, it, a[i].value, w) <==> Valid(Draft7, it, Converted(a[i].value), w)
    {
      Preserved(it, a[i].value, w);
    }
  }

  lemma {:induction false} PatternsPreserved(it: Interp, s: Json, v: Json)
    requires s.Obj? && CleanInside(s)
    ensures PatternsClause(OpenApi, it, s, v) <==> PatternsClause(Draft7, it, Converted(s), v)
    decreases s, 0
  {
    EntriesOut(s, PatternProperties);
    var a := Entries(s, PatternProperties);
    forall i, w | 0 <= i < |a|
      ensures Valid(OpenApi, it, a[i].value, w) <==> Valid(Draft7, it, Converted(a[i].value), w)
    {
      Preserved(it, a[i].value, w);
    }
  }

  lemma HeldClean(s: Json, k: Key)
    requires s.Obj? && CleanInside(s) && KindOf(k) == SchemaValue && Held(s, k).Some?
    ensures Clean(Held(s, k).value)
  {
  }

  lemma VacuousAcceptsAll(d: Dialect, it: Interp, s: Json)
    requires Vacuous(s)
    ensures forall v :: Valid(d, it, s, v)
  {
    forall v ensures Valid(d, it, s, v) { VacuousAccepts(d, it, s, v); }
  }

  /** An output with `additionalProperties: true`, or without the keyword, asks nothing of further members. */
  lemma OverwrittenAsksNothing(it: Interp, s: Json, v: Json)
    requires s.Obj? && Distinct(s.fields)
    requires FlagWins(s.fields, AdditionalProperties) || Get(s.fields, AdditionalProperties).None?
    ensures AdditionalClause(Draft7, it, Converted(s), v)
  {
    AdditionalOut(s);
  }

  lemma {:induction false} AdditionalPreserved(it: Interp, s: Json, v: Json)
    requires s.Obj? && CleanInside(s) && AdditionalKept(s.fields)
    ensures AdditionalClause(OpenApi, it, s, v) <==> AdditionalClause(Draft7, it, Converted(s), v)
    decreases s, 0, 1
  {
    var a := Held(s, AdditionalProperties);
    if a.None? {
      OverwrittenAsksNothing(it, s, v);
    } else if FlagWins(s.fields, AdditionalProperties) {
      OverwrittenAsksNothing(it, s, v);
      VacuousAcceptsAll(OpenApi, it, a.value);
    } else {
      AdditionalInPlace(it, s, v);
    }
  }

  /** The OpenAPI reading of `a` and the draft-07 reading of `b` accept the same values. */
  ghost predicate Agree(it: Interp, a: Json, b: Json) {
    forall w :: Valid(OpenApi, it, a, w) <==> Valid(Draft7, it, b, w)
  }

  lemma SameAdditional(it: Interp, s: Json, t: Json, v: Json)
    requires s.Obj? && t.Obj? && Held(s, AdditionalProperties).Some? && Held(t, AdditionalProperties).Some?
    requires Agree(it, Held(s, AdditionalProperties).value, Held(t, AdditionalProperties).value)
    requires forall key :: Described(it, s, key) <==> Described(it, t, key)
    ensures AdditionalClause(OpenApi, it, s, v) <==> AdditionalClause(Draft7, it, t, v)
  {
  }

  lemma {:induction false} AdditionalInPlace(it: Interp, s: Json, v: Json)
    requires s.Obj? && CleanInside(s) && Held(s, AdditionalProperties).Some? && !FlagWins(s.fields, AdditionalProperties)
    ensures AdditionalClause(OpenApi, it, s, v) <==> AdditionalClause(Draft7, it, Converted(s), v)
    decreases s, 0, 0
  {
    AdditionalOut(s);
    forall key ensures Described(it, s, key) <==> Described(it, Converted(s), key) {
      DescribedPreserved(it, s, key);
    }
    HeldClean(s, AdditionalProperties);
    HeldPreserved(it, Held(s, AdditionalProperties).value);
    SameAdditional(it, s, Converted(s), v);
  }

  lemma {:induction false} HeldPreserved(it: Interp, a: Json)
    requires Clean(a)
    ensures Agree(it, a, Converted(a))
    decreases a, 3
  {
    forall w ensures Valid(OpenApi, it, a, w) <==> Valid(Draft7, it, Converted(a), w) { Preserved(it, a, w); }
  }

  lemma {:induction false} ListPreserved(it: Interp, a: Json)
    requires a.Arr? && Clean(a)
    ensures forall i, w | 0 <= i < |a.items| ::
              Valid(OpenApi, it, a.items[i], w) <==> Valid(Draft7, it, Converted(a).items[i], w)
    decreases a, 3
  {
    forall i, w | 0 <= i < |a.items|
      ensures Valid(OpenApi, it, a.items[i], w) <==> Valid(Draft7, it, Converted(a).items[i], w)
    {
      Preserved(it, a.items[i], w);
    }
  }

  lemma SameItems(it: Interp, s: Json, t: Json, v: Json)
    requires s.Obj? && t.Obj? && Held(s, Items).Some? && Held(t, Items).Some?
    requires var a, b := Held(s, Items).value, Held(t, Items).value;
             if a.Arr? then
               && b.Arr? && |a.items| == |b.items|
               && forall i, w | 0 <= i < |a.items| ::
                    Valid(OpenApi, it, a.items[i], w) <==> Valid(Draft7, it, b.items[i], w)
             else !b.Arr? && Agree(it, a, b)
    ensures ItemsClause(OpenApi, it, s, v) <==> ItemsClause(Draft7, it, t, v)
  {
  }

  lemma {:induction false} ItemsPreserved(it: Interp, s: Json, v: Json)
    requires s.Obj? && CleanInside(s)
    ensures ItemsClause(OpenApi, it, s, v) <==> ItemsClause(Draft7, it, Converted(s), v)
    decreases s, 0
  {
    PlainOut(s, Items);
    var a := Held(s, Items);
    if a.Some? {
      HeldClean(s, Items);
      if a.value.Arr? { ListPreserved(it, a.value); } else { HeldPreserved(it, a.value); }
      SameItems(it, s, Converted(s), v);
    }
  }

  lemma {:induction false} NotPreserved(it: Interp, s: Json, v: Json)
    requires s.Obj? && CleanInside(s)
    ensures NotClause(OpenApi, it, s, v) <==> NotClause(Draft7, it, Converted(s), v)
    decreases s, 0
  {
    PlainOut(s, Not);
    var a := Held(s, Not);
    if a.Some? {
      HeldClean(s, Not);
      Preserved(it, a.value, v);
    }
  }

  lemma SameVerdicts(it: Interp, s: Json, t: Json, k: Key, v: Json)
    requires s.Obj? && t.Obj? && Branches(s, k).Some? && Branches(t, k).Some?
    requires var a, b := Branches(s, k).value, Branches(t, k).value;
             && |a| == |b|
             && forall i | 0 <= i < |a| :: Valid(OpenApi, it, a[i], v) <==> Valid(Draft7, it, b[i], v)
    ensures Verdicts(OpenApi, it, s, k, v) == Verdicts(Draft7, it, t, k, v)
  {
  }

  lemma {:induction false} VerdictsPreserved(it: Interp, s: Json, k: Key, v: Json)
    requires s.Obj? && CleanInside(s) && k in {AllOf, AnyOf, OneOf}
    ensures Branches(s, k).Some? <==> Branches(Converted(s), k).Some?
    ensures Verdicts(OpenApi, it, s, k, v) == Verdicts(Draft7, it, Converted(s), k, v)
    decreases s, 0
  {
    BranchesOut(s, k);
    if Branches(s, k).Some? {
      var a := Branches(s, k).value;
      forall i | 0 <= i < |a| ensures Valid(OpenApi, it, a[i], v) <==> Valid(Draft7, it, Converted(a[i]), v) {
        Preserved(it, a[i], v);
      }
      SameVerdicts(it, s, Converted(s), k, v);
    }
  }

  lemma {:induction false} CombinedPreserved(it: Interp, s: Json, v: Json)
    requires s.Obj? && CleanInside(s)
    ensures CombinedClauses(OpenApi, it, s, v) <==> CombinedClauses(Draft7, it, Converted(s), v)
    decreases s, 1, 0
  {
    NotPreserved(it, s, v);
    VerdictsPreserved(it, s, AllOf, v);
    VerdictsPreserved(it, s, AnyOf, v);
    VerdictsPreserved(it, s, OneOf, v);
  }

  lemma {:induction false} MembersPreserved(it: Interp, s: Json, v: Json)
    requires s.Obj? && CleanInside(s)
    requires AdditionalClause(OpenApi, it, s, v) <==> AdditionalClause(Draft7, it, Converted(s), v)
    ensures MemberClauses(OpenApi, it, s, v) <==> MemberClauses(Draft7, it, Converted(s), v)
    decreases s, 1, 0
  {
    PropertiesPreserved(it, s, v);
    PatternsPreserved(it, s, v);
    ItemsPreserved(it, s, v);
  }

  /** All but the two collisions is preserved at every node with clean schemas below. */
  lemma {:induction false} NodePreserved(it: Interp, s: Json, v: Json)
    requires s.Obj? && CleanInside(s)
    requires TypeClause(OpenApi, s.fields, v) <==> TypeClause(Draft7, Out(s), v)
    requires AdditionalClause(OpenApi, it, s, v) <==> AdditionalClause(Draft7, it, Converted(s), v)
    ensures Valid(OpenApi, it, s, v) <==> Valid(Draft7, it, Converted(s), v)
    decreases s, 1, 1
  {
    CopiedPreserved(it, s, v);
    MembersPreserved(it, s, v);
    CombinedPreserved(it, s, v);
  }

  /**
   The conversion preserves meaning: on every value, the OpenAPI reading of a
   clean schema and the draft-07 reading of its conversion agree.
   */
  lemma {:induction false} Preserved(it: Interp, s: Json, v: Json)
    requires Clean(s)
    ensures Valid(OpenApi, it, s, v) <==> Valid(Draft7, it, Converted(s), v)
    decreases s, 2
  {
    if s.Obj? {
      TypePreserved(s, v);
      AdditionalPreserved(it, s, v);
      NodePreserved(it, s, v);
    }
  }
}
