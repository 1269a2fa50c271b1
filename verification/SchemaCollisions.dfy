/**
 The schemas on which the conversion does not preserve meaning: two pairs of
 keywords write the same key of the output, and the later one wins.
 */
module SchemaCollisions {
  import opened Options
  import opened SchemaConversion
  import opened SchemaMeaning

  /** The conversion of `s` means what `s` means. */
  ghost predicate MeaningKept(it: Interp, s: Json) {
    forall v :: Valid(OpenApi, it, s, v) <==> Valid(Draft7, it, Converted(s), v)
  }

  // ---------------------------------------------------------------------------
  // int-or-string beside type
  // ---------------------------------------------------------------------------

  lemma NeedsName(t: Json, n: string, v: Json)
    requires n !in Names(t) && forall m :: HasType(m, v) ==> m == n
    ensures !TypeHolds(t, v)
  {
    NamesHold(t, v);
  }

  lemma HasName(t: Json, n: string, v: Json)
    requires n in Names(t) && HasType(n, v)
    ensures TypeHolds(t, v)
  {
    NamesHold(t, v);
  }

  /** The integer 1 has two type names. */
  lemma OneIsNumber(t: Json)
    requires "integer" !in Names(t) && "number" !in Names(t)
    ensures !TypeHolds(t, Num(1.0))
  {
    NamesHold(t, Num(1.0));
  }

  /** The source and what is left of it disagree on `v`. */
  ghost predicate Disagree(f: seq<Field>, v: Json) {
    TypeClause(OpenApi, f, v) != TypeAsked(Left(f, TypeKey), IsTrue(f, NullableKey), v)
  }

  /** A `type` that was overwritten excluded an integer or a string. */
  lemma OverwrittenType(f: seq<Field>) returns (v: Json)
    requires Get(f, TypeKey).Some? && FlagWins(f, TypeKey) && !TypesKept(f)
    ensures Disagree(f, v)
  {
    var t := Get(f, TypeKey).value;
    if "string" !in Names(t) {
      v := Str("");
      NeedsName(t, "string", v);
    } else {
      v := Num(1.0);
      OneIsNumber(t);
      assert HasType("integer", v);
    }
    IntegerOrStringHolds(v);
  }

  /** A value that is neither an integer nor a string, of a type that admits one. */
  lemma OtherValue(n: string) returns (v: Json)
    requires n in {"boolean", "number", "array", "object", "null"}
    ensures HasType(n, v) && !IsIntOrString(v) && (v.Null? <==> n == "null")
  {
    v := if n == "null" then Null else if n == "boolean" then Bool(true) else if n == "number" then Num(0.5)
         else if n == "array" then Arr([]) else Obj([]);
    assert 0.5 != (0.5).Floor as real;
  }

  /** A later `type` that lists `n` admits a value that int-or-string excluded. */
  lemma AdmittedByName(f: seq<Field>, n: string) returns (v: Json)
    requires Get(f, TypeKey).Some? && IsTrue(f, IntOrStringKey) && !FlagWins(f, TypeKey)
    requires n in Names(Get(f, TypeKey).value) && n in {"boolean", "number", "array", "object", "null"}
    requires n == "null" ==> !IsTrue(f, NullableKey)
    ensures Disagree(f, v)
  {
    v := OtherValue(n);
    HasName(Get(f, TypeKey).value, n, v);
  }

  lemma OverwrittenFlag(f: seq<Field>) returns (v: Json)
    requires Get(f, TypeKey).Some? && IsTrue(f, IntOrStringKey) && !FlagWins(f, TypeKey) && !TypesKept(f)
    ensures Disagree(f, v)
  {
    var names := Names(Get(f, TypeKey).value);
    var n := if "boolean" in names then "boolean" else if "number" in names then "number"
             else if "array" in names then "array" else if "object" in names then "object" else "null";
    v := AdmittedByName(f, n);
  }

  /** On every value, the types asked for before and after agree. */
  ghost predicate TypesSurvive(s: Json)
    requires s.Obj?
  {
    forall v :: TypeClause(OpenApi, s.fields, v) <==> TypeClause(Draft7, Out(s), v)
  }

  /**
   The types a node asks for survive the conversion, whatever else it holds, if
   and only if the later of `type` and int-or-string is at least as strict as
   the earlier one.
   */
  lemma TypesKeptExactly(s: Json)
    requires s.Obj? && Distinct(s.fields) && WellTyped(s.fields)
    ensures TypesSurvive(s) <==> TypesKept(s.fields)
  {
    if TypesKept(s.fields) {
      forall v ensures TypeClause(OpenApi, s.fields, v) <==> TypeClause(Draft7, Out(s), v) { TypePreserved(s, v); }
    } else {
      var v;
      if FlagWins(s.fields, TypeKey) { v := OverwrittenType(s.fields); } else { v := OverwrittenFlag(s.fields); }
      TypeClauseOut(s, v);
    }
  }

  // ---------------------------------------------------------------------------
  // preserve-unknown-fields after additionalProperties
  // ---------------------------------------------------------------------------

  ghost predicate AcceptsAll(it: Interp, a: Json) {
    forall w :: Valid(OpenApi, it, a, w)
  }

  ghost predicate AllDescribed(it: Interp, s: Json)
    requires s.Obj?
  {
    forall key :: Described(it, s, key)
  }

  /** `additionalProperties` is not overwritten, or it said nothing of any further member. */
  ghost predicate AdditionalHarmless(it: Interp, s: Json)
    requires s.Obj?
  {
    var a := Held(s, AdditionalProperties);
    a.Some? && FlagWins(s.fields, AdditionalProperties) ==> AcceptsAll(it, a.value) || AllDescribed(it, s)
  }

  lemma RejectedMember(it: Interp, s: Json, key: Key, w: Json)
    requires s.Obj? && Held(s, AdditionalProperties).Some?
    requires !Described(it, s, key) && !Valid(OpenApi, it, Held(s, AdditionalProperties).value, w)
    ensures !AdditionalClause(OpenApi, it, s, Obj([Field(key, w)]))
  {
    var v := Obj([Field(key, w)]);
    assert v.fields[0] == Field(key, w);
  }

  lemma HarmlessIsKept(it: Interp, s: Json, v: Json)
    requires s.Obj? && CleanInside(s) && AdditionalHarmless(it, s)
    ensures AdditionalClause(OpenApi, it, s, v) <==> AdditionalClause(Draft7, it, Converted(s), v)
  {
    var a := Held(s, AdditionalProperties);
    if a.None? || FlagWins(s.fields, AdditionalProperties) {
      OverwrittenAsksNothing(it, s, v);
    } else {
      AdditionalInPlace(it, s, v);
    }
  }

  /** On every value, what is asked of further members before and after agrees. */
  ghost predicate AdditionalSurvives(it: Interp, s: Json)
    requires s.Obj?
  {
    forall v :: AdditionalClause(OpenApi, it, s, v) <==> AdditionalClause(Draft7, it, Converted(s), v)
  }

  /** What a node asks of further members survives the conversion if and only if no overwriting loses it. */
  lemma AdditionalKeptExactly(it: Interp, s: Json)
    requires s.Obj? && CleanInside(s)
    ensures AdditionalSurvives(it, s) <==> AdditionalHarmless(it, s)
  {
    if AdditionalHarmless(it, s) {
      forall v ensures AdditionalClause(OpenApi, it, s, v) <==> AdditionalClause(Draft7, it, Converted(s), v) {
        HarmlessIsKept(it, s, v);
      }
    } else {
      var key :| !Described(it, s, key);
      var w :| !Valid(OpenApi, it, Held(s, AdditionalProperties).value, w);
      RejectedMember(it, s, key, w);
      OverwrittenAsksNothing(it, s, Obj([Field(key, w)]));
    }
  }

  /** A condition on the keywords alone that is enough. */
  lemma VacuousIsHarmless(it: Interp, s: Json)
    requires s.Obj? && AdditionalKept(s.fields)
    ensures AdditionalHarmless(it, s)
  {
    var a := Held(s, AdditionalProperties);
    if a.Some? && FlagWins(s.fields, AdditionalProperties) { VacuousAcceptsAll(OpenApi, it, a.value); }
  }

  // ---------------------------------------------------------------------------
  // The whole node
  // ---------------------------------------------------------------------------

  /** Without a losing collision, a node with clean schemas below keeps its meaning. */
  lemma NoLossKeepsMeaning(it: Interp, s: Json)
    requires s.Obj? && CleanInside(s) && WellTyped(s.fields)
    requires TypesKept(s.fields) && AdditionalHarmless(it, s)
    ensures MeaningKept(it, s)
  {
    forall v ensures Valid(OpenApi, it, s, v) <==> Valid(Draft7, it, Converted(s), v) {
      TypePreserved(s, v);
      HarmlessIsKept(it, s, v);
      NodePreserved(it, s, v);
    }
  }

  /** No keyword but the ones that collide, `nullable` and those that are dropped. */
  ghost predicate OnlyColliding(f: seq<Field>) {
    forall k | Plain(k) :: Get(f, k).None?
  }

  lemma NoCombinations(d: Dialect, it: Interp, s: Json, v: Json)
    requires s.Obj? && OnlyColliding(s.fields)
    ensures CombinedClauses(d, it, s, v)
  {
    assert Plain(Not) && Plain(AllOf) && Plain(AnyOf) && Plain(OneOf);
  }

  lemma NoMembers(d: Dialect, it: Interp, s: Json, v: Json)
    requires s.Obj? && OnlyColliding(s.fields)
    ensures MemberClauses(d, it, s, v) <==> AdditionalClause(d, it, s, v)
  {
    assert Plain(Properties) && Plain(PatternProperties) && Plain(Items);
  }

  lemma NothingCopied(it: Interp, f: seq<Field>, v: Json)
    requires OnlyColliding(f)
    ensures CopiedClause(it, f, v)
  {
    forall k | KindOf(k) == Copied && k != TypeKey ensures Get(f, k).None? { assert Plain(k); }
  }

  lemma MeansItsClauses(d: Dialect, it: Interp, s: Json, v: Json)
    requires s.Obj? && OnlyColliding(s.fields)
    ensures Valid(d, it, s, v) <==> TypeClause(d, s.fields, v) && AdditionalClause(d, it, s, v)
  {
    NothingCopied(it, s.fields, v);
    NoMembers(d, it, s, v);
    NoCombinations(d, it, s, v);
  }

  lemma OutOnlyColliding(s: Json)
    requires s.Obj? && Distinct(s.fields) && OnlyColliding(s.fields)
    ensures OnlyColliding(Out(s))
  {
    forall k | Plain(k) ensures Get(Out(s), k).None? { PlainOut(s, k); }
  }

  lemma ClausesBoth(it: Interp, s: Json, v: Json)
    requires s.Obj? && Distinct(s.fields) && OnlyColliding(s.fields)
    ensures Valid(OpenApi, it, s, v) <==> TypeClause(OpenApi, s.fields, v) && AdditionalClause(OpenApi, it, s, v)
    ensures Valid(Draft7, it, Converted(s), v) <==>
              TypeClause(Draft7, Out(s), v) && AdditionalClause(Draft7, it, Converted(s), v)
  {
    MeansItsClauses(OpenApi, it, s, v);
    OutOnlyColliding(s);
    MeansItsClauses(Draft7, it, Converted(s), v);
  }

  lemma TypeNode(it: Interp, s: Json, v: Json)
    requires s.Obj? && Distinct(s.fields) && OnlyColliding(s.fields) && Get(s.fields, AdditionalProperties).None?
    ensures Valid(OpenApi, it, s, v) <==> TypeClause(OpenApi, s.fields, v)
    ensures Valid(Draft7, it, Converted(s), v) <==> TypeClause(Draft7, Out(s), v)
  {
    ClausesBoth(it, s, v);
    OverwrittenAsksNothing(it, s, v);
  }

  /** A node that only asks for types keeps its meaning if and only if it keeps its types. */
  lemma TypeNodesExactly(it: Interp, s: Json)
    requires s.Obj? && Distinct(s.fields) && WellTyped(s.fields)
    requires OnlyColliding(s.fields) && Get(s.fields, AdditionalProperties).None?
    ensures MeaningKept(it, s) <==> TypesKept(s.fields)
  {
    TypesKeptExactly(s);
    if MeaningKept(it, s) {
      forall v ensures TypeClause(OpenApi, s.fields, v) <==> TypeClause(Draft7, Out(s), v) {
        TypeNode(it, s, v);
        assert Valid(OpenApi, it, s, v) <==> Valid(Draft7, it, Converted(s), v);
      }
      assert TypesSurvive(s);
    } else if TypesSurvive(s) {
      forall v ensures Valid(OpenApi, it, s, v) <==> Valid(Draft7, it, Converted(s), v) {
        TypeNode(it, s, v);
        assert TypeClause(OpenApi, s.fields, v) <==> TypeClause(Draft7, Out(s), v);
      }
    }
  }

  lemma NoTypes(s: Json, v: Json)
    requires s.Obj? && Distinct(s.fields)
    requires Get(s.fields, TypeKey).None? && !IsTrue(s.fields, IntOrStringKey)
    ensures TypeClause(OpenApi, s.fields, v) && TypeClause(Draft7, Out(s), v)
  {
    TypeOut(s);
  }

  lemma AdditionalNode(it: Interp, s: Json, v: Json)
    requires s.Obj? && Distinct(s.fields) && OnlyColliding(s.fields)
    requires Get(s.fields, TypeKey).None? && !IsTrue(s.fields, IntOrStringKey)
    ensures Valid(OpenApi, it, s, v) <==> AdditionalClause(OpenApi, it, s, v)
    ensures Valid(Draft7, it, Converted(s), v) <==> AdditionalClause(Draft7, it, Converted(s), v)
  {
    ClausesBoth(it, s, v);
    NoTypes(s, v);
  }

  lemma KeptAdditionalSurvives(it: Interp, s: Json, v: Json)
    requires s.Obj? && Distinct(s.fields) && OnlyColliding(s.fields)
    requires Get(s.fields, TypeKey).None? && !IsTrue(s.fields, IntOrStringKey)
    requires MeaningKept(it, s)
    ensures AdditionalClause(OpenApi, it, s, v) <==> AdditionalClause(Draft7, it, Converted(s), v)
  {
    AdditionalNode(it, s, v);
    assert Valid(OpenApi, it, s, v) <==> Valid(Draft7, it, Converted(s), v);
  }

  /** A node that only speaks of further members keeps its meaning if and only if no overwriting loses it. */
  lemma AdditionalNodesExactly(it: Interp, s: Json)
    requires s.Obj? && CleanInside(s) && OnlyColliding(s.fields)
    requires Get(s.fields, TypeKey).None? && !IsTrue(s.fields, IntOrStringKey)
    ensures MeaningKept(it, s) <==> AdditionalHarmless(it, s)
  {
    if MeaningKept(it, s) {
      forall v ensures AdditionalClause(OpenApi, it, s, v) <==> AdditionalClause(Draft7, it, Converted(s), v) {
        KeptAdditionalSurvives(it, s, v);
      }
      AdditionalKeptExactly(it, s);
    } else if AdditionalHarmless(it, s) {
      NoLossKeepsMeaning(it, s);
    }
  }

  // ---------------------------------------------------------------------------
  // The three ways to lose meaning, at one schema each
  // ---------------------------------------------------------------------------

  lemma TwoFields(a: Field, b: Field, k: Key)
    requires a.key != b.key
    ensures Find([a, b], a.key) == 0 && Find([a, b], b.key) == 1
    ensures Get([a, b], k) == if k == a.key then Some(a.value) else if k == b.key then Some(b.value) else None
  {
    FindIs([a, b], a.key, 0);
    FindIs([a, b], b.key, 1);
    if k != a.key && k != b.key { FindIs([a, b], k, 2); }
  }

  lemma TwoCollide(a: Field, b: Field)
    requires a.key != b.key && !Plain(a.key) && !Plain(b.key)
    ensures OnlyColliding([a, b])
  {
    forall k | Plain(k) ensures Get([a, b], k).None? { TwoFields(a, b, k); }
  }

  const INT_OR_STRING := Field(IntOrStringKey, Bool(true))

  lemma NotKeptBefore(t: Field)
    requires t == Field(TypeKey, Str("string"))
    ensures WellTyped([t, INT_OR_STRING]) && !TypesKept([t, INT_OR_STRING])
  {
    TwoFields(t, INT_OR_STRING, TypeKey);
    TwoFields(t, INT_OR_STRING, IntOrStringKey);
    assert Names(t.value) == {"string"};
  }

  lemma NotKeptAfter(t: Field)
    requires t == Field(TypeKey, Str("boolean"))
    ensures WellTyped([INT_OR_STRING, t]) && !TypesKept([INT_OR_STRING, t])
  {
    TwoFields(INT_OR_STRING, t, TypeKey);
    TwoFields(INT_OR_STRING, t, IntOrStringKey);
    assert "boolean" in Names(t.value);
  }

  /** A type of string before int-or-string is lost: integers get in. */
  lemma TypeLost(it: Interp, s: Json)
    requires s == Obj([Field(TypeKey, Str("string")), INT_OR_STRING])
    ensures !MeaningKept(it, s)
  {
    NotKeptBefore(s.fields[0]);
    TwoCollide(s.fields[0], INT_OR_STRING);
    TwoFields(s.fields[0], INT_OR_STRING, AdditionalProperties);
    TypeNodesExactly(it, s);
  }

  /** A type of boolean after int-or-string replaces it: booleans get in. */
  lemma IntOrStringLost(it: Interp, s: Json)
    requires s == Obj([INT_OR_STRING, Field(TypeKey, Str("boolean"))])
    ensures !MeaningKept(it, s)
  {
    NotKeptAfter(s.fields[1]);
    TwoCollide(INT_OR_STRING, s.fields[1]);
    TwoFields(INT_OR_STRING, s.fields[1], AdditionalProperties);
    TypeNodesExactly(it, s);
  }

  const CLOSED := Field(AdditionalProperties, Bool(false))
  const OPEN := Field(PreserveUnknownKey, Bool(true))

  lemma ClosedIsHarmed(it: Interp, s: Json)
    requires s == Obj([CLOSED, OPEN])
    ensures !AdditionalHarmless(it, s)
  {
    TwoFields(CLOSED, OPEN, AdditionalProperties);
    TwoFields(CLOSED, OPEN, PreserveUnknownKey);
    TwoFields(CLOSED, OPEN, Properties);
    TwoFields(CLOSED, OPEN, PatternProperties);
    assert !Valid(OpenApi, it, Bool(false), Null);
    assert !Described(it, s, Items);
  }

  /** A closed object becomes an open one when preserve-unknown-fields comes after. */
  lemma AdditionalLost(it: Interp, s: Json)
    requires s == Obj([CLOSED, OPEN])
    ensures !MeaningKept(it, s)
  {
    TwoCollide(CLOSED, OPEN);
    TwoFields(CLOSED, OPEN, TypeKey);
    TwoFields(CLOSED, OPEN, IntOrStringKey);
    ClosedIsHarmed(it, s);
    AdditionalNodesExactly(it, s);
  }
}
