/**
 The conversion as the source runs it, and its fixed points.
 */
module SchemaNormalForm {
  import opened Options
  import opened SchemaConversion
  import opened SchemaMeaning

  // ---------------------------------------------------------------------------
  // The loop
  // ---------------------------------------------------------------------------

  lemma WrittenSnoc(s: Json, n: nat)
    requires s.Obj? && n < |s.fields|
    ensures Written(Emissions(s)[..n + 1])
         == match Emitted(s.fields[n])
            case None => Written(Emissions(s)[..n])
            case Some(e) => Set(Written(Emissions(s)[..n]), e.key, e.value)
  {
    var es := Emissions(s)[..n + 1];
    assert es[..|es| - 1] == Emissions(s)[..n];
    assert es[|es| - 1] == Emitted(s.fields[n]);
  }

  /** `openapi_to_jsonschema`; `None` stands for an exception. */
  method OpenApiToJsonSchema(schema: Json) returns (r: Option<Json>)
    ensures r == if Raises(schema) then None else Some(Converted(schema))
    decreases schema, 4
  {
    match schema {
      case Arr(_) =>
        var items := ConvertEach(schema);
        r := if items.Some? then Some(Arr(items.value)) else None;
      case Obj(fields) =>
        var out := ConvertEntries(schema);
        if out.None? { return None; }
        r := PatchType(schema, out.value);
      case _ =>
        r := Some(schema);
    }
  }

  /** The loop over the entries of a mapping. */
  method ConvertEntries(schema: Json) returns (r: Option<seq<Field>>)
    requires schema.Obj?
    ensures r.None? <==> exists i | 0 <= i < |schema.fields| :: EntryRaises(schema.fields[i])
    ensures r.Some? ==> r.value == Written(Emissions(schema))
    decreases schema, 3
  {
    var fields := schema.fields;
    var out := [];
    for n := 0 to |fields|
      invariant forall i | 0 <= i < n :: !EntryRaises(fields[i])
      invariant out == Written(Emissions(schema)[..n])
    {
      WrittenSnoc(schema, n);
      var e := ConvertEntry(fields[n]);
      if e.None? { return None; }
      if e.value.Some? { out := Set(out, e.value.value.key, e.value.value.value); }
    }
    assert Emissions(schema)[..|fields|] == Emissions(schema);
    r := Some(out);
  }

  /** The last two lines of the conversion: `nullable` patches the written type. */
  method PatchType(schema: Json, out: seq<Field>) returns (r: Option<Json>)
    requires schema.Obj? && out == Written(Emissions(schema))
    requires forall i | 0 <= i < |schema.fields| :: !EntryRaises(schema.fields[i])
    ensures r == if Raises(schema) then None else Some(Converted(schema))
  {
    var t := Get(out, TypeKey);
    if IsTrue(schema.fields, NullableKey) && t.Some? {
      if t.value.Null? || t.value.Bool? || t.value.Num? { return None; }
      var types := if t.value.Str? then [t.value] else Iterated(t.value);
      assert Arr(types + [Str("null")]) == WithNull(t.value);
      r := Some(Obj(Set(out, TypeKey, Arr(types + [Str("null")]))));
    } else {
      r := Some(Obj(out));
    }
  }

  /** One turn of the loop: what to write, or an exception. */
  method ConvertEntry(e: Field) returns (r: Option<Option<Field>>)
    ensures r == if EntryRaises(e) then None else Some(Emitted(e))
    decreases e.value, 5
  {
    var v := e.value;
    match KindOf(e.key) {
      case Dropped => return Some(None);
      case Nullable => return Some(None);
      case IntOrString => return Some(if Truthy(v) then Some(Field(TypeKey, INTEGER_OR_STRING)) else None);
      case PreserveUnknown => return Some(if Truthy(v) then Some(Field(AdditionalProperties, Bool(true))) else None);
      case SchemaMap =>
        if !Truthy(v) {
          if v.Obj? { assert ConvertedValues(v) == []; }
          return Some(Some(Field(e.key, Obj([]))));
        }
        if !v.Obj? { return None; }
        var vals := ConvertEachValue(v);
        return if vals.Some? then Some(Some(Field(e.key, Obj(vals.value)))) else None;
      case SchemaValue =>
        var c := OpenApiToJsonSchema(v);
        return if c.Some? then Some(Some(Field(e.key, c.value))) else None;
      case SchemaList =>
        if v.Null? || v.Bool? || v.Num? { return None; }
        if !v.Arr? { return Some(Some(Field(e.key, Arr(Iterated(v))))); }
        var items := ConvertEach(v);
        return if items.Some? then Some(Some(Field(e.key, Arr(items.value)))) else None;
      case Copied => return Some(Some(e));
    }
  }

  method ConvertEach(a: Json) returns (r: Option<seq<Json>>)
    requires a.Arr?
    ensures r.None? <==> exists i | 0 <= i < |a.items| :: Raises(a.items[i])
    ensures r.Some? ==> r.value == ConvertedItems(a)
    decreases a, 3
  {
    var out := [];
    for n := 0 to |a.items|
      invariant forall i | 0 <= i < n :: !Raises(a.items[i])
      invariant |out| == n && forall i | 0 <= i < n :: out[i] == Converted(a.items[i])
    {
      var c := OpenApiToJsonSchema(a.items[n]);
      if c.None? { return None; }
      out := out + [c.value];
    }
    assert out == ConvertedItems(a);
    r := Some(out);
  }

  method ConvertEachValue(o: Json) returns (r: Option<seq<Field>>)
    requires o.Obj?
    ensures r.None? <==> exists i | 0 <= i < |o.fields| :: Raises(o.fields[i].value)
    ensures r.Some? ==> r.value == ConvertedValues(o)
    decreases o, 3
  {
    var out := [];
    for n := 0 to |o.fields|
      invariant forall i | 0 <= i < n :: !Raises(o.fields[i].value)
      invariant |out| == n && forall i | 0 <= i < n :: out[i] == Field(o.fields[i].key, Converted(o.fields[i].value))
    {
      var c := OpenApiToJsonSchema(o.fields[n].value);
      if c.None? { return None; }
      out := out + [Field(o.fields[n].key, c.value)];
    }
    assert out == ConvertedValues(o);
    r := Some(out);
  }

  lemma {:induction false} CleanEntryNeverRaises(e: Field)
    requires CleanEntry(e)
    ensures !EntryRaises(e)
    decreases e.value, 1
  {
    var v := e.value;
    match KindOf(e.key) {
      case SchemaMap =>
        if v.Obj? {
          forall i | 0 <= i < |v.fields| ensures !Raises(v.fields[i].value) { CleanNeverRaises(v.fields[i].value); }
        }
      case SchemaValue => CleanNeverRaises(v);
      case SchemaList =>
        forall i | 0 <= i < |v.items| ensures !Raises(v.items[i]) { CleanNeverRaises(v.items[i]); }
      case _ =>
    }
  }

  /** Every clean schema is converted without an exception. */
  lemma {:induction false} CleanNeverRaises(s: Json)
    requires Clean(s)
    ensures !Raises(s)
    decreases s, 0
  {
    match s {
      case Arr(items) =>
        forall i | 0 <= i < |items| ensures !Raises(items[i]) { CleanNeverRaises(items[i]); }
      case Obj(f) =>
        forall i | 0 <= i < |f| ensures !EntryRaises(f[i]) { CleanEntryNeverRaises(f[i]); }
        LaterDecides(s, TypeKey);
        if IsTrue(f, NullableKey) { LeftIsTypeLike(f); }
      case _ =>
    }
  }

  // ---------------------------------------------------------------------------
  // Idempotence
  // ---------------------------------------------------------------------------

  /** Schemas without any extension left at a schema position. */
  ghost predicate Normal(s: Json)
    decreases s, 2
  {
    match s
    case Arr(items) => forall i | 0 <= i < |items| :: Normal(items[i])
    case Obj(f) => Distinct(f) && forall i | 0 <= i < |f| :: NormalEntry(f[i])
    case _ => true
  }

  ghost predicate NormalEntry(e: Field)
    decreases e.value, 3
  {
    var v := e.value;
    match KindOf(e.key)
    case SchemaMap => v.Obj? && forall i | 0 <= i < |v.fields| :: Normal(v.fields[i].value)
    case SchemaValue => Normal(v)
    case SchemaList => v.Arr? && forall i | 0 <= i < |v.items| :: Normal(v.items[i])
    case Copied => true
    case _ => false
  }

  lemma SetDistinct(f: seq<Field>, k: Key, v: Json)
    requires Distinct(f)
    ensures Distinct(Set(f, k, v))
    ensures forall e | e in Set(f, k, v) :: e in f || e == Field(k, v)
  {
  }

  /** A filled dictionary has distinct keys and holds only what was assigned. */
  lemma {:induction false} WrittenIsWritten(es: seq<Option<Field>>)
    ensures Distinct(Written(es))
    ensures forall e | e in Written(es) :: Some(e) in es
  {
    if es != [] {
      var before, last := es[..|es| - 1], es[|es| - 1];
      WrittenIsWritten(before);
      assert last in es && forall x | x in before :: x in es;
      if last.Some? { SetDistinct(Written(before), last.value.key, last.value.value); }
    }
  }

  lemma {:induction false} EmittedIsNormal(e: Field)
    ensures Emitted(e).Some? ==> NormalEntry(Emitted(e).value)
    decreases e.value, 1
  {
    var v := e.value;
    match KindOf(e.key) {
      case SchemaMap =>
        if v.Obj? {
          forall i | 0 <= i < |v.fields| ensures Normal(Converted(v.fields[i].value)) {
            ConvertedIsNormal(v.fields[i].value);
          }
        }
      case SchemaValue => ConvertedIsNormal(v);
      case SchemaList =>
        if v.Arr? {
          forall i | 0 <= i < |v.items| ensures Normal(Converted(v.items[i])) { ConvertedIsNormal(v.items[i]); }
        }
      case _ =>
    }
  }

  /** No extension survives a conversion. */
  lemma {:induction false} ConvertedIsNormal(s: Json)
    ensures Normal(Converted(s))
    decreases s, 0
  {
    match s {
      case Arr(items) =>
        forall i | 0 <= i < |items| ensures Normal(Converted(items[i])) { ConvertedIsNormal(items[i]); }
      case Obj(f) =>
        var out := Written(Emissions(s));
        WrittenIsWritten(Emissions(s));
        forall e | e in out ensures NormalEntry(e) {
          var i :| 0 <= i < |f| && Emissions(s)[i] == Some(e);
          EmittedIsNormal(f[i]);
        }
        PatchIsNormal(f, out);
      case _ =>
    }
  }

  lemma PatchIsNormal(f: seq<Field>, out: seq<Field>)
    requires Distinct(out) && forall e | e in out :: NormalEntry(e)
    ensures Normal(Obj(Patched(f, out)))
  {
  }

  lemma {:induction false} WrittenBack(f: seq<Field>, es: seq<Option<Field>>)
    requires Distinct(f) && |es| == |f| && forall i | 0 <= i < |f| :: es[i] == Some(f[i])
    ensures Written(es) == f
  {
    if f != [] {
      var n := |f| - 1;
      WrittenBack(f[..n], es[..n]);
      FindIs(f[..n], f[n].key, n);
    }
  }

  lemma {:induction false} NormalEntryIsKept(e: Field)
    requires NormalEntry(e)
    ensures Emitted(e) == Some(e)
    decreases e.value, 1
  {
    var v := e.value;
    match KindOf(e.key) {
      case SchemaMap =>
        forall i | 0 <= i < |v.fields| ensures Converted(v.fields[i].value) == v.fields[i].value {
          NormalIsFixed(v.fields[i].value);
        }
        assert ConvertedValues(v) == v.fields;
      case SchemaValue => NormalIsFixed(v);
      case SchemaList =>
        forall i | 0 <= i < |v.items| ensures Converted(v.items[i]) == v.items[i] { NormalIsFixed(v.items[i]); }
        assert ConvertedItems(v) == v.items;
      case _ =>
    }
  }

  lemma {:induction false} NormalIsFixed(s: Json)
    requires Normal(s)
    ensures Converted(s) == s
    decreases s, 0
  {
    match s {
      case Arr(items) =>
        forall i | 0 <= i < |items| ensures Converted(items[i]) == items[i] { NormalIsFixed(items[i]); }
        assert ConvertedItems(s) == items;
      case Obj(f) =>
        forall i | 0 <= i < |f| ensures Emitted(f[i]) == Some(f[i]) { NormalEntryIsKept(f[i]); }
        WrittenBack(f, Emissions(s));
        assert forall i | 0 <= i < |f| :: NormalEntry(f[i]) && f[i].key != NullableKey;
      case _ =>
    }
  }

  /** Converting twice is converting once. */
  lemma Idempotent(s: Json)
    ensures Converted(Converted(s)) == Converted(s)
  {
    ConvertedIsNormal(s);
    NormalIsFixed(Converted(s));
  }
}
