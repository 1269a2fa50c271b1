/**
 The CRD schema conversion of `scripts/validate-yaml-manifests.py`: a compiler
 from the Kubernetes OpenAPI dialect to JSON Schema draft-07, as a function.
 `SchemaMeaning` proves that it preserves meaning.
 */
module SchemaConversion {
  import opened Options

  /** Parsed YAML. A mapping keeps the order of its entries, as a Python dict does. */
  datatype Json =
    | Null
    | Bool(b: bool)
    | Num(n: real)
    | Str(s: string)
    | Arr(items: seq<Json>)
    | Obj(fields: seq<Field>)

  datatype Field = Field(key: Key, value: Json)

  /** A mapping key: one of the strings the conversion compares with, or another one. */
  datatype Key =
    | ListType | ListMapKeys | MapType | Validations | EmbeddedResource
    | IntOrStringKey | PreserveUnknownKey | NullableKey
    | Properties | PatternProperties | Definitions
    | Items | AdditionalProperties | Not
    | AllOf | AnyOf | OneOf
    | TypeKey
    | Other(name: OtherName)

  /** The strings the conversion compares keys with. */
  const KNOWN_NAMES := {
    "x-kubernetes-list-type", "x-kubernetes-list-map-keys", "x-kubernetes-map-type", "x-kubernetes-validations",
    "x-kubernetes-embedded-resource", "x-kubernetes-int-or-string", "x-kubernetes-preserve-unknown-fields",
    "nullable", "properties", "patternProperties", "definitions", "items", "additionalProperties", "not",
    "allOf", "anyOf", "oneOf", "type"
  }

  type OtherName = name: string | name !in KNOWN_NAMES witness ""

  function Name(k: Key): string {
    match k
    case ListType => "x-kubernetes-list-type"
    case ListMapKeys => "x-kubernetes-list-map-keys"
    case MapType => "x-kubernetes-map-type"
    case Validations => "x-kubernetes-validations"
    case EmbeddedResource => "x-kubernetes-embedded-resource"
    case IntOrStringKey => "x-kubernetes-int-or-string"
    case PreserveUnknownKey => "x-kubernetes-preserve-unknown-fields"
    case NullableKey => "nullable"
    case Properties => "properties"
    case PatternProperties => "patternProperties"
    case Definitions => "definitions"
    case Items => "items"
    case AdditionalProperties => "additionalProperties"
    case Not => "not"
    case AllOf => "allOf"
    case AnyOf => "anyOf"
    case OneOf => "oneOf"
    case TypeKey => "type"
    case Other(name) => name
  }

  /** The key that a string is, compared as the conversion compares it. */
  function KeyNamed(text: string): Key {
    if text == "x-kubernetes-list-type" then ListType
    else if text == "x-kubernetes-list-map-keys" then ListMapKeys
    else if text == "x-kubernetes-map-type" then MapType
    else if text == "x-kubernetes-validations" then Validations
    else if text == "x-kubernetes-embedded-resource" then EmbeddedResource
    else if text == "x-kubernetes-int-or-string" then IntOrStringKey
    else if text == "x-kubernetes-preserve-unknown-fields" then PreserveUnknownKey
    else StandardKey(text)
  }

  function StandardKey(text: string): Key
    requires text != "x-kubernetes-list-type" && text != "x-kubernetes-list-map-keys"
    requires text != "x-kubernetes-map-type" && text != "x-kubernetes-validations"
    requires text != "x-kubernetes-embedded-resource" && text != "x-kubernetes-int-or-string"
    requires text != "x-kubernetes-preserve-unknown-fields"
  {
    if text == "nullable" then NullableKey
    else if text == "properties" then Properties
    else if text == "patternProperties" then PatternProperties
    else if text == "definitions" then Definitions
    else if text == "items" then Items
    else if text == "additionalProperties" then AdditionalProperties
    else if text == "not" then Not
    else if text == "allOf" then AllOf
    else if text == "anyOf" then AnyOf
    else if text == "oneOf" then OneOf
    else if text == "type" then TypeKey
    else Other(text)
  }

  lemma NameOfNamed(text: string)
    ensures Name(KeyNamed(text)) == text
  {
  }

  /** A key is its name. */
  lemma NamesTellKeys(a: Key, b: Key)
    requires Name(a) == Name(b)
    ensures a == b
  {
  }

  /** Reading a key's name gives the key, and naming what was read gives the text. */
  lemma NamesReadBack(k: Key, text: string)
    ensures KeyNamed(Name(k)) == k
    ensures Name(KeyNamed(text)) == text
  {
    NameOfNamed(text);
    NameOfNamed(Name(k));
    NamesTellKeys(KeyNamed(Name(k)), k);
  }

  // ---------------------------------------------------------------------------
  // Dictionaries
  // ---------------------------------------------------------------------------

  /** The first position of `k`, or the length. */
  function Find(f: seq<Field>, k: Key): (i: nat)
    ensures i <= |f|
    ensures i < |f| ==> f[i].key == k
    ensures forall j | 0 <= j < i :: f[j].key != k
  {
    if f == [] || f[0].key == k then 0 else 1 + Find(f[1..], k)
  }

  function Get(f: seq<Field>, k: Key): Option<Json> {
    var i := Find(f, k);
    if i < |f| then Some(f[i].value) else None
  }

  /** `out[k] = v`: replace in place, or append. */
  function Set(f: seq<Field>, k: Key, v: Json): seq<Field> {
    var i := Find(f, k);
    if i < |f| then f[i := Field(k, v)] else f + [Field(k, v)]
  }

  lemma FindIs(f: seq<Field>, k: Key, i: nat)
    requires i <= |f| && (i < |f| ==> f[i].key == k)
    requires forall j | 0 <= j < i :: f[j].key != k
    ensures Find(f, k) == i
  {
  }

  /** What a mapping holds is part of it. */
  lemma GetSmaller(s: Json, k: Key)
    requires s.Obj? && Get(s.fields, k).Some?
    ensures Get(s.fields, k).value < s
  {
  }

  lemma GetWhatWasSet(f: seq<Field>, k: Key, v: Json)
    ensures Get(Set(f, k, v), k) == Some(v)
  {
    FindIs(Set(f, k, v), k, Find(f, k));
  }

  lemma GetWhatWasNotSet(f: seq<Field>, k: Key, v: Json, k': Key)
    requires k' != k
    ensures Get(Set(f, k, v), k') == Get(f, k')
  {
    var i := Find(f, k');
    FindIs(Set(f, k, v), k', if i < |f| then i else |Set(f, k, v)|);
  }

  /** A dictionary filled by a series of assignments. */
  function Written(es: seq<Option<Field>>): seq<Field> {
    if es == [] then []
    else
      var before := Written(es[..|es| - 1]);
      match es[|es| - 1]
      case None => before
      case Some(e) => Set(before, e.key, e.value)
  }

  predicate Assigns(e: Option<Field>, k: Key) {
    e.Some? && e.value.key == k
  }

  /** A key nobody assigns is absent. */
  lemma {:induction false} WrittenAbsent(es: seq<Option<Field>>, k: Key)
    requires forall e | e in es :: !Assigns(e, k)
    ensures Get(Written(es), k) == None
  {
    if es != [] {
      var before, e := es[..|es| - 1], es[|es| - 1];
      assert e in es && !Assigns(e, k);
      WrittenAbsent(before, k);
      if e.Some? { GetWhatWasNotSet(Written(before), e.value.key, e.value.value, k); }
    }
  }

  /** The last assignment to a key decides its value. */
  lemma {:induction false} WrittenLast(es: seq<Option<Field>>, k: Key, i: nat)
    requires i < |es| && Assigns(es[i], k)
    requires forall e | e in es[i + 1..] :: !Assigns(e, k)
    ensures Get(Written(es), k) == Some(es[i].value.value)
  {
    var before, e := es[..|es| - 1], es[|es| - 1];
    if i == |es| - 1 {
      GetWhatWasSet(Written(before), k, e.value.value);
    } else {
      assert es[i + 1..] == before[i + 1..] + [e];
      assert e in es[i + 1..] && !Assigns(e, k);
      WrittenLast(before, k, i);
      if e.Some? { GetWhatWasNotSet(Written(before), e.value.key, e.value.value, k); }
    }
  }

  ghost predicate Distinct(f: seq<Field>) {
    forall i, j | 0 <= i < j < |f| :: f[i].key != f[j].key
  }

  /** Python's truth value of a parsed document. */
  predicate Truthy(v: Json) {
    match v
    case Null => false
    case Bool(b) => b
    case Num(n) => n != 0.0
    case Str(s) => s != ""
    case Arr(items) => items != []
    case Obj(fields) => fields != []
  }

  /** What counts as false: nothing, false, zero, and whatever is empty. */
  lemma FalsyValuesAre(v: Json)
    ensures !Truthy(v) <==>
              v == Null || v == Bool(false) || v == Num(0.0) || v == Str("") || v == Arr([]) || v == Obj([])
  {
  }

  predicate IsTrue(f: seq<Field>, k: Key) {
    Get(f, k).Some? && Truthy(Get(f, k).value)
  }

  // ---------------------------------------------------------------------------
  // Keywords
  // ---------------------------------------------------------------------------

  datatype Kind = Dropped | IntOrString | PreserveUnknown | Nullable | SchemaMap | SchemaValue | SchemaList | Copied

  function KindOf(k: Key): Kind {
    match k
    case ListType | ListMapKeys | MapType | Validations | EmbeddedResource => Dropped
    case IntOrStringKey => IntOrString
    case PreserveUnknownKey => PreserveUnknown
    case NullableKey => Nullable
    case Properties | PatternProperties | Definitions => SchemaMap
    case Items | AdditionalProperties | Not => SchemaValue
    case AllOf | AnyOf | OneOf => SchemaList
    case TypeKey | Other(_) => Copied
  }

  // ---------------------------------------------------------------------------
  // The conversion, as a function
  // ---------------------------------------------------------------------------

  /** What iterating over a value in Python yields: entries, keys or characters. */
  function Iterated(v: Json): seq<Json> {
    match v
    case Arr(items) => items
    case Obj(fields) => seq(|fields|, i requires 0 <= i < |fields| => Str(Name(fields[i].key)))
    case Str(s) => seq(|s|, i requires 0 <= i < |s| => Str([s[i]]))
    case _ => []
  }

  const INTEGER_OR_STRING := Arr([Str("integer"), Str("string")])

  /** `openapi_to_jsonschema` where it does not raise. */
  function Converted(s: Json): Json
    decreases s, 2
  {
    match s
    case Arr(_) => Arr(ConvertedItems(s))
    case Obj(fields) => Obj(Patched(fields, Written(Emissions(s))))
    case _ => s
  }

  function ConvertedItems(s: Json): (r: seq<Json>)
    requires s.Arr?
    ensures |r| == |s.items|
    ensures forall i | 0 <= i < |s.items| :: r[i] == Converted(s.items[i])
    decreases s, 1
  {
    seq(|s.items|, i requires 0 <= i < |s.items| => Converted(s.items[i]))
  }

  function ConvertedValues(s: Json): (r: seq<Field>)
    requires s.Obj?
    ensures |r| == |s.fields|
    ensures forall i | 0 <= i < |s.fields| :: r[i] == Field(s.fields[i].key, Converted(s.fields[i].value))
    decreases s, 1
  {
    seq(|s.fields|, i requires 0 <= i < |s.fields| => Field(s.fields[i].key, Converted(s.fields[i].value)))
  }

  /** The value a structural keyword gets. */
  function Transformed(k: Key, v: Json): Json
    decreases v, 3
  {
    match KindOf(k)
    case SchemaMap => if v.Obj? then Obj(ConvertedValues(v)) else Obj([])
    case SchemaValue => Converted(v)
    case SchemaList => if v.Arr? then Arr(ConvertedItems(v)) else Arr(Iterated(v))
    case _ => v
  }

  /** What one entry of the source writes into the output, if anything. */
  function Emitted(e: Field): Option<Field>
    decreases e.value, 4
  {
    match KindOf(e.key)
    case Dropped => None
    case Nullable => None
    case IntOrString => if Truthy(e.value) then Some(Field(TypeKey, INTEGER_OR_STRING)) else None
    case PreserveUnknown => if Truthy(e.value) then Some(Field(AdditionalProperties, Bool(true))) else None
    case _ => Some(Field(e.key, Transformed(e.key, e.value)))
  }

  /** What each entry writes, in order. */
  function Emissions(s: Json): (r: seq<Option<Field>>)
    requires s.Obj?
    ensures |r| == |s.fields|
    ensures forall i | 0 <= i < |s.fields| :: r[i] == Emitted(s.fields[i])
    decreases s, 1
  {
    seq(|s.fields|, i requires 0 <= i < |s.fields| => Emitted(s.fields[i]))
  }

  /** `nullable: true` adds null to the type that was written, if one was. */
  function Patched(fields: seq<Field>, out: seq<Field>): seq<Field> {
    if IsTrue(fields, NullableKey) && Get(out, TypeKey).Some? then
      Set(out, TypeKey, WithNull(Get(out, TypeKey).value))
    else out
  }

  function WithNull(types: Json): Json {
    if types.Str? then Arr([types, Str("null")]) else Arr(Iterated(types) + [Str("null")])
  }

  /** The conversion of `s` raises an exception. */
  predicate Raises(s: Json)
    decreases s, 2
  {
    match s
    case Arr(items) => exists i | 0 <= i < |items| :: Raises(items[i])
    case Obj(fields) =>
      || (exists i | 0 <= i < |fields| :: EntryRaises(fields[i]))
      || (IsTrue(fields, NullableKey)
          && var t := Get(Written(Emissions(s)), TypeKey);
             t.Some? && (t.value.Null? || t.value.Bool? || t.value.Num?))
    case _ => false
  }

  predicate EntryRaises(e: Field)
    decreases e.value, 3
  {
    var v := e.value;
    match KindOf(e.key)
    case SchemaMap => Truthy(v) && (!v.Obj? || exists i | 0 <= i < |v.fields| :: Raises(v.fields[i].value))
    case SchemaValue => Raises(v)
    case SchemaList => v.Null? || v.Bool? || v.Num? || (v.Arr? && exists i | 0 <= i < |v.items| :: Raises(v.items[i]))
    case _ => false
  }

  /** An exception inside a list, a mapping or one of its entries is not caught on the way out. */
  lemma RaisingSpreads(s: Json, i: nat)
    ensures s.Arr? && i < |s.items| && Raises(s.items[i]) ==> Raises(s)
    ensures s.Obj? && i < |s.fields| && EntryRaises(s.fields[i]) ==> Raises(s)
  {
  }

  lemma RaisingSpreadsFromEntry(e: Field, i: nat)
    ensures KindOf(e.key) == SchemaMap && e.value.Obj? && i < |e.value.fields| && Raises(e.value.fields[i].value) ==>
              EntryRaises(e)
    ensures KindOf(e.key) == SchemaValue && Raises(e.value) ==> EntryRaises(e)
    ensures KindOf(e.key) == SchemaList && e.value.Arr? && i < |e.value.items| && Raises(e.value.items[i]) ==>
              EntryRaises(e)
  {
  }
}
