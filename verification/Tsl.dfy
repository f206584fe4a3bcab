/** The thing specification language: reading type descriptions and checking
    values against them. */
module Tsl {
  import opened Base

  /** Python's `float` of a string and `str` of a value. */
  datatype Py = Py(parse: string -> Option<real>, str: Json -> string)

  datatype Kind = KBool | KInt | KFloat | KDouble | KText | KDate | KEnum | KStruct | KArray

  function KindOf(name: string): Option<Kind> {
    if name == "bool" then Some(KBool)
    else if name == "int" then Some(KInt)
    else if name == "float" then Some(KFloat)
    else if name == "double" then Some(KDouble)
    else if name == "text" then Some(KText)
    else if name == "date" then Some(KDate)
    else if name == "enum" then Some(KEnum)
    else if name == "struct" then Some(KStruct)
    else if name == "array" then Some(KArray)
    else None
  }

  // -------------------------------------------------- reading a description

  const NO_SPECS := JObject(map[])

  function Get(f: map<string, Json>, key: string, default: Json): Json {
    if key in f then f[key] else default
  }

  /** The `specs` after the struct wrapper is undone. */
  function RawSpecs(f: map<string, Json>): Json {
    var specs := Get(f, "specs", NO_SPECS);
    if Get(f, "type", JNull) == JString("struct") && specs.JObject? && Get(specs.fields, "fields", JNull).JList?
    then specs.fields["fields"] else specs
  }

  predicate ObjectsOnly(items: seq<Json>) {
    forall i | 0 <= i < |items| :: items[i].JObject?
  }

  datatype Spec = Spec(kind: Kind, specs: Json)

  /** The declared fields of the model: a kind, and specs that are an object or
      a list of objects. */
  function Shape(v: Json): Option<Spec> {
    match v
    case JString(name) => (match KindOf(name) case None => None case Some(k) => Some(Spec(k, NO_SPECS)))
    case JObject(f) =>
      var name := Get(f, "type", JNull);
      var specs := RawSpecs(f);
      if name.JString? && KindOf(name.s).Some? && (specs.JObject? || (specs.JList? && ObjectsOnly(specs.items)))
      then Some(Spec(KindOf(name.s).value, specs)) else None
    case _ => None
  }

  lemma SpecsAreSmaller(v: Json)
    requires Shape(v).Some?
    ensures Shape(v).value.specs == NO_SPECS || Shape(v).value.specs < v
  {
  }

  predicate IsNumeric(v: Json) { v.JInt? || v.JReal? }

  function NumberIn(py: Py, f: map<string, Json>, key: string): Option<real> {
    match Get(f, key, JNull)
    case JInt(n) => Some(n as real)
    case JReal(x) => Some(x)
    case JString(s) => py.parse(s)
    case _ => None
  }

  predicate NumberOk(py: Py, f: map<string, Json>, key: string) {
    key in f ==> IsNumeric(f[key]) || (f[key].JString? && py.parse(f[key].s).Some?)
  }

  predicate NumericOk(py: Py, f: map<string, Json>) {
    var low, high, step := NumberIn(py, f, "min"), NumberIn(py, f, "max"), NumberIn(py, f, "step");
    && NumberOk(py, f, "min") && NumberOk(py, f, "max") && NumberOk(py, f, "step")
    && (low.Some? && high.Some? ==> low.value <= high.value)
    && (step.Some? ==> step.value > 0.0)
  }

  /** The limit under either of two keys; an explicit null under the first
      hides the second. */
  function LimitOf(f: map<string, Json>, key: string): Json {
    Get(f, key, Get(f, "maxLength", JNull))
  }

  predicate LimitOk(v: Json) {
    v == JNull || (v.JInt? && v.n >= 0)
  }

  /** The item type validation looks at: `itemType` when `item` is missing or null. */
  function ItemOf(f: map<string, Json>): Json {
    if Get(f, "item", JNull) != JNull then f["item"] else Get(f, "itemType", JNull)
  }

  /** The item type that values are checked against: here a null `item` counts. */
  function ItemUsed(f: map<string, Json>): Json {
    Get(f, "item", Get(f, "itemType", JNull))
  }

  predicate ValidType(py: Py, v: Json)
    decreases v, 2
  {
    var t := Shape(v);
    t.Some? && SpecsOk(py, t.value, v)
  }

  predicate SpecsOk(py: Py, t: Spec, ghost v: Json)
    requires t.specs == NO_SPECS || t.specs < v
    decreases v, 1
  {
    match t.kind
    case KBool | KDate => true
    case KInt | KFloat | KDouble => t.specs.JObject? && NumericOk(py, t.specs.fields)
    case KText => t.specs.JObject? && LimitOk(LimitOf(t.specs.fields, "length"))
    case KEnum => t.specs.JObject? && |t.specs.fields| > 0
    case KStruct => t.specs.JList? && t.specs.items != [] && FieldsOk(py, t.specs.items, {}, v)
    case KArray =>
      t.specs.JObject? && ItemOf(t.specs.fields) != JNull && ValidType(py, ItemOf(t.specs.fields))
      && LimitOk(LimitOf(t.specs.fields, "size"))
  }

  /** One field of a struct, apart from its name being new. */
  predicate FieldOk(py: Py, field: Json, ghost v: Json)
    requires field < v
    decreases v, 0, 0
  {
    && field.JObject? && Get(field.fields, "identifier", JNull).JString?
    && "dataType" in field.fields && ValidType(py, field.fields["dataType"])
    && ("required" in field.fields ==> field.fields["required"].JBool?)
  }

  predicate FieldsOk(py: Py, fields: seq<Json>, seen: set<string>, ghost v: Json)
    requires forall i | 0 <= i < |fields| :: fields[i] < v
    decreases v, 0, |fields| + 1
  {
    fields == []
    || (&& FieldOk(py, fields[0], v) && NameOf(fields[0]) !in seen
        && FieldsOk(py, fields[1..], seen + {NameOf(fields[0])}, v))
  }

  function NameOf(field: Json): string {
    if field.JObject? && Get(field.fields, "identifier", JNull).JString? then field.fields["identifier"].s else ""
  }

  // ------------------------------------------------- what a type means

  datatype Bounds = Bounds(low: Option<real>, high: Option<real>, step: Option<real>)

  datatype Type =
    | BoolT | IntT(bounds: Bounds) | NumberT(bounds: Bounds) | TextT(limit: Option<int>) | DateT
    | EnumT(members: set<string>) | StructT(fields: seq<Field>) | ArrayT(item: Type, limit: Option<int>)

  datatype Field = Field(id: string, required: bool, kind: Type)

  predicate Near(x: real, k: int) {
    -0.000000001 <= x - k as real <= 0.000000001
  }

  /** A whole number, up to a billionth. */
  ghost predicate Whole(x: real) {
    exists k: int :: Near(x, k)
  }

  ghost predicate InBounds(b: Bounds, x: real) {
    && (b.low.Some? ==> b.low.value <= x)
    && (b.high.Some? ==> x <= b.high.value)
    && (b.low.Some? && b.step.Some? && b.step.value > 0.0 ==> Whole((x - b.low.value) / b.step.value))
  }

  predicate Within(n: nat, limit: Option<int>) {
    limit.Some? ==> n <= limit.value
  }

  /** The values of a type. */
  ghost predicate Means(py: Py, t: Type, v: Json)
    decreases t
  {
    match t
    case BoolT => v.JBool?
    case IntT(b) => v.JInt? && InBounds(b, v.n as real)
    case NumberT(b) => (v.JInt? && InBounds(b, v.n as real)) || (v.JReal? && InBounds(b, v.x))
    case TextT(limit) => v.JString? && Within(|v.s|, limit)
    case DateT => v.JInt?
    case EnumT(members) => py.str(v) in members
    case StructT(fields) =>
      && v.JObject? && (forall k | k in v.fields :: exists f :: f in fields && f.id == k)
      && forall f | f in fields ::
           (f.required ==> f.id in v.fields) && (f.id in v.fields ==> Means(py, f.kind, v.fields[f.id]))
    case ArrayT(item, limit) =>
      v.JList? && Within(|v.items|, limit) && forall i | 0 <= i < |v.items| :: Means(py, item, v.items[i])
  }

  function BoundsOf(py: Py, f: map<string, Json>): Bounds {
    Bounds(NumberIn(py, f, "min"), NumberIn(py, f, "max"), NumberIn(py, f, "step"))
  }

  function Limit(v: Json): Option<int> {
    if v.JInt? then Some(v.n) else None
  }

  /** The type a valid description stands for. */
  function Read(py: Py, v: Json): Type
    requires ValidType(py, v)
    decreases v, 2
  {
    var t := Shape(v).value;
    assert SpecsOk(py, t, v);
    match t.kind
    case KBool => BoolT
    case KInt => IntT(BoundsOf(py, t.specs.fields))
    case KFloat | KDouble => NumberT(BoundsOf(py, t.specs.fields))
    case KText => TextT(Limit(LimitOf(t.specs.fields, "length")))
    case KDate => DateT
    case KEnum => EnumT(t.specs.fields.Keys)
    case KStruct => StructT(ReadFields(py, t.specs.items, {}, v))
    case KArray => ArrayT(Read(py, ItemOf(t.specs.fields)), Limit(LimitOf(t.specs.fields, "size")))
  }

  predicate IsRequired(field: map<string, Json>) {
    Get(field, "required", JBool(false)) == JBool(true)
  }

  function ReadFields(py: Py, fields: seq<Json>, seen: set<string>, ghost v: Json): seq<Field>
    requires forall i | 0 <= i < |fields| :: fields[i] < v
    requires FieldsOk(py, fields, seen, v)
    decreases v, 0, |fields|
  {
    if fields == [] then []
    else
      assert FieldOk(py, fields[0], v);
      [Field(NameOf(fields[0]), IsRequired(fields[0].fields), Read(py, fields[0].fields["dataType"]))]
      + ReadFields(py, fields[1..], seen + {NameOf(fields[0])}, v)
  }

  // -------------------------------------------------- checking a value

  datatype Outcome = Accepted | Rejected | SchemaError

  function Abs(x: real): real { if x < 0.0 then -x else x }

  function CheckNumber(b: Bounds, x: real): Outcome {
    if b.low.Some? && x < b.low.value then Rejected
    else if b.high.Some? && x > b.high.value then Rejected
    else if b.low.Some? && b.step.Some? && b.step.value > 0.0 then
      var ratio := (x - b.low.value) / b.step.value;
      if Abs(ratio - Round(ratio) as real) > 0.000000001 then Rejected else Accepted
    else Accepted
  }

  function Accept(b: bool): Outcome {
    if b then Accepted else Rejected
  }

  /** Reads the description `v` and checks `value` against it, as it happens
      for every nested description whenever a value is checked. */
  function CheckValue(py: Py, v: Json, value: Json): Outcome
    decreases value, 2
  {
    if !ValidType(py, v) then SchemaError
    else
      var t := Shape(v).value;
      assert SpecsOk(py, t, v);
      match t.kind
      case KBool => Accept(value.JBool?)
      case KInt => if value.JInt? then CheckNumber(BoundsOf(py, t.specs.fields), value.n as real) else Rejected
      case KFloat | KDouble =>
        if value.JInt? then CheckNumber(BoundsOf(py, t.specs.fields), value.n as real)
        else if value.JReal? then CheckNumber(BoundsOf(py, t.specs.fields), value.x)
        else Rejected
      case KText =>
        var limit := LimitOf(t.specs.fields, "length");
        Accept(value.JString? && (limit != JNull ==> |value.s| <= limit.n))
      case KDate => Accept(value.JInt?)
      case KEnum => Accept(py.str(value) in t.specs.fields)
      case KStruct =>
        if !value.JObject? then Rejected
        else if exists k | k in value.fields :: !Declares(t.specs.items, k) then Rejected
        else CheckFields(py, t.specs.items, value)
      case KArray =>
        if !value.JList? then Rejected
        else
          var limit := LimitOf(t.specs.fields, "size");
          if limit != JNull && |value.items| > limit.n then Rejected
          else if !ValidType(py, ItemUsed(t.specs.fields)) then SchemaError
          else CheckItems(py, ItemUsed(t.specs.fields), value, 0)
  }

  predicate Declares(fields: seq<Json>, id: string) {
    exists f :: f in fields && NameOf(f) == id
  }

  function CheckFields(py: Py, fields: seq<Json>, value: Json): Outcome
    requires value.JObject?
    decreases value, 1, |fields|
  {
    if fields == [] then Accepted
    else if !fields[0].JObject? || "dataType" !in fields[0].fields then SchemaError
    else
      var id := NameOf(fields[0]);
      if IsRequired(fields[0].fields) && id !in value.fields then Rejected
      else
        var here := if id in value.fields then CheckValue(py, fields[0].fields["dataType"], value.fields[id])
                    else Accepted;
        if here == Accepted then CheckFields(py, fields[1..], value) else here
  }

  function CheckItems(py: Py, item: Json, value: Json, from: nat): Outcome
    requires value.JList? && from <= |value.items|
    decreases value, 1, |value.items| - from
  {
    if from == |value.items| then Accepted
    else
      var here := CheckValue(py, item, value.items[from]);
      if here == Accepted then CheckItems(py, item, value, from + 1) else here
  }

  // ------------------------------------------------------------ adequacy

  lemma RoundIsNearest(x: real)
    ensures Abs(x - Round(x) as real) <= 0.000000001 <==> Whole(x)
  {
    if Whole(x) {
      var k :| Near(x, k);
      var f := x.Floor;
      assert k <= f - 1 ==> x - k as real >= 1.0;
      assert k >= f + 2 ==> k as real - x >= 1.0;
    }
    assert Abs(x - Round(x) as real) <= 0.000000001 ==> Near(x, Round(x));
  }

  lemma NumberAdequate(b: Bounds, x: real)
    ensures CheckNumber(b, x) == Accept(InBounds(b, x))
  {
    if b.low.Some? && b.step.Some? && b.step.value > 0.0 {
      RoundIsNearest((x - b.low.value) / b.step.value);
    }
  }

  /** No array in the description has an explicit null `item`. */
  predicate NoNullItem(py: Py, v: Json)
    requires ValidType(py, v)
    decreases v, 2
  {
    var t := Shape(v).value;
    assert SpecsOk(py, t, v);
    match t.kind
    case KStruct => NoNullFields(py, t.specs.items, {}, v)
    case KArray => ItemUsed(t.specs.fields) != JNull && NoNullItem(py, ItemOf(t.specs.fields))
    case _ => true
  }

  predicate NoNullFields(py: Py, fields: seq<Json>, seen: set<string>, ghost v: Json)
    requires forall i | 0 <= i < |fields| :: fields[i] < v
    requires FieldsOk(py, fields, seen, v)
    decreases v, 0, |fields|
  {
    fields == []
    || (&& (assert FieldOk(py, fields[0], v); NoNullItem(py, fields[0].fields["dataType"]))
        && NoNullFields(py, fields[1..], seen + {NameOf(fields[0])}, v))
  }

  ghost predicate FieldMeans(py: Py, f: Field, value: Json)
    requires value.JObject?
  {
    (f.required ==> f.id in value.fields) && (f.id in value.fields ==> Means(py, f.kind, value.fields[f.id]))
  }

  ghost predicate FieldsMean(py: Py, fs: seq<Field>, value: Json)
    requires value.JObject?
  {
    forall f | f in fs :: FieldMeans(py, f, value)
  }

  lemma ConsMeans(py: Py, f: Field, fs: seq<Field>, value: Json)
    requires value.JObject?
    ensures FieldsMean(py, [f] + fs, value) <==> FieldMeans(py, f, value) && FieldsMean(py, fs, value)
  {
    assert f in [f] + fs;
    assert forall g | g in fs :: g in [f] + fs;
  }

  lemma {:induction false} NamesRead(py: Py, fields: seq<Json>, seen: set<string>, v: Json, id: string)
    requires (forall i | 0 <= i < |fields| :: fields[i] < v) && FieldsOk(py, fields, seen, v)
    ensures Declares(fields, id) <==> exists f :: f in ReadFields(py, fields, seen, v) && f.id == id
  {
    if fields == [] {
    } else {
      NamesRead(py, fields[1..], seen + {NameOf(fields[0])}, v, id);
      assert fields == [fields[0]] + fields[1..];
      var fs := ReadFields(py, fields, seen, v);
      assert fs[0] in fs && forall g | g in fs[1..] :: g in fs;
    }
  }

  predicate IsNumber(k: Kind) { k == KInt || k == KFloat || k == KDouble }

  lemma NumericAdequate(py: Py, v: Json, value: Json)
    requires ValidType(py, v) && IsNumber(Shape(v).value.kind)
    ensures CheckValue(py, v, value) == Accept(Means(py, Read(py, v), value))
  {
    var t := Shape(v).value;
    assert SpecsOk(py, t, v);
    if value.JInt? {
      NumberAdequate(BoundsOf(py, t.specs.fields), value.n as real);
    } else if value.JReal? {
      NumberAdequate(BoundsOf(py, t.specs.fields), value.x);
    }
  }

  lemma ScalarAdequate(py: Py, v: Json, value: Json)
    requires ValidType(py, v) && Shape(v).value.kind in {KBool, KText, KDate, KEnum}
    ensures CheckValue(py, v, value) == Accept(Means(py, Read(py, v), value))
  {
    assert SpecsOk(py, Shape(v).value, v);
  }

  /** The outcome says whether the value is of the type, or is a schema error,
      which needs a null item somewhere in the description. */
  ghost predicate Tells(o: Outcome, meant: bool, clean: bool) {
    o == Accept(meant) || (o == SchemaError && !clean)
  }

  /** Whatever valid description there is: a value that is accepted is of the
      type, one that is rejected is not, and a schema error comes from a null
      item only. */
  lemma {:induction false} Decides(py: Py, v: Json, value: Json)
    requires ValidType(py, v)
    ensures Tells(CheckValue(py, v, value), Means(py, Read(py, v), value), NoNullItem(py, v))
    decreases value, 2
  {
    match Shape(v).value.kind
    case KStruct => StructDecides(py, v, value);
    case KArray => ArrayDecides(py, v, value);
    case _ =>
      if IsNumber(Shape(v).value.kind) {
        NumericAdequate(py, v, value);
      } else {
        ScalarAdequate(py, v, value);
      }
  }

  lemma {:induction false} StructDecides(py: Py, v: Json, value: Json)
    requires ValidType(py, v) && Shape(v).value.kind == KStruct
    ensures Tells(CheckValue(py, v, value), Means(py, Read(py, v), value), NoNullItem(py, v))
    decreases value, 1
  {
    var t := Shape(v).value;
    assert SpecsOk(py, t, v);
    var fs := ReadFields(py, t.specs.items, {}, v);
    forall k ensures Declares(t.specs.items, k) <==> exists f :: f in fs && f.id == k {
      NamesRead(py, t.specs.items, {}, v, k);
    }
    assert Read(py, v) == StructT(fs);
    if value.JObject? {
      FieldsDecide(py, t.specs.items, {}, v, value);
      assert Means(py, StructT(fs), value)
        <==> (forall k | k in value.fields :: exists f :: f in fs && f.id == k) && FieldsMean(py, fs, value);
    }
  }

  lemma {:induction false} FieldsDecide(py: Py, fields: seq<Json>, seen: set<string>, v: Json, value: Json)
    requires (forall i | 0 <= i < |fields| :: fields[i] < v) && FieldsOk(py, fields, seen, v) && value.JObject?
    ensures Tells(CheckFields(py, fields, value), FieldsMean(py, ReadFields(py, fields, seen, v), value),
                  NoNullFields(py, fields, seen, v))
    decreases value, 0, |fields|
  {
    if fields == [] {
    } else {
      assert FieldOk(py, fields[0], v);
      var id := NameOf(fields[0]);
      FieldsDecide(py, fields[1..], seen + {id}, v, value);
      var fs := ReadFields(py, fields, seen, v);
      ConsMeans(py, fs[0], ReadFields(py, fields[1..], seen + {id}, v), value);
      if id in value.fields {
        Decides(py, fields[0].fields["dataType"], value.fields[id]);
      }
    }
  }

  lemma {:induction false} ArrayDecides(py: Py, v: Json, value: Json)
    requires ValidType(py, v) && Shape(v).value.kind == KArray
    ensures Tells(CheckValue(py, v, value), Means(py, Read(py, v), value), NoNullItem(py, v))
    decreases value, 1
  {
    var t := Shape(v).value;
    assert SpecsOk(py, t, v);
    if value.JList? {
      ItemsDecide(py, ItemOf(t.specs.fields), value, 0);
    }
  }

  lemma {:induction false} ItemsDecide(py: Py, item: Json, value: Json, from: nat)
    requires ValidType(py, item) && value.JList? && from <= |value.items|
    ensures Tells(CheckItems(py, item, value, from),
                  forall i | from <= i < |value.items| :: Means(py, Read(py, item), value.items[i]),
                  NoNullItem(py, item))
    decreases value, 0, |value.items| - from
  {
    if from == |value.items| {
    } else {
      Decides(py, item, value.items[from]);
      ItemsDecide(py, item, value, from + 1);
    }
  }

  /** A valid description without null items never raises a schema error, and
      accepts exactly the values of the type it stands for. */
  lemma Adequate(py: Py, v: Json, value: Json)
    requires ValidType(py, v) && NoNullItem(py, v)
    ensures CheckValue(py, v, value) == Accept(Means(py, Read(py, v), value))
  {
    Decides(py, v, value);
  }

  // ------------------------------------- where a null item comes to light

  /** `u` is the item type or a field's type directly inside `v`. */
  ghost predicate Nested(u: Json, v: Json) {
    && Shape(v).Some?
    && var t := Shape(v).value;
       || (t.kind == KArray && t.specs.JObject? && u == ItemOf(t.specs.fields))
       || (t.kind == KStruct && t.specs.JList?
           && exists f :: f in t.specs.items && f.JObject? && "dataType" in f.fields && f.fields["dataType"] == u)
  }

  /** Descriptions, each directly inside the one before. */
  ghost predicate IsPath(path: seq<Json>) {
    path != [] && forall i, j | 0 <= i && j == i + 1 < |path| :: Nested(path[j], path[i])
  }

  lemma {:induction false} FieldKeeps(py: Py, fields: seq<Json>, seen: set<string>, v: Json, f: Json)
    requires (forall i | 0 <= i < |fields| :: fields[i] < v) && FieldsOk(py, fields, seen, v)
    requires NoNullFields(py, fields, seen, v) && f in fields
    ensures FieldOk(py, f, v) && NoNullItem(py, f.fields["dataType"])
  {
    assert FieldOk(py, fields[0], v);
    if f != fields[0] {
      assert fields == [fields[0]] + fields[1..];
      FieldKeeps(py, fields[1..], seen + {NameOf(fields[0])}, v, f);
    }
  }

  lemma NestedKeeps(py: Py, u: Json, v: Json)
    requires ValidType(py, v) && NoNullItem(py, v) && Nested(u, v)
    ensures ValidType(py, u) && NoNullItem(py, u)
  {
    var t := Shape(v).value;
    assert SpecsOk(py, t, v);
    if t.kind == KStruct {
      var f :| f in t.specs.items && f.JObject? && "dataType" in f.fields && f.fields["dataType"] == u;
      FieldKeeps(py, t.specs.items, {}, v, f);
    }
  }

  lemma {:induction false} PathKeeps(py: Py, path: seq<Json>)
    requires IsPath(path) && ValidType(py, path[0]) && NoNullItem(py, path[0])
    ensures ValidType(py, path[|path| - 1]) && NoNullItem(py, path[|path| - 1])
  {
    if |path| == 1 {
    } else {
      NestedKeeps(py, path[1], path[0]);
      PathKeeps(py, path[1..]);
    }
  }

  lemma {:induction false} NullInField(py: Py, fields: seq<Json>, seen: set<string>, v: Json) returns (f: Json)
    requires (forall i | 0 <= i < |fields| :: fields[i] < v) && FieldsOk(py, fields, seen, v)
    requires !NoNullFields(py, fields, seen, v)
    ensures f in fields && f < v && FieldOk(py, f, v) && !NoNullItem(py, f.fields["dataType"])
  {
    assert FieldOk(py, fields[0], v);
    if NoNullItem(py, fields[0].fields["dataType"]) {
      f := NullInField(py, fields[1..], seen + {NameOf(fields[0])}, v);
    } else {
      f := fields[0];
    }
  }

  /** A value list under an explicit null `item` meets a schema error exactly
      when the size lets it through. */
  lemma NullItemFailsExactlyWhen(py: Py, v: Json, f: map<string, Json>, value: Json)
    requires ValidType(py, v) && Shape(v) == Some(Spec(KArray, JObject(f))) && ItemUsed(f) == JNull
    ensures CheckValue(py, v, value) == SchemaError
       <==> value.JList? && Within(|value.items|, Limit(LimitOf(f, "size")))
    ensures CheckValue(py, v, value) != Accepted
  {
    assert SpecsOk(py, Shape(v).value, v);
  }

  /** The last description of the path cannot check the value. */
  ghost predicate FailsAtEnd(py: Py, path: seq<Json>, value: Json) {
    path != [] && CheckValue(py, path[|path| - 1], value) == SchemaError
  }

  lemma {:induction false} NullItemFails(py: Py, v: Json) returns (path: seq<Json>, value: Json)
    requires ValidType(py, v) && !NoNullItem(py, v)
    ensures IsPath(path) && path[0] == v && FailsAtEnd(py, path, value)
    decreases v
  {
    var t := Shape(v).value;
    assert SpecsOk(py, t, v);
    if t.kind == KArray && ItemUsed(t.specs.fields) == JNull {
      path, value := [v], JList([]);
      NullItemFailsExactlyWhen(py, v, t.specs.fields, value);
    } else if t.kind == KArray {
      path, value := NullItemFails(py, ItemOf(t.specs.fields));
      path := [v] + path;
    } else {
      var f := NullInField(py, t.specs.items, {}, v);
      path, value := NullItemFails(py, f.fields["dataType"]);
      path := [v] + path;
    }
  }

  /** A valid description and all descriptions inside it check every value
      without a schema error exactly when no array has a null `item`. */
  lemma SchemaErrorFreeExactlyWhen(py: Py, v: Json)
    requires ValidType(py, v)
    ensures NoNullItem(py, v)
      <==> forall path, value | IsPath(path) && path[0] == v :: !FailsAtEnd(py, path, value)
  {
    if NoNullItem(py, v) {
      forall path, value | IsPath(path) && path[0] == v
        ensures !FailsAtEnd(py, path, value)
      {
        PathKeeps(py, path);
        Adequate(py, path[|path| - 1], value);
      }
    } else {
      var path, value := NullItemFails(py, v);
    }
  }

  /** Such a description exists: an array of integers with `item` null. */
  lemma NullItemExample(py: Py)
    ensures var v := JObject(map["type" := JString("array"),
                                 "specs" := JObject(map["item" := JNull, "itemType" := JString("int")])]);
      ValidType(py, v) && CheckValue(py, v, JList([])) == SchemaError
  {
    var specs := map["item" := JNull, "itemType" := JString("int")];
    var v := JObject(map["type" := JString("array"), "specs" := JObject(specs)]);
    assert ItemOf(specs) == JString("int");
    assert SpecsOk(py, Spec(KInt, NO_SPECS), JString("int"));
    assert ValidType(py, JString("int"));
    assert Shape(v) == Some(Spec(KArray, JObject(specs)));
    SpecsAreSmaller(v);
    assert SpecsOk(py, Spec(KArray, JObject(specs)), v);
    NullItemFailsExactlyWhen(py, v, specs, JList([]));
  }
}
