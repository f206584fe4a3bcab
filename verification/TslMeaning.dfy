/** Which descriptions are valid and which values fit them, in terms of the
    keys of the description alone. */
module TslMeaning {
  import opened Base
  import opened Tsl
  import opened TslService

  // ------------------------------------------------- the keys of a description

  /** A description is a type's name or an object that has it under "type". */
  predicate HasType(v: Json, name: string) {
    v == JString(name) || (v.JObject? && "type" in v.fields && v.fields["type"] == JString(name))
  }

  function SpecsIn(v: Json): Json {
    if v.JObject? && "specs" in v.fields then v.fields["specs"] else JObject(map[])
  }

  function KeysIn(v: Json): map<string, Json> {
    if SpecsIn(v).JObject? then SpecsIn(v).fields else map[]
  }

  /** The fields of a struct: its specs, or what they have under "fields". */
  function FieldsIn(v: Json): seq<Json> {
    if SpecsIn(v).JList? then SpecsIn(v).items
    else if "fields" in KeysIn(v) && KeysIn(v)["fields"].JList? then KeysIn(v)["fields"].items
    else []
  }

  /** The number under a key: a number, or a text that Python reads as one. */
  ghost predicate NumberUnder(py: Py, f: map<string, Json>, key: string, x: real) {
    && key in f
    && match f[key]
       case JInt(n) => x == n as real
       case JReal(y) => x == y
       case JString(s) => py.parse(s) == Some(x)
       case _ => false
  }

  predicate Identifies(field: Json, k: string) {
    field.JObject? && "identifier" in field.fields && field.fields["identifier"] == JString(k)
  }

  predicate Demands(field: Json) {
    field.JObject? && "required" in field.fields && field.fields["required"] == JBool(true)
  }

  // ----------------------------------------------------- what a value must be

  /** `k` steps above the minimum, up to a billionth of a step. */
  predicate StepsAway(x: real, low: real, step: real, k: int)
    requires step > 0.0
  {
    -0.000000001 <= (x - low) / step - k as real <= 0.000000001
  }

  /** At least every minimum, at most every maximum, and, with a minimum and a
      step, a whole number of steps away up to a billionth. */
  ghost predicate FitsNumber(py: Py, f: map<string, Json>, x: real) {
    && (forall low | NumberUnder(py, f, "min", low) :: low <= x)
    && (forall high | NumberUnder(py, f, "max", high) :: x <= high)
    && (forall low, step | NumberUnder(py, f, "min", low) && NumberUnder(py, f, "step", step) ::
          step > 0.0 ==> exists k: int :: StepsAway(x, low, step, k))
  }

  /** Within the number under the key, or under "maxLength" if the key is missing. */
  predicate FitsLimit(f: map<string, Json>, key: string, n: nat) {
    && (key in f && f[key].JInt? ==> n <= f[key].n)
    && (key !in f && "maxLength" in f && f["maxLength"].JInt? ==> n <= f["maxLength"].n)
  }

  ghost predicate Fits(py: Py, v: Json, value: Json)
    decreases value, 1
  {
    if HasType(v, "bool") then value.JBool?
    else if HasType(v, "int") then value.JInt? && FitsNumber(py, KeysIn(v), value.n as real)
    else if HasType(v, "float") || HasType(v, "double") then
      || (value.JInt? && FitsNumber(py, KeysIn(v), value.n as real))
      || (value.JReal? && FitsNumber(py, KeysIn(v), value.x))
    else if HasType(v, "text") then value.JString? && FitsLimit(KeysIn(v), "length", |value.s|)
    else if HasType(v, "date") then value.JInt?
    else if HasType(v, "enum") then py.str(value) in KeysIn(v)
    else if HasType(v, "struct") then
      && value.JObject?
      && (forall k | k in value.fields :: exists field :: field in FieldsIn(v) && Identifies(field, k))
      && forall field | field in FieldsIn(v) :: FitsField(py, field, value)
    else
      && HasType(v, "array") && value.JList? && FitsLimit(KeysIn(v), "size", |value.items|)
      && if "item" in KeysIn(v) then
           && KeysIn(v)["item"] != JNull
           && forall i | 0 <= i < |value.items| :: Fits(py, KeysIn(v)["item"], value.items[i])
         else
           "itemType" in KeysIn(v)
           && forall i | 0 <= i < |value.items| :: Fits(py, KeysIn(v)["itemType"], value.items[i])
  }

  /** What a struct's field asks of the value: to be there if it is required,
      and to fit if it is there. */
  ghost predicate FitsField(py: Py, field: Json, value: Json)
    requires value.JObject?
    decreases value, 0
  {
    forall k | Identifies(field, k) ::
      && (Demands(field) ==> k in value.fields)
      && (k in value.fields ==> "dataType" in field.fields && Fits(py, field.fields["dataType"], value.fields[k]))
  }

  // --------------------------------------------------- shapes and the keys

  lemma ShapeIs(v: Json)
    requires Shape(v).Some?
    ensures var k := Shape(v).value.kind;
            && (k == KBool <==> HasType(v, "bool")) && (k == KInt <==> HasType(v, "int"))
            && (k == KFloat <==> HasType(v, "float")) && (k == KDouble <==> HasType(v, "double"))
            && (k == KText <==> HasType(v, "text")) && (k == KDate <==> HasType(v, "date"))
            && (k == KEnum <==> HasType(v, "enum")) && (k == KStruct <==> HasType(v, "struct"))
            && (k == KArray <==> HasType(v, "array"))
  {
  }

  lemma SpecsAre(v: Json)
    requires Shape(v).Some?
    ensures Shape(v).value.kind != KStruct && Shape(v).value.specs.JObject? ==> Shape(v).value.specs.fields == KeysIn(v)
    ensures Shape(v).value.kind == KStruct && Shape(v).value.specs.JList? ==> Shape(v).value.specs.items == FieldsIn(v)
  {
  }

  lemma NumberIs(py: Py, f: map<string, Json>, key: string)
    ensures forall x :: NumberUnder(py, f, key, x) <==> NumberIn(py, f, key) == Some(x)
  {
  }

  lemma StepsAre(x: real, low: real, step: real)
    requires step > 0.0
    ensures Whole((x - low) / step) <==> exists k: int :: StepsAway(x, low, step, k)
  {
    forall k: int ensures Near((x - low) / step, k) <==> StepsAway(x, low, step, k) {
    }
    if Whole((x - low) / step) {
      var k: int :| Near((x - low) / step, k);
      assert StepsAway(x, low, step, k);
    }
    if k: int :| StepsAway(x, low, step, k) {
      assert Near((x - low) / step, k);
    }
  }

  lemma BoundsFit(py: Py, f: map<string, Json>, x: real)
    ensures CheckNumber(BoundsOf(py, f), x) == Accept(FitsNumber(py, f, x))
  {
    NumberIs(py, f, "min");
    NumberIs(py, f, "max");
    NumberIs(py, f, "step");
    var b := BoundsOf(py, f);
    NumberAdequate(b, x);
    assert b.low.Some? ==> NumberUnder(py, f, "min", b.low.value);
    assert b.high.Some? ==> NumberUnder(py, f, "max", b.high.value);
    assert b.step.Some? ==> NumberUnder(py, f, "step", b.step.value);
    if b.low.Some? && b.step.Some? && b.step.value > 0.0 {
      StepsAre(x, b.low.value, b.step.value);
    }
  }

  lemma LimitFits(f: map<string, Json>, key: string, n: nat)
    requires LimitOk(LimitOf(f, key))
    ensures FitsLimit(f, key, n) <==> (LimitOf(f, key) != JNull ==> n <= LimitOf(f, key).n)
  {
  }

  lemma NumbersFit(py: Py, v: Json, value: Json)
    requires ValidType(py, v) && IsNumber(Shape(v).value.kind)
    ensures CheckValue(py, v, value) == Accept(Fits(py, v, value))
  {
    var t := Shape(v).value;
    assert SpecsOk(py, t, v);
    ShapeIs(v);
    SpecsAre(v);
    if value.JInt? {
      BoundsFit(py, KeysIn(v), value.n as real);
    } else if value.JReal? {
      BoundsFit(py, KeysIn(v), value.x);
    }
  }

  lemma ScalarsFit(py: Py, v: Json, value: Json)
    requires ValidType(py, v) && Shape(v).value.kind in {KBool, KText, KDate, KEnum}
    ensures CheckValue(py, v, value) == Accept(Fits(py, v, value))
  {
    assert SpecsOk(py, Shape(v).value, v);
    ShapeIs(v);
    SpecsAre(v);
    if Shape(v).value.kind == KText && value.JString? {
      LimitFits(KeysIn(v), "length", |value.s|);
    }
  }

  // ------------------------------------------------------------- acceptance

  lemma FieldFits(py: Py, field: Json, v: Json, value: Json)
    requires field < v && FieldOk(py, field, v) && value.JObject?
    ensures forall k :: Identifies(field, k) <==> k == NameOf(field)
    ensures Demands(field) <==> IsRequired(field.fields)
    ensures FitsField(py, field, value)
      <==> && (IsRequired(field.fields) ==> NameOf(field) in value.fields)
           && (NameOf(field) in value.fields ==> Fits(py, field.fields["dataType"], value.fields[NameOf(field)]))
  {
    assert Identifies(field, NameOf(field));
  }

  lemma {:induction false} FieldsFit(py: Py, fields: seq<Json>, seen: set<string>, v: Json, value: Json)
    requires (forall i | 0 <= i < |fields| :: fields[i] < v) && FieldsOk(py, fields, seen, v) && value.JObject?
    ensures CheckFields(py, fields, value) == Accepted <==> forall f | f in fields :: FitsField(py, f, value)
    decreases value, 0, |fields|
  {
    if fields == [] {
    } else {
      var id := NameOf(fields[0]);
      assert FieldOk(py, fields[0], v);
      assert fields == [fields[0]] + fields[1..];
      FieldFits(py, fields[0], v, value);
      FieldsFit(py, fields[1..], seen + {id}, v, value);
      if id in value.fields {
        AcceptedExactlyWhen(py, fields[0].fields["dataType"], value.fields[id]);
      }
    }
  }

  lemma {:induction false} NamesAre(py: Py, fields: seq<Json>, seen: set<string>, v: Json, k: string)
    requires (forall i | 0 <= i < |fields| :: fields[i] < v) && FieldsOk(py, fields, seen, v)
    ensures Declares(fields, k) <==> exists f :: f in fields && Identifies(f, k)
  {
    forall f | f in fields ensures Identifies(f, k) <==> NameOf(f) == k {
      FieldsOkExactlyWhen(py, fields, seen, v);
      var i :| 0 <= i < |fields| && fields[i] == f;
      assert FieldOk(py, fields[i], v);
    }
  }

  lemma {:induction false} StructFits(py: Py, v: Json, value: Json)
    requires ValidType(py, v) && Shape(v).value.kind == KStruct
    ensures CheckValue(py, v, value) == Accepted <==> Fits(py, v, value)
    decreases value, 1
  {
    var t := Shape(v).value;
    assert SpecsOk(py, t, v);
    ShapeIs(v);
    SpecsAre(v);
    if value.JObject? {
      forall k ensures Declares(t.specs.items, k) <==> exists f :: f in FieldsIn(v) && Identifies(f, k) {
        NamesAre(py, t.specs.items, {}, v, k);
      }
      FieldsFit(py, t.specs.items, {}, v, value);
    }
  }

  lemma {:induction false} ItemsFit(py: Py, item: Json, value: Json, from: nat)
    requires ValidType(py, item) && value.JList? && from <= |value.items|
    ensures CheckItems(py, item, value, from) == Accepted
       <==> forall i | from <= i < |value.items| :: Fits(py, item, value.items[i])
    decreases value, 0, |value.items| - from
  {
    if from == |value.items| {
    } else {
      AcceptedExactlyWhen(py, item, value.items[from]);
      ItemsFit(py, item, value, from + 1);
    }
  }

  lemma ArrayShape(py: Py, v: Json)
    requires ValidType(py, v) && Shape(v).value.kind == KArray
    ensures HasType(v, "array") && Shape(v).value.specs == JObject(KeysIn(v)) && LimitOk(LimitOf(KeysIn(v), "size"))
    ensures ItemOf(KeysIn(v)) != JNull && ValidType(py, ItemOf(KeysIn(v)))
  {
    assert SpecsOk(py, Shape(v).value, v);
    ShapeIs(v);
    SpecsAre(v);
  }

  lemma ArrayChecks(py: Py, v: Json, value: Json)
    requires ValidType(py, v) && Shape(v).value.kind == KArray && value.JList?
    ensures CheckValue(py, v, value) == Accepted
       <==> && FitsLimit(KeysIn(v), "size", |value.items|) && ItemUsed(KeysIn(v)) != JNull
            && CheckItems(py, ItemUsed(KeysIn(v)), value, 0) == Accepted
  {
    ArrayShape(py, v);
    LimitFits(KeysIn(v), "size", |value.items|);
  }

  lemma {:induction false} ArrayFits(py: Py, v: Json, value: Json)
    requires ValidType(py, v) && Shape(v).value.kind == KArray
    ensures CheckValue(py, v, value) == Accepted <==> Fits(py, v, value)
    decreases value, 1
  {
    ArrayShape(py, v);
    if value.JList? {
      ArrayChecks(py, v, value);
      if ItemUsed(KeysIn(v)) != JNull {
        ItemsFit(py, ItemUsed(KeysIn(v)), value, 0);
      }
    }
  }

  /** A valid description accepts exactly the values that fit its keys. */
  lemma {:induction false} AcceptedExactlyWhen(py: Py, v: Json, value: Json)
    requires ValidType(py, v)
    ensures CheckValue(py, v, value) == Accepted <==> Fits(py, v, value)
    decreases value, 2
  {
    match Shape(v).value.kind
    case KStruct => StructFits(py, v, value);
    case KArray => ArrayFits(py, v, value);
    case _ =>
      if IsNumber(Shape(v).value.kind) {
        NumbersFit(py, v, value);
      } else {
        ScalarsFit(py, v, value);
      }
  }

  // --------------------------------------------------------------- validity

  /** Nothing is said about a number that is no number. */
  ghost predicate SaysNumber(py: Py, f: map<string, Json>, key: string) {
    key in f ==> exists x :: NumberUnder(py, f, key, x)
  }

  ghost predicate SaysNumbers(py: Py, f: map<string, Json>) {
    && SaysNumber(py, f, "min") && SaysNumber(py, f, "max") && SaysNumber(py, f, "step")
    && (forall low, high | NumberUnder(py, f, "min", low) && NumberUnder(py, f, "max", high) :: low <= high)
    && (forall step | NumberUnder(py, f, "step", step) :: step > 0.0)
  }

  predicate SaysLimit(f: map<string, Json>, key: string) {
    && (key in f ==> f[key] == JNull || (f[key].JInt? && f[key].n >= 0))
    && (key !in f && "maxLength" in f ==> f["maxLength"] == JNull || (f["maxLength"].JInt? && f["maxLength"].n >= 0))
  }

  /** The specs are missing or are an object. */
  predicate HasObject(v: Json) {
    SpecsIn(v).JObject?
  }

  predicate ListOfObjects(v: Json) {
    v.JList? && forall i | 0 <= i < |v.items| :: v.items[i].JObject?
  }

  /** The item type of an array: "itemType" when "item" is missing or null. */
  function ItemIn(f: map<string, Json>): Json {
    if "item" in f && f["item"] != JNull then f["item"] else if "itemType" in f then f["itemType"] else JNull
  }

  ghost predicate WellFormed(py: Py, v: Json)
    decreases v, 1
  {
    if HasType(v, "bool") || HasType(v, "date") then HasObject(v) || ListOfObjects(SpecsIn(v))
    else if HasType(v, "int") || HasType(v, "float") || HasType(v, "double") then
      HasObject(v) && SaysNumbers(py, KeysIn(v))
    else if HasType(v, "text") then HasObject(v) && SaysLimit(KeysIn(v), "length")
    else if HasType(v, "enum") then HasObject(v) && KeysIn(v) != map[]
    else if HasType(v, "struct") then
      && v.JObject? && FieldsIn(v) != []
      && (forall i | 0 <= i < |FieldsIn(v)| :: FieldsIn(v)[i] < v && WellFormedField(py, FieldsIn(v)[i]))
      && forall i, j, k | 0 <= i < j < |FieldsIn(v)| && Identifies(FieldsIn(v)[i], k) :: !Identifies(FieldsIn(v)[j], k)
    else
      && HasType(v, "array") && HasObject(v) && SaysLimit(KeysIn(v), "size")
      && ItemIn(KeysIn(v)) < v && ItemIn(KeysIn(v)) != JNull && WellFormed(py, ItemIn(KeysIn(v)))
  }

  ghost predicate WellFormedField(py: Py, field: Json)
    decreases field, 2
  {
    && field.JObject? && (exists k :: Identifies(field, k))
    && "dataType" in field.fields && WellFormed(py, field.fields["dataType"])
    && ("required" in field.fields ==> field.fields["required"].JBool?)
  }

  lemma NumbersOk(py: Py, f: map<string, Json>)
    ensures NumericOk(py, f) <==> SaysNumbers(py, f)
  {
    NumberIs(py, f, "min");
    NumberIs(py, f, "max");
    NumberIs(py, f, "step");
    NumberSaid(py, f, "min");
    NumberSaid(py, f, "max");
    NumberSaid(py, f, "step");
    var low, high, step := NumberIn(py, f, "min"), NumberIn(py, f, "max"), NumberIn(py, f, "step");
    assert low.Some? ==> NumberUnder(py, f, "min", low.value);
    assert high.Some? ==> NumberUnder(py, f, "max", high.value);
    assert step.Some? ==> NumberUnder(py, f, "step", step.value);
  }

  lemma NumberSaid(py: Py, f: map<string, Json>, key: string)
    ensures NumberOk(py, f, key) <==> SaysNumber(py, f, key)
  {
    NumberIs(py, f, key);
    var x := NumberIn(py, f, key);
    assert x.Some? ==> NumberUnder(py, f, key, x.value);
  }

  lemma LimitSaid(f: map<string, Json>, key: string)
    ensures LimitOk(LimitOf(f, key)) <==> SaysLimit(f, key)
  {
  }

  lemma ItemIs(f: map<string, Json>)
    ensures ItemOf(f) == ItemIn(f)
  {
  }

  /** Everything inside a description is smaller. */
  lemma PartsAreSmaller(v: Json)
    requires v.JObject?
    ensures forall i | 0 <= i < |FieldsIn(v)| :: FieldsIn(v)[i] < v
    ensures ItemIn(KeysIn(v)) != JNull ==> ItemIn(KeysIn(v)) < v
  {
    assert SpecsIn(v) == JObject(map[]) || SpecsIn(v) < v;
  }

  /** A description with a shape has one of the nine types. */
  lemma TypedHasShape(v: Json)
    ensures Shape(v).Some? ==>
              && (HasType(v, "bool") || HasType(v, "int") || HasType(v, "float") || HasType(v, "double")
                  || HasType(v, "text") || HasType(v, "date") || HasType(v, "enum") || HasType(v, "struct")
                  || HasType(v, "array"))
  {
  }

  lemma ScalarsValid(py: Py, v: Json)
    requires !HasType(v, "struct") && !HasType(v, "array")
    ensures ValidType(py, v) <==> WellFormed(py, v)
  {
    if Shape(v).Some? {
      ShapeIs(v);
      SpecsAre(v);
      NumbersOk(py, KeysIn(v));
      LimitSaid(KeysIn(v), "length");
    }
  }

  lemma {:induction false} ValidExactlyWhen(py: Py, v: Json)
    ensures ValidType(py, v) <==> WellFormed(py, v)
    decreases v, 3
  {
    if HasType(v, "struct") {
      StructValid(py, v);
    } else if HasType(v, "array") {
      ArrayValid(py, v);
    } else {
      ScalarsValid(py, v);
    }
  }

  lemma {:induction false} FieldValid(py: Py, field: Json, v: Json)
    requires field < v
    ensures FieldOk(py, field, v) <==> WellFormedField(py, field)
    decreases field, 2
  {
    if field.JObject? && "dataType" in field.fields {
      ValidExactlyWhen(py, field.fields["dataType"]);
    }
    if field.JObject? && Get(field.fields, "identifier", JNull).JString? {
      assert Identifies(field, field.fields["identifier"].s);
    }
  }

  lemma ArrayIsValid(py: Py, v: Json)
    requires HasType(v, "array")
    ensures ValidType(py, v) <==> && HasObject(v) && ItemOf(KeysIn(v)) != JNull && ValidType(py, ItemOf(KeysIn(v)))
                                  && LimitOk(LimitOf(KeysIn(v), "size"))
  {
    if Shape(v).Some? {
      ShapeIs(v);
      SpecsAre(v);
    }
  }

  lemma {:induction false} ArrayValid(py: Py, v: Json)
    requires HasType(v, "array")
    ensures ValidType(py, v) <==> WellFormed(py, v)
    decreases v, 2
  {
    ArrayIsValid(py, v);
    ItemIs(KeysIn(v));
    LimitSaid(KeysIn(v), "size");
    if v.JObject? && ItemIn(KeysIn(v)) != JNull {
      PartsAreSmaller(v);
      ValidExactlyWhen(py, ItemIn(KeysIn(v)));
    }
  }

  /** A struct is valid exactly when it lists fields and they are. */
  lemma StructShape(py: Py, v: Json)
    requires HasType(v, "struct") && v.JObject? && forall i | 0 <= i < |FieldsIn(v)| :: FieldsIn(v)[i] < v
    requires FieldsOk(py, FieldsIn(v), {}, v) ==> ObjectsOnly(FieldsIn(v))
    ensures ValidType(py, v) <==> FieldsIn(v) != [] && FieldsOk(py, FieldsIn(v), {}, v)
  {
    if Shape(v).Some? {
      ShapeIs(v);
      SpecsAre(v);
    }
  }

  lemma {:induction false} StructFieldsValid(py: Py, v: Json)
    requires v.JObject? && forall i | 0 <= i < |FieldsIn(v)| :: FieldsIn(v)[i] < v
    ensures FieldsOk(py, FieldsIn(v), {}, v)
      <==> && (forall i | 0 <= i < |FieldsIn(v)| :: WellFormedField(py, FieldsIn(v)[i]))
           && (forall i, j, k | 0 <= i < j < |FieldsIn(v)| && Identifies(FieldsIn(v)[i], k) ::
                 !Identifies(FieldsIn(v)[j], k))
    ensures FieldsOk(py, FieldsIn(v), {}, v) ==> ObjectsOnly(FieldsIn(v))
    decreases v, 1
  {
    var fields := FieldsIn(v);
    forall i | 0 <= i < |fields| ensures FieldOk(py, fields[i], v) <==> WellFormedField(py, fields[i]) {
      FieldValid(py, fields[i], v);
    }
    FieldsOkExactlyWhen(py, fields, {}, v);
    NamesDistinct(py, fields);
  }

  lemma {:induction false} StructValid(py: Py, v: Json)
    requires HasType(v, "struct")
    ensures ValidType(py, v) <==> WellFormed(py, v)
    decreases v, 2
  {
    if v.JObject? {
      PartsAreSmaller(v);
      StructFieldsValid(py, v);
      StructShape(py, v);
    }
  }

  lemma NamesDistinct(py: Py, fields: seq<Json>)
    ensures (forall i | 0 <= i < |fields| :: WellFormedField(py, fields[i])) ==>
              (DistinctNames(fields) <==> forall i, j, k | 0 <= i < j < |fields| && Identifies(fields[i], k) ::
                                            !Identifies(fields[j], k))
  {
    if forall i | 0 <= i < |fields| :: WellFormedField(py, fields[i]) {
      forall i | 0 <= i < |fields| ensures Identifies(fields[i], NameOf(fields[i])) {
        assert WellFormedField(py, fields[i]);
        var k :| Identifies(fields[i], k);
      }
    }
  }

  // ------------------------------------------------------- a service's inputs

  /** What one declared input asks of a call. */
  ghost predicate FitsInput(py: Py, p: Parameter, values: map<string, Json>) {
    (p.required ==> p.id in values) && (p.id in values ==> Fits(py, p.dataType, values[p.id]))
  }

  lemma InputFits(py: Py, p: Parameter, values: map<string, Json>)
    requires Usable(py, p)
    ensures InputOutcome(py, p, values) == Accepted <==> FitsInput(py, p, values)
  {
    if p.id in values {
      AcceptedExactlyWhen(py, p.dataType, values[p.id]);
    }
  }

  /** A call is accepted exactly when it names declared inputs only, all that
      are required, and each value fits its description. */
  lemma InputsAcceptedExactlyWhen(py: Py, inputs: seq<Parameter>, values: map<string, Json>, o: Outcome)
    requires (forall p | p in inputs :: Usable(py, p)) && FirstDecides(py, inputs, values, o)
    ensures o == Accepted
      <==> && (forall k | k in values :: exists p :: p in inputs && p.id == k)
           && forall i | 0 <= i < |inputs| :: FitsInput(py, inputs[i], values)
  {
    forall i | 0 <= i < |inputs|
      ensures InputOutcome(py, inputs[i], values) == Accepted <==> FitsInput(py, inputs[i], values)
    {
      InputFits(py, inputs[i], values);
    }
  }
}
