/** The loops over a struct's fields and a service's inputs. */
module TslService {
  import opened Base
  import opened Tsl

  predicate DistinctNames(fields: seq<Json>) {
    forall i, j | 0 <= i < j < |fields| :: NameOf(fields[i]) != NameOf(fields[j])
  }

  /** A list of fields is fine exactly when each field is and no name is taken. */
  lemma {:induction false} FieldsOkExactlyWhen(py: Py, fields: seq<Json>, seen: set<string>, v: Json)
    requires forall i | 0 <= i < |fields| :: fields[i] < v
    ensures FieldsOk(py, fields, seen, v)
      <==> && (forall i | 0 <= i < |fields| :: FieldOk(py, fields[i], v)) && DistinctNames(fields)
           && forall i | 0 <= i < |fields| :: NameOf(fields[i]) !in seen
  {
    if fields == [] {
    } else {
      var rest, more := fields[1..], seen + {NameOf(fields[0])};
      FieldsOkExactlyWhen(py, rest, more, v);
      assert forall i | 0 <= i < |rest| :: rest[i] == fields[i + 1];
      assert forall i | 0 < i < |fields| :: fields[i] == rest[i - 1];
    }
  }

  /** `_validate_struct_specs`, which remembers the identifiers it has seen. */
  method ValidateStructSpecs(py: Py, fields: seq<Json>, ghost v: Json) returns (ok: bool)
    requires forall i | 0 <= i < |fields| :: fields[i] < v
    ensures ok == FieldsOk(py, fields, {}, v)
    ensures ok <==> (forall i | 0 <= i < |fields| :: FieldOk(py, fields[i], v)) && DistinctNames(fields)
  {
    FieldsOkExactlyWhen(py, fields, {}, v);
    var identifiers: set<string> := {};
    for i := 0 to |fields|
      invariant FieldsOk(py, fields, {}, v) == FieldsOk(py, fields[i..], identifiers, v)
    {
      assert fields[i..][0] == fields[i] && fields[i..][1..] == fields[i + 1..];
      if NameOf(fields[i]) in identifiers || !FieldOk(py, fields[i], v) {
        return false;
      }
      identifiers := identifiers + {NameOf(fields[i])};
    }
    return true;
  }

  /** An input of a service, with its description as it was read. */
  datatype Parameter = Parameter(id: string, required: bool, dataType: Json)

  /** Its description was validated when the service was declared. */
  predicate Usable(py: Py, p: Parameter) {
    ValidType(py, p.dataType)
  }

  function FieldOf(py: Py, p: Parameter): Field
    requires Usable(py, p)
  {
    Field(p.id, p.required, Read(py, p.dataType))
  }

  /** The inputs as the fields of a struct. */
  function AsStruct(py: Py, inputs: seq<Parameter>): Type
    requires forall p | p in inputs :: Usable(py, p)
  {
    StructT(seq(|inputs|, i requires 0 <= i < |inputs| => FieldOf(py, inputs[i])))
  }

  predicate Takes(inputs: seq<Parameter>, id: string) {
    exists p :: p in inputs && p.id == id
  }

  lemma SameNames(py: Py, inputs: seq<Parameter>, id: string)
    requires forall p | p in inputs :: Usable(py, p)
    ensures Takes(inputs, id) <==> exists f :: f in AsStruct(py, inputs).fields && f.id == id
  {
    var fs := AsStruct(py, inputs).fields;
    if Takes(inputs, id) {
      var p :| p in inputs && p.id == id;
      var i :| 0 <= i < |inputs| && inputs[i] == p;
      assert fs[i] in fs;
    } else {
      forall f | f in fs ensures f.id != id {
        var i :| 0 <= i < |fs| && fs[i] == f;
        assert inputs[i] in inputs;
      }
    }
  }

  ghost predicate InputMeans(py: Py, p: Parameter, values: map<string, Json>)
    requires Usable(py, p)
  {
    FieldMeans(py, FieldOf(py, p), JObject(values))
  }

  lemma SameFields(py: Py, inputs: seq<Parameter>, values: map<string, Json>)
    requires forall p | p in inputs :: Usable(py, p)
    ensures FieldsMean(py, AsStruct(py, inputs).fields, JObject(values))
      <==> forall i | 0 <= i < |inputs| :: InputMeans(py, inputs[i], values)
  {
    var fs := AsStruct(py, inputs).fields;
    forall i | 0 <= i < |inputs| ensures fs[i] == FieldOf(py, inputs[i]) && fs[i] in fs {
    }
  }

  lemma StructMeans(py: Py, inputs: seq<Parameter>, values: map<string, Json>)
    requires forall p | p in inputs :: Usable(py, p)
    ensures Means(py, AsStruct(py, inputs), JObject(values))
      <==> (forall k | k in values :: Takes(inputs, k))
           && forall i | 0 <= i < |inputs| :: InputMeans(py, inputs[i], values)
  {
    var fs := AsStruct(py, inputs).fields;
    forall k | k in values ensures Takes(inputs, k) <==> exists f :: f in fs && f.id == k {
      SameNames(py, inputs, k);
    }
    SameFields(py, inputs, values);
    assert Means(py, StructT(fs), JObject(values))
      <==> (forall k | k in values :: exists f :: f in fs && f.id == k) && FieldsMean(py, fs, JObject(values));
  }

  /** One input of a call. */
  function InputOutcome(py: Py, p: Parameter, values: map<string, Json>): Outcome {
    if p.required && p.id !in values then Rejected
    else if p.id in values then CheckValue(py, p.dataType, values[p.id])
    else Accepted
  }

  lemma InputDecides(py: Py, p: Parameter, values: map<string, Json>)
    requires Usable(py, p)
    ensures Tells(InputOutcome(py, p, values), InputMeans(py, p, values), NoNullItem(py, p.dataType))
  {
    if p.id in values {
      Decides(py, p.dataType, values[p.id]);
    }
  }

  ghost predicate HasNullItem(py: Py, p: Parameter) {
    Usable(py, p) && !NoNullItem(py, p.dataType)
  }

  /** The first input that is not accepted decides, if all are known. */
  ghost predicate FirstDecides(py: Py, inputs: seq<Parameter>, values: map<string, Json>, o: Outcome) {
    if exists k :: k in values && !Takes(inputs, k) then o == Rejected
    else if o == Accepted then forall i | 0 <= i < |inputs| :: InputOutcome(py, inputs[i], values) == Accepted
    else exists i :: 0 <= i < |inputs| && StopsAt(py, inputs, values, o, i)
  }

  predicate StopsAt(py: Py, inputs: seq<Parameter>, values: map<string, Json>, o: Outcome, i: nat)
    requires i < |inputs|
  {
    && InputOutcome(py, inputs[i], values) == o
    && forall j | 0 <= j < i :: InputOutcome(py, inputs[j], values) == Accepted
  }

  lemma InputsDecide(py: Py, inputs: seq<Parameter>, values: map<string, Json>, o: Outcome)
    requires (forall p | p in inputs :: Usable(py, p)) && FirstDecides(py, inputs, values, o)
    ensures o == Accept(Means(py, AsStruct(py, inputs), JObject(values)))
         || (o == SchemaError && exists p :: p in inputs && HasNullItem(py, p))
  {
    StructMeans(py, inputs, values);
    forall i | 0 <= i < |inputs|
      ensures Tells(InputOutcome(py, inputs[i], values), InputMeans(py, inputs[i], values), !HasNullItem(py, inputs[i]))
    {
      InputDecides(py, inputs[i], values);
    }
  }

  /** The inputs of a call are checked in order up to the first that is not
      accepted.  A call that is accepted is a value of the struct the declared
      inputs form, one that is rejected is not; and only an input whose own
      description has a null item can make it a schema error. */
  method ValidateInputs(py: Py, inputs: seq<Parameter>, values: map<string, Json>) returns (o: Outcome)
    requires forall p | p in inputs :: Usable(py, p)
    ensures FirstDecides(py, inputs, values, o)
    ensures o == Accept(Means(py, AsStruct(py, inputs), JObject(values)))
         || (o == SchemaError && exists p :: p in inputs && HasNullItem(py, p))
  {
    o := FirstOutcome(py, inputs, values);
    InputsDecide(py, inputs, values, o);
  }

  method FirstOutcome(py: Py, inputs: seq<Parameter>, values: map<string, Json>) returns (o: Outcome)
    ensures FirstDecides(py, inputs, values, o)
  {
    if exists k | k in values :: !Takes(inputs, k) {
      return Rejected;
    }
    for i := 0 to |inputs|
      invariant forall j | 0 <= j < i :: InputOutcome(py, inputs[j], values) == Accepted
    {
      var here := InputOutcome(py, inputs[i], values);
      if here != Accepted {
        assert StopsAt(py, inputs, values, here, i);
        return here;
      }
    }
    return Accepted;
  }
}
