/** `JsonDoubleExpectation<TSelf>`: a wrapper around a double. The numeric
    parse is the culture's `double.TryParse`, passed in as `parse`; doubles
    are modelled as reals. */
module JsonDouble {
  import opened Wrappers
  import opened ExpectationViolation
  import opened ValueObject
  import opened Json
  import opened Expectation

  const MissingId := "f6d42808-57e1-496b-b737-9fc05b47d53b"
  const ObjectId := "79574ce9-ca81-432f-891b-dfbbf6220412"
  const ArrayId := "ca48ed16-52ac-49b7-9d09-a5bec3175663"
  const NotDoubleId := "0f9c127a-b5d4-40b8-a94e-c88e2f5b92c0"

  /** `NullHandle(path, required)`. */
  function NullHandle(path: string, required: bool): Outcome<Option<ValueOf<real>>> {
    Expectation.NullHandle(MissingId, path, required)
  }

  /** `ParseAndValidate(token, path)`: the failure quotes the text. */
  function ParseAndValidate(kind: string, t: Token, path: string, validate: Hook<real>, parse: string -> Option<real>)
    : (r: Outcome<Option<ValueOf<real>>>)
    requires t.Primitive()
    ensures r.Violated? && Attributed(validate) ==> AllReportedUnder(r.violations, path)
    ensures r.Violated? && NonSilent(validate) ==> |r.violations| > 0
    ensures r.Built? && r.value.Some? && Filter(validate) ==>
      r.value.value.kind == kind && validate(r.value.value, path) == Built(r.value.value)
    ensures parse(Text(t)).Some? ==> r == Present(validate(ValueOf(kind, parse(Text(t)).value), path))
    ensures parse(Text(t)).None? ==>
      r == Violated([Violation(NotDoubleId, At(path) + ("Expected a double, but got the value \"" + Text(t) + "\""))])
  {
    var s := Text(t);
    match parse(s)
    case Some(d) => Present(validate(ValueObject.From(kind, d), path))
    case None => Fail(NotDoubleId, path, "Expected a double, but got the value \"" + s + "\"")
  }

  /** `From(token, path, required)`. */
  function From(kind: string, t: Token, path: string, required: bool, validate: Hook<real>, parse: string -> Option<real>)
    : (r: Outcome<Option<ValueOf<real>>>)
    ensures r == Built(None) <==> t.Absent() && !required
    ensures r.Violated? && Attributed(validate) ==> AllReportedUnder(r.violations, path)
    ensures r.Violated? && NonSilent(validate) ==> |r.violations| > 0
    ensures r.Built? && r.value.Some? && Filter(validate) ==>
      r.value.value.kind == kind && validate(r.value.value, path) == Built(r.value.value)
    ensures t.Absent() && required ==> r.Violated? && r.violations == [Violation(MissingId, At(path) + "Expected a value, but got nothing.")]
    ensures t.JObject? ==> r == Violated([Violation(ObjectId, At(path) + "Expected a primitive, but got an object.")])
    ensures t.JArray? ==> r == Violated([Violation(ArrayId, At(path) + "Expected a primitive, but got an array.")])
    ensures t.Primitive() ==> r == ParseAndValidate(kind, t, path, validate, parse)
  {
    match t
    case JNone => NullHandle(path, required)
    case JNull => NullHandle(path, required)
    case JUndefined => NullHandle(path, required)
    case JObject(_) => Fail(ObjectId, path, "Expected a primitive, but got an object.")
    case JArray(_) => Fail(ArrayId, path, "Expected a primitive, but got an array.")
    case _ => ParseAndValidate(kind, t, path, validate, parse)
  }

  /** The numeric parse is never attempted on an absent token or a container:
      the outcome there is the same whatever the parse does. */
  lemma ContainersNeverParsed(kind: string, t: Token, path: string, required: bool, validate: Hook<real>,
                              parse1: string -> Option<real>, parse2: string -> Option<real>)
    requires !t.Primitive()
    ensures From(kind, t, path, required, validate, parse1) == From(kind, t, path, required, validate, parse2)
  {
  }

  /** `ToJToken(path)`: a numeric leaf holding the value, whose text is the
      culture's rendering `format` of it. */
  function ToJToken(w: ValueOf<real>, path: string, format: real -> string): (t: Token)
    ensures t.JFloat? && t.text == format(w.value)
  {
    JFloat(format(w.value))
  }

  /** When the culture reads back what it writes, emitting and re-reading a
      wrapper gives the same wrapper. */
  lemma RoundTrip(w: ValueOf<real>, path: string, required: bool, validate: Hook<real>,
                  parse: string -> Option<real>, format: real -> string)
    requires parse(format(w.value)) == Some(w.value)
    requires validate(w, path) == Built(w)
    ensures From(w.kind, ToJToken(w, path, format), path, required, validate, parse) == Built(Some(w))
  {
  }
}
