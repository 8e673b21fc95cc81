/** `JsonStringExpectation<TSelf>`: a wrapper around a string. */
module JsonString {
  import opened Wrappers
  import opened ExpectationViolation
  import opened ValueObject
  import opened Json
  import opened Expectation

  const MissingId := "ad774497-425c-4dc1-aaf4-3693831bc14d"
  const ObjectId := "3533e38f-c662-4e8f-894f-4f3f7877fcc5"
  const ArrayId := "27e19871-a8e5-4b87-b8c9-3e8ffaba02eb"

  /** `NullHandle(path, required)`. */
  function NullHandle(path: string, required: bool): Outcome<Option<ValueOf<string>>> {
    Expectation.NullHandle(MissingId, path, required)
  }

  /** `From(token, path, required)` of the wrapper type `kind` whose `Validate` is `validate`. */
  function From(kind: string, t: Token, path: string, required: bool, validate: Hook<string>)
    : (r: Outcome<Option<ValueOf<string>>>)
    ensures r == Built(None) <==> t.Absent() && !required
    ensures r.Violated? && Attributed(validate) ==> AllReportedUnder(r.violations, path)
    ensures r.Violated? && NonSilent(validate) ==> |r.violations| > 0
    ensures r.Built? && r.value.Some? && Filter(validate) ==>
      r.value.value.kind == kind && validate(r.value.value, path) == Built(r.value.value)
    ensures t.Absent() && required ==> r.Violated? && r.violations == [Violation(MissingId, At(path) + "Expected a value, but got nothing.")]
    ensures t.JObject? ==> r == Violated([Violation(ObjectId, At(path) + "Expected a primitive, but got an object.")])
    ensures t.JArray? ==> r == Violated([Violation(ArrayId, At(path) + "Expected a primitive, but got an array.")])
    ensures t.Primitive() ==> r == Present(validate(ValueOf(kind, Text(t)), path))
  {
    match t
    case JNone => NullHandle(path, required)
    case JNull => NullHandle(path, required)
    case JUndefined => NullHandle(path, required)
    case JObject(_) => Fail(ObjectId, path, "Expected a primitive, but got an object.")
    case JArray(_) => Fail(ArrayId, path, "Expected a primitive, but got an array.")
    case _ => Present(validate(ValueObject.From(kind, Text(t)), path))
  }

  /** `ToJToken(path)`: a string leaf holding the value. */
  function ToJToken(w: ValueOf<string>, path: string): (t: Token)
    ensures t.JString? && t.str == w.value
    ensures t.Primitive() && Text(t) == w.value
  {
    JString(w.value)
  }

  /** Emitting a wrapper and reading it back at the same path gives the same
      wrapper, whenever its `Validate` accepts it there (the default always does). */
  lemma RoundTrip(w: ValueOf<string>, path: string, required: bool, validate: Hook<string>)
    requires validate(w, path) == Built(w)
    ensures From(w.kind, ToJToken(w, path), path, required, validate) == Built(Some(w))
  {
  }
}
