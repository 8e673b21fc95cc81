/** `JsonEnumExpectation<TEnum, TSelf>`: a wrapper around an enum member,
    given as a string holding the member's name. The enum's members are its
    `names` in declaration order; member `k` has the underlying value `k`. */
module JsonEnum {
  import opened Wrappers
  import opened ExpectationViolation
  import opened ValueObject
  import opened Json
  import opened Expectation

  const MissingId := "6cd75a54-cd87-4fc7-8e29-cfb32fdb057a"
  const ObjectId := "687f4f26-6bab-4bb9-b1ab-6666616c1391"
  const ArrayId := "866494b5-161a-4838-9e95-d3cde1039008"
  const NotStringId := "388c23bb-fd68-4f01-b93e-df4ce41b3c65"
  const UnknownNameId := "9114b3ca-613e-4957-b198-34273562c88d"

  /** C# enum member names are distinct. */
  predicate DistinctNames(names: seq<string>) {
    forall a, b :: 0 <= a < b < |names| ==> names[a] != names[b]
  }

  /** `Enum.TryParse<TEnum>(s)` on a name: the member whose name is exactly
      `s` (letter case matters). */
  function NameIndex(names: seq<string>, s: string): (r: Option<nat>)
    ensures r.Some? ==> r.value < |names| && names[r.value] == s && s !in names[..r.value]
    ensures r.None? ==> s !in names
  {
    if |names| == 0 then None
    else if names[0] == s then Some(0)
    else
      match NameIndex(names[1..], s)
      case None => None
      case Some(k) => Some(k + 1)
  }

  /** `string.Join("\", \"", names)`. */
  function JoinNames(names: seq<string>): string {
    if |names| == 0 then ""
    else if |names| == 1 then names[0]
    else names[0] + "\", \"" + JoinNames(names[1..])
  }

  function UnknownNameMessage(s: string, names: seq<string>): string {
    "The string value (\"" + s + "\") was not in list of valid options: [\"" + JoinNames(names) + "\"]"
  }

  /** `ParseAndValidate(jValue, path)` on the string `s`. */
  function ParseAndValidate(kind: string, names: seq<string>, s: string, path: string, validate: Hook<nat>)
    : (r: Outcome<Option<ValueOf<nat>>>)
    ensures r.Violated? && Attributed(validate) ==> AllReportedUnder(r.violations, path)
    ensures r.Violated? && NonSilent(validate) ==> |r.violations| > 0
    ensures r.Built? && r.value.Some? && Filter(validate) ==>
      r.value.value.kind == kind && validate(r.value.value, path) == Built(r.value.value)
    ensures r.Built? && r.value.Some? && Filter(validate) ==> r.value.value.value < |names|
    ensures s in names ==> exists k :: 0 <= k < |names| && names[k] == s && r == Present(validate(ValueOf(kind, k), path))
    ensures s !in names ==> r == Violated([Violation(UnknownNameId, At(path) + UnknownNameMessage(s, names))])
  {
    match NameIndex(names, s)
    case None => Fail(UnknownNameId, path, UnknownNameMessage(s, names))
    case Some(k) => Present(validate(ValueObject.From(kind, k), path))
  }

  /** `NullHandle(path, required)`. */
  function NullHandle(path: string, required: bool): Outcome<Option<ValueOf<nat>>> {
    Expectation.NullHandle(MissingId, path, required)
  }

  /** `From(token, path, required)`: only string tokens are looked up; other
      primitives are rejected naming their token type. */
  function From(kind: string, names: seq<string>, t: Token, path: string, required: bool, validate: Hook<nat>)
    : (r: Outcome<Option<ValueOf<nat>>>)
    ensures r == Built(None) <==> t.Absent() && !required
    ensures r.Violated? && Attributed(validate) ==> AllReportedUnder(r.violations, path)
    ensures r.Violated? && NonSilent(validate) ==> |r.violations| > 0
    ensures r.Built? && r.value.Some? && Filter(validate) ==>
      r.value.value.kind == kind && validate(r.value.value, path) == Built(r.value.value)
    ensures r.Built? && r.value.Some? && Filter(validate) ==> r.value.value.value < |names|
    ensures t.Absent() && required ==> r.Violated? && r.violations == [Violation(MissingId, At(path) + "Expected a value, but got nothing.")]
    ensures t.JObject? ==> r == Violated([Violation(ObjectId, At(path) + "Expected a primitive, but got an object.")])
    ensures t.JArray? ==> r == Violated([Violation(ArrayId, At(path) + "Expected a primitive, but got an array.")])
    ensures t.JString? ==> r == ParseAndValidate(kind, names, t.str, path, validate)
    ensures t.Primitive() && !t.JString? ==>
      r == Violated([Violation(NotStringId, At(path) + ("Expected a string, but got another primitive. (" + TypeName(t) + ")"))])
  {
    match t
    case JNone => NullHandle(path, required)
    case JNull => NullHandle(path, required)
    case JUndefined => NullHandle(path, required)
    case JObject(_) => Fail(ObjectId, path, "Expected a primitive, but got an object.")
    case JArray(_) => Fail(ArrayId, path, "Expected a primitive, but got an array.")
    case JString(s) => ParseAndValidate(kind, names, s, path, validate)
    case _ => Fail(NotStringId, path, "Expected a string, but got another primitive. (" + TypeName(t) + ")")
  }

  /** `Value.ToString()`: a member's name; a value no member has prints as its number. */
  function Name(names: seq<string>, k: nat): string {
    if k < |names| then names[k] else IntText(k)
  }

  /** `ToJToken(path)`: the member's name as a string leaf. */
  function ToJToken(names: seq<string>, w: ValueOf<nat>, path: string): (t: Token)
    ensures t.JString?
    ensures w.value < |names| ==> t.str == names[w.value]
    ensures w.value >= |names| ==> t.str == IntText(w.value)
  {
    JString(Name(names, w.value))
  }

  /** A member's name reads back as the same member. */
  lemma RoundTrip(names: seq<string>, w: ValueOf<nat>, path: string, required: bool, validate: Hook<nat>)
    requires DistinctNames(names) && w.value < |names|
    requires validate(w, path) == Built(w)
    ensures From(w.kind, names, ToJToken(names, w, path), path, required, validate) == Built(Some(w))
  {
    assert names[w.value] in names;
  }

  const ExampleNames: seq<string> := ["Abc", "Def", "Hij"]

  /** With members Abc, Def, Hij, the string "Def" is the second member. */
  lemma ExampleKnownName(kind: string, path: string, validate: Hook<nat>)
    ensures From(kind, ExampleNames, JString("Def"), path, true, validate)
         == Present(validate(ValueOf(kind, 1), path))
  {
    assert ExampleNames[1..] == ["Def", "Hij"];
    assert NameIndex(ExampleNames, "Def") == Some(1);
  }

  lemma ExampleJoin()
    ensures JoinNames(ExampleNames) == "Abc\", \"Def\", \"Hij"
  {
    assert ExampleNames[1..] == ["Def", "Hij"];
    assert ExampleNames[1..][1..] == ["Hij"];
  }

  /** "Xyz" is rejected, and the description lists all three names in
      declaration order. */
  lemma ExampleUnknownName(kind: string, path: string, validate: Hook<nat>)
    ensures From(kind, ExampleNames, JString("Xyz"), path, true, validate)
         == Violated([Violation(UnknownNameId, At(path) + UnknownNameMessage("Xyz", ExampleNames))])
    ensures UnknownNameMessage("Xyz", ExampleNames)
         == "The string value (\"" + "Xyz" + "\") was not in list of valid options: [\"" + "Abc\", \"Def\", \"Hij" + "\"]"
  {
    assert "Xyz" !in ExampleNames;
    ExampleJoin();
  }

  /** `wrapped == primitive` (either order). */
  function PrimitiveEq(w: ValueOf<nat>, p: nat): bool {
    w.value == p
  }

  /** `wrapped != primitive` (either order) as written: it repeats the
      equality test of `==` instead of negating it. */
  function PrimitiveNeqAsWritten(w: ValueOf<nat>, p: nat): bool {
    w.value == p
  }

  /** As written, `!=` answers exactly what `==` answers, so a wrapper
      compares as both equal and unequal to its own value. */
  lemma NeqAsWrittenIsEq(w: ValueOf<nat>)
    ensures PrimitiveEq(w, w.value) && PrimitiveNeqAsWritten(w, w.value)
    ensures forall p :: PrimitiveNeqAsWritten(w, p) == PrimitiveEq(w, p)
  {
  }

  /** `!=` as evidently intended: the negation of `==`. */
  function PrimitiveNeq(w: ValueOf<nat>, p: nat): (r: bool)
    ensures r <==> !PrimitiveEq(w, p)
  {
    w.value != p
  }
}
