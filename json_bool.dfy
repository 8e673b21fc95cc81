/** `JsonBoolExpectation<TSelf>`: a wrapper around a boolean that accepts
    `true`/`false`/`1`/`0` in any letter case. */
module JsonBool {
  import opened Wrappers
  import opened ExpectationViolation
  import opened ValueObject
  import opened Json
  import opened Expectation

  const MissingId := "b09fbdba-b96b-46ad-8e0f-409d0a5da578"
  const ObjectId := "5b79061f-4e69-4d3b-80f3-839cd262d05f"
  const ArrayId := "df252cff-fcf0-4c0d-a61a-b0e7bccf473b"
  const NotBooleanId := "b17fbb36-e441-422c-afae-8f19ef2159df"

  function LowerChar(c: char): char {
    if 'A' <= c <= 'Z' then ((c as int) + 32) as char else c
  }

  /** `ToLower()` on the letters that matter here (ASCII). */
  function Lower(s: string): (r: string)
    ensures |r| == |s| && forall k :: 0 <= k < |s| ==> r[k] == LowerChar(s[k])
  {
    seq(|s|, k requires 0 <= k < |s| => LowerChar(s[k]))
  }

  /** The switch on the lower-cased text. */
  function ParseBool(s: string): (r: Option<bool>)
    ensures r == Some(false) <==> Lower(s) == "false" || Lower(s) == "0"
    ensures r == Some(true) <==> Lower(s) == "true" || Lower(s) == "1"
    ensures r == None <==> Lower(s) !in {"false", "0", "true", "1"}
  {
    var l := Lower(s);
    if l == "false" || l == "0" then Some(false)
    else if l == "true" || l == "1" then Some(true)
    else None
  }

  /** `NullHandle(path, required)`. */
  function NullHandle(path: string, required: bool): Outcome<Option<ValueOf<bool>>> {
    Expectation.NullHandle(MissingId, path, required)
  }

  /** `ParseAndValidate(token, path)`: the failure quotes the original text. */
  function ParseAndValidate(kind: string, t: Token, path: string, validate: Hook<bool>)
    : (r: Outcome<Option<ValueOf<bool>>>)
    requires t.Primitive()
    ensures r.Violated? && Attributed(validate) ==> AllReportedUnder(r.violations, path)
    ensures r.Violated? && NonSilent(validate) ==> |r.violations| > 0
    ensures r.Built? && r.value.Some? && Filter(validate) ==>
      r.value.value.kind == kind && validate(r.value.value, path) == Built(r.value.value)
    ensures ParseBool(Text(t)).Some? ==> r == Present(validate(ValueOf(kind, ParseBool(Text(t)).value), path))
    ensures ParseBool(Text(t)).None? ==>
      r == Violated([Violation(NotBooleanId, At(path) + ("Expected a boolean, but got the value \"" + Text(t) + "\""))])
  {
    var s := Text(t);
    match ParseBool(s)
    case Some(b) => Present(validate(ValueObject.From(kind, b), path))
    case None => Fail(NotBooleanId, path, "Expected a boolean, but got the value \"" + s + "\"")
  }

  /** `From(token, path, required)`. */
  function From(kind: string, t: Token, path: string, required: bool, validate: Hook<bool>)
    : (r: Outcome<Option<ValueOf<bool>>>)
    ensures r == Built(None) <==> t.Absent() && !required
    ensures r.Violated? && Attributed(validate) ==> AllReportedUnder(r.violations, path)
    ensures r.Violated? && NonSilent(validate) ==> |r.violations| > 0
    ensures r.Built? && r.value.Some? && Filter(validate) ==>
      r.value.value.kind == kind && validate(r.value.value, path) == Built(r.value.value)
    ensures t.Absent() && required ==> r.Violated? && r.violations == [Violation(MissingId, At(path) + "Expected a value, but got nothing.")]
    ensures t.JObject? ==> r == Violated([Violation(ObjectId, At(path) + "Expected a primitive, but got an object.")])
    ensures t.JArray? ==> r == Violated([Violation(ArrayId, At(path) + "Expected a primitive, but got an array.")])
    ensures t.Primitive() ==> r == ParseAndValidate(kind, t, path, validate)
  {
    match t
    case JNone => NullHandle(path, required)
    case JNull => NullHandle(path, required)
    case JUndefined => NullHandle(path, required)
    case JObject(_) => Fail(ObjectId, path, "Expected a primitive, but got an object.")
    case JArray(_) => Fail(ArrayId, path, "Expected a primitive, but got an array.")
    case _ => ParseAndValidate(kind, t, path, validate)
  }

  /** `ToJToken(path)`: a boolean leaf of the value, whose text parses back to it. */
  function ToJToken(w: ValueOf<bool>, path: string): (t: Token)
    ensures t.JBoolean? && t.b == w.value
    ensures t.Primitive() && ParseBool(Text(t)) == Some(w.value)
  {
    assert Lower("True") == "true" && Lower("False") == "false";
    JBoolean(w.value)
  }

  /** A boolean leaf renders as `True`/`False`, which reads back as the same value. */
  lemma RoundTrip(w: ValueOf<bool>, path: string, required: bool, validate: Hook<bool>)
    requires validate(w, path) == Built(w)
    ensures From(w.kind, ToJToken(w, path), path, required, validate) == Built(Some(w))
  {
    if w.value {
      assert Lower("True") == "true";
    } else {
      assert Lower("False") == "false";
    }
  }

  /** The tolerated spellings: "TrUe", "1" and the boolean `true` all give true. */
  lemma TrueSpellings()
    ensures ParseBool("TrUe") == Some(true)
    ensures ParseBool("1") == Some(true)
    ensures ParseBool(Text(JBoolean(true))) == Some(true)
    ensures ParseBool(Text(JInteger(1))) == Some(true)
  {
    assert Lower("TrUe") == "true";
    assert Lower("True") == "true";
    assert Lower("1") == "1";
    assert IntText(1) == "1";
  }

  /** Near misses are rejected, quoting the text as given. */
  lemma RejectedSpellings(kind: string, path: string, validate: Hook<bool>)
    ensures ParseBool("2") == None && ParseBool("true.") == None && ParseBool("Hello") == None
    ensures From(kind, JString("true."), path, true, validate)
         == Violated([Violation(NotBooleanId, At(path) + "Expected a boolean, but got the value \"true.\"")])
  {
    assert Lower("2") == "2";
    assert Lower("true.") == "true.";
    assert Lower("Hello") == "hello";
    assert "Expected a boolean, but got the value \"" + "true." + "\""
        == "Expected a boolean, but got the value \"true.\"";
  }
}
