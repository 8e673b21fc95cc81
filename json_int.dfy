/** `JsonIntExpectation<TSelf>`: a wrapper around a 32-bit integer. */
module JsonInt {
  import opened Wrappers
  import opened ExpectationViolation
  import opened ValueObject
  import opened Json
  import opened Expectation

  const MissingId := "ee803d93-37ed-4796-a4ba-3b3ada66f51a"
  const ObjectId := "19d96ad8-2505-490e-bf09-d5418b61f006"
  const ArrayId := "153f4135-acf5-45aa-98be-2024a6ef37e5"
  const NotIntId := "6453b214-d6b7-43b5-9b47-df732d569043"

  /** The range of C#'s `int`. */
  const MinInt32: int := -0x8000_0000
  const MaxInt32: int := 0x7FFF_FFFF

  /** The white space `int.TryParse` skips before and after the number. */
  predicate IsWhite(c: char) {
    c == ' ' || '\t' <= c <= '\r'
  }

  function TrimStart(s: string): (r: string)
    ensures |r| <= |s| && r == s[|s| - |r|..]
    ensures |r| > 0 ==> !IsWhite(r[0])
  {
    if |s| > 0 && IsWhite(s[0]) then TrimStart(s[1..]) else s
  }

  function TrimEnd(s: string): (r: string)
    ensures |r| <= |s| && r == s[..|r|]
    ensures |r| > 0 ==> !IsWhite(r[|r| - 1])
  {
    if |s| > 0 && IsWhite(s[|s| - 1]) then TrimEnd(s[..|s| - 1]) else s
  }

  predicate AllDigits(s: string) {
    forall k :: 0 <= k < |s| ==> IsDigit(s[k])
  }

  /** The number a run of decimal digits denotes (leading zeros allowed). */
  function DigitsValue(s: string): nat
    requires AllDigits(s)
  {
    if |s| == 0 then 0
    else DigitsValue(s[..|s| - 1]) * 10 + ((s[|s| - 1] as int) - ('0' as int))
  }

  /** `int.TryParse` under the invariant culture: optional white space, an
      optional '+' or '-', one or more ASCII digits, optional white space,
      and a value that fits in 32 bits. */
  function ParseInt32(s: string): (r: Option<int>)
    ensures r.Some? ==> MinInt32 <= r.value <= MaxInt32
  {
    ParseSigned(TrimEnd(TrimStart(s)))
  }

  lemma {:induction false} NatTextValue(n: nat)
    ensures AllDigits(NatText(n)) && DigitsValue(NatText(n)) == n
  {
    if n >= 10 {
      var s := NatText(n);
      assert s[..|s| - 1] == NatText(n / 10);
      NatTextValue(n / 10);
    }
  }

  /** Text that neither starts nor ends with white space is left as it is. */
  lemma TrimNothing(s: string)
    requires |s| > 0 && !IsWhite(s[0]) && !IsWhite(s[|s| - 1])
    ensures TrimEnd(TrimStart(s)) == s
  {
  }

  /** The sign-and-digits step of `ParseInt32`, after trimming. */
  function ParseSigned(u: string): (r: Option<int>)
  {
    if |u| == 0 then None
    else
      var negative := u[0] == '-';
      var digits := if u[0] == '-' || u[0] == '+' then u[1..] else u;
      if |digits| == 0 || !AllDigits(digits) then None
      else
        var v: int := if negative then -(DigitsValue(digits) as int) else DigitsValue(digits);
        if MinInt32 <= v <= MaxInt32 then Some(v) else None
  }

  /** Decimal text of an integer neither starts nor ends with white space. */
  lemma IntTextEnds(i: int)
    ensures !IsWhite(IntText(i)[0]) && !IsWhite(IntText(i)[|IntText(i)| - 1])
  {
    var digits := NatText(if i < 0 then -i else i);
    assert IsDigit(digits[|digits| - 1]);
    if i >= 0 {
      assert IsDigit(digits[0]);
    }
  }

  /** The sign-and-digits step reads decimal text back as its value. */
  lemma ParseSignedIntText(i: int)
    requires MinInt32 <= i <= MaxInt32
    ensures ParseSigned(IntText(i)) == Some(i)
  {
    var n: nat := if i < 0 then -i else i;
    var digits := NatText(n);
    NatTextValue(n);
    if i < 0 {
      assert IntText(i)[1..] == digits;
    } else {
      assert IsDigit(digits[0]);
    }
  }

  /** Decimal text of any 32-bit value parses back to that value. */
  lemma ParseIntText(i: int)
    requires MinInt32 <= i <= MaxInt32
    ensures ParseInt32(IntText(i)) == Some(i)
  {
    IntTextEnds(i);
    TrimNothing(IntText(i));
    ParseSignedIntText(i);
  }

  /** `u` is an optional '+' or '-' followed by one or more ASCII digits. */
  predicate SignedDigits(u: string, sign: string, ds: string) {
    (sign == "" || sign == "+" || sign == "-") && u == sign + ds && |ds| > 0 && AllDigits(ds)
  }

  /** The integer a sign and a run of digits denote. */
  function SignedValue(sign: string, ds: string): int
    requires AllDigits(ds)
  {
    if sign == "-" then -(DigitsValue(ds) as int) else DigitsValue(ds)
  }

  /** Text that, once trimmed, is a sign and digits parses exactly when its
      value fits in 32 bits, and then to that value. */
  lemma ParseInt32Accepts(s: string, sign: string, ds: string)
    requires SignedDigits(TrimEnd(TrimStart(s)), sign, ds)
    ensures ParseInt32(s) ==
      if MinInt32 <= SignedValue(sign, ds) <= MaxInt32 then Some(SignedValue(sign, ds)) else None
  {
    var u := TrimEnd(TrimStart(s));
    if sign == "" {
      assert u == ds;
      assert IsDigit(u[0]);
    } else {
      assert u[0] == sign[0] && u[1..] == ds;
    }
  }

  /** Whatever the sign-and-digits step accepts is a sign and digits
      denoting the value it returns. */
  lemma ParseSignedSound(u: string) returns (sign: string, ds: string)
    requires ParseSigned(u).Some?
    ensures SignedDigits(u, sign, ds) && ParseSigned(u).value == SignedValue(sign, ds)
  {
    if u[0] == '-' || u[0] == '+' {
      sign, ds := u[..1], u[1..];
      assert u == sign + ds;
    } else {
      sign, ds := "", u;
      assert u == sign + ds;
    }
  }

  /** Whatever `ParseInt32` accepts is, once trimmed, a sign and digits
      denoting the value it returns. */
  lemma ParseInt32Sound(s: string)
    requires ParseInt32(s).Some?
    ensures exists sign, ds ::
      (SignedDigits(TrimEnd(TrimStart(s)), sign, ds) && ParseInt32(s).value == SignedValue(sign, ds))
  {
    var sign, ds := ParseSignedSound(TrimEnd(TrimStart(s)));
  }

  /** `NullHandle(path, required)`. */
  function NullHandle(path: string, required: bool): Outcome<Option<ValueOf<int>>> {
    Expectation.NullHandle(MissingId, path, required)
  }

  /** `ParseAndValidate(token, path)`: the failure quotes the text. */
  function ParseAndValidate(kind: string, t: Token, path: string, validate: Hook<int>)
    : (r: Outcome<Option<ValueOf<int>>>)
    requires t.Primitive()
    ensures r.Violated? && Attributed(validate) ==> AllReportedUnder(r.violations, path)
    ensures r.Violated? && NonSilent(validate) ==> |r.violations| > 0
    ensures r.Built? && r.value.Some? && Filter(validate) ==>
      r.value.value.kind == kind && validate(r.value.value, path) == Built(r.value.value)
    ensures r.Built? && r.value.Some? && Filter(validate) ==> MinInt32 <= r.value.value.value <= MaxInt32
    ensures ParseInt32(Text(t)).Some? ==> r == Present(validate(ValueOf(kind, ParseInt32(Text(t)).value), path))
    ensures ParseInt32(Text(t)).None? ==>
      r == Violated([Violation(NotIntId, At(path) + ("Expected an int, but got the value \"" + Text(t) + "\""))])
  {
    var s := Text(t);
    match ParseInt32(s)
    case Some(i) => Present(validate(ValueObject.From(kind, i), path))
    case None => Fail(NotIntId, path, "Expected an int, but got the value \"" + s + "\"")
  }

  /** `From(token, path, required)`. A value it builds (before `Validate`)
      always lies in the 32-bit range. */
  function From(kind: string, t: Token, path: string, required: bool, validate: Hook<int>)
    : (r: Outcome<Option<ValueOf<int>>>)
    ensures r == Built(None) <==> t.Absent() && !required
    ensures r.Violated? && Attributed(validate) ==> AllReportedUnder(r.violations, path)
    ensures r.Violated? && NonSilent(validate) ==> |r.violations| > 0
    ensures r.Built? && r.value.Some? && Filter(validate) ==>
      r.value.value.kind == kind && validate(r.value.value, path) == Built(r.value.value)
    ensures r.Built? && r.value.Some? && Filter(validate) ==> MinInt32 <= r.value.value.value <= MaxInt32
    ensures t.Absent() && required ==> r.Violated? && r.violations == [Violation(MissingId, At(path) + "Expected a value, but got nothing.")]
    ensures t.JObject? ==> r == Violated([Violation(ObjectId, At(path) + "Expected a primitive, but got an object.")])
    ensures t.JArray? ==> r == Violated([Violation(ArrayId, At(path) + "Expected a primitive, but got an array.")])
    ensures t.Primitive() ==> r == ParseAndValidate(kind, t, path, validate)
  {
    match t
    case JNone => NullHandle(path, required)
    case JNull => NullHandle(path, required)
    case JUndefined => NullHandle(path, required)
    case JObject(_) => Fail(ObjectId, path, "Expected a primitive, but got an object.")
    case JArray(_) => Fail(ArrayId, path, "Expected a primitive, but got an array.")
    case _ => ParseAndValidate(kind, t, path, validate)
  }

  /** `ToJToken(path)`: an integer leaf of the value, printing as its decimal text. */
  function ToJToken(w: ValueOf<int>, path: string): (t: Token)
    ensures t.JInteger? && t.n == w.value
    ensures t.Primitive() && Text(t) == IntText(w.value)
  {
    JInteger(w.value)
  }

  /** An integer leaf prints in decimal, which reads back as the same value. */
  lemma RoundTrip(w: ValueOf<int>, path: string, required: bool, validate: Hook<int>)
    requires MinInt32 <= w.value <= MaxInt32
    requires validate(w, path) == Built(w)
    ensures From(w.kind, ToJToken(w, path), path, required, validate) == Built(Some(w))
  {
    ParseIntText(w.value);
  }

  /** Text with a character other than a digit after the sign is not an int. */
  lemma RejectsNonDigit(s: string, k: nat)
    requires |s| > 0 && !IsWhite(s[0]) && !IsWhite(s[|s| - 1])
    requires s[0] != '-' && s[0] != '+'
    requires k < |s| && !IsDigit(s[k])
    ensures ParseInt32(s) == None
  {
    TrimNothing(s);
    assert !AllDigits(s);
  }

  /** Fractions and words are not ints. */
  lemma RejectsNonIntegers()
    ensures ParseInt32("7.5") == None
    ensures ParseInt32("Hello") == None
  {
    RejectsNonDigit("7.5", 1);
    RejectsNonDigit("Hello", 0);
  }

  /** Surrounding white space and a sign are accepted. */
  lemma AcceptsPaddedSigned()
    ensures ParseInt32(" -7 ") == Some(-7)
  {
    assert TrimStart(" -7 ") == "-7 " by {
      assert " -7 "[1..] == "-7 ";
    }
    assert TrimEnd("-7 ") == "-7" by {
      assert "-7 "[..2] == "-7";
    }
    assert "-7"[1..] == "7";
    assert DigitsValue("7") == 7 by {
      assert "7"[..0] == "";
    }
  }
}
