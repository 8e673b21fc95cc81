/** What every expectation wrapper shares: the two-outcome result
    (`OneOf<ExpectationViolations, TSelf>`), the overridable `Validate(path)`
    hook and its default, the missing-value handling, and the `@(path)`
    prefix of descriptions. */
module Expectation {
  import opened Wrappers
  import opened ExpectationViolation
  import opened ValueObject

  /** Either the violations found or the value built. */
  datatype Outcome<+T> = Violated(violations: seq<Violation>) | Built(value: T)

  /** `Validate(path)` of a wrapper type: given the freshly built wrapper,
      return it (or another) or reject it with violations. */
  type Hook<!T> = (ValueOf<T>, string) -> Outcome<ValueOf<T>>

  /** The default `Validate`: `(TSelf)this`. */
  function DefaultValidate<T>(w: ValueOf<T>, path: string): (r: Outcome<ValueOf<T>>)
    ensures r == Built(w)
  {
    Built(w)
  }

  /** The text every description starts with: "@(" + path + ") ". */
  function At(path: string): (s: string)
    ensures |s| == |path| + 4 && s[..2 + |path|] == "@(" + path
    ensures s[|path| + 2..] == ") "
  {
    "@(" + path + ") "
  }

  /** A hook that can only pass its wrapper through unchanged or reject it
      with at least one violation (every hook of the example models does). */
  ghost predicate Filter<T(!new)>(h: Hook<T>) {
    forall w, path :: h(w, path) == Built(w) || (h(w, path).Violated? && |h(w, path).violations| > 0)
  }

  /** A hook that never rejects silently: whenever it rejects, it gives at
      least one violation. It may still return another wrapper than the one
      it was given. */
  ghost predicate NonSilent<T(!new)>(h: Hook<T>) {
    forall w, path :: h(w, path).Violated? ==> |h(w, path).violations| > 0
  }

  /** A description that names a location at or below `path`. */
  predicate ReportedUnder(v: Violation, path: string) {
    |"@(" + path| <= |v.description| && v.description[..|path| + 2] == "@(" + path
  }

  predicate AllReportedUnder(vs: seq<Violation>, path: string) {
    forall k :: 0 <= k < |vs| ==> ReportedUnder(vs[k], path)
  }

  /** A hook whose violations all carry the path it was given. */
  ghost predicate Attributed<T(!new)>(h: Hook<T>) {
    forall w, path :: h(w, path).Violated? ==> AllReportedUnder(h(w, path).violations, path)
  }

  lemma DefaultValidateIsFilter<T(!new)>()
    ensures Filter<T>(DefaultValidate) && Attributed<T>(DefaultValidate)
  {
  }

  /** A hook's verdict as the result of `From`: a built wrapper is present. */
  function Present<T>(o: Outcome<T>): (r: Outcome<Option<T>>)
    ensures r.Violated? <==> o.Violated?
    ensures o.Violated? ==> r.violations == o.violations
    ensures o.Built? ==> r.value == Some(o.value)
  {
    match o
    case Violated(vs) => Violated(vs)
    case Built(v) => Built(Some(v))
  }

  /** `NullHandle(path, required)` with the wrapper's own missing-value id:
      a missing required value is one violation, a missing optional one is
      a success without a value. */
  function NullHandle<T>(id: string, path: string, required: bool): (r: Outcome<Option<T>>)
    ensures r == Built(None) <==> !required
    ensures r.Violated? ==> r.violations == [Violation(id, At(path) + "Expected a value, but got nothing.")]
    ensures r.Violated? ==> AllReportedUnder(r.violations, path)
  {
    if required then Fail(id, path, "Expected a value, but got nothing.")
    else Built(None)
  }

  /** A single violation of the given id at `path`. */
  function Fail<T>(id: string, path: string, message: string): (r: Outcome<T>)
    ensures r == Violated([Violation(id, At(path) + message)])
    ensures AllReportedUnder(r.violations, path)
  {
    var d := At(path) + message;
    assert d[..|path| + 2] == "@(" + path;
    Violated([Violation(id, d)])
  }

  /** `wrapped == primitive` (either argument order) of the string, bool,
      int and double wrappers: compares the wrapped value. */
  function PrimitiveEq<T(==)>(w: ValueOf<T>, p: T): bool {
    w.value == p
  }

  /** `wrapped != primitive` (either argument order): `Value != primitive`. */
  function PrimitiveNeq<T(==)>(w: ValueOf<T>, p: T): bool {
    w.value != p
  }

  /** Comparing with a primitive is comparing with the wrapper of that
      primitive of the same type, and `!=` is exactly the negation of `==`. */
  lemma PrimitiveOperators<T>(w: ValueOf<T>, p: T)
    ensures PrimitiveEq(w, p) <==> Eq(Some(w), Some(From(w.kind, p)))
    ensures PrimitiveNeq(w, p) <==> !PrimitiveEq(w, p)
  {
  }
}
