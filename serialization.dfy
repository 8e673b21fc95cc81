/** `ToJToken(path)` and `ToJsonString()`: a built value back to a token
    tree. `ToToken` is the specification; `ToJToken` and its two loops are
    the source's methods, proved to compute it. */
module Serialization {
  import opened Wrappers
  import opened ValueObject
  import opened Json
  import opened Schema
  import JsonString
  import JsonBool
  import JsonInt
  import JsonDouble
  import JsonEnum
  import Validation
  import opened Expectation

  /** The token `ToJToken(path)` produces for the value `x` of type `s`. */
  function ToToken(env: Env, s: Schema, x: Instance, path: string): Token
    requires Conforms(s, x)
    decreases s, 1, 0
  {
    match s
    case StringS(_, _) => JsonString.ToJToken(x.s, path)
    case BoolS(_, _) => JsonBool.ToJToken(x.b, path)
    case IntS(_, _) => JsonInt.ToJToken(x.i, path)
    case DoubleS(_, _) => JsonDouble.ToJToken(x.d, path, env.formatDouble)
    case EnumS(_, names, _) => JsonEnum.ToJToken(names, x.e, path)
    case ListS(_, _, _) => JArray(ElementTokens(env, s, x, path, |x.l.value|))
    case ObjectS(_, fields) => JObject(MemberTokens(env, s, x, path, |fields|))
  }

  /** The tokens of the first `n` elements of the list `x`, each at its own path. */
  function ElementTokens(env: Env, s: Schema, x: Instance, path: string, n: nat): (ts: seq<Token>)
    requires s.ListS? && Conforms(s, x) && n <= |x.l.value|
    ensures |ts| == n
    decreases s, 0, n
  {
    if n == 0 then []
    else
      ElementTokens(env, s, x, path, n - 1) +
      [ToToken(env, s.element, x.l.value[n - 1], Validation.ElementPath(path, n - 1))]
  }

  /** The members for the first `n` properties of the object `x`: a null
      property is skipped, any other is added under its JSON name. */
  function MemberTokens(env: Env, s: Schema, x: Instance, path: string, n: nat): (ms: Members)
    requires s.ObjectS? && Conforms(s, x) && n <= |s.fields|
    ensures |ms| <= n
    decreases s, 0, n
  {
    if n == 0 then []
    else
      var f := s.fields[n - 1];
      assert f in s.fields;
      MemberTokens(env, s, x, path, n - 1) +
      (match x.slots[n - 1]
       case None => []
       case Some(v) => [(f.jsonName, ToToken(env, f.schema, v, Validation.FieldPath(path, f.jsonName)))])
  }

  /** `x` survives being written out: its integers fit in 32 bits, its
      enum values name a member, and every property left null is optional. */
  predicate Representable(s: Schema, x: Instance)
    decreases s
  {
    Conforms(s, x) &&
    match s
    case IntS(_, _) => JsonInt.MinInt32 <= x.i.value <= JsonInt.MaxInt32
    case EnumS(_, names, _) => x.e.value < |names|
    case ListS(_, element, _) =>
      forall k :: 0 <= k < |x.l.value| ==> Representable(element, x.l.value[k])
    case ObjectS(_, fields) =>
      forall k :: 0 <= k < |fields| ==>
        if x.slots[k].Some? then Representable(fields[k].schema, x.slots[k].value) else !fields[k].required
    case _ => true
  }

  /** Every wrapper in `x` passes its type's `Validate` at the path where
      `ToJToken(path)` places it. */
  predicate Accepted(s: Schema, x: Instance, path: string)
    requires Conforms(s, x)
    decreases s
  {
    match s
    case StringS(_, h) => h(x.s, path) == Built(x.s)
    case BoolS(_, h) => h(x.b, path) == Built(x.b)
    case IntS(_, h) => h(x.i, path) == Built(x.i)
    case DoubleS(_, h) => h(x.d, path) == Built(x.d)
    case EnumS(_, _, h) => h(x.e, path) == Built(x.e)
    case ListS(_, element, h) =>
      h(x.l, path) == Built(x.l) &&
      forall k :: 0 <= k < |x.l.value| ==> Accepted(element, x.l.value[k], Validation.ElementPath(path, k))
    case ObjectS(_, fields) =>
      forall k :: 0 <= k < |fields| ==> x.slots[k].Some? ==>
        Accepted(fields[k].schema, x.slots[k].value, Validation.FieldPath(path, fields[k].jsonName))
  }

  /** `IJsonExpectationInstance.ToJToken(path)`: dispatch on the wrapper type. */
  method ToJToken(env: Env, s: Schema, x: Instance, path: string) returns (t: Token)
    requires Conforms(s, x)
    ensures t == ToToken(env, s, x, path)
    decreases s, 1, 0
  {
    match s
    case ListS(_, _, _) =>
      t := ListToJToken(env, s, x, path);
    case ObjectS(_, _) =>
      t := ObjectToJToken(env, s, x, path);
    case _ =>
      t := ToToken(env, s, x, path);
  }

  /** The list wrapper's `ToJToken`: one token per element, in order, each
      at `{path}[{index}]`. */
  method ListToJToken(env: Env, s: Schema, x: Instance, path: string) returns (t: Token)
    requires s.ListS? && Conforms(s, x)
    ensures t == ToToken(env, s, x, path)
    decreases s, 0, 0
  {
    var result: seq<Token> := [];
    var elements := x.l.value;
    for index := 0 to |elements|
      invariant result == ElementTokens(env, s, x, path, index)
    {
      var element := elements[index];
      var elementPath := Validation.ElementPath(path, index);
      var token := ToJToken(env, s.element, element, elementPath);
      result := result + [token];
    }
    t := JArray(result);
  }

  /** The object wrapper's `ToJToken`: the non-null properties in field
      order, each under its JSON name and rendered at `{path}.{name}`. */
  method ObjectToJToken(env: Env, s: Schema, x: Instance, path: string) returns (t: Token)
    requires s.ObjectS? && Conforms(s, x)
    ensures t == ToToken(env, s, x, path)
    decreases s, 0, 0
  {
    var result: Members := [];
    var fields := s.fields;
    for i := 0 to |fields|
      invariant result == MemberTokens(env, s, x, path, i)
    {
      var prop := fields[i];
      assert prop in s.fields;
      var propPath := Validation.FieldPath(path, prop.jsonName);
      var propValue := x.slots[i];
      if propValue.None? {
        continue;
      }
      var propValueAsJToken := ToJToken(env, prop.schema, propValue.value, propPath);
      result := result + [(prop.jsonName, propValueAsJToken)];
    }
    t := JObject(result);
  }

  /** `ToJsonString()`: the object's token at the empty path, written as JSON text. */
  method ToJsonString(env: Env, s: Schema, x: Instance) returns (text: string)
    requires s.ObjectS? && Conforms(s, x)
    ensures text == env.writeJson(ToToken(env, s, x, ""))
  {
    var token := ObjectToJToken(env, s, x, "");
    text := env.writeJson(token);
  }
}
