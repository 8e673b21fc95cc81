/** The generic JSON token tree the engine consumes (Newtonsoft's `JToken`),
    the text `ToString()` gives for a primitive token, and the foreign
    collaborators the engine calls into. */
module Json {
  import opened Wrappers

  type Members = seq<(string, Token)>

  /** One constructor per `JTokenType` the engine tells apart; the remaining
      primitive kinds (Date, Guid, Uri, TimeSpan, Bytes, Raw, ...) are `JOther`. */
  datatype Token =
    | JNone
    | JNull
    | JUndefined
    | JObject(members: Members)
    | JArray(items: seq<Token>)
    | JString(str: string)
    | JInteger(n: int)
    | JFloat(text: string)
    | JBoolean(b: bool)
    | JOther(typeName: string, text: string)
  {
    /** None, Null or Undefined: the token carries no value. */
    predicate Absent() {
      JNone? || JNull? || JUndefined?
    }

    predicate Primitive() {
      !Absent() && !JObject? && !JArray?
    }
  }

  /** The name `token.Type` prints as. */
  function TypeName(t: Token): string {
    match t
    case JNone => "None"
    case JNull => "Null"
    case JUndefined => "Undefined"
    case JObject(_) => "Object"
    case JArray(_) => "Array"
    case JString(_) => "String"
    case JInteger(_) => "Integer"
    case JFloat(_) => "Float"
    case JBoolean(_) => "Boolean"
    case JOther(name, _) => name
  }

  /** `token.ToString()` of a primitive token: a string's own characters,
      an integer in decimal, a boolean as `True`/`False`. */
  function Text(t: Token): string
    requires t.Primitive()
  {
    match t
    case JString(s) => s
    case JInteger(n) => IntText(n)
    case JFloat(text) => text
    case JBoolean(b) => if b then "True" else "False"
    case JOther(_, text) => text
  }

  function DigitChar(d: nat): char
    requires d < 10
  {
    (('0' as int) + d) as char
  }

  predicate IsDigit(c: char) {
    '0' <= c <= '9'
  }

  /** The decimal digits of `n`, most significant first, without leading zeros. */
  function NatText(n: nat): (s: string)
    ensures |s| > 0 && forall k :: 0 <= k < |s| ==> IsDigit(s[k])
  {
    if n < 10 then [DigitChar(n)] else NatText(n / 10) + [DigitChar(n % 10)]
  }

  /** An integer in invariant-culture decimal: a '-' for negatives, then the digits. */
  function IntText(i: int): (s: string)
    ensures |s| > 0
  {
    if i < 0 then "-" + NatText(-i) else NatText(i)
  }

  /** `objectToken.SelectToken(name)` on a plain member name: the first member with that name. */
  function Lookup(members: Members, name: string): (r: Option<Token>)
    ensures r.Some? <==> exists k :: 0 <= k < |members| && members[k].0 == name
    ensures r.Some? ==> exists k :: 0 <= k < |members| && members[k] == (name, r.value)
  {
    if |members| == 0 then None
    else if members[0].0 == name then Some(members[0].1)
    else
      var r := Lookup(members[1..], name);
      assert r.Some? ==> exists k :: 0 <= k < |members[1..]| && members[1..][k] == (name, r.value);
      r
  }

  /** The foreign calls the engine makes: `JObject.Parse` (None when it throws,
      or when the text is not an object), the JSON writer behind
      `JToken.ToString()`, and the culture's `double.TryParse` and double formatting. */
  datatype Env = Env(
    parseObject: string -> Option<Members>,
    writeJson: Token -> string,
    parseDouble: string -> Option<real>,
    formatDouble: real -> string)
}
