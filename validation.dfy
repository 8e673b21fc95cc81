/** The validation engine as a specification: what `From(token, path,
    required)` of every wrapper type returns, with the list wrapper's element
    loop and the object wrapper's property loop written as recursion over
    the first `n` elements or fields. The imperative loops in
    `ValidationLoops` are proved to compute exactly these values. */
module Validation {
  import opened Wrappers
  import opened ExpectationViolation
  import opened ValueObject
  import opened Json
  import opened Expectation
  import opened Schema
  import JsonString
  import JsonBool
  import JsonInt
  import JsonDouble
  import JsonEnum

  const ListMissingId := "8d0cdce8-f9f6-4f91-988c-eede0416c463"
  const ListObjectId := "17c32bf4-3c4d-491c-a18b-a526fc2e4468"
  const ListPrimitiveId := "d2fbaa82-41db-4b30-8458-bebb886d57df"
  const InvalidJsonId := "8923ed7e-6775-4351-8cac-3299e3ed3c1a"
  const NotObjectId := "f6c9e553-16b3-4c2d-92a8-2ba9c007b16e"
  const NotStringifiedId := "c0e13aee-32df-441e-a956-30626926358e"

  const InvalidJsonDescription := "@(root) The given string is not a valid json object"
  const NotStringifiedMessage := "Expect an object, but was given a string (which could not be deserialized to an object)"

  /** The path of element `index` of the list at `path`: `{path}[{index}]`. */
  function ElementPath(path: string, index: nat): (p: string)
    ensures |p| > |path| + 2 && p[..|path|] == path && p[|path|] == '[' && p[|p| - 1] == ']'
  {
    path + "[" + IntText(index) + "]"
  }

  /** The path of property `name` of the object at `path`: `path + "." + name`. */
  function FieldPath(path: string, name: string): (p: string)
    ensures |p| == |path| + 1 + |name| && p[..|path|] == path && p[|path|] == '.' && p[|path| + 1..] == name
  {
    path + "." + name
  }

  /** The violations an outcome contributes to its parent's collection. */
  function ViolationsOf<T>(o: Outcome<T>): seq<Violation> {
    if o.Violated? then o.violations else []
  }

  /** The parent's `ExpectationViolations` after `Add`ing every child's
      violations in order. */
  function Merge<T>(os: seq<Outcome<T>>): seq<Violation> {
    if |os| == 0 then [] else Merge(os[..|os| - 1]) + ViolationsOf(os[|os| - 1])
  }

  /** Collecting two runs of children one after the other collects the
      violations of the first run, then those of the second. */
  lemma {:induction false} MergeAppend<T>(a: seq<Outcome<T>>, b: seq<Outcome<T>>)
    ensures Merge(a + b) == Merge(a) + Merge(b)
    decreases |b|
  {
    if |b| == 0 {
      assert a + b == a;
    } else {
      var b' := b[..|b| - 1];
      assert (a + b)[..|a + b| - 1] == a + b';
      MergeAppend(a, b');
    }
  }

  /** The list wrapper's `result`: the elements that were built, in order. */
  function Values(os: seq<Outcome<Option<Instance>>>): seq<Instance> {
    if |os| == 0 then []
    else
      Values(os[..|os| - 1]) +
      (match os[|os| - 1] case Built(Some(x)) => [x] case _ => [])
  }

  /** What a property of the new object holds after its child's `Switch`:
      the built value, or null when the child was rejected or absent. */
  function SlotOf(o: Outcome<Option<Instance>>): Option<Instance> {
    if o.Built? then o.value else None
  }

  function Slots(os: seq<Outcome<Option<Instance>>>): (r: seq<Option<Instance>>)
    ensures |r| == |os|
  {
    seq(|os|, k requires 0 <= k < |os| => SlotOf(os[k]))
  }

  lemma ValuesSnoc(os: seq<Outcome<Option<Instance>>>, o: Outcome<Option<Instance>>)
    ensures Values(os + [o]) == Values(os) + (match o case Built(Some(x)) => [x] case _ => [])
  {
    assert (os + [o])[..|os|] == os;
  }

  lemma SlotsSnoc(os: seq<Outcome<Option<Instance>>>, o: Outcome<Option<Instance>>)
    ensures Slots(os + [o]) == Slots(os) + [SlotOf(o)]
  {
  }

  /** A scalar wrapper's outcome, with its built wrapper as an `Instance`. */
  function Lift<A>(o: Outcome<Option<A>>, f: A -> Instance): (r: Outcome<Option<Instance>>)
    ensures r.Violated? <==> o.Violated?
    ensures o.Violated? ==> r.violations == o.violations
    ensures r == Built(None) <==> o == Built(None)
  {
    match o
    case Violated(vs) => Violated(vs)
    case Built(None) => Built(None)
    case Built(Some(a)) => Built(Some(f(a)))
  }

  /** `From(token, path, required)` of the wrapper type `s`. */
  function From(env: Env, s: Schema, t: Token, path: string, required: bool): (r: Outcome<Option<Instance>>)
    ensures r == Built(None) <==> t.Absent() && !required
    decreases s, 5, 0
  {
    match s
    case StringS(kind, h) =>
      Lift(JsonString.From(kind, t, path, required, h), (w: ValueOf<string>) => StringI(w))
    case BoolS(kind, h) =>
      Lift(JsonBool.From(kind, t, path, required, h), (w: ValueOf<bool>) => BoolI(w))
    case IntS(kind, h) =>
      Lift(JsonInt.From(kind, t, path, required, h), (w: ValueOf<int>) => IntI(w))
    case DoubleS(kind, h) =>
      Lift(JsonDouble.From(kind, t, path, required, h, env.parseDouble), (w: ValueOf<real>) => DoubleI(w))
    case EnumS(kind, names, h) =>
      Lift(JsonEnum.From(kind, names, t, path, required, h), (w: ValueOf<nat>) => EnumI(w))
    case ListS(_, _, _) => ListFrom(env, s, t, path, required)
    case ObjectS(_, _) => ObjectFrom(env, s, t, path, required)
  }

  /** The list wrapper's `From`: an array is parsed element by element, an
      absent token goes to `NullHandle`, anything else is one violation. */
  function ListFrom(env: Env, s: Schema, t: Token, path: string, required: bool): (r: Outcome<Option<Instance>>)
    requires s.ListS?
    ensures r == Built(None) <==> t.Absent() && !required
    ensures t.Absent() && required ==> r == Violated([Violation(ListMissingId, At(path) + "Expected a value, but got nothing.")])
    ensures t.JObject? ==> r == Violated([Violation(ListObjectId, At(path) + "Expected an array, but got an object.")])
    ensures t.Primitive() ==> r == Violated([Violation(ListPrimitiveId, At(path) + "Expected an array, but got a primitive.")])
    decreases s, 4, 0
  {
    match t
    case JNone => NullHandle(ListMissingId, path, required)
    case JNull => NullHandle(ListMissingId, path, required)
    case JUndefined => NullHandle(ListMissingId, path, required)
    case JObject(_) => Fail(ListObjectId, path, "Expected an array, but got an object.")
    case JArray(items) => ListParseAndValidate(env, s, items, path)
    case _ => Fail(ListPrimitiveId, path, "Expected an array, but got a primitive.")
  }

  /** The list wrapper's `ParseAndValidate`: every element is required; the
      list is rejected with all the elements' violations, or built from the
      elements and handed to the list's `Validate`. */
  function ListParseAndValidate(env: Env, s: Schema, items: seq<Token>, path: string): (r: Outcome<Option<Instance>>)
    requires s.ListS?
    ensures r != Built(None)
    decreases s, 3, 0
  {
    var outcomes := ElementOutcomes(env, s, items, path, |items|);
    var violations := Merge(outcomes);
    if |violations| != 0 then Violated(violations)
    else
      Lift(Present(s.validateList(ValueObject.From(s.kind, Values(outcomes)), path)),
           (w: ValueOf<seq<Instance>>) => ListI(w))
  }

  /** One more element: its violations are appended to the gathered ones,
      its value (never null, since elements are required) to the values. */
  lemma ElementStep(env: Env, s: Schema, items: seq<Token>, path: string, n: nat, child: Outcome<Option<Instance>>)
    requires s.ListS? && n < |items|
    requires child == From(env, s.element, items[n], ElementPath(path, n), true)
    ensures child != Built(None)
    ensures Merge(ElementOutcomes(env, s, items, path, n + 1)) ==
      Merge(ElementOutcomes(env, s, items, path, n)) + ViolationsOf(child)
    ensures Values(ElementOutcomes(env, s, items, path, n + 1)) ==
      Values(ElementOutcomes(env, s, items, path, n)) + (if child.Built? then [child.value.value] else [])
  {
    var before := ElementOutcomes(env, s, items, path, n);
    assert ElementOutcomes(env, s, items, path, n + 1) == before + [child];
    MergeAppend(before, [child]);
    ValuesSnoc(before, child);
  }

  /** The outcomes of the first `n` elements, each at its own path. */
  function ElementOutcomes(env: Env, s: Schema, items: seq<Token>, path: string, n: nat): (os: seq<Outcome<Option<Instance>>>)
    requires s.ListS? && n <= |items|
    ensures |os| == n
    decreases s, 0, n
  {
    if n == 0 then []
    else ElementOutcomes(env, s, items, path, n - 1) + [From(env, s.element, items[n - 1], ElementPath(path, n - 1), true)]
  }

  /** The object wrapper's `From`: a string token is parsed as stringified
      JSON, an absent optional token is null, any other non-object token is
      one violation naming its type. */
  function ObjectFrom(env: Env, s: Schema, t: Token, path: string, required: bool): (r: Outcome<Option<Instance>>)
    requires s.ObjectS?
    ensures r == Built(None) <==> t.Absent() && !required
    ensures (t.JArray? || (t.Primitive() && !t.JString?) || (t.Absent() && required)) ==>
      r == Violated([Violation(NotObjectId, At(path) + ("Expected an object, but got " + TypeName(t)))])
    decreases s, if t.JString? then 4 else 2, 0
  {
    if t.JObject? then ObjectFields(env, s, t.members, path)
    else if t.JString? then FromStringifiedObject(env, s, t.str, path, required)
    else if !required && t.Absent() then Built(None)
    else Fail(NotObjectId, path, "Expected an object, but got " + TypeName(t))
  }

  /** `FromStringifiedObject`: text that does not parse to an object is one
      violation; an object it parses to is validated at the same path. */
  function FromStringifiedObject(env: Env, s: Schema, text: string, path: string, required: bool): (r: Outcome<Option<Instance>>)
    requires s.ObjectS?
    ensures r != Built(None)
    decreases s, 3, 0
  {
    match env.parseObject(text)
    case None => Fail(NotStringifiedId, path, NotStringifiedMessage)
    case Some(members) => ObjectFrom(env, s, JObject(members), path, required)
  }

  /** The property loop of the object wrapper's `From`: the object is built
      when no property reported a violation, and rejected with all of them
      otherwise. */
  function ObjectFields(env: Env, s: Schema, members: Members, path: string): (r: Outcome<Option<Instance>>)
    requires s.ObjectS?
    ensures r != Built(None)
    decreases s, 1, 0
  {
    var outcomes := FieldOutcomes(env, s, members, path, |s.fields|);
    var violations := Merge(outcomes);
    if |violations| == 0 then Built(Some(ObjectI(s.kind, Slots(outcomes)))) else Violated(violations)
  }

  /** The outcomes of the first `n` properties: each is looked up by its JSON
      name (a missing member reads as null) and validated at its own path,
      required or not as it is declared. */
  function FieldOutcomes(env: Env, s: Schema, members: Members, path: string, n: nat): (os: seq<Outcome<Option<Instance>>>)
    requires s.ObjectS? && n <= |s.fields|
    ensures |os| == n
    decreases s, 0, n
  {
    if n == 0 then []
    else
      var f := s.fields[n - 1];
      assert f in s.fields;
      FieldOutcomes(env, s, members, path, n - 1) +
      [From(env, f.schema, Lookup(members, f.jsonName).GetOr(JNull), FieldPath(path, f.jsonName), f.required)]
  }

  /** One more property: its violations are appended to the gathered ones,
      its value (or null) to the slots. */
  lemma FieldStep(env: Env, s: Schema, members: Members, path: string, n: nat, child: Outcome<Option<Instance>>)
    requires s.ObjectS? && n < |s.fields|
    requires child == From(env, s.fields[n].schema, Lookup(members, s.fields[n].jsonName).GetOr(JNull),
                           FieldPath(path, s.fields[n].jsonName), s.fields[n].required)
    ensures Merge(FieldOutcomes(env, s, members, path, n + 1)) ==
      Merge(FieldOutcomes(env, s, members, path, n)) + ViolationsOf(child)
    ensures Slots(FieldOutcomes(env, s, members, path, n + 1)) ==
      Slots(FieldOutcomes(env, s, members, path, n)) + [SlotOf(child)]
  {
    var before := FieldOutcomes(env, s, members, path, n);
    assert FieldOutcomes(env, s, members, path, n + 1) == before + [child];
    MergeAppend(before, [child]);
    SlotsSnoc(before, child);
  }

  /** `FromJsonString(rawJson)` of the object type `s`: text that does not
      parse to an object is one violation at the root; otherwise the object
      is required and validated at the empty path. */
  function FromJsonString(env: Env, s: Schema, raw: string): (r: Outcome<Option<Instance>>)
    requires s.ObjectS?
    ensures env.parseObject(raw).None? ==> r == Violated([Violation(InvalidJsonId, InvalidJsonDescription)])
    ensures env.parseObject(raw).Some? ==> r == ObjectFields(env, s, env.parseObject(raw).value, "")
    ensures r != Built(None)
  {
    match env.parseObject(raw)
    case None => Violated([Violation(InvalidJsonId, InvalidJsonDescription)])
    case Some(members) =>
      assert From(env, s, JObject(members), "", true) == ObjectFrom(env, s, JObject(members), "", true);
      From(env, s, JObject(members), "", true)
  }
}
