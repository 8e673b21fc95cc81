/** The engine as the source writes it: the list wrapper's element loop and
    the object wrapper's property loop, which collect violations into an
    `ExpectationViolations` and the built children into a list or into the
    properties of a new instance. Each method is proved to return exactly
    what the specification in `Validation` says. The scalar wrappers are
    single switch expressions and are used as they are. */
module ValidationLoops {
  import opened Wrappers
  import opened ExpectationViolation
  import opened ExpectationViolations
  import opened ValueObject
  import opened Json
  import opened Expectation
  import opened Schema
  import Validation

  /** `TElement.From(token, path, required)` / the reflective `From` call:
      dispatch on the wrapper type. */
  method FromToken(env: Env, s: Schema, t: Token, path: string, required: bool)
    returns (r: Outcome<Option<Instance>>)
    ensures r == Validation.From(env, s, t, path, required)
    decreases s, 5, 0
  {
    match s
    case ListS(_, _, _) =>
      r := ListFrom(env, s, t, path, required);
    case ObjectS(_, _) =>
      r := ObjectFrom(env, s, t, path, required);
    case _ =>
      r := Validation.From(env, s, t, path, required);
  }

  /** The list wrapper's `From`. */
  method ListFrom(env: Env, s: Schema, t: Token, path: string, required: bool)
    returns (r: Outcome<Option<Instance>>)
    requires s.ListS?
    ensures r == Validation.ListFrom(env, s, t, path, required)
    decreases s, 4, 0
  {
    if t.JArray? {
      r := ListParseAndValidate(env, s, t.items, path);
    } else {
      r := Validation.ListFrom(env, s, t, path, required);
    }
  }

  /** The list wrapper's `ParseAndValidate`. */
  method ListParseAndValidate(env: Env, s: Schema, items: seq<Token>, path: string)
    returns (r: Outcome<Option<Instance>>)
    requires s.ListS?
    ensures r == Validation.ListParseAndValidate(env, s, items, path)
    decreases s, 3, 0
  {
    var result: seq<Instance> := [];
    var violations := new ViolationSet();
    for index := 0 to |items|
      invariant violations.items == Validation.Merge(Validation.ElementOutcomes(env, s, items, path, index))
      invariant result == Validation.Values(Validation.ElementOutcomes(env, s, items, path, index))
    {
      var child := FromToken(env, s.element, items[index], Validation.ElementPath(path, index), true);
      Validation.ElementStep(env, s, items, path, index, child);
      if child.Violated? {
        var newViolations := new ViolationSet.FromList(child.violations);
        violations.AddAll(newViolations);
      } else {
        result := result + [child.value.value];
      }
    }
    if !violations.IsEmpty() {
      r := Violated(violations.items);
    } else {
      var validated := s.validateList(ValueObject.From(s.kind, result), path);
      r := Validation.Lift(Present(validated), (w: ValueOf<seq<Instance>>) => ListI(w));
    }
  }

  /** The object wrapper's `From`. */
  method ObjectFrom(env: Env, s: Schema, t: Token, path: string, required: bool)
    returns (r: Outcome<Option<Instance>>)
    requires s.ObjectS?
    ensures r == Validation.ObjectFrom(env, s, t, path, required)
    decreases s, if t.JString? then 4 else 2, 0
  {
    if !t.JObject? {
      if t.JString? {
        r := FromStringifiedObject(env, s, t.str, path, required);
      } else if !required && t.Absent() {
        r := Built(None);
      } else {
        r := Fail(Validation.NotObjectId, path, "Expected an object, but got " + TypeName(t));
      }
      return;
    }
    r := ObjectFields(env, s, t.members, path);
  }

  /** `FromStringifiedObject`. */
  method FromStringifiedObject(env: Env, s: Schema, text: string, path: string, required: bool)
    returns (r: Outcome<Option<Instance>>)
    requires s.ObjectS?
    ensures r == Validation.FromStringifiedObject(env, s, text, path, required)
    decreases s, 3, 0
  {
    match env.parseObject(text)
    case None =>
      r := Fail(Validation.NotStringifiedId, path, Validation.NotStringifiedMessage);
    case Some(members) =>
      r := ObjectFrom(env, s, JObject(members), path, required);
  }

  /** The property loop of the object wrapper's `From`: a new instance whose
      properties start out null, each property set from its child's value. */
  method ObjectFields(env: Env, s: Schema, members: Members, path: string)
    returns (r: Outcome<Option<Instance>>)
    requires s.ObjectS?
    ensures r == Validation.ObjectFields(env, s, members, path)
    decreases s, 1, 0
  {
    var fields := s.fields;
    var instance := new Option<Instance>[|fields|](_ => None);
    var violations := new ViolationSet();
    for i := 0 to |fields|
      invariant violations.items == Validation.Merge(Validation.FieldOutcomes(env, s, members, path, i))
      invariant instance[..i] == Validation.Slots(Validation.FieldOutcomes(env, s, members, path, i))
      invariant forall k :: i <= k < instance.Length ==> instance[k] == None
    {
      var prop := fields[i];
      assert prop in s.fields;
      var propPath := Validation.FieldPath(path, prop.jsonName);
      var propToken := Lookup(members, prop.jsonName).GetOr(JNull);
      var valueOrViolation := FromToken(env, prop.schema, propToken, propPath, prop.required);
      Validation.FieldStep(env, s, members, path, i, valueOrViolation);
      if valueOrViolation.Violated? {
        var newViolations := new ViolationSet.FromList(valueOrViolation.violations);
        violations.AddAll(newViolations);
      } else {
        instance[i] := valueOrViolation.value;
      }
      assert instance[..i + 1] == instance[..i] + [instance[i]];
    }
    ghost var os := Validation.FieldOutcomes(env, s, members, path, |fields|);
    assert instance[..] == instance[..|fields|] == Validation.Slots(os);
    assert Validation.ObjectFields(env, s, members, path) ==
      if |Validation.Merge(os)| == 0 then Built(Some(ObjectI(s.kind, Validation.Slots(os)))) else Violated(Validation.Merge(os));
    if violations.IsEmpty() {
      r := Built(Some(ObjectI(s.kind, instance[..])));
    } else {
      r := Violated(violations.items);
    }
  }

  /** `FromJsonString(rawJson)`. */
  method FromJsonString(env: Env, s: Schema, raw: string) returns (r: Outcome<Option<Instance>>)
    requires s.ObjectS?
    ensures r == Validation.FromJsonString(env, s, raw)
  {
    match env.parseObject(raw)
    case None =>
      r := Violated([Violation(Validation.InvalidJsonId, Validation.InvalidJsonDescription)]);
    case Some(members) =>
      r := FromToken(env, s, JObject(members), "", true);
  }
}
