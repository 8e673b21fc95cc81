/** Part of the example application's model: the two `Validate` overrides
    it declares (`ExcitedMessage` and `InternationalGreetingList`) and its
    `StringifiedObject` type, used to check the engine on concrete inputs. */
module DemoModel {
  import opened Wrappers
  import opened ExpectationViolation
  import opened ValueObject
  import opened Json
  import opened Expectation
  import opened Schema
  import Validation
  import Properties
  import JsonBool
  import JsonString

  const ExcitedId := "361ff365-2ebf-4df2-8ea9-eca52ec0c444"
  const GreetingsId := "4805ad75-371c-433e-ba81-e2ea6d36e973"
  const ExcitedMessageText := "Only excited greetings are allowed!!!"
  const GreetingsMessageText :=
    "English greetings are allowed in an InternationalGreetings set, but at least one non-English greeting is required."

  /** `ExcitedMessage.Validate`: a message without '!' is rejected. */
  function ExcitedMessage(w: ValueOf<string>, path: string): (r: Outcome<ValueOf<string>>)
    ensures r == Built(w) <==> '!' in w.value
    ensures r.Violated? ==> r.violations == [Violation(ExcitedId, At(path) + ExcitedMessageText)]
  {
    if '!' in w.value then Built(w) else Fail(ExcitedId, path, ExcitedMessageText)
  }

  /** `Greeting.IsEnglishCommonGreeting`: the lower-cased text is one of four greetings. */
  predicate IsEnglishCommonGreeting(x: Instance) {
    x.StringI? && JsonBool.Lower(x.s.value) in ["hello", "hi", "hey", "what's up"]
  }

  /** `InternationalGreetingList.Validate`: a list of nothing but common
      English greetings (the empty list included) is rejected. */
  function InternationalGreetingList(w: ValueOf<seq<Instance>>, path: string): (r: Outcome<ValueOf<seq<Instance>>>)
    ensures r == Built(w) <==> exists k :: 0 <= k < |w.value| && !IsEnglishCommonGreeting(w.value[k])
    ensures r.Violated? ==> r.violations == [Violation(GreetingsId, At(path) + GreetingsMessageText)]
  {
    if forall k :: 0 <= k < |w.value| ==> IsEnglishCommonGreeting(w.value[k]) then
      Fail(GreetingsId, path, GreetingsMessageText)
    else Built(w)
  }

  /** Both overrides only pass their wrapper through or reject it, at the
      path they are given, so the engine's guarantees apply to models using them. */
  lemma HooksAreFilters()
    ensures Filter(ExcitedMessage) && Attributed(ExcitedMessage)
    ensures Filter(InternationalGreetingList) && Attributed(InternationalGreetingList)
  {
  }

  lemma EmptyGreetingListRejected(kind: string, path: string)
    ensures InternationalGreetingList(ValueObject.From(kind, []), path).Violated?
  {
  }

  /** `StringifiedObject`: one required string property, `Field`. */
  const StringifiedObjectType: Schema :=
    ObjectS("StringifiedObject", [Field("Field", true, StringS("MyString", DefaultValidate))])

  /** A string holding an object is validated as that object, at the
      string's own path. */
  lemma StringifiedObjectAccepted(env: Env)
    requires env.parseObject("{\"Field\": \"Value\"}") == Some([("Field", JString("Value"))])
    ensures Validation.From(env, StringifiedObjectType, JString("{\"Field\": \"Value\"}"), ".StringifiedObject", true)
      == Built(Some(ObjectI("StringifiedObject", [Some(StringI(ValueOf("MyString", "Value")))])))
  {
    var ms := [("Field", JString("Value"))];
    var fieldType := StringifiedObjectType.fields[0].schema;
    var p := Validation.FieldPath(".StringifiedObject", "Field");
    var os := Validation.FieldOutcomes(env, StringifiedObjectType, ms, ".StringifiedObject", 1);
    assert Lookup(ms, "Field").GetOr(JNull) == JString("Value");
    assert JsonString.From("MyString", JString("Value"), p, true, DefaultValidate) == Built(Some(ValueOf("MyString", "Value")));
    assert Validation.From(env, fieldType, JString("Value"), p, true) == Built(Some(StringI(ValueOf("MyString", "Value"))));
    assert os == [Built(Some(StringI(ValueOf("MyString", "Value"))))];
    assert Validation.Merge(os) == [];
    assert Validation.Slots(os) == [Some(StringI(ValueOf("MyString", "Value")))];
    Properties.StringifiedObject(env, StringifiedObjectType, JString("{\"Field\": \"Value\"}"), ".StringifiedObject", true);
  }

  /** A string that does not parse to an object is one violation at its path. */
  lemma StringifiedObjectRejected(env: Env)
    requires env.parseObject("{Field: Value}").None?
    ensures Validation.From(env, StringifiedObjectType, JString("{Field: Value}"), ".StringifiedObject", true)
      == Violated([Violation(Validation.NotStringifiedId, At(".StringifiedObject") + Validation.NotStringifiedMessage)])
  {
    assert Validation.From(env, StringifiedObjectType, JString("{Field: Value}"), ".StringifiedObject", true)
      == Validation.ObjectFrom(env, StringifiedObjectType, JString("{Field: Value}"), ".StringifiedObject", true);
  }

  /** An object whose required property is missing is rejected with that
      property's missing-value violation. */
  lemma MissingRequiredField(env: Env)
    ensures Validation.From(env, StringifiedObjectType, JObject([]), "", true)
      == Violated([Violation(JsonString.MissingId, At(".Field") + "Expected a value, but got nothing.")])
  {
    var fieldType := StringifiedObjectType.fields[0].schema;
    var v := Violation(JsonString.MissingId, At(".Field") + "Expected a value, but got nothing.");
    var os := Validation.FieldOutcomes(env, StringifiedObjectType, [], "", 1);
    assert Validation.FieldPath("", "Field") == ".Field";
    assert Validation.From(env, fieldType, JNull, ".Field", true) == Violated([v]);
    assert os == [Violated([v])];
    assert Validation.Merge(os) == [v];
    assert Validation.From(env, StringifiedObjectType, JObject([]), "", true)
      == Validation.ObjectFields(env, StringifiedObjectType, [], "");
  }
}
