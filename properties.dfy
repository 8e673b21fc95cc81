/** What the engine promises, stated over the specification in `Validation`
    and `Serialization`: where each child is validated, that no violation is
    lost and all keep their order, that every violation names a location
    under the path it was found at, that a rejection always says why, and
    that writing a value out and reading it back gives the same value. */
module Properties {
  import opened Wrappers
  import opened ExpectationViolation
  import opened Json
  import opened Expectation
  import opened Schema
  import opened Validation
  import opened Serialization
  import ValueObject
  import JsonString
  import JsonBool
  import JsonInt
  import JsonDouble
  import JsonEnum

  // ----- where each child is validated -----

  /** Element `k` of a list is validated as a required value at `{path}[k]`. */
  lemma {:induction false} ElementOutcomeAt(env: Env, s: Schema, items: seq<Token>, path: string, n: nat, k: nat)
    requires s.ListS? && n <= |items| && k < n
    ensures ElementOutcomes(env, s, items, path, n)[k] == From(env, s.element, items[k], ElementPath(path, k), true)
    decreases n
  {
    if k < n - 1 {
      ElementOutcomeAt(env, s, items, path, n - 1, k);
    }
  }

  /** Property `k` of an object is validated at `{path}.{name}` from the
      member of that name (null when there is none), required exactly when
      it is declared so. */
  lemma {:induction false} FieldOutcomeAt(env: Env, s: Schema, members: Members, path: string, n: nat, k: nat)
    requires s.ObjectS? && n <= |s.fields| && k < n
    ensures FieldOutcomes(env, s, members, path, n)[k] ==
      From(env, s.fields[k].schema, Lookup(members, s.fields[k].jsonName).GetOr(JNull),
           FieldPath(path, s.fields[k].jsonName), s.fields[k].required)
    decreases n
  {
    if k < n - 1 {
      FieldOutcomeAt(env, s, members, path, n - 1, k);
    }
  }

  // ----- no violation is lost, and they keep their order -----

  /** The parent's violations are exactly those of the children before
      child `k`, then child `k`'s own, then those of the children after it. */
  lemma MergeSplit<T>(os: seq<Outcome<T>>, k: nat)
    requires k < |os|
    ensures Merge(os) == Merge(os[..k]) + ViolationsOf(os[k]) + Merge(os[k + 1..])
  {
    var upTo, after := os[..k + 1], os[k + 1..];
    assert os == upTo + after;
    MergeAppend(upTo, after);
    assert upTo[..|upTo| - 1] == os[..k] && upTo[|upTo| - 1] == os[k];
    assert Merge(upTo) == Merge(os[..k]) + ViolationsOf(os[k]);
  }

  /** The number of violations the children reported, summed one child at a time. */
  function ViolationCount<T>(os: seq<Outcome<T>>): nat {
    if |os| == 0 then 0 else |ViolationsOf(os[0])| + ViolationCount(os[1..])
  }

  /** The parent's violation count is the sum of its children's counts. */
  lemma {:induction false} MergeCount<T>(os: seq<Outcome<T>>)
    ensures |Merge(os)| == ViolationCount(os)
    decreases |os|
  {
    if |os| > 0 {
      assert os == [os[0]] + os[1..];
      MergeAppend([os[0]], os[1..]);
      assert [os[0]][..0] == [];
      MergeCount(os[1..]);
    }
  }

  /** The parent collected nothing exactly when no child reported anything. */
  lemma {:induction false} MergeEmptyIff<T>(os: seq<Outcome<T>>)
    ensures |Merge(os)| == 0 <==> forall k :: 0 <= k < |os| ==> ViolationsOf(os[k]) == []
    decreases |os|
  {
    if |os| > 0 {
      var init := os[..|os| - 1];
      MergeEmptyIff(init);
      assert forall k :: 0 <= k < |init| ==> init[k] == os[k];
    }
  }

  /** When every child reports something exactly when it fails, the parent
      collected nothing exactly when every child succeeded. */
  lemma MergeEmptyIffBuilt<T>(os: seq<Outcome<T>>)
    requires forall k :: 0 <= k < |os| ==> (ViolationsOf(os[k]) == [] <==> os[k].Built?)
    ensures |Merge(os)| == 0 <==> forall k :: 0 <= k < |os| ==> os[k].Built?
  {
    MergeEmptyIff(os);
  }

  /** With hooks that never reject silently, a property reports nothing
      exactly when it was built. */
  lemma FieldsReportIffRejected(env: Env, s: Schema, members: Members, path: string)
    requires s.ObjectS? && NonSilentHooks(s)
    ensures forall k :: 0 <= k < |s.fields| ==>
      (ViolationsOf(FieldOutcomes(env, s, members, path, |s.fields|)[k]) == [] <==>
       FieldOutcomes(env, s, members, path, |s.fields|)[k].Built?)
  {
    var os := FieldOutcomes(env, s, members, path, |s.fields|);
    forall k | 0 <= k < |os|
      ensures ViolationsOf(os[k]) == [] <==> os[k].Built?
    {
      var f := s.fields[k];
      assert f in s.fields;
      FieldOutcomeAt(env, s, members, path, |s.fields|, k);
      RejectionsExplained(env, f.schema, Lookup(members, f.jsonName).GetOr(JNull), FieldPath(path, f.jsonName), f.required);
    }
  }

  /** A child whose outcome was a success holds the value it built. */
  predicate AllPresent(os: seq<Outcome<Option<Instance>>>) {
    forall k :: 0 <= k < |os| ==> os[k].Built? && os[k].value.Some?
  }

  /** When every element was built, the list holds all of them in order. */
  lemma {:induction false} ValuesAllPresent(os: seq<Outcome<Option<Instance>>>)
    requires AllPresent(os)
    ensures |Values(os)| == |os|
    ensures forall k :: 0 <= k < |os| ==> Values(os)[k] == os[k].value.value
    decreases |os|
  {
    if |os| > 0 {
      var init := os[..|os| - 1];
      assert forall k :: 0 <= k < |init| ==> init[k] == os[k];
      ValuesAllPresent(init);
    }
  }

  /** A string token given for an object type is parsed and validated
      as the object it holds. */
  lemma StringifiedObject(env: Env, s: Schema, t: Token, path: string, required: bool)
    requires s.ObjectS? && t.JString?
    ensures env.parseObject(t.str).None? ==>
      From(env, s, t, path, required) == Fail(NotStringifiedId, path, NotStringifiedMessage)
    ensures env.parseObject(t.str).Some? ==>
      From(env, s, t, path, required) == ObjectFields(env, s, env.parseObject(t.str).value, path)
  {
    assert From(env, s, t, path, required) == ObjectFrom(env, s, t, path, required);
    assert ObjectFrom(env, s, t, path, required) == FromStringifiedObject(env, s, t.str, path, required);
    if env.parseObject(t.str).Some? {
      var ms := env.parseObject(t.str).value;
      assert FromStringifiedObject(env, s, t.str, path, required) == ObjectFrom(env, s, JObject(ms), path, required);
    }
  }

  // ----- a rejection always says why -----

  /** With hooks that never reject silently, a rejected value carries at
      least one violation. */
  lemma RejectionsExplained(env: Env, s: Schema, t: Token, path: string, required: bool)
    requires NonSilentHooks(s)
    ensures From(env, s, t, path, required).Violated? ==> |From(env, s, t, path, required).violations| > 0
  {
    match s
    case ListS(_, _, _) =>
      if t.JArray? {
        assert From(env, s, t, path, required) == ListParseAndValidate(env, s, t.items, path);
      }
    case ObjectS(_, _) =>
      if t.JObject? {
        assert From(env, s, t, path, required) == ObjectFields(env, s, t.members, path);
      } else if t.JString? {
        StringifiedObject(env, s, t, path, required);
      }
    case _ =>
  }

  /** A list is built exactly when every element was built and the list's
      own `Validate` accepted the list of them. */
  lemma ListBuiltIff(env: Env, s: Schema, items: seq<Token>, path: string)
    requires s.ListS? && NonSilentHooks(s)
    ensures var os := ElementOutcomes(env, s, items, path, |items|);
      ListParseAndValidate(env, s, items, path).Built? <==>
        (forall k :: 0 <= k < |items| ==> os[k].Built?) &&
        s.validateList(ValueObject.From(s.kind, Values(os)), path).Built?
  {
    var os := ElementOutcomes(env, s, items, path, |items|);
    MergeEmptyIff(os);
    forall k | 0 <= k < |items|
      ensures ViolationsOf(os[k]) == [] <==> os[k].Built?
    {
      ElementOutcomeAt(env, s, items, path, |items|, k);
      RejectionsExplained(env, s.element, items[k], ElementPath(path, k), true);
    }
    if |Merge(os)| == 0 {
      var verdict := s.validateList(ValueObject.From(s.kind, Values(os)), path);
      assert ListParseAndValidate(env, s, items, path).Built? <==> verdict.Built?;
    }
  }

  /** A built list has one entry per array element, in array order, each
      the value that element's own `From` built. */
  lemma ListBuiltContents(env: Env, s: Schema, items: seq<Token>, path: string)
    requires s.ListS? && FilterHooks(s) && ListParseAndValidate(env, s, items, path).Built?
    ensures var os := ElementOutcomes(env, s, items, path, |items|);
      var x := ListParseAndValidate(env, s, items, path).value;
      x.Some? && x.value.ListI? && |x.value.l.value| == |items| &&
      s.validateList(x.value.l, path) == Built(x.value.l) &&
      forall k :: 0 <= k < |items| ==> os[k] == Built(Some(x.value.l.value[k]))
  {
    var os := ElementOutcomes(env, s, items, path, |items|);
    FiltersAreNonSilent(s);
    ListBuiltIff(env, s, items, path);
    forall k | 0 <= k < |items|
      ensures os[k].Built? && os[k].value.Some?
    {
      ElementOutcomeAt(env, s, items, path, |items|, k);
    }
    ValuesAllPresent(os);
    MergeEmptyIff(os);
    var verdict := s.validateList(ValueObject.From(s.kind, Values(os)), path);
    assert verdict == Built(ValueObject.From(s.kind, Values(os)));
  }

  /** An object is built exactly when every property was, and then each
      property holds what its own `From` returned. */
  lemma ObjectBuiltIff(env: Env, s: Schema, members: Members, path: string)
    requires s.ObjectS? && NonSilentHooks(s)
    ensures ObjectFields(env, s, members, path).Built? <==>
      forall k :: 0 <= k < |s.fields| ==> FieldOutcomes(env, s, members, path, |s.fields|)[k].Built?
    ensures ObjectFields(env, s, members, path).Built? ==>
      ObjectFields(env, s, members, path).value == Some(ObjectI(s.kind, Slots(FieldOutcomes(env, s, members, path, |s.fields|))))
    ensures ObjectFields(env, s, members, path).Built? ==>
      forall k :: 0 <= k < |s.fields| ==>
        ObjectFields(env, s, members, path).value.value.slots[k] == FieldOutcomes(env, s, members, path, |s.fields|)[k].value
  {
    var os := FieldOutcomes(env, s, members, path, |s.fields|);
    FieldsReportIffRejected(env, s, members, path);
    MergeEmptyIffBuilt(os);
    var r := ObjectFields(env, s, members, path);
    assert r.Built? <==> |Merge(os)| == 0;
    if r.Built? {
      assert forall k :: 0 <= k < |os| ==> Slots(os)[k] == SlotOf(os[k]) == os[k].value;
    }
  }

  // ----- every violation names a location under where it was found -----

  /** A violation reported under a child's path is reported under the parent's. */
  lemma ReportedUnderPrefix(v: Violation, path: string, child: string)
    requires |path| <= |child| && child[..|path|] == path && ReportedUnder(v, child)
    ensures ReportedUnder(v, path)
  {
    assert v.description[..|path| + 2] == v.description[..|child| + 2][..|path| + 2];
    assert ("@(" + child)[..|path| + 2] == "@(" + path;
  }

  lemma {:induction false} MergeReportedUnder<T>(os: seq<Outcome<T>>, path: string)
    requires forall k :: 0 <= k < |os| ==> AllReportedUnder(ViolationsOf(os[k]), path)
    ensures AllReportedUnder(Merge(os), path)
    decreases |os|
  {
    if |os| > 0 {
      var init := os[..|os| - 1];
      assert forall k :: 0 <= k < |init| ==> init[k] == os[k];
      MergeReportedUnder(init, path);
    }
  }

  /** Every violation `From(token, path, required)` reports names `path` or
      a location below it, when every `Validate` hook reports at its path. */
  lemma {:induction false} ReportedUnderFrom(env: Env, s: Schema, t: Token, path: string, required: bool)
    requires AttributedHooks(s)
    ensures From(env, s, t, path, required).Violated? ==> AllReportedUnder(From(env, s, t, path, required).violations, path)
    decreases s, 2
  {
    match s
    case ListS(_, _, _) =>
      if t.JArray? {
        ListReportedUnder(env, s, t.items, path);
      }
    case ObjectS(_, _) =>
      if t.JObject? {
        ObjectReportedUnder(env, s, t.members, path);
      } else if t.JString? {
        StringifiedObject(env, s, t, path, required);
        if env.parseObject(t.str).Some? {
          ObjectReportedUnder(env, s, env.parseObject(t.str).value, path);
        }
      }
    case _ =>
  }

  lemma {:induction false} ListReportedUnder(env: Env, s: Schema, items: seq<Token>, path: string)
    requires s.ListS? && AttributedHooks(s)
    ensures ListParseAndValidate(env, s, items, path).Violated? ==>
      AllReportedUnder(ListParseAndValidate(env, s, items, path).violations, path)
    decreases s, 1
  {
    var os := ElementOutcomes(env, s, items, path, |items|);
    forall k | 0 <= k < |os|
      ensures AllReportedUnder(ViolationsOf(os[k]), path)
    {
      var child := ElementPath(path, k);
      ElementOutcomeAt(env, s, items, path, |items|, k);
      ReportedUnderFrom(env, s.element, items[k], child, true);
      forall j | 0 <= j < |ViolationsOf(os[k])|
        ensures ReportedUnder(ViolationsOf(os[k])[j], path)
      {
        ReportedUnderPrefix(ViolationsOf(os[k])[j], path, child);
      }
    }
    MergeReportedUnder(os, path);
  }

  lemma {:induction false} ObjectReportedUnder(env: Env, s: Schema, members: Members, path: string)
    requires s.ObjectS? && AttributedHooks(s)
    ensures ObjectFields(env, s, members, path).Violated? ==>
      AllReportedUnder(ObjectFields(env, s, members, path).violations, path)
    decreases s, 1
  {
    var os := FieldOutcomes(env, s, members, path, |s.fields|);
    forall k | 0 <= k < |os|
      ensures AllReportedUnder(ViolationsOf(os[k]), path)
    {
      var f := s.fields[k];
      assert f in s.fields;
      var child := FieldPath(path, f.jsonName);
      FieldOutcomeAt(env, s, members, path, |s.fields|, k);
      ReportedUnderFrom(env, f.schema, Lookup(members, f.jsonName).GetOr(JNull), child, f.required);
      forall j | 0 <= j < |ViolationsOf(os[k])|
        ensures ReportedUnder(ViolationsOf(os[k])[j], path)
      {
        ReportedUnderPrefix(ViolationsOf(os[k])[j], path, child);
      }
    }
    MergeReportedUnder(os, path);
  }

  // ----- what is built can be written out and read back -----

  /** The culture's `double.TryParse` reads back the text its `ToString`
      writes for every double it has itself parsed: a parsed double is a
      fixed point of writing and re-reading. */
  ghost predicate ParsedDoublesStable(env: Env) {
    forall text :: env.parseDouble(text).Some? ==>
      env.parseDouble(env.formatDouble(env.parseDouble(text).value)) == env.parseDouble(text)
  }

  /** Every double wrapper in `x` is written as text that the culture reads
      back as the same double. */
  predicate DoublesReadBack(env: Env, s: Schema, x: Instance)
    requires Conforms(s, x)
    decreases s
  {
    match s
    case DoubleS(_, _) => env.parseDouble(env.formatDouble(x.d.value)) == Some(x.d.value)
    case ListS(_, element, _) =>
      forall k :: 0 <= k < |x.l.value| ==> DoublesReadBack(env, element, x.l.value[k])
    case ObjectS(_, fields) =>
      forall k :: 0 <= k < |fields| ==> x.slots[k].Some? ==>
        DoublesReadBack(env, fields[k].schema, x.slots[k].value)
    case _ => true
  }

  /** A culture that is stable on what it parses exists: one that reads only
      "0" and writes every double as "0". */
  lemma StableCultureExists()
    ensures exists env: Env :: ParsedDoublesStable(env)
  {
    var env := Env((text: string) => None, (t: Token) => "",
                   (text: string) => if text == "0" then Some(0.0) else None, (v: real) => "0");
    assert ParsedDoublesStable(env);
  }

  /** A value `From` builds fits its type and passes its hooks where it was
      found, when every hook is a filter; and its doubles read back, when
      the culture is stable on what it parses. */
  lemma {:induction false} BuiltIsRebuildable(env: Env, s: Schema, t: Token, path: string, required: bool, x: Instance)
    requires FilterHooks(s) && From(env, s, t, path, required) == Built(Some(x))
    ensures Representable(s, x) && Accepted(s, x, path)
    ensures ParsedDoublesStable(env) ==> DoublesReadBack(env, s, x)
    decreases s, 2
  {
    match s
    case ListS(_, _, _) =>
      ListIsRebuildable(env, s, t.items, path, x);
    case ObjectS(_, _) =>
      if t.JObject? {
        ObjectIsRebuildable(env, s, t.members, path, x);
      } else {
        assert t.JString?;
        StringifiedObject(env, s, t, path, required);
        ObjectIsRebuildable(env, s, env.parseObject(t.str).value, path, x);
      }
    case DoubleS(kind, h) =>
      var o := JsonDouble.From(kind, t, path, required, h, env.parseDouble);
      assert t.Primitive() && env.parseDouble(Text(t)).Some?;
      var v := env.parseDouble(Text(t)).value;
      assert h(ValueObject.ValueOf(kind, v), path) == Built(x.d);
      assert x.d.value == v;
    case _ =>
  }

  lemma {:induction false} ListIsRebuildable(env: Env, s: Schema, items: seq<Token>, path: string, x: Instance)
    requires s.ListS? && FilterHooks(s) && ListParseAndValidate(env, s, items, path) == Built(Some(x))
    ensures Representable(s, x) && Accepted(s, x, path)
    ensures ParsedDoublesStable(env) ==> DoublesReadBack(env, s, x)
    decreases s, 1
  {
    ListBuiltContents(env, s, items, path);
    forall k | 0 <= k < |x.l.value|
      ensures Representable(s.element, x.l.value[k])
      ensures Accepted(s.element, x.l.value[k], ElementPath(path, k))
      ensures ParsedDoublesStable(env) ==> DoublesReadBack(env, s.element, x.l.value[k])
    {
      ElementOutcomeAt(env, s, items, path, |items|, k);
      BuiltIsRebuildable(env, s.element, items[k], ElementPath(path, k), true, x.l.value[k]);
    }
  }

  lemma {:induction false} ObjectIsRebuildable(env: Env, s: Schema, members: Members, path: string, x: Instance)
    requires s.ObjectS? && FilterHooks(s) && ObjectFields(env, s, members, path) == Built(Some(x))
    ensures Representable(s, x) && Accepted(s, x, path)
    ensures ParsedDoublesStable(env) ==> DoublesReadBack(env, s, x)
    decreases s, 1
  {
    var os := FieldOutcomes(env, s, members, path, |s.fields|);
    MergeEmptyIff(os);
    forall k | 0 <= k < |s.fields|
      ensures os[k].Built? && x.slots[k] == os[k].value
      ensures x.slots[k].Some? ==> Representable(s.fields[k].schema, x.slots[k].value)
      ensures x.slots[k].Some? ==>
        Accepted(s.fields[k].schema, x.slots[k].value, FieldPath(path, s.fields[k].jsonName))
      ensures x.slots[k].Some? && ParsedDoublesStable(env) ==>
        DoublesReadBack(env, s.fields[k].schema, x.slots[k].value)
      ensures x.slots[k].None? ==> !s.fields[k].required
    {
      var f := s.fields[k];
      assert f in s.fields;
      var token := Lookup(members, f.jsonName).GetOr(JNull);
      FieldOutcomeAt(env, s, members, path, |s.fields|, k);
      FiltersAreNonSilent(f.schema);
      RejectionsExplained(env, f.schema, token, FieldPath(path, f.jsonName), f.required);
      if os[k].value.Some? {
        BuiltIsRebuildable(env, f.schema, token, FieldPath(path, f.jsonName), f.required, os[k].value.value);
      }
    }
  }

  // ----- serialization, child by child -----

  lemma {:induction false} ElementTokenAt(env: Env, s: Schema, x: Instance, path: string, n: nat, k: nat)
    requires s.ListS? && Conforms(s, x) && n <= |x.l.value| && k < n
    ensures ElementTokens(env, s, x, path, n)[k] == ToToken(env, s.element, x.l.value[k], ElementPath(path, k))
    decreases n
  {
    if k < n - 1 {
      ElementTokenAt(env, s, x, path, n - 1, k);
    }
  }

  /** Looking a name up in two runs of members finds it in the first run if
      it is there. */
  lemma {:induction false} LookupAppend(a: Members, b: Members, name: string)
    ensures Lookup(a + b, name) == if Lookup(a, name).Some? then Lookup(a, name) else Lookup(b, name)
    decreases |a|
  {
    if |a| > 0 {
      assert (a + b)[1..] == a[1..] + b;
      LookupAppend(a[1..], b, name);
    } else {
      assert a + b == b;
    }
  }

  /** In the members written for an object with distinct property names,
      property `k` is found under its own name exactly when it is not null. */
  lemma {:induction false} MemberLookup(env: Env, s: Schema, x: Instance, path: string, n: nat, k: nat)
    requires s.ObjectS? && WellFormed(s) && Conforms(s, x) && n <= |s.fields| && k < |s.fields|
    ensures Lookup(MemberTokens(env, s, x, path, n), s.fields[k].jsonName) ==
      if k < n && x.slots[k].Some? then
        Some(ToToken(env, s.fields[k].schema, x.slots[k].value, FieldPath(path, s.fields[k].jsonName)))
      else None
    decreases n
  {
    if n > 0 {
      var f := s.fields[n - 1];
      var init := MemberTokens(env, s, x, path, n - 1);
      var tail: Members :=
        match x.slots[n - 1]
        case None => []
        case Some(v) => [(f.jsonName, ToToken(env, f.schema, v, FieldPath(path, f.jsonName)))];
      assert MemberTokens(env, s, x, path, n) == init + tail;
      MemberLookup(env, s, x, path, n - 1, k);
      LookupAppend(init, tail, s.fields[k].jsonName);
      if k != n - 1 {
        assert s.fields[k].jsonName != f.jsonName;
      }
    }
  }

  // ----- round trip -----

  /** A value written out with `ToJToken(path)` and read back with
      `From(token, path, required)` is the same value, for any wrapper type
      whose property names are distinct, provided the value fits (32-bit
      integers, known enum members, no required property left null) and its
      own `Validate` hooks accept it and its doubles read back as themselves. */
  lemma {:induction false} RoundTrip(env: Env, s: Schema, x: Instance, path: string, required: bool)
    requires WellFormed(s) && Representable(s, x) && Accepted(s, x, path) && DoublesReadBack(env, s, x)
    ensures From(env, s, ToToken(env, s, x, path), path, required) == Built(Some(x))
    decreases s, 1
  {
    match s
    case StringS(_, h) => JsonString.RoundTrip(x.s, path, required, h);
    case BoolS(_, h) => JsonBool.RoundTrip(x.b, path, required, h);
    case IntS(_, h) => JsonInt.RoundTrip(x.i, path, required, h);
    case DoubleS(_, h) =>
      JsonDouble.RoundTrip(x.d, path, required, h, env.parseDouble, env.formatDouble);
    case EnumS(_, names, h) => JsonEnum.RoundTrip(names, x.e, path, required, h);
    case ListS(_, _, _) =>
      ListRoundTrip(env, s, x, path);
      assert From(env, s, ToToken(env, s, x, path), path, required) == ListParseAndValidate(env, s, ElementTokens(env, s, x, path, |x.l.value|), path);
    case ObjectS(_, _) =>
      ObjectRoundTrip(env, s, x, path);
      assert From(env, s, ToToken(env, s, x, path), path, required) == ObjectFields(env, s, MemberTokens(env, s, x, path, |s.fields|), path);
  }

  /** The list case: every element reads back as itself, so the list does. */
  lemma {:induction false} ListRoundTrip(env: Env, s: Schema, x: Instance, path: string)
    requires s.ListS? && WellFormed(s) && Representable(s, x) && Accepted(s, x, path) && DoublesReadBack(env, s, x)
    ensures ListParseAndValidate(env, s, ElementTokens(env, s, x, path, |x.l.value|), path) == Built(Some(x))
    decreases s, 0
  {
    var xs := x.l.value;
    var items := ElementTokens(env, s, x, path, |xs|);
    var os := ElementOutcomes(env, s, items, path, |items|);
    forall k | 0 <= k < |xs|
      ensures os[k] == Built(Some(xs[k]))
    {
      ElementTokenAt(env, s, x, path, |xs|, k);
      ElementOutcomeAt(env, s, items, path, |items|, k);
      RoundTrip(env, s.element, xs[k], ElementPath(path, k), true);
    }
    MergeEmptyIff(os);
    ValuesAllPresent(os);
    assert Values(os) == xs;
    assert ValueObject.From(s.kind, xs) == x.l;
  }

  /** The object case: every property reads back as itself (a null one as
      an absent optional member), so the object does. */
  lemma {:induction false} ObjectRoundTrip(env: Env, s: Schema, x: Instance, path: string)
    requires s.ObjectS? && WellFormed(s) && Representable(s, x) && Accepted(s, x, path) && DoublesReadBack(env, s, x)
    ensures ObjectFields(env, s, MemberTokens(env, s, x, path, |s.fields|), path) == Built(Some(x))
    decreases s, 0
  {
    var fields := s.fields;
    var ms := MemberTokens(env, s, x, path, |fields|);
    var os := FieldOutcomes(env, s, ms, path, |fields|);
    forall k | 0 <= k < |fields|
      ensures os[k] == Built(x.slots[k])
    {
      var f := fields[k];
      FieldOutcomeAt(env, s, ms, path, |fields|, k);
      MemberLookup(env, s, x, path, |fields|, k);
      if x.slots[k].Some? {
        RoundTrip(env, f.schema, x.slots[k].value, FieldPath(path, f.jsonName), f.required);
      }
    }
    MergeEmptyIff(os);
    assert Slots(os) == x.slots;
  }

  /** `FromJsonString(ToJsonString())` gives back the same object, when the
      JSON parser reads the text written for this object as the members it
      was written from. */
  lemma JsonStringRoundTrip(env: Env, s: Schema, x: Instance)
    requires s.ObjectS? && WellFormed(s) && Representable(s, x) && Accepted(s, x, "")
    requires DoublesReadBack(env, s, x)
    requires env.parseObject(env.writeJson(ToToken(env, s, x, ""))) == Some(MemberTokens(env, s, x, "", |s.fields|))
    ensures FromJsonString(env, s, env.writeJson(ToToken(env, s, x, ""))) == Built(Some(x))
  {
    RoundTrip(env, s, x, "", true);
  }

  /** Validating the token a validated value writes out gives that value
      again: `From` after `ToJToken` after `From` is `From`. */
  lemma Idempotent(env: Env, s: Schema, t: Token, path: string, required: bool, x: Instance)
    requires WellFormed(s) && FilterHooks(s) && ParsedDoublesStable(env)
    requires From(env, s, t, path, required) == Built(Some(x))
    ensures Conforms(s, x) && From(env, s, ToToken(env, s, x, path), path, required) == Built(Some(x))
  {
    BuiltIsRebuildable(env, s, t, path, required, x);
    RoundTrip(env, s, x, path, required);
  }
}
