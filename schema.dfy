/** The field descriptors that stand in for reflection, and the values the
    engine builds. A `Schema` is one expectation type: which wrapper it is,
    its concrete type name (`kind`), its `Validate` hook, and for an object
    type the ordered list of its fields. An `Instance` is a value of such a
    type. */
module Schema {
  import opened Wrappers
  import opened ValueObject
  import opened Expectation
  import JsonEnum

  datatype Schema =
    | StringS(kind: string, validateString: Hook<string>)
    | BoolS(kind: string, validateBool: Hook<bool>)
    | IntS(kind: string, validateInt: Hook<int>)
    | DoubleS(kind: string, validateDouble: Hook<real>)
    | EnumS(kind: string, names: seq<string>, validateEnum: Hook<nat>)
    | ListS(kind: string, element: Schema, validateList: Hook<seq<Instance>>)
    | ObjectS(kind: string, fields: seq<Field>)

  /** One property of an object type: its name in JSON (the `JsonProperty`
      name, else the property name), whether it is `[Required]`, and its type. */
  datatype Field = Field(jsonName: string, required: bool, schema: Schema)

  /** A value built by the engine. An object's `slots` hold its properties
      in field order; `None` is a property left null. */
  datatype Instance =
    | StringI(s: ValueOf<string>)
    | BoolI(b: ValueOf<bool>)
    | IntI(i: ValueOf<int>)
    | DoubleI(d: ValueOf<real>)
    | EnumI(e: ValueOf<nat>)
    | ListI(l: ValueOf<seq<Instance>>)
    | ObjectI(kind: string, slots: seq<Option<Instance>>)

  /** `x` is a value of the type `s` (what C#'s static typing guarantees of
      every property and list element). */
  predicate Conforms(s: Schema, x: Instance)
    decreases s
  {
    match s
    case StringS(kind, _) => x.StringI? && x.s.kind == kind
    case BoolS(kind, _) => x.BoolI? && x.b.kind == kind
    case IntS(kind, _) => x.IntI? && x.i.kind == kind
    case DoubleS(kind, _) => x.DoubleI? && x.d.kind == kind
    case EnumS(kind, _, _) => x.EnumI? && x.e.kind == kind
    case ListS(kind, element, _) =>
      x.ListI? && x.l.kind == kind &&
      forall k :: 0 <= k < |x.l.value| ==> Conforms(element, x.l.value[k])
    case ObjectS(kind, fields) =>
      x.ObjectI? && x.kind == kind && |x.slots| == |fields| &&
      forall k :: 0 <= k < |fields| ==> x.slots[k].Some? ==> Conforms(fields[k].schema, x.slots[k].value)
  }

  /** What a well-wired model declaration satisfies: the properties of an
      object type have distinct JSON names, and enum members distinct names. */
  predicate WellFormed(s: Schema)
    decreases s
  {
    match s
    case EnumS(_, names, _) => JsonEnum.DistinctNames(names)
    case ListS(_, element, _) => WellFormed(element)
    case ObjectS(_, fields) =>
      (forall a, b :: 0 <= a < b < |fields| ==> fields[a].jsonName != fields[b].jsonName) &&
      (forall k :: 0 <= k < |fields| ==> WellFormed(fields[k].schema))
    case _ => true
  }

  /** Every `Validate` hook in the type is a filter (passes its wrapper through
      unchanged or rejects it with at least one violation). */
  ghost predicate FilterHooks(s: Schema)
    decreases s
  {
    match s
    case StringS(_, h) => Filter(h)
    case BoolS(_, h) => Filter(h)
    case IntS(_, h) => Filter(h)
    case DoubleS(_, h) => Filter(h)
    case EnumS(_, _, h) => Filter(h)
    case ListS(_, element, h) => Filter(h) && FilterHooks(element)
    case ObjectS(_, fields) => forall k :: 0 <= k < |fields| ==> FilterHooks(fields[k].schema)
  }

  /** No `Validate` hook in the type rejects without a violation. */
  ghost predicate NonSilentHooks(s: Schema)
    decreases s
  {
    match s
    case StringS(_, h) => NonSilent(h)
    case BoolS(_, h) => NonSilent(h)
    case IntS(_, h) => NonSilent(h)
    case DoubleS(_, h) => NonSilent(h)
    case EnumS(_, _, h) => NonSilent(h)
    case ListS(_, element, h) => NonSilent(h) && NonSilentHooks(element)
    case ObjectS(_, fields) => forall k :: 0 <= k < |fields| ==> NonSilentHooks(fields[k].schema)
  }

  /** A type whose hooks are all filters never rejects silently. */
  lemma {:induction false} FiltersAreNonSilent(s: Schema)
    requires FilterHooks(s)
    ensures NonSilentHooks(s)
    decreases s
  {
    match s
    case ListS(_, element, _) =>
      FiltersAreNonSilent(element);
    case ObjectS(_, fields) =>
      forall k | 0 <= k < |fields|
        ensures NonSilentHooks(fields[k].schema)
      {
        assert fields[k] in fields;
        FiltersAreNonSilent(fields[k].schema);
      }
    case _ =>
  }

  /** Every `Validate` hook in the type reports at the path it is given. */
  ghost predicate AttributedHooks(s: Schema)
    decreases s
  {
    match s
    case StringS(_, h) => Attributed(h)
    case BoolS(_, h) => Attributed(h)
    case IntS(_, h) => Attributed(h)
    case DoubleS(_, h) => Attributed(h)
    case EnumS(_, _, h) => Attributed(h)
    case ListS(_, element, h) => Attributed(h) && AttributedHooks(element)
    case ObjectS(_, fields) => forall k :: 0 <= k < |fields| ==> AttributedHooks(fields[k].schema)
  }
}
