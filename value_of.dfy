/** `ValueOf<TValue, TThis>`: a wrapper type around exactly one value, with
    equality and hashing defined by the value and the concrete wrapper type.
    A wrapper is never changed after `From`, so it is modelled as a value:
    `kind` names the concrete wrapper type (`TThis`, the runtime type that
    `GetType()` returns) and `value` is `Value`. A C# reference that may be
    null is an `Option<ValueOf<T>>`. */
module ValueObject {
  import opened Wrappers

  datatype ValueOf<+T> = ValueOf(kind: string, value: T)

  /** `From(item)`: a fresh wrapper of type `kind` holding `item`. */
  function From<T>(kind: string, item: T): (x: ValueOf<T>)
    ensures x.value == item && x.kind == kind
  {
    ValueOf(kind, item)
  }

  /** `Equals(object obj)`: false for null, true for the same reference,
      otherwise same runtime type and equal values. */
  function Equals<T(==)>(self: ValueOf<T>, obj: Option<ValueOf<T>>): (r: bool)
    ensures r <==> obj == Some(self)
  {
    if obj.None? then false
    else obj.value.kind == self.kind && obj.value.value == self.value
  }

  /** `operator ==`: both null is true, one null is false, else `Equals`. */
  function Eq<T(==)>(a: Option<ValueOf<T>>, b: Option<ValueOf<T>>): (r: bool)
    ensures r <==> a == b
  {
    if a.None? && b.None? then true
    else if a.None? || b.None? then false
    else Equals(a.value, b)
  }

  /** `operator !=`: the negation of `==`. */
  function Neq<T(==)>(a: Option<ValueOf<T>>, b: Option<ValueOf<T>>): (r: bool)
    ensures r <==> a != b
  {
    !Eq(a, b)
  }

  /** `GetHashCode()`: the value's own hash, supplied as `hash`. */
  function HashCode<T>(self: ValueOf<T>, hash: T -> int): int {
    hash(self.value)
  }

  /** Equal wrappers have equal hash codes, and the hash depends on the value only. */
  lemma EqualsImpliesEqualHash<T>(a: ValueOf<T>, b: ValueOf<T>, hash: T -> int)
    ensures Equals(a, Some(b)) ==> HashCode(a, hash) == HashCode(b, hash)
    ensures a.value == b.value ==> HashCode(a, hash) == HashCode(b, hash)
  {
  }

  /** `ToString()`: the value's own text, supplied as `show`. */
  function ToString<T>(self: ValueOf<T>, show: T -> string): string {
    show(self.value)
  }
}
