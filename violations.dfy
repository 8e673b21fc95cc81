/** The ordered, append-only violation accumulator `ExpectationViolations`. */
module ExpectationViolations {
  import opened Wrappers
  import opened ExpectationViolation

  /** `string.Join("\n", vs.Select(x => x.Printable()))`. */
  function Join(vs: seq<Violation>): (r: string)
    ensures r == "" <==> vs == []
  {
    if |vs| == 0 then ""
    else if |vs| == 1 then Printable(vs[0])
    else Printable(vs[0]) + "\n" + Join(vs[1..])
  }

  /** Joining a concatenation is joining the parts with one more separator. */
  lemma {:induction false} JoinAppend(a: seq<Violation>, b: seq<Violation>)
    requires |a| > 0 && |b| > 0
    ensures Join(a + b) == Join(a) + "\n" + Join(b)
  {
    if |a| == 1 {
      assert (a + b)[1..] == b;
    } else {
      assert (a + b)[1..] == a[1..] + b;
      JoinAppend(a[1..], b);
    }
  }

  /** Splits a text at every '\n'. */
  function Lines(s: string): (ls: seq<string>)
    ensures |ls| > 0
  {
    match IndexOf(s, '\n')
    case None => [s]
    case Some(k) => [s[..k]] + Lines(s[k + 1..])
  }

  ghost predicate SingleLine(v: Violation) {
    '\n' !in v.id && '\n' !in v.description
  }

  /** The printed set is one line per violation, in insertion order, when no
      violation spans several lines: splitting the text gives them back. */
  lemma {:induction false} LinesOfJoin(vs: seq<Violation>)
    requires |vs| > 0
    requires forall k :: 0 <= k < |vs| ==> SingleLine(vs[k])
    ensures |Lines(Join(vs))| == |vs|
    ensures forall k :: 0 <= k < |vs| ==> Lines(Join(vs))[k] == Printable(vs[k])
  {
    var p := Printable(vs[0]);
    assert '\n' !in p by {
      assert p == "[" + vs[0].id + "] " + vs[0].description;
      forall j | 0 <= j < |p| ensures p[j] != '\n' {
        if j < |vs[0].id| + 1 {
          assert j == 0 || p[j] == vs[0].id[j - 1];
        } else if j >= |vs[0].id| + 3 {
          assert p[j] == vs[0].description[j - |vs[0].id| - 3];
        }
      }
    }
    if |vs| == 1 {
      assert IndexOf(p, '\n') == None;
    } else {
      var rest := Join(vs[1..]);
      var s := p + "\n" + rest;
      assert s[..|p|] == p;
      IndexOfFirst(s, '\n', |p|);
      assert s[|p| + 1..] == rest;
      LinesOfJoin(vs[1..]);
    }
  }

  /** `record ExpectationViolations(List<ExpectationViolation> Violations)`. */
  class ViolationSet {
    var items: seq<Violation>

    /** The primary constructor over an existing list. */
    constructor FromList(vs: seq<Violation>)
      ensures items == vs
    {
      items := vs;
    }

    /** `params ExpectationViolation[]`: the array's entries, in array order. */
    constructor FromArray(a: array<Violation>)
      ensures items == a[..]
    {
      items := a[..];
    }

    /** One entry, also the implicit conversion from a single violation. */
    constructor Single(v: Violation)
      ensures items == [v]
    {
      items := [v];
    }

    /** One entry built from an id and a description. */
    constructor Of(id: string, description: string)
      ensures items == [Violation(id, description)]
    {
      items := [Violation(id, description)];
    }

    /** The empty set. */
    constructor ()
      ensures items == [] && IsEmpty()
    {
      items := [];
    }

    /** `Add(string id, string description)`. */
    method AddNew(id: string, description: string)
      modifies this
      ensures items == old(items) + [Violation(id, description)]
      ensures !IsEmpty()
    {
      items := items + [Violation(id, description)];
    }

    /** `Add(ExpectationViolation violation)`. */
    method Add(v: Violation)
      modifies this
      ensures items == old(items) + [v]
      ensures !IsEmpty()
    {
      items := items + [v];
    }

    /** `Add(ExpectationViolations violations)`: `AddRange` of the other set's
        entries, in their order; the other set is left as it was. */
    method AddAll(other: ViolationSet)
      modifies this
      ensures items == old(items) + old(other.items)
      ensures other != this ==> other.items == old(other.items)
      ensures |items| >= old(|items|)
      ensures IsEmpty() <==> old(IsEmpty()) && old(other.IsEmpty())
    {
      items := items + other.items;
    }

    /** `IsEmpty()`: the count is zero. */
    function IsEmpty(): (r: bool)
      reads this
      ensures r <==> items == []
    {
      |items| == 0
    }

    /** `Printable()`: the entries' printed forms joined by '\n'. */
    function Printable(): (r: string)
      reads this
      ensures r == "" <==> items == []
      ensures |items| == 1 ==> r == ExpectationViolation.Printable(items[0])
    {
      Join(items)
    }
  }
}
