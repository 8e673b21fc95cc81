/** A single violation record: a stable id and a human description that
    already embeds the document path. Models `ExpectationViolation`. */
module ExpectationViolation {
  import opened Wrappers

  /** `record ExpectationViolation(string Id, string Description)`: value equality. */
  datatype Violation = Violation(id: string, description: string)

  /** `Printable()`: "[" + Id + "] " + Description. */
  function Printable(v: Violation): (s: string)
    ensures |s| == |v.id| + |v.description| + 3
    ensures s[..|v.id| + 2] == "[" + v.id + "]"
    ensures s[|v.id| + 2] == ' '
    ensures s[|v.id| + 3..] == v.description
  {
    "[" + v.id + "] " + v.description
  }

  /** Record equality: two violations are equal exactly when their ids and descriptions are. */
  lemma ViolationEquality(a: Violation, b: Violation)
    ensures a == b <==> a.id == b.id && a.description == b.description
  {
  }

  /** The position of the first `c` in `s`, if any. */
  function IndexOf(s: string, c: char): (k: Option<nat>)
    ensures k.Some? ==> k.value < |s| && s[k.value] == c && c !in s[..k.value]
    ensures k.None? ==> c !in s
  {
    if |s| == 0 then None
    else if s[0] == c then Some(0)
    else
      match IndexOf(s[1..], c)
      case None => None
      case Some(k) => Some(k + 1)
  }

  /** Reads a printed violation back: the id is everything between the
      leading '[' and the first ']', the description everything after "] ". */
  function ParsePrintable(s: string): Option<Violation> {
    if |s| == 0 || s[0] != '[' then None
    else
      match IndexOf(s[1..], ']')
      case None => None
      case Some(k) =>
        if k + 3 <= |s| && s[k + 2] == ' ' then Some(Violation(s[1..k + 1], s[k + 3..]))
        else None
  }

  /** Printing loses nothing when the id holds no ']' (the ids are UUIDs). */
  lemma ParsePrintableRoundTrip(v: Violation)
    requires ']' !in v.id
    ensures ParsePrintable(Printable(v)) == Some(v)
  {
    var s := Printable(v);
    assert s[1..][..|v.id|] == v.id;
    assert s[1..][|v.id|] == ']';
    IndexOfFirst(s[1..], ']', |v.id|);
    assert s[1..|v.id| + 1] == v.id;
  }

  lemma IndexOfFirst(s: string, c: char, k: nat)
    requires k < |s| && s[k] == c && c !in s[..k]
    ensures IndexOf(s, c) == Some(k)
  {
    if k > 0 {
      assert s[1..][..k - 1] == s[1..k];
      assert forall j :: 0 <= j < k - 1 ==> s[1..][j] == s[..k][j + 1];
      IndexOfFirst(s[1..], c, k - 1);
    }
  }
}
