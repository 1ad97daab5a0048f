/** Generic facts about splitting and joining strings. */
module Strings {
  import opened Wrappers

  /** The position of the last occurrence of c in s. */
  function LastIndexOf(s: string, c: char): (r: Option<nat>)
    ensures r.None? <==> c !in s
    ensures r.Some? ==> r.value < |s| && s[r.value] == c
    ensures r.Some? ==> forall j | r.value < j < |s| :: s[j] != c
  {
    if s == [] then None
    else if s[|s| - 1] == c then Some(|s| - 1)
    else
      assert forall x :: x in s <==> x in s[..|s| - 1] || x == s[|s| - 1];
      LastIndexOf(s[..|s| - 1], c)
  }

  /** A string that starts with h and ends with p is h, its middle part, then p. */
  lemma Reassemble(q: string, h: string, p: string)
    requires |q| >= |h| + |p| && q[..|h|] == h && q[|q| - |p|..] == p
    ensures q == h + q[|h|..|q| - |p|] + p
  {
    assert q == q[..|h|] + q[|h|..|q| - |p|] + q[|q| - |p|..];
  }

  /** The three slices of a + b + c at the seams are a, b and c. */
  lemma SlicesOfJoin(a: string, b: string, c: string)
    ensures (a + b + c)[..|a|] == a
    ensures (a + b + c)[|a|..|a| + |b|] == b
    ensures (a + b + c)[|a| + |b|..] == c
  {
  }

  /**
   * Associativity of joining, stated over variables: the same step asserted
   * about the query's string constants sends the solver into their characters.
   */
  lemma Regroup(a: string, b: string, c: string, d: string, e: string)
    ensures a + b + c + d + e == a + (b + c + d) + e
  {
  }
}
