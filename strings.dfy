/** The Python string and list operations the proxy relies on. */
module Strings {

  /** No element occurs twice. */
  ghost predicate Distinct<T>(s: seq<T>) {
    forall i, j :: 0 <= i < j < |s| ==> s[i] != s[j]
  }

  /** `sub` occurs in `s` starting at position `i`. */
  predicate OccursAt(s: string, sub: string, i: int) {
    0 <= i && i + |sub| <= |s| && s[i..i + |sub|] == sub
  }

  /** Python's `sub in s` on two strings: `sub` occurs somewhere in `s`,
      not necessarily at the start. */
  predicate Contains(s: string, sub: string) {
    exists i :: 0 <= i <= |s| && OccursAt(s, sub, i)
  }

  /** Python's slice `s[n:]`, which is empty, not an error, when `s` is
      shorter than `n`. */
  function Drop(s: string, n: nat): (r: string)
    ensures n <= |s| ==> s == s[..n] + r
    ensures |s| <= n ==> r == ""
  {
    if |s| <= n then "" else s[n..]
  }

  lemma ContainsPrefix(p: string, rest: string)
    ensures Contains(p + rest, p)
  {
    assert OccursAt(p + rest, p, 0);
  }
}
