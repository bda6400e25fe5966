/**
  The two string tests the control handler relies on, `String.prototype.startsWith`
  and `String.prototype.includes`, on strings as sequences of characters.
 */
module Strings {

  /** `s.startsWith(p)`: p is a prefix of s. */
  predicate StartsWith(s: string, p: string) {
    |p| <= |s| && s[..|p|] == p
  }

  /** p occurs in s starting at index i. */
  predicate OccursAt(s: string, p: string, i: int) {
    0 <= i && i + |p| <= |s| && s[i..i + |p|] == p
  }

  /** `s.includes(p)`: p occurs in s at some index. */
  predicate Includes(s: string, p: string) {
    exists i | 0 <= i <= |s| - |p| :: OccursAt(s, p, i)
  }

  /** An occurrence of p at index i is enough for `s.includes(p)`. */
  lemma IncludesAt(s: string, p: string, i: int)
    requires 0 <= i && i + |p| <= |s| && s[i..i + |p|] == p
    ensures Includes(s, p)
  {
    assert OccursAt(s, p, i);
  }

  /** If one character of p does not occur anywhere in s, then s does not include p. */
  lemma MissingCharacter(s: string, p: string, j: int)
    requires 0 <= j < |p| && p[j] !in s
    ensures !Includes(s, p)
  {
  }
}
