/**
 * The string primitives the search uses: ECMAScript `String.prototype.trim`,
 * `toLowerCase` (restricted to ASCII letters), `startsWith` and `includes`.
 */
module Text {

  /** The code points `trim` strips: ECMAScript's WhiteSpace and LineTerminator. */
  predicate IsSpace(c: char) {
    var n := c as int;
    || (0x09 <= n <= 0x0D) || n == 0x20 || n == 0xA0 || n == 0x1680
    || (0x2000 <= n <= 0x200A) || n == 0x2028 || n == 0x2029
    || n == 0x202F || n == 0x205F || n == 0x3000 || n == 0xFEFF
  }

  /** Number of white-space characters at the start of `s`. */
  function LeadingSpaces(s: string): (n: nat)
    ensures n <= |s|
    ensures forall k :: 0 <= k < n ==> IsSpace(s[k])
    ensures n == |s| || !IsSpace(s[n])
  {
    if s != [] && IsSpace(s[0]) then 1 + LeadingSpaces(s[1..]) else 0
  }

  /** Number of white-space characters at the end of `s`. */
  function TrailingSpaces(s: string): (n: nat)
    ensures n <= |s|
    ensures forall k :: |s| - n <= k < |s| ==> IsSpace(s[k])
    ensures n == |s| || !IsSpace(s[|s| - n - 1])
  {
    if s != [] && IsSpace(s[|s| - 1]) then 1 + TrailingSpaces(s[..|s| - 1]) else 0
  }

  /**
   * `s.trim()`: the longest slice of `s` that neither starts nor ends with
   * white space, obtained by removing only white space from both ends.
   */
  function Trim(s: string): (t: string)
    ensures LeadingSpaces(s) + |t| <= |s|
    ensures t == s[LeadingSpaces(s)..LeadingSpaces(s) + |t|]
    ensures forall k :: 0 <= k < |s| && !(LeadingSpaces(s) <= k < LeadingSpaces(s) + |t|) ==> IsSpace(s[k])
    ensures t == [] || (!IsSpace(t[0]) && !IsSpace(t[|t| - 1]))
  {
    var a := LeadingSpaces(s);
    var rest := s[a..];
    rest[..|rest| - TrailingSpaces(rest)]
  }

  /** ASCII `toLowerCase` of one character. */
  function LowerChar(c: char): char {
    if 'A' <= c <= 'Z' then (c as int + 32) as char else c
  }

  /** `s.toLowerCase()`, restricted to ASCII letters: a character-by-character map. */
  function Lower(s: string): (r: string)
    ensures |r| == |s|
    ensures forall i :: 0 <= i < |s| ==> r[i] == LowerChar(s[i])
  {
    if s == [] then [] else [LowerChar(s[0])] + Lower(s[1..])
  }

  /** `s.startsWith(p)`. */
  predicate StartsWith(s: string, p: string) {
    |p| <= |s| && s[..|p|] == p
  }

  /** `p` occurs in `s` beginning at index `i`. */
  predicate OccursAt(s: string, p: string, i: nat) {
    i + |p| <= |s| && s[i..i + |p|] == p
  }

  /** `s.includes(p)`. */
  predicate Contains(s: string, p: string) {
    exists i: nat | i <= |s| :: OccursAt(s, p, i)
  }

  /** Lower-casing commutes with slicing. */
  lemma LowerSlice(s: string, i: nat, j: nat)
    requires i <= j <= |s|
    ensures Lower(s[i..j]) == Lower(s)[i..j]
  {
  }

  /** A string without upper-case ASCII letters is its own lower-case form. */
  lemma LowerKeepsLowercase(s: string)
    requires forall i :: 0 <= i < |s| ==> !('A' <= s[i] <= 'Z')
    ensures Lower(s) == s
  {
  }

  /** A prefix is also an occurrence, at index 0. */
  lemma PrefixIsContained(s: string, p: string)
    requires StartsWith(s, p)
    ensures Contains(s, p)
  {
    assert OccursAt(s, p, 0);
  }

  /** Any slice of a prefix of `s` occurs in `s` at the slice's own offset. */
  lemma PrefixSliceOccurs(s: string, p: string, a: nat, b: nat)
    requires StartsWith(s, p)
    requires a <= b <= |p|
    ensures OccursAt(s, p[a..b], a)
  {
    forall i | 0 <= i < b - a
      ensures s[a..b][i] == p[a..b][i]
    {
      assert s[a + i] == s[..|p|][a + i];
    }
  }

  /**
   * The trimmed, lower-cased form of `q` is a piece of the lower-cased `q`:
   * anything starting with `Lower(q)` contains `Lower(Trim(q))`.
   */
  lemma StartsWithLowerContainsNormalized(s: string, q: string)
    requires StartsWith(s, Lower(q))
    ensures Contains(s, Lower(Trim(q)))
  {
    var a := LeadingSpaces(q);
    var t := Trim(q);
    LowerSlice(q, a, a + |t|);
    PrefixSliceOccurs(s, Lower(q), a, a + |t|);
    assert OccursAt(s, Lower(t), a);
  }
}
