/**
 * Lower-casing of model names.  Python's `str.lower` is modelled on the
 * ASCII letters: 'A'..'Z' become 'a'..'z' and every other character is
 * left as it is.
 */
module Text {

  predicate IsUpper(c: char) {
    'A' <= c <= 'Z'
  }

  predicate IsLower(c: char) {
    'a' <= c <= 'z'
  }

  function LowerChar(c: char): (r: char)
    ensures !IsUpper(r)
    ensures IsUpper(c) ==> IsLower(r) && r as int - c as int == 'a' as int - 'A' as int
    ensures !IsUpper(c) ==> r == c
  {
    if IsUpper(c) then (c as int + 32) as char else c
  }

  /** `s.lower()`: the string with every character lower-cased, in place. */
  function Lower(s: string): (r: string)
    ensures |r| == |s|
    ensures forall i :: 0 <= i < |s| ==> r[i] == LowerChar(s[i])
  {
    if s == [] then [] else [LowerChar(s[0])] + Lower(s[1..])
  }

  /** Lower-casing twice is lower-casing once. */
  lemma LowerIdempotent(s: string)
    ensures Lower(Lower(s)) == Lower(s)
  {
  }

  /**
   * `s` is a case variant of `w`: the same length, and at every position
   * either the character of `w` or, for a letter, its upper-case partner.
   */
  predicate CaseVariant(s: string, w: string) {
    |s| == |w| &&
    forall i :: 0 <= i < |s| ==>
      s[i] == w[i] || (IsLower(w[i]) && s[i] as int == w[i] as int - ('a' as int - 'A' as int))
  }

  /** The strings whose lower-case form is a given lower-case word are exactly its case variants. */
  lemma LowerEqualsWord(s: string, w: string)
    requires forall i :: 0 <= i < |w| ==> !IsUpper(w[i])
    ensures Lower(s) == w <==> CaseVariant(s, w)
  {
    if Lower(s) == w {
      forall i | 0 <= i < |s|
        ensures s[i] == w[i] || (IsLower(w[i]) && s[i] as int == w[i] as int - ('a' as int - 'A' as int))
      {
        assert LowerChar(s[i]) == w[i];
      }
    }
    if |s| == |w| && forall i :: 0 <= i < |s| ==>
        s[i] == w[i] || (IsLower(w[i]) && s[i] as int == w[i] as int - ('a' as int - 'A' as int)) {
      forall i | 0 <= i < |s| ensures Lower(s)[i] == w[i] {
        assert LowerChar(s[i]) == w[i];
      }
    }
  }
}
