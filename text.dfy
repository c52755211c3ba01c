/** Characters and strings as the scorer sees them: ASCII lower-casing (the
    model of Python's `str.lower`) and the word characters of the regular
    expression escape `\b`, restricted to ASCII `[A-Za-z0-9_]`. */
module Text {

  predicate IsUpper(c: char) {
    'A' <= c <= 'Z'
  }

  /** The characters `\w` matches, restricted to ASCII. */
  predicate IsWordChar(c: char) {
    'a' <= c <= 'z' || IsUpper(c) || '0' <= c <= '9' || c == '_'
  }

  /** ASCII lower-casing of one character. */
  function Lower(c: char): (r: char)
    ensures !IsUpper(r)
    ensures IsWordChar(r) == IsWordChar(c)
    ensures !IsUpper(c) ==> r == c
  {
    if IsUpper(c) then (c as int + 32) as char else c
  }

  predicate IsLowerStr(s: string) {
    forall i :: 0 <= i < |s| ==> !IsUpper(s[i])
  }

  /** `s.lower()`: every character lower-cased, nothing else changed. */
  function LowerStr(s: string): (r: string)
    ensures |r| == |s|
    ensures forall i :: 0 <= i < |s| ==> r[i] == Lower(s[i])
    ensures IsLowerStr(r)
  {
    if s == [] then [] else [Lower(s[0])] + LowerStr(s[1..])
  }

  /** Two strings that differ at most in the case of their letters. */
  predicate SameIgnoringCase(a: string, b: string) {
    |a| == |b| && forall i :: 0 <= i < |a| ==> Lower(a[i]) == Lower(b[i])
  }

  /** Lower-casing leaves an already lower-case string unchanged (so it is idempotent). */
  lemma LowerStrOfLower(s: string)
    requires IsLowerStr(s)
    ensures LowerStr(s) == s
  {
    assert forall i :: 0 <= i < |s| ==> LowerStr(s)[i] == s[i];
  }

  lemma LowerStrIdempotent(s: string)
    ensures LowerStr(LowerStr(s)) == LowerStr(s)
  {
    LowerStrOfLower(LowerStr(s));
  }

  /** Lower-casing commutes with concatenation. */
  lemma LowerStrAppend(a: string, b: string)
    ensures LowerStr(a + b) == LowerStr(a) + LowerStr(b)
  {
    assert forall i :: 0 <= i < |a + b| ==> LowerStr(a + b)[i] == (LowerStr(a) + LowerStr(b))[i];
  }

  /** Two strings agree up to case exactly when their lower-case forms are equal. */
  lemma SameIgnoringCaseIffLowerEqual(a: string, b: string)
    ensures SameIgnoringCase(a, b) <==> LowerStr(a) == LowerStr(b)
  {
    if LowerStr(a) == LowerStr(b) {
      assert forall i :: 0 <= i < |a| ==> Lower(a[i]) == LowerStr(a)[i] == LowerStr(b)[i] == Lower(b[i]);
    }
    if SameIgnoringCase(a, b) {
      assert forall i :: 0 <= i < |a| ==> LowerStr(a)[i] == LowerStr(b)[i];
    }
  }
}
