/** Whole-word matching: the search for `\b(?:f1|f2|...)\b` with every form
    escaped, so that each alternative matches literally. Because alternation
    backtracks, the search succeeds exactly when some form occurs at some
    position with a word boundary on both sides; `Matches` says that, and
    `Search` is the scan that decides it. */
module Matching {
  import opened Text

  /** Position `q` holds a word character; positions outside the text do not. */
  predicate WordAt(s: string, q: int) {
    0 <= q < |s| && IsWordChar(s[q])
  }

  /** `\b` at position `p`: a word character on exactly one side of `p`. */
  predicate Boundary(s: string, p: int) {
    WordAt(s, p - 1) != WordAt(s, p)
  }

  /** Form `f` occurs literally at position `i`, with a boundary before and after it. */
  predicate MatchAt(s: string, f: string, i: nat) {
    i + |f| <= |s| && s[i..i + |f|] == f && Boundary(s, i) && Boundary(s, i + |f|)
  }

  /** What a successful search promises: some form matches as a whole word somewhere. */
  ghost predicate Matches(s: string, forms: seq<string>) {
    exists i: nat, k :: 0 <= k < |forms| && MatchAt(s, forms[k], i)
  }

  /** The alternatives `forms[k..]` tried in order at position `i`. */
  function MatchAnyAt(s: string, forms: seq<string>, i: nat, k: nat): (r: bool)
    requires k <= |forms|
    ensures r <==> exists k' :: k <= k' < |forms| && MatchAt(s, forms[k'], i)
    decreases |forms| - k
  {
    if k == |forms| then false
    else MatchAt(s, forms[k], i) || MatchAnyAt(s, forms, i, k + 1)
  }

  /** The scan from position `i` to the end of the text. */
  function SearchFrom(s: string, forms: seq<string>, i: nat): (r: bool)
    requires i <= |s|
    ensures r <==> exists j: nat, k :: i <= j && 0 <= k < |forms| && MatchAt(s, forms[k], j)
    decreases |s| - i
  {
    MatchAnyAt(s, forms, i, 0) || (i < |s| && SearchFrom(s, forms, i + 1))
  }

  /** `bool(re.search(pattern, s))`. */
  function Search(s: string, forms: seq<string>): (found: bool)
    ensures found <==> Matches(s, forms)
  {
    SearchFrom(s, forms, 0)
  }

  /** Lower-casing moves no boundary, since it maps word characters to word characters. */
  lemma BoundaryLower(s: string, p: int)
    ensures Boundary(LowerStr(s), p) == Boundary(s, p)
  {
  }

  /** Form `f` occurs at `i` in the text as written, up to case, with word boundaries around it. */
  predicate MatchIgnoringCaseAt(s: string, f: string, i: nat) {
    && i + |f| <= |s|
    && (forall k :: 0 <= k < |f| ==> Lower(s[i + k]) == f[k])
    && Boundary(s, i) && Boundary(s, i + |f|)
  }

  /** Matching in the lower-cased text is matching up to case in the text as written. */
  lemma MatchAtLower(s: string, f: string, i: nat)
    ensures MatchAt(LowerStr(s), f, i) <==> MatchIgnoringCaseAt(s, f, i)
  {
    var low := LowerStr(s);
    BoundaryLower(s, i);
    BoundaryLower(s, i + |f|);
    if i + |f| <= |s| {
      var window := low[i..i + |f|];
      forall k | 0 <= k < |f|
        ensures window[k] == Lower(s[i + k])
      {
        assert window[k] == low[i + k];
      }
      if forall k :: 0 <= k < |f| ==> Lower(s[i + k]) == f[k] {
        assert window == f;
      }
    }
  }

  /** Nothing matches in the empty text: position 0 of "" has no word character on either side. */
  lemma NoMatchInEmpty(forms: seq<string>)
    ensures !Matches("", forms)
  {
  }

  /** A form with word characters at both ends matches where it stands between
      the text's ends or non-word characters. */
  lemma WholeWordMatchAt(before: string, f: string, after: string)
    requires |f| > 0 && IsWordChar(f[0]) && IsWordChar(f[|f| - 1])
    requires before == [] || !IsWordChar(before[|before| - 1])
    requires after == [] || !IsWordChar(after[0])
    ensures MatchAt(before + f + after, f, |before|)
  {
    var s := before + f + after;
    var i := |before|;
    assert s[i..i + |f|] == f;
    assert s[i] == f[0] && s[i + |f| - 1] == f[|f| - 1];
    assert i > 0 ==> s[i - 1] == before[i - 1];
    assert i + |f| < |s| ==> s[i + |f|] == after[0];
  }

  /** In a text made only of word characters the only boundaries are its two ends,
      so a form matches only when it is the whole text (or empty): a form glued
      to other word characters never matches. */
  lemma SingleTokenMatch(s: string, forms: seq<string>)
    requires |s| > 0 && forall q :: 0 <= q < |s| ==> IsWordChar(s[q])
    ensures Matches(s, forms) <==> s in forms || "" in forms
  {
    if Matches(s, forms) {
      var i: nat, k :| 0 <= k < |forms| && MatchAt(s, forms[k], i);
      var f := forms[k];
      // inside the text both neighbours of a position are word characters
      assert i == 0 || i == |s|;
      assert i + |f| == 0 || i + |f| == |s|;
      if |f| == 0 {
        assert f == "";
      } else {
        assert i == 0 && f == s[0..|s|] == s;
      }
    }
    if s in forms {
      var k :| 0 <= k < |forms| && forms[k] == s;
      assert s[0..|s|] == s;
      assert MatchAt(s, forms[k], 0);
    }
    if "" in forms {
      var k :| 0 <= k < |forms| && forms[k] == "";
      assert MatchAt(s, forms[k], 0);
    }
  }
}
