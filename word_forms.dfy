/** The word-form generator: a base word and three suffixed forms
    (plural, past, gerund) from one fixed suffix rule. */
module Inflection {
  import opened Text

  predicate EndsWithE(s: string) {
    |s| > 0 && s[|s| - 1] == 'e'
  }

  /** The base with a trailing 'e' dropped, the base itself otherwise. */
  function Root(base: string): (root: string)
    ensures EndsWithE(base) ==> root + "e" == base
    ensures !EndsWithE(base) ==> root == base
  {
    if EndsWithE(base) then base[..|base| - 1] else base
  }

  /** The forms list: the base first, then base + "s", root + "ed", root + "ing".
      The source builds it by extending a list in place; this is the list it
      ends with. */
  function WordForms(base: string): (forms: seq<string>)
  {
    var root := Root(base);
    [base, base + "s", root + "ed", root + "ing"]
  }

  /** The generator as the source runs it: start from the base alone, then
      extend the list with the three suffixed forms of the matching branch. */
  method GenerateWordForms(base: string) returns (forms: seq<string>)
    ensures forms == WordForms(base)
    ensures |forms| == 4 && forms[0] == base
  {
    forms := [base];
    if EndsWithE(base) {
      var root := base[..|base| - 1];
      forms := forms + [base + "s", root + "ed", root + "ing"];
    } else {
      forms := forms + [base + "s", base + "ed", base + "ing"];
    }
  }

  /** The suffix rule in its two branches. */
  lemma WordFormsRule(base: string)
    ensures |WordForms(base)| == 4 && WordForms(base)[0] == base && WordForms(base)[1] == base + "s"
    ensures EndsWithE(base) ==>
      WordForms(base)[2] == base[..|base| - 1] + "ed" && WordForms(base)[3] == base[..|base| - 1] + "ing"
    ensures !EndsWithE(base) ==>
      WordForms(base)[2] == base + "ed" && WordForms(base)[3] == base + "ing"
  {
  }

  /** The four forms are pairwise different, whatever the base. */
  lemma WordFormsDistinct(base: string)
    ensures forall i, j :: 0 <= i < j < |WordForms(base)| ==> WordForms(base)[i] != WordForms(base)[j]
  {
    var f := WordForms(base);
    var root := Root(base);
    if EndsWithE(base) {
      // lengths |base|, |base| + 1, |base| + 1, |base| + 2: only forms 1 and 2 share a length
      assert |f[1]| == |f[2]| && f[1][|base|] == 's' && f[2][|base|] == 'd';
    } else {
      assert |f[0]| < |f[1]| < |f[2]| < |f[3]|;
    }
  }

  /** A lower-case base gives lower-case forms. */
  lemma WordFormsLower(base: string)
    requires IsLowerStr(base)
    ensures forall k :: 0 <= k < |WordForms(base)| ==> IsLowerStr(WordForms(base)[k])
  {
    var root := Root(base);
    assert IsLowerStr(root) by {
      assert forall i :: 0 <= i < |root| ==> root[i] == base[i];
    }
    assert forall a: string, b: string :: IsLowerStr(a) && IsLowerStr(b) ==> IsLowerStr(a + b) by {
      forall a: string, b: string | IsLowerStr(a) && IsLowerStr(b) ensures IsLowerStr(a + b) {
        assert forall i :: 0 <= i < |a + b| ==> (a + b)[i] == if i < |a| then a[i] else b[i - |a|];
      }
    }
  }

  /** "delve" takes the trailing-'e' branch: delves, delved, delving. */
  lemma WordFormsDelve()
    ensures WordForms("delve") == ["delve", "delves", "delved", "delving"]
  {
    assert Root("delve") == "delv";
    assert "delve" + "s" == "delves";
    assert "delv" + "ed" == "delved";
    assert "delv" + "ing" == "delving";
  }

  /** "analyze" ends in 'e' too and gives analyzes, analyzed, analyzing. */
  lemma WordFormsAnalyze()
    ensures WordForms("analyze") == ["analyze", "analyzes", "analyzed", "analyzing"]
  {
    assert Root("analyze") == "analyz";
    assert "analyze" + "s" == "analyzes";
    assert "analyz" + "ed" == "analyzed";
    assert "analyz" + "ing" == "analyzing";
  }

  /** A base without a trailing 'e' gets the suffixes appended unchanged. */
  lemma WordFormsResearch()
    ensures WordForms("research") == ["research", "researchs", "researched", "researching"]
  {
    assert Root("research") == "research";
    assert "research" + "s" == "researchs";
    assert "research" + "ed" == "researched";
    assert "research" + "ing" == "researching";
  }
}
