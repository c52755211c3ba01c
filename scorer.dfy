/** The word-usage scorer: form selection when the scorer is built, and the
    per-response score (value, lower-cased answer, explanation). */
module Scoring {
  import opened Text
  import opened Inflection
  import opened Matching

  datatype Option<T> = None | Some(value: T)

  /** One sample's score: 1.0 or 0.0, the lower-cased response, and an explanation. */
  datatype Score = Score(value: real, answer: string, explanation: string)

  /** What the scoring closure captures: the target word as given and the forms it searches for. */
  datatype Scorer = Scorer(targetWord: string, forms: seq<string>)

  /** Python truthiness of the optional forms list: both `None` and `[]` are false. */
  predicate HasForms(wordForms: Option<seq<string>>) {
    wordForms.Some? && wordForms.value != []
  }

  /** Builds the scorer. Given forms are lower-cased one by one, in order; without
      any, the forms are generated from the lower-cased target word. */
  function WordUsageScorer(targetWord: string := "delve", wordForms: Option<seq<string>> := None): (sc: Scorer)
    ensures sc.targetWord == targetWord
    ensures !HasForms(wordForms) ==> sc.forms == WordForms(LowerStr(targetWord))
    ensures HasForms(wordForms) ==>
      |sc.forms| == |wordForms.value| &&
      forall k :: 0 <= k < |sc.forms| ==> sc.forms[k] == LowerStr(wordForms.value[k])
    ensures |sc.forms| > 0
    ensures forall k :: 0 <= k < |sc.forms| ==> IsLowerStr(sc.forms[k])
  {
    if HasForms(wordForms) then
      var given := wordForms.value;
      Scorer(targetWord, seq(|given|, k requires 0 <= k < |given| => LowerStr(given[k])))
    else
      WordFormsLower(LowerStr(targetWord));
      Scorer(targetWord, WordForms(LowerStr(targetWord)))
  }

  /** The explanation names the target word as the caller wrote it, not lower-cased. */
  function Explanation(targetWord: string, found: bool): string {
    "'" + targetWord + "' (or forms) found: " + (if found then "True" else "False")
  }

  /** Scores one model completion. */
  function ScoreResponse(sc: Scorer, completion: string): (s: Score)
    ensures s.answer == LowerStr(completion)
    ensures s.value == (if Matches(LowerStr(completion), sc.forms) then 1.0 else 0.0)
    ensures s.explanation == Explanation(sc.targetWord, s.value == 1.0)
  {
    var response := LowerStr(completion);
    var found := Search(response, sc.forms);
    Score(if found then 1.0 else 0.0, response, Explanation(sc.targetWord, found))
  }

  /** The score read on the response as the model wrote it: 1.0 exactly when some
      form occurs in it, ignoring case, as a whole word. */
  lemma ScoreOnOriginalText(sc: Scorer, completion: string)
    ensures ScoreResponse(sc, completion).value == 1.0 <==>
      exists i: nat, k :: 0 <= k < |sc.forms| && MatchIgnoringCaseAt(completion, sc.forms[k], i)
  {
    forall i: nat, f: string
      ensures MatchAt(LowerStr(completion), f, i) <==> MatchIgnoringCaseAt(completion, f, i)
    {
      MatchAtLower(completion, f, i);
    }
  }

  /** Changing the case of the response changes neither its score nor its answer. */
  lemma ScoreIgnoresCase(sc: Scorer, r1: string, r2: string)
    requires SameIgnoringCase(r1, r2)
    ensures ScoreResponse(sc, r1) == ScoreResponse(sc, r2)
  {
    SameIgnoringCaseIffLowerEqual(r1, r2);
  }

  /** An empty completion is "not found", whatever the forms. */
  lemma ScoreEmptyResponse(sc: Scorer)
    ensures ScoreResponse(sc, "").value == 0.0
    ensures ScoreResponse(sc, "").explanation == Explanation(sc.targetWord, false)
  {
    NoMatchInEmpty(sc.forms);
  }

  /** A word whose lower-case form is one of the forms scores 1.0 wherever it stands
      as a whole word: at either end of the text or next to a non-word character. */
  lemma WholeWordScores(sc: Scorer, before: string, w: string, after: string)
    requires LowerStr(w) in sc.forms
    requires |w| > 0 && IsWordChar(w[0]) && IsWordChar(w[|w| - 1])
    requires before == [] || !IsWordChar(before[|before| - 1])
    requires after == [] || !IsWordChar(after[0])
    ensures ScoreResponse(sc, before + w + after).value == 1.0
  {
    var low := LowerStr(before + w + after);
    var lb, lw, la := LowerStr(before), LowerStr(w), LowerStr(after);
    LowerStrAppend(before + w, after);
    LowerStrAppend(before, w);
    assert low == lb + lw + la;
    WholeWordMatchAt(lb, lw, la);
    var k :| 0 <= k < |sc.forms| && sc.forms[k] == lw;
    assert MatchAt(low, sc.forms[k], |lb|);
  }

  /** Without explicit forms only the target's letters matter, not their case. */
  lemma DefaultFormsIgnoreTargetCase(t1: string, t2: string)
    requires SameIgnoringCase(t1, t2)
    ensures WordUsageScorer(t1, None).forms == WordUsageScorer(t2, None).forms
    ensures WordUsageScorer(t1, Some([])).forms == WordUsageScorer(t2, None).forms
  {
    SameIgnoringCaseIffLowerEqual(t1, t2);
  }

  /** The default scorer searches for delve, delves, delved and delving. */
  lemma DefaultDelveForms()
    ensures WordUsageScorer("delve", None).forms == ["delve", "delves", "delved", "delving"]
    ensures WordUsageScorer("DELVE", None).forms == ["delve", "delves", "delved", "delving"]
  {
    LowerStrOfLower("delve");
    assert LowerStr("DELVE") == "delve";
    WordFormsDelve();
  }

  /** "DELVE" in capitals, between spaces, is found by any scorer searching for
      "delve", the default one included (`DefaultDelveForms`). */
  lemma DelveInCapitalsScores(sc: Scorer)
    requires "delve" in sc.forms
    ensures ScoreResponse(sc, "We must DELVE into this").value == 1.0
  {
    assert LowerStr("DELVE") == "delve";
    assert "We must " + "DELVE" + " into this" == "We must DELVE into this";
    WholeWordScores(sc, "We must ", "DELVE", " into this");
  }

  /** "delve" followed by punctuation is found, at the start of the text or after a space. */
  lemma DelveBeforePunctuationScores(sc: Scorer)
    requires "delve" in sc.forms
    ensures ScoreResponse(sc, "Let's delve in.").value == 1.0
    ensures ScoreResponse(sc, "Delve,").value == 1.0
  {
    LowerStrOfLower("delve");
    assert LowerStr("Delve") == "delve";
    assert "Let's " + "delve" + " in." == "Let's delve in.";
    WholeWordScores(sc, "Let's ", "delve", " in.");
    assert "" + "Delve" + "," == "Delve,";
    WholeWordScores(sc, "", "Delve", ",");
  }

  /** A response that is one run of word characters scores 1.0 exactly when, lower-cased,
      it is one of the forms (or an empty form is given): a form glued to further
      letters, digits or underscores is never found. */
  lemma SingleTokenScore(sc: Scorer, w: string)
    requires |w| > 0 && forall q :: 0 <= q < |w| ==> IsWordChar(w[q])
    ensures ScoreResponse(sc, w).value == 1.0 <==> LowerStr(w) in sc.forms || "" in sc.forms
  {
    SingleTokenMatch(LowerStr(w), sc.forms);
  }

  /** "delve" glued inside a longer word, in any mix of case, is not found by a
      scorer searching for the "delve" forms. */
  lemma GluedDelveDoesNotScore(sc: Scorer, response: string)
    requires sc.forms == ["delve", "delves", "delved", "delving"]
    requires LowerStr(response) == "undelvemore"
    ensures ScoreResponse(sc, response).value == 0.0
  {
    var low := LowerStr(response);
    assert forall q :: 0 <= q < |response| ==> IsWordChar(low[q]) == IsWordChar(response[q]);
    assert forall k :: 0 <= k < |sc.forms| ==> 0 < |sc.forms[k]| < |low|;
    SingleTokenScore(sc, response);
  }
}
