# Word Usage Bench, modelled in Dafny

A model of the logic of the word-usage benchmark (`delve_bench.py`): a
benchmark that asks a language model a fixed set of writing prompts and
scores each response 1.0 when the target word ("delve" by default), or one of
its inflected forms, appears in it as a whole word, and 0.0 otherwise.

The model covers the three deterministic pieces of the file:

- **Word-form generator** (`word_forms.dfy`, module `Inflection`): the base
  word plus `base+"s"`, `root+"ed"`, `root+"ing"`, where `root` drops a
  trailing `'e'`. `WordForms` is the list; `GenerateWordForms` builds it the
  way the source does, by extending a one-element list.
- **Scorer** (`text.dfy`, `matching.dfy`, `scorer.dfy`; modules `Text`,
  `Matching`, `Scoring`): the scorer built from a target word and an optional
  list of forms (form selection), and the score of one completion. The regular
  expression `\b(?:f1|f2|...)\b` over escaped forms is modelled by what a
  search for it decides: `Matching.Matches` says some form occurs literally at
  some position with a word boundary on both sides, and `Matching.Search` is a
  left-to-right scan (positions in order, alternatives in order) proved to
  decide exactly that. A boundary at position `p` holds when exactly one of the
  characters at `p - 1` and `p` is a word character, positions outside the text
  counting as non-word.
- **Dataset builders** (`dataset.dfy`, module `Dataset`): the 21 varied-prompt
  samples with ids `<target>_01` ... `<target>_21`, the "delve" instance, and the
  ten original-prompt samples with ids `original_<target>_01` ...
  `original_<target>_10`. Both are loops that append to a list; the ids are
  proved pairwise distinct from the injectivity of two-digit zero padding
  (proved for every natural number, not only 1..99).

Two edge cases of the word-form rule are kept as the code has them: "analyze"
ends in 'e', so it takes the trailing-'e' branch (`Inflection.WordFormsAnalyze`);
and the empty word is accepted and gives `""`, `"s"`, `"ed"`, `"ing"`.

The defaults of the source's parameters are kept: the target word defaults to
"delve" in `Scoring.WordUsageScorer`, `Dataset.CreateWordUsageDataset` and
`Dataset.CreateOriginalSamples`, and the optional forms list defaults to `None`.

## Model

| member | source | states |
|---|---|---|
| Inflection.WordForms | delve_bench.py:18-39 | the list `_generate_word_forms` returns: the base, base+"s", root+"ed", root+"ing", where the root drops a trailing 'e' |
| Inflection.Root | delve_bench.py:23-25 | the root plus "e" is the base when the base ends in 'e'; otherwise the root is the base |
| Inflection.GenerateWordForms | delve_bench.py:18-39 | extending `[base]` with the branch's three forms yields exactly `WordForms(base)`: four forms, the base first |
| Inflection.WordFormsRule | delve_bench.py:18-39 | exactly 4 forms, form 0 is the base and form 1 is base+"s"; with a trailing 'e' forms 2-3 are base[:-1]+"ed"/"ing", otherwise base+"ed"/"ing" |
| Inflection.WordFormsDistinct | delve_bench.py:20-37 | the four generated forms are pairwise different for every base word |
| Inflection.WordFormsLower | delve_bench.py:18-39 | a lower-case base gives four lower-case forms |
| Inflection.WordFormsDelve | delve_bench.py:23-30 | "delve" gives delve, delves, delved, delving |
| Inflection.WordFormsAnalyze | delve_bench.py:23-30 | "analyze" takes the trailing-'e' branch and gives analyze, analyzes, analyzed, analyzing |
| Inflection.WordFormsResearch | delve_bench.py:31-37 | a base without trailing 'e' ("research") gets "s", "ed", "ing" appended to the whole base |
| Text.Lower | delve_bench.py:62 | the lower-cased character is never upper-case, is a word character exactly when the original is, and non-upper-case characters are unchanged |
| Text.LowerStr | delve_bench.py:62 | lower-casing keeps the length, lower-cases each character in place and yields a lower-case string |
| Text.SameIgnoringCaseIffLowerEqual | delve_bench.py:62 | two strings agree up to case exactly when their lower-cased forms are equal (both directions) |
| Matching.Boundary | delve_bench.py:65 | `\b` at a position: a word character on exactly one side of it, positions outside the text counting as non-word |
| Matching.MatchAt | delve_bench.py:65 | one alternative of `\b(?:...)\b`, escaped so it matches literally, occurs at a position with `\b` before and after it |
| Matching.Matches | delve_bench.py:65-66 | what a successful `re.search` of the pattern means: some form matches as a whole word at some position |
| Matching.MatchAnyAt | delve_bench.py:65-66 | trying the alternatives from index k at one position succeeds iff some later form matches there as a whole word |
| Matching.SearchFrom | delve_bench.py:65-66 | the scan from position i succeeds iff some form matches as a whole word at some position at or after i |
| Matching.Search | delve_bench.py:65-66 | the search succeeds iff some form occurs literally with a word boundary immediately before and after it |
| Matching.MatchAtLower | delve_bench.py:62-66 | a form matches at a position of the lower-cased text iff it occurs there in the text as written, up to case, with word boundaries around it |
| Matching.BoundaryLower | delve_bench.py:62-65 | lower-casing the text moves no word boundary |
| Matching.NoMatchInEmpty | delve_bench.py:65-66 | no form, not even an empty one, matches in the empty text |
| Matching.WholeWordMatchAt | delve_bench.py:65 | a form with word characters at both ends matches where it stands between text ends or non-word characters |
| Matching.SingleTokenMatch | delve_bench.py:65 | in a text made only of word characters a form matches iff it is the whole text or empty, so a form glued to other word characters never matches |
| Scoring.WordUsageScorer | delve_bench.py:43-58 | with forms given (non-empty list) they are the given forms lower-cased in order; with None or [] they are the generated forms of the lower-cased target; the forms list is never empty and every form is lower-case; the target is kept as written |
| Scoring.Explanation | delve_bench.py:71 | the explanation text: the target word as given, quoted, then "(or forms) found: " and True or False |
| Scoring.ScoreResponse | delve_bench.py:60-72 | value is 1.0 iff some form matches as a whole word in the lower-cased completion, else 0.0; answer is the lower-cased completion; explanation names the original target word and True/False |
| Scoring.ScoreOnOriginalText | delve_bench.py:62-69 | the value is 1.0 iff some form occurs in the completion as written, ignoring case, with word boundaries on both sides |
| Scoring.ScoreIgnoresCase | delve_bench.py:62-70 | two completions that differ only in letter case get the identical score record |
| Scoring.ScoreEmptyResponse | delve_bench.py:62-71 | an empty completion scores 0.0 with a "False" explanation, whatever the forms |
| Scoring.WholeWordScores | delve_bench.py:62-69 | a word whose lower-case form is one of the forms scores 1.0 between text ends or non-word characters, in any case |
| Scoring.SingleTokenScore | delve_bench.py:62-69 | a completion made only of word characters scores 1.0 iff its lower-case form is one of the forms or an empty form is given |
| Scoring.GluedDelveDoesNotScore | delve_bench.py:62-69 | "undelvemore", in any mix of case, scores 0.0 for a scorer searching for the four "delve" forms |
| Scoring.DefaultFormsIgnoreTargetCase | delve_bench.py:52-58 | without given forms (None or []) the forms depend only on the target's letters, not their case |
| Scoring.DefaultDelveForms | delve_bench.py:52-58 | the default scorer for "delve" (or "DELVE") searches for delve, delves, delved, delving |
| Scoring.DelveInCapitalsScores | delve_bench.py:62-69 | "We must DELVE into this" scores 1.0 for any scorer whose forms include "delve" |
| Scoring.DelveBeforePunctuationScores | delve_bench.py:62-69 | "Let's delve in." and "Delve," score 1.0 for any scorer whose forms include "delve" |
| Dataset.Digit | delve_bench.py:116 | a digit character, which is '0' exactly for 0 |
| Dataset.Decimal | delve_bench.py:116 | the numeral has one character exactly below 10, no leading zero for a positive number, and ends in the last decimal digit |
| Dataset.Pad2 | delve_bench.py:116 | `{n:02d}` has at least two characters and starts with the padding '0' exactly for numbers below 10 |
| Dataset.Pad2TwoDigits | delve_bench.py:116 | below 100 `{n:02d}` is exactly the tens digit followed by the units digit |
| Dataset.DecimalInjective | delve_bench.py:116 | different numbers have different numerals |
| Dataset.Pad2Injective | delve_bench.py:116 | different numbers have different zero-padded numerals |
| Dataset.SampleId | delve_bench.py:116 | the sample id `f"{prefix}_{n:02d}"` |
| Dataset.SampleIdInjective | delve_bench.py:116 | `prefix_NN` ids with different numbers differ |
| Dataset.SequentialIdsDistinct | delve_bench.py:113-119 | samples numbered 1, 2, ... under one prefix have pairwise distinct ids |
| Dataset.SamplesForPrompts | delve_bench.py:113-121 | one sample per prompt, in order: sample i has id target_pad2(i+1), input prompt i and the target word; ids pairwise distinct |
| Dataset.CreateWordUsageDataset | delve_bench.py:77-121 | one sample per varied prompt (21, see `PromptCount`) in prompt order; sample i has id target_pad2(i+1), input prompt i and target the target word; ids pairwise distinct |
| Dataset.Prompts | delve_bench.py:80-111 | the 21 varied prompts, verbatim and in order |
| Dataset.PromptCount | delve_bench.py:80-111 | there are 21 varied prompts |
| Dataset.CreateDelveDataset | delve_bench.py:124-126 | the "delve" dataset: 21 samples, ids delve_01 ... delve_21, prompt i as input, target "delve", distinct ids |
| Dataset.CreateOriginalSamples | delve_bench.py:158-167 | 10 samples, all with the original prompt and the target word, ids original_target_pad2(i+1), pairwise distinct |
| Dataset.OriginalPromptIsFirst | delve_bench.py:158 | the repeated original prompt is the first of the varied prompts |
| Dataset.PaddedExamples | delve_bench.py:116 | 1, 10 and 21 are formatted "01", "10", "21" |

## Left out

- Unicode: `str.lower` is modelled as ASCII lower-casing and the word characters of `\b` as ASCII `[A-Za-z0-9_]`; Unicode letters, digits and case mappings (including ones that change length) are not modelled.
- The regular-expression engine and `re.escape` are replaced by the literal-occurrence-with-boundaries predicate they implement; only whether a match exists is modelled, not where the leftmost match is (the source uses only the boolean).
- The evaluation framework: `Task`, the `@task` and `@scorer` decorators, the `generate()` solver, `GenerateConfig` and the `accuracy()`/`stderr()` metrics are foreign code, so `word_usage_bench`, `word_usage_bench_original` (beyond its sample loop and scorer arguments), `delve_bench` and `delve_bench_original` are not modelled as task objects.
- The `async` scoring closure and `state.output.completion` plumbing: the completion text is a parameter of `Scoring.ScoreResponse`; the unused `target` argument of the closure is dropped.
- The `__main__` block only prints usage text.
- The prompt texts are kept verbatim as constants, but nothing is proved about their wording.
- Score aggregation over samples (floating-point accuracy and standard error) is left to the framework; the per-sample value is the real number 1.0 or 0.0.
- The in-place extension of the forms list is modelled on a local sequence variable (`Inflection.GenerateWordForms`); nothing aliases that list in the source.
