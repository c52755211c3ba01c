/** The two sample lists: one sample per varied prompt, and the original
    prompt repeated ten times. Sample ids carry a sequence number formatted
    as `{n:02d}`. */
module Dataset {

  /** One benchmark case: the prompt fed to the model and the word it is scored against. */
  datatype Sample = Sample(id: string, input: string, target: string)

  /** The varied prompts, in order. */
  const Prompts: seq<string> := [
    "Write an introduction for the article about the impact of global warming on indigenous people of Finland",
    "Analyze the themes in Shakespeare's Hamlet",
    "Discuss the causes of the French Revolution",
    "Examine the relationship between technology and society",
    "Explore the concept of artificial intelligence ethics",
    "Investigate the effects of social media on mental health",
    "Research the history of quantum computing",
    "Study the impact of renewable energy on the economy",
    "Look into the cultural significance of ancient Greek philosophy",
    "Examine the role of women in the Industrial Revolution",
    "Analyze the development of modern democracy",
    "Provide a comprehensive analysis of climate change mitigation strategies",
    "Offer an in-depth exploration of machine learning algorithms",
    "Give a thorough examination of postmodern literature",
    "Present a detailed study of urban planning principles",
    "Conduct a deep investigation into cryptocurrency markets",
    "Write about the mysteries of the ocean depths",
    "Describe a journey into the human psyche",
    "Explore the concept of time travel in fiction",
    "Discuss the philosophical implications of virtual reality",
    "Examine the role of mythology in modern storytelling"
  ]

  /** The prompt of the original methodology, repeated in every original-mode sample. */
  const OriginalPrompt: string :=
    "Write an introduction for the article about the impact of global warming on indigenous people of Finland"

  /** How many times the original prompt is repeated. */
  const OriginalRepetitions: nat := 10

  function Digit(d: nat): (c: char)
    requires d < 10
    ensures '0' <= c <= '9'
    ensures (c == '0') == (d == 0)
  {
    ('0' as int + d) as char
  }

  /** The decimal numeral of `n`, without leading zeros. */
  function Decimal(n: nat): (s: string)
    ensures |s| >= 1
    ensures n < 10 <==> |s| == 1
    ensures n > 0 ==> s[0] != '0'
    ensures s[|s| - 1] == Digit(n % 10)
    decreases n
  {
    if n < 10 then [Digit(n)] else Decimal(n / 10) + [Digit(n % 10)]
  }

  /** `f"{n:02d}"`: the numeral, zero-padded to at least two characters. */
  function Pad2(n: nat): (s: string)
    ensures |s| >= 2
    ensures s[0] == '0' <==> n < 10
  {
    if n < 10 then "0" + Decimal(n) else Decimal(n)
  }

  /** Below 100 the padded numeral is the tens digit followed by the units digit. */
  lemma Pad2TwoDigits(n: nat)
    requires n < 100
    ensures Pad2(n) == [Digit(n / 10), Digit(n % 10)]
  {
  }

  /** `f"{prefix}_{n:02d}"`. */
  function SampleId(prefix: string, n: nat): string {
    prefix + "_" + Pad2(n)
  }

  predicate DistinctIds(samples: seq<Sample>) {
    forall i, j :: 0 <= i < j < |samples| ==> samples[i].id != samples[j].id
  }

  lemma {:induction false} DecimalInjective(m: nat, n: nat)
    requires Decimal(m) == Decimal(n)
    ensures m == n
    decreases m
  {
    if m >= 10 && n >= 10 {
      var dm, dn := Decimal(m), Decimal(n);
      assert Decimal(m / 10) == dm[..|dm| - 1] == dn[..|dn| - 1] == Decimal(n / 10);
      DecimalInjective(m / 10, n / 10);
      assert Digit(m % 10) == Digit(n % 10);
    }
  }

  /** Different numbers get different padded numerals: the padding never makes
      two numerals collide. */
  lemma Pad2Injective(m: nat, n: nat)
    requires Pad2(m) == Pad2(n)
    ensures m == n
  {
    if m < 10 && n < 10 {
      assert Pad2(m)[1] == Digit(m) && Pad2(n)[1] == Digit(n);
    } else if m >= 10 && n >= 10 {
      DecimalInjective(m, n);
    }
    // otherwise exactly one of the two numerals starts with the padding '0'
  }

  lemma SampleIdInjective(prefix: string, m: nat, n: nat)
    requires SampleId(prefix, m) == SampleId(prefix, n)
    ensures m == n
  {
    var k := |prefix| + 1;
    assert SampleId(prefix, m)[k..] == Pad2(m);
    assert SampleId(prefix, n)[k..] == Pad2(n);
    Pad2Injective(m, n);
  }

  /** Samples numbered 1, 2, ... under one prefix have pairwise distinct ids. */
  lemma SequentialIdsDistinct(prefix: string, samples: seq<Sample>)
    requires forall i :: 0 <= i < |samples| ==> samples[i].id == SampleId(prefix, i + 1)
    ensures DistinctIds(samples)
  {
    forall i, j | 0 <= i < j < |samples|
      ensures samples[i].id != samples[j].id
    {
      if samples[i].id == samples[j].id {
        SampleIdInjective(prefix, i + 1, j + 1);
      }
    }
  }

  /** The loop of the varied-prompt builder: one sample per prompt, in order,
      ids `<target>_01`, `<target>_02`, ... */
  method SamplesForPrompts(prompts: seq<string>, targetWord: string) returns (samples: seq<Sample>)
    ensures |samples| == |prompts|
    ensures forall i :: 0 <= i < |samples| ==>
      samples[i] == Sample(SampleId(targetWord, i + 1), prompts[i], targetWord)
    ensures DistinctIds(samples)
  {
    samples := [];
    for i := 0 to |prompts|
      invariant |samples| == i
      invariant forall j :: 0 <= j < i ==>
        samples[j] == Sample(SampleId(targetWord, j + 1), prompts[j], targetWord)
    {
      samples := samples + [Sample(SampleId(targetWord, i + 1), prompts[i], targetWord)];
    }
    assert forall i :: 0 <= i < |samples| ==> samples[i].id == SampleId(targetWord, i + 1);
    SequentialIdsDistinct(targetWord, samples);
  }

  /** The varied-prompt dataset: one sample per prompt of `Prompts`. */
  method CreateWordUsageDataset(targetWord: string := "delve") returns (samples: seq<Sample>)
    ensures |samples| == |Prompts|
    ensures forall i :: 0 <= i < |samples| ==>
      samples[i] == Sample(SampleId(targetWord, i + 1), Prompts[i], targetWord)
    ensures DistinctIds(samples)
  {
    samples := SamplesForPrompts(Prompts, targetWord);
  }

  /** The dataset for "delve". */
  method CreateDelveDataset() returns (samples: seq<Sample>)
    ensures |samples| == 21
    ensures forall i :: 0 <= i < |samples| ==>
      samples[i].id == SampleId("delve", i + 1) && samples[i].input == Prompts[i] && samples[i].target == "delve"
    ensures samples[0].id == "delve_01" && samples[20].id == "delve_21"
    ensures DistinctIds(samples)
  {
    PromptCount();
    samples := CreateWordUsageDataset("delve");
  }

  /** The original prompt ten times, ids `original_<target>_01` to `original_<target>_10`. */
  method CreateOriginalSamples(targetWord: string := "delve") returns (samples: seq<Sample>)
    ensures |samples| == OriginalRepetitions
    ensures forall i :: 0 <= i < |samples| ==>
      samples[i] == Sample(SampleId("original_" + targetWord, i + 1), OriginalPrompt, targetWord)
    ensures DistinctIds(samples)
  {
    var prefix, prompt := "original_" + targetWord, OriginalPrompt;
    samples := [];
    for i := 0 to OriginalRepetitions
      invariant |samples| == i
      invariant forall j :: 0 <= j < i ==> samples[j] == Sample(SampleId(prefix, j + 1), prompt, targetWord)
    {
      samples := samples + [Sample(SampleId(prefix, i + 1), prompt, targetWord)];
    }
    assert forall i :: 0 <= i < |samples| ==> samples[i].id == SampleId(prefix, i + 1);
    SequentialIdsDistinct(prefix, samples);
  }

  /** There are 21 varied prompts. */
  lemma PromptCount()
    ensures |Prompts| == 21
  {
  }

  /** The original prompt is also the first of the varied prompts. */
  lemma OriginalPromptIsFirst()
    ensures Prompts[0] == OriginalPrompt
  {
  }

  /** The padding on the sequence numbers used by both sample lists. */
  lemma PaddedExamples()
    ensures Pad2(1) == "01" && Pad2(10) == "10" && Pad2(21) == "21"
  {
  }
}
