/** The transcription test of the onboarding wizard
    (src/components/onboarding/TestStep.tsx): which phrase the user is asked
    to say, and how closely the transcription matches it, as the share of
    the phrase's distinct words that the transcription contains. */
module TestStep {
  import opened Wrappers
  import opened Text

  /** JavaScript's `\s`. */
  predicate IsJsSpace(c: char) {
    c == ' ' || ('\t' <= c <= '\r') || c == '\U{A0}' || c == '\U{1680}' ||
    ('\U{2000}' <= c <= '\U{200A}') || c == '\U{2028}' || c == '\U{2029}' || c == '\U{202F}' ||
    c == '\U{205F}' || c == '\U{3000}' || c == '\U{FEFF}'
  }

  /** Length of the run of non-space characters `s` starts with. */
  function WordLength(s: string): (n: nat)
    ensures n <= |s|
    ensures forall k :: 0 <= k < n ==> !IsJsSpace(s[k])
    ensures n < |s| ==> IsJsSpace(s[n])
    decreases |s|
  {
    if s == [] || IsJsSpace(s[0]) then 0 else 1 + WordLength(s[1..])
  }

  /** `s.split(/\s+/).filter(Boolean)`: the maximal runs of non-space
      characters, in order. */
  function Tokens(s: string): (ts: seq<string>)
    ensures forall k :: 0 <= k < |ts| ==> ts[k] != [] && forall j :: 0 <= j < |ts[k]| ==> !IsJsSpace(ts[k][j])
    decreases |s|
  {
    if s == [] then []
    else if IsJsSpace(s[0]) then Tokens(s[1..])
    else
      var n := WordLength(s);
      [s[..n]] + Tokens(s[n..])
  }

  /** `new Set(tokens)`. */
  function WordSet(s: string): set<string> {
    set k | 0 <= k < |Tokens(s)| :: Tokens(s)[k]
  }

  /** The share of the words of `wordsA` that are in `wordsB`; 0 when
      `wordsA` is empty. */
  function Score(wordsA: set<string>, wordsB: set<string>): real {
    if |wordsA| == 0 then 0.0 else |wordsA * wordsB| as real / |wordsA| as real
  }

  /** The score of a transcription `b` against the phrase `a`. */
  function Similarity(a: string, b: string): real {
    Score(WordSet(a), WordSet(b))
  }

  /** The loop of `computeSimilarity`: each word of `wordsA` found in
      `wordsB` counts once. */
  method CountMatches(wordsA: set<string>, wordsB: set<string>) returns (matches: nat)
    ensures matches == |wordsA * wordsB|
  {
    matches := 0;
    var remaining := wordsA;
    while remaining != {}
      invariant remaining <= wordsA
      invariant matches == |(wordsA - remaining) * wordsB|
      decreases |remaining|
    {
      var w :| w in remaining;
      var seen := (wordsA - remaining) * wordsB;
      if w in wordsB {
        assert (wordsA - (remaining - {w})) * wordsB == seen + {w};
        matches := matches + 1;
      } else {
        assert (wordsA - (remaining - {w})) * wordsB == seen;
      }
      remaining := remaining - {w};
    }
    assert wordsA - remaining == wordsA;
  }

  /** `computeSimilarity`. */
  method ComputeSimilarity(a: string, b: string) returns (score: real)
    ensures score == Similarity(a, b)
  {
    var wordsA := WordSet(a);
    var wordsB := WordSet(b);
    if |wordsA| == 0 {
      return 0.0;
    }
    var matches := CountMatches(wordsA, wordsB);
    score := matches as real / |wordsA| as real;
  }

  /** `isGoodMatch`: both sides lower-cased, and a missing or empty result
      scores 0. */
  predicate IsGoodMatch(phrase: string, result: Option<string>) {
    var similarity := if result.Some? && result.value != "" then Similarity(Lower(phrase), Lower(result.value)) else 0.0;
    similarity >= 0.5
  }

  /** `TEST_PHRASES`. */
  const TestPhrases: map<string, string> := map[
    "fr" := "Le soleil brille aujourd'hui",
    "en" := "The sun is shining today",
    "es" := "El sol brilla hoy",
    "de" := "Die Sonne scheint heute",
    "it" := "Il sole splende oggi",
    "pt" := "O sol brilha hoje",
    "ja" := "今日は太陽が輝いています",
    "zh" := "今天阳光灿烂",
    "ko" := "오늘 태양이 빛나고 있어요",
    "ru" := "Сегодня светит солнце",
    "nl" := "De zon schijnt vandaag",
    "pl" := "Słońce świeci dzisiaj"]

  /** The phrase to repeat for the settings' transcription language (none
      when the settings are not loaded yet): French for an empty or unknown
      language. */
  function TestPhrase(language: Option<string>): string {
    var lang := if language.Some? && language.value != "" then language.value else "fr";
    if lang in TestPhrases && TestPhrases[lang] != "" then TestPhrases[lang] else TestPhrases["fr"]
  }

  // ---------------------------------------------------------------------
  // Properties

  /** Part of a set is bounded by the whole. */
  lemma {:induction false} SubsetCardinality(x: set<string>, y: set<string>)
    requires x <= y
    ensures |x| <= |y|
    ensures |x| == |y| ==> x == y
    decreases |y|
  {
    if x != {} {
      var e :| e in x;
      assert e in y;
      SubsetCardinality(x - {e}, y - {e});
      assert x == (x - {e}) + {e} && y == (y - {e}) + {e};
    } else if |y| == 0 {
      assert y == {};
    }
  }

  /** The score lies between 0 and 1; it is 0 for a phrase without words,
      and for a phrase with words it is 1 exactly when every word of the
      phrase occurs in the transcription. */
  lemma SimilarityRange(a: string, b: string)
    ensures 0.0 <= Similarity(a, b) <= 1.0
    ensures WordSet(a) == {} ==> Similarity(a, b) == 0.0
    ensures WordSet(a) != {} ==> (Similarity(a, b) == 1.0 <==> WordSet(a) <= WordSet(b))
  {
    ScoreRange(WordSet(a), WordSet(b));
  }

  lemma ScoreRange(wordsA: set<string>, wordsB: set<string>)
    ensures 0.0 <= Score(wordsA, wordsB) <= 1.0
    ensures wordsA == {} ==> Score(wordsA, wordsB) == 0.0
    ensures wordsA != {} ==> (Score(wordsA, wordsB) == 1.0 <==> wordsA <= wordsB)
  {
    var common := wordsA * wordsB;
    SubsetCardinality(common, wordsA);
    if wordsA != {} {
      var m := |common| as real;
      var n := |wordsA| as real;
      assert n > 0.0;
      assert Score(wordsA, wordsB) == m / n;
      assert m / n * n == m;
      assert common == wordsA <==> wordsA <= wordsB;
    }
  }

  /** A share of at least one half, in whole numbers. */
  lemma HalfShare(m: nat, n: nat)
    requires n > 0
    ensures m as real / n as real >= 0.5 <==> 2 * m >= n
  {
    var r := m as real / n as real;
    assert r * n as real == m as real;
  }

  /** The score is normalised by the phrase alone: when the phrase's words
      are a proper part of the transcription's, the phrase scores 1 against
      the transcription but not the other way round. */
  lemma SimilarityAsymmetric(a: string, b: string)
    requires WordSet(a) != {} && WordSet(a) < WordSet(b)
    ensures Similarity(a, b) == 1.0
    ensures Similarity(b, a) < 1.0
  {
    SimilarityRange(a, b);
    SimilarityRange(b, a);
    assert !(WordSet(b) <= WordSet(a));
  }

  /** A match is good exactly when the result is not empty and at least
      half of the lower-cased phrase's distinct words occur in it. */
  lemma GoodMatchIff(phrase: string, result: Option<string>)
    ensures IsGoodMatch(phrase, result) <==>
              result.Some? && result.value != "" && WordSet(Lower(phrase)) != {} &&
              2 * |WordSet(Lower(phrase)) * WordSet(Lower(result.value))| >= |WordSet(Lower(phrase))|
  {
    if result.Some? && result.value != "" {
      var wordsA := WordSet(Lower(phrase));
      if wordsA != {} {
        HalfShare(|wordsA * WordSet(Lower(result.value))|, |wordsA|);
      }
    }
  }

  /** An empty or unknown language gets the French phrase; a known one its
      own. */
  lemma PhraseFallback(language: Option<string>)
    ensures language.None? || language == Some("") ==> TestPhrase(language) == "Le soleil brille aujourd'hui"
    ensures language.Some? && language.value !in TestPhrases ==> TestPhrase(language) == "Le soleil brille aujourd'hui"
    ensures language.Some? && language.value in TestPhrases ==> TestPhrase(language) == TestPhrases[language.value]
  {
  }
}
