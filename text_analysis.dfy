/** The text analyzer (src/analysis/text_analyzer.py): sentence counts,
    readability scores, a vowel-group syllable estimate, stop-word filtered
    keyword ranking, version history and keyword comparison, built on the
    weighted word counter. */
module TextAnalysis {
  import opened Text
  import Ranking
  import opened WeightedCount

  // ----- Syllables ----------------------------------------------------------

  const Vowels: string := "aeiouy"

  predicate IsVowel(c: char) { c in Vowels }

  /** The silent-e rule: the word ends in 'e' after a non-vowel. */
  predicate SilentE(w: string)
  {
    |w| > 2 && w[|w| - 1] == 'e' && !IsVowel(w[|w| - 2])
  }

  /** `_count_syllables_in_word`: 1 for words of up to three characters;
      otherwise the number of vowel groups, one less for a silent e, and
      never below 1. */
  function SyllablesInWord(w: string): (n: nat)
    ensures n >= 1
    ensures |w| <= 3 ==> n == 1
  {
    if |w| <= 3 then 1
    else Max1(RunStarts(w, IsVowel) - (if SilentE(w) then 1 else 0))
  }

  /** The vowel groups counted are the maximal runs of vowels. */
  lemma SyllablesAreVowelGroups(w: string)
    requires |w| > 3
    ensures SyllablesInWord(w) == Max1(|Runs(w, IsVowel)| - (if SilentE(w) then 1 else 0))
  {
    RunsCount(w, IsVowel);
  }

  /** The running sum `_count_syllables` accumulates over its words. */
  function TotalSyllables(words: seq<string>): nat
  {
    if words == [] then 0
    else TotalSyllables(words[..|words| - 1]) + SyllablesInWord(words[|words| - 1])
  }

  /** Every word has at least one syllable. */
  lemma {:induction false} TotalSyllablesAtLeast(words: seq<string>)
    ensures TotalSyllables(words) >= |words|
  {
    if words != [] {
      TotalSyllablesAtLeast(words[..|words| - 1]);
    }
  }

  /** The loop of `_count_syllables_in_word`: `count` goes up at every vowel
      that follows a non-vowel, the silent-e rule takes one off, and the
      result is at least 1. */
  method CountSyllablesInWord(word: string) returns (n: int)
    ensures n == SyllablesInWord(word)
  {
    if |word| <= 3 {
      return 1;
    }
    var count := 0;
    var prevIsVowel := false;
    var i := 0;
    while i < |word|
      invariant 0 <= i <= |word|
      invariant count + RunStartsFrom(word[i..], IsVowel, prevIsVowel) == RunStarts(word, IsVowel)
    {
      var isVowel := word[i] in Vowels;
      assert word[i..][0] == word[i] && word[i..][1..] == word[i + 1..];
      if isVowel && !prevIsVowel {
        count := count + 1;
      }
      prevIsVowel := isVowel;
      i := i + 1;
    }
    if word[|word| - 1] == 'e' && |word| > 2 && word[|word| - 2] !in Vowels {
      count := count - 1;
    }
    n := if count < 1 then 1 else count;
  }

  /** Python's `text.replace(old, new)` for one character. */
  function ReplaceChar(s: string, target: char, replacement: char): (r: string)
    ensures |r| == |s|
    ensures forall i :: 0 <= i < |s| ==> r[i] == if s[i] == target then replacement else s[i]
  {
    seq(|s|, i requires 0 <= i < |s| => if s[i] == target then replacement else s[i])
  }

  /** `for p in string.punctuation: text = text.replace(p, " ")`: every
      punctuation character becomes a space. */
  method ReplacePunctuation(s: string) returns (r: string)
    ensures r == PunctuationToSpaces(s)
  {
    r := s;
    var j := 0;
    while j < |Punctuation|
      invariant 0 <= j <= |Punctuation|
      invariant |r| == |s|
      invariant forall i :: 0 <= i < |s| ==> r[i] == if s[i] in Punctuation[..j] then ' ' else s[i]
    {
      assert Punctuation[..j + 1] == Punctuation[..j] + [Punctuation[j]];
      PunctuationRanges(' ');
      r := ReplaceChar(r, Punctuation[j], ' ');
      j := j + 1;
    }
    assert Punctuation[..j] == Punctuation;
    forall i | 0 <= i < |s| ensures r[i] == PunctuationToSpaces(s)[i] {
      PunctuationRanges(s[i]);
    }
  }

  /** The words both `_count_syllables` and `extract_keywords` work on:
      lower-cased, punctuation replaced by spaces, split on whitespace. */
  function Tokens(text: string): seq<string>
  {
    SplitWhitespace(PunctuationToSpaces(Lower(text)))
  }

  /** `_count_syllables`: the syllables of every token, added up; so at
      least one per token. */
  method CountSyllables(text: string) returns (n: nat)
    ensures n == TotalSyllables(Tokens(text))
    ensures n >= |Tokens(text)|
  {
    var lowered := Lower(text);
    var spaced := ReplacePunctuation(lowered);
    var words := SplitWhitespace(spaced);
    n := 0;
    var i := 0;
    while i < |words|
      invariant 0 <= i <= |words|
      invariant n == TotalSyllables(words[..i])
    {
      assert words[..i + 1][..i] == words[..i];
      var wordCount := CountSyllablesInWord(words[i]);
      n := n + wordCount;
      i := i + 1;
    }
    assert words[..i] == words;
    TotalSyllablesAtLeast(words);
  }

  // ----- Sentences and readability ----------------------------------------

  /** `len(re.split(r'[.!?]+', text))`: one more than the number of runs
      of terminators, so 1 for a text without any. */
  function SentenceCount(text: string): (n: nat)
    ensures n == |Runs(text, IsSentenceEnd)| + 1
  {
    SentenceSegmentsCount(text);
    |SentenceSegments(text)|
  }

  datatype Readability = Readability(
    fleschKincaidGrade: real,
    fleschReadingEase: real,
    averageWordsPerSentence: real,
    averageSyllablesPerWord: real)

  /** The formulas of `calculate_readability` over its three counts; both
      Flesch scores are 0 when there are no words. */
  function ReadabilityScores(words: nat, sentences: nat, syllables: nat): (r: Readability)
    requires sentences >= 1
    ensures words == 0 ==> r.fleschKincaidGrade == 0.0 && r.fleschReadingEase == 0.0
  {
    var w := words as real;
    var s := sentences as real;
    var y := syllables as real;
    var grade := if words > 0 then 0.39 * (w / s) + 11.8 * (y / w) - 15.59 else 0.0;
    var ease := if words > 0 then 206.835 - 1.015 * (w / s) - 84.6 * (y / w) else 0.0;
    Readability(grade, ease, w / s, y / Max1(words) as real)
  }

  /** Each average times its divisor gives back its numerator. */
  lemma ReadabilityAverages(words: nat, sentences: nat, syllables: nat)
    requires sentences >= 1
    ensures ReadabilityScores(words, sentences, syllables).averageWordsPerSentence * sentences as real
      == words as real
    ensures ReadabilityScores(words, sentences, syllables).averageSyllablesPerWord * Max1(words) as real
      == syllables as real
  {
  }

  /** The averages vanish exactly when their numerators do. */
  lemma AveragesVanish(words: nat, sentences: nat, syllables: nat)
    requires sentences >= 1
    ensures ReadabilityScores(words, sentences, syllables).averageWordsPerSentence == 0.0 <==> words == 0
    ensures ReadabilityScores(words, sentences, syllables).averageSyllablesPerWord == 0.0 <==> syllables == 0
  {
    ReadabilityAverages(words, sentences, syllables);
    var r := ReadabilityScores(words, sentences, syllables);
    if r.averageWordsPerSentence == 0.0 {
      assert r.averageWordsPerSentence * sentences as real == 0.0;
    }
    if r.averageSyllablesPerWord == 0.0 {
      assert r.averageSyllablesPerWord * Max1(words) as real == 0.0;
    }
  }

  // ----- Keywords -----------------------------------------------------------

  const StopWords: set<string> := {
    "the", "a", "an", "and", "or", "but", "in", "on", "at", "to", "for",
    "with", "by", "about", "of", "is", "are", "was", "were", "be", "been",
    "being", "have", "has", "had", "do", "does", "did", "i", "you", "he",
    "she", "it", "we", "they", "them", "their", "this", "that", "these",
    "those", "my", "your", "his", "her", "its", "our"
  }

  predicate IsKeyword(w: string) { w !in StopWords && |w| > 2 }

  /** `[word for word in words if word not in stop_words and len(word) > 2]`. */
  function KeywordCandidates(words: seq<string>): seq<string>
  {
    if words == [] then []
    else
      var n := |words| - 1;
      KeywordCandidates(words[..n]) + (if IsKeyword(words[n]) then [words[n]] else [])
  }

  /** The filter keeps exactly the tokens that are keywords. */
  lemma {:induction false} KeywordCandidatesFacts(words: seq<string>)
    ensures forall w :: w in KeywordCandidates(words) <==> w in words && IsKeyword(w)
  {
    if words != [] {
      var n := |words| - 1;
      KeywordCandidatesFacts(words[..n]);
      assert words == words[..n] + [words[n]];
    }
  }

  function Firsts<T>(entries: seq<(T, nat)>): (r: seq<T>)
    ensures |r| == |entries|
    ensures forall i :: 0 <= i < |r| ==> r[i] == entries[i].0
  {
    seq(|entries|, i requires 0 <= i < |entries| => entries[i].0)
  }

  /** `extract_keywords`: the words of `Counter(filtered).most_common(n)`. */
  function ExtractKeywords(text: string, topN: int): seq<string>
  {
    Firsts(Ranking.MostCommon(KeywordCandidates(Tokens(text)), topN))
  }

  /** At most `topN` distinct keywords, none a stop word or shorter than
      three characters, each a token of the text, in non-increasing order of
      frequency, keywords of equal frequency in order of first occurrence;
      when there are no more than `topN` candidates, all of them. */
  lemma ExtractKeywordsFacts(text: string, topN: int)
    ensures topN <= 0 ==> ExtractKeywords(text, topN) == []
    ensures |ExtractKeywords(text, topN)| <= if topN < 0 then 0 else topN
    ensures NoDuplicates(ExtractKeywords(text, topN))
    ensures forall i :: 0 <= i < |ExtractKeywords(text, topN)| ==>
      IsKeyword(ExtractKeywords(text, topN)[i]) && ExtractKeywords(text, topN)[i] in Tokens(text)
    ensures forall i, j :: 0 <= i < j < |ExtractKeywords(text, topN)| ==>
      Count(KeywordCandidates(Tokens(text)), ExtractKeywords(text, topN)[i])
      >= Count(KeywordCandidates(Tokens(text)), ExtractKeywords(text, topN)[j])
    ensures forall i, j |
      && 0 <= i < j < |ExtractKeywords(text, topN)|
      && Count(KeywordCandidates(Tokens(text)), ExtractKeywords(text, topN)[i])
         == Count(KeywordCandidates(Tokens(text)), ExtractKeywords(text, topN)[j]) ::
      exists p, q :: 0 <= p < q < |Distinct(KeywordCandidates(Tokens(text)))|
        && Distinct(KeywordCandidates(Tokens(text)))[p] == ExtractKeywords(text, topN)[i]
        && Distinct(KeywordCandidates(Tokens(text)))[q] == ExtractKeywords(text, topN)[j]
    ensures topN >= |Distinct(KeywordCandidates(Tokens(text)))| ==>
      forall w :: w in Tokens(text) && IsKeyword(w) ==> w in ExtractKeywords(text, topN)
  {
    var cands := KeywordCandidates(Tokens(text));
    var entries := Ranking.MostCommon(cands, topN);
    var r := ExtractKeywords(text, topN);
    Ranking.MostCommonFacts(cands, topN);
    KeywordCandidatesFacts(Tokens(text));
    forall i | 0 <= i < |r| ensures IsKeyword(r[i]) && r[i] in Tokens(text) {
      assert Ranking.Tallied(entries[i], cands);
    }
    forall i, j | 0 <= i < j < |r| ensures Count(cands, r[i]) >= Count(cands, r[j]) {
      assert Ranking.Tallied(entries[i], cands) && Ranking.Tallied(entries[j], cands);
    }
    forall i, j | 0 <= i < j < |r| && Count(cands, r[i]) == Count(cands, r[j])
      ensures exists p, q :: 0 <= p < q < |Distinct(cands)| && Distinct(cands)[p] == r[i] && Distinct(cands)[q] == r[j]
    {
      assert Ranking.Tallied(entries[i], cands) && Ranking.Tallied(entries[j], cands);
      var p, q := Ranking.MostCommonTieOrder(cands, topN, i, j);
      assert Distinct(cands)[p] == r[i] && Distinct(cands)[q] == r[j];
    }
    if topN >= |Distinct(cands)| {
      forall w | w in Tokens(text) && IsKeyword(w) ensures w in r {
        var i :| 0 <= i < |entries| && entries[i] == (w, Count(cands, w));
        assert r[i] == w;
      }
    }
  }

  // ----- The analyzer -------------------------------------------------------

  /** What `TextAnalyzer.analyze_text` returns: the word counter's analysis
      and the three additions. */
  datatype FullAnalysis = FullAnalysis(
    basic: Analysis,
    readability: Readability,
    keywords: seq<string>,
    sentenceCount: nat)

  datatype Progress = Progress(
    wordCounts: seq<nat>,
    wordDeltas: seq<int>,
    cumulativeCounts: seq<nat>,
    analyses: seq<FullAnalysis>)

  datatype Comparison = Comparison(
    analysis1: FullAnalysis,
    analysis2: FullAnalysis,
    commonKeywords: set<string>,
    uniqueToText1: set<string>,
    uniqueToText2: set<string>,
    wordCountDifference: int,
    gradeDifference: real,
    easeDifference: real)

  function Elements(xs: seq<string>): (r: set<string>)
    ensures forall x :: x in r <==> x in xs
  {
    set x | x in xs
  }

  /** `cumulative_counts[i] = word_counts[i]` and
      `word_deltas[i] = word_counts[i] - word_counts[i - 1]`, with
      `word_deltas[0] = word_counts[0]`. */
  function Deltas(counts: seq<nat>): (r: seq<int>)
    ensures |r| == |counts|
  {
    seq(|counts|, i requires 0 <= i < |counts| => if i > 0 then counts[i] as int - counts[i - 1] else counts[0])
  }

  /** The deltas add up to the latest count: summing the first i + 1 of them
      gives back `counts[i]`. */
  lemma {:induction false} DeltasTelescope(counts: seq<nat>, i: nat)
    requires i < |counts|
    ensures Sum(Deltas(counts)[..i + 1]) == counts[i]
  {
    var d := Deltas(counts);
    if i > 0 {
      DeltasTelescope(counts, i - 1);
      assert d[..i + 1][..i] == d[..i];
    }
  }

  /** What `analyze_text` reports about `text` when the word counter's
      weight table is `table`. */
  ghost predicate Reports(a: FullAnalysis, text: string, table: map<char, real>)
  {
    && WeightedCount.Describes(a.basic, text, table)
    && a.readability == ReadabilityScores(
         RunStarts(text, IsWordChar), Max1(|Runs(text, IsSentenceEnd)|), TotalSyllables(Tokens(text)))
    && a.keywords == ExtractKeywords(text, 5)
    && a.sentenceCount == SentenceCount(text)
  }

  /** `Reports` with the weight table fixed, as a predicate on pairs. */
  ghost function ReportsOn(table: map<char, real>): (FullAnalysis, string) -> bool
  {
    (a: FullAnalysis, text: string) => Reports(a, text, table)
  }

  /** Appending the analysis of the next version keeps every analysis
      reporting on its version. */
  lemma ReportsOnSnoc(analyses: seq<FullAnalysis>, history: seq<string>, k: nat, a: FullAnalysis, table: map<char, real>)
    requires k < |history| && AllPairs(analyses, history[..k], ReportsOn(table))
    requires Reports(a, history[k], table)
    ensures AllPairs(analyses + [a], history[..k + 1], ReportsOn(table))
  {
    assert (analyses + [a])[..k] == analyses && history[..k + 1][..k] == history[..k];
    assert ReportsOn(table)(a, history[k]);
  }

  /** Every analysis of a history built pair by pair reports on its version. */
  lemma ReportsOnAll(analyses: seq<FullAnalysis>, history: seq<string>, table: map<char, real>)
    requires AllPairs(analyses, history, ReportsOn(table))
    ensures |analyses| == |history|
    ensures forall j :: 0 <= j < |history| ==> Reports(analyses[j], history[j], table)
  {
    forall j | 0 <= j < |history| ensures Reports(analyses[j], history[j], table) {
      AllPairsAt(analyses, history, ReportsOn(table), j);
    }
  }

  /** `ok` holds of the elements at every position of two sequences of the
      same length, built up position by position. */
  ghost predicate AllPairs<A, B>(xs: seq<A>, ys: seq<B>, ok: (A, B) -> bool)
    decreases |ys|
  {
    && |xs| == |ys|
    && (ys != [] ==>
         var n := |ys| - 1;
         AllPairs(xs[..n], ys[..n], ok) && ok(xs[n], ys[n]))
  }

  /** The pair at position `j` satisfies `ok`. */
  lemma {:induction false} AllPairsAt<A, B>(xs: seq<A>, ys: seq<B>, ok: (A, B) -> bool, j: int)
    requires AllPairs(xs, ys, ok) && 0 <= j < |ys|
    ensures ok(xs[j], ys[j])
    decreases |ys|
  {
    var n := |ys| - 1;
    if j < n {
      AllPairsAt(xs[..n], ys[..n], ok, j);
      assert xs[..n][j] == xs[j] && ys[..n][j] == ys[j];
    }
  }

  class TextAnalyzer {
    var wordCounter: WordCounter

    /** `TextAnalyzer(word_counter)`: the given counter, or a new one with
        the default letter weight. */
    constructor (wordCounter: WordCounter?)
      ensures wordCounter != null ==> this.wordCounter == wordCounter
      ensures wordCounter == null ==>
        fresh(this.wordCounter) && this.wordCounter.letterWeight == DefaultLetterWeight
        && this.wordCounter.Valid()
    {
      if wordCounter != null {
        this.wordCounter := wordCounter;
      } else {
        this.wordCounter := new WordCounter(DefaultLetterWeight);
      }
    }

    /** `calculate_readability`: the word count, `max(1, segments - 1)`
        sentences, which is `max(1, runs of terminators)`, and the syllable
        estimate, put through the formulas. */
    method CalculateReadability(text: string) returns (r: Readability)
      ensures r == ReadabilityScores(
        wordCounter.CountWords(text), Max1(|Runs(text, IsSentenceEnd)|), TotalSyllables(Tokens(text)))
    {
      var wordCount := wordCounter.CountWords(text);
      var sentenceCount := Max1(SentenceCount(text) - 1);
      var syllableCount := CountSyllables(text);
      r := ReadabilityScores(wordCount, sentenceCount, syllableCount);
    }

    /** `analyze_text`: the counter's analysis plus readability, the top
        five keywords and the number of sentence segments. */
    method AnalyzeText(text: string) returns (a: FullAnalysis)
      ensures Reports(a, text, wordCounter.charWeights)
      ensures a.sentenceCount == |Runs(text, IsSentenceEnd)| + 1
    {
      var basic := wordCounter.AnalyzeText(text);
      var readability := CalculateReadability(text);
      a := FullAnalysis(basic, readability, ExtractKeywords(text, 5), SentenceCount(text));
    }

    /** The `analyses` list of `track_progress`: one full analysis per
        version. */
    method AnalyzeAll(history: seq<string>) returns (analyses: seq<FullAnalysis>)
      ensures |analyses| == |history|
      ensures forall j :: 0 <= j < |history| ==> Reports(analyses[j], history[j], wordCounter.charWeights)
    {
      ghost var table := wordCounter.charWeights;
      analyses := [];
      var k := 0;
      while k < |history|
        invariant 0 <= k <= |history|
        invariant AllPairs(analyses, history[..k], ReportsOn(table))
      {
        var a := AnalyzeText(history[k]);
        ReportsOnSnoc(analyses, history, k, a, table);
        analyses := analyses + [a];
        k := k + 1;
      }
      assert history[..k] == history;
      ReportsOnAll(analyses, history, table);
    }

    /** The counting half of `track_progress`: per version its word count,
        its change from the previous version, and the count again as the
        "cumulative" value. */
    method CountHistory(history: seq<string>) returns (counts: seq<nat>, deltas: seq<int>, cumulative: seq<nat>)
      ensures |counts| == |history| && |deltas| == |history|
      ensures forall i :: 0 <= i < |history| ==> counts[i] == wordCounter.CountWords(history[i])
      ensures |history| > 0 ==> deltas[0] == counts[0]
      ensures forall i :: 0 < i < |history| ==> deltas[i] == counts[i] as int - counts[i - 1]
      ensures cumulative == counts
    {
      var wc := wordCounter;
      counts := seq(|history|, i requires 0 <= i < |history| => wc.CountWords(history[i]));
      deltas := Deltas(counts);
      cumulative := [];
      var runningTotal := 0;
      var i := 0;
      while i < |counts|
        invariant 0 <= i <= |counts|
        invariant cumulative == counts[..i]
      {
        runningTotal := counts[i];
        cumulative := cumulative + [runningTotal];
        i := i + 1;
      }
    }

    /** `track_progress`: the version counts and the full analysis of every
        version. */
    method TrackProgress(history: seq<string>) returns (p: Progress)
      ensures |p.wordCounts| == |history| && |p.wordDeltas| == |history|
      ensures |p.cumulativeCounts| == |history| && |p.analyses| == |history|
      ensures forall i :: 0 <= i < |history| ==> p.wordCounts[i] == wordCounter.CountWords(history[i])
      ensures |history| > 0 ==> p.wordDeltas[0] == p.wordCounts[0]
      ensures forall i :: 0 < i < |history| ==> p.wordDeltas[i] == p.wordCounts[i] as int - p.wordCounts[i - 1]
      ensures p.cumulativeCounts == p.wordCounts
      ensures forall i :: 0 <= i < |history| ==> Reports(p.analyses[i], history[i], wordCounter.charWeights)
    {
      var counts, deltas, cumulative := CountHistory(history);
      var analyses := AnalyzeAll(history);
      p := Progress(counts, deltas, cumulative, analyses);
    }

    /** `compare_texts`: both analyses; the top-20 keyword sets split into
        the common part and the two one-sided parts; and the differences
        in word count and in the two Flesch scores. */
    method CompareTexts(text1: string, text2: string) returns (c: Comparison)
      ensures Reports(c.analysis1, text1, wordCounter.charWeights)
      ensures Reports(c.analysis2, text2, wordCounter.charWeights)
      ensures c.commonKeywords + c.uniqueToText1 == Elements(ExtractKeywords(text1, 20))
      ensures c.commonKeywords + c.uniqueToText2 == Elements(ExtractKeywords(text2, 20))
      ensures c.commonKeywords * c.uniqueToText1 == {} && c.commonKeywords * c.uniqueToText2 == {}
      ensures c.uniqueToText1 * c.uniqueToText2 == {}
      ensures c.wordCountDifference == wordCounter.CountWords(text2) - wordCounter.CountWords(text1)
      ensures c.gradeDifference
        == c.analysis2.readability.fleschKincaidGrade - c.analysis1.readability.fleschKincaidGrade
      ensures c.easeDifference
        == c.analysis2.readability.fleschReadingEase - c.analysis1.readability.fleschReadingEase
    {
      var analysis1 := AnalyzeText(text1);
      var analysis2 := AnalyzeText(text2);
      var keywords1 := Elements(ExtractKeywords(text1, 20));
      var keywords2 := Elements(ExtractKeywords(text2, 20));
      var common := keywords1 * keywords2;
      var unique1 := keywords1 - keywords2;
      var unique2 := keywords2 - keywords1;
      c := Comparison(
        analysis1, analysis2, common, unique1, unique2,
        analysis2.basic.wordCount - analysis1.basic.wordCount,
        analysis2.readability.fleschKincaidGrade - analysis1.readability.fleschKincaidGrade,
        analysis2.readability.fleschReadingEase - analysis1.readability.fleschReadingEase);
    }
  }
}
