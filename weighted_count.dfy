/** The weighted word counter (src/analysis/word_counter.py): words are the
    maximal runs of word characters, every word weighs exactly 1, and a
    per-character weight table gives letters `letterWeight` and digits,
    whitespace and punctuation 0. */
module WeightedCount {
  import opened Text

  const DefaultLetterWeight: real := 0.5
  const FirstWordAdjustment: real := 0.25

  /** The `character_counts` part of `analyze_text`. */
  datatype CharacterCounts = CharacterCounts(
    letters: nat,
    digits: nat,
    punctuation: nat,
    whitespace: nat,
    total: nat)

  /** The dictionary `analyze_text` returns. */
  datatype Analysis = Analysis(
    wordCount: nat,
    weightedCount: real,
    characterCounts: CharacterCounts,
    characterWeights: map<char, real>,
    averageWordLength: real)

  /** The characters the weight table gives weight 0. */
  predicate ZeroWeighted(c: char) { IsWhitespace(c) || IsPunctuation(c) || IsDigit(c) }

  /** `sum(len(word) for word in words) / max(1, len(words))`. */
  function AverageLength(words: seq<string>): real
  {
    SumLengths(words) as real / Max1(|words|) as real
  }

  /** Tokens that are all non-empty have at least one character each. */
  lemma {:induction false} SumLengthsAtLeast(ts: seq<string>)
    requires forall t :: t in ts ==> |t| > 0
    ensures SumLengths(ts) >= |ts|
  {
    if ts != [] {
      assert ts[0] in ts;
      assert forall t :: t in ts[1..] ==> t in ts;
      SumLengthsAtLeast(ts[1..]);
    }
  }

  lemma RatioAtLeastOne(a: real, b: real)
    requires 0.0 < b <= a
    ensures a / b >= 1.0
  {
  }

  /** The average word length is 0 exactly when the text has no words, and
      at least 1 otherwise. */
  lemma AverageWordLengthBounds(text: string)
    ensures AverageLength(Words(text)) == 0.0 <==> Words(text) == []
    ensures Words(text) != [] ==> AverageLength(Words(text)) >= 1.0
  {
    var ws := Words(text);
    RunsTokens(text, IsWordChar);
    SumLengthsAtLeast(ws);
    if ws != [] {
      RatioAtLeastOne(SumLengths(ws) as real, |ws| as real);
    }
  }

  /** Letters, digits, punctuation and whitespace are disjoint classes, so
      their counts add up to at most the length of the text. */
  lemma {:induction false} ClassCountsBounded(text: string)
    ensures CountIf(text, IsAsciiLetter) + CountIf(text, IsDigit)
          + CountIf(text, IsPunctuation) + CountIf(text, IsWhitespace) <= |text|
    decreases |text|
  {
    if text != [] {
      ClassesDisjoint(text[0]);
      ClassCountsBounded(text[1..]);
    }
  }

  /** The table holds the ASCII letters at `letterWeight` and the digits,
      whitespace and punctuation at 0, and nothing else. */
  ghost predicate WeightTable(table: map<char, real>, letterWeight: real)
  {
    && (forall c :: c in table <==> IsAsciiLetter(c) || ZeroWeighted(c))
    && (forall c :: c in table ==> table[c] == if IsAsciiLetter(c) then letterWeight else 0.0)
  }

  /** What the constructor's two loops leave behind is the weight table. */
  lemma TableFilled(table: map<char, real>, letterWeight: real)
    requires forall c :: c in table <==> c in AsciiLetters || c in Whitespace + Punctuation + Digits
    requires forall c :: c in table ==>
      table[c] == if c in Whitespace + Punctuation + Digits then 0.0 else letterWeight
    ensures WeightTable(table, letterWeight)
  {
    forall c
      ensures (c in AsciiLetters <==> IsAsciiLetter(c))
      ensures (c in Whitespace + Punctuation + Digits <==> ZeroWeighted(c))
      ensures IsAsciiLetter(c) ==> !ZeroWeighted(c)
    {
      LettersAreAsciiLetters(c);
      DigitsAreDigits(c);
      WhitespaceRanges(c);
      PunctuationRanges(c);
    }
  }

  /** `table.get(c, 0.0)`. */
  function WeightIn(table: map<char, real>, c: char): real
  {
    if c in table then table[c] else 0.0
  }

  /** `totals` holds one entry per distinct character of `text`: the
      character's weight in `table` once per occurrence. */
  ghost predicate Totals(totals: map<char, real>, text: string, table: map<char, real>)
  {
    && (forall c :: c in totals <==> c in text)
    && TotalsValues(totals, text, table)
  }

  /** Every entry of `totals` is its character's weight in `table` once per
      occurrence in `text`. */
  ghost predicate TotalsValues(totals: map<char, real>, text: string, table: map<char, real>)
  {
    forall c :: c in totals ==> totals[c] == Times(Count(text, c), WeightIn(table, c))
  }

  /** `w` added to 0.0 `n` times, as `+=` does once per occurrence. */
  function Times(n: nat, w: real): real
  {
    if n == 0 then 0.0 else Times(n - 1, w) + w
  }

  /** Adding `w` `n` times gives `n * w`. */
  lemma {:induction false} TimesIsProduct(n: nat, w: real)
    ensures Times(n, w) == n as real * w
  {
    if n > 0 {
      TimesIsProduct(n - 1, w);
      assert n as real * w == (n - 1) as real * w + w;
    }
  }

  /** The entry of the character just read gains one more weight. */
  lemma {:induction false} TotalsStepSame(totals: map<char, real>, text: string, ch: char, table: map<char, real>)
    requires TotalsValues(totals, text, table)
    requires ch in totals <==> ch in text
    ensures WeightIn(totals, ch) + WeightIn(table, ch) == Times(Count(text + [ch], ch), WeightIn(table, ch))
  {
    var n, w := Count(text, ch), WeightIn(table, ch);
    if ch !in text {
      CountAbsent(text, ch);
    }
    assert WeightIn(totals, ch) == Times(n, w);
    CountSnoc(text, ch, ch);
    assert Times(n + 1, w) == Times(n, w) + w;
  }

  /** Every other entry is left as it was. */
  lemma {:induction false} TotalsStepOther(totals: map<char, real>, text: string, ch: char, table: map<char, real>, c: char)
    requires TotalsValues(totals, text, table)
    requires c in totals && c != ch
    ensures totals[c] == Times(Count(text + [ch], c), WeightIn(table, c))
  {
    assert totals[c] == Times(Count(text, c), WeightIn(table, c));
    CountSnoc(text, ch, c);
  }

  /** One iteration of the loop in `get_character_weights`. */
  lemma TotalsStep(totals: map<char, real>, text: string, ch: char, table: map<char, real>)
    requires Totals(totals, text, table)
    ensures Totals(totals[ch := WeightIn(totals, ch) + WeightIn(table, ch)], text + [ch], table)
  {
    TotalsStepKeys(totals, text, ch, table);
    TotalsStepValues(totals, text, ch, table);
  }

  /** The keys after one iteration are the characters read so far. */
  lemma TotalsStepKeys(totals: map<char, real>, text: string, ch: char, table: map<char, real>)
    requires Totals(totals, text, table)
    ensures forall c :: c in totals[ch := WeightIn(totals, ch) + WeightIn(table, ch)] <==> c in text + [ch]
  {
    forall c
      ensures c in text + [ch] <==> c in text || c == ch
    {
    }
  }

  /** The values after one iteration are the weights of the characters read so far. */
  lemma TotalsStepValues(totals: map<char, real>, text: string, ch: char, table: map<char, real>)
    requires TotalsValues(totals, text, table)
    requires ch in totals <==> ch in text
    ensures TotalsValues(totals[ch := WeightIn(totals, ch) + WeightIn(table, ch)], text + [ch], table)
  {
    var next := totals[ch := WeightIn(totals, ch) + WeightIn(table, ch)];
    forall c | c in next
      ensures next[c] == Times(Count(text + [ch], c), WeightIn(table, c))
    {
      TotalsStepAt(totals, text, ch, table, c);
    }
  }

  /** One entry after one iteration. */
  lemma TotalsStepAt(totals: map<char, real>, text: string, ch: char, table: map<char, real>, c: char)
    requires TotalsValues(totals, text, table)
    requires ch in totals <==> ch in text
    requires c in totals[ch := WeightIn(totals, ch) + WeightIn(table, ch)]
    ensures totals[ch := WeightIn(totals, ch) + WeightIn(table, ch)][c]
         == Times(Count(text + [ch], c), WeightIn(table, c))
  {
    if c == ch {
      TotalsStepSame(totals, text, ch, table);
    } else {
      TotalsStepOther(totals, text, ch, table, c);
    }
  }

  /** Under a table that weighs the ASCII letters `letterWeight` and every
      other character 0, only letters accumulate weight. */
  lemma TotalsOfLetters(totals: map<char, real>, text: string, table: map<char, real>, letterWeight: real)
    requires Totals(totals, text, table)
    requires forall c :: WeightIn(table, c) == if IsAsciiLetter(c) then letterWeight else 0.0
    ensures forall c :: c in totals <==> c in text
    ensures forall c :: c in totals ==>
      totals[c] == if IsAsciiLetter(c) then Count(text, c) as real * letterWeight else 0.0
  {
    forall c | c in totals
      ensures totals[c] == if IsAsciiLetter(c) then Count(text, c) as real * letterWeight else 0.0
    {
      TimesOfLetter(Count(text, c), WeightIn(table, c), letterWeight, IsAsciiLetter(c));
    }
  }

  /** `n` occurrences of a character weighing `lw` if it is a letter and 0
      otherwise. */
  lemma TimesOfLetter(n: nat, w: real, lw: real, letter: bool)
    requires w == if letter then lw else 0.0
    ensures Times(n, w) == if letter then n as real * lw else 0.0
  {
    TimesIsProduct(n, w);
    if !letter {
      assert n as real * 0.0 == 0.0;
    }
  }

  /** What `analyze_text` reports about `text` when the counter's weight
      table is `table`. */
  ghost predicate Describes(a: Analysis, text: string, table: map<char, real>)
  {
    && a.wordCount == RunStarts(text, IsWordChar)
    && a.weightedCount == a.wordCount as real
    && a.characterCounts == CharacterCounts(
         CountIf(text, IsAsciiLetter), CountIf(text, IsDigit),
         CountIf(text, IsPunctuation), CountIf(text, IsWhitespace), |text|)
    && Totals(a.characterWeights, text, table)
    && a.averageWordLength == AverageLength(Words(text))
  }

  /** The facts `analyze_text` promises follow from what it reports. */
  lemma {:induction false} AnalysisFacts(a: Analysis, text: string, words: nat)
    requires a.wordCount == words == |Words(text)|
    requires a.characterCounts == CharacterCounts(
           CountIf(text, IsAsciiLetter), CountIf(text, IsDigit),
           CountIf(text, IsPunctuation), CountIf(text, IsWhitespace), |text|)
    requires a.averageWordLength == AverageLength(Words(text))
    ensures a.characterCounts.letters + a.characterCounts.digits
          + a.characterCounts.punctuation + a.characterCounts.whitespace
         <= a.characterCounts.total
    ensures a.averageWordLength == 0.0 <==> a.wordCount == 0
    ensures a.wordCount > 0 ==> a.averageWordLength >= 1.0
  {
    ClassCountsBounded(text);
    AverageWordLengthBounds(text);
  }

  class WordCounter {
    const letterWeight: real
    /** `self.char_weights`, filled once by the constructor. */
    var charWeights: map<char, real>
    const firstWordAdjustment: real

    ghost predicate Valid()
      reads this
    {
      WeightTable(charWeights, letterWeight)
    }

    /** `WordCounter(letter_weight)`: one loop gives every ASCII letter its
        weight, a second gives whitespace, punctuation and digits 0. */
    constructor (letterWeight: real)
      ensures this.letterWeight == letterWeight
      ensures firstWordAdjustment == FirstWordAdjustment
      ensures Valid()
    {
      var table: map<char, real> := map[];
      var i := 0;
      while i < |AsciiLetters|
        invariant 0 <= i <= |AsciiLetters|
        invariant forall c :: c in table <==> c in AsciiLetters[..i]
        invariant forall c :: c in table ==> table[c] == letterWeight
      {
        assert AsciiLetters[..i + 1] == AsciiLetters[..i] + [AsciiLetters[i]];
        table := table[AsciiLetters[i] := letterWeight];
        i := i + 1;
      }
      assert AsciiLetters[..i] == AsciiLetters;
      var others := Whitespace + Punctuation + Digits;
      var j := 0;
      while j < |others|
        invariant 0 <= j <= |others|
        invariant forall c :: c in table <==> c in AsciiLetters || c in others[..j]
        invariant forall c :: c in table ==> table[c] == if c in others[..j] then 0.0 else letterWeight
      {
        assert others[..j + 1] == others[..j] + [others[j]];
        table := table[others[j] := 0.0];
        j := j + 1;
      }
      assert others[..j] == others;
      TableFilled(table, letterWeight);
      this.letterWeight := letterWeight;
      firstWordAdjustment := FirstWordAdjustment;
      charWeights := table;
    }

    /** `self.char_weights.get(char, 0.0)`. */
    function Weight(c: char): (w: real)
      reads this
      ensures Valid() ==> w == if IsAsciiLetter(c) then letterWeight else 0.0
    {
      WeightIn(charWeights, c)
    }

    /** `count_words`: the number of `\b\w+\b` matches, which is the number
        of places where a run of word characters starts. */
    function CountWords(text: string): (n: nat)
      ensures n == RunStarts(text, IsWordChar)
    {
      RunsCount(text, IsWordChar);
      |Words(text)|
    }

    /** A text has no words exactly when it holds no word character: empty,
        whitespace-only and punctuation-only texts count 0. */
    lemma CountWordsZero(text: string)
      ensures CountWords(text) == 0 <==> forall i :: 0 <= i < |text| ==> !IsWordChar(text[i])
    {
      RunsEmpty(text, IsWordChar);
    }

    /** `weighted_count`: every word weighs 1, so the weighted count is the
        number of word-character runs. */
    function WeightedCount(text: string): (r: real)
      ensures r == RunStarts(text, IsWordChar) as real
    {
      CountWords(text) as real
    }

    /** `custom_weighted_count`: the character weights passed in play no
        part; the result is the weighted count. */
    function CustomWeightedCount(text: string, charWeights: map<char, real>): (r: real)
      ensures r == WeightedCount(text)
    {
      |Words(text)| as real
    }

    /** `get_word_weights`: every given word, and only those, weighs 1. */
    function GetWordWeights(words: seq<string>): (r: map<string, real>)
      ensures forall w :: w in r <==> w in words
      ensures forall w :: w in r ==> r[w] == 1.0
    {
      map w | w in words :: 1.0
    }

    /** `get_character_weights`: one entry per distinct character of the
        text, holding that character's table weight once per occurrence. */
    method GetCharacterWeights(text: string) returns (totals: map<char, real>)
      ensures Totals(totals, text, charWeights)
    {
      totals := map[];
      var i := 0;
      while i < |text|
        invariant 0 <= i <= |text|
        invariant Totals(totals, text[..i], charWeights)
      {
        var ch := text[i];
        assert text[..i + 1] == text[..i] + [ch];
        TotalsStep(totals, text[..i], ch, charWeights);
        ghost var next := totals[ch := WeightIn(totals, ch) + WeightIn(charWeights, ch)];
        if ch !in totals {
          totals := totals[ch := 0.0];
        }
        totals := totals[ch := totals[ch] + Weight(ch)];
        assert totals == next;
        i := i + 1;
      }
      assert text[..i] == text;
    }

    /** With the constructor's table, a letter contributes `letterWeight`
        per occurrence and every other character contributes 0. */
    lemma CharacterWeightsOfTable(text: string, totals: map<char, real>)
      requires Valid()
      requires Totals(totals, text, charWeights)
      ensures forall c :: c in totals <==> c in text
      ensures forall c :: c in totals ==>
        totals[c] == if IsAsciiLetter(c) then Count(text, c) as real * letterWeight else 0.0
    {
      forall c
        ensures WeightIn(charWeights, c) == if IsAsciiLetter(c) then letterWeight else 0.0
      {
        assert Weight(c) == WeightIn(charWeights, c);
      }
      TotalsOfLetters(totals, text, charWeights, letterWeight);
    }

    /** `analyze_text`: the word counts, the four character-class counts and
        the length, the per-character weights and the average word length. */
    method AnalyzeText(text: string) returns (a: Analysis)
      ensures Describes(a, text, charWeights)
      ensures a.characterCounts.letters + a.characterCounts.digits
            + a.characterCounts.punctuation + a.characterCounts.whitespace
           <= a.characterCounts.total
      ensures a.averageWordLength == 0.0 <==> a.wordCount == 0
      ensures a.wordCount > 0 ==> a.averageWordLength >= 1.0
    {
      var weights := GetCharacterWeights(text);
      var counts := CharacterCounts(
        CountIf(text, IsAsciiLetter), CountIf(text, IsDigit),
        CountIf(text, IsPunctuation), CountIf(text, IsWhitespace), |text|);
      a := Analysis(CountWords(text), WeightedCount(text), counts, weights, AverageLength(Words(text)));
      AnalysisFacts(a, text, CountWords(text));
    }

    /** `plot_data`: word positions 1..n and the running count after each
        word, which is the same sequence. */
    method PlotData(text: string) returns (xValues: seq<int>, yValues: seq<int>)
      ensures |xValues| == CountWords(text) && |yValues| == CountWords(text)
      ensures forall i :: 0 <= i < |xValues| ==> xValues[i] == i + 1
      ensures forall i :: 0 <= i < |yValues| ==> yValues[i] == i + 1
    {
      var words := Words(text);
      yValues := [];
      var runningCount := 0;
      var i := 0;
      while i < |words|
        invariant 0 <= i <= |words|
        invariant runningCount == i && |yValues| == i
        invariant forall k :: 0 <= k < i ==> yValues[k] == k + 1
      {
        runningCount := runningCount + 1;
        yValues := yValues + [runningCount];
        i := i + 1;
      }
      xValues := seq(|words|, k => k + 1);
    }
  }
}
