/** The notebook-level word counter (src/utils/word_counter.py): word totals
    per page and for the whole notebook, a word frequency table, a weighted
    total and the most frequent words. Every query answers 0 or empty while
    no notebook is attached. */
module NotebookWordCount {
  import opened Text
  import Ranking
  import opened Notebooks

  /** The characters stripped from both ends of every counted word. */
  const StripChars: string := ".,;:!?()[]{}\"'-"

  /** The words `content.split()` yields. */
  function PageWordCount(content: string): nat
  {
    |SplitWhitespace(content)|
  }

  /** The word total over the pages, in visiting order. */
  function WordTotal(views: seq<PageView>): nat
  {
    if views == [] then 0
    else WordTotal(views[..|views| - 1]) + PageWordCount(views[|views| - 1].content)
  }

  /** The stripped words that are not empty, in order: what the frequency
      loop counts. */
  function Kept(words: seq<string>): (r: seq<string>)
    ensures |r| <= |words|
  {
    if words == [] then []
    else
      var n := |words| - 1;
      var w := Strip(words[n], StripChars);
      Kept(words[..n]) + (if w != [] then [w] else [])
  }

  /** Every counted word is non-empty and has no strip character at either
      end. */
  lemma {:induction false} KeptStripped(words: seq<string>, w: string)
    requires w in Kept(words)
    ensures w != [] && w[0] !in StripChars && w[|w| - 1] !in StripChars
  {
    var n := |words| - 1;
    var last := Strip(words[n], StripChars);
    assert Kept(words) == Kept(words[..n]) + (if last != [] then [last] else []);
    if w in Kept(words[..n]) {
      KeptStripped(words[..n], w);
    } else {
      assert w == last;
      StripFacts(words[n], StripChars);
    }
  }

  /** The counted words of one page: lower-cased, split on whitespace,
      stripped, empty ones left out. */
  function PageWords(content: string): seq<string>
  {
    Kept(SplitWhitespace(Lower(content)))
  }

  /** The counted words of all pages, page after page. */
  function FrequencyWords(views: seq<PageView>): seq<string>
  {
    if views == [] then []
    else FrequencyWords(views[..|views| - 1]) + PageWords(views[|views| - 1].content)
  }

  /** A word's weight: its entry in `weights`, otherwise 1. */
  function WeightOf(word: string, weights: map<string, real>): real
  {
    if word in weights then weights[word] else 1.0
  }

  /** The weights of the stripped words, added up; empty words are not
      left out here. */
  function WeightedSum(words: seq<string>, weights: map<string, real>): real
  {
    if words == [] then 0.0
    else
      var n := |words| - 1;
      WeightedSum(words[..n], weights) + WeightOf(Strip(words[n], StripChars), weights)
  }

  /** The weighted total over the pages, in visiting order. */
  function WeightedTotal(views: seq<PageView>, weights: map<string, real>): real
  {
    if views == [] then 0.0
    else
      var n := |views| - 1;
      WeightedTotal(views[..n], weights) + WeightedSum(SplitWhitespace(Lower(views[n].content)), weights)
  }

  /** The dictionary that `frequency[w] = frequency.get(w, 0) + 1` builds
      from `words`, one word after the other. */
  function CountMap(words: seq<string>): map<string, nat>
  {
    if words == [] then map[]
    else
      var m := CountMap(words[..|words| - 1]);
      var w := words[|words| - 1];
      m[w := (if w in m then m[w] else 0) + 1]
  }

  /** The built dictionary holds exactly the words, each with its number of
      occurrences. */
  lemma {:induction false} CountMapFacts(words: seq<string>)
    ensures forall w :: w in CountMap(words) <==> w in words
    ensures forall w :: w in CountMap(words) ==> CountMap(words)[w] == Count(words, w)
  {
    if words != [] {
      var n := |words| - 1;
      CountMapFacts(words[..n]);
      assert words == words[..n] + [words[n]];
      forall w ensures Count(words, w) == Count(words[..n], w) + (if words[n] == w then 1 else 0) {
        CountSnoc(words[..n], words[n], w);
      }
      forall w | w !in words[..n] ensures Count(words[..n], w) == 0 {
        CountAbsent(words[..n], w);
      }
    }
  }

  /** The frequency dictionary with its keys in insertion order, after the
      words `words` have been counted. */
  ghost predicate Tracks(frequency: map<string, nat>, keys: seq<string>, words: seq<string>)
  {
    frequency == CountMap(words) && keys == Distinct(words)
  }

  /** `frequency[word] = frequency.get(word, 0) + 1`: a new word goes to the
      end of the key order, a known one keeps its place. */
  lemma TracksStep(frequency: map<string, nat>, keys: seq<string>, words: seq<string>, word: string)
    requires Tracks(frequency, keys, words)
    ensures Tracks(
      frequency[word := (if word in frequency then frequency[word] else 0) + 1],
      if word in frequency then keys else keys + [word],
      words + [word])
  {
    assert (words + [word])[..|words|] == words;
    CountMapFacts(words);
    DistinctElements(words);
  }

  /** One more word of a page: its strip is kept unless it is empty. */
  lemma KeptStep(seen: seq<string>, words: seq<string>, i: int)
    requires 0 <= i < |words|
    ensures Strip(words[i], StripChars) != [] ==>
      seen + Kept(words[..i + 1]) == seen + Kept(words[..i]) + [Strip(words[i], StripChars)]
    ensures Strip(words[i], StripChars) == [] ==> seen + Kept(words[..i + 1]) == seen + Kept(words[..i])
  {
    assert words[..i + 1][..i] == words[..i];
    if Strip(words[i], StripChars) != [] {
      assert Kept(words[..i + 1]) == Kept(words[..i]) + [Strip(words[i], StripChars)];
    } else {
      assert Kept(words[..i + 1]) == Kept(words[..i]);
    }
  }

  /** The items of a tracked dictionary, in insertion order, are the tally. */
  lemma TracksTally(frequency: map<string, nat>, keys: seq<string>, words: seq<string>)
    requires Tracks(frequency, keys, words)
    ensures forall i :: 0 <= i < |keys| ==> keys[i] in frequency
    ensures seq(|keys|, i requires 0 <= i < |keys| && keys[i] in frequency => (keys[i], frequency[keys[i]]))
      == Ranking.Tally(words)
  {
    CountMapFacts(words);
    DistinctElements(words);
    assert forall i :: 0 <= i < |keys| ==> keys[i] in keys;
  }

  /** Each page contributes one weight per word. */
  lemma {:induction false} WeightedSumOfUnweighted(words: seq<string>, weights: map<string, real>)
    requires forall i :: 0 <= i < |words| ==> Strip(words[i], StripChars) !in weights
    ensures WeightedSum(words, weights) == |words| as real
  {
    if words != [] {
      WeightedSumOfUnweighted(words[..|words| - 1], weights);
    }
  }

  /** With no stripped word listed in `weights`, the weighted total is the
      plain word total: `split()` on the lower-cased text finds the same
      words as on the text itself. */
  lemma {:induction false} WeightedTotalOfUnweighted(views: seq<PageView>, weights: map<string, real>)
    requires forall p, i :: 0 <= p < |views| && 0 <= i < |SplitWhitespace(Lower(views[p].content))| ==>
      Strip(SplitWhitespace(Lower(views[p].content))[i], StripChars) !in weights
    ensures WeightedTotal(views, weights) == WordTotal(views) as real
  {
    if views != [] {
      var n := |views| - 1;
      assert forall p :: 0 <= p < n ==> views[..n][p] == views[p];
      WeightedTotalOfUnweighted(views[..n], weights);
      WeightedSumOfUnweighted(SplitWhitespace(Lower(views[n].content)), weights);
      LowerWordCount(views[n].content);
    }
  }

  /** Lower-casing keeps whitespace where it is, so the word count stays. */
  lemma LowerWordCount(s: string)
    ensures |SplitWhitespace(Lower(s))| == |SplitWhitespace(s)|
  {
    RunsCount(s, IsNonSpace);
    RunsCount(Lower(s), IsNonSpace);
    LowerRunStarts(s, false);
  }

  lemma {:induction false} LowerRunStarts(s: string, prev: bool)
    ensures RunStartsFrom(Lower(s), IsNonSpace, prev) == RunStartsFrom(s, IsNonSpace, prev)
    decreases |s|
  {
    if s != [] {
      assert Lower(s)[0] == LowerChar(s[0]) && Lower(s)[1..] == Lower(s[1..]);
      LowerRunStarts(s[1..], IsNonSpace(s[0]));
    }
  }

  /** Every counted word is non-empty and neither starts nor ends with a
      stripped character, and each counted word has an entry with its
      number of occurrences. */
  lemma FrequencyFacts(views: seq<PageView>)
    ensures forall e :: e in Ranking.Tally(FrequencyWords(views)) ==>
      && e.0 != [] && e.0[0] !in StripChars && e.0[|e.0| - 1] !in StripChars
      && e.1 == Count(FrequencyWords(views), e.0) && e.1 > 0
    ensures forall w :: w in FrequencyWords(views) ==>
      (w, Count(FrequencyWords(views), w)) in Ranking.Tally(FrequencyWords(views))
    ensures NoDuplicates(Ranking.Tally(FrequencyWords(views)))
  {
    Ranking.TallyEntries(FrequencyWords(views));
    TallyKeysStripped(views);
  }

  /** The keys of the frequency table are stripped, non-empty words. */
  lemma TallyKeysStripped(views: seq<PageView>)
    ensures forall e :: e in Ranking.Tally(FrequencyWords(views)) ==>
      e.0 != [] && e.0[0] !in StripChars && e.0[|e.0| - 1] !in StripChars
  {
    var words := FrequencyWords(views);
    Ranking.TallyEntries(words);
    forall w | w in words
      ensures w != [] && w[0] !in StripChars && w[|w| - 1] !in StripChars
    {
      FrequencyWordsStripped(views, w);
    }
  }

  lemma {:induction false} FrequencyWordsStripped(views: seq<PageView>, w: string)
    requires w in FrequencyWords(views)
    ensures w != [] && w[0] !in StripChars && w[|w| - 1] !in StripChars
  {
    var n := |views| - 1;
    if w in FrequencyWords(views[..n]) {
      FrequencyWordsStripped(views[..n], w);
    } else {
      KeptStripped(SplitWhitespace(Lower(views[n].content)), w);
    }
  }

  /** Stripping and dropping empty words never adds words: the frequency
      counts add up to the number of counted words, which is at most the
      `count_total_words` figure. */
  lemma {:induction false} FrequencyTotal(views: seq<PageView>)
    ensures Ranking.SumCounts(Ranking.Tally(FrequencyWords(views))) == |FrequencyWords(views)|
    ensures |FrequencyWords(views)| <= WordTotal(views)
  {
    Ranking.SumCountsTally(FrequencyWords(views));
    if views != [] {
      var n := |views| - 1;
      FrequencyTotal(views[..n]);
      LowerWordCount(views[n].content);
    }
  }

  /** `get_most_common_words(n)`: the frequency items sorted by count,
      largest first and ties in insertion order, then `[:n]`. */
  function MostCommonWords(views: seq<PageView>, n: int): seq<(string, nat)>
  {
    Ranking.SliceTo(Ranking.SortDesc(Ranking.Tally(FrequencyWords(views)), Ranking.CountOf), n)
  }

  /** For a positive `n` this is `Counter(words).most_common(n)`; `[:0]` is
      empty and a negative `n` drops the last `-n` entries. */
  lemma MostCommonWordsFacts(views: seq<PageView>, n: int)
    ensures n > 0 ==> MostCommonWords(views, n) == Ranking.MostCommon(FrequencyWords(views), n)
    ensures n == 0 ==> MostCommonWords(views, n) == []
    ensures n < 0 ==>
      |MostCommonWords(views, n)| == if |Distinct(FrequencyWords(views))| + n > 0
        then |Distinct(FrequencyWords(views))| + n else 0
    ensures Ranking.NonIncreasing(MostCommonWords(views, n), Ranking.CountOf)
    ensures forall e :: e in MostCommonWords(views, n) ==> Ranking.Tallied(e, FrequencyWords(views))
  {
    var words := FrequencyWords(views);
    var sorted := Ranking.SortDesc(Ranking.Tally(words), Ranking.CountOf);
    var r := MostCommonWords(views, n);
    Ranking.SortDescSorted(Ranking.Tally(words), Ranking.CountOf);
    Ranking.SortDescPermutation(Ranking.Tally(words), Ranking.CountOf);
    Ranking.TallyEntries(words);
    assert |sorted| == |Ranking.Tally(words)| by {
      assert |multiset(sorted)| == |multiset(Ranking.Tally(words))|;
    }
    forall e | e in r ensures Ranking.Tallied(e, words) {
      assert e in multiset(sorted);
    }
    forall i, j | 0 <= i < j < |r| ensures Ranking.CountOf(r[i]) >= Ranking.CountOf(r[j]) {
      assert r[i] == sorted[i] && r[j] == sorted[j];
    }
  }

  class WordCounter {
    /** `self.notebook`, or `None`. */
    var notebook: Notebook?

    /** The attached notebook, if any, keeps its own invariant. */
    ghost predicate Ready()
      reads this, notebook
    {
      notebook != null ==> notebook.Valid()
    }

    constructor (notebook: Notebook?)
      ensures this.notebook == notebook
    {
      this.notebook := notebook;
    }

    method SetNotebook(notebook: Notebook?)
      modifies this
      ensures this.notebook == notebook
    {
      this.notebook := notebook;
    }

    /** `count_words_in_page`: the words of the page's content; 0 without a
        notebook and 0 for an id the notebook does not hold. */
    method CountWordsInPage(pageId: int) returns (n: nat)
      ensures notebook == null ==> n == 0
      ensures notebook != null && pageId !in notebook.pages ==> n == 0
      ensures notebook != null && pageId in notebook.pages ==>
        n == PageWordCount(notebook.pages[pageId].content)
    {
      if notebook == null {
        return 0;
      }
      var r := notebook.GetPage(pageId);
      match r
      case Ok(page) =>
        n := PageWordCount(page.content);
      case Err(_) =>
        n := 0;
    }

    /** `count_total_words`: the word counts of all pages added up. */
    method CountTotalWords() returns (n: nat)
      requires Ready()
      ensures notebook == null ==> n == 0
      ensures notebook != null ==> n == WordTotal(notebook.Snapshot())
    {
      if notebook == null {
        return 0;
      }
      var views := notebook.Snapshot();
      n := 0;
      var p := 0;
      while p < |views|
        invariant 0 <= p <= |views|
        invariant n == WordTotal(views[..p])
      {
        assert views[..p + 1][..p] == views[..p];
        n := n + PageWordCount(views[p].content);
        p := p + 1;
      }
      assert views[..p] == views;
    }

    /** `get_word_frequency`: the dictionary from every counted word to its
        number of occurrences, given as its items in insertion order. */
    method GetWordFrequency() returns (items: seq<(string, nat)>)
      requires Ready()
      ensures notebook == null ==> items == []
      ensures notebook != null ==> items == Ranking.Tally(FrequencyWords(notebook.Snapshot()))
    {
      if notebook == null {
        return [];
      }
      var views := notebook.Snapshot();
      var frequency, keys := CountPages(views);
      TracksTally(frequency, keys, FrequencyWords(views));
      items := seq(|keys|, i requires 0 <= i < |keys| && keys[i] in frequency => (keys[i], frequency[keys[i]]));
    }

    /** The outer loop of `get_word_frequency`: the pages counted into the
        dictionary one after the other. */
    method CountPages(views: seq<PageView>) returns (frequency: map<string, nat>, keys: seq<string>)
      ensures Tracks(frequency, keys, FrequencyWords(views))
    {
      frequency, keys := map[], [];
      var p := 0;
      while p < |views|
        invariant 0 <= p <= |views|
        invariant Tracks(frequency, keys, FrequencyWords(views[..p]))
      {
        assert views[..p + 1][..p] == views[..p];
        frequency, keys := CountPage(frequency, keys, FrequencyWords(views[..p]), SplitWhitespace(Lower(views[p].content)));
        p := p + 1;
      }
      assert views[..p] == views;
    }

    /** The inner loop of `get_word_frequency`: the words of one page,
        `page.content.lower().split()`, counted into the dictionary. */
    method CountPage(frequency: map<string, nat>, keys: seq<string>, ghost seen: seq<string>, words: seq<string>)
      returns (frequency': map<string, nat>, keys': seq<string>)
      requires Tracks(frequency, keys, seen)
      ensures Tracks(frequency', keys', seen + Kept(words))
    {
      frequency', keys' := frequency, keys;
      ghost var counted := seen;
      assert seen + Kept(words[..0]) == seen;
      var i := 0;
      while i < |words|
        invariant 0 <= i <= |words|
        invariant counted == seen + Kept(words[..i])
        invariant Tracks(frequency', keys', counted)
      {
        var word := Strip(words[i], StripChars);
        KeptStep(seen, words, i);
        if word != [] {
          TracksStep(frequency', keys', counted, word);
          keys' := if word in frequency' then keys' else keys' + [word];
          frequency' := frequency'[word := (if word in frequency' then frequency'[word] else 0) + 1];
          counted := counted + [word];
        }
        i := i + 1;
      }
      assert words[..i] == words;
    }

    /** `get_page_word_count`: every page id mapped to its word count. */
    method GetPageWordCount() returns (counts: map<int, nat>)
      requires Ready()
      ensures notebook == null ==> counts == map[]
      ensures notebook != null ==> forall k :: k in counts <==> k in notebook.pages
      ensures notebook != null ==> forall k :: k in counts ==> counts[k] == PageWordCount(notebook.pages[k].content)
    {
      counts := map[];
      if notebook == null {
        return;
      }
      var ids := notebook.order;
      var p := 0;
      while p < |ids|
        invariant 0 <= p <= |ids|
        invariant forall k :: k in counts <==> k in ids[..p]
        invariant forall k :: k in counts ==> k in notebook.pages && counts[k] == PageWordCount(notebook.pages[k].content)
      {
        var n := CountWordsInPage(ids[p]);
        assert ids[..p + 1] == ids[..p] + [ids[p]];
        counts := counts[ids[p] := n];
        p := p + 1;
      }
      assert ids[..p] == ids;
    }

    /** `get_weighted_word_count(weights)`: with no notebook or no weights,
        the plain word total; otherwise every stripped word, empty ones
        included, adds its weight, or 1 when it has none. */
    method GetWeightedWordCount(weights: map<string, real>) returns (r: real)
      requires Ready()
      ensures notebook == null ==> r == 0.0
      ensures notebook != null && weights == map[] ==> r == WordTotal(notebook.Snapshot()) as real
      ensures notebook != null && weights != map[] ==> r == WeightedTotal(notebook.Snapshot(), weights)
    {
      if notebook == null || weights == map[] {
        var total := CountTotalWords();
        return total as real;
      }
      var views := notebook.Snapshot();
      r := 0.0;
      var p := 0;
      while p < |views|
        invariant 0 <= p <= |views|
        invariant r == WeightedTotal(views[..p], weights)
      {
        assert views[..p + 1][..p] == views[..p];
        var words := SplitWhitespace(Lower(views[p].content));
        ghost var before := r;
        var i := 0;
        while i < |words|
          invariant 0 <= i <= |words|
          invariant r == before + WeightedSum(words[..i], weights)
        {
          assert words[..i + 1][..i] == words[..i];
          var word := Strip(words[i], StripChars);
          if word in weights {
            r := r + weights[word];
          } else {
            r := r + 1.0;
          }
          i := i + 1;
        }
        assert words[..i] == words;
        p := p + 1;
      }
      assert views[..p] == views;
    }

    /** `get_most_common_words(n)`, ten by default. */
    method GetMostCommonWords(n: int) returns (r: seq<(string, nat)>)
      requires Ready()
      ensures notebook == null ==> r == []
      ensures notebook != null ==> r == MostCommonWords(notebook.Snapshot(), n)
    {
      var frequency := GetWordFrequency();
      var sorted := Ranking.SortDesc(frequency, Ranking.CountOf);
      r := Ranking.SliceTo(sorted, n);
    }
  }

  /** The default of `get_most_common_words`. */
  const DefaultMostCommon := 10
}
