# Digital Notebook: a verified model of the data layer, text analysis and search

The Digital Notebook is a desktop note-taking application. A **notebook** holds **pages**,
keyed by integer id. Each page has a name, a text body, two timestamps and a metadata
dictionary. Several components sit on top of the notebook:

- an **analysis word counter**: words are runs of word characters, there is a
  per-character weight table, and the class counts;
- a **text analyzer**: sentence counts, syllables, Flesch readability, keywords, version
  history and text comparison;
- a **notebook word counter**: totals, a frequency table, a weighted total and the most
  common words;
- a **search engine**: literal, whole-word, keyword and regular-expression searches, with
  context snippets and a relevance-sorted result list.

The Dafny modules follow the program's files:

| module | file | models |
|---|---|---|
| `Results` | `results.dfy` | `Option`, `Result` and `Outcome`, which stand in for `None` and for raised exceptions |
| `Text` | `text.dfy` | ASCII character classes; `str.lower`, `str.split()`, `str.strip(chars)`; the runs `re.findall(r'\b\w+\b')` finds; `re.split(r'[.!?]+')`; counting and distinct elements |
| `Ranking` | `ranking.dfy` | the stable `sorted(..., reverse=True)` / `list.sort(..., reverse=True)`; `Counter(xs)` and its `most_common(n)`; Python's `[:n]` slice |
| `Pages` | `pages.dfy` | `src/core/page.py`: class `Page` |
| `Notebooks` | `notebooks.dfy` | `src/core/notebook.py`: class `Notebook` |
| `WeightedCount` | `weighted_count.dfy` | `src/analysis/word_counter.py`: class `WordCounter` |
| `TextAnalysis` | `text_analysis.dfy` | `src/analysis/text_analyzer.py`: class `TextAnalyzer` |
| `NotebookWordCount` | `notebook_word_count.dfy` | `src/utils/word_counter.py`: class `WordCounter` |
| `Search` | `search.dfy` | `src/utils/search.py`: `SearchResult` and class `SearchEngine` |

Classes whose fields the source updates stay classes: `Page`, `Notebook`, both
`WordCounter`s, `TextAnalyzer` and `SearchEngine`. Their methods carry `modifies` clauses
and state the whole new state. The notebook's `pages` dictionary becomes two fields:

- `pages: map<int, Page>`;
- `order: seq<int>`, the dictionary's insertion order, which `pages.values()` follows.

`Notebook.Valid()` ties the two fields together. Every loop of the source is a `while`
loop with invariants, proved against a function of its inputs. The functions are pure
specifications: per-page result lists, token lists, tallies. The lemmas prove what the
source promises about them.

Matching in the search engine is modelled on the text, not by a regular-expression
engine. The queries are `re.escape`d literals, with `\b` on both sides in whole-word mode.
`pattern.finditer` becomes the function `Scan`: a leftmost, non-overlapping scan that
steps on by the length of the query (by 1 for an empty query). Three lemmas prove what
`Scan` reports:

- every span is a match (`FindAllSound`);
- the spans go left to right without overlap, and no match is skipped (`FindAllComplete`);
- `pattern.search` finds the leftmost match (`FindAllFirst`).

## Model

Source paths below start at the repository's own directory,
`cursor_/proj/practice/Digital_Notebook/`.

| member | source | states |
|---|---|---|
| Text.LowerFacts | cursor_/proj/practice/Digital_Notebook/src/analysis/text_analyzer.py:112 | `str.lower()` is idempotent, leaves no upper-case ASCII letter, changes no other character, and keeps every character a word character or a separator exactly when it was one |
| Text.RunsCount | cursor_/proj/practice/Digital_Notebook/src/analysis/word_counter.py:55-56 | the number of tokens equals the number of positions where a run of the character class starts |
| Text.RunsEmpty | cursor_/proj/practice/Digital_Notebook/src/analysis/word_counter.py:55-56 | there are no tokens exactly when no character belongs to the class |
| Text.SentenceSegmentsCount | cursor_/proj/practice/Digital_Notebook/src/analysis/text_analyzer.py:49 | `re.split(r'[.!?]+', text)` yields one more segment than there are maximal runs of `.!?` |
| Text.ClassesDisjoint | cursor_/proj/practice/Digital_Notebook/src/analysis/word_counter.py:108-111 | the letter, digit, punctuation and whitespace classes do not overlap |
| Text.StripFacts | cursor_/proj/practice/Digital_Notebook/src/utils/word_counter.py:74 | `word.strip(chars)` is no longer than the word, neither starts nor ends with a stripped character, and stripping twice changes nothing |
| Text.Max1 | cursor_/proj/practice/Digital_Notebook/src/analysis/word_counter.py:115 | `max(1, n)` is at least 1 and at least n, and is n when n >= 1 |
| Text.DistinctElements | cursor_/proj/practice/Digital_Notebook/src/analysis/text_analyzer.py:196 | the keys of a `Counter` are exactly the elements of the list, each once, and no more of them than the list has |
| Ranking.SortDescSorted | cursor_/proj/practice/Digital_Notebook/src/utils/search.py:112 | the sort by relevance, descending, leaves the keys non-increasing |
| Ranking.SortDescPermutation | cursor_/proj/practice/Digital_Notebook/src/utils/search.py:212 | the sort keeps exactly the same elements (a permutation) |
| Ranking.SortDescStable | cursor_/proj/practice/Digital_Notebook/src/utils/search.py:353 | for every key value, the elements with that key keep their original order (stability) |
| Ranking.SortDescOfConstant | cursor_/proj/practice/Digital_Notebook/src/utils/search.py:278 | sorting a list whose keys are all equal returns it unchanged |
| Ranking.SliceTo | cursor_/proj/practice/Digital_Notebook/src/utils/word_counter.py:128 | `xs[:n]` is a prefix of length min(n, len) for n >= 0 and drops the last -n elements for n < 0 |
| Ranking.TallyEntries | cursor_/proj/practice/Digital_Notebook/src/analysis/text_analyzer.py:196 | every tally entry counts a present element correctly, no element has two entries, and every element has one |
| Ranking.SumCountsTally | cursor_/proj/practice/Digital_Notebook/src/utils/word_counter.py:69-77 | the counts of a tally add up to the number of elements tallied |
| Ranking.MostCommonFacts | cursor_/proj/practice/Digital_Notebook/src/analysis/text_analyzer.py:196-199 | `most_common(n)` is empty for n <= 0, has min(n, distinct) entries otherwise, all correct and distinct with non-increasing counts, and holds every element once n covers them all |
| Ranking.MostCommonStable | cursor_/proj/practice/Digital_Notebook/src/analysis/text_analyzer.py:196-199 | for every count, the entries of `most_common(n)` with that count are a prefix of the tally's entries with that count, in first-occurrence order; for the whole sorted tally they are all of them |
| Ranking.MostCommonTieOrder | cursor_/proj/practice/Digital_Notebook/src/analysis/text_analyzer.py:196-199 | two entries of `most_common(n)` with equal counts appear in the order of their elements' first occurrence |
| Pages.NameOrDefault | cursor_/proj/practice/Digital_Notebook/src/core/page.py:27 | `name or f"Page {page_id}"`: a given non-empty name is kept, a missing or empty name becomes the default, and the result is never empty |
| Pages.Page.constructor | cursor_/proj/practice/Digital_Notebook/src/core/page.py:17-31 | sets the id, the name or its default, and the content; both timestamps are `now`; metadata is empty |
| Pages.Page.UpdateContent | cursor_/proj/practice/Digital_Notebook/src/core/page.py:33-36 | replaces the content and `updated_at`; name, metadata and `created_at` are unchanged |
| Pages.Page.Rename | cursor_/proj/practice/Digital_Notebook/src/core/page.py:38-41 | replaces the name and `updated_at`; content, metadata and `created_at` are unchanged |
| Pages.Page.SetMetadata | cursor_/proj/practice/Digital_Notebook/src/core/page.py:43-46 | after the call the key reads back the value, every other key reads as before, and name and content are unchanged |
| Pages.Page.GetMetadata | cursor_/proj/practice/Digital_Notebook/src/core/page.py:48-50 | `dict.get`: the stored value for a present key, `None` for an absent one |
| Pages.Page.ToDict | cursor_/proj/practice/Digital_Notebook/src/core/page.py:52-61 | the record carries the page's id, name, content, timestamps and metadata |
| Pages.Page.FromDict | cursor_/proj/practice/Digital_Notebook/src/core/page.py:63-74 | the new page restores the record: id, content, timestamps and metadata, with the name going through the constructor's default |
| Pages.DictRoundTrip | cursor_/proj/practice/Digital_Notebook/src/core/page.py:52-74 | `from_dict(to_dict(p))` reproduces id, content, metadata and timestamps, and the name when it is non-empty; an empty name comes back as the default |
| Notebooks.MaxOf | cursor_/proj/practice/Digital_Notebook/src/core/notebook.py:53 | `max(ids)` is one of the ids and no id exceeds it |
| Notebooks.NextId | cursor_/proj/practice/Digital_Notebook/src/core/notebook.py:51-53 | the new id is 1 for an empty notebook, else max + 1, so it exceeds every existing id |
| Notebooks.Notebook.MaxId | cursor_/proj/practice/Digital_Notebook/src/core/notebook.py:53 | the loop over the ids finds their maximum |
| Notebooks.Notebook.constructor | cursor_/proj/practice/Digital_Notebook/src/core/notebook.py:18-31 | an empty, valid notebook with the given name and page limit, both timestamps `now` |
| Notebooks.Notebook.NewId | cursor_/proj/practice/Digital_Notebook/src/core/notebook.py:50-53 | the id is `NextId` of the keys: 1 for an empty table, else one above the largest key, and never a key already in use |
| Notebooks.Notebook.AddPage | cursor_/proj/practice/Digital_Notebook/src/core/notebook.py:50-60 | adds exactly one fresh page under the next id, with the given name (or default) and content; existing entries are unchanged and the count grows by 1 |
| Notebooks.Notebook.CreatePage | cursor_/proj/practice/Digital_Notebook/src/core/notebook.py:33-60 | at the page limit it returns the error and changes nothing; below it, it adds the page as `AddPage` does; the table stays valid and ascending insertion order is kept |
| Notebooks.Notebook.GetPage | cursor_/proj/practice/Digital_Notebook/src/core/notebook.py:62-78 | it succeeds exactly for a present id and returns that page; otherwise the error names the id |
| Notebooks.Notebook.DeletePage | cursor_/proj/practice/Digital_Notebook/src/core/notebook.py:80-94 | a present id is removed and nothing else changes in the table (count − 1, lookup now fails); an absent id gives the error and no change |
| Notebooks.Remove | cursor_/proj/practice/Digital_Notebook/src/core/notebook.py:93 | `del` on the insertion order keeps exactly the other ids |
| Notebooks.Notebook.ListPages | cursor_/proj/practice/Digital_Notebook/src/core/notebook.py:96-103 | returns every page exactly once, in strictly ascending id order |
| Notebooks.SortedIdsAscending | cursor_/proj/practice/Digital_Notebook/src/core/notebook.py:103 | `sorted(ids)` of distinct ids is an ascending permutation of them |
| Notebooks.Notebook.ListPagesInsertionOrder | cursor_/proj/practice/Digital_Notebook/src/core/notebook.py:103 | when ids were inserted in ascending order, as `create_page` alone produces, listing by id is listing in insertion order |
| Notebooks.Notebook.Snapshot | cursor_/proj/practice/Digital_Notebook/src/core/notebook.py:116 | `pages.values()`: one view per page, in insertion order, with the page's name and content |
| Notebooks.MatchingPages | cursor_/proj/practice/Digital_Notebook/src/core/notebook.py:115-121 | holds every page whose lower-cased name or content contains the lower-cased query, and only such pages |
| Notebooks.Notebook.SearchPages | cursor_/proj/practice/Digital_Notebook/src/core/notebook.py:105-121 | the loop returns exactly the pages whose lower-cased name or content contains the lower-cased query, in insertion order |
| Notebooks.Notebook.SnapshotMatches | cursor_/proj/practice/Digital_Notebook/src/core/notebook.py:115-121 | a page is in the search result if and only if it matches |
| Notebooks.Notebook.SetMetadata | cursor_/proj/practice/Digital_Notebook/src/core/notebook.py:123-126 | the key reads back the value, other keys and the page table are unchanged |
| Notebooks.Notebook.GetMetadata | cursor_/proj/practice/Digital_Notebook/src/core/notebook.py:128-130 | the stored value, or `None` for an absent key |
| Notebooks.Notebook.ToDict | cursor_/proj/practice/Digital_Notebook/src/core/notebook.py:132-141 | the record carries name, limit, timestamps and metadata, and one `(str(id), page.to_dict())` item per page in insertion order; loading those items gives back the same ids and page records |
| Notebooks.LoadFacts | cursor_/proj/practice/Digital_Notebook/src/core/notebook.py:155-157 | loading items keys each page by its own id, holds exactly the ids of the items, and orders them by first occurrence |
| Notebooks.Notebook.PutAll | cursor_/proj/practice/Digital_Notebook/src/core/notebook.py:154-157 | the restore loop leaves exactly the loaded table, with fresh pages restored from their records |
| Notebooks.Notebook.FromDict | cursor_/proj/practice/Digital_Notebook/src/core/notebook.py:143-159 | a valid notebook with the record's name, limit, timestamps and metadata, and the loaded pages |
| Notebooks.DictRoundTrip | cursor_/proj/practice/Digital_Notebook/src/core/notebook.py:132-159 | `from_dict(to_dict(nb))` preserves name, limit, metadata, timestamps, the ids and their order, and each page's id, content, metadata, timestamps and non-empty name; an emptied page name comes back as "Page <id>" |
| WeightedCount.TableFilled | cursor_/proj/practice/Digital_Notebook/src/analysis/word_counter.py:34-39 | the filled table weighs every ASCII letter `letter_weight` and every whitespace, punctuation and digit character 0 |
| WeightedCount.WordCounter.constructor | cursor_/proj/practice/Digital_Notebook/src/analysis/word_counter.py:20-42 | the weight loops leave the table described by `TableFilled`, with the letter weight and first-word adjustment 0.25 |
| WeightedCount.WordCounter.Weight | cursor_/proj/practice/Digital_Notebook/src/analysis/word_counter.py:88 | `char_weights.get(c, 0.0)` is the letter weight for an ASCII letter and 0 for any other character |
| WeightedCount.WordCounter.CountWords | cursor_/proj/practice/Digital_Notebook/src/analysis/word_counter.py:44-56 | the number of maximal runs of word characters |
| WeightedCount.WordCounter.CountWordsZero | cursor_/proj/practice/Digital_Notebook/src/analysis/word_counter.py:55-56 | the count is 0 exactly when the text has no word character |
| WeightedCount.WordCounter.WeightedCount | cursor_/proj/practice/Digital_Notebook/src/analysis/word_counter.py:58-70 | equals the word count as a real, for every text |
| WeightedCount.WordCounter.CustomWeightedCount | cursor_/proj/practice/Digital_Notebook/src/analysis/word_counter.py:173-188 | ignores its weights and equals the weighted count |
| WeightedCount.WordCounter.GetWordWeights | cursor_/proj/practice/Digital_Notebook/src/analysis/word_counter.py:159-171 | maps exactly the given words, each to 1.0 |
| WeightedCount.WordCounter.GetCharacterWeights | cursor_/proj/practice/Digital_Notebook/src/analysis/word_counter.py:72-91 | the accumulation loop leaves, for every character seen, the sum of its table weights over its occurrences |
| WeightedCount.TimesIsProduct | cursor_/proj/practice/Digital_Notebook/src/analysis/word_counter.py:85-89 | adding a weight once per occurrence, starting from 0.0, gives occurrences × weight |
| WeightedCount.WordCounter.CharacterWeightsOfTable | cursor_/proj/practice/Digital_Notebook/src/analysis/word_counter.py:84-91 | the keys are exactly the characters of the text; each value is occurrences × letter weight for an ASCII letter and 0 otherwise |
| WeightedCount.ClassCountsBounded | cursor_/proj/practice/Digital_Notebook/src/analysis/word_counter.py:108-125 | letters + digits + punctuation + whitespace <= len(text) |
| WeightedCount.AverageWordLengthBounds | cursor_/proj/practice/Digital_Notebook/src/analysis/word_counter.py:114-115 | the average word length is 0 exactly when there are no words, and at least 1 otherwise |
| WeightedCount.AnalysisFacts | cursor_/proj/practice/Digital_Notebook/src/analysis/word_counter.py:103-129 | for any analysis built from these parts: the class counts fit in the total, and the average is 0 iff there are no words, else >= 1 |
| WeightedCount.WordCounter.AnalyzeText | cursor_/proj/practice/Digital_Notebook/src/analysis/word_counter.py:93-129 | the word count, weighted count, class counts, character weights and average word length are as specified, with the bounds of `AnalysisFacts` |
| WeightedCount.WordCounter.PlotData | cursor_/proj/practice/Digital_Notebook/src/analysis/word_counter.py:131-157 | `x_values` and `y_values` are both [1, 2, …, n] for n words |
| TextAnalysis.SyllablesInWord | cursor_/proj/practice/Digital_Notebook/src/analysis/text_analyzer.py:139-161 | the estimate is always >= 1 and exactly 1 for words of length <= 3 |
| TextAnalysis.SyllablesAreVowelGroups | cursor_/proj/practice/Digital_Notebook/src/analysis/text_analyzer.py:143-161 | for longer words it is max(1, number of vowel groups − 1 for a silent final e) |
| TextAnalysis.CountSyllablesInWord | cursor_/proj/practice/Digital_Notebook/src/analysis/text_analyzer.py:129-161 | the `prev_is_vowel` loop computes that estimate |
| TextAnalysis.ReplacePunctuation | cursor_/proj/practice/Digital_Notebook/src/analysis/text_analyzer.py:115-116 | the replace loop over `string.punctuation` turns every punctuation character into a space |
| TextAnalysis.TotalSyllablesAtLeast | cursor_/proj/practice/Digital_Notebook/src/analysis/text_analyzer.py:121-127 | a list of words has at least one syllable per word |
| TextAnalysis.CountSyllables | cursor_/proj/practice/Digital_Notebook/src/analysis/text_analyzer.py:99-127 | the loop sums the per-word estimates over the tokens, so it is at least the number of tokens |
| TextAnalysis.SentenceCount | cursor_/proj/practice/Digital_Notebook/src/analysis/text_analyzer.py:49 | `sentence_count` is the number of runs of `.!?` plus 1 (1 for an empty text) |
| TextAnalysis.ReadabilityScores | cursor_/proj/practice/Digital_Notebook/src/analysis/text_analyzer.py:80-97 | both Flesch scores are 0 when there are no words |
| TextAnalysis.ReadabilityAverages | cursor_/proj/practice/Digital_Notebook/src/analysis/text_analyzer.py:95-96 | each average multiplied by its `max(1, ·)` divisor gives back the word or syllable count |
| TextAnalysis.AveragesVanish | cursor_/proj/practice/Digital_Notebook/src/analysis/text_analyzer.py:95-96 | each average is 0 exactly when its numerator is 0 |
| TextAnalysis.TextAnalyzer.CalculateReadability | cursor_/proj/practice/Digital_Notebook/src/analysis/text_analyzer.py:61-97 | the scores for the word count, max(1, segments − 1) sentences and the syllable count |
| TextAnalysis.KeywordCandidatesFacts | cursor_/proj/practice/Digital_Notebook/src/analysis/text_analyzer.py:185-193 | keeps exactly the tokens that are not stop words and are longer than 2 |
| TextAnalysis.ExtractKeywordsFacts | cursor_/proj/practice/Digital_Notebook/src/analysis/text_analyzer.py:163-199 | at most top_n keywords (none for top_n <= 0), distinct, all non-stop-words longer than 2 taken from the tokens, in non-increasing frequency, keywords of equal frequency in first-occurrence order, and all of them once top_n covers them |
| TextAnalysis.TextAnalyzer.constructor | cursor_/proj/practice/Digital_Notebook/src/analysis/text_analyzer.py:23-31 | uses the given word counter, or a fresh one with letter weight 0.5 |
| TextAnalysis.TextAnalyzer.AnalyzeText | cursor_/proj/practice/Digital_Notebook/src/analysis/text_analyzer.py:33-59 | the basic analysis, the readability, the top-5 keywords and the sentence count (runs + 1) of the text |
| TextAnalysis.TextAnalyzer.AnalyzeAll | cursor_/proj/practice/Digital_Notebook/src/analysis/text_analyzer.py:227 | one full analysis per history entry |
| TextAnalysis.Deltas | cursor_/proj/practice/Digital_Notebook/src/analysis/text_analyzer.py:214-217 | one delta per version |
| TextAnalysis.DeltasTelescope | cursor_/proj/practice/Digital_Notebook/src/analysis/text_analyzer.py:214-217 | the first i + 1 deltas add up to the i-th count |
| TextAnalysis.TextAnalyzer.CountHistory | cursor_/proj/practice/Digital_Notebook/src/analysis/text_analyzer.py:211-224 | counts per version, deltas[0] = counts[0], deltas[i] = counts[i] − counts[i − 1], and the cumulative loop yields the counts themselves |
| TextAnalysis.TextAnalyzer.TrackProgress | cursor_/proj/practice/Digital_Notebook/src/analysis/text_analyzer.py:201-234 | four lists of the history's length, with those counts, deltas and cumulative counts and one analysis per version |
| TextAnalysis.TextAnalyzer.CompareTexts | cursor_/proj/practice/Digital_Notebook/src/analysis/text_analyzer.py:236-270 | common and unique_to_1 partition text1's top-20 keyword set, common and unique_to_2 partition text2's, the two unique sets are disjoint; word-count, grade and ease differences are text2 − text1 |
| NotebookWordCount.Kept | cursor_/proj/practice/Digital_Notebook/src/utils/word_counter.py:72-76 | the stripped words that are not empty: no more than there were words, each the strip of one of them |
| NotebookWordCount.TracksStep | cursor_/proj/practice/Digital_Notebook/src/utils/word_counter.py:76 | `frequency[w] = frequency.get(w, 0) + 1` keeps the dictionary equal to the tally of the counted words, with new keys appended in insertion order |
| NotebookWordCount.KeptStep | cursor_/proj/practice/Digital_Notebook/src/utils/word_counter.py:73-76 | one more word adds its strip to the counted words, unless it strips to the empty string |
| NotebookWordCount.TracksTally | cursor_/proj/practice/Digital_Notebook/src/utils/word_counter.py:77 | the items of such a dictionary, in insertion order, are the tally of the counted words |
| NotebookWordCount.WordCounter.CountPage | cursor_/proj/practice/Digital_Notebook/src/utils/word_counter.py:70-76 | the per-page loop extends the dictionary by that page's counted words |
| NotebookWordCount.WordCounter.GetWordFrequency | cursor_/proj/practice/Digital_Notebook/src/utils/word_counter.py:60-77 | with no notebook, empty; otherwise the items of the tally of every page's lower-cased, stripped, non-empty words |
| NotebookWordCount.FrequencyFacts | cursor_/proj/practice/Digital_Notebook/src/utils/word_counter.py:69-77 | every entry is a non-empty word with no stripped character at either end and its exact positive count; every counted word has an entry; there are no duplicates |
| NotebookWordCount.FrequencyTotal | cursor_/proj/practice/Digital_Notebook/src/utils/word_counter.py:69-77 | the frequency values add up to the number of counted words, which is at most `count_total_words` |
| NotebookWordCount.WordCounter.constructor | cursor_/proj/practice/Digital_Notebook/src/utils/word_counter.py:10-16 | binds the given notebook, or none |
| NotebookWordCount.WordCounter.SetNotebook | cursor_/proj/practice/Digital_Notebook/src/utils/word_counter.py:18-24 | rebinds the notebook |
| NotebookWordCount.WordCounter.CountWordsInPage | cursor_/proj/practice/Digital_Notebook/src/utils/word_counter.py:26-43 | 0 with no notebook and for an unknown id (the caught `KeyError`), else the page's whitespace token count |
| NotebookWordCount.WordCounter.CountTotalWords | cursor_/proj/practice/Digital_Notebook/src/utils/word_counter.py:45-58 | 0 with no notebook, else the sum over pages of whitespace token counts |
| NotebookWordCount.WordCounter.GetPageWordCount | cursor_/proj/practice/Digital_Notebook/src/utils/word_counter.py:79-91 | empty with no notebook; else exactly the page ids as keys, each with its page's token count |
| NotebookWordCount.LowerWordCount | cursor_/proj/practice/Digital_Notebook/src/utils/word_counter.py:71 | lower-casing does not change the number of whitespace tokens |
| NotebookWordCount.WordCounter.GetWeightedWordCount | cursor_/proj/practice/Digital_Notebook/src/utils/word_counter.py:93-115 | with no notebook or no weights, `count_total_words`; else the sum over stripped lower-cased tokens of their weight, or 1 when a token has none |
| NotebookWordCount.WeightedSumOfUnweighted | cursor_/proj/practice/Digital_Notebook/src/utils/word_counter.py:108-114 | on one page, the weighted sum is the plain token count when no stripped token has a weight |
| NotebookWordCount.WeightedTotalOfUnweighted | cursor_/proj/practice/Digital_Notebook/src/utils/word_counter.py:102-115 | when no token has a weight, the weighted total equals `count_total_words` |
| NotebookWordCount.MostCommonWordsFacts | cursor_/proj/practice/Digital_Notebook/src/utils/word_counter.py:117-128 | for n > 0 it is `Counter.most_common(n)`; `[:0]` is empty; a negative n drops the last -n entries; counts are positive, correct and non-increasing |
| NotebookWordCount.WordCounter.GetMostCommonWords | cursor_/proj/practice/Digital_Notebook/src/utils/word_counter.py:117-128 | empty with no notebook, else the sorted frequency items cut by `[:n]` |
| Search.Fold | cursor_/proj/practice/Digital_Notebook/src/utils/search.py:144 | `re.IGNORECASE` compares folded text and query; folding keeps the length, so spans found in the folded text index the original |
| Search.ScanSound | cursor_/proj/practice/Digital_Notebook/src/utils/search.py:78 | each span the scan reports starts at a match position and has the query's length |
| Search.ScanOrdered | cursor_/proj/practice/Digital_Notebook/src/utils/search.py:78 | the spans go left to right, each at least one step after the one before |
| Search.ScanGreedy | cursor_/proj/practice/Digital_Notebook/src/utils/search.py:78 | every match position lies within one step of the start of a reported span |
| Search.FindAllSound | cursor_/proj/practice/Digital_Notebook/src/utils/search.py:70-79 | `finditer` spans lie inside the text, have the query's length and are matches |
| Search.FindAllComplete | cursor_/proj/practice/Digital_Notebook/src/utils/search.py:70-79 | `finditer` spans do not overlap and no match is skipped |
| Search.FindAllFirst | cursor_/proj/practice/Digital_Notebook/src/utils/search.py:162-163 | `pattern.search` finds something exactly when the query occurs, and what it finds is the leftmost match |
| Search.WindowFacts | cursor_/proj/practice/Digital_Notebook/src/utils/search.py:82-83 | the window [max(0, s − 50), min(len, e + 50)) holds the match; it starts after 0 exactly when s > 50 and ends before len exactly when len − e > 50 |
| Search.SnippetFacts | cursor_/proj/practice/Digital_Notebook/src/utils/search.py:82-96 | the snippet is the window with "..." on exactly the cut sides, and holds the matched text right after the left context |
| Search.SearchEngine.CollectMatches | cursor_/proj/practice/Digital_Notebook/src/utils/search.py:78-109 | the match loop builds exactly those results |
| Search.PageResultsFound | cursor_/proj/practice/Digital_Notebook/src/utils/search.py:157-195 | each result built from a page's content matches is a match in that page, with its snippet and the page's score |
| Search.BasicResultsSound | cursor_/proj/practice/Digital_Notebook/src/utils/search.py:70-109 | every `basic_search` result is an occurrence of the query in one of the pages, with its snippet, scored 1.0 |
| Search.BasicScoresOne | cursor_/proj/practice/Digital_Notebook/src/utils/search.py:99-112 | all scores are 1.0, so the sort keeps discovery order |
| Search.SearchEngine.BasicPages | cursor_/proj/practice/Digital_Notebook/src/utils/search.py:76-109 | the page loop collects every page's matches in page order, a list the sort leaves as it is |
| Search.SearchEngine.BasicSearch | cursor_/proj/practice/Digital_Notebook/src/utils/search.py:50-114 | the no-notebook error, else the per-page matches in discovery order |
| Search.PageScoreBounds | cursor_/proj/practice/Digital_Notebook/src/utils/search.py:154-164 | `page_score` is at least the number of content matches and is 0 exactly when there is no content match and no name result |
| Search.AdvancedPageFacts | cursor_/proj/practice/Digital_Notebook/src/utils/search.py:152-209 | one result per content match, plus one more exactly when names are included and the name matches; that one is labelled `[Page Name]: ` + name and spans the name's first match; every result carries the page score |
| Search.SearchEngine.SearchPage | cursor_/proj/practice/Digital_Notebook/src/utils/search.py:152-209 | the per-page body of `advanced_search` computes those results |
| Search.SearchEngine.AdvancedPages | cursor_/proj/practice/Digital_Notebook/src/utils/search.py:152-209 | the page loop concatenates the per-page results |
| Search.SearchEngine.AdvancedSearch | cursor_/proj/practice/Digital_Notebook/src/utils/search.py:116-214 | the no-notebook error, else the stably sorted per-page results |
| Search.SortedByScore | cursor_/proj/practice/Digital_Notebook/src/utils/search.py:212 | the sorted results are a permutation, by non-increasing score, with equal scores in discovery order |
| Search.SearchEngine.FirstMatches | cursor_/proj/practice/Digital_Notebook/src/utils/search.py:306-315 | the loop with `break` collects the first match of each keyword, and `match_all` holds exactly when every keyword is found |
| Search.AllKeywordsOccurIff | cursor_/proj/practice/Digital_Notebook/src/utils/search.py:309-315 | every keyword is found exactly when every keyword occurs as a case-insensitive whole word |
| Search.KeywordHitsPositive | cursor_/proj/practice/Digital_Notebook/src/utils/search.py:319 | when every keyword occurs, there are at least as many whole-word matches as keywords |
| Search.KeywordScorePositive | cursor_/proj/practice/Digital_Notebook/src/utils/search.py:319-320 | the keyword density of a qualifying page is positive |
| Search.KeywordPageFacts | cursor_/proj/practice/Digital_Notebook/src/utils/search.py:304-350 | a page gives at most one result, and one exactly when the keyword list is non-empty and every keyword occurs; that result is for the page and has a positive score |
| Search.SearchEngine.KeywordSearchPage | cursor_/proj/practice/Digital_Notebook/src/utils/search.py:305-350 | the per-page body: density score and a snippet around the first match of the first keyword |
| Search.KeywordResultsBound | cursor_/proj/practice/Digital_Notebook/src/utils/search.py:298-350 | no more results than pages, and none for an empty keyword list |
| Search.SearchEngine.KeywordPages | cursor_/proj/practice/Digital_Notebook/src/utils/search.py:304-350 | the page loop concatenates the per-page results |
| Search.SearchEngine.SearchByKeywords | cursor_/proj/practice/Digital_Notebook/src/utils/search.py:282-355 | the no-notebook error, else the stably sorted per-page keyword results |
| Search.SearchEngine.constructor | cursor_/proj/practice/Digital_Notebook/src/utils/search.py:31-39 | binds the given notebook, or none, with 50 characters of context |
| Search.SearchEngine.SetNotebook | cursor_/proj/practice/Digital_Notebook/src/utils/search.py:41-48 | rebinds the notebook |
| Search.RegexScoresOne | cursor_/proj/practice/Digital_Notebook/src/utils/search.py:265-278 | all scores are 1.0, so the sort keeps discovery order |
| Search.SearchEngine.RegexPages | cursor_/proj/practice/Digital_Notebook/src/utils/search.py:242-275 | the page loop collects the matcher's spans of every page as results scored 1.0 |
| Search.SearchEngine.RegexSearch | cursor_/proj/practice/Digital_Notebook/src/utils/search.py:216-280 | the no-notebook error first; then a pattern that does not compile gives the error `Invalid regular expression: ` + its message; else every reported match in discovery order |

## Left out

- Timestamps: `datetime.now()` is not modelled. Each stamping operation takes the current time as a `now` parameter, and `isoformat`/`fromisoformat` are taken to round-trip.
- Floating point: floats are Dafny `real`s, which are exact. The Flesch formulas are stated with the source's constants, and rounding is not modelled. The per-character totals are kept as repeated additions (`Times`), as the `+=` loop computes them; only in exact arithmetic does that sum equal occurrences × weight.
- Unicode: `\w`, `\b`, `str.lower`, `re.IGNORECASE` and `str.split()` are taken over ASCII.
- Metadata: values of type `Any` are a small `Value` datatype, with `Null` standing for `None`.
- Malformed records: the `KeyError`s that `from_dict` raises on a dictionary with missing keys are not modelled, because the records are typed.
- Metadata aliasing: in the source, `to_dict` hands out the live `metadata` dictionary of a page or notebook, and `from_dict` stores that same object, so after a round trip the original and the copy share one dictionary and a `set_metadata` on either shows in both. The model copies metadata as a map value, so the restored page's and notebook's metadata are independent of the originals'.
- Error messages: `create_page`'s `ValueError` carries the page limit rather than its formatted message. The `KeyError`s carry the missing id.
- Notebooks.Notebook.CreatePage: it does not state that the count stays within `max_pages`. A notebook loaded by `from_dict` may already hold more pages than the limit, so only the source's guard is modelled.
- Search.SearchEngine.RegexSearch: no regular-expression engine is modelled. `re.compile` is a `compile` parameter, and each compiled pattern is a `Matcher` that reports its spans. The only thing assumed of those spans is that they lie inside the text.
- Search: `pattern.finditer` is modelled only for the escaped literal queries the other searches build, with or without `\b` on both sides.
- NotebookWordCount.WordCounter.GetWeightedWordCount: `weights=None` and `{}` both take the `count_total_words` branch, so both are the empty map.
- NotebookWordCount.WordCounter.GetWordFrequency: the dictionary is returned as its items in insertion order, the order `get_most_common_words` sorts.
- TextAnalysis.TextAnalyzer.CompareTexts: the keyword lists are sets, because `list(set)` has no defined order.
- TextAnalysis.TextAnalyzer.AnalyzeText: the dictionary merge `**basic_analysis` is a nested `basic` field.
- TextAnalysis.TextAnalyzer.constructor: `word_counter or WordCounter()`; a counter object is always truthy, so only `None` selects the default.
- The user interface, plotting, SQLite and JSON storage, and configuration files are not part of this model.
- Two test files are not used as specifications:
  - `tests/test_search.py` calls an interface that `search.py` does not have;
  - the hard-coded counts in `tests/test_word_count.py` disagree with `str.split()` on their own content.
