/** The search engine (src/utils/search.py): literal and whole-word scans
    over every page of the bound notebook, context snippets around each
    match, per-mode relevance scores, and a stable sort by score. */
module Search {
  import opened Results
  import opened Text
  import Ranking
  import opened Pages
  import opened Notebooks

  /** Characters of context kept on each side of a match. */
  const DefaultContextSize: nat := 50

  const Ellipsis: string := "..."

  /** Prefix of the snippet of a page-name result. */
  const PageNameLabel: string := "[Page Name]: "

  datatype SearchResult = SearchResult(
    page: Page,
    contentSnippet: string,
    matchStart: int,
    matchEnd: int,
    relevanceScore: real)

  /** `ValueError("No notebook has been set for search")` and the `re.error`
      re-raised for a pattern that does not compile. */
  datatype SearchError = NoNotebook | InvalidPattern(message: string)

  function ScoreOf(r: SearchResult): real { r.relevanceScore }

  // ----- Matching -----------------------------------------------------------

  /** `re.IGNORECASE` folds ASCII case on both sides. */
  function Fold(s: string, caseSensitive: bool): (r: string)
    ensures |r| == |s|
  {
    if caseSensitive then s else Lower(s)
  }

  /** `\b`: a word character on exactly one side of position `i`. */
  predicate Boundary(s: string, i: int)
    requires 0 <= i <= |s|
  {
    (i > 0 && IsWordChar(s[i - 1])) != (i < |s| && IsWordChar(s[i]))
  }

  /** The escaped query, with `\b` on both sides for a whole-word search,
      matches `s` at position `i`. */
  predicate MatchesAt(s: string, query: string, i: int, caseSensitive: bool, wholeWords: bool)
  {
    && OccursAt(Fold(s, caseSensitive), Fold(query, caseSensitive), i)
    && (wholeWords ==> Boundary(s, i) && Boundary(s, i + |query|))
  }

  /** Where the scan resumes after a match: past the match, or one
      position on after an empty one. */
  function Step(query: string): nat
  {
    if |query| > 0 then |query| else 1
  }

  /** The scan `finditer` makes over the positions `from..n`: at a match
      position `m` it reports the span of length `len` and jumps `step`
      on, elsewhere it moves one on. */
  function Scan(n: nat, len: nat, step: nat, m: int -> bool, from: nat): seq<(int, int)>
    requires step >= 1
    decreases n + 1 - from
  {
    if from > n then []
    else if m(from) then [(from, from + len)] + Scan(n, len, step, m, from + step)
    else Scan(n, len, step, m, from + 1)
  }

  /** Every reported span starts at a match position from `from` on and
      has length `len`. */
  lemma {:induction false} ScanSound(n: nat, len: nat, step: nat, m: int -> bool, from: nat)
    requires step >= 1
    ensures forall k :: 0 <= k < |Scan(n, len, step, m, from)| ==>
      && from <= Scan(n, len, step, m, from)[k].0 <= n
      && Scan(n, len, step, m, from)[k].1 == Scan(n, len, step, m, from)[k].0 + len
      && m(Scan(n, len, step, m, from)[k].0)
    decreases n + 1 - from
  {
    if from <= n {
      if m(from) {
        ScanSound(n, len, step, m, from + step);
        assert Scan(n, len, step, m, from) == [(from, from + len)] + Scan(n, len, step, m, from + step);
      } else {
        ScanSound(n, len, step, m, from + 1);
        assert Scan(n, len, step, m, from) == Scan(n, len, step, m, from + 1);
      }
    }
  }

  /** The spans go left to right, each at least `step` after the one
      before. */
  lemma {:induction false} ScanOrdered(n: nat, len: nat, step: nat, m: int -> bool, from: nat)
    requires step >= 1
    ensures forall k, l :: 0 <= k < l < |Scan(n, len, step, m, from)| ==>
      Scan(n, len, step, m, from)[k].0 + step <= Scan(n, len, step, m, from)[l].0
    decreases n + 1 - from
  {
    if from <= n {
      if m(from) {
        var rest := Scan(n, len, step, m, from + step);
        ScanOrdered(n, len, step, m, from + step);
        ScanSound(n, len, step, m, from + step);
        var r := [(from, from + len)] + rest;
        assert Scan(n, len, step, m, from) == r;
        forall k, l | 0 <= k < l < |r| ensures r[k].0 + step <= r[l].0 {
          assert r[l] == rest[l - 1];
          if k > 0 {
            assert r[k] == rest[k - 1];
          }
        }
      } else {
        ScanOrdered(n, len, step, m, from + 1);
        assert Scan(n, len, step, m, from) == Scan(n, len, step, m, from + 1);
      }
    }
  }

  /** Position `i` lies within `step` of the start of one of the spans. */
  ghost predicate Covered(spans: seq<(int, int)>, i: int, step: nat)
  {
    exists k :: 0 <= k < |spans| && spans[k].0 <= i < spans[k].0 + step
  }

  /** No match position is skipped: each one from `from` on starts a span
      or lies within `step` of the start of the span before it. */
  lemma {:induction false} ScanGreedy(n: nat, len: nat, step: nat, m: int -> bool, from: nat)
    requires step >= 1
    ensures forall i :: from <= i <= n && m(i) ==> Covered(Scan(n, len, step, m, from), i, step)
    decreases n + 1 - from
  {
    if from <= n {
      var r := Scan(n, len, step, m, from);
      if m(from) {
        var rest := Scan(n, len, step, m, from + step);
        ScanGreedy(n, len, step, m, from + step);
        assert r == [(from, from + len)] + rest;
        forall i | from <= i <= n && m(i) ensures Covered(r, i, step) {
          if i < from + step {
            assert 0 < |r| && r[0].0 <= i < r[0].0 + step;
          } else {
            assert Covered(rest, i, step);
            var k :| 0 <= k < |rest| && rest[k].0 <= i < rest[k].0 + step;
            assert r[k + 1] == rest[k];
            assert 0 <= k + 1 < |r| && r[k + 1].0 <= i < r[k + 1].0 + step;
          }
        }
      } else {
        ScanGreedy(n, len, step, m, from + 1);
        assert r == Scan(n, len, step, m, from + 1);
      }
    }
  }

  /** The match test of one query, as a position predicate. */
  function MatchAt(s: string, query: string, caseSensitive: bool, wholeWords: bool): int -> bool
  {
    i => MatchesAt(s, query, i, caseSensitive, wholeWords)
  }

  /** `pattern.finditer(s)`: the leftmost match, then the scan goes on
      after it. */
  function FindAll(s: string, query: string, caseSensitive: bool, wholeWords: bool): seq<(int, int)>
  {
    Scan(|s|, |query|, Step(query), MatchAt(s, query, caseSensitive, wholeWords), 0)
  }

  /** The query matches `s` somewhere. */
  ghost predicate Occurs(s: string, query: string, caseSensitive: bool, wholeWords: bool)
  {
    exists i :: 0 <= i <= |s| && MatchesAt(s, query, i, caseSensitive, wholeWords)
  }

  /** Spans inside a text of length `n`. */
  predicate ValidSpans(spans: seq<(int, int)>, n: int)
  {
    forall k :: 0 <= k < |spans| ==> 0 <= spans[k].0 <= spans[k].1 <= n
  }

  /** `finditer` reports matches of the query, each inside `s` and as
      long as the query. */
  lemma FindAllSound(s: string, query: string, caseSensitive: bool, wholeWords: bool)
    ensures ValidSpans(FindAll(s, query, caseSensitive, wholeWords), |s|)
    ensures forall k :: 0 <= k < |FindAll(s, query, caseSensitive, wholeWords)| ==>
      var span := FindAll(s, query, caseSensitive, wholeWords)[k];
      span.1 == span.0 + |query| && MatchesAt(s, query, span.0, caseSensitive, wholeWords)
  {
    var m := MatchAt(s, query, caseSensitive, wholeWords);
    var r := FindAll(s, query, caseSensitive, wholeWords);
    ScanSound(|s|, |query|, Step(query), m, 0);
    forall k | 0 <= k < |r| ensures r[k].0 <= r[k].1 <= |s| {
      assert m(r[k].0);
    }
  }

  /** `finditer` goes left to right without overlap and skips no match. */
  lemma FindAllComplete(s: string, query: string, caseSensitive: bool, wholeWords: bool)
    ensures forall k, l :: 0 <= k < l < |FindAll(s, query, caseSensitive, wholeWords)| ==>
      FindAll(s, query, caseSensitive, wholeWords)[k].0 + Step(query) <= FindAll(s, query, caseSensitive, wholeWords)[l].0
    ensures forall i :: 0 <= i <= |s| && MatchesAt(s, query, i, caseSensitive, wholeWords) ==>
      Covered(FindAll(s, query, caseSensitive, wholeWords), i, Step(query))
  {
    var m := MatchAt(s, query, caseSensitive, wholeWords);
    ScanOrdered(|s|, |query|, Step(query), m, 0);
    ScanGreedy(|s|, |query|, Step(query), m, 0);
  }

  /** `pattern.search(s)` finds something exactly when the query occurs,
      and what it finds is the leftmost match. */
  lemma FindAllFirst(s: string, query: string, caseSensitive: bool, wholeWords: bool)
    ensures FindAll(s, query, caseSensitive, wholeWords) != [] <==> Occurs(s, query, caseSensitive, wholeWords)
    ensures FindAll(s, query, caseSensitive, wholeWords) != [] ==>
      forall i :: 0 <= i < FindAll(s, query, caseSensitive, wholeWords)[0].0 ==>
        !MatchesAt(s, query, i, caseSensitive, wholeWords)
  {
    var r := FindAll(s, query, caseSensitive, wholeWords);
    FindAllSound(s, query, caseSensitive, wholeWords);
    FindAllComplete(s, query, caseSensitive, wholeWords);
    if r != [] {
      assert 0 <= r[0].0 <= |s| && MatchesAt(s, query, r[0].0, caseSensitive, wholeWords);
      forall i | 0 <= i <= |s| && MatchesAt(s, query, i, caseSensitive, wholeWords) ensures r[0].0 <= i {
        assert Covered(r, i, Step(query));
        var k :| 0 <= k < |r| && r[k].0 <= i < r[k].0 + Step(query);
        assert k == 0 || r[0].0 + Step(query) <= r[k].0;
      }
    } else {
      forall i | 0 <= i <= |s| ensures !MatchesAt(s, query, i, caseSensitive, wholeWords) {
        if MatchesAt(s, query, i, caseSensitive, wholeWords) {
          assert false;
        }
      }
    }
  }

  // ----- Snippets -----------------------------------------------------------

  function WindowStart(start: int, context: nat): int
  {
    if start - context > 0 then start - context else 0
  }

  function WindowEnd(end: int, length: int, context: nat): int
  {
    if end + context < length then end + context else length
  }

  /** The match with up to `context` characters on each side, and "..."
      where the window stops short of the content's ends. */
  function Snippet(content: string, start: int, end: int, context: nat): string
    requires 0 <= start <= end <= |content|
  {
    var ws := WindowStart(start, context);
    var we := WindowEnd(end, |content|, context);
    (if ws > 0 then Ellipsis else "") + content[ws..we] + (if we < |content| then Ellipsis else "")
  }

  /** A slice of a slice is a slice of the whole. */
  lemma SliceOfSlice<T>(s: seq<T>, a: int, b: int, c: int, d: int)
    requires 0 <= a <= b <= |s| && 0 <= c <= d <= b - a
    ensures s[a..b][c..d] == s[a + c..a + d]
  {
    forall j | 0 <= j < d - c ensures s[a..b][c..d][j] == s[a + c..a + d][j] {
      assert s[a..b][c..d][j] == s[a..b][c + j];
    }
  }

  /** The window holds the match and `context` characters on each side,
      fewer only where it reaches an end of the content. */
  lemma WindowFacts(start: int, end: int, length: int, context: nat)
    requires 0 <= start <= end <= length
    ensures 0 <= WindowStart(start, context) <= start
    ensures end <= WindowEnd(end, length, context) <= length
    ensures WindowStart(start, context) > 0 <==> start > context
    ensures WindowStart(start, context) > 0 ==> start - WindowStart(start, context) == context
    ensures WindowEnd(end, length, context) < length <==> length - end > context
    ensures WindowEnd(end, length, context) < length ==> WindowEnd(end, length, context) - end == context
  {
  }

  /** The snippet is the window with an ellipsis on each side where text
      was cut, and the matched text sits inside it just after the left
      context. */
  lemma SnippetFacts(content: string, start: int, end: int, context: nat)
    requires 0 <= start <= end <= |content|
    ensures var ws := WindowStart(start, context);
      var we := WindowEnd(end, |content|, context);
      && |Snippet(content, start, end, context)|
         == (if ws > 0 then 3 else 0) + (we - ws) + (if we < |content| then 3 else 0)
      && OccursAt(Snippet(content, start, end, context), content[start..end],
           (if ws > 0 then 3 else 0) + start - ws)
  {
    var ws := WindowStart(start, context);
    var we := WindowEnd(end, |content|, context);
    WindowFacts(start, end, |content|, context);
    var pre: string := if ws > 0 then Ellipsis else "";
    var post: string := if we < |content| then Ellipsis else "";
    var mid := content[ws..we];
    var r := Snippet(content, start, end, context);
    assert r == pre + mid + post;
    assert (pre + mid + post)[|pre|..|pre| + |mid|] == mid;
    SliceOfSlice(content, ws, we, start - ws, end - ws);
    SliceOfSlice(r, |pre|, |pre| + |mid|, start - ws, end - ws);
  }

  /** One result per span, in order, every one carrying `score`. */
  function ResultsFor(page: Page, content: string, spans: seq<(int, int)>, score: real, context: nat): (r: seq<SearchResult>)
    requires ValidSpans(spans, |content|)
    ensures |r| == |spans|
    ensures forall k :: 0 <= k < |spans| ==>
      r[k] == SearchResult(page, Snippet(content, spans[k].0, spans[k].1, context), spans[k].0, spans[k].1, score)
  {
    seq(|spans|, k requires 0 <= k < |spans| && ValidSpans(spans, |content|) =>
      SearchResult(page, Snippet(content, spans[k].0, spans[k].1, context), spans[k].0, spans[k].1, score))
  }

  // ----- What each search finds -----------------------------------------

  function ContentMatches(v: PageView, query: string, caseSensitive: bool, wholeWords: bool): (r: seq<(int, int)>)
    ensures ValidSpans(r, |v.content|)
  {
    FindAllSound(v.content, query, caseSensitive, wholeWords);
    FindAll(v.content, query, caseSensitive, wholeWords)
  }

  /** `basic_search` before sorting: every match in every page, in the
      order pages and matches are visited, each scored 1. */
  function BasicResults(views: seq<PageView>, query: string, caseSensitive: bool, context: nat): seq<SearchResult>
  {
    if views == [] then []
    else
      var n := |views| - 1;
      BasicResults(views[..n], query, caseSensitive, context)
      + ResultsFor(views[n].page, views[n].content, ContentMatches(views[n], query, caseSensitive, false), 1.0, context)
  }

  /** The name of the page takes part and matches. */
  predicate NameMatched(v: PageView, query: string, caseSensitive: bool, wholeWords: bool, includeNames: bool)
  {
    includeNames && FindAll(v.name, query, caseSensitive, wholeWords) != []
  }

  /** `page_score`: one per content match, two more for a matching name. */
  function PageScore(v: PageView, query: string, caseSensitive: bool, wholeWords: bool, includeNames: bool): real
  {
    |ContentMatches(v, query, caseSensitive, wholeWords)| as real
    + if NameMatched(v, query, caseSensitive, wholeWords, includeNames) then 2.0 else 0.0
  }

  /** The results `advanced_search` collects for one page: the content
      matches, then the name match if there is one, all with the page's
      score. */
  function AdvancedPage(v: PageView, query: string, caseSensitive: bool, wholeWords: bool, includeNames: bool, context: nat): seq<SearchResult>
  {
    var score := PageScore(v, query, caseSensitive, wholeWords, includeNames);
    ResultsFor(v.page, v.content, ContentMatches(v, query, caseSensitive, wholeWords), score, context)
    + if NameMatched(v, query, caseSensitive, wholeWords, includeNames) then
        var m := FindAll(v.name, query, caseSensitive, wholeWords)[0];
        [SearchResult(v.page, PageNameLabel + v.name, m.0, m.1, score)]
      else []
  }

  function AdvancedResults(views: seq<PageView>, query: string, caseSensitive: bool, wholeWords: bool, includeNames: bool, context: nat): seq<SearchResult>
  {
    if views == [] then []
    else
      var n := |views| - 1;
      AdvancedResults(views[..n], query, caseSensitive, wholeWords, includeNames, context)
      + AdvancedPage(views[n], query, caseSensitive, wholeWords, includeNames, context)
  }

  /** Every keyword occurs in `content` as a case-insensitive whole word. */
  predicate AllKeywordsOccur(content: string, keywords: seq<string>)
  {
    forall k :: 0 <= k < |keywords| ==> FindAll(content, keywords[k], false, true) != []
  }

  /** The whole-word matches of all keywords, added up. */
  function KeywordHits(content: string, keywords: seq<string>): nat
  {
    if keywords == [] then 0
    else
      var n := |keywords| - 1;
      KeywordHits(content, keywords[..n]) + |FindAll(content, keywords[n], false, true)|
  }

  /** Keyword density: matches per whitespace-separated word. */
  function KeywordScore(content: string, keywords: seq<string>): real
  {
    KeywordHits(content, keywords) as real / Max1(|SplitWhitespace(content)|) as real
  }

  /** What `search_by_keywords` collects for one page: a single result
      around the first match of the first keyword when every keyword
      occurs, nothing otherwise. */
  function KeywordPage(v: PageView, keywords: seq<string>, context: nat): seq<SearchResult>
  {
    if keywords != [] && AllKeywordsOccur(v.content, keywords) then
      var m := ContentMatches(v, keywords[0], false, true)[0];
      [SearchResult(v.page, Snippet(v.content, m.0, m.1, context), m.0, m.1, KeywordScore(v.content, keywords))]
    else []
  }

  function KeywordResults(views: seq<PageView>, keywords: seq<string>, context: nat): seq<SearchResult>
  {
    if views == [] then []
    else
      var n := |views| - 1;
      KeywordResults(views[..n], keywords, context) + KeywordPage(views[n], keywords, context)
  }

  // ----- Properties of the searches ------------------------------------

  /** `basic_search` scores every result 1, so its stable sort keeps the
      discovery order. */
  lemma {:induction false} BasicScoresOne(views: seq<PageView>, query: string, caseSensitive: bool, context: nat)
    ensures forall i :: 0 <= i < |BasicResults(views, query, caseSensitive, context)| ==>
      ScoreOf(BasicResults(views, query, caseSensitive, context)[i]) == 1.0
    ensures Ranking.SortDesc(BasicResults(views, query, caseSensitive, context), ScoreOf)
      == BasicResults(views, query, caseSensitive, context)
  {
    if views != [] {
      BasicScoresOne(views[..|views| - 1], query, caseSensitive, context);
    }
    Ranking.SortDescOfConstant(BasicResults(views, query, caseSensitive, context), ScoreOf, 1.0);
  }

  /** `res` reports a match of the query in one of the pages: the page,
      the span and the snippet around it. */
  ghost predicate FoundIn(views: seq<PageView>, res: SearchResult, query: string, caseSensitive: bool, wholeWords: bool, context: nat)
  {
    exists p :: 0 <= p < |views| && FoundInPage(views[p], res, query, caseSensitive, wholeWords, context)
  }

  predicate FoundInPage(v: PageView, res: SearchResult, query: string, caseSensitive: bool, wholeWords: bool, context: nat)
  {
    && res.page == v.page
    && res.matchEnd == res.matchStart + |query|
    && MatchesAt(v.content, query, res.matchStart, caseSensitive, wholeWords)
    && 0 <= res.matchStart <= res.matchEnd <= |v.content|
    && res.contentSnippet == Snippet(v.content, res.matchStart, res.matchEnd, context)
  }

  /** The results built from a page's content matches report those
      matches. */
  lemma PageResultsFound(v: PageView, query: string, caseSensitive: bool, wholeWords: bool, score: real, context: nat)
    ensures var r := ResultsFor(v.page, v.content, ContentMatches(v, query, caseSensitive, wholeWords), score, context);
      forall k :: 0 <= k < |r| ==> r[k].relevanceScore == score && FoundInPage(v, r[k], query, caseSensitive, wholeWords, context)
  {
    FindAllSound(v.content, query, caseSensitive, wholeWords);
  }

  /** A match found among the first pages is found among all of them. */
  lemma FoundInPrefix(views: seq<PageView>, n: nat, res: SearchResult, query: string, caseSensitive: bool, wholeWords: bool, context: nat)
    requires n <= |views|
    requires FoundIn(views[..n], res, query, caseSensitive, wholeWords, context)
    ensures FoundIn(views, res, query, caseSensitive, wholeWords, context)
  {
    var p :| 0 <= p < n && FoundInPage(views[..n][p], res, query, caseSensitive, wholeWords, context);
    assert views[..n][p] == views[p];
  }

  /** Every `basic_search` result is an occurrence of the query in one of
      the pages, with its snippet, scored 1. */
  lemma {:induction false} BasicResultsSound(views: seq<PageView>, query: string, caseSensitive: bool, context: nat)
    ensures forall i :: 0 <= i < |BasicResults(views, query, caseSensitive, context)| ==>
      && BasicResults(views, query, caseSensitive, context)[i].relevanceScore == 1.0
      && FoundIn(views, BasicResults(views, query, caseSensitive, context)[i], query, caseSensitive, false, context)
  {
    if views != [] {
      var n := |views| - 1;
      var front := BasicResults(views[..n], query, caseSensitive, context);
      var last := ResultsFor(views[n].page, views[n].content, ContentMatches(views[n], query, caseSensitive, false), 1.0, context);
      var r := BasicResults(views, query, caseSensitive, context);
      assert r == front + last;
      BasicResultsSound(views[..n], query, caseSensitive, context);
      PageResultsFound(views[n], query, caseSensitive, false, 1.0, context);
      forall i | 0 <= i < |r| ensures r[i].relevanceScore == 1.0 && FoundIn(views, r[i], query, caseSensitive, false, context) {
        if i < |front| {
          FoundInPrefix(views, n, front[i], query, caseSensitive, false, context);
        } else {
          assert FoundInPage(views[n], last[i - |front|], query, caseSensitive, false, context);
        }
      }
    }
  }

  /** Per page, `advanced_search` gives one result per content match and
      one more exactly when the name takes part and matches; that last one
      is labelled with the name and spans the name's first match; all carry
      the page score. */
  lemma AdvancedPageFacts(v: PageView, query: string, caseSensitive: bool, wholeWords: bool, includeNames: bool, context: nat)
    ensures var r := AdvancedPage(v, query, caseSensitive, wholeWords, includeNames, context);
      var named := NameMatched(v, query, caseSensitive, wholeWords, includeNames);
      && |r| == |ContentMatches(v, query, caseSensitive, wholeWords)| + (if named then 1 else 0)
      && (forall i :: 0 <= i < |r| ==>
            r[i].page == v.page && ScoreOf(r[i]) == PageScore(v, query, caseSensitive, wholeWords, includeNames))
      && (named ==>
            && r[|r| - 1].contentSnippet == PageNameLabel + v.name
            && (r[|r| - 1].matchStart, r[|r| - 1].matchEnd) == FindAll(v.name, query, caseSensitive, wholeWords)[0])
  {
  }

  /** The page score counts the matches, plus 2 for a matching name. */
  lemma PageScoreBounds(v: PageView, query: string, caseSensitive: bool, wholeWords: bool, includeNames: bool)
    ensures PageScore(v, query, caseSensitive, wholeWords, includeNames)
      >= |ContentMatches(v, query, caseSensitive, wholeWords)| as real
    ensures PageScore(v, query, caseSensitive, wholeWords, includeNames) == 0.0 <==>
      ContentMatches(v, query, caseSensitive, wholeWords) == []
      && !NameMatched(v, query, caseSensitive, wholeWords, includeNames)
  {
  }

  /** `search_by_keywords` gives a page one result exactly when the
      keyword list is not empty and each keyword occurs in it as a whole
      word, ignoring case; its score is positive then. */
  lemma {:induction false} KeywordPageFacts(v: PageView, keywords: seq<string>, context: nat)
    ensures |KeywordPage(v, keywords, context)| <= 1
    ensures |KeywordPage(v, keywords, context)| == 1 <==>
      keywords != [] && forall k :: 0 <= k < |keywords| ==> Occurs(v.content, keywords[k], false, true)
    ensures |KeywordPage(v, keywords, context)| == 1 ==>
      KeywordPage(v, keywords, context)[0].relevanceScore > 0.0
      && KeywordPage(v, keywords, context)[0].page == v.page
  {
    AllKeywordsOccurIff(v.content, keywords);
    if keywords != [] && AllKeywordsOccur(v.content, keywords) {
      KeywordScorePositive(v.content, keywords);
    }
  }

  /** Every keyword is found exactly when every keyword occurs. */
  lemma AllKeywordsOccurIff(content: string, keywords: seq<string>)
    ensures AllKeywordsOccur(content, keywords) <==>
      forall k :: 0 <= k < |keywords| ==> Occurs(content, keywords[k], false, true)
  {
    forall k | 0 <= k < |keywords| {
      FindAllFirst(content, keywords[k], false, true);
    }
  }

  /** The density of a page where every keyword occurs is positive. */
  lemma KeywordScorePositive(content: string, keywords: seq<string>)
    requires keywords != [] && AllKeywordsOccur(content, keywords)
    ensures KeywordScore(content, keywords) > 0.0
  {
    KeywordHitsPositive(content, keywords);
    var d := Max1(|SplitWhitespace(content)|) as real;
    assert KeywordHits(content, keywords) as real > 0.0 && d > 0.0;
  }

  lemma {:induction false} KeywordHitsPositive(content: string, keywords: seq<string>)
    requires keywords != [] && AllKeywordsOccur(content, keywords)
    ensures KeywordHits(content, keywords) >= |keywords|
  {
    var n := |keywords| - 1;
    assert FindAll(content, keywords[n], false, true) != [];
    if n > 0 {
      assert forall k :: 0 <= k < n ==> keywords[..n][k] == keywords[k];
      KeywordHitsPositive(content, keywords[..n]);
    }
  }

  /** An empty keyword list finds nothing, and no page gives more than one
      result. */
  lemma {:induction false} KeywordResultsBound(views: seq<PageView>, keywords: seq<string>, context: nat)
    ensures |KeywordResults(views, keywords, context)| <= |views|
    ensures keywords == [] ==> KeywordResults(views, keywords, context) == []
  {
    if views != [] {
      KeywordResultsBound(views[..|views| - 1], keywords, context);
      KeywordPageFacts(views[|views| - 1], keywords, context);
    }
  }

  /** `results.sort(key=score, reverse=True)`: the same results, by score
      from high to low, and results of equal score in the order they were
      found. */
  lemma SortedByScore(results: seq<SearchResult>)
    ensures multiset(Ranking.SortDesc(results, ScoreOf)) == multiset(results)
    ensures Ranking.NonIncreasing(Ranking.SortDesc(results, ScoreOf), ScoreOf)
    ensures forall v ::
      Ranking.WithKey(Ranking.SortDesc(results, ScoreOf), ScoreOf, v) == Ranking.WithKey(results, ScoreOf, v)
  {
    Ranking.SortDescPermutation(results, ScoreOf);
    Ranking.SortDescSorted(results, ScoreOf);
    forall v ensures Ranking.WithKey(Ranking.SortDesc(results, ScoreOf), ScoreOf, v)
      == Ranking.WithKey(results, ScoreOf, v)
    {
      Ranking.SortDescStable(results, ScoreOf, v);
    }
  }

  // ----- The engine ---------------------------------------------------------

  /** A compiled regular expression, seen only through the spans its
      `finditer` reports for a text. */
  type Matcher = string -> seq<(int, int)>

  /** The matcher reports spans inside the text it is given. */
  ghost predicate ValidMatcher(m: Matcher)
  {
    forall content: string :: ValidSpans(m(content), |content|)
  }

  /** `regex_search` before sorting: every reported match in every page,
      each scored 1. */
  function RegexResults(views: seq<PageView>, m: Matcher, context: nat): seq<SearchResult>
    requires ValidMatcher(m)
  {
    if views == [] then []
    else
      var n := |views| - 1;
      RegexResults(views[..n], m, context) + ResultsFor(views[n].page, views[n].content, m(views[n].content), 1.0, context)
  }

  class SearchEngine {
    /** `self.notebook`, or `None`. */
    var notebook: Notebook?
    const contextSize: nat

    /** The bound notebook, if any, keeps its own invariant. */
    ghost predicate Ready()
      reads this, notebook
    {
      notebook != null ==> notebook.Valid()
    }

    constructor (notebook: Notebook?)
      ensures this.notebook == notebook && contextSize == DefaultContextSize
    {
      this.notebook := notebook;
      contextSize := DefaultContextSize;
    }

    /** `set_notebook`: searches from now on run over `notebook`. */
    method SetNotebook(notebook: Notebook?)
      modifies this
      ensures this.notebook == notebook
    {
      this.notebook := notebook;
    }

    /** The inner loop of every search: one result per span, with its
        snippet. */
    method CollectMatches(page: Page, content: string, spans: seq<(int, int)>, score: real) returns (results: seq<SearchResult>)
      requires ValidSpans(spans, |content|)
      ensures results == ResultsFor(page, content, spans, score, contextSize)
    {
      results := [];
      var i := 0;
      while i < |spans|
        invariant 0 <= i <= |spans|
        invariant results == ResultsFor(page, content, spans[..i], score, contextSize)
      {
        var (start, end) := spans[i];
        var contentStart := if start - contextSize > 0 then start - contextSize else 0;
        var contentEnd := if end + contextSize < |content| then end + contextSize else |content|;
        var prefix := if contentStart > 0 then Ellipsis else "";
        var suffix := if contentEnd < |content| then Ellipsis else "";
        var snippet := prefix + content[contentStart..contentEnd] + suffix;
        results := results + [SearchResult(page, snippet, start, end, score)];
        i := i + 1;
      }
      assert spans[..i] == spans;
    }

    /** `basic_search`: every occurrence of the query in every page, in
        discovery order, each scored 1; an error while no notebook is
        bound. */
    method BasicSearch(query: string, caseSensitive: bool) returns (r: Result<seq<SearchResult>, SearchError>)
      requires Ready()
      ensures notebook == null ==> r == Err(NoNotebook)
      ensures notebook != null ==>
        r == Ok(BasicResults(notebook.Snapshot(), query, caseSensitive, contextSize))
    {
      if notebook == null {
        return Err(NoNotebook);
      }
      var views := notebook.Snapshot();
      var results := BasicPages(views, query, caseSensitive);
      results := Ranking.SortDesc(results, ScoreOf);
      r := Ok(results);
    }

    /** The page loop of `basic_search`. */
    method BasicPages(views: seq<PageView>, query: string, caseSensitive: bool) returns (results: seq<SearchResult>)
      ensures results == BasicResults(views, query, caseSensitive, contextSize)
      ensures Ranking.SortDesc(results, ScoreOf) == results
    {
      results := [];
      var p := 0;
      while p < |views|
        invariant 0 <= p <= |views|
        invariant results == BasicResults(views[..p], query, caseSensitive, contextSize)
      {
        assert views[..p + 1][..p] == views[..p];
        var found := CollectMatches(views[p].page, views[p].content, ContentMatches(views[p], query, caseSensitive, false), 1.0);
        results := results + found;
        p := p + 1;
      }
      assert views[..p] == views;
      BasicScoresOne(views, query, caseSensitive, contextSize);
    }

    /** The per-page body of `advanced_search`. */
    method SearchPage(v: PageView, query: string, caseSensitive: bool, wholeWords: bool, includeNames: bool)
      returns (found: seq<SearchResult>)
      ensures found == AdvancedPage(v, query, caseSensitive, wholeWords, includeNames, contextSize)
    {
      var pageScore := 0.0;
      var contentMatches := ContentMatches(v, query, caseSensitive, wholeWords);
      pageScore := pageScore + |contentMatches| as real;
      var nameMatches := FindAll(v.name, query, caseSensitive, wholeWords);
      var nameMatched := includeNames && nameMatches != [];
      if nameMatched {
        pageScore := pageScore + 2.0;
      }
      found := CollectMatches(v.page, v.content, contentMatches, pageScore);
      if nameMatched {
        var (start, end) := nameMatches[0];
        found := found + [SearchResult(v.page, PageNameLabel + v.name, start, end, pageScore)];
      }
    }

    /** `advanced_search`: the per-page results of every page, sorted by
        score with ties in discovery order. */
    method AdvancedSearch(query: string, caseSensitive: bool, wholeWords: bool, includeNames: bool)
      returns (r: Result<seq<SearchResult>, SearchError>)
      requires Ready()
      ensures notebook == null ==> r == Err(NoNotebook)
      ensures notebook != null ==> r == Ok(Ranking.SortDesc(
        AdvancedResults(notebook.Snapshot(), query, caseSensitive, wholeWords, includeNames, contextSize), ScoreOf))
    {
      if notebook == null {
        return Err(NoNotebook);
      }
      var views := notebook.Snapshot();
      var results := AdvancedPages(views, query, caseSensitive, wholeWords, includeNames);
      results := Ranking.SortDesc(results, ScoreOf);
      r := Ok(results);
    }

    /** The page loop of `advanced_search`. */
    method AdvancedPages(views: seq<PageView>, query: string, caseSensitive: bool, wholeWords: bool, includeNames: bool)
      returns (results: seq<SearchResult>)
      ensures results == AdvancedResults(views, query, caseSensitive, wholeWords, includeNames, contextSize)
    {
      results := [];
      var p := 0;
      while p < |views|
        invariant 0 <= p <= |views|
        invariant results == AdvancedResults(views[..p], query, caseSensitive, wholeWords, includeNames, contextSize)
      {
        assert views[..p + 1][..p] == views[..p];
        var found := SearchPage(views[p], query, caseSensitive, wholeWords, includeNames);
        results := results + found;
        p := p + 1;
      }
      assert views[..p] == views;
    }

    /** The keyword loop of `search_by_keywords`: the first match of each
        keyword until one is missing. */
    method FirstMatches(content: string, keywords: seq<string>) returns (matches: seq<(int, int)>, matchAll: bool)
      ensures matchAll <==> AllKeywordsOccur(content, keywords)
      ensures matchAll ==> |matches| == |keywords|
      ensures forall k :: 0 <= k < |matches| ==>
        k < |keywords| && FindAll(content, keywords[k], false, true) != []
        && matches[k] == FindAll(content, keywords[k], false, true)[0]
    {
      matches := [];
      matchAll := true;
      var k := 0;
      while k < |keywords|
        invariant 0 <= k <= |keywords|
        invariant matchAll ==> |matches| == k
        invariant |matches| <= k
        invariant matchAll ==> forall j :: 0 <= j < k ==> FindAll(content, keywords[j], false, true) != []
        invariant !matchAll ==> !AllKeywordsOccur(content, keywords)
        invariant forall j :: 0 <= j < |matches| ==>
          FindAll(content, keywords[j], false, true) != [] && matches[j] == FindAll(content, keywords[j], false, true)[0]
        decreases if matchAll then |keywords| - k else 0
      {
        var found := FindAll(content, keywords[k], false, true);
        if found != [] {
          matches := matches + [found[0]];
          k := k + 1;
        } else {
          matchAll := false;
          break;
        }
      }
    }

    /** The per-page body of `search_by_keywords`. */
    method KeywordSearchPage(v: PageView, keywords: seq<string>) returns (found: seq<SearchResult>)
      ensures found == KeywordPage(v, keywords, contextSize)
    {
      found := [];
      var matches, matchAll := FirstMatches(v.content, keywords);
      if matchAll && matches != [] {
        var keywordCount := 0;
        var k := 0;
        while k < |keywords|
          invariant 0 <= k <= |keywords|
          invariant keywordCount == KeywordHits(v.content, keywords[..k])
        {
          assert keywords[..k + 1][..k] == keywords[..k];
          keywordCount := keywordCount + |FindAll(v.content, keywords[k], false, true)|;
          k := k + 1;
        }
        assert keywords[..k] == keywords;
        var score := keywordCount as real / Max1(|SplitWhitespace(v.content)|) as real;
        var (start, end) := matches[0];
        FindAllSound(v.content, keywords[0], false, true);
        found := [SearchResult(v.page, Snippet(v.content, start, end, contextSize), start, end, score)];
      }
    }

    /** `search_by_keywords`: at most one result per page, for the pages
        holding every keyword as a whole word, sorted by keyword density. */
    method SearchByKeywords(keywords: seq<string>) returns (r: Result<seq<SearchResult>, SearchError>)
      requires Ready()
      ensures notebook == null ==> r == Err(NoNotebook)
      ensures notebook != null ==>
        r == Ok(Ranking.SortDesc(KeywordResults(notebook.Snapshot(), keywords, contextSize), ScoreOf))
    {
      if notebook == null {
        return Err(NoNotebook);
      }
      var views := notebook.Snapshot();
      var results := KeywordPages(views, keywords);
      results := Ranking.SortDesc(results, ScoreOf);
      r := Ok(results);
    }

    /** The page loop of `search_by_keywords`. */
    method KeywordPages(views: seq<PageView>, keywords: seq<string>) returns (results: seq<SearchResult>)
      ensures results == KeywordResults(views, keywords, contextSize)
    {
      results := [];
      var p := 0;
      while p < |views|
        invariant 0 <= p <= |views|
        invariant results == KeywordResults(views[..p], keywords, contextSize)
      {
        assert views[..p + 1][..p] == views[..p];
        var found := KeywordSearchPage(views[p], keywords);
        results := results + found;
        p := p + 1;
      }
      assert views[..p] == views;
    }

    /** `regex_search`: with no notebook bound, the ValueError; for a
        pattern that does not compile, the re-raised error with its
        message; otherwise every reported match, scored 1, in discovery
        order. The regular-expression engine is the `compile` parameter. */
    method RegexSearch(pattern: string, compile: string -> Result<Matcher, string>)
      returns (r: Result<seq<SearchResult>, SearchError>)
      requires Ready()
      requires compile(pattern).Ok? ==> ValidMatcher(compile(pattern).value)
      ensures notebook == null ==> r == Err(NoNotebook)
      ensures notebook != null && compile(pattern).Err? ==>
        r == Err(InvalidPattern("Invalid regular expression: " + compile(pattern).error))
      ensures notebook != null && compile(pattern).Ok? ==>
        r == Ok(RegexResults(notebook.Snapshot(), compile(pattern).value, contextSize))
    {
      if notebook == null {
        return Err(NoNotebook);
      }
      var compiled := compile(pattern);
      if compiled.Err? {
        return Err(InvalidPattern("Invalid regular expression: " + compiled.error));
      }
      var regex := compiled.value;
      var views := notebook.Snapshot();
      var results := RegexPages(views, regex);
      results := Ranking.SortDesc(results, ScoreOf);
      r := Ok(results);
    }

    /** The page loop of `regex_search`. */
    method RegexPages(views: seq<PageView>, regex: Matcher) returns (results: seq<SearchResult>)
      requires ValidMatcher(regex)
      ensures results == RegexResults(views, regex, contextSize)
      ensures Ranking.SortDesc(results, ScoreOf) == results
    {
      results := [];
      var p := 0;
      while p < |views|
        invariant 0 <= p <= |views|
        invariant results == RegexResults(views[..p], regex, contextSize)
      {
        assert views[..p + 1][..p] == views[..p];
        var found := CollectMatches(views[p].page, views[p].content, regex(views[p].content), 1.0);
        results := results + found;
        p := p + 1;
      }
      assert views[..p] == views;
      RegexScoresOne(views, regex, contextSize);
    }
  }

  /** `regex_search` scores every result 1, so sorting keeps the order. */
  lemma {:induction false} RegexScoresOne(views: seq<PageView>, m: Matcher, context: nat)
    requires ValidMatcher(m)
    ensures forall i :: 0 <= i < |RegexResults(views, m, context)| ==> ScoreOf(RegexResults(views, m, context)[i]) == 1.0
    ensures Ranking.SortDesc(RegexResults(views, m, context), ScoreOf) == RegexResults(views, m, context)
  {
    if views != [] {
      RegexScoresOne(views[..|views| - 1], m, context);
    }
    Ranking.SortDescOfConstant(RegexResults(views, m, context), ScoreOf, 1.0);
  }
}
