/** Character classes and tokenisers shared by the analysis, counting and
    search code. Python's `\w`, `str.lower`, `str.split` and the constants
    of its `string` module are taken over ASCII. */
module Text {

  // ----- Character classes ------------------------------------------------

  /** `string.ascii_lowercase` */
  const AsciiLowercase: string := seq(26, i requires 0 <= i < 26 => ('a' as int + i) as char)
  /** `string.ascii_uppercase` */
  const AsciiUppercase: string := seq(26, i requires 0 <= i < 26 => ('A' as int + i) as char)
  /** `string.ascii_letters` */
  const AsciiLetters: string := AsciiLowercase + AsciiUppercase
  /** `string.digits` */
  const Digits: string := seq(10, i requires 0 <= i < 10 => ('0' as int + i) as char)
  /** `string.whitespace`: space, tab, line feed, carriage return, vertical tab, form feed */
  const Whitespace: string := [' ', '\t', '\n', '\r', 11 as char, 12 as char]
  /** The characters `first` to `last`, in order. */
  function CharRange(first: char, last: char): (r: string)
    requires first <= last < 128 as char
    ensures forall c :: c in r <==> first <= c <= last
  {
    var r := seq(last as int - first as int + 1, i requires 0 <= i <= last as int - first as int => (first as int + i) as char);
    forall c | first <= c <= last ensures c in r {
      assert r[c as int - first as int] == c;
    }
    r
  }

  /** `string.punctuation`, the 32 ASCII characters
      !"#$%&'()*+,-./:;<=>?@[\]^_`{|}~ in this order. */
  const Punctuation: string := CharRange('!', '/') + CharRange(':', '@') + CharRange('[', '`') + CharRange('{', '~')

  predicate IsAsciiLetter(c: char) { 'a' <= c <= 'z' || 'A' <= c <= 'Z' }
  predicate IsDigit(c: char) { '0' <= c <= '9' }
  /** Membership in `Whitespace`, as a range test (WhitespaceRanges). */
  predicate IsWhitespace(c: char) { c == ' ' || '\t' <= c <= '\r' }
  /** Membership in `Punctuation`, as a range test (PunctuationRanges). */
  predicate IsPunctuation(c: char) { '!' <= c <= '/' || ':' <= c <= '@' || '[' <= c <= '`' || '{' <= c <= '~' }

  /** A character of `\w` (ASCII letters, digits and underscore). */
  predicate IsWordChar(c: char) { IsAsciiLetter(c) || IsDigit(c) || c == '_' }

  /** A separator for `str.split()` without arguments: the ASCII characters
      for which `str.isspace` holds. */
  predicate IsSpace(c: char) { IsWhitespace(c) || 28 <= c as int <= 31 }
  predicate IsNonSpace(c: char) { !IsSpace(c) }

  lemma LettersAreAsciiLetters(c: char)
    ensures c in AsciiLetters <==> IsAsciiLetter(c)
  {
    if 'a' <= c <= 'z' {
      assert AsciiLetters[c as int - 'a' as int] == c;
    } else if 'A' <= c <= 'Z' {
      assert AsciiLetters[26 + c as int - 'A' as int] == c;
    }
  }

  lemma DigitsAreDigits(c: char)
    ensures c in Digits <==> IsDigit(c)
  {
    if IsDigit(c) {
      assert Digits[c as int - '0' as int] == c;
    }
  }

  lemma WhitespaceRanges(c: char)
    ensures c in Whitespace <==> IsWhitespace(c)
  {
    assert Whitespace == [' ', '\t', '\n', '\r', 11 as char, 12 as char];
  }

  lemma PunctuationRanges(c: char)
    ensures c in Punctuation <==> IsPunctuation(c)
  {
  }

  /** The four classes that `analyze_text` counts are pairwise disjoint. */
  lemma ClassesDisjoint(c: char)
    ensures !(IsAsciiLetter(c) && IsDigit(c))
    ensures IsPunctuation(c) ==> !IsAsciiLetter(c) && !IsDigit(c) && !IsWhitespace(c)
    ensures IsWhitespace(c) ==> !IsAsciiLetter(c) && !IsDigit(c)
  {
  }

  function LowerChar(c: char): char
  {
    if 'A' <= c <= 'Z' then (c as int + 32) as char else c
  }

  /** `str.lower()` on ASCII text. */
  function Lower(s: string): (r: string)
    ensures |r| == |s|
    ensures forall i :: 0 <= i < |s| ==> r[i] == LowerChar(s[i])
  {
    seq(|s|, i requires 0 <= i < |s| => LowerChar(s[i]))
  }

  /** Lower-casing is idempotent, leaves no upper-case ASCII letter and
      changes nothing else, and keeps each character in its class: a word
      character stays one, and so does a separator. */
  lemma LowerFacts(s: string)
    ensures Lower(Lower(s)) == Lower(s)
    ensures forall i :: 0 <= i < |s| ==> !('A' <= Lower(s)[i] <= 'Z')
    ensures forall i :: 0 <= i < |s| && !('A' <= s[i] <= 'Z') ==> Lower(s)[i] == s[i]
    ensures forall i :: 0 <= i < |s| ==>
      && (IsWordChar(Lower(s)[i]) <==> IsWordChar(s[i]))
      && (IsSpace(Lower(s)[i]) <==> IsSpace(s[i]))
  {
    var l := Lower(s);
    assert forall i :: 0 <= i < |l| ==> Lower(l)[i] == l[i];
  }

  /** Every punctuation character replaced by a space, which is what the
      loop `for p in string.punctuation: text = text.replace(p, " ")`
      leaves behind. */
  function PunctuationToSpaces(s: string): (r: string)
    ensures |r| == |s|
    ensures forall i :: 0 <= i < |s| ==> r[i] == if IsPunctuation(s[i]) then ' ' else s[i]
  {
    seq(|s|, i requires 0 <= i < |s| => if IsPunctuation(s[i]) then ' ' else s[i])
  }

  // ----- Maximal runs -------------------------------------------------------

  /** Length of the longest prefix of `s` whose characters all satisfy `p`. */
  function PrefixLength(s: string, p: char -> bool): (n: nat)
    ensures n <= |s|
    ensures forall i :: 0 <= i < n ==> p(s[i])
    ensures n < |s| ==> !p(s[n])
  {
    if s == [] || !p(s[0]) then 0 else 1 + PrefixLength(s[1..], p)
  }

  /** The maximal runs of characters satisfying `p`, left to right. With
      `p` = IsWordChar this is `re.findall(r'\b\w+\b', s)`; with
      `p` = IsNonSpace it is `s.split()`. */
  function Runs(s: string, p: char -> bool): seq<string>
    decreases |s|
  {
    if s == [] then []
    else if !p(s[0]) then Runs(s[1..], p)
    else
      var n := PrefixLength(s, p);
      [s[..n]] + Runs(s[n..], p)
  }

  function Words(s: string): seq<string> { Runs(s, IsWordChar) }

  function SplitWhitespace(s: string): seq<string> { Runs(s, IsNonSpace) }

  /** Number of positions where a run of `p` starts, scanning left to right
      with `prev` telling whether the character before `s` satisfied `p`. */
  function RunStartsFrom(s: string, p: char -> bool, prev: bool): nat
    decreases |s|
  {
    if s == [] then 0
    else (if p(s[0]) && !prev then 1 else 0) + RunStartsFrom(s[1..], p, p(s[0]))
  }

  /** Number of indices i with p(s[i]) and (i == 0 or !p(s[i-1])). */
  function RunStarts(s: string, p: char -> bool): nat { RunStartsFrom(s, p, false) }

  lemma {:induction false} PrevIrrelevant(s: string, p: char -> bool)
    requires s == [] || !p(s[0])
    ensures RunStartsFrom(s, p, true) == RunStartsFrom(s, p, false)
  {
  }

  /** Inside a run no new run starts. */
  lemma {:induction false} SkipRun(s: string, p: char -> bool, m: nat)
    requires 0 < m <= |s|
    requires forall i :: 0 <= i < m ==> p(s[i])
    requires m < |s| ==> !p(s[m])
    ensures RunStartsFrom(s, p, true) == RunStartsFrom(s[m..], p, false)
  {
    if m == 1 {
      PrevIrrelevant(s[1..], p);
    } else {
      SkipRun(s[1..], p, m - 1);
      assert s[1..][m - 1..] == s[m..];
    }
  }

  /** Inside a gap no run starts. */
  lemma {:induction false} SkipGap(s: string, p: char -> bool, m: nat, prev: bool)
    requires 0 < m <= |s|
    requires forall i :: 0 <= i < m ==> !p(s[i])
    ensures RunStartsFrom(s, p, prev) == RunStartsFrom(s[m..], p, false)
  {
    if m > 1 {
      SkipGap(s[1..], p, m - 1, false);
      assert s[1..][m - 1..] == s[m..];
    }
  }

  /** Runs yields one token per run start. */
  lemma {:induction false} RunsCount(s: string, p: char -> bool)
    ensures |Runs(s, p)| == RunStarts(s, p)
    decreases |s|
  {
    if s == [] {
    } else if !p(s[0]) {
      RunsCount(s[1..], p);
    } else {
      var n := PrefixLength(s, p);
      RunsCount(s[n..], p);
      if n == 1 {
        PrevIrrelevant(s[1..], p);
      } else {
        SkipRun(s[1..], p, n - 1);
        assert s[1..][n - 1..] == s[n..];
      }
    }
  }

  /** Every token is non-empty and made of characters satisfying `p`. */
  lemma {:induction false} RunsTokens(s: string, p: char -> bool)
    ensures forall t :: t in Runs(s, p) ==> |t| > 0 && forall i :: 0 <= i < |t| ==> p(t[i])
    decreases |s|
  {
    if s == [] {
    } else if !p(s[0]) {
      RunsTokens(s[1..], p);
    } else {
      var n := PrefixLength(s, p);
      RunsTokens(s[n..], p);
    }
  }

  /** There are no tokens exactly when no character satisfies `p`. */
  lemma {:induction false} RunsEmpty(s: string, p: char -> bool)
    ensures Runs(s, p) == [] <==> forall i :: 0 <= i < |s| ==> !p(s[i])
    decreases |s|
  {
    if s != [] && !p(s[0]) {
      RunsEmpty(s[1..], p);
      assert forall i :: 1 <= i < |s| ==> s[i] == s[1..][i - 1];
    }
  }

  /** The characters of `s` that satisfy `p`, in order. */
  function Filter(s: string, p: char -> bool): (r: string)
    decreases |s|
  {
    if s == [] then [] else (if p(s[0]) then [s[0]] else []) + Filter(s[1..], p)
  }

  function Concat(ts: seq<string>): string
  {
    if ts == [] then [] else ts[0] + Concat(ts[1..])
  }

  lemma {:induction false} FilterAppend(a: string, b: string, p: char -> bool)
    ensures Filter(a + b, p) == Filter(a, p) + Filter(b, p)
    decreases |a|
  {
    if a == [] {
      assert a + b == b;
    } else {
      FilterAppend(a[1..], b, p);
      var head := if p(a[0]) then [a[0]] else [];
      assert (a + b)[0] == a[0];
      assert (a + b)[1..] == a[1..] + b;
      assert Filter(a + b, p) == head + Filter(a[1..] + b, p);
      assert Filter(a, p) == head + Filter(a[1..], p);
    }
  }

  lemma {:induction false} FilterAll(s: string, p: char -> bool)
    requires forall i :: 0 <= i < |s| ==> p(s[i])
    ensures Filter(s, p) == s
    decreases |s|
  {
    if s != [] { FilterAll(s[1..], p); }
  }

  /** Concatenating the tokens gives back `s` with every character outside
      `p` removed: the tokens lose nothing and invent nothing. */
  lemma {:induction false} RunsConcat(s: string, p: char -> bool)
    ensures Concat(Runs(s, p)) == Filter(s, p)
    decreases |s|
  {
    if s == [] {
    } else if !p(s[0]) {
      RunsConcat(s[1..], p);
    } else {
      var n := PrefixLength(s, p);
      RunsConcat(s[n..], p);
      assert s == s[..n] + s[n..];
      FilterAppend(s[..n], s[n..], p);
      FilterAll(s[..n], p);
      assert Runs(s, p)[1..] == Runs(s[n..], p);
    }
  }

  // ----- Segments between runs (re.split) ---------------------------------

  predicate IsSentenceEnd(c: char) { c == '.' || c == '!' || c == '?' }
  predicate IsNotSentenceEnd(c: char) { !IsSentenceEnd(c) }

  /** `re.split(r'[.!?]+', s)`: the pieces between maximal runs of
      terminators, including the empty piece before a leading run and after
      a trailing one. */
  function SentenceSegments(s: string): (r: seq<string>)
    ensures |r| > 0
    decreases |s|
  {
    var k := PrefixLength(s, IsNotSentenceEnd);
    if k == |s| then [s]
    else
      var m := PrefixLength(s[k..], IsSentenceEnd);
      [s[..k]] + SentenceSegments(s[k + m..])
  }

  /** A gap of `k` characters outside `p` followed by a run of `m`
      characters in `p` holds exactly one run start. */
  lemma {:induction false} GapThenRun(s: string, p: char -> bool, k: nat, m: nat)
    requires k + m <= |s| && 0 < m
    requires forall i :: 0 <= i < k ==> !p(s[i])
    requires forall i :: k <= i < k + m ==> p(s[i])
    requires k + m < |s| ==> !p(s[k + m])
    ensures RunStarts(s, p) == 1 + RunStarts(s[k + m..], p)
  {
    var rest := s[k..];
    if k > 0 {
      SkipGap(s, p, k, false);
    }
    assert rest[0] == s[k];
    if m == 1 {
      PrevIrrelevant(rest[1..], p);
      assert rest[1..] == s[k + m..];
    } else {
      SkipRun(rest[1..], p, m - 1);
      assert rest[1..][m - 1..] == s[k + m..];
    }
  }

  /** The first piece ends at the first terminator, and the rest of the
      pieces come after the run that starts there. */
  lemma SentenceSegmentsSplit(s: string, k: nat, m: nat)
    requires k == PrefixLength(s, IsNotSentenceEnd) < |s|
    requires m == PrefixLength(s[k..], IsSentenceEnd)
    ensures SentenceSegments(s) == [s[..k]] + SentenceSegments(s[k + m..])
  {
  }

  /** Splitting on runs yields one more piece than there are runs. */
  lemma {:induction false} SentenceSegmentsCount(s: string)
    ensures |SentenceSegments(s)| == |Runs(s, IsSentenceEnd)| + 1
    decreases |s|
  {
    RunsCount(s, IsSentenceEnd);
    var k := PrefixLength(s, IsNotSentenceEnd);
    if k == |s| {
      assert SentenceSegments(s) == [s];
      assert forall i :: 0 <= i < |s| ==> IsNotSentenceEnd(s[i]);
      RunsEmpty(s, IsSentenceEnd);
    } else {
      var m := PrefixLength(s[k..], IsSentenceEnd);
      SentenceSegmentsSplit(s, k, m);
      SentenceSegmentsCount(s[k + m..]);
      RunsCount(s[k + m..], IsSentenceEnd);
      GapThenRun(s, IsSentenceEnd, k, m);
    }
  }

  // ----- Counting ----------------------------------------------------------

  /** Number of characters of `s` satisfying `p`. */
  function CountIf(s: string, p: char -> bool): nat
    decreases |s|
  {
    if s == [] then 0 else (if p(s[0]) then 1 else 0) + CountIf(s[1..], p)
  }

  function SumLengths(ts: seq<string>): nat
  {
    if ts == [] then 0 else |ts[0]| + SumLengths(ts[1..])
  }

  /** Python's `max(1, n)`. */
  function Max1(n: int): (m: int)
    ensures m >= 1 && m >= n
    ensures n >= 1 ==> m == n
  {
    if n < 1 then 1 else n
  }

  /** Number of occurrences of `x` in `xs`. */
  function Count<T(==)>(xs: seq<T>, x: T): nat
  {
    if xs == [] then 0 else Count(xs[..|xs| - 1], x) + (if xs[|xs| - 1] == x then 1 else 0)
  }

  /** The distinct elements of `xs` in order of first occurrence. */
  function Distinct<T(==)>(xs: seq<T>): seq<T>
  {
    if xs == [] then []
    else
      var d := Distinct(xs[..|xs| - 1]);
      if xs[|xs| - 1] in d then d else d + [xs[|xs| - 1]]
  }

  predicate NoDuplicates<T(==)>(xs: seq<T>)
  {
    forall i, j :: 0 <= i < j < |xs| ==> xs[i] != xs[j]
  }

  /** An element that does not occur is counted 0 times. */
  lemma {:induction false} CountAbsent<T>(xs: seq<T>, x: T)
    requires x !in xs
    ensures Count(xs, x) == 0
  {
    if xs != [] {
      assert x !in xs[..|xs| - 1];
      CountAbsent(xs[..|xs| - 1], x);
    }
  }

  /** Appending one element adds one to its own count only. */
  lemma {:induction false} CountSnoc<T>(xs: seq<T>, x: T, y: T)
    ensures Count(xs + [x], y) == Count(xs, y) + (if x == y then 1 else 0)
  {
    assert (xs + [x])[..|xs|] == xs;
  }

  /** `Distinct` keeps exactly the elements of its input, once each. */
  lemma {:induction false} DistinctElements<T>(xs: seq<T>)
    ensures NoDuplicates(Distinct(xs))
    ensures forall x :: x in Distinct(xs) <==> x in xs
    ensures |Distinct(xs)| <= |xs|
  {
    if xs != [] {
      var n := |xs| - 1;
      DistinctElements(xs[..n]);
      assert xs == xs[..n] + [xs[n]];
    }
  }

  /** A duplicate-free sequence is its own `Distinct`. */
  lemma {:induction false} DistinctOfNoDuplicates<T>(xs: seq<T>)
    requires NoDuplicates(xs)
    ensures Distinct(xs) == xs
  {
    if xs != [] {
      var n := |xs| - 1;
      assert NoDuplicates(xs[..n]);
      DistinctOfNoDuplicates(xs[..n]);
      assert xs[n] !in xs[..n];
      assert xs == xs[..n] + [xs[n]];
    }
  }

  /** In a duplicate-free sequence every element occurs at most once. */
  lemma {:induction false} NoDuplicatesMultiset<T>(xs: seq<T>, x: T)
    requires NoDuplicates(xs)
    ensures multiset(xs)[x] <= 1
  {
    if xs != [] {
      var n := |xs| - 1;
      assert NoDuplicates(xs[..n]);
      NoDuplicatesMultiset(xs[..n], x);
      assert xs == xs[..n] + [xs[n]];
      if xs[n] == x {
        assert x !in xs[..n];
      }
    }
  }

  /** A permutation of a duplicate-free sequence is duplicate-free. */
  lemma NoDuplicatesPermutation<T>(xs: seq<T>, ys: seq<T>)
    requires NoDuplicates(xs) && multiset(xs) == multiset(ys)
    ensures NoDuplicates(ys)
  {
    forall i, j | 0 <= i < j < |ys| ensures ys[i] != ys[j] {
      NoDuplicatesMultiset(xs, ys[i]);
      assert ys == ys[..j] + ys[j..];
      assert ys[..j][i] == ys[i] && ys[j..][0] == ys[j];
      assert multiset(ys)[ys[i]] == multiset(ys[..j])[ys[i]] + multiset(ys[j..])[ys[i]];
    }
  }

  function Sum(xs: seq<int>): int
  {
    if xs == [] then 0 else Sum(xs[..|xs| - 1]) + xs[|xs| - 1]
  }

  function SumReals(xs: seq<real>): real
  {
    if xs == [] then 0.0 else SumReals(xs[..|xs| - 1]) + xs[|xs| - 1]
  }

  // ----- Substrings and stripping ------------------------------------------

  predicate OccursAt(hay: string, needle: string, i: int)
  {
    0 <= i && i + |needle| <= |hay| && hay[i..i + |needle|] == needle
  }

  /** Python's `needle in hay` for strings. */
  predicate Contains(hay: string, needle: string)
  {
    exists i :: 0 <= i <= |hay| - |needle| && OccursAt(hay, needle, i)
  }

  function StripLeft(s: string, chars: string): string
    decreases |s|
  {
    if s != [] && s[0] in chars then StripLeft(s[1..], chars) else s
  }

  function StripRight(s: string, chars: string): string
    decreases |s|
  {
    if s != [] && s[|s| - 1] in chars then StripRight(s[..|s| - 1], chars) else s
  }

  /** Python's `s.strip(chars)`. */
  function Strip(s: string, chars: string): string
  {
    StripRight(StripLeft(s, chars), chars)
  }

  /** `StripLeft` removes a prefix and leaves no leading strip character. */
  lemma {:induction false} StripLeftFacts(s: string, chars: string)
    ensures |StripLeft(s, chars)| <= |s|
    ensures StripLeft(s, chars) == s[|s| - |StripLeft(s, chars)|..]
    ensures StripLeft(s, chars) != [] ==> StripLeft(s, chars)[0] !in chars
    decreases |s|
  {
    if s != [] && s[0] in chars {
      StripLeftFacts(s[1..], chars);
      assert s[1..][|s| - 1 - |StripLeft(s, chars)|..] == s[|s| - |StripLeft(s, chars)|..];
    }
  }

  /** `StripRight` removes a suffix and leaves no trailing strip character. */
  lemma {:induction false} StripRightFacts(s: string, chars: string)
    ensures |StripRight(s, chars)| <= |s|
    ensures StripRight(s, chars) == s[..|StripRight(s, chars)|]
    ensures StripRight(s, chars) != [] ==> StripRight(s, chars)[|StripRight(s, chars)| - 1] !in chars
    decreases |s|
  {
    if s != [] && s[|s| - 1] in chars {
      StripRightFacts(s[..|s| - 1], chars);
      assert s[..|s| - 1][..|StripRight(s, chars)|] == s[..|StripRight(s, chars)|];
    }
  }

  /** `s.strip(chars)` is a substring of `s` that neither starts nor ends
      with one of `chars`; stripping it again changes nothing. */
  lemma StripFacts(s: string, chars: string)
    ensures |Strip(s, chars)| <= |s|
    ensures Strip(s, chars) != [] ==>
      Strip(s, chars)[0] !in chars && Strip(s, chars)[|Strip(s, chars)| - 1] !in chars
    ensures Strip(Strip(s, chars), chars) == Strip(s, chars)
  {
    var left := StripLeft(s, chars);
    var r := Strip(s, chars);
    StripLeftFacts(s, chars);
    StripRightFacts(left, chars);
    if r != [] {
      assert r[0] == left[0];
      assert StripLeft(r, chars) == r;
    }
  }
}
