/** Python's stable descending sort, `sorted(xs, key=k, reverse=True)` and
    `xs.sort(key=k, reverse=True)`, which every ranking in the notebook
    uses: keyword and word frequencies, and search relevance. */
module Ranking {
  import Text

  /** `x` placed before the first element whose key is not above its own. */
  function Insert<T>(x: T, s: seq<T>, key: T -> real): seq<T>
  {
    if s == [] || key(s[0]) <= key(x) then [x] + s
    else [s[0]] + Insert(x, s[1..], key)
  }

  /** Stable sort by `key`, largest first. */
  function SortDesc<T>(xs: seq<T>, key: T -> real): seq<T>
  {
    if xs == [] then [] else Insert(xs[0], SortDesc(xs[1..], key), key)
  }

  ghost predicate NonIncreasing<T>(s: seq<T>, key: T -> real)
  {
    forall i, j :: 0 <= i < j < |s| ==> key(s[i]) >= key(s[j])
  }

  /** The elements of `s` whose key is `v`, in their order in `s`. */
  function WithKey<T>(s: seq<T>, key: T -> real, v: real): seq<T>
  {
    if s == [] then [] else (if key(s[0]) == v then [s[0]] else []) + WithKey(s[1..], key, v)
  }

  lemma {:induction false} InsertMultiset<T>(x: T, s: seq<T>, key: T -> real)
    ensures multiset(Insert(x, s, key)) == multiset(s) + multiset{x}
  {
    if s != [] && key(s[0]) > key(x) {
      InsertMultiset(x, s[1..], key);
      assert s == [s[0]] + s[1..];
    }
  }

  lemma {:induction false} InsertSorted<T>(x: T, s: seq<T>, key: T -> real)
    requires NonIncreasing(s, key)
    ensures NonIncreasing(Insert(x, s, key), key)
  {
    if s != [] && key(s[0]) > key(x) {
      InsertSorted(x, s[1..], key);
      var r := Insert(x, s[1..], key);
      InsertMultiset(x, s[1..], key);
      forall j | 0 <= j < |r| ensures key(s[0]) >= key(r[j]) {
        assert r[j] in multiset(r);
        if r[j] != x {
          assert r[j] in multiset(s[1..]);
          var k :| 0 <= k < |s[1..]| && s[1..][k] == r[j];
          assert s[k + 1] == r[j];
        }
      }
    }
  }

  lemma {:induction false} InsertWithKey<T>(x: T, s: seq<T>, key: T -> real, v: real)
    requires NonIncreasing(s, key)
    ensures WithKey(Insert(x, s, key), key, v)
         == (if key(x) == v then [x] else []) + WithKey(s, key, v)
  {
    if s == [] || key(s[0]) <= key(x) {
      assert ([x] + s)[1..] == s;
    } else {
      InsertWithKey(x, s[1..], key, v);
      assert ([s[0]] + Insert(x, s[1..], key))[1..] == Insert(x, s[1..], key);
    }
  }

  /** The result is ordered by key, largest first. */
  lemma {:induction false} SortDescSorted<T>(xs: seq<T>, key: T -> real)
    ensures NonIncreasing(SortDesc(xs, key), key)
  {
    if xs != [] {
      SortDescSorted(xs[1..], key);
      InsertSorted(xs[0], SortDesc(xs[1..], key), key);
    }
  }

  /** The result is a permutation of the input. */
  lemma {:induction false} SortDescPermutation<T>(xs: seq<T>, key: T -> real)
    ensures multiset(SortDesc(xs, key)) == multiset(xs)
  {
    if xs != [] {
      SortDescPermutation(xs[1..], key);
      InsertMultiset(xs[0], SortDesc(xs[1..], key), key);
      assert xs == [xs[0]] + xs[1..];
    }
  }

  /** Stability: the elements sharing any one key keep their input order. */
  lemma {:induction false} SortDescStable<T>(xs: seq<T>, key: T -> real, v: real)
    ensures WithKey(SortDesc(xs, key), key, v) == WithKey(xs, key, v)
  {
    if xs != [] {
      SortDescStable(xs[1..], key, v);
      SortDescSorted(xs[1..], key);
      InsertWithKey(xs[0], SortDesc(xs[1..], key), key, v);
    }
  }

  /** An input that is already ordered comes back unchanged. */
  lemma {:induction false} SortDescOfSorted<T>(xs: seq<T>, key: T -> real)
    requires NonIncreasing(xs, key)
    ensures SortDesc(xs, key) == xs
  {
    if xs != [] {
      assert NonIncreasing(xs[1..], key);
      SortDescOfSorted(xs[1..], key);
      assert xs == [xs[0]] + xs[1..];
    }
  }

  /** When every element has the same key the sort changes nothing. */
  lemma SortDescOfConstant<T>(xs: seq<T>, key: T -> real, v: real)
    requires forall i :: 0 <= i < |xs| ==> key(xs[i]) == v
    ensures SortDesc(xs, key) == xs
  {
    SortDescOfSorted(xs, key);
  }

  /** `Counter.most_common(n)`: the first `n` entries, none when n <= 0. */
  function MostCommonPrefix<T>(xs: seq<T>, n: int): (r: seq<T>)
    ensures n <= 0 ==> r == []
    ensures n > 0 ==> |r| == if n < |xs| then n else |xs|
    ensures r <= xs
  {
    if n <= 0 then [] else if n < |xs| then xs[..n] else xs
  }

  /** Python's slice `xs[:n]`; a negative `n` drops `-n` entries at the end. */
  function SliceTo<T>(xs: seq<T>, n: int): (r: seq<T>)
    ensures 0 <= n ==> |r| == if n < |xs| then n else |xs|
    ensures n < 0 ==> |r| == if |xs| + n > 0 then |xs| + n else 0
    ensures r <= xs
  {
    if 0 <= n then (if n < |xs| then xs[..n] else xs)
    else if |xs| + n > 0 then xs[..|xs| + n] else []
  }

  // ----- collections.Counter -----------------------------------------------

  /** `Counter(xs).items()`: each distinct element with its number of
      occurrences, in order of first occurrence. */
  function Tally<T(==)>(xs: seq<T>): (r: seq<(T, nat)>)
    ensures |r| == |Text.Distinct(xs)|
    ensures forall i :: 0 <= i < |r| ==>
      r[i] == (Text.Distinct(xs)[i], Text.Count(xs, Text.Distinct(xs)[i]))
  {
    var d := Text.Distinct(xs);
    seq(|d|, i requires 0 <= i < |d| => (d[i], Text.Count(xs, d[i])))
  }

  function CountOf<T>(entry: (T, nat)): real { entry.1 as real }

  /** `Counter(xs).most_common(n)`: the tallies by count, largest first,
      equal counts in order of first occurrence, cut after `n`. */
  function MostCommon<T(==)>(xs: seq<T>, n: int): seq<(T, nat)>
  {
    MostCommonPrefix(SortDesc(Tally(xs), CountOf), n)
  }

  /** An entry that counts one element of `xs` correctly. */
  ghost predicate Tallied<T>(entry: (T, nat), xs: seq<T>)
  {
    entry.0 in xs && entry.1 == Text.Count(xs, entry.0) && entry.1 > 0
  }

  lemma {:induction false} CountPresent<T>(xs: seq<T>, x: T)
    requires x in xs
    ensures Text.Count(xs, x) > 0
  {
    var n := |xs| - 1;
    if xs[n] != x {
      assert xs == xs[..n] + [xs[n]];
      CountPresent(xs[..n], x);
    }
  }

  lemma DistinctMember<T>(xs: seq<T>, x: T)
    requires x in Text.Distinct(xs)
    ensures x in xs
  {
    Text.DistinctElements(xs);
  }

  /** Every entry of the tally is correct, no element has two entries, and
      every element of `xs` has one. */
  lemma TallyEntries<T>(xs: seq<T>)
    ensures forall e :: e in Tally(xs) ==> Tallied(e, xs)
    ensures Text.NoDuplicates(Tally(xs))
    ensures forall x :: x in xs ==> (x, Text.Count(xs, x)) in Tally(xs)
  {
    var d := Text.Distinct(xs);
    var t := Tally(xs);
    Text.DistinctElements(xs);
    forall e | e in t ensures Tallied(e, xs) {
      var i :| 0 <= i < |t| && t[i] == e;
      DistinctMember(xs, d[i]);
      CountPresent(xs, d[i]);
    }
    forall x | x in xs ensures (x, Text.Count(xs, x)) in t {
      assert x in d;
      var i :| 0 <= i < |d| && d[i] == x;
      assert t[i] == (x, Text.Count(xs, x));
    }
  }

  /** The counts of a list of entries, added up. */
  function SumCounts<T>(entries: seq<(T, nat)>): nat
  {
    if entries == [] then 0 else SumCounts(entries[..|entries| - 1]) + entries[|entries| - 1].1
  }

  /** How often the elements of `keys` occur in `xs`, added up. */
  function CountsOf<T(==)>(xs: seq<T>, keys: seq<T>): nat
  {
    if keys == [] then 0 else CountsOf(xs, keys[..|keys| - 1]) + Text.Count(xs, keys[|keys| - 1])
  }

  /** One more element adds one to the total exactly when it is one of the
      (duplicate-free) keys. */
  lemma {:induction false} CountsOfSnoc<T>(xs: seq<T>, y: T, keys: seq<T>)
    requires Text.NoDuplicates(keys)
    ensures CountsOf(xs + [y], keys) == CountsOf(xs, keys) + (if y in keys then 1 else 0)
  {
    if keys != [] {
      var n := |keys| - 1;
      var front := keys[..n];
      assert Text.NoDuplicates(front);
      CountsOfSnoc(xs, y, front);
      Text.CountSnoc(xs, y, keys[n]);
      assert keys == front + [keys[n]];
      assert y in keys <==> y in front || y == keys[n];
      assert y in front ==> y != keys[n];
    }
  }

  /** Every element is counted once under its own key. */
  lemma {:induction false} CountsOfDistinct<T>(xs: seq<T>)
    ensures CountsOf(xs, Text.Distinct(xs)) == |xs|
  {
    if xs != [] {
      var n := |xs| - 1;
      var front := xs[..n];
      var d := Text.Distinct(front);
      assert xs == front + [xs[n]];
      CountsOfDistinct(front);
      Text.DistinctElements(front);
      CountsOfSnoc(front, xs[n], d);
      if xs[n] !in d {
        Text.CountAbsent(front, xs[n]);
        Text.CountSnoc(front, xs[n], xs[n]);
        assert (d + [xs[n]])[..|d|] == d;
      }
    }
  }

  /** The first `i` entries of the tally count the first `i` distinct
      elements. */
  lemma {:induction false} SumCountsTallyPrefix<T>(xs: seq<T>, i: nat)
    requires i <= |Text.Distinct(xs)|
    ensures SumCounts(Tally(xs)[..i]) == CountsOf(xs, Text.Distinct(xs)[..i])
  {
    if i > 0 {
      var t := Tally(xs);
      var d := Text.Distinct(xs);
      SumCountsTallyPrefix(xs, i - 1);
      assert t[..i][..i - 1] == t[..i - 1];
      assert d[..i][..i - 1] == d[..i - 1];
    }
  }

  /** The counts of a tally add up to the number of elements tallied. */
  lemma SumCountsTally<T>(xs: seq<T>)
    ensures SumCounts(Tally(xs)) == |xs|
  {
    var d := Text.Distinct(xs);
    SumCountsTallyPrefix(xs, |d|);
    assert Tally(xs)[..|d|] == Tally(xs);
    assert d[..|d|] == d;
    CountsOfDistinct(xs);
  }

  /** `most_common(n)` returns no entries for n <= 0 and otherwise the
      first n entries of a permutation of the tally ordered by count. */
  lemma MostCommonFacts<T>(xs: seq<T>, n: int)
    ensures n <= 0 ==> MostCommon(xs, n) == []
    ensures 0 < n ==>
      |MostCommon(xs, n)| == (if n < |Text.Distinct(xs)| then n else |Text.Distinct(xs)|)
    ensures forall i :: 0 <= i < |MostCommon(xs, n)| ==> Tallied(MostCommon(xs, n)[i], xs)
    ensures forall i, j :: 0 <= i < j < |MostCommon(xs, n)| ==>
      MostCommon(xs, n)[i].0 != MostCommon(xs, n)[j].0
    ensures forall i, j :: 0 <= i < j < |MostCommon(xs, n)| ==>
      MostCommon(xs, n)[i].1 >= MostCommon(xs, n)[j].1
    ensures n >= |Text.Distinct(xs)| ==>
      forall x :: x in xs ==> (x, Text.Count(xs, x)) in MostCommon(xs, n)
  {
    var t := Tally(xs);
    var s := SortDesc(t, CountOf);
    var r := MostCommon(xs, n);
    SortDescPermutation(t, CountOf);
    SortDescSorted(t, CountOf);
    TallyEntries(xs);
    assert |s| == |multiset(s)| == |multiset(t)| == |t|;
    forall e | e in s ensures Tallied(e, xs) {
      assert e in multiset(s);
    }
    Text.NoDuplicatesPermutation(t, s);
    forall i, j | 0 <= i < j < |r| ensures r[i].0 != r[j].0 && r[i].1 >= r[j].1 {
      assert r[i] == s[i] && r[j] == s[j];
      assert s[i] in s && s[j] in s;
    }
    if n >= |Text.Distinct(xs)| {
      forall x | x in xs ensures (x, Text.Count(xs, x)) in r {
        assert (x, Text.Count(xs, x)) in multiset(t);
      }
    }
  }

  /** Selecting by key distributes over concatenation. */
  lemma {:induction false} WithKeyAppend<T>(s: seq<T>, t: seq<T>, key: T -> real, v: real)
    ensures WithKey(s + t, key, v) == WithKey(s, key, v) + WithKey(t, key, v)
  {
    if s == [] {
      assert s + t == t;
    } else {
      var st := s + t;
      assert st[0] == s[0] && st[1..] == s[1..] + t;
      WithKeyAppend(s[1..], t, key, v);
      var head := if key(s[0]) == v then [s[0]] else [];
      assert WithKey(st, key, v) == head + WithKey(st[1..], key, v);
      assert WithKey(s, key, v) == head + WithKey(s[1..], key, v);
    }
  }

  /** The elements a prefix selects are a prefix of those the whole
      sequence selects. */
  lemma WithKeyPrefix<T>(s: seq<T>, k: nat, key: T -> real, v: real)
    requires k <= |s|
    ensures WithKey(s[..k], key, v) <= WithKey(s, key, v)
  {
    assert s == s[..k] + s[k..];
    WithKeyAppend(s[..k], s[k..], key, v);
  }

  /** `s[i]` is selected under its own key, right after the elements of
      that key which come before it. */
  lemma WithKeyAt<T>(s: seq<T>, i: nat, key: T -> real, v: real)
    requires i < |s| && key(s[i]) == v
    ensures WithKey(s, key, v) == WithKey(s[..i], key, v) + [s[i]] + WithKey(s[i + 1..], key, v)
  {
    var before, x, after := s[..i], s[i], s[i + 1..];
    WithKeySplit(before, x, after, key);
    assert before + [x] + after == s;
  }

  /** The middle element of `before + [x] + after` is selected under its
      own key, between the selections of the two sides. */
  lemma WithKeySplit<T>(before: seq<T>, x: T, after: seq<T>, key: T -> real)
    ensures WithKey(before + [x] + after, key, key(x))
         == WithKey(before, key, key(x)) + [x] + WithKey(after, key, key(x))
  {
    WithKeyAppend(before + [x], after, key, key(x));
    WithKeyAppend(before, [x], key, key(x));
    WithKeySingle(x, key);
  }

  lemma WithKeySingle<T>(x: T, key: T -> real)
    ensures WithKey([x], key, key(x)) == [x]
  {
    assert [x][1..] == [];
  }

  /** Where a selected element sits in `s`. */
  lemma {:induction false} WithKeyIndex<T>(s: seq<T>, key: T -> real, v: real, c: nat) returns (p: nat)
    requires c < |WithKey(s, key, v)|
    ensures p < |s| && s[p] == WithKey(s, key, v)[c]
  {
    if key(s[0]) == v && c == 0 {
      p := 0;
    } else {
      var c' := if key(s[0]) == v then c - 1 else c;
      var p' := WithKeyIndex(s[1..], key, v, c');
      p := p' + 1;
    }
  }

  /** The selection keeps the order of `s`. */
  lemma {:induction false} WithKeyOrder<T>(s: seq<T>, key: T -> real, v: real, a: nat, b: nat)
    returns (p: nat, q: nat)
    requires a < b < |WithKey(s, key, v)|
    ensures p < q < |s|
    ensures s[p] == WithKey(s, key, v)[a] && s[q] == WithKey(s, key, v)[b]
  {
    if key(s[0]) == v && a == 0 {
      var q' := WithKeyIndex(s[1..], key, v, b - 1);
      p, q := 0, q' + 1;
    } else {
      var d := if key(s[0]) == v then 1 else 0;
      var p', q' := WithKeyOrder(s[1..], key, v, a - d, b - d);
      p, q := p' + 1, q' + 1;
    }
  }

  /** The entries sharing any one count come out in order of first
      occurrence: the sort is stable, and `most_common(n)` keeps a prefix
      of each such group. */
  lemma MostCommonStable<T>(xs: seq<T>, n: int, v: real)
    ensures WithKey(SortDesc(Tally(xs), CountOf), CountOf, v) == WithKey(Tally(xs), CountOf, v)
    ensures WithKey(MostCommon(xs, n), CountOf, v) <= WithKey(Tally(xs), CountOf, v)
  {
    var sorted := SortDesc(Tally(xs), CountOf);
    SortDescStable(Tally(xs), CountOf, v);
    if 0 < n < |sorted| {
      WithKeyPrefix(sorted, n, CountOf, v);
    }
  }

  /** Two entries of `most_common(n)` with the same count appear in the
      order of their elements' first occurrence in `xs`. */
  lemma MostCommonTieOrder<T>(xs: seq<T>, n: int, i: nat, j: nat) returns (p: nat, q: nat)
    requires i < j < |MostCommon(xs, n)|
    requires MostCommon(xs, n)[i].1 == MostCommon(xs, n)[j].1
    ensures p < q < |Tally(xs)|
    ensures Tally(xs)[p] == MostCommon(xs, n)[i] && Tally(xs)[q] == MostCommon(xs, n)[j]
  {
    var e := MostCommon(xs, n);
    var v := CountOf(e[i]);
    MostCommonStable(xs, n, v);
    WithKeyAt(e, i, CountOf, v);
    WithKeyAt(e, j, CountOf, v);
    var pa := |WithKey(e[..i], CountOf, v)|;
    var pb := |WithKey(e[..j], CountOf, v)|;
    // e[..i + 1] is a prefix of e[..j], and its selection ends with e[i].
    WithKeyPrefix(e[..j], i + 1, CountOf, v);
    assert e[..j][..i + 1] == e[..i + 1];
    var upto := e[..i + 1];
    WithKeyAt(upto, i, CountOf, v);
    assert upto[..i] == e[..i] && upto[i + 1..] == [];
    assert pa < pb;
    p, q := WithKeyOrder(Tally(xs), CountOf, v, pa, pb);
  }
}
