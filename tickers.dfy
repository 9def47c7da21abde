/** `sorted(tickers)`: both batch drivers visit the ticker symbols in Python's
    order on `str`, lexicographic by code point with a proper prefix first. */
module Tickers {

  predicate LexLe(a: string, b: string)
  {
    a == [] || (b != [] && (a[0] < b[0] || (a[0] == b[0] && LexLe(a[1..], b[1..]))))
  }

  lemma {:induction false} LexLeTotal(a: string, b: string)
    ensures LexLe(a, b) || LexLe(b, a)
  {
    if a != [] && b != [] && a[0] == b[0] {
      LexLeTotal(a[1..], b[1..]);
    }
  }

  lemma {:induction false} LexLeTransitive(a: string, b: string, c: string)
    requires LexLe(a, b) && LexLe(b, c)
    ensures LexLe(a, c)
  {
    if a != [] && b != [] && c != [] && a[0] == b[0] && b[0] == c[0] {
      LexLeTransitive(a[1..], b[1..], c[1..]);
    }
  }

  lemma {:induction false} LexLeAntisymmetric(a: string, b: string)
    requires LexLe(a, b) && LexLe(b, a)
    ensures a == b
  {
    if a != [] && b != [] {
      LexLeAntisymmetric(a[1..], b[1..]);
      assert a == [a[0]] + a[1..] && b == [b[0]] + b[1..];
    }
  }

  predicate Sorted(s: seq<string>)
  {
    forall i, j :: 0 <= i < j < |s| ==> LexLe(s[i], s[j])
  }

  /** No symbol occurs twice. */
  predicate DistinctTickers(s: seq<string>)
  {
    forall i, j :: 0 <= i < j < |s| ==> s[i] != s[j]
  }

  lemma ConsSorted(x: string, s: seq<string>)
    requires Sorted(s)
    requires forall y :: y in s ==> LexLe(x, y)
    ensures Sorted([x] + s)
  {
    forall i, j | 0 <= i < j < |[x] + s|
      ensures LexLe(([x] + s)[i], ([x] + s)[j])
    {
      if i > 0 {
        assert ([x] + s)[i] == s[i - 1] && ([x] + s)[j] == s[j - 1];
      } else {
        assert ([x] + s)[j] in s;
      }
    }
  }

  /** The head of a sorted sequence is below everything in it. */
  lemma HeadIsLeast(s: seq<string>)
    requires Sorted(s) && s != []
    ensures forall y :: y in s ==> LexLe(s[0], y)
  {
    forall y | y in s
      ensures LexLe(s[0], y)
    {
      var k :| 0 <= k < |s| && s[k] == y;
      if k == 0 {
        LexLeTotal(y, y);
      }
    }
  }

  /** Inserts `t` into a sorted sequence in its place. */
  function Insert(t: string, s: seq<string>): (r: seq<string>)
    requires Sorted(s)
    ensures Sorted(r)
    ensures multiset(r) == multiset(s) + multiset{t}
  {
    if s == [] then [t]
    else if LexLe(t, s[0]) then
      HeadIsLeast(s);
      InsertFront(t, s);
      [t] + s
    else
      var rest := Insert(t, s[1..]);
      LexLeTotal(t, s[0]);
      InsertBehind(t, s, rest);
      [s[0]] + rest
  }

  lemma InsertFront(t: string, s: seq<string>)
    requires Sorted(s) && s != [] && LexLe(t, s[0])
    requires forall y :: y in s ==> LexLe(s[0], y)
    ensures Sorted([t] + s)
  {
    forall y | y in s
      ensures LexLe(t, y)
    {
      LexLeTransitive(t, s[0], y);
    }
    ConsSorted(t, s);
  }

  lemma InsertBehind(t: string, s: seq<string>, rest: seq<string>)
    requires Sorted(s) && s != [] && LexLe(s[0], t)
    requires Sorted(rest) && multiset(rest) == multiset(s[1..]) + multiset{t}
    ensures Sorted([s[0]] + rest)
    ensures multiset([s[0]] + rest) == multiset(s) + multiset{t}
  {
    HeadIsLeast(s);
    forall y | y in rest
      ensures LexLe(s[0], y)
    {
      assert y in multiset(rest);
      if y != t {
        assert y in multiset(s[1..]);
        assert y in s[1..];
        assert y in s;
      }
    }
    ConsSorted(s[0], rest);
    assert s == [s[0]] + s[1..];
  }

  /** `sorted(tickers)`: the same symbols, each as often, in order. */
  function Sort(s: seq<string>): (r: seq<string>)
    ensures Sorted(r)
    ensures multiset(r) == multiset(s)
  {
    if s == [] then []
    else
      assert s == [s[0]] + s[1..];
      Insert(s[0], Sort(s[1..]))
  }

  lemma DistinctNotInTail(s: seq<string>)
    requires DistinctTickers(s) && s != []
    ensures s[0] !in s[1..]
    ensures DistinctTickers(s[1..])
  {
    forall k | 0 <= k < |s[1..]|
      ensures s[1..][k] != s[0]
    {
      assert s[1..][k] == s[k + 1];
    }
  }

  lemma {:induction false} InsertKeepsDistinct(t: string, s: seq<string>)
    requires Sorted(s) && DistinctTickers(s) && t !in s
    ensures DistinctTickers(Insert(t, s))
  {
    if s != [] && !LexLe(t, s[0]) {
      DistinctNotInTail(s);
      InsertKeepsDistinct(t, s[1..]);
      var rest := Insert(t, s[1..]);
      assert Insert(t, s) == [s[0]] + rest;
      assert t != s[0] && multiset(s[1..])[s[0]] == 0;
      assert multiset(rest)[s[0]] == 0;
    }
  }

  /** Sorting a list of distinct symbols dispatches each of them exactly once. */
  lemma {:induction false} SortKeepsDistinct(s: seq<string>)
    requires DistinctTickers(s)
    ensures DistinctTickers(Sort(s))
  {
    if s != [] {
      DistinctNotInTail(s);
      SortKeepsDistinct(s[1..]);
      assert multiset(s[1..])[s[0]] == 0;
      assert multiset(Sort(s[1..]))[s[0]] == 0;
      InsertKeepsDistinct(s[0], Sort(s[1..]));
    }
  }

  /** The sorted order is the only one: any sorted permutation of `s` is `Sort(s)`. */
  lemma {:induction false} SortIsUnique(s: seq<string>, r: seq<string>)
    requires Sorted(r) && multiset(r) == multiset(s)
    ensures r == Sort(s)
  {
    SortedPermutationsEqual(r, Sort(s));
  }

  lemma TailMultiset(s: seq<string>)
    requires s != []
    ensures multiset(s[1..]) == multiset(s) - multiset{s[0]}
  {
    assert s == [s[0]] + s[1..];
  }

  lemma {:induction false} SortedPermutationsEqual(a: seq<string>, b: seq<string>)
    requires Sorted(a) && Sorted(b) && multiset(a) == multiset(b)
    ensures a == b
  {
    if a != [] {
      SortedHeadsEqual(a, b);
      TailMultiset(a);
      TailMultiset(b);
      SortedPermutationsEqual(a[1..], b[1..]);
      assert a == [a[0]] + a[1..] && b == [b[0]] + b[1..];
    } else {
      assert |multiset(b)| == 0;
    }
  }

  /** Two sorted permutations of each other start with the same symbol. */
  lemma SortedHeadsEqual(a: seq<string>, b: seq<string>)
    requires Sorted(a) && Sorted(b) && multiset(a) == multiset(b) && a != []
    ensures b != [] && a[0] == b[0]
  {
    assert a[0] in multiset(b);
    assert b[0] in multiset(a);
    HeadIsLeast(a);
    HeadIsLeast(b);
    LexLeAntisymmetric(a[0], b[0]);
  }
}
