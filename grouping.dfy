/**
 * pandas' groupby on one key column followed by cumsum: the distinct keys in key order,
 * the per-key sums of a column, and running totals over those sums.
 */
module Grouping {
  import opened Seqs
  import opened Money
  import opened Text

  /** The distinct values of `s`, in order of first appearance. */
  function Dedup<K(==, !new)>(s: seq<K>): (r: seq<K>)
    ensures Distinct(r)
    ensures forall x :: x in r <==> x in s
    decreases |s|
  {
    if s == [] then []
    else
      var r := Dedup(s[..|s| - 1]);
      assert s == s[..|s| - 1] + [s[|s| - 1]];
      if s[|s| - 1] in r then r else r + [s[|s| - 1]]
  }

  lemma {:induction false} DistinctAtMostOnce<T>(s: seq<T>, x: T)
    requires Distinct(s)
    ensures multiset(s)[x] <= 1
    decreases |s|
  {
    if s != [] {
      var s', y := s[..|s| - 1], s[|s| - 1];
      assert s == s' + [y];
      assert Distinct(s') by {
        forall i, j | 0 <= i < j < |s'| ensures s'[i] != s'[j] {
          assert s'[i] == s[i] && s'[j] == s[j];
        }
      }
      DistinctAtMostOnce(s', x);
      assert forall i :: 0 <= i < |s'| ==> s'[i] != y by {
        forall i | 0 <= i < |s'| ensures s'[i] != y {
          assert s'[i] == s[i];
        }
      }
      assert y !in multiset(s');
    }
  }

  /** A rearrangement of a sequence without repeats has no repeats. */
  lemma DistinctPermutation<T>(a: seq<T>, b: seq<T>)
    requires multiset(a) == multiset(b) && Distinct(a)
    ensures Distinct(b)
  {
    forall i, j | 0 <= i < j < |b| ensures b[i] != b[j] {
      assert b == b[..j] + b[j..];
      assert b[i] in b[..j] && b[j] in b[j..] by {
        assert b[..j][i] == b[i] && b[j..][0] == b[j];
      }
      assert multiset(b)[b[i]] == multiset(b[..j])[b[i]] + multiset(b[j..])[b[i]];
      DistinctAtMostOnce(a, b[i]);
      assert multiset(b[j..])[b[i]] == 0;
    }
  }

  /** The rows of pandas' groupby on `key`: each key of `s` once, in the order `le`. */
  function GroupKeys<T, K(==, !new)>(s: seq<T>, key: T -> K, le: (K, K) -> bool): (r: seq<K>)
    ensures Distinct(r)
    ensures forall i :: 0 <= i < |s| ==> key(s[i]) in r
    ensures forall k :: k in r ==> k in MapSeq(key, s)
  {
    var keys := MapSeq(key, s);
    var r := Sort(Dedup(keys), le);
    DistinctPermutation(Dedup(keys), r);
    assert forall k :: k in r <==> k in multiset(Dedup(keys));
    assert forall i :: 0 <= i < |s| ==> keys[i] in Dedup(keys);
    r
  }

  lemma GroupKeysSorted<T, K(!new)>(s: seq<T>, key: T -> K, le: (K, K) -> bool)
    requires TotalPreorder(le)
    ensures SortedBy(GroupKeys(s, key, le), le)
  {
    SortSorted(Dedup(MapSeq(key, s)), le);
  }

  /** The sum of `f` over the elements with each key of `ks`: the aggregated column. */
  function KeyTotals<T(!new), K(==)>(s: seq<T>, key: T -> K, f: T -> real, ks: seq<K>): (r: seq<real>)
    ensures |r| == |ks|
    ensures forall i :: 0 <= i < |ks| ==> r[i] == Total(Filter(s, KeyIs(key, ks[i])), f)
    decreases |ks|
  {
    if ks == [] then [] else KeyTotals(s, key, f, ks[..|ks| - 1]) + [Total(Filter(s, KeyIs(key, ks[|ks| - 1])), f)]
  }

  /** The sum of an integer column over the elements with each key of `ks`. */
  function KeyCounts<T(!new), K(==)>(s: seq<T>, key: T -> K, f: T -> int, ks: seq<K>): (r: seq<int>)
    ensures |r| == |ks|
    ensures forall i :: 0 <= i < |ks| ==> r[i] == Count(Filter(s, KeyIs(key, ks[i])), f)
    decreases |ks|
  {
    if ks == [] then [] else KeyCounts(s, key, f, ks[..|ks| - 1]) + [Count(Filter(s, KeyIs(key, ks[|ks| - 1])), f)]
  }

  function Itself(x: real): real {
    x
  }

  function IntItself(x: int): int {
    x
  }

  /** pandas' cumsum, run from a starting balance: each entry adds the next value to the last. */
  function CumFrom(acc: real, xs: seq<real>): (r: seq<real>)
    ensures |r| == |xs|
    decreases |xs|
  {
    if xs == [] then [] else [acc + xs[0]] + CumFrom(acc + xs[0], xs[1..])
  }

  function CumSum(xs: seq<real>): (r: seq<real>)
    ensures |r| == |xs|
  {
    CumFrom(0.0, xs)
  }

  function CumCountFrom(acc: int, xs: seq<int>): (r: seq<int>)
    ensures |r| == |xs|
    decreases |xs|
  {
    if xs == [] then [] else [acc + xs[0]] + CumCountFrom(acc + xs[0], xs[1..])
  }

  function CumCount(xs: seq<int>): (r: seq<int>)
    ensures |r| == |xs|
  {
    CumCountFrom(0, xs)
  }

  /** The i-th running total is the starting balance plus the first i + 1 values. */
  lemma {:induction false} CumFromAt(acc: real, xs: seq<real>, i: int)
    requires 0 <= i < |xs|
    ensures CumFrom(acc, xs)[i] == acc + Total(xs[..i + 1], Itself)
    decreases |xs|
  {
    TotalAppend([xs[0]], xs[1..i + 1], Itself);
    assert xs[..i + 1] == [xs[0]] + xs[1..i + 1];
    assert Total([xs[0]], Itself) == xs[0] by {
      assert [xs[0]][..0] == [];
    }
    if i > 0 {
      CumFromAt(acc + xs[0], xs[1..], i - 1);
      assert xs[1..][..i] == xs[1..i + 1];
    }
  }

  lemma {:induction false} CumCountFromAt(acc: int, xs: seq<int>, i: int)
    requires 0 <= i < |xs|
    ensures CumCountFrom(acc, xs)[i] == acc + Count(xs[..i + 1], IntItself)
    decreases |xs|
  {
    CountAppend([xs[0]], xs[1..i + 1], IntItself);
    assert xs[..i + 1] == [xs[0]] + xs[1..i + 1];
    assert Count([xs[0]], IntItself) == xs[0] by {
      assert [xs[0]][..0] == [];
    }
    if i > 0 {
      CumCountFromAt(acc + xs[0], xs[1..], i - 1);
      assert xs[1..][..i] == xs[1..i + 1];
    }
  }

  lemma {:induction false} CountAppend<T>(a: seq<T>, b: seq<T>, f: T -> int)
    ensures Count(a + b, f) == Count(a, f) + Count(b, f)
    decreases |b|
  {
    if b == [] {
      assert a + b == a;
    } else {
      assert (a + b)[..|a + b| - 1] == a + b[..|b| - 1];
      CountAppend(a, b[..|b| - 1], f);
    }
  }

  /** Adding up the per-key sums gives KeyedTotal. */
  lemma {:induction false} KeyTotalsSum<T(!new), K>(s: seq<T>, key: T -> K, f: T -> real, ks: seq<K>)
    ensures Total(KeyTotals(s, key, f, ks), Itself) == KeyedTotal(s, key, f, ks)
    decreases |ks|
  {
    if ks != [] {
      var front := ks[..|ks| - 1];
      KeyTotalsSum(s, key, f, front);
      assert KeyTotals(s, key, f, ks)[..|ks| - 1] == KeyTotals(s, key, f, front);
    }
  }

  lemma KeyTotalsPrefix<T(!new), K>(s: seq<T>, key: T -> K, f: T -> real, ks: seq<K>, n: int)
    requires 0 <= n <= |ks|
    ensures KeyTotals(s, key, f, ks)[..n] == KeyTotals(s, key, f, ks[..n])
  {
  }

  lemma KeyCountsPrefix<T(!new), K>(s: seq<T>, key: T -> K, f: T -> int, ks: seq<K>, n: int)
    requires 0 <= n <= |ks|
    ensures KeyCounts(s, key, f, ks)[..n] == KeyCounts(s, key, f, ks[..n])
  {
  }

  /** The running total after the i-th key is the sum over every element whose key is among the first i + 1. */
  lemma CumulativeTotal<T(!new), K>(s: seq<T>, key: T -> K, f: T -> real, ks: seq<K>, i: int)
    requires Distinct(ks) && 0 <= i < |ks|
    ensures CumSum(KeyTotals(s, key, f, ks))[i] == Total(Filter(s, KeyIn(key, ks[..i + 1])), f)
  {
    var prefix := ks[..i + 1];
    var totals := KeyTotals(s, key, f, ks);
    CumFromAt(0.0, totals, i);
    KeyTotalsPrefix(s, key, f, ks, i + 1);
    assert totals[..i + 1] == KeyTotals(s, key, f, prefix);
    KeyTotalsSum(s, key, f, prefix);
    DistinctPrefix(ks, i + 1);
    KeyedTotalIsTotal(s, key, f, prefix);
  }

  lemma DistinctPrefix<K>(ks: seq<K>, n: int)
    requires Distinct(ks) && 0 <= n <= |ks|
    ensures Distinct(ks[..n])
  {
    var prefix := ks[..n];
    forall a, b | 0 <= a < b < n ensures prefix[a] != prefix[b] {
      assert prefix[a] == ks[a] && prefix[b] == ks[b];
    }
  }

  /** The integer version: per-key counts added up give the count over the selected elements. */
  lemma CumulativeCount<T(!new), K>(s: seq<T>, key: T -> K, f: T -> int, ks: seq<K>, i: int)
    requires Distinct(ks) && 0 <= i < |ks|
    ensures CumCount(KeyCounts(s, key, f, ks))[i] == Count(Filter(s, KeyIn(key, ks[..i + 1])), f)
  {
    var prefix := ks[..i + 1];
    CumCountFromAt(0, KeyCounts(s, key, f, ks), i);
    KeyCountsPrefix(s, key, f, ks, i + 1);
    KeyCountsAsTotals(s, key, f, prefix);
    KeyTotalsSum(s, key, AsReal(f), prefix);
    DistinctPrefix(ks, i + 1);
    KeyedTotalIsTotal(s, key, AsReal(f), prefix);
    CountAsTotal(Filter(s, KeyIn(key, prefix)), f);
  }

  lemma {:induction false} KeyCountsAsTotals<T(!new), K>(s: seq<T>, key: T -> K, f: T -> int, ks: seq<K>)
    ensures Count(KeyCounts(s, key, f, ks), IntItself) as real == Total(KeyTotals(s, key, AsReal(f), ks), Itself)
    decreases |ks|
  {
    if ks != [] {
      var front := ks[..|ks| - 1];
      KeyCountsAsTotals(s, key, f, front);
      assert KeyCounts(s, key, f, ks)[..|ks| - 1] == KeyCounts(s, key, f, front);
      assert KeyTotals(s, key, AsReal(f), ks)[..|ks| - 1] == KeyTotals(s, key, AsReal(f), front);
      CountAsTotal(Filter(s, KeyIs(key, ks[|ks| - 1])), f);
    }
  }

  function KeyAtMost<T, K>(key: T -> K, le: (K, K) -> bool, k: K): T -> bool {
    x => le(key(x), k)
  }

  /**
   * With sorted distinct keys covering every element, the elements whose key is among the
   * first i + 1 keys are exactly those whose key is at most the i-th.
   */
  lemma PrefixIsAtMost<T(!new), K>(s: seq<T>, key: T -> K, le: (K, K) -> bool, ks: seq<K>, i: int)
    requires Distinct(ks) && SortedBy(ks, le) && AntisymmetricOn(ks, le)
    requires forall j :: 0 <= j < |ks| ==> le(ks[j], ks[j])
    requires forall j :: 0 <= j < |s| ==> key(s[j]) in ks
    requires 0 <= i < |ks|
    ensures Filter(s, KeyIn(key, ks[..i + 1])) == Filter(s, KeyAtMost(key, le, ks[i]))
  {
    var prefix := ks[..i + 1];
    forall j | 0 <= j < |s| ensures KeyIn(key, prefix)(s[j]) <==> KeyAtMost(key, le, ks[i])(s[j]) {
      var m :| 0 <= m < |ks| && ks[m] == key(s[j]);
      InPrefixIffAtMost(le, ks, i, m);
    }
    FilterEquivalent(s, KeyIn(key, prefix), KeyAtMost(key, le, ks[i]));
  }

  /** In sorted distinct keys, a key is among the first i + 1 exactly when it is at most the i-th. */
  lemma InPrefixIffAtMost<K>(le: (K, K) -> bool, ks: seq<K>, i: int, m: int)
    requires Distinct(ks) && SortedBy(ks, le) && AntisymmetricOn(ks, le)
    requires 0 <= i < |ks| && 0 <= m < |ks| && le(ks[m], ks[m])
    ensures ks[m] in ks[..i + 1] <==> le(ks[m], ks[i])
  {
    var prefix := ks[..i + 1];
    if m <= i {
      assert prefix[m] == ks[m];
    } else {
      assert le(ks[i], ks[m]) && ks[i] != ks[m];
      assert !le(ks[m], ks[i]);
      forall a | 0 <= a < i + 1 ensures prefix[a] != ks[m] {
        assert prefix[a] == ks[a];
      }
    }
  }

  /** When every key is among strictly ascending keys, nothing has a key above the last of them. */
  lemma AllAtMostLast<T(!new)>(s: seq<T>, key: T -> int, keys: seq<int>)
    requires |keys| > 0
    requires forall i :: 0 <= i < |s| ==> key(s[i]) in keys
    requires forall i, j :: 0 <= i < j < |keys| ==> keys[i] < keys[j]
    ensures Filter(s, KeyAtMost(key, IntLe, keys[|keys| - 1])) == s
  {
    var top := keys[|keys| - 1];
    forall j | 0 <= j < |s| ensures KeyAtMost(key, IntLe, top)(s[j]) {
      var k :| 0 <= k < |keys| && keys[k] == key(s[j]);
      if k < |keys| - 1 {
        assert keys[k] < top;
      }
    }
    FilterAll(s, KeyAtMost(key, IntLe, top));
  }

  /** Every element's key is at most the greatest key of the groupby. */
  lemma UpToLastKey<T(!new)>(s: seq<T>, key: T -> int)
    requires s != []
    ensures |GroupKeys(s, key, IntLe)| > 0
    ensures Filter(s, KeyAtMost(key, IntLe, GroupKeys(s, key, IntLe)[|GroupKeys(s, key, IntLe)| - 1])) == s
  {
    var ks := GroupKeys(s, key, IntLe);
    assert key(s[0]) in ks;
    IntLeTotalPreorder();
    GroupKeysSorted(s, key, IntLe);
    forall i, j | 0 <= i < j < |ks| ensures ks[i] < ks[j] {
      assert IntLe(ks[i], ks[j]) && ks[i] != ks[j];
    }
    AllAtMostLast(s, key, ks);
  }

  predicate IntLe(a: int, b: int) {
    a <= b
  }

  lemma IntLeTotalPreorder()
    ensures TotalPreorder(IntLe)
  {
  }

  /** Python's `<=` on str orders every pair of strings and is transitive. */
  lemma StrLeTotalPreorder()
    ensures TotalPreorder(StrLe)
  {
    forall a: string, b: string ensures StrLe(a, b) || StrLe(b, a) {
      StrLtTrichotomy(a, b);
    }
    forall a: string, b: string, c: string | StrLe(a, b) && StrLe(b, c) ensures StrLe(a, c) {
      if StrLt(a, b) && StrLt(b, c) {
        StrLtTransitive(a, b, c);
      }
    }
  }

  lemma StrLeAntisymmetric(s: seq<string>)
    ensures AntisymmetricOn(s, StrLe)
  {
    forall i, j | 0 <= i < |s| && 0 <= j < |s| && StrLe(s[i], s[j]) && StrLe(s[j], s[i]) ensures s[i] == s[j] {
      if StrLt(s[i], s[j]) {
        StrLtAsymmetric(s[i], s[j]);
      }
    }
  }

  /** Python's min over a non-empty column of ints. */
  function MinInt(xs: seq<int>): (m: int)
    requires |xs| > 0
    ensures m in xs
    ensures forall i :: 0 <= i < |xs| ==> m <= xs[i]
    decreases |xs|
  {
    if |xs| == 1 then xs[0]
    else
      var m := MinInt(xs[..|xs| - 1]);
      assert forall i :: 0 <= i < |xs| - 1 ==> xs[..|xs| - 1][i] == xs[i];
      if xs[|xs| - 1] < m then xs[|xs| - 1] else m
  }

  /** Python's min over a non-empty column of str. */
  function MinStr(xs: seq<string>): (m: string)
    requires |xs| > 0
    ensures m in xs
    ensures forall i :: 0 <= i < |xs| ==> StrLe(m, xs[i])
    decreases |xs|
  {
    if |xs| == 1 then xs[0]
    else
      var m := MinStr(xs[..|xs| - 1]);
      assert forall i :: 0 <= i < |xs| - 1 ==> xs[..|xs| - 1][i] == xs[i];
      if StrLt(xs[|xs| - 1], m) then
        assert forall i :: 0 <= i < |xs| - 1 ==> StrLe(xs[|xs| - 1], xs[i]) by {
          forall i | 0 <= i < |xs| - 1 ensures StrLe(xs[|xs| - 1], xs[i]) {
            if StrLt(m, xs[i]) {
              StrLtTransitive(xs[|xs| - 1], m, xs[i]);
            }
          }
        }
        xs[|xs| - 1]
      else
        StrLtTrichotomy(xs[|xs| - 1], m);
        m
  }
}
