/** Currency arithmetic: two-decimal rounding, guarded division and sums over tables. */
module Money {
  import opened Errors
  import opened Seqs

  /** Python's round(x, 2) on an exact real, halves rounded up. */
  function Round2(x: real): (r: real)
    ensures x - 0.005 < r <= x + 0.005
    ensures (r * 100.0).Floor as real == r * 100.0
  {
    var cents := (x * 100.0 + 0.5).Floor;
    assert cents as real / 100.0 * 100.0 == cents as real;
    cents as real / 100.0
  }

  /** A value already expressed in whole cents is left unchanged by rounding. */
  lemma Round2Cents(k: int)
    ensures Round2(k as real / 100.0) == k as real / 100.0
  {
    var x := k as real / 100.0;
    assert x * 100.0 + 0.5 == k as real + 0.5;
    assert (k as real + 0.5).Floor == k;
  }

  lemma Round2Idempotent(x: real)
    ensures Round2(Round2(x)) == Round2(x)
  {
    var r := Round2(x);
    var k := (r * 100.0).Floor;
    assert r == k as real / 100.0;
    Round2Cents(k);
  }

  /** Division as pandas performs it on a column: no finite value when the divisor is zero. */
  function Ratio(num: real, den: real): (r: Option<real>)
    ensures r.Some? <==> den != 0.0
    ensures r.Some? ==> r.value * den == num
  {
    if den == 0.0 then None else Some(num / den)
  }

  /** The sum of `f` over `s`, accumulated from the first element to the last. */
  function Total<T>(s: seq<T>, f: T -> real): real
    decreases |s|
  {
    if s == [] then 0.0 else Total(s[..|s| - 1], f) + f(s[|s| - 1])
  }

  /** The sum of an integer column. */
  function Count<T>(s: seq<T>, f: T -> int): int
    decreases |s|
  {
    if s == [] then 0 else Count(s[..|s| - 1], f) + f(s[|s| - 1])
  }

  function AsReal<T>(f: T -> int): T -> real {
    x => f(x) as real
  }

  lemma {:induction false} CountAsTotal<T>(s: seq<T>, f: T -> int)
    ensures Count(s, f) as real == Total(s, AsReal(f))
    decreases |s|
  {
    if s != [] {
      CountAsTotal(s[..|s| - 1], f);
    }
  }

  lemma {:induction false} TotalAppend<T>(a: seq<T>, b: seq<T>, f: T -> real)
    ensures Total(a + b, f) == Total(a, f) + Total(b, f)
    decreases |b|
  {
    if b == [] {
      assert a + b == a;
    } else {
      assert (a + b)[..|a + b| - 1] == a + b[..|b| - 1];
      TotalAppend(a, b[..|b| - 1], f);
    }
  }

  lemma {:induction false} TotalPermutation<T>(a: seq<T>, b: seq<T>, f: T -> real)
    requires multiset(a) == multiset(b)
    ensures Total(a, f) == Total(b, f)
    decreases |a|
  {
    if a == [] {
      assert |b| == |multiset(b)| == 0;
      assert b == [];
    } else {
      var x := a[|a| - 1];
      var a' := a[..|a| - 1];
      assert a == a' + [x];
      assert x in multiset(b);
      var j :| 0 <= j < |b| && b[j] == x;
      var b' := b[..j] + b[j + 1..];
      assert b == b[..j] + [x] + b[j + 1..];
      assert multiset(b') == multiset(b) - multiset{x};
      assert multiset(a') == multiset(b');
      TotalPermutation(a', b', f);
      TotalAppend(b[..j], [x], f);
      TotalAppend(b[..j] + [x], b[j + 1..], f);
      TotalAppend(b[..j], b[j + 1..], f);
    }
  }

  function Scaled<T>(f: T -> real, c: real): T -> real {
    x => f(x) * c
  }

  lemma {:induction false} TotalScaled<T>(s: seq<T>, f: T -> real, c: real)
    ensures Total(s, Scaled(f, c)) == Total(s, f) * c
    decreases |s|
  {
    if s != [] {
      TotalScaled(s[..|s| - 1], f, c);
    }
  }

  /** Two columns related row by row through a constant factor have sums related by it too. */
  lemma {:induction false} TotalPointwiseScaled<A, B>(a: seq<A>, b: seq<B>, f: A -> real, g: B -> real, c: real)
    requires |a| == |b|
    requires forall i :: 0 <= i < |a| ==> g(b[i]) == f(a[i]) * c
    ensures Total(b, g) == Total(a, f) * c
    decreases |a|
  {
    if a != [] {
      TotalPointwiseScaled(a[..|a| - 1], b[..|b| - 1], f, g, c);
    }
  }

  /** A column that is row by row the sum of two others sums to the sum of their sums. */
  lemma {:induction false} TotalPointwiseAdd<A, B>(a: seq<A>, b: seq<B>, f: A -> real, g: B -> real, h: B -> real)
    requires |a| == |b|
    requires forall i :: 0 <= i < |a| ==> g(b[i]) == f(a[i]) + h(b[i])
    ensures Total(b, g) == Total(a, f) + Total(b, h)
    decreases |a|
  {
    if a != [] {
      TotalPointwiseAdd(a[..|a| - 1], b[..|b| - 1], f, g, h);
    }
  }

  /** Two columns that differ by at most `e` on every row have sums that differ by at most `e` per row. */
  lemma {:induction false} TotalWithin<T>(s: seq<T>, f: T -> real, g: T -> real, e: real)
    requires forall i :: 0 <= i < |s| ==> -e <= f(s[i]) - g(s[i]) <= e
    ensures -e * |s| as real <= Total(s, f) - Total(s, g) <= e * |s| as real
    decreases |s|
  {
    if s != [] {
      var s' := s[..|s| - 1];
      assert forall i :: 0 <= i < |s'| ==> s'[i] == s[i];
      TotalWithin(s', f, g, e);
      assert e * |s| as real == e * |s'| as real + e;
    }
  }

  /** Summing a column of a mapped sequence is summing the composed column of the original. */
  lemma {:induction false} TotalMapped<A, B>(m: A -> B, s: seq<A>, f: B -> real, g: A -> real)
    requires forall i :: 0 <= i < |s| ==> g(s[i]) == f(m(s[i]))
    ensures Total(MapSeq(m, s), f) == Total(s, g)
    decreases |s|
  {
    if s != [] {
      var s' := s[..|s| - 1];
      assert MapSeq(m, s)[..|s| - 1] == MapSeq(m, s');
      TotalMapped(m, s', f, g);
    }
  }

  /** A filter-sum splits over two disjoint selections whose union is the whole selection. */
  lemma {:induction false} TotalSplit<T(!new)>(s: seq<T>, p: T -> bool, q: T -> bool, r: T -> bool, f: T -> real)
    requires forall i :: 0 <= i < |s| ==> (r(s[i]) <==> p(s[i]) || q(s[i]))
    requires forall i :: 0 <= i < |s| ==> !(p(s[i]) && q(s[i]))
    ensures Total(Filter(s, r), f) == Total(Filter(s, p), f) + Total(Filter(s, q), f)
    decreases |s|
  {
    if s != [] {
      var s', x := s[..|s| - 1], s[|s| - 1];
      TotalSplit(s', p, q, r, f);
    }
  }

  function KeyIs<T, K(==)>(key: T -> K, k: K): T -> bool {
    x => key(x) == k
  }

  function KeyIn<T, K(==)>(key: T -> K, ks: seq<K>): T -> bool {
    x => key(x) in ks
  }

  /** The per-key sums of `f` over `s`, one key of `ks` after another, added up. */
  function KeyedTotal<T(!new), K(==)>(s: seq<T>, key: T -> K, f: T -> real, ks: seq<K>): real
    decreases |ks|
  {
    if ks == [] then 0.0
    else KeyedTotal(s, key, f, ks[..|ks| - 1]) + Total(Filter(s, KeyIs(key, ks[|ks| - 1])), f)
  }

  /** Summing per distinct key gives the sum over every element whose key is among them. */
  lemma {:induction false} KeyedTotalIsTotal<T(!new), K>(s: seq<T>, key: T -> K, f: T -> real, ks: seq<K>)
    requires Distinct(ks)
    ensures KeyedTotal(s, key, f, ks) == Total(Filter(s, KeyIn(key, ks)), f)
    decreases |ks|
  {
    if ks == [] {
      FilterNone(s, KeyIn(key, ks));
    } else {
      var ks', k := ks[..|ks| - 1], ks[|ks| - 1];
      assert ks == ks' + [k];
      assert Distinct(ks') by {
        forall i, j | 0 <= i < j < |ks'| ensures ks'[i] != ks'[j] {
          assert ks'[i] == ks[i] && ks'[j] == ks[j];
        }
      }
      KeyedTotalIsTotal(s, key, f, ks');
      TotalSplit(s, KeyIn(key, ks'), KeyIs(key, k), KeyIn(key, ks), f);
    }
  }
}
