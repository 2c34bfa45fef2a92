/**
 * The array operations the screens are written with (`filter`, `find`,
 * `reduce`, `slice(0, n)`), as functions on sequences, with the facts about
 * them that the screen-level lemmas rely on.
 */
module Lists {
  import opened Wrappers

  /** `s.filter(p)`: the elements satisfying `p`, in their original order. */
  function Filter<T>(s: seq<T>, p: T -> bool): (r: seq<T>)
    ensures |r| <= |s|
    ensures forall x :: x in r ==> x in s && p(x)
    ensures forall x :: x in s && p(x) ==> x in r
  {
    if s == [] then []
    else (if p(s[0]) then [s[0]] else []) + Filter(s[1..], p)
  }

  /** `a` can be obtained from `b` by deleting elements (order is kept). */
  predicate SubseqOf<T(==)>(a: seq<T>, b: seq<T>)
    decreases |b|
  {
    a == [] || (b != [] && ((a[0] == b[0] && SubseqOf(a[1..], b[1..])) || SubseqOf(a, b[1..])))
  }

  /** The elements of `s`, ranked by `key`, never go up. */
  predicate NonIncreasing<T>(s: seq<T>, key: T -> int) {
    forall i, j :: 0 <= i < j < |s| ==> key(s[i]) >= key(s[j])
  }

  /** `s.findIndex(p)` with -1 rendered as `None`. */
  function FindIndex<T>(s: seq<T>, p: T -> bool): (r: Option<nat>)
    ensures r.Some? ==> r.value < |s| && p(s[r.value]) && forall j :: 0 <= j < r.value ==> !p(s[j])
    ensures r.None? ==> forall j :: 0 <= j < |s| ==> !p(s[j])
  {
    if s == [] then None
    else if p(s[0]) then Some(0)
    else match FindIndex(s[1..], p)
      case None => None
      case Some(k) => Some(k + 1)
  }

  /** `s.find(p)`: the first element satisfying `p`, if any. */
  function Find<T>(s: seq<T>, p: T -> bool): (r: Option<T>)
    ensures r.Some? ==> exists i :: 0 <= i < |s| && s[i] == r.value && p(s[i]) && forall j :: 0 <= j < i ==> !p(s[j])
    ensures r.None? <==> forall x :: x in s ==> !p(x)
  {
    match FindIndex(s, p)
    case None => None
    case Some(i) => Some(s[i])
  }

  /** `s.reduce((acc, x) => acc + f(x), 0)`. */
  function Sum<T>(s: seq<T>, f: T -> int): (r: int)
    ensures (forall x :: x in s ==> f(x) >= 0) ==> r >= 0
  {
    if s == [] then 0 else f(s[0]) + Sum(s[1..], f)
  }

  /** `s.slice(0, n)`: at most the first `n` elements. */
  function Take<T>(s: seq<T>, n: nat): (r: seq<T>)
    ensures |r| == if n < |s| then n else |s|
    ensures forall i :: 0 <= i < |r| ==> r[i] == s[i]
  {
    if n < |s| then s[..n] else s
  }

  lemma {:induction false} FilterAppend<T>(a: seq<T>, b: seq<T>, p: T -> bool)
    ensures Filter(a + b, p) == Filter(a, p) + Filter(b, p)
    decreases |a|
  {
    if a == [] {
      assert a + b == b;
    } else {
      assert (a + b)[0] == a[0];
      assert (a + b)[1..] == a[1..] + b;
      FilterAppend(a[1..], b, p);
    }
  }

  /** A filtered list is an order-preserving subsequence of the list. */
  lemma {:induction false} FilterIsSubseq<T>(s: seq<T>, p: T -> bool)
    ensures SubseqOf(Filter(s, p), s)
    decreases |s|
  {
    if s != [] {
      FilterIsSubseq(s[1..], p);
      if p(s[0]) {
        assert Filter(s, p) == [s[0]] + Filter(s[1..], p);
        assert Filter(s, p)[1..] == Filter(s[1..], p);
      } else {
        assert Filter(s, p) == Filter(s[1..], p);
      }
    }
  }

  /** Filtering with a stronger test keeps a subsequence of filtering with a weaker one. */
  lemma {:induction false} FilterMonotone<T>(s: seq<T>, p: T -> bool, q: T -> bool)
    requires forall i :: 0 <= i < |s| && p(s[i]) ==> q(s[i])
    ensures SubseqOf(Filter(s, p), Filter(s, q))
    decreases |s|
  {
    if s != [] {
      assert forall i :: 0 <= i < |s[1..]| && p(s[1..][i]) ==> q(s[1..][i]) by {
        forall i | 0 <= i < |s[1..]| && p(s[1..][i]) ensures q(s[1..][i]) {
          assert s[1..][i] == s[i + 1];
        }
      }
      FilterMonotone(s[1..], p, q);
      var fp, fq := Filter(s[1..], p), Filter(s[1..], q);
      if p(s[0]) {
        assert Filter(s, p) == [s[0]] + fp && Filter(s, q) == [s[0]] + fq;
        assert Filter(s, p)[1..] == fp && Filter(s, q)[1..] == fq;
      } else if q(s[0]) {
        assert Filter(s, p) == fp && Filter(s, q) == [s[0]] + fq;
        assert Filter(s, q)[1..] == fq;
        SubseqDropFront(fp, Filter(s, q));
      } else {
        assert Filter(s, p) == fp && Filter(s, q) == fq;
      }
    }
  }

  /** A subsequence of `b[1..]` is a subsequence of `b`. */
  lemma SubseqDropFront<T>(a: seq<T>, b: seq<T>)
    requires b != [] && SubseqOf(a, b[1..])
    ensures SubseqOf(a, b)
  {
  }

  /** Every element of a subsequence occurs in the whole. */
  lemma {:induction false} SubseqElements<T>(a: seq<T>, b: seq<T>)
    requires SubseqOf(a, b)
    ensures forall x :: x in a ==> x in b
    decreases |b|
  {
    if a != [] {
      if a[0] == b[0] && SubseqOf(a[1..], b[1..]) {
        SubseqElements(a[1..], b[1..]);
        assert forall x :: x in a ==> x == a[0] || x in a[1..];
      } else {
        SubseqElements(a, b[1..]);
      }
    }
  }

  /** An order-preserving subsequence of a ranked list is still ranked. */
  lemma {:induction false} SubseqKeepsOrder<T>(a: seq<T>, b: seq<T>, key: T -> int)
    requires SubseqOf(a, b) && NonIncreasing(b, key)
    ensures NonIncreasing(a, key)
    decreases |b|
  {
    if a != [] {
      assert NonIncreasing(b[1..], key) by {
        forall i, j | 0 <= i < j < |b[1..]| ensures key(b[1..][i]) >= key(b[1..][j]) {
          assert b[1..][i] == b[i + 1] && b[1..][j] == b[j + 1];
        }
      }
      if a[0] == b[0] && SubseqOf(a[1..], b[1..]) {
        SubseqKeepsOrder(a[1..], b[1..], key);
        SubseqElements(a[1..], b[1..]);
        forall i, j | 0 <= i < j < |a| ensures key(a[i]) >= key(a[j]) {
          if i == 0 {
            assert a[j] == a[1..][j - 1];
            assert a[j] in b[1..];
            var k :| 0 <= k < |b[1..]| && b[1..][k] == a[j];
            assert b[k + 1] == a[j];
          } else {
            assert a[i] == a[1..][i - 1] && a[j] == a[1..][j - 1];
          }
        }
      } else {
        SubseqKeepsOrder(a, b[1..], key);
      }
    }
  }

  /** Filtering by a test and by its complement splits the list. */
  lemma {:induction false} FilterPartition<T>(s: seq<T>, p: T -> bool, q: T -> bool)
    requires forall x :: q(x) == !p(x)
    ensures multiset(Filter(s, p)) + multiset(Filter(s, q)) == multiset(s)
    ensures |Filter(s, p)| + |Filter(s, q)| == |s|
    decreases |s|
  {
    if s != [] {
      FilterPartition(s[1..], p, q);
      assert s == [s[0]] + s[1..];
    }
  }

  /** `filter` comes back empty exactly when no element satisfies the predicate. */
  lemma FilterEmptyIff<T>(s: seq<T>, p: T -> bool)
    ensures Filter(s, p) == [] <==> forall x :: x in s ==> !p(x)
  {
    if Filter(s, p) != [] {
      assert Filter(s, p)[0] in Filter(s, p);
    }
  }

  /** Filtering a one-element list keeps that element iff it passes. */
  lemma FilterSingle<T>(x: T, p: T -> bool)
    ensures Filter([x], p) == if p(x) then [x] else []
  {
    assert [x][1..] == [];
  }

  /** When exactly the element at `k` passes, filtering keeps one element. */
  lemma {:induction false} FilterOnlyOne<T>(s: seq<T>, p: T -> bool, k: nat)
    requires k < |s| && p(s[k])
    requires forall i :: 0 <= i < |s| && i != k ==> !p(s[i])
    ensures |Filter(s, p)| == 1
    decreases |s|
  {
    var t := s[1..];
    if k == 0 {
      forall i | 0 <= i < |t| ensures !p(t[i]) {
        assert t[i] == s[i + 1];
      }
      FilterKeepsNone(t, p);
    } else {
      forall i | 0 <= i < |t| && i != k - 1 ensures !p(t[i]) {
        assert t[i] == s[i + 1];
      }
      FilterOnlyOne(t, p, k - 1);
    }
  }

  /** When every element passes, filtering keeps the whole list. */
  lemma {:induction false} FilterKeepsAll<T>(s: seq<T>, p: T -> bool)
    requires forall i :: 0 <= i < |s| ==> p(s[i])
    ensures Filter(s, p) == s
    decreases |s|
  {
    if s != [] {
      var t := s[1..];
      forall i | 0 <= i < |t| ensures p(t[i]) {
        assert t[i] == s[i + 1];
      }
      FilterKeepsAll(t, p);
      assert p(s[0]);
      assert Filter(s, p) == [s[0]] + Filter(t, p);
      assert s == [s[0]] + t;
    }
  }

  /** When no element passes, filtering keeps nothing. */
  lemma FilterKeepsNone<T>(s: seq<T>, p: T -> bool)
    requires forall i :: 0 <= i < |s| ==> !p(s[i])
    ensures Filter(s, p) == []
  {
  }
}
