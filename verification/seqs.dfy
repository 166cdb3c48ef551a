/**
 * Sequence helpers shared by the query layer and the composer: the row
 * filter a SQL WHERE clause or a pandas boolean mask performs, `head(n)`,
 * and the positions of the rows a filter keeps.
 */
module Seqs {

  /** The first `n` elements of `s`, or all of `s` when it is shorter (pandas `head(n)`, Python `[:n]`). */
  function Take<T>(s: seq<T>, n: nat): (r: seq<T>)
    ensures r <= s
    ensures |r| == if n < |s| then n else |s|
  {
    if n < |s| then s[..n] else s
  }

  /** The elements of `s` that satisfy `f`, in their order in `s`. */
  function Filter<T(!new)>(s: seq<T>, f: T -> bool): (r: seq<T>)
    ensures forall i :: 0 <= i < |r| ==> f(r[i])
  {
    if |s| == 0 then []
    else
      assert s == [s[0]] + s[1..];
      (if f(s[0]) then [s[0]] else []) + Filter(s[1..], f)
  }

  lemma {:induction false} FilterAppend<T(!new)>(a: seq<T>, b: seq<T>, f: T -> bool)
    ensures Filter(a + b, f) == Filter(a, f) + Filter(b, f)
    decreases |a|
  {
    if |a| > 0 {
      assert (a + b)[1..] == a[1..] + b;
      FilterAppend(a[1..], b, f);
    } else {
      assert a + b == b;
    }
  }

  /** A filter only drops elements: what it keeps is a sub-multiset of its input. */
  lemma {:induction false} FilterSubMultiset<T(!new)>(s: seq<T>, f: T -> bool)
    ensures multiset(Filter(s, f)) <= multiset(s)
    decreases |s|
  {
    if |s| > 0 {
      assert s == [s[0]] + s[1..];
      FilterSubMultiset(s[1..], f);
    }
  }

  /** A filter keeps every element that satisfies `f` as often as it occurs, and no other. */
  lemma {:induction false} FilterMultiplicity<T(!new)>(s: seq<T>, f: T -> bool, x: T)
    ensures multiset(Filter(s, f))[x] == if f(x) then multiset(s)[x] else 0
    decreases |s|
  {
    if |s| > 0 {
      assert s == [s[0]] + s[1..];
      FilterMultiplicity(s[1..], f, x);
    }
  }

  /**
   * `x` is the `k`-th (counting from 0) element of `s` that satisfies `f`:
   * it sits at a position `i` with exactly `k` such elements before it.
   */
  ghost predicate IsNth<T(!new)>(s: seq<T>, f: T -> bool, k: nat, x: T)
  {
    exists i :: 0 <= i < |s| && s[i] == x && f(x) && |Filter(s[..i], f)| == k
  }

  /** `x` is one of the first `n` elements of `s` that satisfy `f`. */
  ghost predicate AmongFirst<T(!new)>(s: seq<T>, f: T -> bool, n: nat, x: T)
  {
    exists k: nat :: k < n && IsNth(s, f, k, x)
  }

  /** One step of the filter: the head, if it qualifies, then the filtered tail. */
  lemma {:induction false} FilterCons<T(!new)>(s: seq<T>, f: T -> bool)
    requires |s| > 0
    ensures Filter(s, f) == (if f(s[0]) then [s[0]] else []) + Filter(s[1..], f)
  {
  }

  /** Where a kept element came from: the `k`-th kept element is the `k`-th element satisfying `f`. */
  lemma {:induction false} FilterNth<T(!new)>(s: seq<T>, f: T -> bool, k: nat)
    requires k < |Filter(s, f)|
    ensures IsNth(s, f, k, Filter(s, f)[k])
    decreases |s|
  {
    var t := s[1..];
    var x := Filter(s, f)[k];
    FilterCons(s, f);
    if f(s[0]) && k == 0 {
      assert s[..0] == [];
      assert 0 <= 0 < |s| && s[0] == x && f(x) && |Filter(s[..0], f)| == k;
    } else {
      var k' := if f(s[0]) then k - 1 else k;
      assert x == Filter(t, f)[k'];
      FilterNth(t, f, k');
      var i' :| 0 <= i' < |t| && t[i'] == x && f(x) && |Filter(t[..i'], f)| == k';
      var j := i' + 1;
      assert s[..j][1..] == t[..i'];
      FilterCons(s[..j], f);
      assert 0 <= j < |s| && s[j] == x && f(x) && |Filter(s[..j], f)| == k;
    }
  }

  /** Conversely, the `k`-th element satisfying `f` is the `k`-th kept element. */
  lemma {:induction false} FilterNthInverse<T(!new)>(s: seq<T>, f: T -> bool, k: nat, x: T)
    requires IsNth(s, f, k, x)
    ensures k < |Filter(s, f)| && Filter(s, f)[k] == x
    decreases |s|
  {
    var i :| 0 <= i < |s| && s[i] == x && f(x) && |Filter(s[..i], f)| == k;
    FilterCons(s, f);
    if i > 0 {
      var t := s[1..];
      var b := if f(s[0]) then 1 else 0;
      assert s[..i][1..] == t[..i - 1];
      FilterCons(s[..i], f);
      assert 0 <= i - 1 < |t| && t[i - 1] == x && f(x) && |Filter(t[..i - 1], f)| == k - b;
      FilterNthInverse(t, f, k - b, x);
      if f(s[0]) {
        assert Filter(s, f) == [s[0]] + Filter(t, f);
        assert Filter(s, f)[k] == Filter(t, f)[k - 1];
      } else {
        assert Filter(s, f) == [] + Filter(t, f);
        assert Filter(s, f) == Filter(t, f);
      }
    } else {
      assert s[..i] == [];
      assert Filter(s, f) == [x] + Filter(s[1..], f);
    }
  }

  /** Being among the first `n` kept elements is being among the first `n` elements that satisfy `f`. */
  lemma {:induction false} TakeFilter<T(!new)>(s: seq<T>, f: T -> bool, n: nat, x: T)
    ensures x in Take(Filter(s, f), n) <==> AmongFirst(s, f, n, x)
  {
    var r := Filter(s, f);
    if x in Take(r, n) {
      var k :| 0 <= k < |Take(r, n)| && Take(r, n)[k] == x;
      FilterNth(s, f, k);
    }
    if AmongFirst(s, f, n, x) {
      var k: nat :| k < n && IsNth(s, f, k, x);
      FilterNthInverse(s, f, k, x);
      assert Take(r, n)[k] == x;
    }
  }
}
