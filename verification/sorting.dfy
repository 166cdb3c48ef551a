/**
 * A stable insertion sort under a comparator, standing in for SQL ORDER BY
 * and for Python's `list.sort`. The comparator `le(a, b)` means "a may come
 * before b"; it must be a total preorder, so distinct values can tie.
 */
module Sorting {

  ghost predicate TotalPreorder<T(!new)>(le: (T, T) -> bool)
  {
    && (forall a, b :: le(a, b) || le(b, a))
    && (forall a, b, c :: le(a, b) && le(b, c) ==> le(a, c))
  }

  predicate SortedBy<T>(s: seq<T>, le: (T, T) -> bool)
  {
    forall i, j :: 0 <= i < j < |s| ==> le(s[i], s[j])
  }

  /** The elements of `s` that `le` ranks level with `x`, in their order in `s`. */
  function Ties<T>(s: seq<T>, le: (T, T) -> bool, x: T): seq<T>
  {
    if |s| == 0 then []
    else (if le(s[0], x) && le(x, s[0]) then [s[0]] else []) + Ties(s[1..], le, x)
  }

  /** Inserts `x` into sorted `s` after every element that may precede it. */
  function Insert<T(!new)>(x: T, s: seq<T>, le: (T, T) -> bool): (r: seq<T>)
    requires TotalPreorder(le) && SortedBy(s, le)
    ensures multiset(r) == multiset(s) + multiset{x}
    ensures SortedBy(r, le)
  {
    if |s| == 0 then [x]
    else if le(s[0], x) then
      var rest := Insert(x, s[1..], le);
      assert forall j :: 0 <= j < |rest| ==> le(s[0], rest[j]) by {
        forall j | 0 <= j < |rest| ensures le(s[0], rest[j]) {
          var y := rest[j];
          assert y in multiset(rest);
          if y != x {
            assert y in multiset(s[1..]);
            var k :| 0 <= k < |s[1..]| && s[1..][k] == y;
            assert s[k + 1] == y;
          }
        }
      }
      var r := [s[0]] + rest;
      assert SortedBy(r, le) by {
        forall i, j | 0 <= i < j < |r| ensures le(r[i], r[j]) {
          assert r[j] == rest[j - 1];
          if i > 0 {
            assert r[i] == rest[i - 1];
          }
        }
      }
      assert multiset(r) == multiset(s) + multiset{x} by {
        assert s == [s[0]] + s[1..];
      }
      r
    else
      var r := [x] + s;
      assert SortedBy(r, le) by {
        forall i, j | 0 <= i < j < |r| ensures le(r[i], r[j]) {
          assert r[j] == s[j - 1];
          if i > 0 {
            assert r[i] == s[i - 1];
          } else if j > 1 {
            assert le(s[0], s[j - 1]);
          }
        }
      }
      r
  }

  function Sort<T(!new)>(s: seq<T>, le: (T, T) -> bool): (r: seq<T>)
    requires TotalPreorder(le)
    ensures multiset(r) == multiset(s)
    ensures |r| == |s|
    ensures SortedBy(r, le)
  {
    if |s| == 0 then []
    else
      assert s == s[..|s| - 1] + [s[|s| - 1]];
      var r := Insert(s[|s| - 1], Sort(s[..|s| - 1], le), le);
      assert |multiset(r)| == |multiset(s)|;
      r
  }

  lemma {:induction false} TiesAppend<T>(a: seq<T>, b: seq<T>, le: (T, T) -> bool, x: T)
    ensures Ties(a + b, le, x) == Ties(a, le, x) + Ties(b, le, x)
    decreases |a|
  {
    if |a| > 0 {
      assert (a + b)[1..] == a[1..] + b;
      TiesAppend(a[1..], b, le, x);
    } else {
      assert a + b == b;
    }
  }

  lemma {:induction false} NoTies<T>(s: seq<T>, le: (T, T) -> bool, x: T)
    requires forall i :: 0 <= i < |s| ==> !(le(s[i], x) && le(x, s[i]))
    ensures Ties(s, le, x) == []
    decreases |s|
  {
    if |s| > 0 {
      NoTies(s[1..], le, x);
    }
  }

  /** Inserting `x` puts it after every element already level with it. */
  lemma {:induction false} InsertTies<T(!new)>(x: T, s: seq<T>, le: (T, T) -> bool, y: T)
    requires TotalPreorder(le) && SortedBy(s, le)
    ensures Ties(Insert(x, s, le), le, y) == Ties(s, le, y) + Ties([x], le, y)
    decreases |s|
  {
    if |s| == 0 {
      assert Insert(x, s, le) == [x];
      assert s + [x] == [x];
    } else if le(s[0], x) {
      InsertTies(x, s[1..], le, y);
      InsertTiesStep(x, s, le, y);
    } else {
      InsertTiesFront(x, s, le, y);
    }
  }

  /** When `x` may follow the head of `s`, the head stays in front. */
  lemma {:induction false} InsertHead<T(!new)>(x: T, s: seq<T>, le: (T, T) -> bool)
    requires TotalPreorder(le) && SortedBy(s, le) && |s| > 0 && le(s[0], x)
    ensures Insert(x, s, le) == [s[0]] + Insert(x, s[1..], le)
  {
  }

  lemma {:induction false} InsertTiesStep<T(!new)>(x: T, s: seq<T>, le: (T, T) -> bool, y: T)
    requires TotalPreorder(le) && SortedBy(s, le) && |s| > 0 && le(s[0], x)
    requires Ties(Insert(x, s[1..], le), le, y) == Ties(s[1..], le, y) + Ties([x], le, y)
    ensures Ties(Insert(x, s, le), le, y) == Ties(s, le, y) + Ties([x], le, y)
  {
    InsertHead(x, s, le);
    TiesBehindHead(Insert(x, s, le), s, Insert(x, s[1..], le), le, [x], y);
  }

  /** If `r` is `s` with its tail's ties extended by those of `e`, so are `r`'s. */
  lemma {:induction false} TiesBehindHead<T>(r: seq<T>, s: seq<T>, rest: seq<T>, le: (T, T) -> bool, e: seq<T>, y: T)
    requires |s| > 0 && r == [s[0]] + rest
    requires Ties(rest, le, y) == Ties(s[1..], le, y) + Ties(e, le, y)
    ensures Ties(r, le, y) == Ties(s, le, y) + Ties(e, le, y)
  {
    var h, a, b := Ties([s[0]], le, y), Ties(s[1..], le, y), Ties(e, le, y);
    assert Ties(r, le, y) == h + (a + b) by {
      TiesAppend([s[0]], rest, le, y);
    }
    assert Ties(s, le, y) == h + a by {
      assert s == [s[0]] + s[1..];
      TiesAppend([s[0]], s[1..], le, y);
    }
    assert h + (a + b) == (h + a) + b;
  }

  lemma {:induction false} InsertTiesFront<T(!new)>(x: T, s: seq<T>, le: (T, T) -> bool, y: T)
    requires TotalPreorder(le) && SortedBy(s, le) && |s| > 0 && !le(s[0], x)
    ensures Ties(Insert(x, s, le), le, y) == Ties(s, le, y) + Ties([x], le, y)
  {
    assert Insert(x, s, le) == [x] + s;
    TiesAppend([x], s, le, y);
    if le(x, y) && le(y, x) {
      LaterNotLevel(x, s, le, y);
      NoTies(s, le, y);
      assert Ties([x], le, y) == [x];
    } else {
      assert Ties([x], le, y) == [];
    }
  }

  /** When `x` may not follow the head of sorted `s`, nothing in `s` is level with `x`. */
  lemma {:induction false} LaterNotLevel<T(!new)>(x: T, s: seq<T>, le: (T, T) -> bool, y: T)
    requires TotalPreorder(le) && SortedBy(s, le)
    requires |s| > 0 && !le(s[0], x) && le(x, y) && le(y, x)
    ensures forall i :: 0 <= i < |s| ==> !(le(s[i], y) && le(y, s[i]))
  {
  }

  /** Sorting is stable: elements that tie keep their relative order. */
  lemma {:induction false} SortStable<T(!new)>(s: seq<T>, le: (T, T) -> bool, y: T)
    requires TotalPreorder(le)
    ensures Ties(Sort(s, le), le, y) == Ties(s, le, y)
    decreases |s|
  {
    if |s| > 0 {
      var init := s[..|s| - 1];
      var last := s[|s| - 1];
      var sorted := Sort(init, le);
      assert Ties(Sort(s, le), le, y) == Ties(sorted, le, y) + Ties([last], le, y) by {
        assert Sort(s, le) == Insert(last, sorted, le);
        InsertTies(last, sorted, le, y);
      }
      assert Ties(sorted, le, y) == Ties(init, le, y) by {
        SortStable(init, le, y);
      }
      assert Ties(s, le, y) == Ties(init, le, y) + Ties([last], le, y) by {
        assert s == init + [last];
        TiesAppend(init, [last], le, y);
      }
    }
  }

  lemma {:induction false} InsertAfterAll<T(!new)>(x: T, s: seq<T>, le: (T, T) -> bool)
    requires TotalPreorder(le) && SortedBy(s, le)
    requires forall i :: 0 <= i < |s| ==> le(s[i], x)
    ensures Insert(x, s, le) == s + [x]
    decreases |s|
  {
    if |s| > 0 {
      InsertAfterAll(x, s[1..], le);
      assert s == [s[0]] + s[1..];
    }
  }

  /** Sorting an already sorted sequence leaves it as it is. */
  lemma {:induction false} SortSorted<T(!new)>(s: seq<T>, le: (T, T) -> bool)
    requires TotalPreorder(le) && SortedBy(s, le)
    ensures Sort(s, le) == s
    decreases |s|
  {
    if |s| > 0 {
      var init, last := s[..|s| - 1], s[|s| - 1];
      assert Sort(init, le) == init by {
        SortedPrefix(s, |s| - 1, le);
        SortSorted(init, le);
      }
      assert Insert(last, init, le) == s by {
        SortedPrefix(s, |s| - 1, le);
        assert forall i :: 0 <= i < |init| ==> le(init[i], last) by {
          forall i | 0 <= i < |init| ensures le(init[i], last) {
            assert init[i] == s[i];
          }
        }
        InsertAfterAll(last, init, le);
        assert s == init + [last];
      }
    }
  }

  /** A prefix of a sorted sequence is sorted. */
  lemma {:induction false} SortedPrefix<T>(s: seq<T>, n: nat, le: (T, T) -> bool)
    requires n <= |s| && SortedBy(s, le)
    ensures SortedBy(s[..n], le)
  {
    forall i, j | 0 <= i < j < n ensures le(s[..n][i], s[..n][j]) {
      assert s[..n][i] == s[i] && s[..n][j] == s[j];
    }
  }

  /** The ties among the first `n` elements are a prefix of all the ties. */
  lemma {:induction false} TiesPrefix<T>(s: seq<T>, n: nat, le: (T, T) -> bool, y: T)
    requires n <= |s|
    ensures Ties(s[..n], le, y) <= Ties(s, le, y)
  {
    assert s == s[..n] + s[n..];
    TiesAppend(s[..n], s[n..], le, y);
  }

  /** Whatever a sorted prefix leaves out may not precede anything it keeps. */
  lemma {:induction false} SortedPrefixFirst<T>(s: seq<T>, n: nat, le: (T, T) -> bool)
    requires SortedBy(s, le) && n <= |s|
    ensures forall p, q :: p in s[..n] && q in s && q !in s[..n] ==> le(p, q)
  {
    forall p, q | p in s[..n] && q in s && q !in s[..n] ensures le(p, q) {
      var i :| 0 <= i < n && s[..n][i] == p;
      var j :| 0 <= j < |s| && s[j] == q;
      assert j >= n;
      assert s[i] == p;
    }
  }

  /** The first `n` of a stable sort keep, for each tie class, a prefix of it in input order. */
  lemma {:induction false} SortPrefixStable<T(!new)>(s: seq<T>, n: nat, le: (T, T) -> bool, x: T)
    requires TotalPreorder(le) && n <= |s|
    ensures Ties(Sort(s, le)[..n], le, x) <= Ties(s, le, x)
  {
    SortStable(s, le, x);
    TiesPrefix(Sort(s, le), n, le, x);
  }
}
