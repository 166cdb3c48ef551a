/**
 * The last step of `build_program`: order the raw programs by how far their
 * total lies from the middle of the target window, keeping generation order
 * on ties (Python's sort is stable), and keep the first five.
 */
module Ranking {

  import opened Seqs
  import opened Sorting
  import opened Templates

  const MaxPrograms := 5

  /**
   * Twice the source's distance |total - (min + max) / 2|. Doubling keeps it
   * an exact integer and changes neither the order nor the ties.
   */
  function Distance2(p: Program, prefs: Preferences): nat
  {
    var d := 2 * p.totalDuration - (prefs.targetMin + prefs.targetMax);
    if d < 0 then -d else d
  }

  function RealAbs(x: real): real
  {
    if x < 0.0 then -x else x
  }

  /** The doubled distance is exactly twice the distance to the midpoint. */
  lemma {:induction false} DoubledDistance(p: Program, prefs: Preferences)
    ensures Distance2(p, prefs) as real
      == 2.0 * RealAbs(p.totalDuration as real - (prefs.targetMin + prefs.targetMax) as real / 2.0)
  {
  }

  /** "a is at most as far from the target as b". */
  function DistanceOrder(prefs: Preferences): (Program, Program) -> bool
  {
    (a: Program, b: Program) => Distance2(a, prefs) <= Distance2(b, prefs)
  }

  lemma {:induction false} DistanceOrderIsPreorder(prefs: Preferences)
    ensures TotalPreorder(DistanceOrder(prefs))
  {
  }

  /** The five programs closest to the target, nearest first. */
  function Rank(raw: seq<Program>, prefs: Preferences): (r: seq<Program>)
    ensures |r| == if |raw| < MaxPrograms then |raw| else MaxPrograms
    ensures multiset(r) <= multiset(raw)
    ensures forall i, j :: 0 <= i < j < |r| ==> Distance2(r[i], prefs) <= Distance2(r[j], prefs)
  {
    DistanceOrderIsPreorder(prefs);
    var sorted := Sort(raw, DistanceOrder(prefs));
    var r := Take(sorted, MaxPrograms);
    assert sorted == r + sorted[|r|..];
    r
  }

  /** Nothing left out is nearer to the target than anything kept. */
  lemma {:induction false} RankKeepsNearest(raw: seq<Program>, prefs: Preferences)
    ensures forall p, q ::
      p in Rank(raw, prefs) && q in raw && q !in Rank(raw, prefs) ==> Distance2(p, prefs) <= Distance2(q, prefs)
  {
    var le := DistanceOrder(prefs);
    DistanceOrderIsPreorder(prefs);
    var sorted := Sort(raw, le);
    var r := Rank(raw, prefs);
    assert r == sorted[..|r|];
    SortedPrefixFirst(sorted, |r|, le);
    forall p, q | p in r && q in raw && q !in r
      ensures Distance2(p, prefs) <= Distance2(q, prefs)
    {
      assert q in multiset(sorted);
      assert le(p, q);
    }
  }

  /**
   * Ties keep the order in which they were generated: for every program x,
   * the kept programs exactly as far from the target as x form a prefix, in
   * the same order, of the generated ones that are.
   */
  lemma {:induction false} RankStable(raw: seq<Program>, prefs: Preferences, x: Program)
    ensures Ties(Rank(raw, prefs), DistanceOrder(prefs), x) <= Ties(raw, DistanceOrder(prefs), x)
  {
    var le := DistanceOrder(prefs);
    DistanceOrderIsPreorder(prefs);
    var r := Rank(raw, prefs);
    assert r == Sort(raw, le)[..|r|];
    SortPrefixStable(raw, |r|, le, x);
  }
}
