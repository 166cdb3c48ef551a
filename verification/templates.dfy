/**
 * The four program templates of `build_program` in interactive_recommender.py.
 * Each turns the candidate list (already filtered and ordered) into raw
 * two-piece programs, before any ranking: bounded loops over the first K
 * rows of a partition, keeping a pair only when its summed duration lies in
 * the target window.
 */
module Templates {

  import opened Options
  import opened Seqs
  import opened Sorting
  import opened Catalog

  /**
   * What the composer is asked for. `structure` selects the template (1 to 4
   * in the interactive flow; any other value selects none). A period of None
   * or "" means no period filter, as Python's truthiness test has it.
   */
  datatype Preferences = Preferences(
    maxDifficulty: int,
    targetMin: int,
    targetMax: int,
    preferredPeriod: Option<string>,
    structure: int)

  /**
   * A proposed concert: its pieces in concert order, their summed duration,
   * the label of the template that produced it and the average
   * difficulty shown to the user.
   */
  datatype Program = Program(pieces: seq<Piece>, totalDuration: int, structure: string, avgDifficulty: real)

  const ShortMaxMinutes := 25
  const LongMinMinutes := 30
  /** Templates 1 and 2 pair among the first 3 rows of each partition. */
  const PairPool := 3
  /** Template 3 looks at the first 5 distinct composers. */
  const ThematicComposers := 5
  /** Template 4 takes the 10 most popular candidates and pairs among the first 5 of them. */
  const FavoritesPool := 10
  const FavoritesPairPool := 5

  const OvertureSymphonyLabel := "Overture + Symphony"
  const MajorWorksLabel := "Two Major Works"
  const FavoritesLabel := "Audience Favorites"

  function ThematicLabel(composer: string): string
  {
    "All " + composer
  }

  predicate Fits(total: int, prefs: Preferences)
  {
    prefs.targetMin <= total <= prefs.targetMax
  }

  /** Overture-length: at most 25 minutes. */
  predicate IsShort(p: Piece)
  {
    p.durationMinutes <= ShortMaxMinutes
  }

  /** Symphony-length: at least 30 minutes. */
  predicate IsLong(p: Piece)
  {
    p.durationMinutes >= LongMinMinutes
  }

  /** The program of two pieces, with the mean of their difficulties. */
  function Pair(a: Piece, b: Piece, name: string): Program
  {
    Program([a, b], a.durationMinutes + b.durationMinutes, name, (a.difficultyOverall + b.difficultyOverall) as real / 2.0)
  }

  /** Whether the loops keep the pair (a, b): ids differ when the template checks them, and the total fits. */
  predicate Admits(a: Piece, b: Piece, distinctIds: bool, prefs: Preferences)
  {
    (!distinctIds || a.pieceId != b.pieceId) && Fits(a.durationMinutes + b.durationMinutes, prefs)
  }

  /** `p` is a kept pair drawn from the pools `xs` (first piece) and `ys` (second piece). */
  predicate FromPools(p: Program, xs: seq<Piece>, ys: seq<Piece>, name: string, distinctIds: bool, prefs: Preferences)
  {
    && |p.pieces| == 2
    && p.pieces[0] in xs && p.pieces[1] in ys
    && Admits(p.pieces[0], p.pieces[1], distinctIds, prefs)
    && p == Pair(p.pieces[0], p.pieces[1], name)
  }

  /** The inner loop: `a` against each of `ys` in turn. */
  function PairRow(a: Piece, ys: seq<Piece>, name: string, distinctIds: bool, prefs: Preferences): (r: seq<Program>)
    ensures |r| <= |ys|
    ensures forall p :: p in r ==> FromPools(p, [a], ys, name, distinctIds, prefs)
    decreases |ys|
  {
    if |ys| == 0 then []
    else
      var rest := PairRow(a, ys[1..], name, distinctIds, prefs);
      assert forall p :: p in rest ==> p.pieces[1] in ys;
      (if Admits(a, ys[0], distinctIds, prefs) then [Pair(a, ys[0], name)] else []) + rest
  }

  /** The nested loops: each of `xs` in turn against each of `ys`, row by row. */
  function PairGrid(xs: seq<Piece>, ys: seq<Piece>, name: string, distinctIds: bool, prefs: Preferences): (r: seq<Program>)
    ensures |r| <= |xs| * |ys|
    ensures forall p :: p in r ==> FromPools(p, xs, ys, name, distinctIds, prefs)
    decreases |xs|
  {
    if |xs| == 0 then []
    else
      var rest := PairGrid(xs[1..], ys, name, distinctIds, prefs);
      assert forall p :: p in rest ==> p.pieces[0] in xs;
      assert |xs| * |ys| == |ys| + (|xs| - 1) * |ys|;
      PairRow(xs[0], ys, name, distinctIds, prefs) + rest
  }

  lemma {:induction false} PairRowComplete(a: Piece, ys: seq<Piece>, name: string, distinctIds: bool, prefs: Preferences, y: Piece)
    requires y in ys && Admits(a, y, distinctIds, prefs)
    ensures Pair(a, y, name) in PairRow(a, ys, name, distinctIds, prefs)
    decreases |ys|
  {
    if ys[0] != y {
      PairRowComplete(a, ys[1..], name, distinctIds, prefs, y);
    }
  }

  /** Every admissible pair from the two pools is generated. */
  lemma {:induction false} PairGridComplete(xs: seq<Piece>, ys: seq<Piece>, name: string, distinctIds: bool, prefs: Preferences, x: Piece, y: Piece)
    requires x in xs && y in ys && Admits(x, y, distinctIds, prefs)
    ensures Pair(x, y, name) in PairGrid(xs, ys, name, distinctIds, prefs)
    decreases |xs|
  {
    if xs[0] == x {
      PairRowComplete(x, ys, name, distinctIds, prefs, y);
    } else {
      PairGridComplete(xs[1..], ys, name, distinctIds, prefs, x, y);
    }
  }

  /** With the id check, a piece of the inner pool is never paired with itself. */
  lemma {:induction false} PairRowSkipsSelf(a: Piece, ys: seq<Piece>, name: string, prefs: Preferences)
    requires a in ys
    ensures |PairRow(a, ys, name, true, prefs)| <= |ys| - 1
    decreases |ys|
  {
    if ys[0] != a {
      PairRowSkipsSelf(a, ys[1..], name, prefs);
    }
  }

  /** Pairing a pool with itself under the id check yields at most n * (n - 1) programs. */
  lemma {:induction false} PairGridSkipsSelf(xs: seq<Piece>, ys: seq<Piece>, name: string, prefs: Preferences)
    requires forall i :: 0 <= i < |xs| ==> xs[i] in ys
    ensures |PairGrid(xs, ys, name, true, prefs)| <= |xs| * (|ys| - 1)
    decreases |xs|
  {
    if |xs| > 0 {
      PairRowSkipsSelf(xs[0], ys, name, prefs);
      PairGridSkipsSelf(xs[1..], ys, name, prefs);
      assert |xs| * (|ys| - 1) == (|ys| - 1) + (|xs| - 1) * (|ys| - 1);
    }
  }

  /** The first `n` rows satisfying `f`: pandas `df[mask].head(n)`. */
  function Pool(c: seq<Piece>, f: Piece -> bool, n: nat): (r: seq<Piece>)
    ensures |r| <= n
    ensures forall x :: x in r ==> x in c && f(x)
  {
    var r := Take(Filter(c, f), n);
    FilterSubMultiset(c, f);
    assert forall x :: x in r ==> x in multiset(Filter(c, f));
    r
  }

  // Template 3: thematic, by composer.

  /** The mask `pieces['composer'] == k`. */
  function ComposedBy(k: string): Piece -> bool
  {
    (p: Piece) => p.composer == k
  }

  /** The distinct composers of `c` in order of first appearance (pandas `unique()`). */
  function Composers(c: seq<Piece>): (r: seq<string>)
    ensures forall k :: k in r <==> exists i :: 0 <= i < |c| && c[i].composer == k
    ensures forall i, j :: 0 <= i < j < |r| ==> r[i] != r[j]
    decreases |c|
  {
    if |c| == 0 then []
    else
      var init := c[..|c| - 1];
      var rest := Composers(init);
      var k := c[|c| - 1].composer;
      assert forall i :: 0 <= i < |init| ==> init[i] == c[i];
      if k in rest then rest else rest + [k]
  }

  function DifficultySum(g: seq<Piece>): int
  {
    if |g| == 0 then 0 else g[0].difficultyOverall + DifficultySum(g[1..])
  }

  /** The arithmetic mean of the difficulties in `g`. */
  function MeanDifficulty(g: seq<Piece>): real
    requires |g| > 0
  {
    DifficultySum(g) as real / |g| as real
  }

  /**
   * The program for composer `k`: its first two candidates, when it has at
   * least two and their total fits. The average is taken over ALL of the
   * composer's candidates, not over the two chosen, as the source does.
   */
  function ThematicFor(c: seq<Piece>, k: string, prefs: Preferences): (r: seq<Program>)
    ensures |r| <= 1
    ensures forall p :: p in r ==>
      && |p.pieces| == 2
      && p.pieces[0] in c && p.pieces[1] in c
      && p.pieces[0].composer == k && p.pieces[1].composer == k
      && p.totalDuration == p.pieces[0].durationMinutes + p.pieces[1].durationMinutes
      && Fits(p.totalDuration, prefs)
      && p.structure == ThematicLabel(k)
  {
    var g := Filter(c, ComposedBy(k));
    if |g| >= 2 && Fits(g[0].durationMinutes + g[1].durationMinutes, prefs) then
      FilterSubMultiset(c, ComposedBy(k));
      assert g[0] in multiset(c) && g[1] in multiset(c);
      [Program([g[0], g[1]], g[0].durationMinutes + g[1].durationMinutes, ThematicLabel(k), MeanDifficulty(g))]
    else []
  }

  /** The loop over the given composers, in order. */
  function ThematicAll(c: seq<Piece>, ks: seq<string>, prefs: Preferences): (r: seq<Program>)
    ensures |r| <= |ks|
    ensures forall p :: p in r ==>
      && |p.pieces| == 2
      && p.pieces[0].composer in ks
      && p in ThematicFor(c, p.pieces[0].composer, prefs)
    decreases |ks|
  {
    if |ks| == 0 then []
    else
      var rest := ThematicAll(c, ks[1..], prefs);
      assert forall p :: p in rest ==> p.pieces[0].composer in ks;
      ThematicFor(c, ks[0], prefs) + rest
  }

  // Template 4: audience favorites.

  /**
   * `pieces.nlargest(10, 'popularity_score').head(5)`: a stable sort by
   * popularity, most popular first, keeps first occurrences ahead on ties.
   */
  function Favorites(c: seq<Piece>): (r: seq<Piece>)
    ensures |r| <= FavoritesPairPool
    ensures multiset(r) <= multiset(c)
    ensures forall p, q :: p in r && q in c && q !in r ==> p.popularityScore >= q.popularityScore
  {
    PopularityOrderIsPreorder();
    var sorted := Sort(c, PopularityOrder);
    var top := Take(sorted, FavoritesPool);
    var r := Take(top, FavoritesPairPool);
    assert multiset(r) <= multiset(sorted) by {
      assert sorted == top + sorted[|top|..];
      assert top == r + top[|r|..];
    }
    assert r == sorted[..|r|];
    SortedPrefixFirst(sorted, |r|, PopularityOrder);
    assert forall q :: q in c ==> q in sorted by {
      forall q | q in c ensures q in sorted {
        assert q in multiset(c);
        assert q in multiset(sorted);
      }
    }
    r
  }

  /** The raw programs of the selected template, in generation order. */
  function Generate(c: seq<Piece>, prefs: Preferences): (r: seq<Program>)
    ensures forall p :: p in r ==>
      && |p.pieces| == 2
      && p.totalDuration == p.pieces[0].durationMinutes + p.pieces[1].durationMinutes
      && Fits(p.totalDuration, prefs)
      && p.pieces[0] in c && p.pieces[1] in c
  {
    if prefs.structure == 1 then
      PairGrid(Pool(c, IsShort, PairPool), Pool(c, IsLong, PairPool), OvertureSymphonyLabel, false, prefs)
    else if prefs.structure == 2 then
      var longs := Pool(c, IsLong, PairPool);
      PairGrid(longs, longs, MajorWorksLabel, true, prefs)
    else if prefs.structure == 3 then
      ThematicAll(c, Take(Composers(c), ThematicComposers), prefs)
    else if prefs.structure == 4 then
      var favorites := Favorites(c);
      assert forall x :: x in favorites ==> x in c by {
        forall x | x in favorites ensures x in c {
          assert x in multiset(favorites);
        }
      }
      PairGrid(favorites, favorites, FavoritesLabel, true, prefs)
    else []
  }
}
