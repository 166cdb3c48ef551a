/**
 * What each template of `build_program` generates, stated without reference
 * to its loops: which candidates may appear, that every admissible pair does
 * appear, how many raw programs there can be, and that no program pairs a
 * piece with itself.
 */
module TemplateProperties {

  import opened Seqs
  import opened Sorting
  import opened Catalog
  import opened Templates

  /**
   * Template 1, "Overture + Symphony": exactly the fitting pairs of one of the
   * first three short candidates and one of the first three long ones; at
   * most 9; the two pieces always differ, as the partitions are disjoint.
   */
  lemma {:induction false} OvertureSymphonyPrograms(c: seq<Piece>, prefs: Preferences)
    requires prefs.structure == 1
    ensures |Generate(c, prefs)| <= 9
    ensures forall p :: p in Generate(c, prefs) ==>
      && p.structure == OvertureSymphonyLabel
      && AmongFirst(c, IsShort, PairPool, p.pieces[0])
      && AmongFirst(c, IsLong, PairPool, p.pieces[1])
      && p.pieces[0] != p.pieces[1]
    ensures forall x, y ::
      AmongFirst(c, IsShort, PairPool, x) && AmongFirst(c, IsLong, PairPool, y)
      && Fits(x.durationMinutes + y.durationMinutes, prefs)
      ==> Pair(x, y, OvertureSymphonyLabel) in Generate(c, prefs)
  {
    var xs, ys := Pool(c, IsShort, PairPool), Pool(c, IsLong, PairPool);
    var g := Generate(c, prefs);
    assert g == PairGrid(xs, ys, OvertureSymphonyLabel, false, prefs);
    assert |xs| * |ys| <= 3 * |ys| <= 9;
    forall p | p in g
      ensures AmongFirst(c, IsShort, PairPool, p.pieces[0]) && AmongFirst(c, IsLong, PairPool, p.pieces[1])
    {
      TakeFilter(c, IsShort, PairPool, p.pieces[0]);
      TakeFilter(c, IsLong, PairPool, p.pieces[1]);
    }
    forall x, y | AmongFirst(c, IsShort, PairPool, x) && AmongFirst(c, IsLong, PairPool, y)
      && Fits(x.durationMinutes + y.durationMinutes, prefs)
      ensures Pair(x, y, OvertureSymphonyLabel) in g
    {
      TakeFilter(c, IsShort, PairPool, x);
      TakeFilter(c, IsLong, PairPool, y);
      PairGridComplete(xs, ys, OvertureSymphonyLabel, false, prefs, x, y);
    }
  }

  /**
   * Template 2, "Two Major Works": exactly the fitting pairs of two of the
   * first three long candidates with different ids; at most 3 * 2 = 6.
   */
  lemma {:induction false} MajorWorksPrograms(c: seq<Piece>, prefs: Preferences)
    requires prefs.structure == 2
    ensures |Generate(c, prefs)| <= 6
    ensures forall p :: p in Generate(c, prefs) ==>
      && p.structure == MajorWorksLabel
      && AmongFirst(c, IsLong, PairPool, p.pieces[0])
      && AmongFirst(c, IsLong, PairPool, p.pieces[1])
      && p.pieces[0].pieceId != p.pieces[1].pieceId
    ensures forall x, y ::
      AmongFirst(c, IsLong, PairPool, x) && AmongFirst(c, IsLong, PairPool, y)
      && x.pieceId != y.pieceId && Fits(x.durationMinutes + y.durationMinutes, prefs)
      ==> Pair(x, y, MajorWorksLabel) in Generate(c, prefs)
  {
    var xs := Pool(c, IsLong, PairPool);
    var g := Generate(c, prefs);
    assert g == PairGrid(xs, xs, MajorWorksLabel, true, prefs);
    PairGridSkipsSelf(xs, xs, MajorWorksLabel, prefs);
    assert |xs| * (|xs| - 1) <= 6 by {
      assert |xs| == 0 || |xs| == 1 || |xs| == 2 || |xs| == 3;
    }
    forall p | p in g
      ensures AmongFirst(c, IsLong, PairPool, p.pieces[0]) && AmongFirst(c, IsLong, PairPool, p.pieces[1])
    {
      TakeFilter(c, IsLong, PairPool, p.pieces[0]);
      TakeFilter(c, IsLong, PairPool, p.pieces[1]);
    }
    forall x, y | AmongFirst(c, IsLong, PairPool, x) && AmongFirst(c, IsLong, PairPool, y)
      && x.pieceId != y.pieceId && Fits(x.durationMinutes + y.durationMinutes, prefs)
      ensures Pair(x, y, MajorWorksLabel) in g
    {
      TakeFilter(c, IsLong, PairPool, x);
      TakeFilter(c, IsLong, PairPool, y);
      PairGridComplete(xs, xs, MajorWorksLabel, true, prefs, x, y);
    }
  }

  /**
   * Template 4, "Audience Favorites": exactly the fitting pairs of two of the
   * five favorites with different ids; at most 5 * 4 = 20.
   */
  lemma {:induction false} FavoritesPrograms(c: seq<Piece>, prefs: Preferences)
    requires prefs.structure == 4
    ensures |Generate(c, prefs)| <= 20
    ensures forall p :: p in Generate(c, prefs) ==>
      && p.structure == FavoritesLabel
      && p.pieces[0] in Favorites(c) && p.pieces[1] in Favorites(c)
      && p.pieces[0].pieceId != p.pieces[1].pieceId
    ensures forall x, y ::
      x in Favorites(c) && y in Favorites(c)
      && x.pieceId != y.pieceId && Fits(x.durationMinutes + y.durationMinutes, prefs)
      ==> Pair(x, y, FavoritesLabel) in Generate(c, prefs)
  {
    var xs := Favorites(c);
    var g := Generate(c, prefs);
    assert g == PairGrid(xs, xs, FavoritesLabel, true, prefs);
    PairGridSkipsSelf(xs, xs, FavoritesLabel, prefs);
    assert |xs| * (|xs| - 1) <= 20 by {
      assert |xs| == 0 || |xs| == 1 || |xs| == 2 || |xs| == 3 || |xs| == 4 || |xs| == 5;
    }
    forall x, y | x in xs && y in xs && x.pieceId != y.pieceId && Fits(x.durationMinutes + y.durationMinutes, prefs)
      ensures Pair(x, y, FavoritesLabel) in g
    {
      PairGridComplete(xs, xs, FavoritesLabel, true, prefs, x, y);
    }
  }

  /**
   * When the candidates are already ordered most popular first (as the
   * query orders them), the favorites are simply the first five candidates.
   */
  lemma {:induction false} FavoritesOfSorted(c: seq<Piece>)
    requires SortedBy(c, PopularityOrder)
    ensures Favorites(c) == Take(c, FavoritesPairPool)
  {
    SortSorted(c, PopularityOrder);
  }

  /** Template 4's pool on any candidates: min(5, n) pieces, most popular first. */
  lemma {:induction false} FavoritesShape(c: seq<Piece>)
    ensures |Favorites(c)| == if |c| < FavoritesPairPool then |c| else FavoritesPairPool
    ensures SortedBy(Favorites(c), PopularityOrder)
  {
    PopularityOrderIsPreorder();
    var sorted := Sort(c, PopularityOrder);
    assert Favorites(c) == sorted[..|Favorites(c)|];
    SortedPrefix(sorted, |Favorites(c)|, PopularityOrder);
  }

  lemma {:induction false} ThematicAllComplete(c: seq<Piece>, ks: seq<string>, prefs: Preferences, k: string)
    requires k in ks && |ThematicFor(c, k, prefs)| == 1
    ensures ThematicFor(c, k, prefs)[0] in ThematicAll(c, ks, prefs)
    decreases |ks|
  {
    if ks[0] != k {
      ThematicAllComplete(c, ks[1..], prefs, k);
    }
  }

  /** One thematic program: the first two candidates of its composer, averaged over the whole group. */
  lemma {:induction false} ThematicProgram(c: seq<Piece>, k: string, prefs: Preferences, p: Program)
    requires p in ThematicFor(c, k, prefs)
    ensures var group := Filter(c, ComposedBy(k));
      && |group| >= 2
      && IsNth(c, ComposedBy(k), 0, p.pieces[0])
      && IsNth(c, ComposedBy(k), 1, p.pieces[1])
      && p.avgDifficulty == MeanDifficulty(group)
  {
    var group := Filter(c, ComposedBy(k));
    assert p == Program([group[0], group[1]], group[0].durationMinutes + group[1].durationMinutes, ThematicLabel(k), MeanDifficulty(group));
    FilterNth(c, ComposedBy(k), 0);
    FilterNth(c, ComposedBy(k), 1);
  }

  /**
   * Template 3, thematic: each program belongs to one of the first five
   * distinct composers, has that composer's first two candidates, is
   * labelled "All <composer>", and averages the difficulty over all of the
   * composer's candidates. A composer with fewer than two candidates
   * contributes nothing. At most 5.
   */
  lemma {:induction false} ThematicPrograms(c: seq<Piece>, prefs: Preferences)
    requires prefs.structure == 3
    ensures |Generate(c, prefs)| <= 5
    ensures forall p :: p in Generate(c, prefs) ==>
      var k := p.pieces[0].composer;
      var group := Filter(c, ComposedBy(k));
      && k in Take(Composers(c), ThematicComposers)
      && |group| >= 2
      && IsNth(c, ComposedBy(k), 0, p.pieces[0])
      && IsNth(c, ComposedBy(k), 1, p.pieces[1])
      && p.structure == ThematicLabel(k)
      && p.avgDifficulty == MeanDifficulty(group)
  {
    var ks := Take(Composers(c), ThematicComposers);
    var g := Generate(c, prefs);
    assert g == ThematicAll(c, ks, prefs);
    forall p | p in g
      ensures var k := p.pieces[0].composer;
        && |Filter(c, ComposedBy(k))| >= 2
        && IsNth(c, ComposedBy(k), 0, p.pieces[0])
        && IsNth(c, ComposedBy(k), 1, p.pieces[1])
        && p.avgDifficulty == MeanDifficulty(Filter(c, ComposedBy(k)))
    {
      ThematicProgram(c, p.pieces[0].composer, prefs, p);
    }
  }

  /**
   * Template 3, the other direction: each of the first five composers with at
   * least two candidates whose first two fit the window gets its program.
   */
  lemma {:induction false} ThematicComposerIncluded(c: seq<Piece>, prefs: Preferences, k: string)
    requires prefs.structure == 3
    requires k in Take(Composers(c), ThematicComposers)
    requires |Filter(c, ComposedBy(k))| >= 2
    requires Fits(Filter(c, ComposedBy(k))[0].durationMinutes + Filter(c, ComposedBy(k))[1].durationMinutes, prefs)
    ensures exists p :: p in Generate(c, prefs) && p.structure == ThematicLabel(k)
  {
    var ks := Take(Composers(c), ThematicComposers);
    assert Generate(c, prefs) == ThematicAll(c, ks, prefs);
    ThematicAllComplete(c, ks, prefs, k);
    assert ThematicFor(c, k, prefs)[0] in Generate(c, prefs);
  }

  /** `x` occurs in `c` before any candidate by composer `y`. */
  ghost predicate AppearsBefore(c: seq<Piece>, x: string, y: string)
  {
    exists a :: 0 <= a < |c| && c[a].composer == x && forall b :: 0 <= b <= a ==> c[b].composer != y
  }

  /** The distinct composers are listed in the order of their first candidates, as `unique()` lists them. */
  lemma {:induction false} ComposersInOrder(c: seq<Piece>)
    ensures forall i, j :: 0 <= i < j < |Composers(c)| ==> AppearsBefore(c, Composers(c)[i], Composers(c)[j])
    decreases |c|
  {
    if |c| > 0 {
      var init := c[..|c| - 1];
      var rest := Composers(init);
      var k := c[|c| - 1].composer;
      ComposersInOrder(init);
      assert forall b :: 0 <= b < |init| ==> init[b] == c[b];
      forall x, y | AppearsBefore(init, x, y) ensures AppearsBefore(c, x, y) {
        var a :| 0 <= a < |init| && init[a].composer == x && forall b :: 0 <= b <= a ==> init[b].composer != y;
        assert forall b :: 0 <= b <= a ==> c[b].composer != y;
      }
      if k !in rest {
        var r := rest + [k];
        forall i | 0 <= i < |rest| ensures AppearsBefore(c, r[i], k) {
          assert rest[i] in rest;
          var a :| 0 <= a < |init| && init[a].composer == rest[i];
          forall b | 0 <= b <= a ensures c[b].composer != k {
            assert init[b].composer in rest;
          }
        }
      }
    }
  }

  /** Any other structure value selects no template. */
  lemma {:induction false} NoTemplate(c: seq<Piece>, prefs: Preferences)
    requires !(1 <= prefs.structure <= 4)
    ensures Generate(c, prefs) == []
  {
  }

  /** Two elements that are each the `k`-th match for different `k` sit at different positions. */
  lemma {:induction false} DifferentRanksDifferentIds(c: seq<Piece>, f: Piece -> bool, x: Piece, y: Piece)
    requires UniqueIds(c) && IsNth(c, f, 0, x) && IsNth(c, f, 1, y)
    ensures x.pieceId != y.pieceId
  {
    var i :| 0 <= i < |c| && c[i] == x && f(x) && |Filter(c[..i], f)| == 0;
    var j :| 0 <= j < |c| && c[j] == y && f(y) && |Filter(c[..j], f)| == 1;
    assert i != j;
  }

  /**
   * No program pairs a piece with itself, when candidate ids are unique as
   * the table's primary key makes them. Templates 2 and 4 check ids; in
   * template 1 the partitions are disjoint; template 3 takes two different
   * rows.
   */
  lemma {:induction false} NoSelfPairing(c: seq<Piece>, prefs: Preferences)
    requires UniqueIds(c)
    ensures forall p :: p in Generate(c, prefs) ==> p.pieces[0].pieceId != p.pieces[1].pieceId
  {
    var g := Generate(c, prefs);
    if prefs.structure == 1 {
      OvertureSymphonyPrograms(c, prefs);
      forall p | p in g ensures p.pieces[0].pieceId != p.pieces[1].pieceId {
        var i :| 0 <= i < |c| && c[i] == p.pieces[0];
        var j :| 0 <= j < |c| && c[j] == p.pieces[1];
        assert i != j;
      }
    } else if prefs.structure == 2 {
      MajorWorksPrograms(c, prefs);
    } else if prefs.structure == 3 {
      ThematicPrograms(c, prefs);
      forall p | p in g ensures p.pieces[0].pieceId != p.pieces[1].pieceId {
        var k := p.pieces[0].composer;
        DifferentRanksDifferentIds(c, ComposedBy(k), p.pieces[0], p.pieces[1]);
      }
    } else if prefs.structure == 4 {
      FavoritesPrograms(c, prefs);
    }
  }
}
