/**
 * `build_program` of interactive_recommender.py: query the candidates,
 * generate the raw programs of the chosen template, rank them and keep five.
 */
module Composer {

  import opened Options
  import opened Seqs
  import opened Sorting
  import opened Catalog
  import opened Templates
  import opened TemplateProperties
  import opened Ranking

  /** The period filter applies only to a non-empty period name. */
  predicate PeriodFilterOn(prefs: Preferences)
  {
    prefs.preferredPeriod.Some? && prefs.preferredPeriod.value != ""
  }

  /** The candidate query's WHERE clause. */
  predicate Eligible(p: Piece, prefs: Preferences)
  {
    p.difficultyOverall <= prefs.maxDifficulty
    && (PeriodFilterOn(prefs) ==> p.period == prefs.preferredPeriod.value)
  }

  /** ORDER BY popularity_score DESC, duration_minutes */
  predicate PopularityThenDurationOrder(a: Piece, b: Piece)
  {
    a.popularityScore > b.popularityScore
    || (a.popularityScore == b.popularityScore && a.durationMinutes <= b.durationMinutes)
  }

  lemma {:induction false} PopularityThenDurationOrderIsPreorder()
    ensures TotalPreorder(PopularityThenDurationOrder)
  {
  }

  /** The candidates: every eligible piece, most popular first, shorter first among equally popular. */
  function Candidates(pieces: seq<Piece>, prefs: Preferences): (r: seq<Piece>)
    ensures forall p :: multiset(r)[p] == if Eligible(p, prefs) then multiset(pieces)[p] else 0
    ensures SortedBy(r, PopularityThenDurationOrder)
  {
    var f := (p: Piece) => Eligible(p, prefs);
    PopularityThenDurationOrderIsPreorder();
    var r := Sort(Filter(pieces, f), PopularityThenDurationOrder);
    assert forall p :: multiset(r)[p] == if Eligible(p, prefs) then multiset(pieces)[p] else 0 by {
      forall p ensures multiset(r)[p] == if Eligible(p, prefs) then multiset(pieces)[p] else 0 {
        FilterMultiplicity(pieces, f, p);
      }
    }
    r
  }

  /**
   * The composer proper, for any candidate list: at most five two-piece
   * programs drawn from the candidates, each with its exact total inside the
   * target window, nearest to the window's middle first.
   */
  function Compose(c: seq<Piece>, prefs: Preferences): (r: seq<Program>)
    ensures |r| <= MaxPrograms
    ensures forall p :: p in r ==>
      && |p.pieces| == 2
      && p.totalDuration == p.pieces[0].durationMinutes + p.pieces[1].durationMinutes
      && prefs.targetMin <= p.totalDuration <= prefs.targetMax
      && p.pieces[0] in c && p.pieces[1] in c
    ensures forall i, j :: 0 <= i < j < |r| ==> Distance2(r[i], prefs) <= Distance2(r[j], prefs)
    ensures UniqueIds(c) ==> forall p :: p in r ==> p.pieces[0].pieceId != p.pieces[1].pieceId
  {
    var raw := Generate(c, prefs);
    var r := Rank(raw, prefs);
    assert forall p :: p in r ==> p in raw by {
      forall p | p in r ensures p in raw {
        assert p in multiset(r);
      }
    }
    if UniqueIds(c) then
      NoSelfPairing(c, prefs);
      r
    else r
  }

  /**
   * None exactly when no piece passes the difficulty and period filter (an
   * empty candidate set); otherwise the composed programs, at most five,
   * nearest to the window's middle first, which may be an empty list.
   */
  function BuildProgram(pieces: seq<Piece>, prefs: Preferences): (r: Option<seq<Program>>)
    ensures r.None? <==> forall i :: 0 <= i < |pieces| ==> !Eligible(pieces[i], prefs)
    ensures r.Some? ==> |r.value| <= MaxPrograms
    ensures r.Some? ==> forall i, j :: 0 <= i < j < |r.value| ==> Distance2(r.value[i], prefs) <= Distance2(r.value[j], prefs)
  {
    var c := Candidates(pieces, prefs);
    if |c| == 0 then
      assert forall i :: 0 <= i < |pieces| ==> !Eligible(pieces[i], prefs) by {
        forall i | 0 <= i < |pieces| ensures !Eligible(pieces[i], prefs) {
          assert multiset(c)[pieces[i]] == 0;
        }
      }
      None
    else
      CandidateMember(pieces, prefs, c[0]);
      Some(Compose(c, prefs))
  }

  /**
   * Every program built has two eligible catalog pieces whose durations add
   * up to its total, and that total lies inside the target window.
   */
  lemma {:induction false} BuildProgramPieces(pieces: seq<Piece>, prefs: Preferences)
    ensures var r := BuildProgram(pieces, prefs);
      r.Some? ==> forall p :: p in r.value ==>
        && |p.pieces| == 2
        && p.totalDuration == p.pieces[0].durationMinutes + p.pieces[1].durationMinutes
        && prefs.targetMin <= p.totalDuration <= prefs.targetMax
        && p.pieces[0] in pieces && Eligible(p.pieces[0], prefs)
        && p.pieces[1] in pieces && Eligible(p.pieces[1], prefs)
  {
    var r := BuildProgram(pieces, prefs);
    if r.Some? {
      forall p | p in r.value
        ensures p.pieces[0] in pieces && Eligible(p.pieces[0], prefs)
        ensures p.pieces[1] in pieces && Eligible(p.pieces[1], prefs)
      {
        CandidateMember(pieces, prefs, p.pieces[0]);
        CandidateMember(pieces, prefs, p.pieces[1]);
      }
    }
  }

  /** With distinct piece ids in the catalog, no program pairs a piece with itself. */
  lemma {:induction false} BuildProgramNoSelfPairing(pieces: seq<Piece>, prefs: Preferences)
    requires UniqueIds(pieces)
    ensures var r := BuildProgram(pieces, prefs);
      r.Some? ==> forall p :: p in r.value ==> |p.pieces| == 2 && p.pieces[0].pieceId != p.pieces[1].pieceId
  {
    var c := Candidates(pieces, prefs);
    UniqueIdsSelection(c, pieces);
  }

  /** Every candidate is an eligible catalog piece. */
  lemma {:induction false} CandidateMember(pieces: seq<Piece>, prefs: Preferences, x: Piece)
    requires x in Candidates(pieces, prefs)
    ensures x in pieces && Eligible(x, prefs)
  {
    assert x in multiset(Candidates(pieces, prefs));
  }

  lemma {:induction false} PopularityThenDurationRefinesPopularity(c: seq<Piece>)
    requires SortedBy(c, PopularityThenDurationOrder)
    ensures SortedBy(c, PopularityOrder)
  {
  }

  /**
   * On the queried candidates, template 4's favorites are just the first
   * five candidates: `nlargest` reorders nothing that is already ordered.
   */
  lemma {:induction false} FavoritesAreFirstCandidates(pieces: seq<Piece>, prefs: Preferences)
    ensures Favorites(Candidates(pieces, prefs)) == Take(Candidates(pieces, prefs), FavoritesPairPool)
  {
    var c := Candidates(pieces, prefs);
    PopularityThenDurationRefinesPopularity(c);
    FavoritesOfSorted(c);
  }
}
