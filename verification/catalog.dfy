/**
 * The catalog and its query layer (class OrchestraRecommender in
 * recommender.py). The SQLite tables become in-memory sequences of rows; each
 * accessor is the rows a WHERE clause keeps, in the order its ORDER BY asks
 * for. SQL leaves the order of rows with equal sort keys unspecified, so the
 * contracts promise only "these rows, sorted by these keys"; the bodies pick
 * one such order (a stable sort of the table order).
 */
module Catalog {

  import opened Text
  import opened Seqs
  import opened Sorting

  /** A row of the `pieces` table. Nullable columns are modelled as always present. */
  datatype Piece = Piece(
    pieceId: int,
    title: string,
    composer: string,
    period: string,
    durationMinutes: int,
    difficultyOverall: int,
    popularityScore: int,
    notes: string)

  /** A row of the `instrumentation` table: one part that a piece needs. */
  datatype Instrumentation = Instrumentation(
    pieceId: int,
    instrument: string,
    quantityRequired: int,
    difficultyRating: int,
    hasSolo: bool)

  // Sort keys, each a total preorder ("a may come before b").

  /** ORDER BY composer */
  predicate ComposerOrder(a: Piece, b: Piece)
  {
    StrLe(a.composer, b.composer)
  }

  /** ORDER BY popularity_score DESC, composer */
  predicate PopularityThenComposerOrder(a: Piece, b: Piece)
  {
    a.popularityScore > b.popularityScore
    || (a.popularityScore == b.popularityScore && StrLe(a.composer, b.composer))
  }

  /** ORDER BY duration_minutes */
  predicate DurationOrder(a: Piece, b: Piece)
  {
    a.durationMinutes <= b.durationMinutes
  }

  /** ORDER BY popularity_score DESC */
  predicate PopularityOrder(a: Piece, b: Piece)
  {
    a.popularityScore >= b.popularityScore
  }

  /** ORDER BY instrument */
  predicate InstrumentOrder(a: Instrumentation, b: Instrumentation)
  {
    StrLe(a.instrument, b.instrument)
  }

  lemma {:induction false} ComposerOrderIsPreorder()
    ensures TotalPreorder(ComposerOrder)
  {
    forall a: Piece, b: Piece ensures ComposerOrder(a, b) || ComposerOrder(b, a) {
      StrLeTotal(a.composer, b.composer);
    }
    forall a: Piece, b: Piece, c: Piece | ComposerOrder(a, b) && ComposerOrder(b, c)
      ensures ComposerOrder(a, c)
    {
      StrLeTransitive(a.composer, b.composer, c.composer);
    }
  }

  lemma {:induction false} PopularityThenComposerOrderIsPreorder()
    ensures TotalPreorder(PopularityThenComposerOrder)
  {
    forall a: Piece, b: Piece
      ensures PopularityThenComposerOrder(a, b) || PopularityThenComposerOrder(b, a)
    {
      StrLeTotal(a.composer, b.composer);
    }
    forall a: Piece, b: Piece, c: Piece
      | PopularityThenComposerOrder(a, b) && PopularityThenComposerOrder(b, c)
      ensures PopularityThenComposerOrder(a, c)
    {
      if a.popularityScore == b.popularityScore == c.popularityScore {
        StrLeTransitive(a.composer, b.composer, c.composer);
      }
    }
  }

  lemma {:induction false} PopularityOrderIsPreorder()
    ensures TotalPreorder(PopularityOrder)
  {
  }

  lemma {:induction false} InstrumentOrderIsPreorder()
    ensures TotalPreorder(InstrumentOrder)
  {
    forall a: Instrumentation, b: Instrumentation
      ensures InstrumentOrder(a, b) || InstrumentOrder(b, a)
    {
      StrLeTotal(a.instrument, b.instrument);
    }
    forall a: Instrumentation, b: Instrumentation, c: Instrumentation
      | InstrumentOrder(a, b) && InstrumentOrder(b, c)
      ensures InstrumentOrder(a, c)
    {
      StrLeTransitive(a.instrument, b.instrument, c.instrument);
    }
  }

  /** Every piece, by composer. */
  function GetAllPieces(pieces: seq<Piece>): (r: seq<Piece>)
    ensures multiset(r) == multiset(pieces)
    ensures SortedBy(r, ComposerOrder)
  {
    ComposerOrderIsPreorder();
    Sort(pieces, ComposerOrder)
  }

  /** The pieces at or below a difficulty, most popular first, then by composer. */
  function FilterByDifficulty(pieces: seq<Piece>, maxDifficulty: int): (r: seq<Piece>)
    ensures forall p :: multiset(r)[p] == if p.difficultyOverall <= maxDifficulty then multiset(pieces)[p] else 0
    ensures SortedBy(r, PopularityThenComposerOrder)
  {
    var f := (p: Piece) => p.difficultyOverall <= maxDifficulty;
    PopularityThenComposerOrderIsPreorder();
    var r := Sort(Filter(pieces, f), PopularityThenComposerOrder);
    assert forall p :: multiset(r)[p] == if p.difficultyOverall <= maxDifficulty then multiset(pieces)[p] else 0 by {
      forall p ensures multiset(r)[p] == if p.difficultyOverall <= maxDifficulty then multiset(pieces)[p] else 0 {
        FilterMultiplicity(pieces, f, p);
      }
    }
    r
  }

  const DefaultMinDuration := 0
  const DefaultMaxDuration := 100

  /** The pieces whose duration lies in [minDuration, maxDuration], both ends included, shortest first. */
  function FilterByDuration(pieces: seq<Piece>, minDuration: int := DefaultMinDuration, maxDuration: int := DefaultMaxDuration): (r: seq<Piece>)
    ensures forall p :: multiset(r)[p] == if minDuration <= p.durationMinutes <= maxDuration then multiset(pieces)[p] else 0
    ensures SortedBy(r, DurationOrder)
  {
    var f := (p: Piece) => minDuration <= p.durationMinutes <= maxDuration;
    var r := Sort(Filter(pieces, f), DurationOrder);
    assert forall p :: multiset(r)[p] == if minDuration <= p.durationMinutes <= maxDuration then multiset(pieces)[p] else 0 by {
      forall p ensures multiset(r)[p] == if minDuration <= p.durationMinutes <= maxDuration then multiset(pieces)[p] else 0 {
        FilterMultiplicity(pieces, f, p);
      }
    }
    r
  }

  /** The pieces of exactly one period, by composer. */
  function FilterByPeriod(pieces: seq<Piece>, period: string): (r: seq<Piece>)
    ensures forall p :: multiset(r)[p] == if p.period == period then multiset(pieces)[p] else 0
    ensures SortedBy(r, ComposerOrder)
  {
    var f := (p: Piece) => p.period == period;
    ComposerOrderIsPreorder();
    var r := Sort(Filter(pieces, f), ComposerOrder);
    assert forall p :: multiset(r)[p] == if p.period == period then multiset(pieces)[p] else 0 by {
      forall p ensures multiset(r)[p] == if p.period == period then multiset(pieces)[p] else 0 {
        FilterMultiplicity(pieces, f, p);
      }
    }
    r
  }

  /**
   * The instrumentation rows of one piece, by instrument. Duplicate rows for
   * the same instrument are kept.
   */
  function GetPieceInstrumentation(rows: seq<Instrumentation>, pieceId: int): (r: seq<Instrumentation>)
    ensures forall q :: multiset(r)[q] == if q.pieceId == pieceId then multiset(rows)[q] else 0
    ensures SortedBy(r, InstrumentOrder)
  {
    var f := (q: Instrumentation) => q.pieceId == pieceId;
    InstrumentOrderIsPreorder();
    var r := Sort(Filter(rows, f), InstrumentOrder);
    assert forall q :: multiset(r)[q] == if q.pieceId == pieceId then multiset(rows)[q] else 0 by {
      forall q ensures multiset(r)[q] == if q.pieceId == pieceId then multiset(rows)[q] else 0 {
        FilterMultiplicity(rows, f, q);
      }
    }
    r
  }

  /** A piece with no instrumentation rows (or an unknown id) gets an empty result, not an error. */
  lemma {:induction false} NoInstrumentationIsEmpty(rows: seq<Instrumentation>, pieceId: int)
    requires forall i :: 0 <= i < |rows| ==> rows[i].pieceId != pieceId
    ensures GetPieceInstrumentation(rows, pieceId) == []
  {
  }

  /** No two rows share an id, as the PRIMARY KEY on piece_id guarantees. */
  predicate UniqueIds(pieces: seq<Piece>)
  {
    forall i, j :: 0 <= i < |pieces| && 0 <= j < |pieces| && i != j ==> pieces[i].pieceId != pieces[j].pieceId
  }

  /** Under unique ids no row occurs twice. */
  lemma {:induction false} UniqueIdsNoRepeats(b: seq<Piece>, x: Piece)
    requires UniqueIds(b)
    ensures multiset(b)[x] <= 1
    decreases |b|
  {
    if |b| > 0 {
      var init := b[..|b| - 1];
      var last := b[|b| - 1];
      assert b == init + [last];
      assert forall k :: 0 <= k < |init| ==> init[k] == b[k];
      UniqueIdsNoRepeats(init, x);
      forall k | 0 <= k < |init| ensures init[k] != last {
        assert b[k].pieceId != b[|b| - 1].pieceId;
      }
    }
  }

  lemma {:induction false} RepeatCount<T>(a: seq<T>, i: nat, j: nat)
    requires i < j < |a| && a[i] == a[j]
    ensures multiset(a)[a[i]] >= 2
  {
    assert a == a[..j] + a[j..];
    assert a[i] == a[..j][i];
    assert a[j] == a[j..][0];
  }

  /** Any selection of rows from a table with unique ids has unique ids. */
  lemma {:induction false} UniqueIdsSelection(a: seq<Piece>, b: seq<Piece>)
    requires multiset(a) <= multiset(b) && UniqueIds(b)
    ensures UniqueIds(a)
  {
    forall i, j | 0 <= i < |a| && 0 <= j < |a| && i != j
      ensures a[i].pieceId != a[j].pieceId
    {
      assert a[i] in multiset(b) && a[j] in multiset(b);
      var k :| 0 <= k < |b| && b[k] == a[i];
      var l :| 0 <= l < |b| && b[l] == a[j];
      if a[i] == a[j] {
        if i < j { RepeatCount(a, i, j); } else { RepeatCount(a, j, i); }
        UniqueIdsNoRepeats(b, a[i]);
      }
    }
  }
}
