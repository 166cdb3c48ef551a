/**
 * The simple greedy suggester `suggest_program` of recommender.py: from the
 * pieces at or below a difficulty, most popular first, it proposes at most an
 * "Opener + Symphony" pair and a "Two Medium Works" pair.
 */
module Suggest {

  import opened Options
  import opened Seqs
  import opened Sorting
  import opened Catalog

  /** One proposed program; `balance` is its human-readable kind. */
  datatype Suggestion = Suggestion(totalDuration: int, pieces: seq<Piece>, balance: string)

  const DefaultTargetDuration := 90
  const DefaultMaxDifficulty := 4

  const OpenerLabel := "Opener + Symphony"
  const MediumLabel := "Two Medium Works"

  /** At most 20 minutes. */
  predicate IsOpenerLength(p: Piece)
  {
    p.durationMinutes <= 20
  }

  /** Over 20 and at most 40 minutes. */
  predicate IsMediumLength(p: Piece)
  {
    20 < p.durationMinutes <= 40
  }

  /** Over 30 (a 30-minute piece does not qualify) and at most 50 minutes. */
  predicate IsSymphonyLength(p: Piece)
  {
    30 < p.durationMinutes <= 50
  }

  /** The suggester's query: the pieces at or below `maxDifficulty`, most popular first. */
  function ViablePieces(pieces: seq<Piece>, maxDifficulty: int): (r: seq<Piece>)
    ensures forall p :: multiset(r)[p] == if p.difficultyOverall <= maxDifficulty then multiset(pieces)[p] else 0
    ensures SortedBy(r, PopularityOrder)
  {
    var f := (p: Piece) => p.difficultyOverall <= maxDifficulty;
    PopularityOrderIsPreorder();
    var r := Sort(Filter(pieces, f), PopularityOrder);
    assert forall p :: multiset(r)[p] == if p.difficultyOverall <= maxDifficulty then multiset(pieces)[p] else 0 by {
      forall p ensures multiset(r)[p] == if p.difficultyOverall <= maxDifficulty then multiset(pieces)[p] else 0 {
        FilterMultiplicity(pieces, f, p);
      }
    }
    r
  }

  /** Every viable piece is a catalog piece at or below the difficulty. */
  lemma {:induction false} ViableMember(pieces: seq<Piece>, maxDifficulty: int, x: Piece)
    requires x in ViablePieces(pieces, maxDifficulty)
    ensures x in pieces && x.difficultyOverall <= maxDifficulty
  {
    assert x in multiset(ViablePieces(pieces, maxDifficulty));
  }

  /** The first opener-length piece with the first symphony-length piece, when both exist. */
  function OpenerAndSymphony(viable: seq<Piece>): (r: seq<Suggestion>)
    ensures |r| <= 1
    ensures forall s :: s in r ==>
      && s.balance == OpenerLabel && |s.pieces| == 2
      && s.totalDuration == s.pieces[0].durationMinutes + s.pieces[1].durationMinutes
      && s.pieces[0] in viable && IsOpenerLength(s.pieces[0])
      && s.pieces[1] in viable && IsSymphonyLength(s.pieces[1])
  {
    var openers := Filter(viable, IsOpenerLength);
    var closers := Filter(viable, IsSymphonyLength);
    if |openers| > 0 && |closers| > 0 then
      FilterSubMultiset(viable, IsOpenerLength);
      FilterSubMultiset(viable, IsSymphonyLength);
      assert openers[0] in multiset(viable) && closers[0] in multiset(viable);
      [Suggestion(openers[0].durationMinutes + closers[0].durationMinutes, [openers[0], closers[0]], OpenerLabel)]
    else []
  }

  /** The first two medium-length pieces; the only one twice over when there is just one. */
  function TwoMediumWorks(viable: seq<Piece>): (r: seq<Suggestion>)
    ensures |r| <= 1
    ensures forall s :: s in r ==>
      && s.balance == MediumLabel && |s.pieces| == 2
      && s.totalDuration == s.pieces[0].durationMinutes + s.pieces[1].durationMinutes
      && s.pieces[0] in viable && IsMediumLength(s.pieces[0])
      && s.pieces[1] in viable && IsMediumLength(s.pieces[1])
  {
    var medium := Filter(viable, IsMediumLength);
    if |medium| > 0 then
      var second := if |medium| > 1 then medium[1] else medium[0];
      FilterSubMultiset(viable, IsMediumLength);
      assert medium[0] in multiset(viable) && second in multiset(viable);
      [Suggestion(medium[0].durationMinutes + second.durationMinutes, [medium[0], second], MediumLabel)]
    else []
  }

  /**
   * None exactly when no piece is at or below `maxDifficulty`; otherwise at
   * most two suggestions, each a pair of viable catalog pieces whose total is
   * their summed duration. `targetDuration` takes no part.
   */
  function SuggestProgram(pieces: seq<Piece>, targetDuration: int := DefaultTargetDuration, maxDifficulty: int := DefaultMaxDifficulty): (r: Option<seq<Suggestion>>)
    ensures r.None? <==> forall i :: 0 <= i < |pieces| ==> pieces[i].difficultyOverall > maxDifficulty
    ensures r.Some? ==> |r.value| <= 2
    ensures r.Some? ==> forall s :: s in r.value ==>
      && |s.pieces| == 2
      && s.totalDuration == s.pieces[0].durationMinutes + s.pieces[1].durationMinutes
      && s.pieces[0] in pieces && s.pieces[1] in pieces
      && s.pieces[0].difficultyOverall <= maxDifficulty && s.pieces[1].difficultyOverall <= maxDifficulty
  {
    var viable := ViablePieces(pieces, maxDifficulty);
    if |viable| == 0 then
      assert forall i :: 0 <= i < |pieces| ==> pieces[i].difficultyOverall > maxDifficulty by {
        forall i | 0 <= i < |pieces| ensures pieces[i].difficultyOverall > maxDifficulty {
          assert multiset(viable)[pieces[i]] == 0;
        }
      }
      None
    else
      ViableMember(pieces, maxDifficulty, viable[0]);
      var r := OpenerAndSymphony(viable) + TwoMediumWorks(viable);
      assert forall s :: s in r ==>
        && |s.pieces| == 2 && s.pieces[0] in pieces && s.pieces[1] in pieces
        && s.pieces[0].difficultyOverall <= maxDifficulty && s.pieces[1].difficultyOverall <= maxDifficulty by {
        forall s | s in r
          ensures |s.pieces| == 2
          ensures s.pieces[0] in pieces && s.pieces[1] in pieces
          ensures s.pieces[0].difficultyOverall <= maxDifficulty && s.pieces[1].difficultyOverall <= maxDifficulty
        {
          ViableMember(pieces, maxDifficulty, s.pieces[0]);
          ViableMember(pieces, maxDifficulty, s.pieces[1]);
        }
      }
      Some(r)
  }

  /** The result does not depend on `targetDuration`. */
  lemma {:induction false} TargetDurationIgnored(pieces: seq<Piece>, t1: int, t2: int, maxDifficulty: int)
    ensures SuggestProgram(pieces, t1, maxDifficulty) == SuggestProgram(pieces, t2, maxDifficulty)
  {
  }

  /** Some piece within the difficulty limit leaves the viable list non-empty. */
  lemma {:induction false} ViableNonEmpty(pieces: seq<Piece>, maxDifficulty: int)
    requires exists i :: 0 <= i < |pieces| && pieces[i].difficultyOverall <= maxDifficulty
    ensures |ViablePieces(pieces, maxDifficulty)| > 0
  {
    var i :| 0 <= i < |pieces| && pieces[i].difficultyOverall <= maxDifficulty;
    assert multiset(ViablePieces(pieces, maxDifficulty))[pieces[i]] > 0;
  }

  /** With some piece within the limit, the suggestions are the opener pick followed by the medium pick. */
  lemma {:induction false} SuggestProgramPicks(pieces: seq<Piece>, targetDuration: int, maxDifficulty: int)
    requires exists i :: 0 <= i < |pieces| && pieces[i].difficultyOverall <= maxDifficulty
    ensures var v := ViablePieces(pieces, maxDifficulty);
            SuggestProgram(pieces, targetDuration, maxDifficulty) == Some(OpenerAndSymphony(v) + TwoMediumWorks(v))
  {
    ViableNonEmpty(pieces, maxDifficulty);
  }

  /** The opener pick on a viable list: present exactly when both kinds exist, and the first of each. */
  lemma {:induction false} OpenerAndSymphonyFirsts(v: seq<Piece>)
    ensures |OpenerAndSymphony(v)| == 1
      <==> exists i, j :: 0 <= i < |v| && 0 <= j < |v| && IsOpenerLength(v[i]) && IsSymphonyLength(v[j])
    ensures |OpenerAndSymphony(v)| == 1 ==>
      IsNth(v, IsOpenerLength, 0, OpenerAndSymphony(v)[0].pieces[0])
      && IsNth(v, IsSymphonyLength, 0, OpenerAndSymphony(v)[0].pieces[1])
  {
    var openers := Filter(v, IsOpenerLength);
    var closers := Filter(v, IsSymphonyLength);
    if exists i, j :: 0 <= i < |v| && 0 <= j < |v| && IsOpenerLength(v[i]) && IsSymphonyLength(v[j]) {
      var i, j :| 0 <= i < |v| && 0 <= j < |v| && IsOpenerLength(v[i]) && IsSymphonyLength(v[j]);
      FilterMultiplicity(v, IsOpenerLength, v[i]);
      FilterMultiplicity(v, IsSymphonyLength, v[j]);
      assert v[i] in multiset(openers);
      assert v[j] in multiset(closers);
    }
    if |openers| > 0 && |closers| > 0 {
      FilterNth(v, IsOpenerLength, 0);
      FilterNth(v, IsSymphonyLength, 0);
      assert openers[0] in multiset(v) && closers[0] in multiset(v);
    }
  }

  /** The medium pick on a viable list: the first two medium pieces, or the only one twice. */
  lemma {:induction false} TwoMediumWorksFirsts(v: seq<Piece>)
    ensures |TwoMediumWorks(v)| == 1 <==> exists i :: 0 <= i < |v| && IsMediumLength(v[i])
    ensures |TwoMediumWorks(v)| == 1 ==>
      var s := TwoMediumWorks(v)[0];
      var count := |Filter(v, IsMediumLength)|;
      && IsNth(v, IsMediumLength, 0, s.pieces[0])
      && (count == 1 ==> s.pieces[1] == s.pieces[0])
      && (count > 1 ==> IsNth(v, IsMediumLength, 1, s.pieces[1]))
  {
    var medium := Filter(v, IsMediumLength);
    if exists i :: 0 <= i < |v| && IsMediumLength(v[i]) {
      var i :| 0 <= i < |v| && IsMediumLength(v[i]);
      FilterMultiplicity(v, IsMediumLength, v[i]);
      assert v[i] in multiset(medium);
    }
    if |medium| > 0 {
      FilterNth(v, IsMediumLength, 0);
      assert medium[0] in multiset(v);
      if |medium| > 1 {
        FilterNth(v, IsMediumLength, 1);
      }
    }
  }

  /** The opener pair of a viable list, found among both picks of the suggester. */
  lemma {:induction false} OpenerAmongPicks(v: seq<Piece>)
    ensures var rs := OpenerAndSymphony(v) + TwoMediumWorks(v);
            && ((exists s :: s in rs && s.balance == OpenerLabel)
                <==> exists i, j :: 0 <= i < |v| && 0 <= j < |v| && IsOpenerLength(v[i]) && IsSymphonyLength(v[j]))
            && (forall s :: s in rs && s.balance == OpenerLabel ==>
                  |s.pieces| == 2 && IsNth(v, IsOpenerLength, 0, s.pieces[0]) && IsNth(v, IsSymphonyLength, 0, s.pieces[1]))
  {
    var a, b := OpenerAndSymphony(v), TwoMediumWorks(v);
    assert OpenerLabel != MediumLabel by {
      assert OpenerLabel[0] != MediumLabel[0];
    }
    assert forall s: Suggestion :: s in a + b && s.balance == OpenerLabel ==> s in a by {
      forall s: Suggestion | s in a + b && s.balance == OpenerLabel ensures s in a {
        assert s !in b;
      }
    }
    OpenerAndSymphonyFirsts(v);
    if |a| == 1 {
      assert a[0] in a + b;
    }
  }

  /**
   * "Opener + Symphony" is suggested exactly when some viable piece is at
   * most 20 minutes and some viable piece is over 30 and at most 50; it pairs
   * the first of each in popularity order.
   */
  lemma {:induction false} OpenerAndSymphonyPick(pieces: seq<Piece>, targetDuration: int, maxDifficulty: int)
    requires exists i :: 0 <= i < |pieces| && pieces[i].difficultyOverall <= maxDifficulty
    ensures var r := SuggestProgram(pieces, targetDuration, maxDifficulty);
            var v := ViablePieces(pieces, maxDifficulty);
            && r.Some?
            && ((exists s :: s in r.value && s.balance == OpenerLabel)
                <==> exists i, j :: 0 <= i < |v| && 0 <= j < |v| && IsOpenerLength(v[i]) && IsSymphonyLength(v[j]))
            && (forall s :: s in r.value && s.balance == OpenerLabel ==>
                  |s.pieces| == 2 && IsNth(v, IsOpenerLength, 0, s.pieces[0]) && IsNth(v, IsSymphonyLength, 0, s.pieces[1]))
  {
    var v := ViablePieces(pieces, maxDifficulty);
    SuggestProgramPicks(pieces, targetDuration, maxDifficulty);
    OpenerAmongPicks(v);
  }

  /**
   * "Two Medium Works" is suggested exactly when some viable piece is over 20
   * and at most 40 minutes. It pairs the first two such pieces in popularity
   * order, and the only one with itself when there is just one.
   */
  lemma {:induction false} TwoMediumWorksPick(pieces: seq<Piece>, targetDuration: int, maxDifficulty: int)
    requires exists i :: 0 <= i < |pieces| && pieces[i].difficultyOverall <= maxDifficulty
    ensures var r := SuggestProgram(pieces, targetDuration, maxDifficulty);
            var v := ViablePieces(pieces, maxDifficulty);
            var count := |Filter(v, IsMediumLength)|;
            && r.Some?
            && ((exists s :: s in r.value && s.balance == MediumLabel)
                <==> exists i :: 0 <= i < |v| && IsMediumLength(v[i]))
            && (forall s :: s in r.value && s.balance == MediumLabel ==>
                  && |s.pieces| == 2
                  && IsNth(v, IsMediumLength, 0, s.pieces[0])
                  && (count == 1 ==> s.pieces[1] == s.pieces[0])
                  && (count > 1 ==> IsNth(v, IsMediumLength, 1, s.pieces[1])))
  {
    var r := SuggestProgram(pieces, targetDuration, maxDifficulty);
    var v := ViablePieces(pieces, maxDifficulty);
    var a, b := OpenerAndSymphony(v), TwoMediumWorks(v);
    SuggestProgramPicks(pieces, targetDuration, maxDifficulty);
    assert OpenerLabel != MediumLabel by {
      assert OpenerLabel[0] != MediumLabel[0];
    }
    assert forall s :: s in a ==> s.balance != MediumLabel;
    TwoMediumWorksFirsts(v);
    if |b| == 1 {
      assert b[0] in r.value;
    }
  }
}
