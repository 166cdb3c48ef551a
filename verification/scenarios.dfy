/**
 * Worked examples of the composer on small catalogs: an overture and a
 * symphony that fit the window, a composer with a single candidate, and a
 * difficulty limit that no piece meets.
 */
module Scenarios {

  import opened Options
  import opened Seqs
  import opened Catalog
  import opened Templates
  import opened Ranking
  import opened Composer

  const Opener := Piece(1, "Overture", "Rossini", "Romantic", 8, 4, 5, "")
  const Symphony := Piece(2, "Symphony", "Mahler", "Romantic", 85, 5, 4, "")

  /**
   * A short piece of 8 minutes and a long one of 85, a window of 45 to 95
   * minutes and the overture-plus-symphony template: exactly one program,
   * the pair in that order, lasting 93 minutes.
   */
  lemma {:induction false} OvertureSymphonyExample()
    ensures Compose([Opener, Symphony], Preferences(5, 45, 95, None, 1))
      == [Program([Opener, Symphony], 93, OvertureSymphonyLabel, 4.5)]
  {
    var c := [Opener, Symphony];
    var prefs := Preferences(5, 45, 95, None, 1);
    assert c[1..] == [Symphony];
    assert c[1..][1..] == [];
    FilterCons(c, IsShort);
    FilterCons(c, IsLong);
    FilterCons(c[1..], IsShort);
    FilterCons(c[1..], IsLong);
    assert Filter(c, IsShort) == [Opener];
    assert Filter(c, IsLong) == [Symphony];
    var raw := Generate(c, prefs);
    assert raw == [Program([Opener, Symphony], 93, OvertureSymphonyLabel, 4.5)];
    var r := Rank(raw, prefs);
    assert |r| == 1 && r[0] in multiset(raw);
  }

  const Eroica := Piece(3, "Eroica", "Beethoven", "Classical", 33, 4, 5, "")

  /** A composer with a single candidate yields no thematic program. */
  lemma {:induction false} LoneComposerExample()
    ensures Compose([Eroica], Preferences(5, 60, 90, None, 3)) == []
  {
    var c := [Eroica];
    var prefs := Preferences(5, 60, 90, None, 3);
    assert c[1..] == [];
    assert Composers(c) == ["Beethoven"];
    assert Filter(c, ComposedBy("Beethoven")) == [Eroica];
    assert Generate(c, prefs) == [];
  }

  /** A difficulty limit no piece meets: no candidates, so no result at all. */
  lemma {:induction false} NoCandidatesExample()
    ensures BuildProgram([Opener, Symphony], Preferences(1, 45, 95, None, 1)) == None
  {
  }
}
