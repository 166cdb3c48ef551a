/**
 * The fixed answer tables of the interactive questionnaire: skill level to
 * difficulty limit, concert length to target window, period choice to period
 * name. Prompting and re-prompting are not modelled; an answer outside a
 * table's keys gives no preferences.
 */
module Choices {

  import opened Options
  import opened Templates
  import opened Composer

  /** Skill level 1 to 4 to the highest difficulty allowed. */
  function DifficultyForSkill(skill: int): (r: Option<int>)
    ensures r.Some? <==> 1 <= skill <= 4
    ensures r.Some? ==> r.value == (if skill <= 2 then 4 else 5)
  {
    if skill == 1 then Some(4)
    else if skill == 2 then Some(4)
    else if skill == 3 then Some(5)
    else if skill == 4 then Some(5)
    else None
  }

  /** Concert length 1 to 3 to the target window in minutes. */
  function WindowForChoice(choice: int): (r: Option<(int, int)>)
    ensures r.Some? <==> 1 <= choice <= 3
    ensures r.Some? ==> 45 <= r.value.0 < r.value.1 <= 120
  {
    if choice == 1 then Some((45, 60))
    else if choice == 2 then Some((75, 90))
    else if choice == 3 then Some((90, 120))
    else None
  }

  /** Period choice 1 to 5 to a period name; 5 means no preference. */
  function PeriodForChoice(choice: int): (r: Option<Option<string>>)
    ensures r.Some? <==> 1 <= choice <= 5
    ensures r.Some? ==> (r.value.None? <==> choice == 5)
    ensures r.Some? && r.value.Some? ==> r.value.value != ""
  {
    if choice == 1 then Some(Some("Classical/Romantic"))
    else if choice == 2 then Some(Some("Late Romantic"))
    else if choice == 3 then Some(Some("20th Century"))
    else if choice == 4 then Some(Some("Modern"))
    else if choice == 5 then Some(None)
    else None
  }

  /** The preferences the questionnaire hands to the composer, when every answer is accepted. */
  function PreferencesFor(skill: int, length: int, period: int, structure: int): (r: Option<Preferences>)
    ensures r.Some? <==> 1 <= skill <= 4 && 1 <= length <= 3 && 1 <= period <= 5 && 1 <= structure <= 4
    ensures r.Some? ==>
      && r.value.structure == structure
      && 4 <= r.value.maxDifficulty <= 5
      && r.value.targetMin < r.value.targetMax
      && (PeriodFilterOn(r.value) <==> period != 5)
    ensures r.Some? ==> r.value.maxDifficulty == (if skill <= 2 then 4 else 5)
    ensures r.Some? ==> WindowForChoice(length) == Some((r.value.targetMin, r.value.targetMax))
    ensures r.Some? ==> PeriodForChoice(period) == Some(r.value.preferredPeriod)
  {
    var d := DifficultyForSkill(skill);
    var w := WindowForChoice(length);
    var p := PeriodForChoice(period);
    if d.Some? && w.Some? && p.Some? && 1 <= structure <= 4 then
      Some(Preferences(d.value, w.value.0, w.value.1, p.value, structure))
    else None
  }

  /** A more skilled orchestra is never offered a lower difficulty limit. */
  lemma {:induction false} DifficultyMonotone(s: int, t: int)
    requires 1 <= s <= t <= 4
    ensures DifficultyForSkill(s).value <= DifficultyForSkill(t).value
  {
  }

  /** The three length windows overlap at most at their ends, in increasing order. */
  lemma {:induction false} WindowsOrdered(a: int, b: int)
    requires 1 <= a < b <= 3
    ensures WindowForChoice(a).value.1 <= WindowForChoice(b).value.0
  {
  }
}
