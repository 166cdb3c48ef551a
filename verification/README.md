# Orchestra repertoire recommender: a Dafny model of its selection logic

The orchestra recommender suggests concert programs from a catalog of
orchestral pieces. Each piece has a composer, a period, a duration in
minutes, an overall difficulty and a popularity score. Some pieces also have
instrumentation rows. This project models three parts of it in Dafny 4.11 and
proves properties of them:

- **The program composer**, `build_program` of
  `interactive_recommender.py`. It takes a difficulty limit, an optional
  period, a target window `[min, max]` in minutes and a template number. It
  queries the eligible candidates, most popular first and shortest first among
  equally popular pieces. Then it generates two-piece programs from one of
  four templates:
  1. Overture + Symphony
  2. Two Major Works
  3. Thematic by composer
  4. Audience Favorites

  It keeps a pair only when the summed duration lies inside the window. It
  ranks the programs by distance from the window's middle, with a stable
  sort, and keeps five.
- **The catalog query layer** of `recommender.py`: `get_all_pieces`,
  `filter_by_difficulty`, `filter_by_duration`, `filter_by_period` and
  `get_piece_instrumentation`, plus the small greedy `suggest_program`.
- **The questionnaire's answer tables**, which turn answers into the
  composer's preferences.

The catalog is an in-memory `seq<Piece>`, and the instrumentation table is a
`seq<Instrumentation>`. A SQL `WHERE … ORDER BY …` becomes a filter followed
by a stable insertion sort under a comparator. SQL leaves the order of rows
with equal sort keys open, so each query's contract states only two things:

- the result holds exactly the matching rows, each as often as in the table;
- the result is ordered by the stated keys.

Strings compare by code point, which is how SQLite's default BINARY collation
orders UTF-8 text.

Distances are doubled: `|2·total − (min + max)|` instead of
`|total − (min + max)/2|`. This keeps them exact integers and changes neither
the order nor the ties. `Ranking.DoubledDistance` proves this.

Modules, in dependency order:

| module | file | contents |
|---|---|---|
| `Options` | options.dfy | `Option` (Python's `None`) |
| `Text` | text.dfy | code-point string order |
| `Seqs` | seqs.dfy | `Take` (`head(n)`), `Filter` (a boolean mask), and the n-th element satisfying a mask |
| `Sorting` | sorting.dfy | the stable insertion sort, and the ties that stability preserves |
| `Catalog` | catalog.dfy | `Piece`, `Instrumentation` and the five catalog queries |
| `Suggest` | suggest.dfy | `suggest_program` |
| `Templates` | templates.dfy | `Preferences`, `Program` and the four templates |
| `TemplateProperties` | template_properties.dfy | what each template generates |
| `Ranking` | ranking.dfy | distance, stable ranking and the top five |
| `Composer` | composer.dfy | the candidate query and `build_program` |
| `Choices` | choices.dfy | the questionnaire's answer tables |
| `Scenarios` | scenarios.dfy | worked examples on small catalogs |

Three behaviours of `build_program` worth stating:

- **No candidates.** `build_program` returns `None` when no piece is eligible.
  It returns an empty list when candidates exist but no pair fits.
- **Preferences are not validated.** Nothing in the code rejects `min > max`
  or a difficulty outside 1 to 5. `Compose` and `BuildProgram` accept any
  preferences, and an empty window simply yields no programs.
- **Self-pairing is excluded only under unique ids.** "No program pairs a
  piece with itself" holds only when piece ids are unique. The table's primary
  key guarantees that, so the no-self-pairing lemmas take `UniqueIds` as a
  premise.

## Model

| member | source | states |
|---|---|---|
| `Catalog.GetAllPieces` | Documents/orchestra-recommender/recommender.py:8-18 | every catalog piece, each exactly as often as in the table, nothing added, ordered by composer |
| `Catalog.FilterByDifficulty` | Documents/orchestra-recommender/recommender.py:20-31 | exactly the pieces with difficulty at most the limit, with their multiplicities; most popular first, then by composer |
| `Catalog.FilterByDuration` | Documents/orchestra-recommender/recommender.py:33-44 | exactly the pieces with `min <= duration <= max` (both ends inclusive; defaults 0 and 100), shortest first |
| `Catalog.FilterByPeriod` | Documents/orchestra-recommender/recommender.py:46-57 | exactly the pieces whose period equals the argument, ordered by composer |
| `Catalog.GetPieceInstrumentation` | Documents/orchestra-recommender/recommender.py:59-69 | exactly the instrumentation rows of that piece id, ordered by instrument |
| `Catalog.NoInstrumentationIsEmpty` | Documents/orchestra-recommender/recommender.py:62-69 | an id with no instrumentation rows gives an empty result, not a failure |
| `Catalog.UniqueIdsSelection` | Documents/orchestra-recommender/recommender.py:11-16 | any selection of rows from a table with unique piece ids again has unique ids |
| `Catalog.ComposerOrderIsPreorder` | Documents/orchestra-recommender/recommender.py:15 | `ORDER BY composer` is a total preorder on pieces |
| `Catalog.PopularityThenComposerOrderIsPreorder` | Documents/orchestra-recommender/recommender.py:28 | `ORDER BY popularity_score DESC, composer` is a total preorder |
| `Catalog.InstrumentOrderIsPreorder` | Documents/orchestra-recommender/recommender.py:66 | `ORDER BY instrument` is a total preorder |
| `Text.StrLeTotal` | Documents/orchestra-recommender/recommender.py:15 | any two strings are comparable in the text order |
| `Text.StrLeTransitive` | Documents/orchestra-recommender/recommender.py:15 | the text order is transitive |
| `Text.StrLeAntisymmetric` | Documents/orchestra-recommender/recommender.py:15 | two strings each at most the other are equal |
| `Sorting.Sort` | Documents/orchestra-recommender/interactive_recommender.py:196 | the sorted list is a permutation of its input and is ordered by the comparator |
| `Sorting.SortStable` | Documents/orchestra-recommender/interactive_recommender.py:196 | sorting is stable: the elements level with any x keep their relative order |
| `Sorting.SortSorted` | Documents/orchestra-recommender/interactive_recommender.py:177 | sorting an already sorted list changes nothing |
| `Seqs.FilterMultiplicity` | Documents/orchestra-recommender/interactive_recommender.py:133-134 | a mask keeps every row satisfying it as often as it occurs, and no other row |
| `Seqs.TakeFilter` | Documents/orchestra-recommender/interactive_recommender.py:136-137 | `df[mask].head(n)` holds x exactly when x is one of the first n rows satisfying the mask |
| `Suggest.ViablePieces` | Documents/orchestra-recommender/recommender.py:76-82 | exactly the pieces at or below the difficulty, most popular first |
| `Suggest.SuggestProgram` | Documents/orchestra-recommender/recommender.py:71-117 | None exactly when no piece is at or below the difficulty; otherwise at most two suggestions, each of two such catalog pieces, with total equal to their summed duration |
| `Suggest.OpenerAndSymphony` | Documents/orchestra-recommender/recommender.py:92-105 | at most one suggestion: an opener of at most 20 minutes and a closer of over 30 and at most 50 minutes |
| `Suggest.TwoMediumWorks` | Documents/orchestra-recommender/recommender.py:93-115 | at most one suggestion, of two pieces each over 20 and at most 40 minutes |
| `Suggest.TargetDurationIgnored` | Documents/orchestra-recommender/recommender.py:71 | the result is the same for every `target_duration` |
| `Suggest.OpenerAndSymphonyFirsts` | Documents/orchestra-recommender/recommender.py:97-105 | the opener pair exists exactly when both kinds of piece exist, and it takes the first of each |
| `Suggest.TwoMediumWorksFirsts` | Documents/orchestra-recommender/recommender.py:107-109 | the medium pair exists exactly when a medium piece exists; it takes the first two, or the only one twice |
| `Suggest.OpenerAndSymphonyPick` | Documents/orchestra-recommender/recommender.py:92-105 | "Opener + Symphony" is suggested exactly when a viable piece of at most 20 minutes and one of over 30 and at most 50 minutes exist; it pairs the most popular of each |
| `Suggest.TwoMediumWorksPick` | Documents/orchestra-recommender/recommender.py:107-115 | "Two Medium Works" is suggested exactly when a viable medium piece exists; it pairs the two most popular, or the only one with itself |
| `Templates.Pool` | Documents/orchestra-recommender/interactive_recommender.py:133-137 | at most n rows, each a candidate satisfying the mask |
| `Templates.PairRow` | Documents/orchestra-recommender/interactive_recommender.py:137-145 | the inner loop: at most one program per piece of the inner pool, each pairing the outer piece with one of them, fitting the window, with distinct ids when that is asked for |
| `Templates.PairGrid` | Documents/orchestra-recommender/interactive_recommender.py:136-145 | at most one program per (row, column) pair, each from the two pools, fitting the window, with distinct ids when that is asked for |
| `Templates.PairGridComplete` | Documents/orchestra-recommender/interactive_recommender.py:136-145 | every admissible pair of the two pools appears in the grid |
| `Templates.PairGridSkipsSelf` | Documents/orchestra-recommender/interactive_recommender.py:150-152 | with the id check on, the grid over one pool of n has at most n·(n−1) programs |
| `Templates.Composers` | Documents/orchestra-recommender/interactive_recommender.py:164 | a composer is listed exactly when some candidate has it, and none is listed twice |
| `Templates.ThematicFor` | Documents/orchestra-recommender/interactive_recommender.py:165-174 | at most one program, of two candidates by that composer, fitting the window, labelled "All <composer>" |
| `Templates.Favorites` | Documents/orchestra-recommender/interactive_recommender.py:177-179 | at most five pieces, drawn from the candidates, and none of them less popular than any candidate left out |
| `Templates.ThematicAll` | Documents/orchestra-recommender/interactive_recommender.py:164-174 | the composer loop: at most one program per listed composer, each by a listed composer and exactly that composer's thematic program |
| `Templates.Generate` | Documents/orchestra-recommender/interactive_recommender.py:131-189 | every raw program has two candidates whose durations add up to its total, inside the window |
| `TemplateProperties.OvertureSymphonyPrograms` | Documents/orchestra-recommender/interactive_recommender.py:132-145 | template 1 yields at most 9 programs, exactly the fitting pairs of one of the first three short (≤ 25) and one of the first three long (≥ 30) candidates; the two pieces always differ |
| `TemplateProperties.MajorWorksPrograms` | Documents/orchestra-recommender/interactive_recommender.py:147-160 | template 2 yields at most 6 programs, exactly the fitting pairs of two of the first three long candidates with different ids |
| `TemplateProperties.FavoritesPrograms` | Documents/orchestra-recommender/interactive_recommender.py:176-189 | template 4 yields at most 20 programs, exactly the fitting pairs of two of the five favorites with different ids |
| `TemplateProperties.FavoritesShape` | Documents/orchestra-recommender/interactive_recommender.py:177-179 | on any candidates, template 4's pool holds min(5, n) pieces, ordered most popular first |
| `TemplateProperties.FavoritesOfSorted` | Documents/orchestra-recommender/interactive_recommender.py:177-179 | on candidates already ordered most popular first, the favorites are the first five candidates |
| `TemplateProperties.ThematicProgram` | Documents/orchestra-recommender/interactive_recommender.py:165-173 | a thematic program holds its composer's first and second candidates, and its average is taken over the whole group |
| `TemplateProperties.ThematicPrograms` | Documents/orchestra-recommender/interactive_recommender.py:162-174 | template 3 yields at most 5 programs; each belongs to one of the first five composers with at least two candidates, holds that composer's first two, and is labelled "All <composer>" |
| `TemplateProperties.ThematicComposerIncluded` | Documents/orchestra-recommender/interactive_recommender.py:164-168 | each of the first five composers whose first two candidates fit the window gets its program |
| `TemplateProperties.ThematicAllComplete` | Documents/orchestra-recommender/interactive_recommender.py:164 | the loop over composers keeps every composer's program |
| `TemplateProperties.ComposersInOrder` | Documents/orchestra-recommender/interactive_recommender.py:164 | composers are listed in the order of their first candidates, as `unique()` lists them |
| `TemplateProperties.NoTemplate` | Documents/orchestra-recommender/interactive_recommender.py:132-189 | a structure value outside 1 to 4 generates no program |
| `TemplateProperties.NoSelfPairing` | Documents/orchestra-recommender/interactive_recommender.py:132-189 | with unique candidate ids, no generated program pairs a piece with itself |
| `Ranking.DoubledDistance` | Documents/orchestra-recommender/interactive_recommender.py:192-194 | the integer distance is exactly twice the source's distance from the midpoint |
| `Ranking.Rank` | Documents/orchestra-recommender/interactive_recommender.py:191-198 | keeps min(n, 5) of the generated programs, ordered by non-decreasing distance |
| `Ranking.RankKeepsNearest` | Documents/orchestra-recommender/interactive_recommender.py:196-198 | no program left out is nearer to the target than one kept |
| `Ranking.RankStable` | Documents/orchestra-recommender/interactive_recommender.py:196 | programs at equal distance keep their generation order, and the kept ones are the earliest generated |
| `Composer.Candidates` | Documents/orchestra-recommender/interactive_recommender.py:105-121 | exactly the pieces within the difficulty limit and, if a non-empty period is given, of that period; most popular first, shorter first on ties |
| `Composer.CandidateMember` | Documents/orchestra-recommender/interactive_recommender.py:110-116 | every candidate is a catalog piece that passes the difficulty and period filter |
| `Composer.Compose` | Documents/orchestra-recommender/interactive_recommender.py:126-198 | at most 5 programs of two candidates each, with total equal to the summed duration and inside the window, ordered by distance; with unique ids, no piece is paired with itself |
| `Composer.BuildProgram` | Documents/orchestra-recommender/interactive_recommender.py:101-198 | None exactly when no piece passes the filter; otherwise at most 5 programs, by non-decreasing distance |
| `Composer.BuildProgramPieces` | Documents/orchestra-recommender/interactive_recommender.py:106-139 | every program built has two eligible catalog pieces whose durations add up to a total inside the window |
| `Composer.BuildProgramNoSelfPairing` | Documents/orchestra-recommender/interactive_recommender.py:132-189 | with unique catalog ids, no program built pairs a piece with itself |
| `Composer.FavoritesAreFirstCandidates` | Documents/orchestra-recommender/interactive_recommender.py:177-179 | on the candidates as queried (most popular first, line 118), the favorites are exactly the first five candidates |
| `Choices.DifficultyForSkill` | Documents/orchestra-recommender/interactive_recommender.py:29 | skill levels 1 to 4 map to difficulty 4, 4, 5, 5; no other level has an entry |
| `Choices.WindowForChoice` | Documents/orchestra-recommender/interactive_recommender.py:47 | length choices 1 to 3 map to non-empty windows between 45 and 120 minutes; no other choice has an entry |
| `Choices.PeriodForChoice` | Documents/orchestra-recommender/interactive_recommender.py:67-73 | period choices 1 to 4 map to a non-empty period name, 5 to no preference; no other choice has an entry |
| `Choices.PreferencesFor` | Documents/orchestra-recommender/interactive_recommender.py:92-98 | preferences exist exactly for accepted answers; they carry the table entries for those answers (difficulty 4 for skill 1–2 and 5 for skill 3–4, the chosen window, the chosen period); the window is non-empty, and the period filter is on exactly when a period was chosen |
| `Choices.DifficultyMonotone` | Documents/orchestra-recommender/interactive_recommender.py:29 | a higher skill level never gets a lower difficulty limit |
| `Choices.WindowsOrdered` | Documents/orchestra-recommender/interactive_recommender.py:47 | a longer length choice never gets an earlier window |
| `Scenarios.OvertureSymphonyExample` | Documents/orchestra-recommender/interactive_recommender.py:132-145 | an 8-minute and an 85-minute piece, window 45 to 95, template 1: one program of total 93 |
| `Scenarios.LoneComposerExample` | Documents/orchestra-recommender/interactive_recommender.py:166 | a composer with a single candidate gives no thematic program |
| `Scenarios.NoCandidatesExample` | Documents/orchestra-recommender/interactive_recommender.py:123-124 | a difficulty limit that no piece meets gives None |

## Left out

- The sqlite connections, `pd.read_sql_query` and database paths are not modelled. The catalog is a parameter, and a storage failure is not represented.
- The interactive prompts and re-prompt loops of `get_user_input` are not modelled. An answer outside a table gives no preferences (`Choices`).
- `display_programs`, the instrumentation prompt loop and both `main` functions are not modelled; they only print.
- The seed data, the schema script, the unused `performances` table and the ad hoc query script are not modelled. They carry no selection logic.
- `skill_level` in the returned preferences dictionary is left out, because the composer never reads it.
- `year_composed` is not a field of `Piece`, because no modelled query selects it.
- Nullable columns (period, duration, difficulty, popularity) are modelled as always present. SQL's NULL comparisons are not modelled.
- Projections are not modelled. Queries return whole rows, including `notes` where the source leaves it out and `piece_id` in the instrumentation rows.
- The order among rows with equal SQL sort keys is unspecified by SQL. Query contracts therefore fix only the filtered multiset and the key order.
- The extra `distance` key that `build_program` writes into each program dictionary is not a field. It is the function `Ranking.Distance2`.
- Only the average difficulty is modelled as a `real`; floating-point rounding is not modelled.
- `Templates.Favorites`: pandas `nlargest(10, …)` ties are modelled as a stable sort by popularity, most popular first, with earlier rows first. `Composer.FavoritesAreFirstCandidates` shows that on the queried candidates this is simply the first five candidates.
- Idempotence of `build_program` gets no lemma. Every model member is a pure function, so equal inputs give equal outputs by construction.
- `Templates.ThematicFor`: a thematic program's average difficulty is the mean over the composer's whole candidate group, not over the two chosen pieces. This is kept as the source computes it, and `TemplateProperties.ThematicProgram` states it.
