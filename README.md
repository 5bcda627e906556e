# Optimeyes visual profiling — a Dafny model of `scorer_profil`

Optimeyes is a trade-show kiosk. It collects visual and cognitive
measurements from a participant, rates each one, and classifies the
participant under one of four archetypes: Athlète, Pilote, E-sportif and
Performer cognitif. This project models the scoring core of
`demo_vivatech.py` and proves properties of it:

- `rating.dfy` (module `Rating`) models the nested rating function `noter`.
  `Rate(name, value)` maps an indicator name and a raw answer to a rating
  0..3. It keeps the source's branches in the source's order, including its
  two dead duplicate branches.
- `profiling.dfy` (module `Profiling`) models the weight table `poids` as an
  ordered constant `Table`. `ScoreProfile` is the imperative loop of
  `scorer_profil`: an outer loop over archetypes, an inner loop that
  accumulates `score += rating * weight`, then the rounded percentage and the
  arg-max. It is proved equal to the specification function `ProfileOf`. The
  lemmas are stated about `ProfileOf`.
- `options.dfy` (module `Options`) models the form builder's option-list
  parse: split on `;`, strip each field, drop blank fields.
- `records.dfy` (module `Records`) models what happens to a result. The
  profile goes into the participant's row as `Profil` and `Score_<archetype>`
  columns. Stored rows are deleted by their labels `"<i+1> - <code>"`.

Answers are `Value = Str(string) | Num(real)`. Dafny's `real` is exact, and the
source only compares values with constants. A missing answer reads as
`Num(0.0)`, as `d.get(var, 0)` does. Six indicators are compared with numbers:
`Vitesse_Horizontale`, `Vitesse_Verticale`, `NOGO`, `GO`,
`Vision_Faible_Contraste` and `Fatigue_Visuelle`. For them the model requires a
number, because Python raises `TypeError` when it compares a string with a
number. Answers to indicators the table does not weight are never read, so
they may hold anything.

Scores are kept as whole numbers of tenths (`528` stands for 52.8). A score is
`RoundTenths` of the exact rational `100 * Σ(rating·weight) / (3·Σweight)`,
which is the nearest tenth. `RoundingNeverTies` proves that the exact value
never lies half-way between two tenths. So half-up and half-to-even rounding
agree on it.

Three properties of `noter` shape every score:

- `GO` is rated 3 up to 500, 2 up to 599 and 1 up to 9999.
- `NOGO` is rated 3 up to 10 and 1 above.
- `stereopsie` has no rating branch at all, although every archetype weights it.

## Model

| member | source | states |
|---|---|---|
| `Rating.UnknownIndicatorRatesZero` | demo_vivatech.py:35-58 | a name that no branch of `noter` matches is rated 0, whatever the value |
| `Rating.StereopsisNeverRated` | demo_vivatech.py:35-58 | `stereopsie`, weighted by every archetype, is rated 0 for every value |
| `Rating.DecisionSpeedLabels` | demo_vivatech.py:36-37 | Rapide/Moyenne/Lente rate 3/2/1; any other answer, numbers included, rates 0 |
| `Rating.LightSensitivityLabels` | demo_vivatech.py:38-39 | Non/Parfois/Oui rate 3/2/1; any other answer rates 0 |
| `Rating.PeripheralVisionLabels` | demo_vivatech.py:40-41 | Bon/Moyen/Faible rate 3/2/1; any other answer rates 0 |
| `Rating.DuplicateBranchesUnreachable` | demo_vivatech.py:54-57 | the numeric 1..5 branches for light sensitivity and peripheral vision are dead: a number rates 0, although those scales would rate 1..5 as 1..3 |
| `Rating.HorizontalSpeedBands` | demo_vivatech.py:42-43 | horizontal speed is rated 3 exactly on 501..700; 2 exactly on 451..500 or 701..850; 1 exactly at or below 450 or above 850; 0 exactly in the gaps (450,451), (500,501), (700,701) |
| `Rating.HorizontalSpeedBoundaries` | demo_vivatech.py:43 | 450→1, 451→2, 500→2, 501→3, 700→3, 701→2, 850→2, 851→1, and 500.5→0 |
| `Rating.HorizontalSpeedIntegersRated` | demo_vivatech.py:43 | no whole-number speed falls into a gap: it is always rated 1..3 |
| `Rating.VerticalSpeedLadder` | demo_vivatech.py:44-45 | vertical speed up to 300 rates 1, up to 399 rates 2, up to 9999 rates 3, above 9999 rates 0 (each an if-and-only-if) |
| `Rating.NogoNeverTwo` | demo_vivatech.py:46-47 | NOGO up to 10 rates 3 and above 10 rates 1; it is never rated 2 or 0 |
| `Rating.GoLadder` | demo_vivatech.py:48-49 | GO up to 500 rates 3, up to 599 rates 2, up to 9999 rates 1, above 9999 rates 0 (each an if-and-only-if) |
| `Rating.LowContrastRule` | demo_vivatech.py:50-51 | low-contrast errors: exactly 0 rates 3, positive rates 1, negative rates 0 |
| `Rating.VisualFatigueBands` | demo_vivatech.py:52-53 | fatigue 8..10 rates 1, 4..7 rates 2, 1..3 rates 3; outside 1..10 and in the gaps (3,4) and (7,8) it rates 0 |
| `Profiling.RoundTenths` | demo_vivatech.py:106 | `round(x, 1)` as tenths: the result is within half a tenth of `x` |
| `Profiling.TableFacts` | demo_vivatech.py:61-98 | the table lists the four archetypes in order; their weights total 12, 9, 15, 11 and, without `stereopsie`, 9, 7, 13, 10; every weighted indicator is one of the six scored ones |
| `Profiling.TablePositiveTotals` | demo_vivatech.py:103-106 | every archetype's total weight is positive, so `3 * total_poids` is never 0 |
| `Profiling.MaxFrom` | demo_vivatech.py:108 | Python's `max` scan (replace only on a strictly greater score) returns the first position of the highest score |
| `Profiling.ArgMax` | demo_vivatech.py:108 | `max(scores, key=scores.get)` picks a maximal score, and no earlier archetype scores as high (ties go to the earliest in table order) |
| `Profiling.FirstMaximumUnique` | demo_vivatech.py:108 | the first maximal position is unique, so the dominant profile is fully determined by the scores |
| `Profiling.ProfileOf` | demo_vivatech.py:100-108 | the result's `scores` has exactly the four archetype keys, in table order, and `profil` names the first maximal score |
| `Profiling.ScoreProfile` | demo_vivatech.py:100-108 | the nested accumulation loops compute exactly `ProfileOf(d)` (the same scores and dominant profile) |
| `Profiling.WeightedSumBounds` | demo_vivatech.py:104-105 | the accumulated score lies between 0 and 3 × the weight of the entries other than `stereopsie` |
| `Profiling.ScoreCeiling` | demo_vivatech.py:61-106 | every score lies between 0 and its archetype's ceiling (75.0, 77.8, 86.7, 90.9), so no archetype ever reaches 100 |
| `Profiling.CeilingsReached` | demo_vivatech.py:61-106 | the ceilings are reached, all at once, by one input (GO 0, NOGO 0, speeds 600 and 400, no low-contrast error); Performer cognitif then dominates |
| `Profiling.EmptyAnswers` | demo_vivatech.py:100-108 | the empty form scores 52.8, 63.0, 51.1, 78.8 and its dominant profile is Performer cognitif |
| `Profiling.ProfileDependsOnlyOnScoredAnswers` | demo_vivatech.py:101-105 | two inputs that agree on the looked-up values of the six weighted indicators give the same profile |
| `Profiling.MissingKeyReadsAsZero` | demo_vivatech.py:105 | a missing answer is scored as the value 0, not left out: removing it or setting it to 0 gives the same profile |
| `Profiling.UnknownKeyIgnored` | demo_vivatech.py:101-105 | an answer to an indicator the table does not weight, of any type, does not change the profile |
| `Profiling.RoundingNeverTies` | demo_vivatech.py:106 | an exact score is never half-way between two tenths, so the rounding direction on ties never matters |
| `Options.Split` | demo_vivatech.py:164 | `split(";")` gives at least one field, and no field contains `;` |
| `Options.SplitJoin` | demo_vivatech.py:164 | splitting fields joined by `;` gives the fields back |
| `Options.JoinSplit` | demo_vivatech.py:164 | joining the fields of a split with `;` gives the string back |
| `Options.StripLeft` | demo_vivatech.py:164 | removes exactly the leading whitespace: a suffix that starts with a non-space, with only whitespace removed |
| `Options.StripRight` | demo_vivatech.py:164 | removes exactly the trailing whitespace: a prefix that ends with a non-space, with only whitespace removed |
| `Options.StripKeepsMiddle` | demo_vivatech.py:164 | `strip()` keeps the run between the leading and the trailing whitespace; the result is trimmed; it is empty exactly when the field is all whitespace |
| `Options.StripTrimmed` | demo_vivatech.py:164 | stripping a string with no whitespace at its ends changes nothing |
| `Options.StripIdempotent` | demo_vivatech.py:164 | `strip` applied twice is `strip` applied once |
| `Options.StripNoSeparator` | demo_vivatech.py:164 | stripping a field introduces no `;` |
| `Options.Clean` | demo_vivatech.py:164 | the `if opt.strip()` filter keeps only non-empty trimmed options, never more than there were fields |
| `Options.CleanKeepsSeparatorFree` | demo_vivatech.py:164 | filtering and stripping fields free of `;` leaves options free of `;` |
| `Options.CleanTrimmed` | demo_vivatech.py:164 | a list of non-empty trimmed fields passes the filter unchanged |
| `Options.ParseOptions` | demo_vivatech.py:164 | every parsed option is non-empty, trimmed and free of `;` |
| `Options.ParseJoinedOptions` | demo_vivatech.py:164 | writing non-empty, trimmed, `;`-free options as `a;b;c` and parsing the result gives the same options in the same order |
| `Records.ScoreKeyFacts` | demo_vivatech.py:213-215 | a `Score_<k>` column is never `Profil`, and different archetypes get different columns |
| `Records.ProfileNamesDistinct` | demo_vivatech.py:100-108 | the scores of a profile carry distinct archetype names, as dict keys do |
| `Records.WriteProfile` | demo_vivatech.py:212-215 | the row gains `Profil` and one `Score_<archetype>` column per score, holding the score; every other answer is unchanged; nothing else is added |
| `Records.Digit` | demo_vivatech.py:261 | a digit's character lies between `0` and `9` |
| `Records.Decimal` | demo_vivatech.py:261 | `str(n)` is a non-empty string of decimal digits, one digit exactly when n < 10 |
| `Records.DigitInjective` | demo_vivatech.py:261 | different digits are different characters |
| `Records.DecimalInjective` | demo_vivatech.py:261 | different row numbers are written differently |
| `Records.LabelNumberEnds` | demo_vivatech.py:261 | in a label `"<n> - <code>"` the first space comes right after the number |
| `Records.LabelsDistinct` | demo_vivatech.py:260-263 | two equal labels carry the same row number, whatever the codes |
| `Records.LabelsDiffer` | demo_vivatech.py:260-263 | rows at different positions get different labels |
| `Records.LabelIndexInverts` | demo_vivatech.py:260-263 | the label dict has exactly the rows' labels as keys and maps each label back to its own row, so no row is hidden by a later one |
| `Records.SelectedIndexHasSelectedLabel` | demo_vivatech.py:266 | every looked-up index is a row position whose label is the selected one |
| `Records.SelectedIndicesExact` | demo_vivatech.py:266 | a row's index is among the looked-up indices exactly when its label was selected |
| `Records.KeptPositions` | demo_vivatech.py:267 | the kept positions are strictly increasing and are exactly the positions below n that are not in the index list |
| `Records.KeepRowsAtKeptPositions` | demo_vivatech.py:267 | the comprehension keeps the rows at the kept positions, in that order |
| `Records.DeleteRowsKeepsUnselected` | demo_vivatech.py:264-267 | deletion keeps exactly the rows whose label was not selected, in their original order |

The definitions that these contracts speak about have no contract of their
own: `Rating.Rate`, `Profiling.Get`, `Profiling.WeightedSum`,
`Profiling.TotalWeight`, `Profiling.ExactScore`, `Profiling.Scores`,
`Options.Join`, `Options.Strip`, `Records.Label`, `Records.LabelIndex`,
`Records.SelectedIndices`, `Records.KeepRows` and `Records.DeleteRows`. The
result is deterministic because `ScoreProfile` is tied to the function
`ProfileOf`.

## Left out

- The Streamlit page, the form widgets, the sidebar, the buttons and the
  session state (lines 7-11, 111-163, 165-194, 217-259, 268-270). This is
  interface plumbing. The option parse at line 164 and the deletion at lines
  260-267 are modelled.
- `charger_config_formulaire` and the Excel reads and writes (lines 20-30,
  113, 219, 269). This is file I/O through pandas.
- `afficher_radar` (lines 197-208). It is float trigonometry and drawing.
- The QR-code passport (lines 226-231). It uses a foreign library and byte
  buffers.
- The clamp of the default value into `[min, max]` and the exception-driven
  fallbacks (lines 138-162). They work on pandas cells.
- Binary floating point. The source computes the score in floats and rounds
  with `round(…, 1)` on floats. The model computes it exactly.
- `Profiling.RoundTenths`: does not model `round`'s half-to-even rule on
  floats; it rounds half up. `RoundingNeverTies` shows that the exact score
  never sits on a tie. Float error near a tie is not modelled.
- NaN. A NaN answer rates 0 in Python for every numeric rule, including the
  final `else 0` of the NOGO rule. Dafny reals have no NaN, so that branch is
  dead in the model.
- Boolean and list answers (checkbox and multiselect widgets). `Value` has no
  such case. Which widget an indicator gets comes from the spreadsheet's `Type`
  column (lines 134, 166-192), and that spreadsheet is not part of this model.
  The model assumes every weighted indicator gets a text or number answer. In
  Python a checkbox answer is a `bool`, which is an `int`. It is rated as the
  number 1 or 0 would be: `True` given to `GO` rates 3. The model covers that
  case as `Num(1.0)` or `Num(0.0)`. A multiselect list given to a label
  indicator matches no label and rates 0. Given to a numeric indicator, it
  makes Python raise `TypeError`.
- A string given to a numeric indicator. Python raises `TypeError`; the model
  excludes it by the precondition `Profiling.WellFormed`.
- Codes that are not text. A `Code_Sujet` read back from the spreadsheet may
  be a number or NaN, which `str()` would render. The model requires text
  codes (`Records.CodesAreText`). Label distinctness does not depend on the
  codes.
- The `str(...).strip()` applied to the `Options` cell before the split
  (line 136). It converts a pandas cell to text, and the per-field strip
  already removes the whitespace it would remove.
- The number of rows left after a deletion is not stated as a count. It may
  be derived from `DeleteRowsKeepsUnselected`.
- Score values written into the row are exact decimals (`tenths / 10`), not
  binary floats.
