# cs2-trainer-ai: the report logic, modelled in Dafny

cs2-trainer-ai analyses a Counter-Strike 2 player's Leetify profile. It
compares the player's ratings with the average ratings of players at the same
rank, and it shows an AI-written coaching report. This project models the
three deterministic pieces of that pipeline and proves properties about them.

- **The backend analysis** (`analyze_player_data`):
  - It picks a reference row from ordered rank-band tables: the Faceit Elo first, then the Premier rating, then a fixed default band.
  - It builds the `analysis` dictionary. That holds the reference label, the reference values, the core-skill and detailed-metric diffs, and the four raw side and situation metrics with their Leetify tier (`get_tier`).
  - It raises `KeyError` when a dictionary lookup fails.
  - The tables the backend loads are parameters of the model. Python's `round(x, 2)` is the parameter `round2`.
- **The static reference tables** (`premier_reference`, `faceit_reference`, `leetify_tiers`). These are concrete instances of the lookups. For them, coverage, disjointness, monotonicity and boundary resolution are proved.
- **The front end's report helpers**:
  - `formatRecommendations` turns the generated text into `<li>`/`<p>` fragments, with `**bold**` and `*italic*` rewritten by left-to-right global regex replacement.
  - `extractScore` finds the first `**Overall Score: N/100**`, ignoring case.
  - The Above/Below/Average label and the `+` prefix of `renderDiffMetric`.
  - The two-way core-skill label.

Modules:

| file | module | contents |
|---|---|---|
| `wrappers.dfy` | `Wrappers` | `Option`, `Result` |
| `decimal.dfy` | `Decimal` | decimal text of integers (f-strings, template literals) and `parseInt` of digit runs |
| `js_text.dfy` | `JsText` | the ECMAScript white-space class, `trim`/`trimStart`/`trimEnd`, `split('\n')` |
| `markup.dfy` | `Markup` | `formatRecommendations` |
| `score.dfy` | `Score` | `extractScore` |
| `performance.dfy` | `Performance` | the diff labels |
| `bands.dfy` | `Bands` | first-match lookups over ordered band and tier tables |
| `data_processing.dfy` | `DataProcessing` | `analyze_player_data` as methods with loops, plus the functions that specify them |
| `reference_tables.dfy` | `ReferenceTables` | the three constant tables and facts about them |

Python dictionaries whose iteration order matters are modelled as sequences of
entries in insertion order. Dictionaries only looked up are Dafny maps.

## Model

| member | source | states |
|---|---|---|
| Markup.FormatRecommendationsEmpty | frontend/src/App.js:74 | absent (`null`/`undefined`) or empty text gives the empty string |
| JsText.SplitLines | frontend/src/App.js:77 | `split('\n')` gives at least one piece; no piece holds '\n'; joining the pieces with '\n' gives the text back |
| JsText.SplitJoinLines | frontend/src/App.js:77 | splitting the '\n'-join of '\n'-free pieces gives exactly those pieces |
| Markup.MapJoinAppend | frontend/src/App.js:76-95 | `.map((line, index) => …).join('')` over two groups of lines is the two outputs one after the other, with the second group's indices continuing from the first |
| Markup.FormatLinesAppend | frontend/src/App.js:76-95 | the formatted text of consecutive groups of lines is their formatted texts in order; each line's key is its position in the split |
| Markup.FormatLinesSingle | frontend/src/App.js:78-94 | one line gives exactly its own fragment |
| Markup.FormatRecommendationsOfLines | frontend/src/App.js:73-96 | non-empty text made of lines `ls` gives the fragments of `ls` in order, the i-th line keyed `i` (a dropped line leaves a gap in the keys) |
| Markup.BulletLine | frontend/src/App.js:80-85 | a line "space, `* `, space, body" becomes `<li key="i">` + the inline rewrite of the body + `</li>` |
| Markup.StripBulletRemovesMarker | frontend/src/App.js:81 | `/^\s*\*\s*/` removes the leading space, the first `*` and the space after it, and nothing else |
| Markup.FormatLineEmpty | frontend/src/App.js:88-92 | a line is dropped (empty fragment) if and only if it is the empty string |
| Markup.ParagraphLine | frontend/src/App.js:87-92 | a non-empty line that is not a bullet becomes `<p key="i">` + the line after the bold and italic rewrites + `</p>` |
| Markup.LoneStarCopied | frontend/src/App.js:89-91 | a single `*` in otherwise star-free text opens neither a bold nor an italic match, so the line is left unchanged |
| Markup.SpaceIsStarFree | frontend/src/App.js:80 | white space holds no `*` |
| Markup.LoneStarNotBullet | frontend/src/App.js:80 | a `*` between white space trims to `*` alone, so the line is no bullet |
| Markup.LoneMarkerIsParagraph | frontend/src/App.js:80-92 | a lone marker "space, `* `, space" is no bullet (`trim` drops the space after the `*`) and becomes `<p key="i">` + the line unchanged + `</p>` |
| Markup.BlankLineIsParagraph | frontend/src/App.js:88-92 | a non-empty line of white space only becomes `<p key="i">` + that line + `</p>` |
| Markup.BoldClose | frontend/src/App.js:83 | the lazy group `(.*?)` ends at the first `**` after it, with no line terminator in between; no earlier position closes it, and if none exists the match fails |
| Markup.BoldRewrites | frontend/src/App.js:83 | the leftmost `**x**`, with `x` the shortest a lazy group can capture, becomes `<strong>x</strong>`; the scan then goes on after the match |
| Markup.ItalicClose | frontend/src/App.js:84 | `\*([^*]+)\*` matches at a `*` exactly when a later `*` follows a non-empty star-free run; it ends at the first such `*` |
| Markup.ItalicRewrites | frontend/src/App.js:84 | `*y*` with `y` non-empty and star-free becomes `<em>y</em>`; the scan then goes on after the match |
| Markup.InlineStarFree | frontend/src/App.js:89-91 | a line without `*` passes through both rewrites unchanged |
| Markup.BoldNoMatchCopies | frontend/src/App.js:83-90 | where no `**…**` match starts (an unclosed `**`, a `**` cut off by a line terminator, a lone `*`), the character is copied as it is and the scan moves on by one |
| Markup.ItalicNoMatchCopies | frontend/src/App.js:84-91 | where no `*…*` match starts (a trailing `*`, `**`, or a `*` with no later `*`), the character is copied as it is and the scan moves on by one |
| Markup.BoldCopiesStarFree | frontend/src/App.js:83 | a star-free prefix is copied verbatim by the bold rewrite |
| Markup.ItalicCopiesStarFree | frontend/src/App.js:84 | a star-free prefix is copied verbatim by the italic rewrite |
| Markup.InlineEmpty | frontend/src/App.js:89-92 | the rewritten line is empty if and only if the line is empty (the rewrites never shorten) |
| Markup.FormatRecommendations | frontend/src/App.js:73-96 | a definition, characterised by `FormatRecommendationsEmpty` (absent or empty text gives "") and `FormatRecommendationsOfLines` (otherwise the fragments of the '\n'-split lines in order, the i-th keyed `i`) |
| Markup.FormatLine | frontend/src/App.js:78-94 | a definition, characterised by `BulletLine` (a bullet becomes `<li>`), `FormatLineEmpty` (only "" is dropped) and `ParagraphLine` (any other line becomes `<p>` with both rewrites applied) |
| Markup.IsBullet | frontend/src/App.js:80 | a definition: the trimmed line starts with `*` and then a space; `BulletLine` shows every line "space, `* `, space, non-space body" is one |
| Markup.StripBullet | frontend/src/App.js:81 | a definition, characterised by `StripBulletRemovesMarker`: leading space, the first `*` and the space after it go, and nothing else |
| Markup.Bold | frontend/src/App.js:83-90 | a definition of the global left-to-right rewrite, characterised by `BoldRewrites` (a match is replaced), `BoldNoMatchCopies` (otherwise one character is copied), `BoldCopiesStarFree` and `BoldLonger` |
| Markup.Italic | frontend/src/App.js:84-91 | a definition of the global left-to-right rewrite, characterised by `ItalicRewrites`, `ItalicNoMatchCopies`, `ItalicCopiesStarFree` and `ItalicLonger` |
| Markup.Inline | frontend/src/App.js:82-91 | a definition: the bold rewrite, then the italic rewrite on its output; characterised by `InlineStarFree` and `InlineEmpty` |
| Markup.BoldLonger | frontend/src/App.js:83 | the bold rewrite never shortens its input |
| Markup.ItalicLonger | frontend/src/App.js:84 | the italic rewrite never shortens its input |
| Score.MatchHere | frontend/src/App.js:100 | a definition of the expression matched at position 0, characterised in both directions by `MatchHereFromParts` and `MatchHereParts`, and by `MatchHereRendered`, `SpaceRunEnd` and `DigitRunEnd` |
| Score.MatchHereFromParts | frontend/src/App.js:100 | the label, a space run, a non-empty digit run and `/100**` at position 0 make a match capturing the digits' value |
| Score.ExtractScore | frontend/src/App.js:99-102 | a definition, characterised by `ExtractScoreIsLeftmost`, `ExtractScoreFound`, `ExtractScoreAbsent` and `ExtractScoreRendered` |
| JsText.TrimStart | frontend/src/App.js:80 | never longer than its input; `TrimStartSpec` states the rest |
| JsText.TrimStartSpec | frontend/src/App.js:80 | `trimStart` removes an all-space prefix and keeps a suffix that is empty or starts with a non-space |
| JsText.TrimEnd | frontend/src/App.js:80 | never longer than its input; `TrimEndSpec` states the rest |
| JsText.TrimEndSpec | frontend/src/App.js:80 | `trimEnd` removes an all-space suffix and keeps a prefix that is empty or ends with a non-space |
| JsText.TrimEndSpaceSuffix | frontend/src/App.js:80 | trimming the end of `t` followed by all-space text trims `t` |
| JsText.TrimEndKeeps | frontend/src/App.js:80 | `trimEnd` keeps a prefix that reaches past every non-space character |
| JsText.Trim | frontend/src/App.js:80 | a definition: `trimEnd` of `trimStart`; `BulletLine` uses it through `TrimStartSpacePrefix` and `TrimEndKeeps` |
| JsText.TrimStartSpacePrefix | frontend/src/App.js:80-81 | trimming the start of all-space text followed by `t` trims `t` |
| Score.MatchHereParts | frontend/src/App.js:100 | conversely, a match at position 0 consists of `**`, the label ignoring case, a space run, a non-empty digit run whose value is the capture, and `/100**` |
| Score.ExtractScoreFound | frontend/src/App.js:100-101 | a score found is the capture of a match at some position, and no earlier position matches |
| Score.FirstMatch | frontend/src/App.js:100 | the leftmost position at which the expression matches, or none when it matches nowhere |
| Score.ExtractScoreIsLeftmost | frontend/src/App.js:99-101 | the score is the number captured by the leftmost match, whatever follows it |
| Score.ExtractScoreAbsent | frontend/src/App.js:101 | the result is `null` exactly when the expression matches at no position |
| Score.StarFreeHasNoScore | frontend/src/App.js:100-101 | text without `*` has no score |
| Score.MatchHereRendered | frontend/src/App.js:100 | `**`, the label in any letter case, any white space, the decimal text of `n` and `/100**` match and capture `n` |
| Score.ExtractScoreRendered | frontend/src/App.js:99-101 | a report whose first `*` opens such a score line yields `n`, which is not clamped to 0..100 |
| Score.SpaceRunEnd | frontend/src/App.js:100 | the greedy `\s*` stops at the first non-space |
| Score.DigitRunEnd | frontend/src/App.js:100 | the greedy `\d+` stops at the first non-digit |
| Score.ExampleNoScore | frontend/src/App.js:101 | a report without a score line gives `null` |
| Decimal.DigitsValueOfNatToString | frontend/src/App.js:101 | `parseInt` of the decimal text of `n` is `n` |
| Performance.Performance | frontend/src/App.js:61-63 | plain: Above iff diff > 0, Below iff diff < 0, Average iff diff = 0; reversed: Above iff diff < 0, Below iff diff > 0, Average iff diff = 0 |
| Performance.ReversedSwaps | frontend/src/App.js:61-63 | `isReversed` swaps Above and Below and keeps Average |
| Performance.ReversedIsNegated | frontend/src/App.js:61-63 | the reversed label of `diff` is the plain label of `-diff` |
| Performance.NegationSwaps | frontend/src/App.js:61-63 | negating the diff swaps the label, in both modes |
| Performance.SignPrefix | frontend/src/App.js:67 | `+` is written iff diff > 0, nothing iff diff <= 0 |
| Performance.PrefixMeansAbove | frontend/src/App.js:61-67 | the `+` appears exactly when the plain label is Above |
| Performance.CssClass | frontend/src/App.js:67 | the span's class starts with `performance-` |
| Performance.DiffMetric | frontend/src/App.js:57-70 | nothing is rendered iff the analysis has no value for the key; otherwise `+` iff diff > 0 and nothing iff diff <= 0; Average iff diff = 0; Above iff diff > 0 (diff < 0 when reversed); Below iff diff < 0 (diff > 0 when reversed) |
| Performance.CoreSkill | frontend/src/App.js:195-211 | a core skill is never Average: Above iff diff > 0, else Below |
| Performance.CoreSkillAgrees | frontend/src/App.js:197-198 | the core-skill rule agrees with the plain rule except at 0, where it says Below and the plain rule says Average |
| DataProcessing.InitialAnalysis | app/data_processing.py:13-38 | exactly the seven initial keys: Null diffs, reference values and label; the tier table; the metric names |
| Bands.FirstContainingFrom | app/data_processing.py:48-50 | the first band in table order with `low <= x <= high`; none iff no band holds `x` |
| Bands.FirstWithBoundsFrom | app/data_processing.py:61-63 | the first band whose bounds are exactly `(low, high)`; none iff there is no such band |
| DataProcessing.Selection | app/data_processing.py:40-65 | a reference is found iff a band holds the truthy Faceit Elo; else iff one holds the truthy Premier rating; else iff the table holds the band (10000, 14999); the row always comes from one of the tables |
| DataProcessing.SelectReference | app/data_processing.py:44-65 | the three `for … break` loops set the reference and its label together, to the row and label `Selection` gives, or leave both None |
| DataProcessing.FaceitIgnoresPremier | app/data_processing.py:47-52 | with a truthy Faceit Elo the Premier table does not affect the result (no fallback), and the label is `Faceit Level {faceit}` |
| DataProcessing.PremierIgnoresFaceit | app/data_processing.py:53-65 | without a truthy Faceit Elo the Faceit table does not affect the result |
| DataProcessing.SelectedRowIsFirstMatch | app/data_processing.py:48-58 | the selected row is the row of the first band in table order that holds the rating |
| DataProcessing.PremierLabel | app/data_processing.py:53-57 | with only a truthy Premier rating, the row and the label `Premier {low}-{high}` both come from the first band in table order that holds the rating |
| DataProcessing.DefaultRowIsFirstMatch | app/data_processing.py:59-65 | with no usable rank, the row is that of the first band that is exactly (10000, 14999), and the label is `Premier: 10000-14999 (Default)` |
| DataProcessing.DefaultLabel | app/data_processing.py:59-65 | with no usable rank the label is `Premier: ` + the default band's text + ` (Default)` |
| DataProcessing.DefaultBandText | app/data_processing.py:64 | the default band is written `10000-14999` |
| Decimal.IntToStringInjective | app/data_processing.py:57 | distinct integers have distinct decimal texts |
| Decimal.IntToStringDigitsAfterSign | app/data_processing.py:57 | after a possible leading `-`, the decimal text of an integer is all digits |
| DataProcessing.BandTextInjective | app/data_processing.py:57 | distinct bands give distinct `{low}-{high}` texts, so the Premier label tells the band bounds apart |
| Bands.TierIndexFrom | app/data_processing.py:108-110 | the first tier in table order whose closed range holds the value; none iff no range holds it |
| Bands.TierOf | app/data_processing.py:107-111 | the name of the first tier whose closed range holds the value, and `unknown` when none does |
| DataProcessing.GetTier | app/data_processing.py:107-111 | the loop with early return gives `TierOf` of the table and the value |
| DataProcessing.FirstMissing | app/data_processing.py:72-85 | the first lookup, in evaluation order, whose key the row lacks; none iff the row has every key |
| DataProcessing.Collect | app/data_processing.py:72-85 | evaluating the `reference_values` literal raises KeyError iff a key is missing, for the first missing key; otherwise each output name holds the value read for it and nothing else |
| DataProcessing.ReferenceValues | app/data_processing.py:72-85 | a definition through `Collect` over the twelve field pairs: the KeyError of the first key the row lacks, or the twelve output names mapped to the values read |
| DataProcessing.Filled | app/data_processing.py:68-118 | the specification of the filled analysis: the label, the reference values, the three core diffs, a diff for exactly the detailed metrics in both stats and row, each raw metric of the rating with its tier, the two tables, and no other key |
| DataProcessing.Outcome | app/data_processing.py:40-118 | the specification of `analyze_player_data` on a full profile: the initial analysis when no non-empty reference row is found, else the first missing key's KeyError, else an analysis that is `Filled` |
| DataProcessing.MissingKey | app/data_processing.py:72-90 | no KeyError iff the row has the twelve reference keys and the rating has `aim`, `positioning` and `utility` |
| DataProcessing.MissingKeyCases | app/data_processing.py:72-90 | the error is the first missing reference key; failing that, the first missing rating key in the order aim, positioning, utility |
| DataProcessing.AddDiffs | app/data_processing.py:101-103 | `{m}_diff` is set to the rounded `stats[m] - reference[m]` for each detailed metric held by both; no other key changes |
| DataProcessing.AddRawMetrics | app/data_processing.py:113-118 | each raw metric in the rating is stored rounded, and `{m}_tier` is the tier of that rounded value; absent metrics get no keys; no other key changes |
| DataProcessing.Fill | app/data_processing.py:67-118 | with a non-empty reference: the KeyError of the first missing key, or the filled analysis |
| DataProcessing.FillDiffs | app/data_processing.py:88-118 | the core-skill diffs raise KeyError for `aim`, `positioning`, `utility` in that order; otherwise the analysis is filled |
| DataProcessing.FillMetrics | app/data_processing.py:93-118 | the two metric loops add `{m}_diff` iff the metric is in both stats and reference, and a raw metric and its tier iff it is in the rating; every earlier entry is kept |
| DataProcessing.AnalyzePlayerData | app/data_processing.py:6-118 | KeyError for a missing `rating`, `ranks` or `stats` (in that order); otherwise the outcome: the initial analysis when no non-empty reference is found, else the first KeyError or the filled analysis with no other keys |
| DataProcessing.NoReferenceKeepsInitial | app/data_processing.py:13-67 | without a reference the diffs, `reference_values` and `reference_rank` stay None, and no diff, raw-metric or tier key is added |
| DataProcessing.ErrorNeedsReference | app/data_processing.py:67-90 | a KeyError is raised only after a non-empty reference row was found, and it is that row's missing key |
| DataProcessing.TablesAlwaysPresent | app/data_processing.py:19-37 | `leetify_tiers` and `metric_names` are in every returned analysis, unchanged |
| DataProcessing.TierOfStoredValue | app/data_processing.py:113-118 | a stored raw metric is a number, and its tier is the tier of that same stored number, whatever the rounding does |
| DataProcessing.DiffKeyInjective | app/data_processing.py:103 | distinct metrics get distinct `_diff` keys |
| DataProcessing.TierKeyInjective | app/data_processing.py:118 | distinct metrics get distinct `_tier` keys |
| DataProcessing.RawNotDiff | app/data_processing.py:103-118 | the metric loops write disjoint sets of keys |
| DataProcessing.InitialKeysFixed | app/data_processing.py:13-19 | metric loops never overwrite an initial key |
| Bands.AdjacentDisjoint | app/reference_tables.py:1-21 | in a table of adjacent bands no value lies in two bands |
| Bands.AdjacentCovers | app/reference_tables.py:1-21 | a table of adjacent bands covers every integer from its first low to its last high |
| Bands.UniqueBand | app/reference_tables.py:1-21 | inside the span of adjacent bands, first-match lookup finds the one band that holds the value |
| Bands.OutsideSpan | app/reference_tables.py:1-21 | outside the span of adjacent bands no band matches |
| ReferenceTables.PremierAdjacent | app/reference_tables.py:1-8 | every Premier band has low <= high, and each starts right after the previous one ends (ascending, no gaps) |
| ReferenceTables.FaceitAdjacent | app/reference_tables.py:10-21 | every Faceit band has low <= high, and each starts right after the previous one ends |
| ReferenceTables.PremierCovers | app/reference_tables.py:1-8 | every rating from 1000 to 99999 is in exactly one Premier band, the one lookup returns |
| ReferenceTables.FaceitCovers | app/reference_tables.py:10-21 | every Elo from 100 to 99999 is in exactly one Faceit band, the one lookup returns |
| ReferenceTables.OutsideTables | app/reference_tables.py:1-21 | ratings outside those spans match no band |
| ReferenceTables.TablesDisjoint | app/reference_tables.py:1-21 | no two bands of either table overlap |
| ReferenceTables.DefaultBandPresent | app/reference_tables.py:4 | the default band (10000, 14999) is the third Premier row |
| ReferenceTables.StepsUpOrdered | app/reference_tables.py:2-7 | a value that never drops between neighbouring bands never drops between any two bands |
| ReferenceTables.PremierAimStepsUp | app/reference_tables.py:2-7 | every Premier row has `aim`, and it never drops from one band to the next |
| ReferenceTables.PremierPositioningStepsUp | app/reference_tables.py:2-7 | the same for Premier `positioning` |
| ReferenceTables.PremierUtilityStepsUp | app/reference_tables.py:2-7 | the same for Premier `utility` |
| ReferenceTables.FaceitAimStepsUp | app/reference_tables.py:11-20 | the same for Faceit `aim` |
| ReferenceTables.FaceitPositioningStepsUp | app/reference_tables.py:11-20 | the same for Faceit `positioning` |
| ReferenceTables.FaceitUtilityStepsUp | app/reference_tables.py:11-20 | the same for Faceit `utility` |
| ReferenceTables.ReferenceValuesMonotone | app/reference_tables.py:1-21 | a higher band never has a lower aim, positioning or utility reference, in either table |
| ReferenceTables.StaticRowsLackAim | app/reference_tables.py:1-21 | every static row lacks the `Aim` key the analysis reads, so looking it up raises KeyError "Aim" |
| ReferenceTables.StaticTablesRaise | app/reference_tables.py:1-21 | an analysis run on the static tables that finds a reference fails with KeyError "Aim" |
| ReferenceTables.TierBoundaries | app/reference_tables.py:23-29 | a shared boundary goes to the tier listed first: −5.12 poor, −2.09 subpar, 2.09 average, 5.12 good |
| ReferenceTables.TierSpan | app/reference_tables.py:24-28 | every value from −999 to 999 gets a tier; values beyond get `unknown` |

## Left out

- Network and database I/O. The Elasticsearch load of the tables (`load_reference_tables`) is replaced by parameters. Its hit-to-dict loops, its lower-casing of tier names and its implicit `None` on error are not part of this model. So is the unpacking of such a `None`.
- `await`: the analysis is modelled as synchronous.
- `save_json` and the JSON file it writes: file I/O. The `matches` and `steam_id` arguments matter only for it.
- Floating point. JavaScript and Python numbers are reals. Python's `round(x, 2)` is an arbitrary function `round2: real -> real`. JavaScript's `toFixed` text formatting and the `RadialProgressBar` arithmetic are not modelled.
- The React UI: state setters, `analyzePlayer`, `renderZeroSumMetric`, layout, `dangerouslySetInnerHTML`, and the truthiness check around the score display.
- The analysis dictionary is a Dafny map, so the insertion order of the returned dictionary (visible only in the JSON text) is not modelled.
- The order `rating`, `ranks`, `stats` of the three profile lookups is modelled. The profile has only those three fields, and `ranks` has only the three entries read. Other profile shapes (a `ranks` that is no dictionary, non-integer ranks) are not modelled.
- Duplicate band keys cannot occur in a Python dict. The sequences here may hold duplicates; the lookups then follow the first one.
- `renderDiffMetric` tests for `undefined`, which is `None` here. Its callers pass only detailed-metric diff keys, which are absent or numbers, so a `null` diff is not modelled.
- `formatRecommendations` with a truthy argument that is not a string: the model's text is always a string.
- Worked examples of a report with a score line, on literal text. Evaluating the recursive match on long literals is too costly for the verifier, and the general `Score.ExtractScoreRendered` covers them.
- Non-numeric metric values. Metrics map names to reals, so a JSON `null` (or any non-number) in the rating, the stats or a reference row, which makes `round(x - y, 2)` raise `TypeError`, is not modelled.
- `extractScore` of `null` or `undefined`: it calls `text.match` without a guard, so a missing `recommendations` throws there. `Score.ExtractScore` takes only strings; that exception is not modelled.
- Performance.CssClass: states only the `performance-` prefix, not the lower-cased standing after it.

## Notes on the code

- Nothing in the code weights metrics, highlights `[...]` spans, or compares band bounds irrespective of their order. Tiers come only from first-match lookup in the tier table, and inverted metrics only swap Above and Below. The model follows the code.
- A line of white space only is not dropped. It yields a `<p>` holding that white space (`Markup.BlankLineIsParagraph`). Only the exact empty line is dropped.
- The fallback label is `Premier: 10000-14999 (Default)`, with a colon that the other Premier labels lack.
- The score is not clamped to 0..100.
- The analysis raises `KeyError` rather than defaulting: for a missing profile part, for a missing reference key, or for a missing core-skill rating.
- The static tables use the key `aim`, while the analysis reads `reference["Aim"]`. `app/data_processing.py` does not import them. Used as its tables, they would make every analysis that finds a reference fail (`ReferenceTables.StaticTablesRaise`).
