# Football analytics core of the betting-tips web app

This project models the client-side analytics of the paris-sportif web application in
Dafny and proves properties of the model. The application is a React/TypeScript front
end that shows football fixtures, statistics and betting suggestions. A backend sends
loosely shaped fixture JSON. The front end turns it into these things:

- team and venue resolution for a fixture row, a score text, and a normalised fixture row;
- statistic lookups keyed by alias tables, in two variants: the shared extractors and the
  private copy on the match page;
- the W/D/L form of a team over its last five rows, overall or at one venue;
- the per-metric series of a list of advanced payloads, their five-slot cards, averages
  and sample counts;
- the recent-scorer table with shares and the roster status of each scorer;
- "rule 0", the head-to-head venue rule, which suggests a pick when a team won every
  meeting at its venue. Its confidence and risk level are modelled too;
- the merge of the rule's suggestion with the backend's own suggestions;
- the smaller rules of the lineup card, the model-agreement table, the home-page match
  lists and the notifications page.

Every operation is deterministic once the data has arrived. Loops in the source are Dafny
methods with loop invariants, each proved equal to a specification function. Expression
code is functions. Lemmas prove what the code promises about those functions.

Modules, one per file:

| module | file | models |
|---|---|---|
| `Js` | js.dfy | JavaScript value semantics used throughout: optional values, `Number()` on decimal text, `toFixed(2)` as a real rounding, lower-casing, `includes`, UTF-16 code-unit string order |
| `Seqs` | seqs.dfy | first-match search, filter, first-occurrence dedup (`new Set`), the stable sort of `Array.prototype.sort`, multiset facts |
| `Payloads` | payloads.dfy | the JSON shapes read: fixture rows in their flat and raw layouts, advanced payloads, compositions, markets |
| `H2HVenueRule` | h2h_venue_rule.dfy | src/logic/rules/h2hVenueRule.ts |
| `StatsExtractors` | stats_extractors.dfy | src/utils/statsExtractors.ts |
| `Football` | football.dfy | src/utils/football.ts |
| `MatchForm` | match_form.dfy | the form calculators and goal reader of src/pages/MatchAnalysis.tsx |
| `MatchStats` | match_stats.dfy | the metric reader, series, scorer table and `statusOf` of src/pages/MatchAnalysis.tsx |
| `MatchPage` | match_page.dfy | `idNameMap`, the market fallback, the prefetch windows, the rule's inputs and `mergedPredictions` of src/pages/MatchAnalysis.tsx |
| `AvgStatsSection` | avg_stats_section.dfy | src/components/stats/AvgStatsSection.tsx |
| `LineupList` | lineup_list.dfy | src/components/LineupList.tsx |
| `ModelBlendBreakdown` | model_blend_breakdown.dfy | src/components/prediction/ModelBlendBreakdown.tsx |
| `Dashboard` | dashboard.dfy | src/pages/Dashboard.tsx |
| `Notifications` | notifications.dfy | src/pages/Notifications.tsx |

Some helpers are copied between files. Identical copies are modelled once:

- `_extractTeams` in src/pages/MatchAnalysis.tsx (lines 52-61) is the same code as
  `extractTeamsFromItem` (src/utils/statsExtractors.ts:22-29) up to names and layout, so
  `MatchForm` uses `StatsExtractors.ExtractTeams`.
- `_num` (MatchAnalysis.tsx:153-156) is `toNumber`, so it is `StatsExtractors.ToNumber`.
- The local `computeAvg` and `pad5` of AvgStatsSection.tsx (lines 7-14) are the shared
  ones, so they are `StatsExtractors.ComputeAvg` and `StatsExtractors.Pad5`.

Copies that differ are kept apart as written. The page's `_readMetricFromAdvanced` walks
its aliases in alias order and compares lower-cased labels. It reads only
`row.table ?? row.statistics`. It is `MatchStats.ReadMetricFromAdvanced`. The shared
`readStatValueFromAdvanced` walks cells in table order and compares `norm`-alised keys. It
tries both `table` and `statistics`. It is `StatsExtractors.ReadStatValueFromAdvanced`.

Modelling choices:

- **Numbers are `real`.** This covers goals, averages, probabilities and confidence.
  Goals are read through `Number(...)` of whatever the payload holds, so a goal count is
  not always an integer. Counts of rows (`n`, `win`, `draw`, `loss`, the tallies) are
  `nat`.
- **`+x.toFixed(2)` is `Js.Round2`.** It rounds an exact real to two decimals, ties away from zero.
- **A JSON field is an `Option`.** A field that may be a non-array is a `Field<T>`: a
  missing, a non-array or an array value. This models `Array.isArray`.
- **The network is a parameter.** The `/advanced/` requests become a parameter `fetch`
  of `MatchStats.FetchedAdvs`. It maps a fixture id to a payload, or to nothing for a
  failed or empty answer.

Two behaviours of the code that are easy to misread:

- The worked example of rule 0 is a home streak of four, margin 1.5 and no market. It
  gives confidence 0.68 and risk "élevé", not "standard" (`H2HVenueRule.WorkedExample`).
- `minN` falls back to 3 only when it is left out. An explicit `minN` of 0 or below is
  used as given (`H2HVenueRule.MinNDefaultOnlyWhenOmitted`).

## Model

| member | source | states |
|---|---|---|
| H2HVenueRule.Clamp | src/logic/rules/h2hVenueRule.ts:23 | for a ≤ b the result lies in [a, b], is x itself inside the interval and the nearer bound outside it |
| H2HVenueRule.ImpliedProb | src/logic/rules/h2hVenueRule.ts:90-92 | a side's probability is the implied one when given, else one over the odds when the odds are non-zero, else unknown |
| H2HVenueRule.Base | src/logic/rules/h2hVenueRule.ts:105 | the base confidence lies in [0.60, 0.75]; it is 0.60 up to three meetings and 0.75 from six |
| H2HVenueRule.MarketBoost | src/logic/rules/h2hVenueRule.ts:106 | the market boost lies in [0, 0.10] and is zero without a market probability or at 40% and below |
| H2HVenueRule.MarginBoost | src/logic/rules/h2hVenueRule.ts:107-108 | the margin boost lies in [0, 0.05] and is zero for a margin that is not positive |
| H2HVenueRule.Confidence | src/logic/rules/h2hVenueRule.ts:104-110 | the confidence always lies in [0.60, 0.90] |
| H2HVenueRule.RiskOf | src/logic/rules/h2hVenueRule.ts:123-124 | "faible" iff c ≥ 0.80, "standard" iff 0.70 ≤ c < 0.80, "élevé" iff c < 0.70 |
| H2HVenueRule.Evaluate | src/logic/rules/h2hVenueRule.ts:32-133 | triggers iff some side is perfect; a lone perfect side is the pick; with both perfect, away wins iff its tie score is higher, or equal with a strictly higher market probability; the pick is perfect; the confidence is that of the pick's form and market probability and lies in [0.60, 0.90]; the risk is its level; the reason names the team and ends with the market sentence iff the market backs the pick; the suggestion names the team and ends with the choice and percentage |
| H2HVenueRule.ReasonEnding | src/logic/rules/h2hVenueRule.ts:112-115 | the reason starts with the team's name and ends with " + marché favorable." exactly when the market supports the pick |
| H2HVenueRule.WorkedExample | src/logic/rules/h2hVenueRule.ts:104-124 | a perfect home streak of four with margin 1.5 and no market picks home at confidence 0.68, risk "élevé", "Choix 1 (68%)." |
| H2HVenueRule.NoMarketConfidence | src/logic/rules/h2hVenueRule.ts:104-110 | without market data the confidence is at most 0.80, and a low risk then needs six meetings and a margin of 2.5 |
| H2HVenueRule.ConfidenceMonotoneInMarket | src/logic/rules/h2hVenueRule.ts:106-110 | a higher market probability for the pick never lowers the confidence, and a known one never lowers it below the no-market value |
| H2HVenueRule.PercentInRange | src/logic/rules/h2hVenueRule.ts:121 | the rounded percentage printed in the suggestion lies between 60 and 90 |
| H2HVenueRule.MinNDefaultOnlyWhenOmitted | src/logic/rules/h2hVenueRule.ts:48-52 | leaving `minN` out means 3; an explicit 0 makes a form with no counts perfect while the default does not |
| H2HVenueRule.MarketOnlyBreaksTies | src/logic/rules/h2hVenueRule.ts:62-87 | odds and implied probabilities change the pick only when both streaks are perfect and tie on score |
| StatsExtractors.ExtractTeams | src/utils/statsExtractors.ts:22-29 | nothing for a missing item; the flat names when either is truthy; otherwise the nested `teams`/`team` names |
| StatsExtractors.Perspective | src/utils/statsExtractors.ts:31-37 | home iff both names resolve and the home name is the team; away iff both resolve, the home name is not the team and the away name is |
| StatsExtractors.NormIsNormal | src/utils/statsExtractors.ts:42-48 | `norm` yields text without upper case, dashes, runs of white space, non-space white space or white space at either end |
| StatsExtractors.NormIdempotent | src/utils/statsExtractors.ts:42-48 | normalising a normalised key changes nothing |
| StatsExtractors.AliasesAreNormalised | src/utils/statsExtractors.ts:50-95 | every alias is stored normalised, so a key matches a metric iff its normal form is that of one of the metric's written aliases |
| StatsExtractors.ToNumber | src/utils/statsExtractors.ts:97-101 | a missing, null or empty value reads as 0; a number reads as itself |
| StatsExtractors.ToNumberOfNumeral | src/utils/statsExtractors.ts:97-101 | a whole number written in decimal, with or without a trailing "%", reads back as that number |
| StatsExtractors.ReadStatValueFromItem | src/utils/statsExtractors.ts:109-174 | the loops return exactly the specification value: first usable `statistics` row, then first usable `table` row, then the flat field |
| StatsExtractors.ItemValueIsFirstUsableRow | src/utils/statsExtractors.ts:116-130 | a value found among the `statistics` rows comes from the first row, in array order, whose key is an alias and whose side value parses |
| StatsExtractors.ItemValueFallback | src/utils/statsExtractors.ts:148-171 | with no usable row the result is the flat `<metric>_<side>` field through `toNumber`, so 0 when that field is missing |
| StatsExtractors.ItemValueNoneCases | src/utils/statsExtractors.ts:114-173 | the reader gives nothing iff the item is missing, or no row reads and the flat field is present but not a number |
| StatsExtractors.FlatKeyIsMetricAndSide | src/utils/statsExtractors.ts:150-171 | the fallback key of every metric is its identifier followed by "_home" or "_away" |
| StatsExtractors.ReadStatValueFromAdvanced | src/utils/statsExtractors.ts:181-224 | the loops return exactly the specification value of the advanced reader |
| StatsExtractors.AdvancedValueSource | src/utils/statsExtractors.ts:186-197 | a value comes from the first row whose normalised team equals the normalised team name |
| StatsExtractors.TeamRowValueTableFirst | src/utils/statsExtractors.ts:199-209 | a `table` cell that reads wins over every `statistics` cell |
| StatsExtractors.AdvancedValueNoRows | src/utils/statsExtractors.ts:188-189 | a payload whose rows are missing, not an array or empty gives nothing |
| StatsExtractors.ComputeAvg | src/utils/statsExtractors.ts:227-232 | the average is missing iff no entry is present |
| StatsExtractors.AvgWithinBounds | src/utils/statsExtractors.ts:227-232 | the average lies between bounds of the present values, up to the two-decimal rounding |
| StatsExtractors.PresentEmpty | src/utils/statsExtractors.ts:228-229 | no value survives the filter iff every entry is missing |
| StatsExtractors.Pad5 | src/utils/statsExtractors.ts:235-236 | exactly five slots, the first min(5, length) entries in order, the rest the fill value |
| StatsExtractors.FixtureIdOf | src/utils/statsExtractors.ts:239-248 | the first present id of `fixture.id`, `id`, `match_id`, `fixture_id`, `game_id`, else null |
| Football.FmtScore | src/utils/football.ts:4-11 | a text score is unchanged; otherwise the full-time score when it has a side, else the half-time one, and "-" iff neither has a side |
| Football.RawDate | src/utils/football.ts:24-25 | empty without a date; otherwise as long as the date up to 16 characters, and a date without "T" is shown as its first 16 characters |
| Football.IsoDate | src/utils/football.ts:24-25 | an ISO timestamp shows as its day, a space and its hour and minute |
| Football.ToRow | src/utils/football.ts:14-35 | the flat layout is used iff date and both names are non-empty, with its own id order; the raw layout defaults the names to "Équipe A"/"Équipe B" and uses `fixture.id ?? id ?? fixture_id` |
| Football.FixtureIdAgreesWithRow | src/utils/football.ts:30 | for a raw row without `match_id`, `fixtureIdOf` finds the id `toRow` finds |
| Football.CompactH2H | src/utils/football.ts:39-51 | nothing iff the list is not an array or empty; otherwise the tally of the first ten meetings, counting at most ten, each column the number of those meetings with that result |
| Football.Tally | src/utils/football.ts:42-49 | the three columns together count at most the meetings given |
| Football.TallyColumns | src/utils/football.ts:44-48 | the home-win column counts the meetings with more home goals, the draw column those with equal goals, the away-win column those with fewer |
| Football.TallyCountsParsed | src/utils/football.ts:42-49 | every meeting whose goals read as numbers is counted exactly once |
| Football.MissingGoalsDraw | src/utils/football.ts:43-46 | a meeting without goals reads 0-0 and adds one draw |
| MatchForm.ExtractGoals | src/pages/MatchAnalysis.tsx:63-76 | a "d-d" score text wins over the goal fields; a missing row has no goals |
| MatchForm.ScoreTextRoundTrip | src/pages/MatchAnalysis.tsx:64-67 | a score text "a-b" of two counts reads back as goals a and b |
| MatchForm.DigitsScoreText | src/pages/MatchAnalysis.tsx:65-66 | two digit strings joined by a dash match the score pattern and split back into their two numbers |
| MatchForm.GoalsIgnoreScoreParts | src/pages/MatchAnalysis.tsx:69-71 | the goals never depend on `score.fulltime` or `score.halftime` |
| MatchForm.ComputeCompactForm | src/pages/MatchAnalysis.tsx:78-114 | the counting loop returns exactly the summary of the counted rows of the first five |
| MatchForm.SummariseWindow | src/pages/MatchAnalysis.tsx:81-103 | after the loop, `n` is the number of counted rows, the win, draw and loss counters and the letters are those of the rows' results, and the sums are the goals for and against |
| MatchForm.FormCounts | src/pages/MatchAnalysis.tsx:97-112 | win + draw + loss = n, the letters spell the outcomes in input order, and each letter's count is its column |
| MatchForm.LetterMeaning | src/pages/MatchAnalysis.tsx:101-103 | W iff goals for exceed goals against, D iff equal, L iff fewer |
| MatchForm.OutcomesOfConcat | src/pages/MatchAnalysis.tsx:85-104 | rows are counted in input order |
| MatchForm.FormWindowBound | src/pages/MatchAnalysis.tsx:85 | the form of any list covers at most five rows |
| MatchForm.FormWindowExtension | src/pages/MatchAnalysis.tsx:85 | rows after the fifth never change the form |
| MatchForm.FormMissing | src/pages/MatchAnalysis.tsx:79-106 | the form is missing iff the list is not an array, the team name is missing or empty, or no row of the window counts |
| MatchForm.OutcomesEmpty | src/pages/MatchAnalysis.tsx:86-106 | no outcome iff every row is skipped |
| MatchForm.ComputeVenueForm | src/pages/MatchAnalysis.tsx:116-127 | the venue form is the form of the rows where the team held the venue, at most five of them |
| MatchForm.VenueRowsHeldVenue | src/pages/MatchAnalysis.tsx:122-125 | every row kept by the venue filter is an input row where the team held that venue |
| MatchForm.VenuePrefilterRedundant | src/pages/MatchAnalysis.tsx:605-608 | filtering by venue before the venue form changes nothing |
| MatchForm.PerfectFormIsAllWins | src/pages/MatchAnalysis.tsx:607-619 | a computed form is perfect for the rule's default threshold iff it covers at least three rows, all wins |
| MatchStats.PageAliases | src/pages/MatchAnalysis.tsx:137-151 | every metric has at least one alias |
| MatchStats.ReadMetricFromAdvanced | src/pages/MatchAnalysis.tsx:158-185 | the loop over aliases returns exactly the specification value |
| MatchStats.AliasOrderWins | src/pages/MatchAnalysis.tsx:174-183 | a value comes from the first alias, in alias order, whose first labelled cell parses; nothing iff no alias gives one |
| MatchStats.FirstLabelledCellOnly | src/pages/MatchAnalysis.tsx:175-182 | only the first cell with a label is read, even when it does not parse |
| MatchStats.MetricValueIgnoresCase | src/pages/MatchAnalysis.tsx:163-168 | the team name matters only up to lower-casing |
| MatchStats.MetricValueMissing | src/pages/MatchAnalysis.tsx:159-172 | a payload without rows, without the team's row, or whose table is not an array gives nothing |
| MatchStats.FetchedAdvs | src/pages/MatchAnalysis.tsx:437-449 | one payload slot per numeric fixture id of the list, in order, each the answer for that id |
| MatchStats.NoIdsNoSeries | src/pages/MatchAnalysis.tsx:441 | a list without numeric ids fetches nothing and gives an empty series |
| MatchStats.Series | src/pages/MatchAnalysis.tsx:451-457 | a series has one slot per payload |
| MatchStats.FailedFetchIsGap | src/pages/MatchAnalysis.tsx:448-454 | a failed request is an empty slot in every series |
| MatchStats.AggregateScorers | src/pages/MatchAnalysis.tsx:459-479 | the tally loop over the map returns exactly the specified sorted table of counted scorers |
| MatchStats.ScorerTableSorted | src/pages/MatchAnalysis.tsx:475-477 | the table is sorted by goals and then share, both descending, and is a permutation of the per-scorer rows |
| MatchStats.ScorerRows | src/pages/MatchAnalysis.tsx:465-476 | each scorer of a counted goal has exactly one row, with at least one goal, their count of counted goals and their share of the total |
| MatchStats.ScorerTotal | src/pages/MatchAnalysis.tsx:471-476 | the rows' goals add up to the number of counted goals |
| MatchStats.UncountedGoalIgnored | src/pages/MatchAnalysis.tsx:466-470 | another team's goal, an own goal or a goal without a scorer leaves the table unchanged |
| MatchStats.StatusOf | src/pages/MatchAnalysis.tsx:507-516 | "Inconnu" without a composition; otherwise XI, Banc, Absent for the first list naming the player, else "Inconnu" |
| MatchStats.StarterWins | src/pages/MatchAnalysis.tsx:512 | a player listed among the starters is "XI" whatever the other lists say |
| MatchStats.WithStatus | src/pages/MatchAnalysis.tsx:518-519 | the rows keep their order and each gets its player's status |
| MatchPage.BuildIdNameMap | src/pages/MatchAnalysis.tsx:260-284 | the loop fills exactly the specified map: `players_index`, then every candidate in page order |
| MatchPage.NamedEntriesKept | src/pages/MatchAnalysis.tsx:262-268 | a name already in `players_index` is never replaced |
| MatchPage.NameMapKeys | src/pages/MatchAnalysis.tsx:262-281 | the keys are those of `players_index` and of the candidates whose id and name are truthy |
| MatchPage.FirstCandidateWins | src/pages/MatchAnalysis.tsx:264-281 | a key without a name gets the name of the first eligible candidate with that key |
| MatchPage.MergeMarket | src/pages/MatchAnalysis.tsx:353-371 | an existing market whose odds object has any key is kept as it is; the base market stands in for a missing one; the 1X2 record replaces a missing or keyless odds object with a three-key one holding its quotes; otherwise the kept market is unchanged; nothing without either market or record |
| MatchPage.OddsFrom1X2 | src/pages/MatchAnalysis.tsx:369 | the odds built from the 1X2 record hold its three quotes under three keys, so they count as present |
| MatchPage.NullOddsKept | src/pages/MatchAnalysis.tsx:365 | an odds object whose three keys all hold null is kept, and the 1X2 record is ignored |
| MatchPage.EmptyOddsReplaced | src/pages/MatchAnalysis.tsx:365-370 | an odds object with no keys is replaced by the 1X2 record, the rest of the market kept |
| MatchPage.MergeMarketIdempotent | src/pages/MatchAnalysis.tsx:353-371 | running the fallback again changes nothing |
| MatchPage.WindowsNest | src/pages/MatchAnalysis.tsx:414-427 | the five rows of the averages are a prefix of the eight rows of the scorers |
| MatchPage.H2HListRows | src/pages/MatchAnalysis.tsx:417-423 | at most five head-to-head rows per side, each a meeting where the team held the venue |
| MatchPage.RuleInputs | src/pages/MatchAnalysis.tsx:611-619 | the rule gets no `minN` |
| MatchPage.RuleFormsAreVenueForms | src/pages/MatchAnalysis.tsx:604-619 | each form handed to the rule is the venue form of the whole head-to-head list |
| MatchPage.RuleFiresOnPerfectStreak | src/pages/MatchAnalysis.tsx:604-619 | rule 0 fires iff a team won every one of at least three of its first five head-to-head meetings at its venue |
| MatchPage.MergedPredictions | src/pages/MatchAnalysis.tsx:621-626 | a fired rule puts its suggestion first followed by the analysis's suggestions unchanged; otherwise the suggestions alone |
| AvgStatsSection.MetricOrderComplete | src/components/stats/AvgStatsSection.tsx:71-82 | ten entries, distinct metrics, every metric listed |
| AvgStatsSection.MetricCard | src/components/stats/AvgStatsSection.tsx:52-59 | the title, and five slots holding the list's first five entries then empty slots; the average is missing iff all five slots are empty; the count is at most the list's length |
| AvgStatsSection.CardAverageOfFirstFive | src/components/stats/AvgStatsSection.tsx:57-58 | the card's average is the average of the first five entries |
| AvgStatsSection.CardCountCoversSlots | src/components/stats/AvgStatsSection.tsx:57-59 | the count covers every value shown and equals it for lists of at most five |
| AvgStatsSection.HasAnyValueMeansSomeMetric | src/components/stats/AvgStatsSection.tsx:84-87 | false for a missing series; otherwise true iff some metric has a value |
| AvgStatsSection.CardsCountExactlyWhenAnyValue | src/components/stats/AvgStatsSection.tsx:84-87 | a series has a value iff one of its cards counts one |
| AvgStatsSection.H2HVisibility | src/components/stats/AvgStatsSection.tsx:129-158 | the block shows iff one sub-block does, and each sub-block iff its side has a value |
| AvgStatsSection.EmptySeriesHidden | src/components/stats/AvgStatsSection.tsx:84-87 | a series without values hides its sub-block |
| AvgStatsSection.Cards | src/components/stats/AvgStatsSection.tsx:112-113 | one card per metric in display order, each over its metric's series |
| AvgStatsSection.Section | src/components/stats/AvgStatsSection.tsx:98-160 | a waiting view iff loading; otherwise home and away cards, and each head-to-head side's cards iff it has a value |
| LineupList.BuildNameIndex | src/components/LineupList.tsx:95-109 | the loops build exactly the index of xi, bench and out; empty for a missing side |
| LineupList.PushAllLastWins | src/components/LineupList.tsx:98-103 | the last indexable player with an id holds the name |
| LineupList.NameIndexMeaning | src/components/LineupList.tsx:95-109 | a key is indexed iff some player of the three lists has that numeric id and a truthy name, and its name is non-empty |
| LineupList.OutOverwritesXi | src/components/LineupList.tsx:105-107 | an absentee overwrites a starter with the same id |
| LineupList.DisplayName | src/components/LineupList.tsx:80-83 | the player's own name when set, else the indexed name when non-empty, else "Inconnu" |
| LineupList.AbsentNameFromIndex | src/components/LineupList.tsx:80-83 | an unnamed absentee whose id is indexed shows the indexed name |
| LineupList.EmptyNameKept | src/components/LineupList.tsx:81 | an empty own name is shown as it is, not replaced |
| LineupList.StatusIcon | src/components/LineupList.tsx:45-55 | no icon for a falsy status; injury when the lower-cased status starts with "injur"; else suspension when it contains "susp"; else none |
| LineupList.StatusIconOfKnownStatuses | src/components/LineupList.tsx:45-55 | concrete statuses classify as expected, injury winning over suspension |
| LineupList.ExactStatusesRedundant | src/components/LineupList.tsx:48-51 | the exact comparisons with "injury" and "suspension" add nothing to the prefix and substring tests |
| LineupList.OutRow | src/components/LineupList.tsx:79-92 | the row shows the resolved name, the status icon, and the reason or else the status |
| LineupList.TeamColumn | src/components/LineupList.tsx:111-172 | the counts of xi, bench and out, and one row per absentee resolved against the side's index |
| LineupList.Card | src/components/LineupList.tsx:175-223 | the composition falls back to `comp`; unavailable iff it has neither side; titles fall back to the names, then "Domicile"/"Extérieur" |
| LineupList.CompositionWins | src/components/LineupList.tsx:191 | a given composition makes `comp` irrelevant |
| LineupList.ColumnTitlesNonEmpty | src/components/LineupList.tsx:202-203 | both column titles are non-empty |
| ModelBlendBreakdown.Clamp01 | src/components/prediction/ModelBlendBreakdown.tsx:27 | the value is clamped into [0, 1], a missing one reading 0 |
| ModelBlendBreakdown.Fixed1ReadsBack | src/components/prediction/ModelBlendBreakdown.tsx:28 | the one-decimal text reads back, through `Number`, as the value rounded to tenths, which is within 0.05 of it |
| ModelBlendBreakdown.Pct | src/components/prediction/ModelBlendBreakdown.tsx:26-29 | the text is a numeral with one decimal followed by "%" |
| ModelBlendBreakdown.PctReadsBack | src/components/prediction/ModelBlendBreakdown.tsx:26-29 | the numeral before the "%" reads back as the clamped value in percent, rounded to tenths |
| ModelBlendBreakdown.PctOfClamped | src/components/prediction/ModelBlendBreakdown.tsx:26-29 | the text depends only on the clamped value: "0.0%" at or below zero or missing, "100.0%" at one and above |
| ModelBlendBreakdown.Percent | src/components/prediction/ModelBlendBreakdown.tsx:43 | the clamped value in percent, the bar's width, lies in [0, 100] and is the percentage of an in-range value |
| ModelBlendBreakdown.SortHeadIsFirstMax | src/components/prediction/ModelBlendBreakdown.tsx:38 | the head of the stable descending sort is the first item of highest value |
| ModelBlendBreakdown.BestLabel | src/components/prediction/ModelBlendBreakdown.tsx:31-40 | "-" without a trio; otherwise "1" iff home is positive and highest, "X" iff draw is positive and beats home and ties away at worst, "2" iff away is positive and strictly highest, "-" iff nothing is positive |
| ModelBlendBreakdown.SortedHead | src/components/prediction/ModelBlendBreakdown.tsx:33-38 | the head of the sorted items is home iff home is highest, draw iff it beats home and ties away at worst, away iff strictly highest, and holds that value |
| ModelBlendBreakdown.RowLine | src/components/prediction/ModelBlendBreakdown.tsx:54-98 | the row carries its model name, emphasis, best pick and weight or "—"; a present trio shows each side's bar and text, a missing one empty bars |
| ModelBlendBreakdown.Breakdown | src/components/prediction/ModelBlendBreakdown.tsx:105-151 | shown iff some trio has a value; rows A1, A2, A3 are their trios' rows with their weights, unemphasised, and BLEND the blend's row, emphasised without weight; the reason iff non-empty |
| ModelBlendBreakdown.EmptyTriosHidden | src/components/prediction/ModelBlendBreakdown.tsx:111-119 | trios that are present but empty hide the table |
| ModelBlendBreakdown.BlendAloneShows | src/components/prediction/ModelBlendBreakdown.tsx:111-143 | a blend probability alone shows the table |
| Js.StrLeIsUnitOrder | src/pages/Dashboard.tsx:79 | the string order is the lexicographic order of the two strings' UTF-16 code units, the order of `sort()` |
| Js.AstralBeforeHighPlane | src/pages/Dashboard.tsx:79 | a character above U+FFFF sorts before one in U+E000–U+FFFF, against code-point order |
| Dashboard.Championships | src/pages/Dashboard.tsx:74-80 | the choices are exactly the non-empty championships of either list, strictly increasing, so each once |
| Dashboard.ChoicesOf | src/pages/Dashboard.tsx:78-79 | de-duplicating and sorting the truthy names leaves each non-empty name once, in increasing order |
| Dashboard.ChampionshipOfEither | src/pages/Dashboard.tsx:75-78 | a name is in the two mapped lists iff a match of either list carries it |
| Dashboard.FilteredMatches | src/pages/Dashboard.tsx:83-93 | a sub-multiset of the day's matches holding exactly those that match the search, championship and date, sorted by time |
| Dashboard.FilteredLiveMatches | src/pages/Dashboard.tsx:96-105 | the same search and championship filter without a date, sorted by time |
| Dashboard.SortedFilterMeaning | src/pages/Dashboard.tsx:83-105 | a filtered list sorted by time keeps each kept match as often as given and nothing else |
| Dashboard.DayIsLiveOnDate | src/pages/Dashboard.tsx:83-105 | on one list the day filter is the live filter narrowed to the date |
| Dashboard.EmptySearchKeepsNamed | src/pages/Dashboard.tsx:87-88 | an empty search keeps every match that names a team |
| Dashboard.Shown | src/pages/Dashboard.tsx:173-209 | a waiting message iff the tab's list is loading; otherwise its filtered list, or the empty message iff that list is empty |
| Notifications.MarkAsRead | src/pages/Notifications.tsx:26-33 | same length and order; entries with the id become read with every other field kept; the others are unchanged |
| Notifications.MarkAllAsRead | src/pages/Notifications.tsx:35-36 | every entry becomes read with every other field kept |
| Notifications.MarkIdempotent | src/pages/Notifications.tsx:26-36 | marking twice is marking once, for one id and for all |
| Notifications.MarkAsReadThenAll | src/pages/Notifications.tsx:26-36 | one id then all is all; marking two ids commutes |
| Notifications.MarkUnknownId | src/pages/Notifications.tsx:28-30 | an id no entry carries changes nothing |
| Notifications.UnreadAfterMark | src/pages/Notifications.tsx:26-36 | marking an id lowers the unread count by that id's unread entries; marking all leaves none |
| Notifications.GetColor | src/pages/Notifications.tsx:48-59 | ends with "opacity-60" iff read and "opacity-100" otherwise; success and error colours for those types, info for every other |
| Notifications.OtherKindsLookLikeInfo | src/pages/Notifications.tsx:55-57 | an unknown type looks like "info" |
| Notifications.ReadOnlyChangesOpacity | src/pages/Notifications.tsx:48-58 | read and unread cards of a type differ only in their opacity |
| Notifications.HandleClick | src/pages/Notifications.tsx:40-46 | the list is marked for the id; an alert exists iff some entry has the id, and it shows the first such entry's title and message |

## Left out

- The HTTP requests are left out: the match, analysis, live and `/advanced/` fetches, with
  their `Promise.all`/`allSettled` concurrency. The fetch result is the `fetch` parameter
  of `MatchStats.FetchedAdvs`. The match page's loading of the analysis payload is left
  out too; `MatchPage.MergeMarket` takes the fields it reads as arguments.
- React state, effects, memo hooks and JSX are left out. The model reaches as far as what
  a component decides to show: `AvgStatsSection.Section`, `LineupList.Card`,
  `ModelBlendBreakdown.Breakdown`, `Dashboard.Shown`. CSS classes other than the
  notification colours are left out.
- Browser calls are left out. The click alert is the value `Notifications.HandleClick`
  returns; the alert of "mark all" and console logging are not modelled. The Dashboard's
  selected date, which defaults to today, is a parameter, since the clock is not modelled.
- IEEE floating point is left out: arithmetic is on exact reals. `+x.toFixed(2)` is an
  explicit rounding to hundredths, ties away from zero (`Js.Round2`). The `toFixed` text of
  the rule's reason (`Js.Fixed2`) and of the percentages (`ModelBlendBreakdown.Fixed1`) is
  built from that exact rounding, not from the IEEE value.
- StatsExtractors.ComputeAvg: its value is stated through `AvgWithinBounds` and the "missing
  iff no value" contract. The exact two-decimal value under floating-point `toFixed` is
  left out.
- H2HVenueRule.Evaluate: the reason and the suggestion are stated by how they start and
  end, not character by character; the goal averages inside the reason are printed from
  an exact rounding, and `Math.round(confidence * 100)` is a half-up rounding on reals.
- `Number()` is modelled on decimal numerals with an optional fraction, surrounding white
  space removed, and `Number("") = 0`. Hexadecimal, exponents and "Infinity" are
  left out; such text reads as not a number. The white space removed is the whole set
  JavaScript's `trim()` removes.
- `toLowerCase` is modelled on ASCII letters. The `localeCompare` of the Dashboard sorts
  and the default `sort()` of the championship names are modelled as UTF-16 code-unit
  order (`Js.StrLe`). Dafny strings hold code points, so `StrLe` ranks each character by
  its code units, and `Js.StrLeIsUnitOrder` proves the result is the lexicographic order of
  the strings' UTF-16 encodings. Locale collation is left out.
- Goals are `real` rather than `int`. The source reads them through `Number(...)`, which
  can give fractions. Counts of rows are `nat`.
- Entries of a list that are not objects are modelled where the source guards against
  them: `MatchForm`, `Football.CompactH2H` and `MatchStats` take `Option` rows. The lineup
  lists, whose `null` entries would crash `OutRow`, hold players only.
- A probability field of a trio that holds a non-number is read as missing
  (`ModelBlendBreakdown`, `H2HVenueRule`). JavaScript arithmetic on strings is left out.
- Thin display components are not part of this model. These are `PlayerRow`, `Badge`,
  `MetricBreakdownCard`, `Bar`'s markup and the lineup legend. Their files have nothing
  to state beyond what the rows above cover.
