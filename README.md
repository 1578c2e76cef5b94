# Crime report computations of the Sinaloa site, in Dafny

The site publishes the official crime counts of Mexico's national public-security system.
It has three parts: a national homicide report, maps and tables for the state of Sinaloa,
and an analysis of the "war period" that began in September 2024 in six of Sinaloa's
municipalities. Under its chart, map and page code sits a layer of small computations,
and this project models that layer:

- reading the CSV exports, with each script's own reader;
- rates per 100,000 inhabitants;
- percent changes (yearly, monthly, month to month and year over year);
- national and regional sums and contribution weights;
- top-10 rankings;
- the threshold colour ladders and the marker and circle sizes of the maps;
- name lookups: state abbreviations, accent normalisation, the four-region partition of
  Sinaloa and the border municipalities.

Each module matches one script of the site, plus shared modules for what several scripts
repeat:

- `JsStrings`, `JsNumbers`: the string builtins and `parseInt`/`parseFloat`.
- `Collections`: the array pipelines, meaning a stable descending sort, `slice`, `filter`,
  `new Set` and objects filled key by key.
- `Csv`: every reader variant as one `Format`.
- `Periods`: the month labels.
- `Scales`: maxima, minima and linear sizes.
- `Ladders`: threshold colour ladders.
- `Controls`: the selectors and the period slider.
- `PercentChanges`: the shared "previous value 0 gives 0" change rule.

The modules per script:

- `scripts/main.js` is modelled by `Report`, `ReportChanges`, `ReportRates`, `ReportContribution` and `ReportLabels`.
- `scripts/heatmap_sinaloa.js` is modelled by `Heatmap`.
- `scripts/regional_analysis.js` is modelled by `Regional`.
- `scripts/spillover_enhanced.js` is modelled by `SpilloverEnhanced`.
- `scripts/spillover.js` is modelled by `Spillover`.
- `scripts/municipal_map.js` is modelled by `MunicipalMap`.
- `scripts/choropleth_map.js` is modelled by `Choropleth`.
- `scripts/sinaloa_war_web_analysis.js` is modelled by `WarAnalysis`.

Conventions of the model:

- A CSV row is a `map<string, string>` from header to cell.
- JavaScript's `undefined` is `None`.
- `parseInt(x) || 0` and `parseFloat(x) || 0` are total functions that give 0 where
  JavaScript gets `NaN`.
- Counts are `int`; rates, percentages and intensities are exact `real`s.
- Objects whose fields the scripts update in place are classes whose methods state their
  new state. Sorting, filtering and slicing are functions on sequences, and the loops of
  the scripts are methods proved against those functions.
- Fetched text, the page's elements and the selectors' values are parameters.

## Model

| member | source | states |
|---|---|---|
| Report.ParseCsv | scripts/main.js:77-99 | `parseCSV`: one row per line after the header of the trimmed text, each keyed by exactly the trimmed headers; the per-line content is stated by Report.ParseCsvLines and Report.ParseCsvKeys |
| Report.ParseCsvCount | scripts/main.js:77-99 | the report's reader returns one row per line after the header of the trimmed text (one per newline); blank lines are kept |
| Report.ParseCsvLines | scripts/main.js:77-99 | row k is built from line k + 1, split on commas, with `''` for missing fields |
| Report.ParseCsvKeys | scripts/main.js:79-89 | every row has exactly the trimmed headers as keys and every value is trimmed |
| Report.PeriodDataFacts | scripts/main.js:545-550 | the per-period filter keeps exactly the rows of that period whose `Estado` is a non-blank string, and no more rows than it is given |
| Report.PeriodDataAppend | scripts/main.js:545-550 | the filter of two batches is the filter of the first followed by the filter of the second, so the kept rows keep their order and their repeats, which decides the ties of the stable sort at main.js:556 |
| Report.RankingTables | scripts/main.js:539-557 | `generateRankingTables`: one table per distinct period that has rows, in order of first appearance (Report.RankingTablesSound, Report.RankingTablesOrdered), each as Report.TopTenFacts states |
| Report.TopTenFacts | scripts/main.js:552-557 | a period's table holds min(10, number of its rows) of its rows, so 1 to 10, each paired with `parseInt` of the chosen column, in descending order, and no row left out ranks above a row kept |
| Report.TablesSound | scripts/main.js:543-557 | every table belongs to a listed period with rows and holds that period's top ten |
| Report.TablesComplete | scripts/main.js:543-552 | every listed period with rows gets a table (`periodData.length === 0` skips only empty periods) |
| Report.TablesOrdered | scripts/main.js:543 | the tables follow the order of the listed periods |
| Report.RankingTablesSound | scripts/main.js:539-557 | over the distinct `Periodo` values, every table is its period's top ten and every period with rows has one |
| Report.RankingTablesOrdered | scripts/main.js:539 | the tables follow the order in which periods first appear in the data |
| Report.DistinctInOrder | scripts/main.js:539 | following the order of `[...new Set(column)]` is following the order of first appearance in the column |
| Report.LastNonCritical | scripts/main.js:1809-1814 | the reverse scan finds the last entry that is not a critical state, or -1 when all are critical |
| Report.EnsureCritical | scripts/main.js:1805-1816 | the selected list keeps its length; what is overwritten and that every critical state ends up selected are stated by Report.EnsureCriticalKeeps, Report.EnsureCriticalIncludes and Report.AllCriticalIncluded |
| Report.EnsureCriticalKeeps | scripts/main.js:1805-1816 | the replacement step only overwrites non-critical entries, with critical states; every other entry stays, and so does the length |
| Report.AllCriticalIsShort | scripts/main.js:1809-1814 | when every entry is critical and a critical state is missing, there are fewer than four entries |
| Report.OverwriteFacts | scripts/main.js:1811 | overwriting one entry with a missing state keeps the entries distinct and adds that state |
| Report.IncludeStep | scripts/main.js:1806-1815 | one step of `estadosCriticos.forEach` keeps entries distinct, adds the state and keeps the critical states already selected |
| Report.EnsureCriticalIncludes | scripts/main.js:1805-1816 | with at least four distinct states selected, after the handled critical states are all included and no state appears twice |
| Report.AllCriticalIncluded | scripts/main.js:1805-1818 | with at least four distinct states selected, all four critical states end up selected and the length is unchanged |
| Report.ReplaceLastInPlace | scripts/main.js:1809-1814 | the in-place reverse loop leaves the array equal to `ReplaceLast` of its old contents |
| Report.EnsureCriticalInPlace | scripts/main.js:1805-1816 | the in-place replacement leaves the array equal to `EnsureCritical` of its old contents with the four critical states |
| ReportChanges.YearlyChanges | scripts/main.js:2349-2358 | one change per year 2019-2025, and 0 for every year whose previous year's count is not positive |
| PercentChanges.PercentChange | scripts/main.js:2353-2356 | a non-positive previous value gives 0 |
| PercentChanges.PercentChangeMeaning | scripts/main.js:2353-2356 | for a positive previous value: change·prev = (cur − prev)·100, positive iff cur > prev, zero iff equal, never below −100 for a non-negative count |
| PercentChanges.ChangeOfBase | scripts/main.js:2372-2375 | any value produced by the rule is 0 on a non-positive base and satisfies change·prev = (cur − prev)·100 otherwise |
| ReportChanges.Found | scripts/main.js:2342-2344 | the crime types looked up that have a row, in the fixed order; all of them when every type has a row |
| ReportChanges.CrimeRows | scripts/main.js:2342-2363 | one line per found type, with its display name and the yearly changes of the first row with that `Delito` |
| ReportChanges.CalculateCambiosPorcentuales | scripts/main.js:2335-2382 | no result for empty data (the source reads a field of `undefined` there); otherwise the crime lines followed by one `TOTAL VIOLENCIA HOMICIDA` line computed from the last row |
| ReportChanges.CalculateCambiosPorcentualesMensuales | scripts/main.js:2384-2468 | one line per crime type in the fixed order plus a total line over `Total`, each the map of monthly changes |
| ReportChanges.MonthlyChanges | scripts/main.js:2405-2431 | the object of one column's monthly changes keyed by period, later rows overwriting earlier ones; its keys and values are stated by ReportChanges.MonthlyKeys and ReportChanges.MonthlyChangeAt |
| ReportChanges.MonthlyKeys | scripts/main.js:2405-2431 | the keys of a monthly line are exactly the periods of the rows |
| ReportChanges.MonthlyChangeAt | scripts/main.js:2405-2430 | for a period occurring once: the first row compares with the December 2023 baseline when it is `Enero 2024` and is 0 otherwise; later rows compare with the row before them |
| ReportChanges.StateChangeAt | scripts/main.js:1709-1748 | the change of one state at one period, absent when its current or previous row is missing; ReportChanges.StateChangeKey states when an entry exists and what it holds |
| ReportChanges.StateChangeList | scripts/main.js:1709-1749 | one optional change per distinct period for a state |
| ReportChanges.CalculateMonthlyStateChanges | scripts/main.js:1702-1753 | one entry per distinct `Estado` in order of first appearance, each with its map of changes over the distinct periods |
| ReportChanges.StateChangeKey | scripts/main.js:1709-1748 | a period key is present exactly when the state has the current and the previous row, or the January and December 2023 rows, and then it holds that change |
| ReportChanges.ColumnSumAppend | scripts/main.js:772 | the `reduce` sum of a column splits over concatenation |
| ReportChanges.NationalForPeriod | scripts/main.js:770-773 | `calculateNationalForPeriod`: the column summed over the rows of one period; ReportChanges.NationalForPeriodSplit states how it splits the column total |
| ReportChanges.NationalForPeriodSplit | scripts/main.js:770-773 | the national value of a period plus the sum over the other periods' rows is the sum over all rows |
| ReportChanges.NationalOf | scripts/main.js:728-734 | the national totals with key 0 and name `NACIONAL`; additivity is stated by ReportChanges.NationalOfAppend and the accumulation by ReportChanges.CalculateNationalAbsolute |
| ReportChanges.NationalOfAppend | scripts/main.js:728-734 | every national total is additive over the rows |
| ReportChanges.CalculateNationalAbsolute | scripts/main.js:715-737 | the `forEach` accumulation equals the per-column sums over all rows |
| ReportContribution.EntryOf | scripts/main.js:3518-3534 | a category's line takes the 2024 and 2025 counts of its first row, with absolute change their difference and the percent-change rule as relative change |
| ReportContribution.EntriesFacts | scripts/main.js:3517-3536 | at most one line per category, each a consistent line of a category that has a row |
| ReportContribution.EntriesAllPresent | scripts/main.js:3517-3536 | when every category has a row, there is one line per category, in order |
| ReportContribution.TotalsOf | scripts/main.js:3538-3540 | the totals are the sums of the yearly counts, their difference and the percent-change rule |
| ReportContribution.Weighted | scripts/main.js:3543-3545 | each line gets weight change/total·100, or 0 when the total change is 0 |
| ReportContribution.ChangesAddUp | scripts/main.js:3522-3539 | the per-category absolute changes sum to total 2025 − total 2024 |
| ReportContribution.WeightsLinear | scripts/main.js:3544 | with a non-zero total, the weights sum to the sum of changes over the total, times 100 |
| ReportContribution.WeightsSumTo100 | scripts/main.js:3539-3545 | the weights sum to exactly 100 when the total change is non-zero, and are all 0 otherwise |
| ReportContribution.SetWeights | scripts/main.js:3543-3545 | the weight loop sets every line's weight from its change and the total change, and keeps the rest of each line |
| ReportContribution.Analyse | scripts/main.js:3513-3545 | the loop with `let total2024/total2025` and the in-place weight update compute `TotalsOf` and `Weighted` of the lines |
| ReportContribution.GenerateAnalisisContribucion | scripts/main.js:3509-3553 | the analysis over the four fixed categories |
| ReportLabels.AbbreviateStateName | scripts/main.js:632-676 | `'N/A'` for a missing or empty name, the table's value for a known state, otherwise the first four characters upper-cased; never longer than four |
| ReportLabels.GetStateAbbreviation | scripts/main.js:3713-3749 | the table's value for a known state, otherwise the first four characters upper-cased |
| ReportLabels.AbbreviationTablesAgree | scripts/main.js:632-676 | both tables have the same states and agree on every name except Tamaulipas (`TAMS` versus `TAMP`) |
| ReportLabels.HeatmapColor | scripts/main.js:2106-2114 | six colours with strict thresholds 0.8/0.6/0.4/0.2/0.1, each stated as an if-and-only-if on its interval |
| ReportRates.CalculateRate | scripts/main.js:2491-2494 | 0 when the population is missing or 0 |
| ReportRates.RateTimesPopulation | scripts/main.js:2493 | for a non-zero population, rate·population = cases·100000 |
| ReportRates.FirstWithClave | scripts/main.js:2472-2474 | the first row whose `parseInt(Clave_Entidad)` equals the key, or none |
| ReportRates.GetPoblacion | scripts/main.js:2471-2488 | a population found is positive |
| ReportRates.GetPoblacionCases | scripts/main.js:2471-2488 | none when no row matches, the year's cell is missing or empty, or the digits-only cell parses to 0; otherwise the value of its digits |
| ReportRates.PopulationOf | scripts/main.js:2506-2508 | present exactly when `getPoblacion` finds one, and then positive |
| ReportRates.ConvertToRates | scripts/main.js:2497-2531 | one rate line per input row, over the years 2019-2025 |
| ReportRates.RateRowOf | scripts/main.js:2501-2528 | one converted row keeps the crime name and has one rate per year; the yearly rates and the weighted total are stated by ReportRates.YearRateMeaning, ReportRates.ConstantPopulationTotal and ReportRates.NoPopulationNoRates |
| ReportRates.YearRateMeaning | scripts/main.js:2504-2516 | a year's rate is `calculateRate` of its count when the population is known, 0 otherwise |
| ReportRates.ConstantPopulationRates | scripts/main.js:2504-2516 | with one population for every year, the yearly rates sum to the total count over the population times 100000 |
| ReportRates.MeanPopulation | scripts/main.js:2519-2526 | the mean of equal positive populations is that population |
| ReportRates.ConstantTotal | scripts/main.js:2519-2526 | over one population, the rate of all counts over the mean population is the sum of the yearly rates |
| ReportRates.ConstantPopulationTotal | scripts/main.js:2519-2526 | with one population for every year, the weighted total rate equals the sum of the yearly rates |
| ReportRates.NoPopulationNoRates | scripts/main.js:2508-2526 | without any population every yearly rate and the total are 0 |
| Heatmap.ParseCsvFacts | scripts/heatmap_sinaloa.js:76-95 | the heat map's reader skips blank lines: one row per non-blank line after the header, keyed by exactly the trimmed headers, with trimmed values |
| Heatmap.HeatPeriodsFacts | scripts/heatmap_sinaloa.js:12-16 | the slider runs over 19 distinct months, `Enero 2024` to `Diciembre 2024` and then `Enero 2025` to `Julio 2025` |
| Heatmap.HeatColor | scripts/heatmap_sinaloa.js:320-329 | eight colours, each stated as an if-and-only-if on its band: ≥0.9, [0.7,0.9), [0.5,0.7), [0.3,0.5), [0.15,0.3), [0.05,0.15), (0,0.05), and grey for ≤0 |
| Heatmap.HeatColorMonotone | scripts/heatmap_sinaloa.js:320-329 | a higher intensity never gets a lighter band of the palette |
| Heatmap.ParsedNamed | scripts/heatmap_sinaloa.js:76-95 | when the header has `Municipio`, every parsed row has a `Municipio` field |
| Heatmap.KeyedTotals | scripts/heatmap_sinaloa.js:206-213 | each row of the period contributes the pair of its trimmed, lower-cased `Municipio` and `parseFloat(Total) \|\| 0` |
| Heatmap.DataByMunicipality | scripts/heatmap_sinaloa.js:205-213 | the object of totals keyed by municipality; which keys it has and which row wins are stated by Heatmap.DataByMunicipalityKeys and Heatmap.DataByMunicipalityLastWins |
| Heatmap.DataByMunicipalityKeys | scripts/heatmap_sinaloa.js:205-213 | every row's key is in the object, and every key holds the total of some row with that key |
| Heatmap.DataByMunicipalityLastWins | scripts/heatmap_sinaloa.js:206-213 | a later row overwrites an earlier one: the value of a key is the total of the last row with that key |
| Heatmap.PolygonStyle | scripts/heatmap_sinaloa.js:227-251 | grey at opacity 0.5 exactly when the municipality has no entry or a total that is not positive; otherwise the heat colour of total / global maximum (0 when the maximum is not positive), at opacity 0.8 |
| Heatmap.WhereValues | scripts/heatmap_sinaloa.js:197 | every value of a period's rows occurs among the values of all rows, which the global maximum ranges over (also line 349) |
| Heatmap.PolygonColoured | scripts/heatmap_sinaloa.js:197-251 | with the global maximum taken over all rows, a municipality with a positive total of the period gets an intensity in (0, 1] and a colour other than grey; the others get the no-data style |
| Heatmap.Styles | scripts/heatmap_sinaloa.js:226-251 | one style per map feature, each the polygon style of that feature's name |
| Heatmap.RowCircle | scripts/heatmap_sinaloa.js:370-412 | a row gets a circle exactly when its municipality has coordinates and its value of the crime type is positive, sized by the 8-35 rule over the global minimum and maximum |
| Heatmap.RowCircleBounds | scripts/heatmap_sinaloa.js:393-412 | a circle's radius stays within the rule's minimum and maximum size |
| Heatmap.MainCircleSizes | scripts/heatmap_sinaloa.js:393-412 | the main map's radius: 10 when the global maximum is at most 1, 16 when maximum and minimum coincide, otherwise 8 + (v − min)/(max − min)·27 for a value between them |
| Heatmap.Circles | scripts/heatmap_sinaloa.js:370-412 | at most one circle per row, each at a municipality with coordinates and with a radius within the rule's bounds |
| Heatmap.CirclesStep | scripts/heatmap_sinaloa.js:370 | processing one more row keeps the circles already drawn and adds that row's circle if it has one |
| Heatmap.CirclesComplete | scripts/heatmap_sinaloa.js:370-412 | every row that qualifies for a circle has its circle drawn |
| Heatmap.PeriodCircles | scripts/heatmap_sinaloa.js:331-412 | `addCrimeCircles` (and `createSnapshotCircles`, lines 775-803): at most one circle per row of the period, each at a municipality with coordinates and within the rule's sizes, sized against the crime column of every month (line 347) |
| Heatmap.PeriodCirclesComplete | scripts/heatmap_sinaloa.js:370-412 | every row of the period with coordinates and a positive value has its circle, sized by the rule between the smallest positive and the largest value of all months |
| Heatmap.Leader | scripts/heatmap_sinaloa.js:835-843 | the scan with a strict `>` finds the maximum value (at least 0); when it is positive, the name of the first row holding it, and `''` when no value is positive |
| Heatmap.UpdateSnapshotStats | scripts/heatmap_sinaloa.js:827-843 | the total and count of the positive values, their maximum (none when there are none) and the leading municipality |
| Heatmap.LeaderIsMax | scripts/heatmap_sinaloa.js:829-843 | the scan's maximum agrees with `Math.max` over the positive values whenever some value is positive |
| Heatmap.Entries | scripts/heatmap_sinaloa.js:886-889 | one ranking entry per row, its `Municipio` with `parseFloat` of the crime column |
| Heatmap.SnapshotTable | scripts/heatmap_sinaloa.js:883-893 | the snapshot table of one period: the ten largest positive entries, as Heatmap.SnapshotTableFacts states |
| Heatmap.SnapshotTableFacts | scripts/heatmap_sinaloa.js:883-893 | a period's table is sorted descending, holds min(10, number of positive entries) positive entries of the period, and no positive entry left out ranks above one kept |
| Heatmap.SnapshotTables | scripts/heatmap_sinaloa.js:882-893 | one table per period of the slider, in order |
| Heatmap.SnapshotCircleSizes | scripts/heatmap_sinaloa.js:789-803 | a snapshot's radius: 5 when the global maximum is at most 1, 6 when maximum and minimum coincide, otherwise 4 + (v − min)/(max − min)·10 for a value between them |
| Heatmap.SinaloaHeatMap.constructor | scripts/heatmap_sinaloa.js:4-18 | no data yet, both global extremes 0, and the 19 periods |
| Heatmap.SinaloaHeatMap.LoadMunicipalData | scripts/heatmap_sinaloa.js:35-51 | the loaded rows are the parse of the fetched text and nothing else changes |
| Heatmap.SinaloaHeatMap.CalculateGlobalMaximum | scripts/heatmap_sinaloa.js:97-101 | the global maximum is `Math.max` of all totals (none for no rows) and the minimum the smallest positive total (none when there is none); the data are unchanged |
| Heatmap.SinaloaHeatMap.UpdateHeatMap | scripts/heatmap_sinaloa.js:186-251 | no redraw when the selected period has no rows; otherwise the styles of every feature from the period's data and the global maximum |
| Regional.RegionPairDisjoint | scripts/regional_analysis.js:10-15 | two different regions share no municipality |
| Regional.RegionesPartition | scripts/regional_analysis.js:10-15 | no municipality is listed twice, within a region or across regions |
| Regional.InMembers | scripts/regional_analysis.js:10-15 | a name is among all the regions' municipalities exactly when some region lists it |
| Regional.MembersDistinct | scripts/regional_analysis.js:10-15 | regions that are internally distinct and pairwise disjoint list each municipality once overall |
| Regional.RegionesMembers | scripts/regional_analysis.js:10-15 | the four regions list 20 distinct municipalities |
| Regional.FindRegion | scripts/regional_analysis.js:576-580 | the index of the first region listing the name, or the number of regions when none does |
| Regional.FindRegionNamed | scripts/regional_analysis.js:576-580 | over a partition, the region found has region i's name exactly when region i lists the name |
| Regional.MemberValueFirst | scripts/regional_analysis.js:287-288 | a member's value is `parseFloat` of the crime column of the first row with its `Municipio` |
| Regional.MemberValueMissing | scripts/regional_analysis.js:288 | a member without a row counts as 0 |
| Regional.EntriesOfMembers | scripts/regional_analysis.js:286-296 | the entries are exactly the members paired with their values |
| Regional.PositiveEntries | scripts/regional_analysis.js:290-301 | filtering the members' entries to positive values and sorting them gives a descending list of exactly the members with a positive value, each with its value |
| Regional.RegionMunicipios | scripts/regional_analysis.js:290-301 | a region's `municipios` list is sorted descending and holds exactly the members with a positive value, each with that value |
| Regional.RegionTotal | scripts/regional_analysis.js:283-289 | the running `totalRegional` starts at 0 and grows by each member's value |
| Regional.PositiveStep | scripts/regional_analysis.js:291-296 | each member is pushed onto `municipiosData` exactly when its value is positive |
| Regional.CalculateRegion | scripts/regional_analysis.js:282-302 | the `forEach` over one region computes its total and its sorted list of positive members |
| Regional.PeriodsTotalStep | scripts/regional_analysis.js:748-759 | the table's running `totalRegion` grows by each period's regional total |
| Regional.PeriodsTotalAppend | scripts/regional_analysis.js:748-769 | the total over periods is additive over concatenated period lists |
| Regional.RegionTotals | scripts/regional_analysis.js:797-801 | one entry per region, in order, paired with the region's total of the period |
| Regional.SortedEntries | scripts/regional_analysis.js:797-803 | sorting entries with distinct items keeps every entry, adds none, keeps the items distinct and orders them descending |
| Regional.RegionalRanking | scripts/regional_analysis.js:797-803 | the regions' totals sorted by total, largest first, as Regional.RegionalRankingFacts states |
| Regional.RegionalRankingFacts | scripts/regional_analysis.js:797-803 | the ranking lists every region once with its total, in descending order of total |
| Regional.HexPair | scripts/regional_analysis.js:613-615 | `parseInt` in base 16 of two hex digits is 16 times the first digit plus the second |
| Regional.RoundBetween | scripts/regional_analysis.js:619-621 | `Math.round` of a value between `lo` and a whole number `c` lies between `round(lo)` and `c` |
| Regional.FactorBounds | scripts/regional_analysis.js:618-621 | a non-negative channel times a factor in [0.3, 1] lies between 0.3 times the channel and the channel |
| Regional.ChannelBounds | scripts/regional_analysis.js:618-621 | a channel scaled by a factor in [0.3, 1] and rounded lies between round(0.3·c) and c |
| Regional.HexChannelPair | scripts/regional_analysis.js:613-615 | channel k read with `substr(2k, 2)` and `parseInt(…, 16)` is 16 times the digit at 2k plus the digit at 2k + 1 |
| Regional.HexOfColor | scripts/regional_analysis.js:612-615 | in a `#rrggbb` colour, removing the `#` leaves six hex digits whose pairs are the three channels, each in 0..255 |
| Regional.AdjustedChannel | scripts/regional_analysis.js:612-621 | for a `#rrggbb` base and a factor in [0.3, 1], channel k of the result is present and lies between round(0.3·c) and the base channel c |
| Regional.AdjustColorIntensity | scripts/regional_analysis.js:610-624 | each channel scaled by 0.3 + 0.7·intensity and rounded; Regional.AdjustColorBounds states the bounds of the result |
| Regional.AdjustColorBounds | scripts/regional_analysis.js:610-624 | for a `#rrggbb` base and an intensity in [0,1], every channel of the result is present, at most the base channel and at least round(0.3·channel) |
| Regional.ParseCsvFacts | scripts/regional_analysis.js:89-108 | the regional reader skips blank lines, keys every row by the trimmed headers and trims the values |
| Regional.SinaloaRegionalAnalysis.constructor | scripts/regional_analysis.js:4-22 | no data, the four regions and the 19 periods, which are distinct |
| Regional.SinaloaRegionalAnalysis.LoadMunicipalData | scripts/regional_analysis.js:68-80 | the loaded rows are the parse of the fetched text |
| Regional.SinaloaRegionalAnalysis.GetMunicipioRegion | scripts/regional_analysis.js:575-582 | the name of the first region listing the municipality, and `Sin región` exactly when no region lists it |
| Regional.SinaloaRegionalAnalysis.GetMunicipioRegionFacts | scripts/regional_analysis.js:575-582 | over the partition, the result is region i's name exactly when region i lists the municipality |
| Regional.SinaloaRegionalAnalysis.CalculateRegionalData | scripts/regional_analysis.js:278-306 | an entry for every region, in order, holding its total and sorted positive members |
| Regional.SinaloaRegionalAnalysis.GenerateRegionalTable | scripts/regional_analysis.js:700-777 | one line per region whose Total is the sum of its regional totals over the 19 periods |
| Regional.SinaloaRegionalAnalysis.RankRegions | scripts/regional_analysis.js:792-803 | the ranking of a period is the descending sort of the regional totals over that period's rows |
| Regional.SinaloaRegionalAnalysis.RegionalCircle | scripts/regional_analysis.js:514-562 | a circle exactly when the heat map's circle rule gives one and the focus is `all` or the municipality's region; the colour is the region's |
| Regional.SinaloaRegionalAnalysis.RegionalCircleFacts | scripts/regional_analysis.js:526-542 | a circle's radius lies in 3..12, and with a region in focus only that region's municipalities get circles |
| Regional.RegionalCircleSizes | scripts/regional_analysis.js:528-542 | a regional circle's radius: 4 when the global maximum is at most 1, 7 when maximum and minimum coincide, otherwise 3 + (v − min)/(max − min)·9 for a value between them |
| SpilloverEnhanced.ParseCsvFacts | scripts/spillover_enhanced.js:112-132 | blank lines are skipped; headers and values are trimmed and free of `"`; every row has exactly the headers as keys |
| SpilloverEnhanced.Shade | scripts/spillover_enhanced.js:236-242 | five reds on the intensity bands ≥0.8, [0.6,0.8), [0.4,0.6), [0.2,0.4) and below 0.2, each an if-and-only-if, never the no-data grey |
| SpilloverEnhanced.MaxTotal | scripts/spillover_enhanced.js:225-226 | `Math.max(..., 1)` is at least 1 |
| SpilloverEnhanced.SinaloaFill | scripts/spillover_enhanced.js:229-243 | grey `#f8f9fa` exactly when the municipality's total (first matching row, 0 when none) is not positive; otherwise the red shade of total / maximum, an intensity in (0, 1] |
| SpilloverEnhanced.FeatureShare | scripts/spillover_enhanced.js:237 | a positive total divided by the period's maximum lies in (0, 1] |
| SpilloverEnhanced.Clamp | scripts/spillover_enhanced.js:374 | `Math.max(lo, Math.min(hi, x))` lies in [lo, hi] and is x when x already does |
| SpilloverEnhanced.Radius | scripts/spillover_enhanced.js:374 | a frontier circle's radius lies in 8..30 |
| SpilloverEnhanced.RadiusLinear | scripts/spillover_enhanced.js:355-374 | for values up to the maximum the radius is 8 + 22·value/max, grows with the value and is 30 at the maximum |
| SpilloverEnhanced.FrontierCircle | scripts/spillover_enhanced.js:366-374 | a circle exactly when the value is positive and the municipality of that state has coordinates; its radius is the clamped rule |
| SpilloverEnhanced.Circles | scripts/spillover_enhanced.js:366-408 | at most one circle per row, each at a located municipality, with radius in 8..30 |
| SpilloverEnhanced.CirclesComplete | scripts/spillover_enhanced.js:366-408 | every row that qualifies has its circle drawn |
| SpilloverEnhanced.MaxBounds | scripts/spillover_enhanced.js:355-356 | `Math.max(...values, 1)` bounds every value of the period |
| SpilloverEnhanced.FrontierCirclesFacts | scripts/spillover_enhanced.js:350-410 | with the period's maximum, a qualifying row's circle is drawn with radius 8 + 22·value/max, which is 30 for the row holding the maximum |
| SpilloverEnhanced.AnyNamed | scripts/spillover_enhanced.js:453 | `some(m => m && m.nombre === municipio)`: some present entry has that name |
| SpilloverEnhanced.IsFronterizo | scripts/spillover_enhanced.js:449-454 | true exactly when the info is loaded, lists the state, the name and the state are non-empty and some entry of the state has that name |
| SpilloverEnhanced.ColorForValue | scripts/spillover_enhanced.js:456-474 | grey exactly for 0; for `sinaloa` five reds at 200/150/100/50, otherwise five blues at 10/5/2/1, each band an if-and-only-if |
| SpilloverEnhanced.MonthChange | scripts/spillover_enhanced.js:757-762 | with a positive previous value the percentage (change·prev = (cur − prev)·100); otherwise 100 for a new case and 0 when both are 0; positive and zero exactly in the matching cases |
| SpilloverEnhanced.FindRow | scripts/spillover_enhanced.js:740-750 | a row found has the municipality, state and period asked for; none exactly when no row has all three |
| SpilloverEnhanced.ChangesRow | scripts/spillover_enhanced.js:738-762 | one change per consecutive pair of periods, each the month change of the matching rows' totals (0 when missing) |
| SpilloverEnhanced.SpilloverEnhancedAnalysis.constructor | scripts/spillover_enhanced.js:3-14 | nothing loaded, period `Enero 2024`, crime `Total`, and the 19 distinct periods from `Enero 2024` to `Julio 2025` |
| SpilloverEnhanced.SpilloverEnhancedAnalysis.InitPeriods | scripts/spillover_enhanced.js:16-29 | appends the twelve months of 2024 and then Enero to Julio 2025, changing nothing else |
| SpilloverEnhanced.SpilloverEnhancedAnalysis.LoadData | scripts/spillover_enhanced.js:58-90 | the frontier rows are the parse of the frontier text and the frontier info is stored; nothing else changes |
| SpilloverEnhanced.SpilloverEnhancedAnalysis.LoadSinaloaMunicipalData | scripts/spillover_enhanced.js:284-294 | Sinaloa's municipal rows are the parse of the fetched text; nothing else changes |
| SpilloverEnhanced.SpilloverEnhancedAnalysis.SelectPeriod | scripts/spillover_enhanced.js:482-485 | the slider sets the period to `periods[index]` (`undefined` out of range); nothing else changes |
| SpilloverEnhanced.SpilloverEnhancedAnalysis.SelectDelito | scripts/spillover_enhanced.js:490-493 | the selector sets the crime type; nothing else changes |
| SpilloverEnhanced.SpilloverEnhancedAnalysis.SinaloaRows | scripts/spillover_enhanced.js:273-282 | no rows before Sinaloa's municipal data are loaded; otherwise exactly the loaded rows of the current period |
| SpilloverEnhanced.SpilloverEnhancedAnalysis.FronterizosRows | scripts/spillover_enhanced.js:215-219 | no rows without data or without a (non-empty) period; otherwise exactly the frontier rows of the current period |
| SpilloverEnhanced.SpilloverEnhancedAnalysis.PolygonFill | scripts/spillover_enhanced.js:221-244 | a Sinaloa polygon is grey exactly when its municipality's total in the current period is not positive |
| SpilloverEnhanced.SpilloverEnhancedAnalysis.FrontierLayer | scripts/spillover_enhanced.js:350-410 | the circles of the current period are at located municipalities, with radius in 8..30, at most one per row |
| SpilloverEnhanced.SpilloverEnhancedAnalysis.IsMunicipioFronterizo | scripts/spillover_enhanced.js:449-454 | false before the info is loaded; true only for a name listed under its state |
| Spillover.ParseCsvFacts | scripts/spillover.js:84-95 | one row per line after the header, blank lines included; every row has exactly the raw (untrimmed) headers as keys, and a header's value is the raw field at its position, `''` when missing |
| Spillover.MonthIndex | scripts/spillover.js:277 | `meses.indexOf(mes)`: the position of the month, or past the end exactly when the name is not a month |
| Spillover.Change | scripts/spillover.js:289-290 | a zero base gives 0 |
| Spillover.PercentFrom | scripts/spillover.js:289-290 | the final step of `calculateVariacion` computes `Change` of the current and previous value |
| Spillover.ChangeMeaning | scripts/spillover.js:290 | with a non-zero base, change·base = (cur − base)·100 |
| Spillover.Base | scripts/spillover.js:266-287 | the base month of a variation; which month it is is stated by Spillover.VariacionFacts |
| Spillover.Variacion | scripts/spillover.js:255-291 | `calculateVariacion`: the percentage change from the base to the current cases, 0 over a base of 0, as Spillover.VariacionFacts states |
| Spillover.VariacionFacts | scripts/spillover.js:255-291 | a 2025 month is compared with the same month of 2024; in any other year, January or an unknown month has base 0 and variation 0, and month k is compared with month k − 1 of the same year |
| Spillover.Abs | scripts/spillover.js:164 | `Math.abs`: non-negative and equal to x or −x |
| Spillover.MarkerSize | scripts/spillover.js:212-217 | 30 when the maximum is not positive; otherwise (size − 30)·max = 50·value, so it lies in 30..80 for 0 ≤ value ≤ max and is 80 at the maximum |
| Spillover.ShareBounds | scripts/spillover.js:215 | with a positive maximum, ratio·max = value, and the ratio lies in [0, 1] for 0 ≤ value ≤ max |
| Spillover.MarkerColor | scripts/spillover.js:219-234 | in the variation view five colours with strict thresholds 50/20/0/−20 on the raw value; otherwise the same colours on \|value\|/max (0 when max ≤ 0) with strict thresholds 0.8/0.6/0.4/0.2; each band an if-and-only-if |
| Spillover.IntensidadColor | scripts/spillover.js:293-312 | one of the five intensity classes |
| Spillover.IntensidadMatchesMarker | scripts/spillover.js:219-234 | the marker has colour k exactly when the intensity class is class k (also lines 293-312) |
| Spillover.SameColourSameClass | scripts/spillover.js:219-234 | two values share a marker colour exactly when they share an intensity class (also lines 293-312) |
| Spillover.AbsValues | scripts/spillover.js:164 | one absolute value per state, in the fixed order of the five states |
| Spillover.MaxValor | scripts/spillover.js:164 | the maximum absolute value is non-negative and bounds every state's absolute value |
| Spillover.Markers | scripts/spillover.js:131-210 | one marker per state, in order, with its value and variation, the colour for that value, and the size `MarkerSize` of its absolute value over the largest one, in 30..80 |
| Spillover.TableRows | scripts/spillover.js:330-335 | the table rows of a period label, filtered on its first word as `Mes` and its second as `Año`; Spillover.TableOfLabel and Spillover.TableOfPeriod state which rows these are |
| Spillover.TableOfLabel | scripts/spillover.js:330-335 | for the label of a month and a year, the table keeps exactly the rows with that `Mes` and that `Año` |
| Spillover.TableOfPeriod | scripts/spillover.js:27-40 | for each of the 18 periods, the table keeps exactly the rows of its month and year (also lines 330-335) |
| Spillover.SpilloverAnalysis.constructor | scripts/spillover.js:3-14 | nothing loaded, period `Enero 2024`, crime `Total`, view `absolutos`, and the 18 distinct labels from `Enero 2024` to `Junio 2025` |
| Spillover.SpilloverAnalysis.InitPeriodos | scripts/spillover.js:27-40 | appends the twelve months of 2024 and then Enero to Junio 2025, changing nothing else |
| Spillover.SpilloverAnalysis.LoadData | scripts/spillover.js:71-82 | stores the JSON data and the parse of the table text; nothing else changes |
| Spillover.SpilloverAnalysis.SelectPeriod | scripts/spillover.js:107-112 | the slider sets the period to `periodos[index]` (`undefined` out of range); nothing else changes |
| Spillover.SpilloverAnalysis.SelectDelito | scripts/spillover.js:114-118 | the selector sets the crime type; nothing else changes |
| Spillover.SpilloverAnalysis.SelectVista | scripts/spillover.js:120-124 | the selector sets the view; nothing else changes |
| Spillover.SpilloverAnalysis.CalculateVariacion | scripts/spillover.js:255-291 | the variation of a state and month for the current crime type |
| Spillover.SpilloverAnalysis.MapMarkers | scripts/spillover.js:131-210 | markers exactly when a period is selected and the data are loaded: then one per state, in order, with the value and variation of the period's month (first word) and year (second word, `parseInt`), the colour for that value and the size `MarkerSize` of its absolute value over the largest one, in 30..80 |
| Spillover.SpilloverAnalysis.Table | scripts/spillover.js:327-335 | a table exactly when a period is selected and the table data are loaded; it holds exactly the loaded rows whose `Mes` is the first word of the period and whose `Año` is the second |
| MunicipalMap.CrimeColor | scripts/municipal_map.js:235-243 | five colours on the bands ≥0.8, [0.6,0.8), [0.4,0.6), [0.2,0.4) and (0,0.2), and grey `#cccccc` exactly for an intensity ≤0, each an if-and-only-if |
| MunicipalMap.CrimeColorMonotone | scripts/municipal_map.js:235-243 | a higher intensity never gets a lighter band |
| MunicipalMap.Radius | scripts/municipal_map.js:183-192 | no size (`NaN`) exactly when no value is positive; (8 + 30)/2 = 19 when the maximum equals the minimum; otherwise the linear size 8 + (v − min)/(max − min)·22 |
| MunicipalMap.Readings | scripts/municipal_map.js:140 | one reading per row of the period: its `Municipio` and `parseFloat` of the selected column (also lines 148-156) |
| MunicipalMap.ReadingValues | scripts/municipal_map.js:140-142 | every reading's value is among the values the maximum and minimum range over |
| MunicipalMap.MarkerOf | scripts/municipal_map.js:147-206 | a marker exactly when the municipality has coordinates, placed there; a zero count gives the grey radius-4 marker; otherwise the linear size and the colour of value / maximum |
| MunicipalMap.MarkerRadius | scripts/municipal_map.js:140-192 | for a positive count the radius exists and lies in 8..30, and is 8 at the minimum and 30 at the maximum when they differ |
| MunicipalMap.MarkerFill | scripts/municipal_map.js:195-196 | for a positive count the intensity lies in (0, 1], the colour is not grey, and the maximum gets `#8B0000` |
| MunicipalMap.MarkerGrey | scripts/municipal_map.js:160-168 | a count that is not positive gets the no-cases grey (also line 195) |
| MunicipalMap.Markers | scripts/municipal_map.js:147-154 | at most one marker per row, each at its municipality's coordinates |
| MunicipalMap.MarkersComplete | scripts/municipal_map.js:147-229 | every row with coordinates gets its marker |
| MunicipalMap.MarkersSound | scripts/municipal_map.js:147-229 | every marker drawn is the marker of some row |
| MunicipalMap.TableFacts | scripts/municipal_map.js:282-284 | the table is a permutation of the period's rows, sorted by descending value of the selected column, or of `Total` when none is selected |
| MunicipalMap.DrawMarkers | scripts/municipal_map.js:147-229 | the `forEach` over the rows draws exactly `Markers` of the readings |
| MunicipalMap.SinaloaMunicipalMap.constructor | scripts/municipal_map.js:4-12 | no data, the 19 periods of the slider and the fixed coordinates |
| MunicipalMap.SinaloaMunicipalMap.LoadData | scripts/municipal_map.js:27-50 | the loaded rows are the inline parse of the text, which trims and skips blank lines as the heat map's reader does |
| MunicipalMap.SinaloaMunicipalMap.UpdateMap | scripts/municipal_map.js:108-233 | nothing drawn without data or when the period has no rows; otherwise the period, the markers sized over the period's maximum and smallest positive value for the selected crime type (default `Homicidio doloso`), and the sorted table (also lines 271-284) |
| Controls.Chosen | scripts/municipal_map.js:114 | `selector?.value \|\| fallback` is the fallback exactly when there is no selector, its value is empty or it is the fallback itself, and the selected value otherwise |
| Controls.SelectedPeriod | scripts/municipal_map.js:115-116 | a period selected by the slider is one of the listed periods |
| Controls.SliderDefault | scripts/municipal_map.js:115-116 | without a slider, or with an empty one, the first period is shown |
| Controls.SliderIndex | scripts/heatmap_sinaloa.js:192-193 | a slider whose value is the digits of i shows period i, and nothing when i is past the end |
| Choropleth.ParseCsvFacts | scripts/choropleth_map.js:38-54 | one row per non-blank piece after the header, keyed by exactly the trimmed headers |
| Choropleth.NoRowsWithoutBackslashN | scripts/choropleth_map.js:38 | the text is split on the two characters `\` `n`, so a text without them is a single line and the data stay empty |
| Choropleth.Unaccented | scripts/choropleth_map.js:171-172 | the six replacements change each lower-case á, é, í, ó, ú and ñ into its plain letter and keep the length |
| Choropleth.NormalizeCharFacts | scripts/choropleth_map.js:170-173 | after normalisation no character is an upper-case ASCII letter, spaces stay spaces, an upper-case accented letter becomes a lower-case accented one and only those, and everything else is stable under a second pass |
| Choropleth.NormalizeName | scripts/choropleth_map.js:168-174 | `normalizeMunicipalityName`: trimmed, the lower-case letters á é í ó ú ñ replaced by their plain letters, then lower-cased, so an upper-case accented letter ends up accented in lower case; Choropleth.NormalizeNameFacts states what the result looks like |
| Choropleth.NormalizeNameFacts | scripts/choropleth_map.js:168-174 | the name is trimmed, keeps its length, has no upper-case ASCII letter, and has a lower-case accented letter exactly where the trimmed input had an upper-case one |
| Choropleth.NormalizeIdempotent | scripts/choropleth_map.js:168-174 | on a name without upper-case accented letters, normalising twice equals normalising once |
| Choropleth.NormalizeNotIdempotent | scripts/choropleth_map.js:168-174 | `Á` normalises to `á` and then to `a`, so normalisation is not idempotent in general |
| Choropleth.ColorByIntensity | scripts/choropleth_map.js:199-207 | five colours on the bands ≥0.8, [0.6,0.8), [0.4,0.6), [0.2,0.4) and (0,0.2), and grey exactly for ≤0, each an if-and-only-if |
| Choropleth.CreateLegend | scripts/choropleth_map.js:266-277 | one legend line per grade, line i built from grade i and `colors[i + 1]` |
| Choropleth.LegendMatchesColors | scripts/choropleth_map.js:199-207 | line i reads from 20i% to 20(i+1)% (the last is open), and its swatch is the colour of the intensities in its range, never grey (also lines 266-277) |
| Choropleth.Filings | scripts/choropleth_map.js:134-140 | each row of the month files its normalised `Municipio` with `parseFloat` of the crime column |
| Choropleth.FileByMunicipality | scripts/choropleth_map.js:133-141 | the `forEach` builds the object of the filings, later rows overwriting earlier ones |
| Choropleth.FeatureStyle | scripts/choropleth_map.js:176-197 | opacity 0.7 when the normalised feature name matches a positive value; otherwise grey at opacity 0.3 |
| Choropleth.FeatureStyleMeaning | scripts/choropleth_map.js:144-145 | for a matched positive value, the maximum over the object's values bounds it, the intensity lies in (0, 1], the colour is that of the intensity, never grey, and the darkest at the maximum (also lines 176-197) |
| Choropleth.Styles | scripts/choropleth_map.js:156-157 | one style per feature, in order |
| Choropleth.EmptyMonthAllGrey | scripts/choropleth_map.js:129-157 | a month without rows leaves every feature grey |
| Choropleth.SinaloaChoroplethMap.constructor | scripts/choropleth_map.js:4-14 | no data, no features, and the 19 periods |
| Choropleth.SinaloaChoroplethMap.LoadData | scripts/choropleth_map.js:31-57 | the loaded rows are the parse of the text; the features are unchanged |
| Choropleth.SinaloaChoroplethMap.LoadGeoJson | scripts/choropleth_map.js:59-72 | stores the features' names; the data are unchanged |
| Choropleth.SinaloaChoroplethMap.UpdateMap | scripts/choropleth_map.js:116-166 | nothing without data or features; otherwise the selected period, the style of every feature from the month's filings and their maximum, and the rows sorted by descending value of the crime type (default `Total`) (also lines 285-296) |
| WarAnalysis.StudiedRows | scripts/sinaloa_war_web_analysis.js:26-29 | the filter keeps exactly the rows whose `Municipio` is one of the six studied municipalities and is not the header word, without adding any |
| WarAnalysis.HeaderTestRedundant | scripts/sinaloa_war_web_analysis.js:26-29 | the `row.Municipio !== 'Municipio'` test changes nothing, since `Municipio` is not one of the six names |
| WarAnalysis.LoadedFacts | scripts/sinaloa_war_web_analysis.js:19-63 | the loaded rows are keyed by the headers, their cells are trimmed and free of `"`, each names a studied municipality, and no studied row of the parse is lost |
| WarAnalysis.MunicipioNames | scripts/sinaloa_war_web_analysis.js:89 | one `Municipio` per row, in order |
| WarAnalysis.WithDataFacts | scripts/sinaloa_war_web_analysis.js:89 | the municipalities with data are distinct, are exactly those some row names, are among the six, and so number at most six |
| WarAnalysis.Significant | scripts/sinaloa_war_web_analysis.js:114-117 | table 1 of a municipality: its rows above 50%, largest change first, at most ten, as WarAnalysis.SignificantFacts states |
| WarAnalysis.SignificantFacts | scripts/sinaloa_war_web_analysis.js:114-117 | table 1 holds min(10, number of rows above 50%) rows of the municipality, each above 50%, in descending order of change, and no row above 50% left out ranks above one kept |
| WarAnalysis.AnomalyLines | scripts/sinaloa_war_web_analysis.js:171-189 | one line per anomaly in order, ranked from 1, marked high exactly when the change exceeds 100% |
| WarAnalysis.Crimes | scripts/sinaloa_war_web_analysis.js:206 | the `Subtipo_delito` of each row, `undefined` where missing |
| WarAnalysis.FirstRow | scripts/sinaloa_war_web_analysis.js:227-233 | `find` returns the first row with that crime type |
| WarAnalysis.OrderedCrimes | scripts/sinaloa_war_web_analysis.js:206 | the crime types sorted by the change of each one's first row, as WarAnalysis.OrderedCrimesFacts states |
| WarAnalysis.OrderedCrimesFacts | scripts/sinaloa_war_web_analysis.js:206 | the sorted crime types are the distinct ones, each once, in descending order of the change of their first row (also lines 226-230) |
| WarAnalysis.SummaryLineOf | scripts/sinaloa_war_web_analysis.js:232-257 | a summary line shows the first row of its crime type, marked up exactly when the absolute change is positive and, separately, when the relative change is positive |
| WarAnalysis.Summary | scripts/sinaloa_war_web_analysis.js:200-259 | one line per distinct crime type, in the sorted order, each from the first row of that type |
| WarAnalysis.SummaryNonEmpty | scripts/sinaloa_war_web_analysis.js:201-203 | the summary is empty exactly when the municipality has no rows |
| WarAnalysis.Sections | scripts/sinaloa_war_web_analysis.js:92-99 | at most one section per listed municipality |
| WarAnalysis.SectionsFacts | scripts/sinaloa_war_web_analysis.js:92-99 | a section exactly for each listed municipality whose `sinaloa-war-<name>-section` container exists |
| WarAnalysis.AnalysisFacts | scripts/sinaloa_war_web_analysis.js:87-148 | at most six sections, each of a studied municipality with a container and a non-empty summary |
| WarAnalysis.SinaloaWarAnalysis.constructor | scripts/sinaloa_war_web_analysis.js:2-5 | no data yet and the six municipalities |
| WarAnalysis.SinaloaWarAnalysis.LoadAnomaliesData | scripts/sinaloa_war_web_analysis.js:19-40 | the data become the studied rows of the parse, or empty when the fetch fails |
| WarAnalysis.SectionsStep | scripts/sinaloa_war_web_analysis.js:92-99 | one more municipality appends its section exactly when its container exists |
| WarAnalysis.BuildSections | scripts/sinaloa_war_web_analysis.js:92-94 | the `forEach` over the municipalities writes exactly the sections `Sections` lists, in order |
| WarAnalysis.SinaloaWarAnalysis.GenerateMunicipalAnalysis | scripts/sinaloa_war_web_analysis.js:87-95 | nothing before the data are loaded (the source throws there); otherwise the sections of the municipalities with data |
| WarAnalysis.SinaloaWarAnalysis.Init | scripts/sinaloa_war_web_analysis.js:7-17 | loading then analysing yields the sections of the loaded rows |
| Csv.FirstWith | scripts/sinaloa_war_web_analysis.js:227 | `findIndex` on one field: the first row whose field equals the value, or past the end when none does |
| Csv.FirstWithAt | scripts/sinaloa_war_web_analysis.js:227 | the first row holding the value is the one `find` returns |
| Csv.FirstWithBoth | scripts/spillover_enhanced.js:740-750 | the first row matching two fields at once, or past the end when none does |
| Csv.RowAt | scripts/main.js:2367 | indexing an array: a row exactly when the index is in range |
| Csv.Column | scripts/heatmap_sinaloa.js:829 | one field per row, `undefined` where missing |
| Csv.RealColumn | scripts/heatmap_sinaloa.js:98 | `map(row => parseFloat(row[key]) \|\| 0)`: one value per row, in order |
| Csv.RealColumnMember | scripts/heatmap_sinaloa.js:98 | the value of any row is among the column's values |
| Csv.ByField | scripts/municipal_map.js:284 | each row paired with `parseFloat` of the sort field |
| Csv.SortedByFacts | scripts/municipal_map.js:284 | sorting rows by a field keeps every row once (a permutation) and orders them by descending value of the field |
| Csv.Where | scripts/heatmap_sinaloa.js:197 | `filter` on a field: keeps exactly the rows whose field equals the value (or differs, for the negated test), and no more rows than given |
| Csv.CleanIsClean | scripts/heatmap_sinaloa.js:78 | trimming, and for the quote-aware readers also removing `"`, yields clean text (also line 89) |
| Csv.CleanAll | scripts/heatmap_sinaloa.js:78 | `headers.map(h => h.trim())` cleans each header in place |
| Csv.RowFacts | scripts/heatmap_sinaloa.js:87-89 | a row built from headers has exactly the headers as keys; for the last occurrence of a header the value is its field, cleaned, or `''` when missing |
| Csv.FillRow | scripts/heatmap_sinaloa.js:85-89 | the `headers.forEach` loop builds exactly that row |
| Csv.ParseCsvLine | scripts/sinaloa_war_web_analysis.js:65-85 | the character loop with `current`, `inQuotes` and `result` computes the quote-aware split |
| Csv.ScanQuotes | scripts/sinaloa_war_web_analysis.js:73-74 | after a line the scanner is inside quotes exactly when it has seen an odd number of `"` |
| Csv.ScanFieldCount | scripts/sinaloa_war_web_analysis.js:75-77 | the scanner closes one field per comma outside quotes |
| Csv.ScanDropsQuotes | scripts/sinaloa_war_web_analysis.js:73-80 | no field the scanner closes or holds contains `"` |
| Csv.ScanJoin | scripts/sinaloa_war_web_analysis.js:70-84 | the fields joined with `,` are the line with every `"` removed |
| Csv.QuotedFieldsFacts | scripts/spillover_enhanced.js:134-154 | `parseCSVLine` yields one field more than there are unquoted commas, no field holds `"`, and joining them with `,` gives back the line without its `"` |
| Csv.SplitLine | scripts/heatmap_sinaloa.js:84 | a line is split by the reader's splitter, plain `split(',')` or the quote-aware scan |
| Csv.HeadersClean | scripts/heatmap_sinaloa.js:78 | every header is cleaned by the reader's header cleaning |
| Csv.Parse | scripts/heatmap_sinaloa.js:76-95 | one row per non-blank line after the header for the readers that skip blank lines, one per line after the header for the others, each keyed by exactly the headers |
| Csv.RowCount | scripts/heatmap_sinaloa.js:81-92 | one row per non-blank line for the readers that skip blank lines, one per line for the others |
| Csv.RowPerLine | scripts/spillover.js:87-94 | without skipping, row k is built from line k |
| Csv.RowKeys | scripts/heatmap_sinaloa.js:87-89 | every row has exactly the headers as keys |
| Csv.RowsOfClean | scripts/heatmap_sinaloa.js:88 | every cell is cleaned by the reader's cell cleaning |
| Csv.ReadRow | scripts/heatmap_sinaloa.js:84-91 | one iteration of the reader's loop builds the row of the line |
| Csv.ReadRows | scripts/heatmap_sinaloa.js:76-95 | the reader's loop over the lines yields `Parse` of the text |
| Collections.Insert | scripts/main.js:556 | inserting into a sorted list adds exactly that element |
| Collections.InsertSorted | scripts/main.js:556 | insertion keeps a list sorted by descending key |
| Collections.SortDesc | scripts/main.js:556 | `sort((a, b) => key(b) - key(a))`: a permutation, in descending order of key, of the same length |
| Collections.SortDescStable | scripts/main.js:556 | the sort is stable: the elements with any one key keep their original relative order |
| Collections.Take | scripts/main.js:557 | `slice(0, n)` is the prefix of length min(n, length) |
| Collections.Items | scripts/heatmap_sinaloa.js:886-889 | the elements of a keyed list, in order |
| Collections.SortDescItems | scripts/main.js:556 | sorting keeps the same elements, with multiplicity |
| Collections.Above | scripts/heatmap_sinaloa.js:890 | `filter(item => key > t)`: exactly the elements with a key above t, each as often as before at most |
| Collections.AboveSnoc | scripts/heatmap_sinaloa.js:890 | the filter of a list extended by one element is the old filter plus that element when its key is above t |
| Collections.TailBelowHead | scripts/main.js:556-557 | in a descending list nothing after a position ranks above anything before it |
| Collections.TopFacts | scripts/main.js:556-557 | the top n after sorting: min(n, length) elements in descending order, taken from the list, and no element left out ranks above one kept |
| Collections.KeyedBy | scripts/sinaloa_war_web_analysis.js:116 | each element paired with its sort key |
| Collections.KeyedByFacts | scripts/sinaloa_war_web_analysis.js:116 | every keyed element is an element of the list with its own key |
| Collections.SortedByKeyFacts | scripts/sinaloa_war_web_analysis.js:226-230 | sorting by a key function gives a permutation of the list, in descending order of the key |
| Collections.RearrangedKeys | scripts/sinaloa_war_web_analysis.js:116 | any rearrangement of the keyed list still pairs each element with its own key |
| Collections.TopAboveFacts | scripts/sinaloa_war_web_analysis.js:114-117 | filtering above t, sorting and slicing to n: min(n, count above t) elements of the list, each above t, in descending order of key |
| Collections.LeftOutBelow | scripts/sinaloa_war_web_analysis.js:116-117 | in a descending list an element beyond the slice ranks no higher than one inside it |
| Collections.TopAboveLeftOut | scripts/sinaloa_war_web_analysis.js:114-117 | no element above t that the slice leaves out ranks above an element kept |
| Collections.NoDuplicatesWithin | scripts/sinaloa_war_web_analysis.js:89 | a list without repeats drawn from another list is no longer than it |
| Collections.FirstIndex | scripts/main.js:539 | the first position of an element, which does not occur before it |
| Collections.Distinct | scripts/main.js:539 | `[...new Set(s)]` holds exactly the elements of s, each once |
| Collections.FirstIndexOfPrefix | scripts/main.js:539 | the first position of an element in a prefix that holds it is its first position in the whole list |
| Collections.DistinctOrder | scripts/main.js:539 | `[...new Set(s)]` lists the elements in the order of their first occurrence in s |
| Collections.Element | scripts/heatmap_sinaloa.js:193 | indexing an array: a value exactly when the index is in range, and then the element there |
| Collections.ObjectOfKeys | scripts/heatmap_sinaloa.js:205-213 | an object filled pair by pair has exactly the keys of the pairs, and each value is that of some pair with its key |
| Collections.ObjectOfLastWins | scripts/heatmap_sinaloa.js:205-213 | the value of a key is that of the last pair with that key |
| Collections.KeysOf | scripts/main.js:1709 | the keys of the pairs, in order |
| Collections.ObjectValuesFacts | scripts/choropleth_map.js:144 | `Object.values` holds exactly the object's values, and is empty exactly when no pair was filed |
| Collections.PresentPairsFacts | scripts/main.js:1709-1748 | only keys whose value is present are filed, each with that value, and every present value is filed |
| Collections.PresentPairsKey | scripts/main.js:1709-1748 | for a key listed once, it is in the object exactly when its value is present, and then holds that value |
| Periods.MonthLabels | scripts/spillover_enhanced.js:21-23 | the first n month names of a year, each labelled `<month> <year>` |
| Periods.TwoYears | scripts/spillover_enhanced.js:16-29 | the periods of all of 2024 and the first n months of 2025: 12 + n labels |
| Periods.AppendMonths | scripts/spillover_enhanced.js:21-28 | the push loop appends exactly those labels |
| Periods.LabelWords | scripts/spillover.js:330 | `split(' ')` of a label gives back its month and its year |
| Periods.LabelInjective | scripts/spillover.js:330-335 | two labels are equal only when month and year are both equal |
| Periods.MonthsHaveNoSpace | scripts/spillover_enhanced.js:17-18 | the twelve month names are distinct and contain no space |
| Periods.LabelsDistinct | scripts/spillover_enhanced.js:21-23 | distinct month names give distinct labels within a year |
| Periods.ConcatDistinct | scripts/spillover_enhanced.js:21-28 | two repeat-free, disjoint lists concatenate to a repeat-free list |
| Periods.TwoYearsDistinct | scripts/spillover_enhanced.js:16-29 | the periods of the slider are all distinct |
| Ladders.Band | scripts/heatmap_sinaloa.js:320-329 | an `if (...) return` ladder: the first rung whose test passes, past the end when none does |
| Ladders.Pick | scripts/heatmap_sinaloa.js:320-329 | the colour the ladder returns is one of its palette |
| Ladders.BandMonotone | scripts/heatmap_sinaloa.js:320-329 | a larger value stops at the same rung or an earlier one |
| Ladders.BandBetween | scripts/heatmap_sinaloa.js:320-329 | with nested tests, rung k is reached exactly when its test passes and the previous one fails |
| Ladders.PassesLater | scripts/heatmap_sinaloa.js:320-329 | with nested tests, a value that passes one test passes every later one |
| Ladders.PickBetween | scripts/heatmap_sinaloa.js:320-329 | with nested tests and distinct colours, colour k is returned exactly on its band |
| Ladders.PickAt | scripts/heatmap_sinaloa.js:320-329 | the same for one given rung |
| Ladders.SameRungs | scripts/spillover.js:219-234 | two ladders with the same tests and distinct outputs agree on which values share an output (also lines 293-312) |
| Scales.MaxOf | scripts/heatmap_sinaloa.js:99 | `Math.max(...s)`: none for an empty list (`-Infinity`), otherwise an element at least every element |
| Scales.MaxWith | scripts/spillover_enhanced.js:226 | `Math.max(...s, floor)`: at least the floor and every element, and the floor or an element |
| Scales.Positives | scripts/heatmap_sinaloa.js:100 | `filter(v => v > 0)`: exactly the positive elements (also line 829) |
| Scales.NoPositives | scripts/heatmap_sinaloa.js:100 | a list without positive elements filters to nothing |
| Scales.MinPositive | scripts/heatmap_sinaloa.js:100 | `Math.min` of the positive elements: none exactly when no element is positive (`Infinity`), otherwise the smallest positive element |
| Scales.PositiveBetween | scripts/heatmap_sinaloa.js:99-100 | a positive element lies between the minimum positive element and the maximum |
| Scales.RatioBounds | scripts/heatmap_sinaloa.js:406 | (v − a)/(b − a) lies in [0, 1] for a ≤ v ≤ b |
| Scales.UnitRatio | scripts/heatmap_sinaloa.js:235 | v/max lies in (0, 1] for 0 < v ≤ max |
| Scales.LerpBounds | scripts/heatmap_sinaloa.js:405-407 | linear interpolation from [a, b] onto [lo, hi] stays in [lo, hi], giving lo at a and hi at b |
| Scales.CircleSize | scripts/heatmap_sinaloa.js:393-412 | the radius rule never goes below the minimum size |
| Scales.CircleSizeBounds | scripts/heatmap_sinaloa.js:349-412 | over the global values, a positive value's radius lies between the rule's minimum and maximum, is the minimum at the smallest positive value and the maximum at the largest when those differ and the maximum exceeds 1 |
| Scales.CircleSizeCases | scripts/heatmap_sinaloa.js:393-412 | the three branches of the radius rule: the `small` size when the maximum is at most 1, the `equal` size when maximum and minimum coincide, and otherwise the linear size from the minimum size at the minimum to the maximum size at the maximum |
| JsStrings.TrimStartFacts | scripts/heatmap_sinaloa.js:77 | `trimStart` keeps the suffix that starts at the first non-space character, every dropped character being white space |
| JsStrings.TrimEnd | scripts/heatmap_sinaloa.js:77 | removes exactly the trailing white space |
| JsStrings.TrimShape | scripts/heatmap_sinaloa.js:82 | `trim()` is empty exactly for white space only, and the result is trimmed |
| JsStrings.TrimOfTrimmed | scripts/heatmap_sinaloa.js:78 | trimming a trimmed string changes nothing |
| JsStrings.TrimIdempotent | scripts/heatmap_sinaloa.js:78 | trimming twice equals trimming once |
| JsStrings.TrimKeepsOut | scripts/spillover_enhanced.js:114 | trimming adds no character |
| JsStrings.CountAppend | scripts/sinaloa_war_web_analysis.js:73-74 | counting a character is additive over concatenation |
| JsStrings.Split | scripts/heatmap_sinaloa.js:77 | `split(sep)` always yields at least one piece |
| JsStrings.JoinSnoc | scripts/sinaloa_war_web_analysis.js:83 | joining one more piece appends the separator and the piece |
| JsStrings.SplitCharFacts | scripts/heatmap_sinaloa.js:84 | splitting on a character gives pieces without it, one more than its occurrences, which join back to the string |
| JsStrings.SplitWithoutSeparator | scripts/choropleth_map.js:38 | a string without the separator splits into itself alone |
| JsStrings.RemoveChar | scripts/spillover_enhanced.js:114 | `replace(/"/g, '')` leaves no `"`, shortens the string by their number and keeps every other character as often as it occurs; JsStrings.RemoveCharAppend gives the order |
| JsStrings.RemoveCharAppend | scripts/spillover_enhanced.js:114 | removing a character distributes over concatenation |
| JsStrings.Lower | scripts/heatmap_sinaloa.js:207 | `toLowerCase()` maps each character and keeps the length |
| JsStrings.Upper | scripts/main.js:675 | `toUpperCase()` maps each character and keeps the length |
| JsStrings.Prefix | scripts/main.js:675 | `substring(0, n)` is the prefix of length min(n, length) |
| JsStrings.DigitsOnly | scripts/main.js:2478 | `replace(/[^\d]/g, '')` keeps only ASCII digits, and each digit as often as it occurs in the input |
| JsStrings.DigitsOnlyAppend | scripts/main.js:2478 | the removal distributes over concatenation, so the kept digits stay in their order |
| JsStrings.DigitsOnlyOfDigits | scripts/main.js:2478 | a string of digits is left unchanged |
| JsStrings.IndexOfChar | scripts/regional_analysis.js:612 | the first position of the character, past the end exactly when it is absent |
| JsStrings.Substr | scripts/regional_analysis.js:613-615 | `substr(start, length)` is at most that long and is the slice when it fits |
| JsNumbers.DigitRun | scripts/main.js:2479 | `parseInt` reads the longest run of digits of the radix at the start |
| JsNumbers.Round | scripts/regional_analysis.js:619-621 | `Math.round` is within one half of its argument |
| JsNumbers.DigitRunOfDigits | scripts/main.js:2479 | on a string of digits the run is the whole string |
| JsNumbers.ParseIntOfDigits | scripts/main.js:2479 | `parseInt` of a non-empty digit string is its decimal value, and `NaN` for the empty string |
| JsNumbers.ParseFloatOfDigits | scripts/heatmap_sinaloa.js:98 | `parseFloat` of a non-empty digit string is its decimal value, and `NaN` for the empty string |

## Left out

- Floating point: rates, percentages, intensities and sizes are exact reals, so rounding of IEEE doubles, `Infinity` and `-0` are not modelled.
- `NaN`: `parseInt(x) || 0` and `parseFloat(x) || 0` give 0 where JavaScript gets `NaN`. The anomaly analysis uses bare `parseFloat`; its `NaN` becomes 0 there too, because every one of its comparisons is then false exactly as for 0.
- Sort comparators that return `NaN` are modelled as comparing equal keys of 0; the sort is the stable sort that ECMAScript 2019 requires of `Array.prototype.sort`.
- Case mapping (`toLowerCase`, `toUpperCase`) is one character to one character over the ASCII and Latin-1 letters, which covers the Spanish names in the data; other letters, `ß` and `ÿ` are left unchanged.
- `Object.values` and `Object.keys` are taken in insertion order. JavaScript lists integer-like keys first, but every object the model enumerates has non-integer keys: the `Object.values` of choropleth_map.js:144 and heatmap_sinaloa.js:215 are keyed by municipality names and only feed `Math.max`/`Math.min`, which do not depend on order, and the regions are keyed by their names. The year-keyed objects (`filaCambios["2019"]` to `["2025"]` at main.js:2358, and the yearly report rows) are read only key by key. The `Object.keys(data[0])` walk over the year columns in `createSinaloaAnualTable` (main.js:853) is not part of this model.
- Rendering: DOM updates, Chart.js configurations, Leaflet layers, popups, tooltips, legends' HTML, `fitBounds` and map bounds are presentation over foreign libraries.
- Fetching: every `fetch`, `response.text()` and `response.json()` call and the async loaders are I/O; the fetched text and the GeoJSON and JSON files are parameters of the model.
- Coordinate tables and GeoJSON features are given as maps and sets of names; the prototype keys that a JavaScript object lookup would also find are not modelled.
- Scheduling and shared state: `setTimeout` polling, retries, event listeners and `window.*` globals. The selectors' and the slider's values are parameters.
- Number formatting: `toFixed`, `toLocaleString` and `Intl.NumberFormat`, including the `+` sign the war summary always prints before the relative change.
- Regional.AdjustColorIntensity: computes the three channel values; the `rgb(...)` text built from them is not modelled.
- A row without a `Municipio` cell makes `trim()` or `toLowerCase()` throw in the heatmap, choropleth and regional code; the model requires every row to have that cell (`Named`) instead of modelling the exception.
- The regional polygon styling of `createRegionalHeatmap` (scripts/regional_analysis.js:419-506) and the regional evolution chart (scripts/regional_analysis.js:626-699) are Leaflet and Chart.js configuration.
- The absolute-values table of scripts/spillover_enhanced.js (519-670), the constant style of `addEstadosColindantesLayers` and the unused `sinaloaData` are presentation; the neighbouring-state coordinates the frontier circles are placed at are a parameter.
- Console logging, including the top-five debug log of the snapshot table.
- The variability score of `selectTopVariableStates` (mean, variance and `Math.sqrt` in scripts/main.js:1774-1782) is floating-point numerics; only the critical-state replacement step over an already ranked list is modelled.
- The backup copy scripts/main-working-backup.js, the per-municipality chart scripts, the age chart and the Python helpers hold no computation beyond literals, rendering or file I/O.
- ReportChanges.YearlyChanges: its own contract states only the zero-base case; that every other value satisfies change·prev = (cur − prev)·100 is stated by PercentChanges.ChangeOfBase.
- Controls.SelectedPeriod: its own contract states only that a selected period is one of the list; the exact index a digit-string slider selects is stated by Controls.SliderIndex.
- Scales.CircleSize: its own contract states only the lower bound; the upper bound and the endpoint values are stated by Scales.CircleSizeBounds, the fallback sizes and the linear value by Scales.CircleSizeCases (10/16 for the main circles, 5/6 for the snapshot, 4/7 for the regional circles).
