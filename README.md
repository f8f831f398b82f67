# Geoeconomic dashboard: a Dafny model of its data core

The geoeconomic dashboard is a Streamlit page about eight maritime trade
corridors. Under its map and charts sits a small data core, and this project
models that core in Dafny and proves what the page relies on:

- **Synthesis** (`generate_corridor_data`). This builds twenty quarter
  labels from "Q1 2021" to "Q4 2025". Then, for every corridor and every
  quarter, it:
  - derives a quarterly value from the corridor's annual base value, using
    growth, seasonal and random factors;
  - turns that value into a point count, `int(value / 10)`;
  - emits that many heat-map records at random positions inside the
    corridor's bounding box.

  The random draws are an explicit stream of unit samples, consumed in the
  generator's order. The seasonal sine is a supplied sequence of four values.
- **Aggregation** for a selection of corridors and a selected quarter:
  - the filtered frame;
  - the first value per corridor and their total;
  - the quarter-over-quarter delta;
  - the trade-intensity band;
  - each corridor's share of the global base total;
  - the map labels;
  - the ranking table;
  - the historical trend frame.
- **Currency formatting**: the B/M/K bands of `format_currency`.

Modules, one file each:
- `corridors.dfy`: the corridor table, records and bounding boxes.
- `quarters.dfy`: quarter labels.
- `synthesis.dfy`: the generator. Its loops become methods, proved equal to
  a functional description of the whole dataset, `Synthesized`.
- `aggregation.dfy`: filter, grouping, total, QoQ, intensity, global share.
- `currency.dfy`: `format_currency`.
- `ranking.dfy`: the ranking loop.
- `trends.dfy`: the trend loop and the chart axis.
- `dashboard.dfy`: the page's label and ranking loops, and the lemmas that
  tie the filtered frame and the trend series back to the generated groups.
- `arith.dfy` and `wrappers.dfy`: small real-arithmetic facts and an
  `Option` type.

Three behaviours of the code are easy to misread, and the model keeps them
as written:
- The ranking is sorted with a non-strict `sort_values`. Equal values may
  sit side by side, so the model proves non-increasing order, not strictly
  decreasing order.
- The QoQ delta is "N/A" whenever the previous total is not positive
  (`prev_quarterly_value > 0` guards the division), not only when it is 0.
- A trend series has one entry per quarter in which the corridor has
  records. A quarter whose value is below 10 would have no records and no
  entry. With the shipped base values (all at least 270) every quarter has
  records, so every series has all twenty entries (`Dashboard.FullTrendSeries`).

The dashboard passes values in billions of USD to `format_currency`, whose
bands are written for plain USD. A quarter of 1325 (billions) therefore shows
as "$1K" (`Currency.BillionsFigureInThousandsBand`). The model keeps this
behaviour as written.

## Model

| member | source | states |
|---|---|---|
| Corridors.TableIsValid | app.py:60-101 | The corridor table has eight corridors with distinct names, a non-empty polygon each and positive base values. |
| Corridors.IndexOf | app.py:253 | Looking a selected name up in the corridor dictionary finds an index holding that name, and finds nothing exactly when no corridor has the name. |
| Corridors.MinOf | app.py:127-130 | `min` over a non-empty list is an element of it and no larger than any element. |
| Corridors.MaxOf | app.py:127-130 | `max` over a non-empty list is an element of it and no smaller than any element. |
| Corridors.BoundingBox | app.py:126-130 | The box built from the vertex minima and maxima is well formed and contains every vertex of the polygon. |
| Corridors.BoundingBoxTight | app.py:126-130 | Each side of the bounding box touches a vertex, so it is the tightest enclosing box. |
| Quarters.NatToString | app.py:108 | The decimal rendering of a number, as `str()` gives it, is non-empty and made of digits. It has no leading zero, and 0 renders as "0". |
| Quarters.NatToStringRoundTrip | app.py:108 | Reading a rendered number back gives the number. |
| Quarters.QuarterLabelRoundTrip | app.py:103-108 | Every label parses back to its own index: quarter `i % 4 + 1` of year `2021 + i // 4`. |
| Quarters.QuarterLabelsDistinct | app.py:103-108 | Different indices have different labels. |
| Quarters.QuartersChronological | app.py:105-106 | A larger index is a later calendar quarter. |
| Quarters.BuildQuarters | app.py:103-108 | The loop builds exactly twenty labels, the i-th being index i's label, and each parses back to i. |
| Synthesis.Trunc | app.py:124 | `int()` truncates toward zero: the result is the integer part on both sides of zero. |
| Synthesis.Uniform | app.py:133-134 | A uniform draw from a unit sample lies between its bounds. The same draw gives the random factor at app.py:119. |
| Synthesis.PointCount | app.py:124 | The point count n of a non-negative value satisfies `10n <= value < 10(n+1)`, and a value below 10 gives no points. |
| Synthesis.QuarterlyValueBounds | app.py:111-121 | A quarterly value lies between 81% and 121% of the grown quarter share of the base, so it is positive for a positive base. |
| Synthesis.ValuePositive | app.py:117-124 | Every generated quarterly value is positive, and its point count is `int(value / 10)`. |
| Synthesis.EmitPoints | app.py:132-143 | A group emits exactly the requested number of records. |
| Synthesis.EmitPointsShape | app.py:132-143 | Every emitted record carries the group's corridor, label, index and value with weight 1, and with unit samples lies inside the box. |
| Synthesis.EmitGroup | app.py:132-143 | The point loop appends exactly the group's records, drawing latitude then longitude per point. |
| Synthesis.GroupShape | app.py:117-143 | Group (k, q) has `int(value / 10)` records, each with corridor k's name, index q and its label, the same value, weight 1, and a position inside the corridor's bounding box. |
| Synthesis.GenerateGroup | app.py:111-143 | One pass of the quarter loop yields group (k, q) and advances the random stream past its draws. |
| Synthesis.GenerateCorridorData | app.py:53-145 | The generator returns the twenty labels in order and exactly the dataset `Synthesized`, groups in corridor-then-quarter order. |
| Synthesis.BeforeFromGroups | app.py:110-143 | Every record of the dataset comes from some group (k, q) of a table corridor and a quarter below 20. |
| Synthesis.UptoFromGroups | app.py:110-143 | Every record emitted before position (k, q) of the loops comes from an earlier group. |
| Synthesis.GroupInUpto | app.py:110-143 | Every record of an earlier group is among the records emitted before position (k, q). |
| Synthesis.GroupInBefore | app.py:110-143 | Every record of a group of the first n corridors is among their emitted records. |
| Synthesis.GroupInSynthesized | app.py:110-143 | Every record of every group is in the generated dataset. |
| Synthesis.SynthesizedRecord | app.py:110-143 | Every generated record has weight 1, an index below 20 with its matching label, a table corridor's name and a position inside that corridor's box. |
| Aggregation.Filter | app.py:198-201 | A record is in the filtered frame exactly when it is in the data, its corridor is selected and its index is the selected one. |
| Aggregation.FilterConcat | app.py:198-201 | Filtering distributes over concatenation, so the filter keeps the records' relative order. |
| Aggregation.FilterCons | app.py:198-201 | Filtering a frame is its first record, when that passes, followed by the filtered rest. |
| Aggregation.FilterKeepsAll | app.py:198-201 | A frame whose records all pass is returned unchanged. |
| Aggregation.FilterDropsAll | app.py:198-201 | A frame none of whose records pass filters to nothing. |
| Aggregation.EmptySelection | app.py:165 | With no corridor selected the filtered frame is empty. |
| Aggregation.FilterIdempotent | app.py:198-201 | Filtering the filtered frame again changes nothing. |
| Aggregation.FirstIndex | app.py:255-256 | `iloc[0]` finds the earliest record of the corridor, or nothing exactly when it has no record. |
| Aggregation.FirstValueAtFirstIndex | app.py:255-256 | A corridor's first value is absent exactly when it has no record, and otherwise is the value at its earliest record. |
| Aggregation.Without | app.py:330 | Dropping a corridor's records keeps exactly the other records. |
| Aggregation.FirstValueWithout | app.py:330 | Dropping another corridor's records leaves a corridor's first value unchanged. |
| Aggregation.GroupFirst | app.py:330 | The grouping has no more rows than the frame has records. |
| Aggregation.GroupFirstNames | app.py:330 | The grouping has a row for a corridor exactly when the frame has a record of it. |
| Aggregation.GroupFirstDistinct | app.py:330 | No corridor has two rows in the grouping. |
| Aggregation.GroupFirstValues | app.py:330 | Each row holds the value of its corridor's first record. |
| Aggregation.GroupSumIsSelectedSum | app.py:330-331 | Summing the grouped rows equals summing, over the selection, each corridor's first value (0 without records). |
| Aggregation.TotalMatchesSelection | app.py:330-331 | The total quarterly value of the filtered frame is the sum over the selected corridors of their values, with 0 for a corridor that has no records. |
| Aggregation.TotalOfEmpty | app.py:331 | An empty filtered frame totals 0. |
| Aggregation.PreviousIsTotal | app.py:335-339 | The previous quarter's total is the total the page shows when that quarter is selected. |
| Aggregation.ChangePercentInverse | app.py:342 | Applying the percentage change to the previous total gives the current total, and its sign follows whether the total rose, stayed or fell. |
| Aggregation.DeltaAgainstSpec | app.py:341-345 | The delta is "N/A" exactly when the previous total is not positive; otherwise it is the percentage that takes the previous total to the current one. |
| Aggregation.QoQDeltaSpec | app.py:334-347 | The QoQ delta is "N/A" exactly for the first quarter or a previous total that is not positive; otherwise it is positive exactly when the total rose. |
| Aggregation.IntensityBands | app.py:357-358 | HIGH iff some corridor is selected and the total exceeds 200 per corridor; MODERATE iff it lies in (100, 200] per corridor; LOW otherwise, including an empty selection. |
| Aggregation.IntensityMonotone | app.py:358 | A larger average never gives a lower band. |
| Aggregation.ShareSumPrefix | app.py:249-260 | The global shares of the first n corridors add up to their base values' fraction of the total, in percent. |
| Aggregation.GlobalSharesSumTo100 | app.py:249-260 | The global shares of all corridors add up to 100. |
| Aggregation.GlobalShareBounds | app.py:249-260 | With positive bases, each global share lies in (0, 100]. |
| Aggregation.BaseSumBounds | app.py:249 | With positive bases, the global total is at least each base value. |
| Currency.FormatCurrency | app.py:204-213 | Suffix B from 1e9, M from 1e6, K from 1e3 and none below. The scaled figure times its unit is the value. B has one decimal; M and K have none and a figure in [1, 1000). |
| Currency.TierMonotone | app.py:206-213 | A larger value never falls in a lower band. |
| Currency.FormatExamples | app.py:204-213 | 5.3e9 gives 5.3 B with one decimal, 4.5e8 gives 450 M, 2000 gives 2 K, and 50 has no suffix. |
| Currency.BillionsFigureInThousandsBand | app.py:267-269 | A quarterly value of 1325 (billions) and its annual estimate both fall in the K band. |
| Ranking.InsertDescending | app.py:367 | Inserting keeps every row and adds the new one: the result is the old multiset plus the row. |
| Ranking.SortDescending | app.py:367 | Sorting is a permutation of the rows. |
| Ranking.ConsNonIncreasing | app.py:367 | A row no smaller than every row of a non-increasing list can head it. |
| Ranking.InsertNonIncreasing | app.py:367 | Inserting into a non-increasing list keeps it non-increasing. |
| Ranking.SortNonIncreasing | app.py:367 | The sorted rows are in non-increasing order of value. |
| Ranking.InsertSum | app.py:367 | Inserting a row adds its value to the total. |
| Ranking.SortSum | app.py:367 | Sorting keeps the total of the values. |
| Ranking.InsertSplit | app.py:367 | The inserted row lands between the rows before its position and the rows from it on. |
| Ranking.SortNamesSame | app.py:367 | Sorting keeps the set of corridors. |
| Ranking.InsertKeepsDistinct | app.py:367 | Inserting a row of a new corridor keeps corridors free of repeats. |
| Ranking.SortDistinct | app.py:367 | Sorting keeps corridors free of repeats. |
| Ranking.RankCorridors | app.py:365-376 | Ranking rows are numbered 1..n in non-increasing value order and are a permutation of the grouped rows with the same total. Corridors stay distinct. Each row shows its value formatted, and its share is its value over the total in percent, or "0%" when the total is not positive. |
| Ranking.SumSharesScaled | app.py:375 | The shown shares add up to the ranked values' sum over the total, in percent. |
| Ranking.SharesSumTo100 | app.py:375 | With a positive total equal to the ranked values' sum, the shares add up to 100. |
| Ranking.SharesWithoutTotal | app.py:375 | With a total that is not positive every share is "0%". |
| Trends.QuarterFirstSpec | app.py:391 | A (corridor, index) group exists exactly when the corridor has a record with that index, and holds the value of the earliest such record. |
| Trends.SeriesOrdered | app.py:391 | A corridor's series has strictly ascending quarter indices, so no quarter appears twice. |
| Trends.SeriesSound | app.py:391 | Every series entry is the value of the corridor's earliest record in that quarter. |
| Trends.SeriesComplete | app.py:391 | Every quarter in which the corridor has a record has an entry. |
| Trends.CorridorSeriesSpec | app.py:391 | The series is exactly the grouping by quarter index, ascending, with first values. |
| Trends.SeriesStable | app.py:391 | Quarters beyond every record's index add no entries. |
| Trends.IndexBound | app.py:391 | The bound lies above every record's index and is attained. |
| Trends.SeriesLabelable | app.py:397 | Series indices stay within the label list whenever the corridor's records do. |
| Trends.TrendData | app.py:387-397 | The trend loop appends the selected corridors' labelled series in selection order. |
| Trends.TrendMembership | app.py:389-397 | A row is in the trend frame exactly when its corridor is selected, its (index, value) is in that corridor's series, and it carries the label at its index. |
| Trends.LabelsOutOfOrder | app.py:400 | "Q1 2022" sorts before "Q2 2021" as a string. |
| Trends.PivotAxisOutOfOrder | app.py:400 | On the string-sorted pivot axis, the first quarter of 2022 comes before the second quarter of 2021. |
| Trends.ChartAxis | app.py:400-403 | The intended chart axis lists each quarter index present in the trend frame, in strictly ascending order. |
| Trends.ChartAxisChronological | app.py:400-403 | Along the intended axis the quarters are in calendar order. |
| Trends.TrendOnChartAxis | app.py:396-403 | Every trend row sits on the intended axis at its own index and carries that quarter's label. |
| Dashboard.CorridorCenters | app.py:251-271 | One label per selected corridor, in order. Each carries the table centre and the first value in the filtered frame (0 without records), formatted. Its annual estimate is four times that value, formatted, and its global share is the base value's share of the whole table's. |
| Dashboard.RankingTable | app.py:329-376 | The total is the grouped sum (0 when empty). The ranking has one row per corridor present, as a permutation of the grouping, ranked 1..n by non-increasing value. Each row shows its value formatted and its share of the total in percent, or "0%" when the total is not positive. With a positive total the shares add up to 100. |
| Dashboard.HeatMapRecords | app.py:198-201 | A generated record is in the heat map of a quarter exactly when it belongs to the quarter's group of a selected corridor. |
| Dashboard.FirstValueOfFilter | app.py:255-256 | A selected corridor's first value in the filtered frame is its group value for the quarter. |
| Dashboard.QuarterFirstOfSynthesized | app.py:391 | In the generated data, the group value of corridor k in quarter q is the generated quarterly value, or absent when the group has no records. |
| Dashboard.SelectedValueOfSynthesized | app.py:255-256 | A selected corridor's map value is its generated quarterly value, or 0 when the group has no records. |
| Dashboard.SeriesOfGroupValues | app.py:391 | A frame whose group values are the generated ones has the generated series. |
| Dashboard.SeriesOfSynthesized | app.py:391 | A generated corridor's trend series is, in quarter order, its generated value in every quarter that has records. |
| Dashboard.SynthesizedLabelable | app.py:397 | Every generated record's index is within the twenty labels. |
| Dashboard.LargeBaseValue | app.py:117-124 | A base of at least 270 gives a quarterly value of at least 54.675, so at least five records. |
| Dashboard.GeneratedSeriesFull | app.py:391 | With bases of at least 270 the generated series has every quarter, each at its generated value. |
| Dashboard.FullTrendSeries | app.py:389-393 | With bases of at least 270, each corridor's trend has exactly twenty entries, indices 0..19 in order, each at the generated quarterly value. |
| Dashboard.ShippedTable | app.py:60-101 | The shipped table has unique names, polygons and bases of at least 270, so `FullTrendSeries` applies to it. |

## Left out

- Page layout, CSS, Streamlit widgets, the Folium map with its markers,
  popups, tooltips and heat-map gradient, and the line chart's drawing
  (app.py:1-49, 150-195, 215-246, 273-327, 349-363, 377-405). Only the data
  handed to them is modelled.
- The `@st.cache_data` memoisation of the generator, which only affects when
  it runs.
- `np.random.uniform` is a supplied stream of unit samples `rng`. `np.sin`
  is the supplied `sines`, indexed by `q % 4`. Their exact numbers are not
  modelled; samples are taken to lie in [0, 1) and sines in [-1, 1] where a
  lemma needs it.
- Floating point: values are real numbers, so there is no rounding in the
  sums, divisions or percentages.
- The text of the f-strings (`:.1f`, `:.0f`, `:+.1f`, "$" and "%"). A
  formatted amount is the triple (scaled figure, decimals, suffix); a share
  is a real or "0%"; a delta is a percentage or "N/A".
- The order of the groupby rows. pandas sorts the corridor keys, while the
  model keeps first-appearance order. The rows only feed a sum and the
  ranking's re-sort, so only the order of ties differs.
- The order of ties in `sort_values`. The ranking contract fixes
  non-increasing order and a permutation, not which of two equal values
  comes first.
- The sidebar figures (app.py:170-174): the count of active corridors and
  `total_base_value`, a plain sum over the selection that is only displayed.
- The checkboxes that build the selection (app.py:156-165). The selection is
  a parameter; lemmas that need it free of repeats say so, as dictionary
  keys are.
- The unused imports and `start_date` (app.py:7-8, 104).
- Aggregation.QoQDeltaSpec: states only when the delta is "N/A" and its
  sign. The exact percentage, the change that takes the previous total to
  the current one, is stated by `Aggregation.DeltaAgainstSpec`, which
  `QoQDelta` calls.
- Dashboard.HeatMapRecords: states membership in the filtered frame, not
  equality of the frame with the concatenated groups. The order of records
  follows from `Aggregation.FilterConcat`.
- Corridors.IndexOf: returns the last position with the name. With unique
  names, as the dictionary has, that is the only one.
- The pivot's value table itself. The model keeps only the axis order, see
  Findings.

## Findings

| source | as written | input that shows it | evidently intended | confidence | as-written member | corrected member |
|---|---|---|---|---|---|---|
| app.py:400 | `pivot(index='quarter')` sorts the pivot index, the quarter labels, as strings, so the trend chart's axis runs Q1 2021, Q1 2022, …, Q2 2021, … | a trend frame with rows at index 1 ("Q2 2021") and index 4 ("Q1 2022"): "Q1 2022" sorts first | an axis ordered by quarter index, which is calendar order | medium, not executed | Trends.PivotAxisOutOfOrder | Trends.ChartAxis |
