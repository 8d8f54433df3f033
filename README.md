# State-wise scheme benefits: the eligibility pipeline

A Dafny model of the data pipeline of the State-wise Scheme Benefits Explorer
(`app6.py`), a Streamlit page. The user submits a category, a gender and an
annual income. The page then does four things:

- it keeps the government schemes the user is eligible for;
- it stops with a "no schemes" message when there are none;
- it sums the benefits per state and writes a per-state list of the schemes,
  `"<Scheme Name>: ₹<Benefit>"` joined by `"<br>"`;
- it left-merges that summary onto the dissolved state polygons of the map,
  filling regions with no schemes with `0` and `"No Schemes Available"`.

Every step is a pure function over sequences of typed records:

| file | module | what it models |
|---|---|---|
| `wrappers.dfy` | `Wrappers` | `Option`, with `GetOr` standing for `fillna` |
| `grouping.dfy` | `Grouping` | `f"{n:,}"` for a natural `n`, its parser, and the grouping properties |
| `eligibility.dfy` | `Eligibility` | the scheme record and the three-part eligibility mask |
| `details.dfy` | `Details` | one detail item, `"<br>".join`, and reading the text back (split, amounts) |
| `aggregation.dfy` | `Aggregation` | the two `groupby('State')` aggregations and their merge |
| `geojoin.dfy` | `GeoJoin` | the left merge onto regions, with the `fillna` defaults |
| `pipeline.dfy` | `SchemePipeline` | one submission end to end, and the per-row end-to-end lemma |
| `scenarios.dfy` | `Scenarios` | worked examples on concrete tables |

Benefit, Max Annual Income and the selected income are natural numbers. The
per-state summary is a `map` keyed by State: pandas' `groupby` orders its
groups by key, and the model promises no order for them. A region is a state
name with its geometry as an opaque type parameter `G`, carried through
unchanged.

The merge on line 49 is a left merge. A total with no details row would get a
missing Scheme Details cell there, and line 54 would fill that cell with
"No Schemes Available". The model keeps that path: `StateSummary.schemeDetails`
is an `Option`, and `GeoJoin.LeftJoin` fills a `None` with the default.
`Aggregation.Aggregate` proves that the path is never taken, because both
aggregations have the same keys.

The pipeline is made of functions, so running it twice on the same inputs
gives the same result by construction. No lemma states this.

The order of states in the summary follows the code, not a first-seen order:

- `groupby` sorts its groups by key, so the model only promises a summary
  keyed by State. It does not promise the order in which states first appear.
- Within a state, the items follow the order of the records in the table.

## Model

| member | source | states |
|---|---|---|
| `Eligibility.Eligible` | app6.py:31-33 | Definition of the three-conjunct mask, with no ensures of its own. It is characterised through the contract of `Filter` and through `FilterCount` and `IncomeBoundary`. |
| `Eligibility.Filter` | app6.py:30-34 | Every kept record meets all three conditions: category equal, gender equal or "Any", ceiling at least the income. Every input record that meets them is kept. The output is a subsequence of the table, in table order. |
| `Eligibility.FilterCount` | app6.py:30-34 | For every record value, the output holds as many copies as the table when the record is eligible, and none otherwise. |
| `Eligibility.FilterUnique` | app6.py:30-34 | Any subsequence of the table with the same multiset as the filter output is the filter output. So the contract of `Filter` determines its result. |
| `Eligibility.IncomeBoundary` | app6.py:30-34 | For any table, a record whose category and gender match is kept when its ceiling equals the selected income, and dropped when its ceiling is below it. |
| `Eligibility.SubsequenceMembers` | app6.py:30-34 | Every record of a subsequence occurs in the table: the filter invents no rows. |
| `SchemePipeline.Pipeline` | app6.py:30-54 | The outcome is "no schemes found" exactly when no table record is eligible. Otherwise it carries the filtered table and one joined row per region. |
| `SchemePipeline.PipelineRow` | app6.py:30-54 | For each region row: same state and geometry as the region. The total is the Benefit sum of the eligible schemes of that state. The details are their joined items. The row is "No Schemes Available" exactly when that state has no eligible scheme. |
| `SchemePipeline.FilterThenGroup` | app6.py:30-44 | A state's group of the filtered table equals the filtered group of that state, in table order. |
| `SchemePipeline.DetailsNeverDefault` | app6.py:45-54 | A state's joined details are never the default text, so the default marks exactly the states with no scheme. |
| `SchemePipeline.JoinedRow` | app6.py:49-54 | After the join, a region's total and details come from the group of its state in the filtered table, or are the defaults when that group is empty. |
| `Aggregation.StatesOf` | app6.py:40-44 | Definition of the group keys, with no ensures of its own. `StatesOfMembers` characterises it. |
| `Aggregation.SumBenefit` | app6.py:40 | Definition of the `'sum'` aggregation over a group, with no ensures of its own. `TotalsByStateSum` and `SumBenefitAmounts` characterise it. |
| `Aggregation.StatesOfMembers` | app6.py:40 | The group keys are exactly the State values some record carries. |
| `Aggregation.StateRecords` | app6.py:40-46 | A state's group is non-empty exactly when the state is a group key. |
| `Aggregation.StateRecordsMembers` | app6.py:40-46 | A state's group holds the records with that state and no others. |
| `Aggregation.Items` | app6.py:45 | There is one detail item per record, in record order, each rendered from that record's name and benefit. |
| `Aggregation.TotalsByState` | app6.py:40-41 | There is one total per distinct state of the records, and no other. |
| `Aggregation.TotalsByStateSum` | app6.py:40-41 | Each state's total is the exact sum of Benefit over that state's records. |
| `Aggregation.DetailsByState` | app6.py:44-46 | There is one details string per distinct state of the records, and no other. |
| `Aggregation.DetailsByStateJoin` | app6.py:44-46 | Each state's details string is the `"<br>"` join of that state's items, in record order. |
| `Aggregation.MergeSummaries` | app6.py:49 | Every totals row is kept. It carries the details of its state when there are some, and nothing otherwise. |
| `Aggregation.Aggregate` | app6.py:40-49 | One summary per distinct state of the filtered records. Its total is the exact Benefit sum and its details are the joined items; none is missing. |
| `Aggregation.AmountsOfItems` | app6.py:45 | Each item of a group reads back as the Benefit of the record it was rendered from. |
| `Aggregation.SumBenefitAmounts` | app6.py:41 | Adding up the records' benefit amounts one by one gives the group's Benefit sum. |
| `Aggregation.ItemsSumToTotal` | app6.py:40-45 | The amounts written in a group's items add up to the group's Benefit sum. |
| `Aggregation.TotalMatchesDetails` | app6.py:40-49 | Read back from the text alone, a state's Scheme Details list one item per record, and their amounts add up to its Total Benefit. |
| `Aggregation.DetailsSeparators` | app6.py:44-46 | A state's details text is its items plus exactly (records − 1) `"<br>"` separators. |
| `Details.DetailItem` | app6.py:45 | The rendered item `"name: ₹amount"` has a `'<'` only when the scheme name has one. |
| `Details.ItemAmountOfDetailItem` | app6.py:45 | The amount after the last rupee sign of an item reads back as that record's Benefit, whatever the name. |
| `Details.Join` | app6.py:45 | Definition of `'<br>'.join`, with no ensures of its own. `JoinLength` and `SplitJoin` characterise it. |
| `Details.SplitJoin` | app6.py:45 | A read-back helper for the total/details invariant (line 45 itself never splits). Splitting the `"<br>"` join of items with no `'<'` gives the items back. |
| `Details.JoinLength` | app6.py:45 | A join of k items is the items' lengths plus k − 1 separators. |
| `Details.AfterLastAppend` | app6.py:45 | The text after the last rupee sign is whatever follows the sign that was added last. |
| `Details.Split` | app6.py:45 | A read-back helper for the total/details invariant; line 45 never splits. Its one ensures, at least one piece, is a well-formedness fact its own body relies on, not a property of the source. |
| `Grouping.FormatGrouped` | app6.py:45 | `f"{n:,}"` is non-empty and holds only digits and commas. |
| `Grouping.StripFormatGrouped` | app6.py:45 | Removing the commas from `f"{n:,}"` gives the plain decimal form of n. |
| `Grouping.FormatGroupedWellGrouped` | app6.py:45 | The rendering is `"0"` or a first comma group of 1 to 3 digits that does not start with `'0'`, followed by groups of exactly 3. |
| `Grouping.ParseFormatGrouped` | app6.py:45 | Reading `f"{n:,}"` back gives n. |
| `Grouping.ParseGrouped` | app6.py:45 | A read-back helper for the total/details invariant (line 45 only formats). A text reads back as a number exactly when it is well grouped, and the number read renders as that very text. With `ParseFormatGrouped`, the parser is the exact inverse of the formatter in both directions: text like `"0,123"` or `"0123"`, which the formatter never writes, is refused. |
| `Grouping.FormatWellGrouped` | app6.py:45 | A read-back helper (line 45 only formats). Every well-grouped text is the rendering of the number its digits spell. |
| `Grouping.DecimalSplit` | app6.py:45 | For n ≥ 1000, the decimal form of n is the decimal form of n / 1000 followed by three digits for n % 1000. |
| `Grouping.ParseDecimalOfDecimal` | app6.py:45 | Reading the plain decimal form of n back gives n. |
| `GeoJoin.Enrich` | app6.py:52-54 | Definition of one merged region row with the two `fillna` defaults, with no ensures of its own. The ensures of `LeftJoin` characterise it. |
| `Wrappers.Option.GetOr` | app6.py:54 | Definition of `fillna` on one cell, with no ensures of its own. The ensures of `LeftJoin` and `PipelineRow` characterise it. |
| `GeoJoin.LeftJoin` | app6.py:52-54 | One row per region, in region order, with the region's state and geometry. A region whose name equals a summary's State gets that summary. Any other region gets 0 and "No Schemes Available". |
| `GeoJoin.UnmatchedSummaryDropped` | app6.py:52-54 | A summary whose State names no region appears nowhere: no row carries its state, and removing it from the summary leaves every row of the join unchanged, values included. |
| `GeoJoin.MatchedSummaryOnce` | app6.py:52 | When region names are distinct, a matched summary's state lands in exactly one row, which carries its total and its details (with the `fillna` default for missing details). |
| `Scenarios.ScenarioSingleRecord` | app6.py:30-46 | A Student record with gender "Any", ceiling 200000, name S1, state Goa and Benefit 5000 is eligible for (Student, Female, 100000). Its summary is Goa → 5000, "S1: ₹5,000". |
| `Scenarios.ScenarioNothingMatches` | app6.py:36-37 | An income above every ceiling, or an unknown category, gives the "no schemes" outcome. |
| `Scenarios.ScenarioTwoSchemesOneState` | app6.py:40-46 | Two Goa schemes of 1000 and 2000 give a total of 3000 and both items, in table order. |
| `Scenarios.ScenarioRegionWithoutSchemes` | app6.py:52-54 | Kerala, with no eligible scheme, gets 0 and "No Schemes Available". Goa gets its summary. |

## Left out

- The Streamlit page is not modelled: the form, the selectors, the slider, the submit button, the warning, the subheader and the table display. The selectors only matter as the three inputs of `Pipeline`. Their ranges (a fixed gender list, incomes 0 to 500000) are a matter for the page, and the filter accepts any value.
- Unzipping the shape files and reading the shapefile and the CSV are I/O. The scheme table and the region list are inputs.
- The geometric union done by `dissolve(by="STATE")` is a geopandas call. Only its effect is modelled: a list of regions, each a state name with its geometry carried through as an opaque value. `Pipeline` and `LeftJoin` accept any region list, repeated names included. Only `GeoJoin.MatchedSummaryOnce` assumes one region per state name (`GeoJoin.DistinctStates`), which is what `dissolve` gives. The model takes the region list in the order it is given, and `GeoJoin.LeftJoin` keeps that order. (`dissolve` itself sorts by STATE; that order is not modelled.)
- GeoJSON conversion, the Plotly choropleth and its layout are rendering, done by a foreign library. So are the `":,.0f"` hover format and `hover_name`.
- Benefit is a natural number. A float Benefit column would print as `"5,000.0"`, and that case is not modelled.
- After the join, when some region has no summary, pandas holds Total Benefit as a float column (the missing cells become NaN before `fillna(0)`). When every region matches, the integer column survives. The model keeps naturals, because the difference only shows in display.
- The right-hand `State` column that the merge leaves missing for unmatched regions is not modelled. Lines 53-54 do not fill it, and it is only used as the hover title.
- Integer width is not modelled. pandas holds Benefit as int64, and a `groupby` sum past 2^63 − 1 would wrap, but the model's `nat` does not. Real benefit amounts are far below that limit.
- The order of the `groupby` result is not modelled: the summary is a map keyed by State.
- Aggregation.TotalMatchesDetails: reading the amounts back from the text alone is proved for scheme names without `'<'`. That is a sufficient condition the proof uses, not a necessary one: only a name containing `"<br>"` splits into extra items, and a name such as `"A<B Yojana"` would read back correctly, though the lemma does not cover it. `Aggregation.ItemsSumToTotal` states the invariant item by item, and it holds for every name.
