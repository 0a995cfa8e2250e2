# Sales analysis pipeline: a Dafny model

This project models the data-processing pipeline of the advanced demo
application (`advanced_taipy_app.py`). A raw sales table with the columns
`Date`, `Product`, `Sales` and `Region` goes through three tasks, each
reading only the data node that the task before it wrote:

1. **clean** (`clean_data`): drops every row with a missing value, then adds
   `Month` (the date as `YYYY-MM`) and `Revenue` (`Sales` times a random
   multiplier);
2. **analyze** (`analyze_data`): groups the cleaned rows by (`Month`,
   `Product`), computes the sum and the mean of `Sales` and of `Revenue` per
   group, and flattens the result into one plain row per group with the
   columns `Month`, `Product`, `Sales_sum`, `Sales_mean`, `Revenue_sum`,
   `Revenue_mean`;
3. **summary** (`create_summary`): a four-row `Metric`/`Value` table with
   `Total Sales`, `Total Revenue`, `Average Daily Sales` and
   `Number of Products`.

The stages are pure functions over sequences of rows. The scenario's task
list (`clean_task`, `analyze_task`, `summary_task` over the nodes
`raw_data`, `cleaned_data`, `analysis_data`, `summary_data`) is data, and
`Scenario.Submit` runs it in its declared order over a map of data nodes.
`Scenario.Pipeline` writes the raw table into `raw_data` and submits the
scenario.

Modules, one per file:

- `Wrappers` (`wrappers.dfy`): `Option` and `Result`.
- `Text` (`text.dfy`): zero-padded digits, comma thousands separators and
  their inverse, and code-point string order.
- `Dates` (`dates.dfy`): dates and the `Month` key.
- `Frames` (`frames.dfy`): columns, raw and cleaned rows and tables, failure
  causes.
- `Cleaning` (`cleaning.dfy`), `Analysis` (`analysis.dfy`) and `Summary`
  (`summary.dfy`): the three stages.
- `Scenario` (`scenario.dfy`): the task configuration, submission and
  end-to-end properties.

Modelling choices:

- A missing value is `None`. The table carries its set of columns. A row
  can only hold a value in a column the table has, and a column that is
  absent is not checked by `dropna`.
- Failures follow the order in which the code reaches them. A missing
  `Date` column fails first. Next comes a kept date that does not exist
  (`pd.to_datetime` raises), then a missing `Sales` column. All three
  happen in the clean task. A missing `Product` column fails in the
  analyze task, because the group-by raises there. The run stops at the
  first failing task. The nodes written before it stay available.
- The random draw is a parameter: `multiplier(i)` is the value that scales
  the i-th kept row, so `Revenue = Sales * multiplier(i)`.
- Group keys come out in ascending (`Month`, `Product`) order, because
  `groupby` sorts its keys by default. Strings compare by code point, as
  Python compares them.
- Means are exact rationals (`real`).
- Aggregating an empty cleaned table is not an error: it gives an
  empty analysis. The summary of an empty analysis is `"0"`, `"$0.00"`,
  `"nan"` and `0`. No schema is checked before the run starts, so a
  missing column is reported by the task that looks it up.

Stage functions and the lemmas that carry their contracts:

- `Cleaning.Clean` models `clean_data` (advanced_taipy_app.py:29-39).
  Its contracts are `Cleaning.CleanFailure`, `Cleaning.CleanOutput` and
  `Cleaning.CleanStructureIgnoresDraw`.
- `Dates.MonthKey` models `dt.strftime('%Y-%m')` (advanced_taipy_app.py:36).
  Its contracts are `Dates.MonthKeyRoundTrip` and `Dates.MonthKeyInjective`.
- `Analysis.Analyze` models `analyze_data` (advanced_taipy_app.py:41-53).
  Its contracts are `Analysis.AnalyzeFailure`, `Analysis.AnalyzeGroups`,
  `Analysis.AnalyzeGroupValues`, `Analysis.AnalyzeSumsAddUp`,
  `Analysis.AnalyzeProducts` and `Analysis.AnalyzeIgnoresRevenue`.
- `Summary.Summarize` models `create_summary` (advanced_taipy_app.py:55-66).
  Its contracts are `Summary.SummaryMetrics`, `Summary.SummaryTotalSales`,
  `Summary.SummaryTotalRevenue`, `Summary.SummaryAverage`,
  `Summary.SummaryProductCount` and `Summary.SummaryIgnoresRevenue`.
- `Text.FormatThousands` models the `,` format option
  (advanced_taipy_app.py:63). Its contracts are
  `Text.FormatThousandsRoundTrip`, `Text.FormatThousandsShape` and
  `Text.FormatThousandsCanonical`.
- `Scenario.Submit` and `Scenario.Pipeline` model the task and scenario
  configuration (advanced_taipy_app.py:69-79). Their contracts are
  `Scenario.SubmitWrites`, `Scenario.PipelineSteps`,
  `Scenario.PipelineFailure`, `Scenario.PipelineComposes` and the other
  `Scenario.Pipeline…` lemmas.

## Model

| member | source | states |
|---|---|---|
| `Text.FormatThousandsRoundTrip` | advanced_taipy_app.py:63 | Reading back a number written with the `,` option (sign, digits, separators) gives back the number for every integer |
| `Text.GroupedDigits` | advanced_taipy_app.py:63 | Grouping only inserts commas: removing them gives the digits of the value. The text is 1 to 3 digits followed by comma-and-three-digit groups, and it starts with `0` only when it is exactly `0` |
| `Text.FormatThousandsShape` | advanced_taipy_app.py:63 | Every integer is written in the `,` option's shape: grouped digits with no leading zero (other than `0` itself), preceded by `-` exactly when the value is negative |
| `Text.FormatThousandsCanonical` | advanced_taipy_app.py:63 | The shape and the value fix the text: any string in that shape that reads back as `n` is exactly the text written for `n` |
| `Text.HundredsExample` | advanced_taipy_app.py:63 | 600 is written `600`, with no separator |
| `Text.ThousandsExample` | advanced_taipy_app.py:63 | 1234 is written `1,234` |
| `Text.MillionsExample` | advanced_taipy_app.py:63 | -1234567 is written `-1,234,567`: the sign comes first, then a separator before each group of three digits |
| `Text.StrLessTransitive` | advanced_taipy_app.py:44 | Code-point string order, used to sort the group keys, is transitive |
| `Text.StrLessTotal` | advanced_taipy_app.py:44 | For any two strings, either they are equal or one is below the other |
| `Dates.MonthKeyRoundTrip` | advanced_taipy_app.py:36 | The `Month` key of a valid date is seven characters long. It parses back to exactly the date's year and month |
| `Dates.MonthKeyInjective` | advanced_taipy_app.py:36 | Two dates get the same `Month` key if and only if they share year and month |
| `Dates.MonthKeyExample` | advanced_taipy_app.py:36 | Every day of January 2024 gets the key `"2024-01"` |
| `Cleaning.DropNA` | advanced_taipy_app.py:31-32 | The kept rows are exactly the input rows that have no missing value in any column of the table. There are never more of them than input rows |
| `Cleaning.DropNAConcat` | advanced_taipy_app.py:31-32 | Each row is judged on its own, and the kept rows stay in their original order |
| `Cleaning.DropNANoMissing` | advanced_taipy_app.py:31-32 | A table without missing values loses no row |
| `Cleaning.FirstInvalidDate` | advanced_taipy_app.py:36 | Gives no date if and only if every kept date exists. Otherwise it gives the date of the first row whose date does not exist: every row before it has a date that exists |
| `Cleaning.CleanFailure` | advanced_taipy_app.py:36-37 | Cleaning fails if and only if `Date` or `Sales` is not a column or a kept date does not exist. A missing `Date` is reported first. With `Date` present, a kept date that does not exist is reported as a bad date, even when `Sales` is also missing. A missing `Sales` is reported only when every kept date exists. A reported bad date comes from a complete input row |
| `Cleaning.CleanOutput` | advanced_taipy_app.py:29-39 | A successful clean keeps the columns and gives one row per kept input row, in order. Each row keeps its `Date`, `Product`, `Sales` and `Region` unchanged. Its `Month` parses back to the date's year and month, and its `Revenue` is `Sales` times the row's multiplier |
| `Cleaning.CleanStructureIgnoresDraw` | advanced_taipy_app.py:37 | Two runs with different random draws agree on success or failure, on the failure cause, on the columns, on the row count and on every field except `Revenue` |
| `Analysis.KeyLessTransitive` | advanced_taipy_app.py:44 | The (`Month`, `Product`) key order is transitive |
| `Analysis.Insert` | advanced_taipy_app.py:44 | Adding a key to a sorted key list keeps it strictly sorted and adds exactly that key |
| `Analysis.GroupKeys` | advanced_taipy_app.py:44 | The group keys are strictly ascending and are exactly the (`Month`, `Product`) pairs present in the rows |
| `Analysis.Members` | advanced_taipy_app.py:44 | A group holds exactly the rows with its key |
| `Analysis.DistinctCardinality` | advanced_taipy_app.py:44 | A list of distinct keys is as long as the set of keys it enumerates |
| `Analysis.GroupTotalIsTotal` | advanced_taipy_app.py:44-47 | Each row is in exactly one group, so adding any per-row quantity group by group gives its total over all rows |
| `Analysis.AnalyzeFailure` | advanced_taipy_app.py:44 | Analysis fails if and only if the cleaned table has no `Product` column, and it then reports that column |
| `Analysis.AnalyzeGroups` | advanced_taipy_app.py:44-51 | The analysis has exactly one row per distinct (`Month`, `Product`) pair of the cleaned table. Every key is present, no key is repeated, and the rows are in ascending key order |
| `Analysis.AnalyzeGroupValues` | advanced_taipy_app.py:44-47 | Each analysis row aggregates a non-empty group that holds exactly the cleaned rows with its key. `Sales_sum` and `Revenue_sum` are that group's sums, and each mean times the group size equals the matching sum |
| `Analysis.AnalyzeSumsAddUp` | advanced_taipy_app.py:44-47 | The group sizes add up to the cleaned row count. `Sales_sum` over all groups adds up to the total `Sales`, and `Revenue_sum` to the total `Revenue` |
| `Analysis.AnalyzeProducts` | advanced_taipy_app.py:44-51 | The analysis names exactly the products that occur in the cleaned table |
| `Analysis.GroupKeysIgnoreRevenue` | advanced_taipy_app.py:44 | Records that differ only in `Revenue` have the same key set and the same sorted group keys |
| `Analysis.MembersIgnoreRevenue` | advanced_taipy_app.py:44 | For records that differ only in `Revenue`, each group holds the same records except for their `Revenue` |
| `Analysis.AnalyzeIgnoresRevenue` | advanced_taipy_app.py:44-51 | Cleaned tables that differ only in `Revenue` give analyses that both succeed or both fail. They have the same length, and row by row the same key, `Sales_sum` and `Sales_mean` |
| `Analysis.AnalysisColumnNames` | advanced_taipy_app.py:44-51 | The flattened header is exactly `Month`, `Product`, `Sales_sum`, `Sales_mean`, `Revenue_sum`, `Revenue_mean` |
| `Summary.Unique` | advanced_taipy_app.py:63 | `unique()` holds each value of its input exactly once, with nothing else |
| `Summary.SummaryMetrics` | advanced_taipy_app.py:61-62 | The summary has exactly four rows: `Total Sales`, `Total Revenue`, `Average Daily Sales`, `Number of Products`, in that order |
| `Summary.SummaryTotalSales` | advanced_taipy_app.py:57-63 | `Total Sales` is text that parses back to the sum of the `Sales_sum` column and has the `,` option's shape: grouped by threes, no leading zero, a `-` only for a negative total. With `Text.FormatThousandsCanonical` this fixes the text |
| `Summary.SummaryTotalRevenue` | advanced_taipy_app.py:58-63 | `Total Revenue` is `$`, then `.00` at the end. Between them is text that parses back to the sum of `Revenue_sum` and has the `,` option's shape: grouped by threes, no leading zero, a `-` only for a negative sum |
| `Summary.SummaryAverage` | advanced_taipy_app.py:59-63 | `Average Daily Sales` is `"nan"` for an empty analysis. Otherwise it is the mean of the `Sales_mean` column |
| `Summary.SummaryProductCount` | advanced_taipy_app.py:63 | `Number of Products` is the plain integer count of distinct products in the analysis |
| `Summary.SummaryIgnoresRevenue` | advanced_taipy_app.py:57-63 | Analyses that differ only in `Revenue_sum`/`Revenue_mean` give the same `Total Sales`, `Average Daily Sales` and `Number of Products` rows |
| `Scenario.ScenarioIsChain` | advanced_taipy_app.py:74-79 | The three tasks form a chain. The first reads `raw_data`, and each later task reads the node its predecessor writes. No two tasks write the same node, and none writes `raw_data` |
| `Scenario.SubmitWrites` | advanced_taipy_app.py:74-79 | A completed submission has written every task's output. A failed one has written only task outputs and names a task of the scenario. A node that no task writes, such as the raw input, is never changed |
| `Scenario.PipelineSteps` | advanced_taipy_app.py:74-79 | Submitting the scenario runs clean, then analyze on its output, then summary on that output. The run stops with the failing task's name and keeps the nodes written so far |
| `Scenario.PipelineFailure` | advanced_taipy_app.py:74-79 | The run fails at `clean_task` if and only if cleaning fails, and then only `raw_data` exists. It fails at `analyze_task` with a missing `Product` when analysis fails. It completes if and only if cleaning succeeds and `Product` is a column |
| `Scenario.PipelineComposes` | advanced_taipy_app.py:74-79 | A completed run holds the raw table, its cleaned table, the analysis of that cleaned table and the summary of that analysis, in the four nodes |
| `Scenario.PipelineTotalSales` | advanced_taipy_app.py:29-63 | In a completed run, `Total Sales` is exactly the `,`-formatted sum of `Sales` over the raw rows that cleaning kept. It parses back to that sum and has the `,` option's shape, so `"0"` is written for an empty table, never `""` |
| `Scenario.PipelineStructureIgnoresDraw` | advanced_taipy_app.py:29-79 | Two runs on the same raw table with different random draws both complete or fail the same way. When they complete, they agree on the cleaned columns and row count, and on the analysis keys, `Sales_sum` and `Sales_mean` row by row. They also agree on `Total Sales`, `Average Daily Sales` and `Number of Products`. Only `Revenue`, `Revenue_sum`, `Revenue_mean` and `Total Revenue` can differ |
| `Scenario.PipelineProductCount` | advanced_taipy_app.py:44-63 | In a completed run, `Number of Products` is the number of distinct products among the cleaned rows |
| `Scenario.PipelineWithoutDate` | advanced_taipy_app.py:36 | Without a `Date` column the run fails at `clean_task`. No cleaned, analysis or summary node is written |
| `Scenario.PipelineExample` | advanced_taipy_app.py:29-66 | Three rows dated 2024-01-01 to 2024-01-03, all `Widget A`, with sales 100, 200 and 300, whatever the random draw: all three rows get `Month` `"2024-01"`. They form one group with `Sales_sum` 600 and `Sales_mean` 200, and `Total Sales` is `"600"` |

## Left out

- Revenue: the source multiplies `Sales` by a float drawn uniformly from [10, 50) by `np.random.uniform`. Here the multiplier is a caller-supplied integer per kept row. Revenue is therefore integral, and `Total Revenue` always ends in `.00`.
- Rounding: `.round(2)` on the aggregates is not modelled. The means are exact rationals.
- `Summary.SummaryAverage`: the `.1f` rendering of `Average Daily Sales` is not modelled. The cell holds the exact mean as a real.
- Integer width: `Sales` and the sums are unbounded integers. pandas' 64-bit overflow is not modelled.
- `Text.FormatThousands`: the `f` presentation type converts the total to a float before formatting it, so a total whose magnitude exceeds 2^53 comes out rounded to the nearest float. The model formats every integer exactly, and `Text.FormatThousandsRoundTrip` holds for every integer only in the model.
- `Dates.ValidDate`: dates are valid from year 1000 to 9999, so that `%Y` always has four digits. pandas' narrower nanosecond timestamp range (about 1677 to 2262) and other value types in the `Date` column are not modelled.
- `Analysis.Strip`: it strips only the six ASCII white-space characters, not all Unicode white space. The flattened names contain no white space, so this makes no difference.
- Task scheduling: submission runs the tasks in their declared order. The framework orders tasks by their data dependencies, which for this chain is the same order. Job status, persistence and the reading of unwritten nodes afterwards are not modelled.
- `generate_sample_data` is a random fixture and is not modelled. Nor are the framework `Config` calls beyond the task and scenario wiring.
- Not modelled: the GUI callbacks `run_analysis` and `generate_new_data`, the Markdown page, and `Gui.run` start-up. All are user interface and HTTP plumbing.
- The other scripts (`simple_taipy_app.py`, `fixed_demo.py`, `basic_taipy_demo.py`, `minimal_taipy.py`, `streamlit_alternative.py`, `test_taipy_options.py`) only declare widget pages, start servers or probe sockets. They are not part of this model.
