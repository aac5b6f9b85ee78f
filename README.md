# Dealer visit monitor: the data pipeline in Dafny

The dealer visit monitor is a dashboard. It reads the visit-form responses
from a spreadsheet, normalises them into visit records and then builds a view
of them: a date-range and dealer filter, two summary counts, a per-dealer
visit summary, an issue-frequency table and the share of "Yes" answers for
four yes/no questions. This project models that pipeline and proves its
properties. It does not model the page, the charts or the spreadsheet fetch.

The model has eight modules, one per file:

- `Outcomes` (`outcomes.dfy`): the `Option` and `Result` wrappers.
- `Records` (`records.dfy`): the domain values.
  - A sheet cell is text or a number.
  - A submission time is either `NaT` or a day with a time of day. Days are integers, so they are totally ordered.
  - A `Visit` is one normalised response row.
- `Columns` (`columns.dfy`): the five-entry rename table and the rename of a header.
- `Coding` (`coding.dfy`): the two cell codings.
  - The case-sensitive `"Yes"`/`"No"` mapping.
  - The split of the issues text on `", "`. Python's `split` and `join` are modelled with proved round trips.
- `Loader` (`loader.dfy`): `load_data` from the fetched rows to the visits.
  - The steps are: build the frame, rename, parse the timestamps, convert the four flags (a method loop), split the issues, and look up `dealer` and `dealer_code`.
  - Building the frame and renaming cannot fail; each step after the rename can. The first failure aborts the load.
- `Counting` (`counting.dfy`): occurrence counts and the distinct values of a sequence. These underlie `nunique`, `groupby` and `value_counts`.
- `Ordering` (`ordering.dfy`): the descending sort by a count, as a permutation plus order. It also proves that sorting keeps the total of the counts.
- `View` (`view.dfy`): the body of `main` between the load and the charts.
  - The filter and the two metrics.
  - The dealer summary (`count` and `'first'` per dealer, sorted by count).
  - The issue list collected by a loop (a method), and its frequency table.
  - The yes ratios.

The two loops of the source are methods, each proved equal to the function that
specifies it:
- `Loader.LoadData` runs the flag-column loop;
- `View.CollectIssues` runs the `extend` loop.

The rest is expression-level pandas code and is modelled as functions with lemmas.

How each library behaviour is modelled:
- **Empty sheet.** `pd.DataFrame` of no records has no columns, so an empty sheet fails at its first column lookup.
- **Duplicate column.** A column name that occurs twice after the rename makes the later column operations fail. It is reported as `DuplicateColumn`.
- **Timestamp parsing.** `pd.to_datetime` is a parameter `parse`. It may give `NaT`, or fail, which aborts the load at the first failing row.
- **`.str` accessor.** It rejects a non-empty column that holds no text at all. Otherwise, a non-text cell gives a missing issue list.
- **`count` in the groupby.** It counts only stamped visits. A filtered view has no `NaT` row, so every count is the dealer's number of visits.
- **`'first'`.** It takes the first non-missing dealer code of the dealer's rows.
- **`sort_values(ascending=False)`.** Its default sort is not stable. The model sorts by insertion, which is one admissible result. Every contract promises only the order of the counts and a permutation of the grouped rows, never the order of ties.
- **`mean()` of a flag column.** It skips missing cells. It is modelled as the pair (yes answers, answered cells); zero answered cells means pandas' NaN.

## Model

| member | source | states |
|---|---|---|
| Columns.RenameColumn | visitmonitor.py:50-56 | each of the five spaced names becomes its snake_case name; every other name passes through unchanged; no result is a name the table renames |
| Columns.Rename | visitmonitor.py:50-56 | the header keeps its length; each position is renamed by the table or left as it is; no table source name remains |
| Columns.RenameIdempotent | visitmonitor.py:50-56 | renaming twice equals renaming once |
| Columns.RenameIgnoresAbsent | visitmonitor.py:50-56 | a header holding none of the table's source names comes out unchanged: absent names are ignored |
| Coding.YesNo | visitmonitor.py:63 | "Yes" iff true, "No" iff false, every other value (including "yes" and "") iff missing |
| Coding.Split | visitmonitor.py:66 | splitting on ", " never yields an empty list, so "" gives one empty part |
| Coding.JoinSplit | visitmonitor.py:66 | joining the split parts with ", " gives back the original text |
| Coding.SplitPartsDelimiterFree | visitmonitor.py:66 | no part of a split contains ", " |
| Coding.SplitJoin | visitmonitor.py:66 | splitting the join of a non-empty list of parts that contain no ", " gives the parts back |
| Coding.SplitDelimiterFree | visitmonitor.py:66 | text without ", " splits into itself alone |
| Coding.SplitAfterPart | visitmonitor.py:66 | a delimiter-free part followed by ", " splits off as exactly that part |
| Coding.SplitExample | visitmonitor.py:66 | "noise, pricing" splits into ["noise", "pricing"] |
| Coding.SplitIssues | visitmonitor.py:66 | a text cell gives a present, non-empty list that joins back to the text; any other cell gives a missing list |
| Loader.ToFrame | visitmonitor.py:47 | the frame holds the fetched rows; its column names are the header when there are rows, and there are no columns at all when there are none |
| Loader.RenameFrame | visitmonitor.py:50-56 | the column names are renamed by the table; the data is untouched |
| Loader.Find | visitmonitor.py:59-66 | a lookup finds the one column of that name; it is missing exactly when no column has that name; otherwise the error is a duplicate |
| Loader.FindDuplicate | visitmonitor.py:59-66 | a lookup reports a duplicate exactly when two columns carry the name |
| Loader.Column | visitmonitor.py:59-66 | a column read succeeds exactly when the lookup does, fails with the lookup's error, and gives one cell per row |
| Loader.ColumnCells | visitmonitor.py:59-66 | a successful column read gives, for each row, that row's cell at the one position carrying the name |
| Loader.ParseAll | visitmonitor.py:59 | on success, every cell parses to the timestamp at its position; on failure, the reported row is the first cell that does not parse |
| Loader.MapYesNo | visitmonitor.py:62-63 | a flag column maps cell by cell through the Yes/No coding |
| Loader.FlagColumns | visitmonitor.py:62-63 | on success there is one converted column per flag name, each with one value per row |
| Loader.FlagColumnsValues | visitmonitor.py:62-63 | the flag conversion succeeds exactly when every flag column is found once, and then holds each column's Yes/No coding |
| Loader.FlagsSucceed | visitmonitor.py:62-63 | the four flag columns convert exactly when showroom, swift, lending and buy_now are each found once |
| Loader.FlagColumnsPrefixFails | visitmonitor.py:62-63 | once a prefix of the flag loop fails, the whole loop fails with the same error |
| Loader.SplitColumn | visitmonitor.py:66 | the issues split fails exactly when the column is non-empty and holds no text; otherwise each cell is split as by SplitIssues |
| Loader.Stamps | visitmonitor.py:59 | converted submission times, one per row |
| Loader.StampsSucceed | visitmonitor.py:59 | the timestamp conversion succeeds exactly when the column is found once and every cell parses, and it then holds the parsed values |
| Loader.IssueLists | visitmonitor.py:66 | the issue lists, one per row |
| Loader.IssueListsSucceed | visitmonitor.py:66 | the issues split succeeds exactly when the column is found once and, unless there are no rows, holds some text; each list is then that row's SplitIssues |
| Loader.Assemble | visitmonitor.py:59-66 | one visit per row, holding that row's entry of each converted column: time, dealer, the four flags, the issue list; the dealer code is always present |
| Loader.Normalise | visitmonitor.py:59-66 | a successful normalisation gives one visit per row |
| Loader.NormaliseStages | visitmonitor.py:59-66 | normalisation succeeds exactly when the timestamp, flag, issues, dealer and dealer-code steps all succeed |
| Loader.Load | visitmonitor.py:47-66 | a successful load gives one visit per fetched row |
| Loader.LoadData | visitmonitor.py:47-68 | the step-by-step loader, with its loop over the four flag columns, returns exactly Load's result |
| Loader.FinishLoad | visitmonitor.py:66-68 | the steps after the flag loop (issues split, dealer and dealer-code reads) return exactly Normalise's result |
| Loader.LoadEmptySheet | visitmonitor.py:47-59 | a sheet with no data rows fails at the submitted_datetime lookup, whatever its header |
| Loader.LoadRenameInvariant | visitmonitor.py:50-56 | a header already in snake_case loads exactly like its spaced original |
| Loader.NormaliseSucceeds | visitmonitor.py:59-66 | normalisation succeeds exactly when every looked-up column is found once, every submission time parses and the issues column holds text (unless empty) |
| Loader.LoadSucceeds | visitmonitor.py:47-66 | loading succeeds exactly when the renamed frame meets those conditions |
| Loader.NormaliseRow | visitmonitor.py:59-66 | each visit holds its row's parsed time, the Yes/No coding of the four flags, the split issues, the dealer and the dealer code; other columns do not affect it |
| View.Keep | visitmonitor.py:98-101 | the mask rejects every NaT visit, every visit when start is after end, and a visit whose dealer is not selected when a selection is made |
| View.Filter | visitmonitor.py:98-103 | the result is no longer than the input, and every kept visit is stamped, lies in the date range and passes the dealer selection |
| View.FilterMembers | visitmonitor.py:98-103 | a visit is kept exactly when it is one of the visits, its day is at least start and at most end, and the selection is empty or holds its dealer |
| View.FilterIsSubsequence | visitmonitor.py:103 | the filtered visits are an order-preserving subsequence of all visits |
| View.FilterEmptyRange | visitmonitor.py:98-99 | a start after the end keeps nothing |
| View.FilterIdempotent | visitmonitor.py:98-103 | filtering again with the same settings changes nothing |
| View.FilterAppend | visitmonitor.py:98-103 | the mask works row by row: filtering a + b is filtering a followed by filtering b, so every passing row is kept, repeats included, and no other row is |
| View.FilterAllKept | visitmonitor.py:98-103 | visits that all pass the mask are all kept, in order and with their repeats |
| View.FilterAllStamped | visitmonitor.py:98-99 | no NaT visit passes the filter |
| View.TotalVisits | visitmonitor.py:112 | the visit total equals the sum, over the distinct dealers, of each dealer's number of visits |
| View.UniqueDealers | visitmonitor.py:115-118 | the distinct-dealer count is at most the total visits, and zero exactly when there are no visits |
| View.FirstCode | visitmonitor.py:125-128 | the dealer's code is missing exactly when all its rows lack one; otherwise it is the code of its first row that has one |
| View.StampedDealers | visitmonitor.py:125-126 | the dealers counted by `count` on the timestamp: no more than the visits, and a dealer appears exactly when it has a stamped visit |
| View.RowFor | visitmonitor.py:125-128 | a dealer's row carries the dealer; its count is zero exactly when none of its visits is stamped; its code is missing exactly when all its codes are |
| View.GroupRows | visitmonitor.py:125-128 | each dealer's aggregated row is its visit count and first code |
| View.StampedDealersOfStamped | visitmonitor.py:125-126 | when every visit is stamped, the timestamp count counts every visit |
| View.DealerSummary | visitmonitor.py:125-131 | as many rows as unique dealers, counts never increasing down the table, and a permutation of the grouped rows |
| View.DealerSummaryRows | visitmonitor.py:125-131 | every summary row belongs to one of the visits' dealers and is that dealer's aggregate |
| View.DealerSummaryCovers | visitmonitor.py:125-131 | every dealer of the visits has a summary row |
| View.DealerSummaryDistinct | visitmonitor.py:125-131 | no dealer has two summary rows |
| View.DealerSummarySum | visitmonitor.py:125-131 | the visit counts add up to the total visits |
| View.DealerSummaryFacts | visitmonitor.py:125-131 | on a filtered view: one row per distinct dealer (as many rows as unique dealers); each count is the dealer's occurrences, at least 1; each code is its first non-missing code; the counts sum to the total; the counts never increase down the table |
| View.IssueData | visitmonitor.py:148-150 | every tag of every present issue list is collected |
| View.CollectIssues | visitmonitor.py:148-150 | the extend loop collects, in row order, the tags of every visit whose issue list is present |
| View.IssueDataAppend | visitmonitor.py:148-150 | collecting from two stretches of visits joins their collected tags end to end, in row order and with repeats |
| View.IssueDataMembers | visitmonitor.py:148-150 | a tag is collected exactly when some visit's present issue list holds it |
| View.TagRows | visitmonitor.py:152 | each tag's row holds the tag's number of occurrences |
| View.IssueFrequency | visitmonitor.py:152 | one row per distinct tag, counts never increasing down the table, and a permutation of the per-tag rows |
| View.IssueFrequencyRows | visitmonitor.py:152 | every frequency row is a collected tag with its occurrence count, at least 1 |
| View.IssueFrequencyCovers | visitmonitor.py:152 | every collected tag has a frequency row |
| View.IssueFrequencyDistinct | visitmonitor.py:152 | no tag has two frequency rows |
| View.IssueFrequencyFacts | visitmonitor.py:152 | one row per distinct tag; each count is the tag's occurrences, at least 1; the counts sum to the number of collected tags; the counts never increase down the table |
| View.YesRatio | visitmonitor.py:166-169 | yes answers are at most answered cells, which are at most the rows; nothing answered iff every cell is missing; no yes iff no cell is true |
| View.YesRatioCounts | visitmonitor.py:166-169 | the ratio is (number of true cells, number of cells that are not missing) |
| View.YesRatioAppend | visitmonitor.py:166-169 | the ratio of two stacked columns adds their yes answers and their answered cells |
| View.YesRatioComplete | visitmonitor.py:166-169 | a column without missing cells is answered in every row |
| View.YesRatios | visitmonitor.py:163-171 | four ratios, entry i for the i-th of Showroom, Swift, Lending, Buy Now: the number of true cells of that flag over its non-missing cells, each with yes at most answered at most the visits |
| View.EmptyView | visitmonitor.py:110-171 | an empty view has zero visits, zero dealers, no summary or frequency rows, and four unanswered ratios |
| View.ExampleFilter | visitmonitor.py:98-103 | visits on days 0, 1 and 4 viewed over days 0 to 1 keep the first two |
| View.ExampleCounts | visitmonitor.py:115-118 | those two visits (dealers A and B; showroom Yes, No) give two dealers and a showroom ratio of 1 yes in 2 answers |
| View.ExampleSummary | visitmonitor.py:125-131 | their summary is one row per dealer, one visit each with its own code, in either order |
| Counting.Occ | visitmonitor.py:126 | an occurrence count is at most the length, and zero exactly when the value is absent |
| Counting.Distinct | visitmonitor.py:118 | the distinct values have no repeats, hold exactly the values of the input, and are no more than the input |
| Counting.SumOccDistinct | visitmonitor.py:126 | the occurrence counts of the distinct values add up to the length |
| Counting.SumOccCovers | visitmonitor.py:126 | counting against distinct keys that cover every value accounts for every position |
| Ordering.Insert | visitmonitor.py:131 | inserting into a table sorted by count keeps it sorted and adds exactly the new row |
| Ordering.SortDesc | visitmonitor.py:131 | the sort result never increases by count and is a permutation of its input |
| Ordering.SortSameElements | visitmonitor.py:131 | sorting neither adds nor drops a row |
| Ordering.SumBySort | visitmonitor.py:131 | sorting keeps the total of the counts |
| Ordering.SortKeepsNoDups | visitmonitor.py:131 | sorting rows without repeats gives rows without repeats |

## Left out

- The Streamlit page: its config, title, sidebar widgets, metric cards, tables and Plotly charts. These are presentation over libraries that are not modelled.
- The credential choice, `gspread` authorisation, the spreadsheet open and `get_all_records`. These are network and authentication I/O. The model takes the fetched header and rows as its input.
- The ten-minute `st.cache_data` cache. It is a wall-clock framework decorator.
- The string parsing of `pd.to_datetime`. It is the parameter `parse`, which gives a timestamp, `NaT`, or failure, and is applied to each cell on its own. A format that pandas infers from the first non-null cell and then demands of every later cell is not modelled.
- The `* 100` floating-point percentage. The model keeps the exact ratio (yes answers, answered cells).
- The exception handler that prints the error and returns an empty frame. Errors are modelled as `Err` results instead. The crash that follows when `main` reads columns of that empty frame is not modelled.
- A `date_input` that returns a one-element tuple. This is widget behaviour. The model's filter takes both ends of the range.
- The newest-first detail table (visitmonitor.py:185-188). It is a display-only projection of the filtered rows.
- In-place mutation of the data frame. `df` is a local value that is never aliased. In `Loader.LoadData` the renamed frame stays fixed: the converted flag, issue, dealer and dealer-code columns are collected as separate sequences and the visits are assembled from them at the end. The flag loop is still a method loop.
- Non-finite fetched numbers. `Number` holds finite values only. The row fetch turns cell text such as "nan" or "inf" into a float NaN or infinity, which the model does not represent. In the source a NaN dealer code is skipped by `'first'` (so the dealer shows its next code), and a NaN dealer is counted by `len` but dropped by `nunique` and `groupby`, so the summary counts then no longer add up to the total visits. The model proves they do, for finite cells only. Blank cells arrive as empty text, so no other missing cell arises.
- The key order that `groupby` gives before the sort. The sort that follows is unstable, so the final order of equal counts is unspecified either way. The model promises only the order of the counts.

Behaviour worth knowing:
- **Empty issues text.** The text `""` splits into `[""]`, not into an empty list. A non-text issues cell gives a missing list, not an empty one.
- **Tied counts.** Dealer-summary rows with equal counts have no promised order, because the default sort is not stable.
- **Yes percentages.** The mean skips missing answers; they are not counted as "No".
- **Where `dealer` and `dealer_code` are looked up.** In the source these lookups happen in `main`, not in `load_data`. The model makes them the final loading step, so a missing `dealer` or `dealer_code` column, which the source meets as an uncaught KeyError in `main` after loading has returned, is reported as a load error instead.
- **Mixed dealer column.** The dealer picker sorts the distinct dealers (visitmonitor.py:94). When the dealer column mixes text and numbers (a dealer named "2000" arrives as a number), that sort raises a TypeError and the page stops before any view is built. This crash is not modelled; the model builds the view regardless.
- **Empty sheet.** An empty sheet does not load as an empty record set. It fails at its first column lookup.
