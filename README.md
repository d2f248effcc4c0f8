# Ticket ledger model

This project models the ticket resale tracker's ledger in Dafny. The tracker is a single script, `app.py`. Its ledger is an ordered table with the columns `Match, Stand, Purchase Price, Selling Price, Quantity, Profit`. A stored copy of the table lives in `tickets.csv`. The page loads the table and repairs its schema. It can append a ticket and reset the table, and it shows a total profit, a running profit and per-Match and per-Stand sums.

The model has four modules:

- `Frame` (frame.dfy): cells, rows and tables. A row maps column names to cells, and a cell is null or a value (`Num` for money and quantities as exact reals, `Text` for labels). It also holds the six required column names in their fixed order and the derived column `Cumulative Profit`.
- `Summary` (summary.dfy): the pure aggregates over the rows, with their properties. These are the null-skipping total profit, the cumulative profit, the group keys in order of first appearance, and the per-Match and per-Stand sums.
- `Store` (store.dfy): load with schema repair, positional append, the derived column, and reset. Each is a pure function on tables with its lemmas. The class `Ledger` then does the same steps in place: fields `columns`, `rows` and `stored` (the stored copy, `None` when no file exists), with methods that update them. A successful `Append`, `Reset` and `ResetToSchema` overwrite `stored` with the whole table. `Load` writes it only when no file exists. `AddMissingColumns`, `AddCumulativeProfit` and a failed `Append` leave it alone.
- `Scenarios` (scenarios.dfy): worked ledgers, namely a gain followed by a break-even sale of the same match, and a single loss. They also show that the first ledger reaches the reset and the second never does.

On load the code keeps extra stored columns and puts the added required columns after them. It does not drop extra columns or reorder anything.

Appending lays the six values out by position against the current column list:

- With exactly the six required names in order, the row is correct (`Store.AppendProfitFormula`).
- With six names in another order, the values land under the wrong names (`Store.AppendMisaligned`).
- With any other number of columns, pandas rejects the row. The model returns `Failure(ShapeMismatch(n, 6))` and leaves the ledger unchanged.

## Model

| member | source | states |
|---|---|---|
| `Store.Ledger.Load` | app.py:10-18 | With no stored table: zero rows, exactly the six required columns in order, and the stored copy equals that table. Otherwise: the stored table with its schema repaired, and the stored copy left untouched. |
| `Store.Ledger.AddMissingColumns` | app.py:13-15 | The loop over the required names leaves the in-memory table equal to `Repaired` of the table before it. The stored copy is unchanged and the table stays rectangular. |
| `Store.RepairWith` | app.py:13-15 | For each name in turn, adds it after the existing columns, null in every row, when it is missing. Its properties are stated by `RepairWithSpec` and `RepairWithNoop`. |
| `Store.Repaired` | app.py:12-15 | The load's repair over the six required names. Its properties are stated by `RepairedSchema`, `RepairedNoop` and `RepairedIdempotent`. |
| `Store.RepairWithSpec` | app.py:13-15 | Adding missing names in turn keeps the existing columns as a prefix and keeps their cells and the row count. It adds every listed name that was missing, after the existing columns and null in every row. The table stays rectangular with distinct column names. |
| `Store.RepairedSchema` | app.py:12-15 | Schema repair keeps the existing columns, cells and row count, and does not drop extra columns. Afterwards every required column is present, and each added column is a missing required name that is null in every row. |
| `Store.RepairedNoop` | app.py:12-15 | A table that already has every required column loads unchanged. |
| `Store.RepairedIdempotent` | app.py:12-15 | Repairing a repaired table changes nothing. |
| `Store.Profit` | app.py:31 | The profit of a sale, `(selling - purchase) * quantity`. `AppendProfitFormula` states that it is what the new row records. |
| `Store.TicketValues` | app.py:32 | The six values of a sale in the source's order: Match, Stand, Purchase Price, Selling Price, Quantity, Profit. |
| `Store.RowOf` | app.py:32-33 | The positional row built from a column list and a value list. Its layout is stated by `RowOfSpec`. |
| `Store.AppendTable` | app.py:31-34 | Add Ticket on tables: a shape error unless the table has six columns, else the positional row at the end. Its properties are stated by `AppendIsEndAppend`, `AppendProfitFormula`, `AppendMisaligned`, `AppendAddsProfit` and `AppendThenReload`. |
| `Store.RowOfSpec` | app.py:32-33 | A positional row has a cell for exactly the given columns, and column `i` holds value `i`. |
| `Store.AppendIsEndAppend` | app.py:32-34 | Append succeeds exactly when the table has six columns. Otherwise it fails with a shape error. On success: the columns are kept, and there is exactly one more row. The earlier rows are unchanged and in order, the new row is last and laid out by position, and the table stays rectangular. |
| `Store.AppendProfitFormula` | app.py:26-33 | On the six required columns in order, the new last row holds the ticket's Match, Stand, prices and quantity. Its Profit is `(selling - purchase) * quantity`, whether that is a gain, zero or a loss. |
| `Store.AppendMisaligned` | app.py:32-33 | With Match and Stand swapped in the column list, the stand name is stored under Match and the match name under Stand. |
| `Store.AppendAddsProfit` | app.py:31-51 | Appending adds the ticket's profit to the total profit, and the last cumulative entry then equals the new total. |
| `Store.AppendThenReload` | app.py:10-35 | Loading the copy that append wrote gives back the appended table. |
| `Store.Ledger.Append` | app.py:30-35 | On success: the in-memory table is the appended table, the stored copy equals it, and the outcome is `Pass`. On a shape error: the error is returned and nothing changes. |
| `Store.WithCumulative` | app.py:51 | The table with the cumulative profit set as a column. Its properties are stated by `WithCumulativeSpec` and `WithCumulativeAt`. |
| `Store.WithCumulativeSpec` | app.py:51 | The derived column is added after the others when it is new, and kept in place when it already exists. Every other cell and the row count are kept, and the table stays rectangular. |
| `Store.WithCumulativeAt` | app.py:51 | Row `i` of `Cumulative Profit` holds the total profit of rows `0..i`, or null where row `i` has no Profit. |
| `Store.Ledger.AddCumulativeProfit` | app.py:51 | The in-memory table becomes the table with the derived column, and the stored copy is not written. |
| `Store.Ledger.Reset` | app.py:47-72 | Reachable only with a non-empty table whose per-Match Profit sums are all at least 0. On an empty table the guard at line 47 hides the button, and with a negative per-Match sum the pie at line 64 raises first. Leaves zero rows under the unchanged column list, so the derived column is kept, and the stored copy equals the result. |
| `Store.ResetTable` | app.py:71 | Reset as written: zero rows under the current column list. Its consequence is stated by `ReloadAfterResetRejectsAppend`. |
| `Store.ResetFresh` | app.py:71 | Corrected reset: zero rows under the six required columns. Its consequence is stated by `ReloadAfterFreshResetAccepts`. |
| `Store.ReloadAfterResetRejectsAppend` | app.py:71 | Take a non-empty ledger stored under the six required columns. After the page adds the derived column and resets, the stored table has seven columns and zero rows. The next load keeps all seven, and every append on it fails with `ShapeMismatch(7, 6)`. |
| `Store.ReloadAfterFreshResetAccepts` | app.py:71 | A reset to the six required columns, whatever the page held, reloads unchanged. The next append succeeds with one row carrying the ticket's profit. |
| `Store.Ledger.ResetToSchema` | app.py:47-72 | Corrected reset, reachable under the same condition as `Reset`: zero rows under the six required columns, and the stored copy equals the result. |
| `Summary.MatchProfitsNonNegative` | app.py:64 | Every per-Match Profit sum the pie chart is drawn from is at least 0. |
| `Summary.MatchProfitsNonNegativeSummary` | app.py:55-64 | That condition holds exactly when no group of the per-Match summary has a negative Profit sum. |
| `Summary.TotalProfit` | app.py:43 | The null-skipping sum of the Profit column is 0 for an empty table. |
| `Summary.SumWhere` | app.py:43 | The null-skipping sum of a column over the rows a filter selects: all rows, rows with a key, or one group. Its properties are stated by `SumWhereConcat`, `SumWherePermutation` and `SumWhereSameSelection`. |
| `Summary.TotalProfitSnoc` | app.py:43 | A row added at the end adds its Profit to the total, or nothing when that Profit is null. |
| `Summary.TotalProfitOrderIndependent` | app.py:43 | The total profit is the same for any permutation of the rows. |
| `Summary.SumWherePermutation` | app.py:43-64 | Every null-skipping column sum, whether over all rows, over rows with a key or over one group, is the same for any permutation of the rows. |
| `Summary.CumulativeProfit` | app.py:51 | The cumulative profit has one entry per row. |
| `Summary.RunningProfit` | app.py:51 | The front-to-back running sum of Profit, one entry per row. Its entries are stated by `RunningProfitAt`. |
| `Summary.RunningProfitAt` | app.py:51 | Entry `i` of a running sum that starts at `acc` is `acc` plus the sum of rows `0..i`, or null where row `i`'s Profit is null. |
| `Summary.CumulativeIsPrefixTotal` | app.py:51 | Entry `i` of the cumulative profit is the total profit of the first `i + 1` rows, or null where row `i` has no Profit. |
| `Summary.CumulativeLastIsTotal` | app.py:43-51 | When the last row has a Profit, the last cumulative entry equals the total profit. |
| `Summary.Keys` | app.py:55-59 | Group keys are distinct, and a value is a key exactly when some row's key cell holds it. Null keys are dropped. |
| `Summary.KeysPermutation` | app.py:55-59 | The set of group keys is the same for any permutation of the rows. |
| `Summary.TotalIndicators` | app.py:55-59 | Over distinct keys, a row adds to exactly one group, the one of its own key, and to none when its key is null or not listed. |
| `Summary.GroupSumsPartition` | app.py:55-64 | Take distinct keys that cover every non-null key. Their group sums add up to the column's sum over the rows with a non-null key. |
| `Summary.MatchSummary` | app.py:55-64 | One group per distinct non-null Match, with its Selling Price and Profit sums. Its properties are stated by `MatchSummaryGroups`, `MatchSummaryPartition` and `MatchSummaryOrderIndependent`. |
| `Summary.MatchSummaryGroups` | app.py:55 | The Match groups are the distinct non-null Match values, each exactly once. Each group's Selling Price and Profit are the sums over the rows with exactly that Match. |
| `Summary.MatchSummaryPartition` | app.py:55-64 | The per-Match Profit sums add up to the Profit of the rows with a Match, and the same holds for Selling Price. When every row has a Match, the per-Match Profit sums add up to the total profit. |
| `Summary.MatchSummaryOrderIndependent` | app.py:55 | The per-Match groups are the same, with the same sums, for any permutation of the rows. |
| `Summary.StandSummary` | app.py:59 | One group per distinct non-null Stand, with its Profit sum. Its properties are stated by `StandSummaryGroups`, `StandSummaryPartition` and `StandSummaryOrderIndependent`. |
| `Summary.StandSummaryGroups` | app.py:59 | The Stand groups are the distinct non-null Stand values, each exactly once. Each group's Profit is the sum over the rows with exactly that Stand. |
| `Summary.StandSummaryPartition` | app.py:59 | The per-Stand Profit sums add up to the Profit of the rows with a Stand, and to the total profit when every row has a Stand. |
| `Summary.StandSummaryOrderIndependent` | app.py:59 | The per-Stand groups are the same, with the same sums, for any permutation of the rows. |
| `Scenarios.TwoTicketsRunning` | app.py:30-51 | Append two tickets to an empty ledger. The total is the sum of their profits, and the running profit is the first profit followed by the sum. |
| `Scenarios.GainThenBreakEven` | app.py:30-51 | Append a gain of 100 then a break-even sale. The total is 100 and the running profit is [100, 100]. |
| `Scenarios.SameMatchTwice` | app.py:30-55 | Two tickets of the same match, appended to an empty ledger, form one group holding both Selling Prices and both Profits. |
| `Scenarios.GainThenBreakEvenGroups` | app.py:30-55 | For the same two sales, Match A is the only group, with Selling Price sum 200 and Profit sum 100. |
| `Scenarios.SingleLoss` | app.py:30-43 | Three tickets bought at 200 and sold at 180 record a Profit of -60, which is the total. |
| `Scenarios.SingleLossBlocksReset` | app.py:55-70 | That ledger's one Match group has a negative Profit sum, so the pie refuses it and the reset is never reached. |
| `Scenarios.SameMatchResetRejectsAppend` | app.py:30-72 | Take two tickets of one match with a non-negative combined profit, appended to an empty ledger. The ledger reaches the reset, and after the reset as written the next append fails with `ShapeMismatch(7, 6)`. |
| `Scenarios.ResetReachedThenRejects` | app.py:47-72 | A ledger with rows under the six required columns and no negative Match group reaches the reset. After the reset as written, the next append fails with `ShapeMismatch(7, 6)`. |
| `Scenarios.GainThenBreakEvenResetRejectsAppend` | app.py:30-72 | The gain-then-break-even ledger reaches the reset, and after it the next append fails. |

## Left out

- Page rendering is left out because it is presentation with no contract. This covers the title, sidebar widgets, success and warning messages, the transaction table, and the line, bar and pie charts. Also left out are the pie's percentage labels. The model keeps the sums the charts are drawn from. It keeps one chart failure as a condition: the pie refuses a negative per-Match Profit sum (`MatchProfitsNonNegative`).
- The widget bounds are kept only as preconditions on append (`ValidTicket`): prices at least 0, quantity at least 1.
- CSV reading and writing (`read_csv`, `to_csv`) are foreign library I/O. The stored file is the abstract field `stored`, a full copy of the table. Left out with it: type coercion on reload (empty text becoming null, numeric-looking labels becoming numbers), read or write failures, and the `tickets.csv` path constant.
- Floating point and the two-decimal rounding of the displayed total are left out. Money is exact `real`.
- Script re-execution on every interaction is framework control flow. The page's steps are separate methods (`Load`, `Append`, `AddCumulativeProfit`, `Reset`). The page adds the derived column only when the table has rows. It offers the reset only when, in addition, the charts above it have been drawn.
- Group order differs from pandas. Pandas sorts group keys; the model lists them in order of first appearance. The groups and their sums are the same, and `MatchSummaryOrderIndependent` and `StandSummaryOrderIndependent` state that they do not depend on row order.
- Profit shares, each match's profit divided by the total, are left out. The source computes them only inside the pie chart's rendering, with no zero-total handling of its own.
- Store.Ledger.Reset: the reset is reachable in the model when the table has rows, its Profit column is numeric and no per-Match Profit sum is negative. Other chart failures that would also stop the page are not modelled: a text Selling Price at line 55, and an empty or all-zero pie.
- Summary.TotalProfit: the aggregates (`TotalProfit`, `CumulativeProfit`, `MatchSummary`, `StandSummary`) require the summed columns to be null or numeric. When a stored Profit or Selling Price cell holds text, pandas would raise or concatenate instead of adding, and that case is not modelled.
- Store.Ledger.Load: assumes the stored table is rectangular with distinct column names, as a parsed CSV always is, because pandas renames duplicate header names. Tables with duplicate column names are not modelled.

## Findings

| source | as written | input that shows it | evidently intended | confidence | as-written member | corrected member |
|---|---|---|---|---|---|---|
| app.py:71 | Reset builds the empty table from `df.columns`. By then they include `Cumulative Profit`, added at line 51, so the stored file gets seven columns. | Store a non-empty ledger under the six required columns with no negative per-Match Profit sum, for example the gain-then-break-even one (`Scenarios.GainThenBreakEvenResetRejectsAppend`), and press Reset. On the next run, press Add Ticket with any valid inputs: six values are laid out against seven loaded columns, and pandas rejects the row. | Reset to the six required columns, so that the next Add Ticket succeeds | high; not executed | `Store.ReloadAfterResetRejectsAppend` | `Store.ReloadAfterFreshResetAccepts` |

The `Ledger` class offers both resets. `Ledger.Reset` does what the code does, and `Ledger.ResetToSchema` is the corrected one. The corrected reset to `Table(REQUIRED, [])` is `Store.ResetFresh`.
