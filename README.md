# Traider Victory average-price calculator, modelled in Dafny

This project models the stock average-price calculator on the home page of
Traider Victory (the `Home` component in `src/App.tsx`). It covers three parts:

- **Row store**: an ordered list of `{price, lot}` text pairs. It starts as two
  empty rows. `updateRow` replaces one field of one row, `addRow` appends an
  empty row, and reset goes back to two empty rows.
- **Totals reduction**: every field is parsed with `Number`. The lot total sums
  the lots that are numbers. The capital (`totalValue`) sums
  `price * lot * 100` over the rows where both fields are numbers. The average
  is `totalValue / (totalLot * 100)` when `totalLot > 0`, and 0 otherwise.
- **Active panel**: `activeSection` holds one of `hitung`, `news`, `idx` or
  `analysis`. It starts at `hitung`, and each menu button sets it.

Files:

- `wrappers.dfy`: `Option`, the result of parsing a field (`None` is NaN).
- `rows.dfy`, module `Rows`: the `Row` value, the pure row updates and their laws.
- `totals.dfy`, module `Totals`: the parse-and-fold reduction, the guarded
  average, and the lemmas about them.
- `home.dfy`, module `Home`: class `Home`. Its fields `activeSection` and `rows`
  are the two `useState` variables, and its methods are the event handlers.

Modelling decisions:

- Numbers are exact `real`s.
- `Number(text)` is a parameter `parse: string -> Option<real>`, so the model
  never fixes JavaScript's parsing rules. The general lemmas assume only
  `Number('') == 0`, stated as the precondition `EmptyIsZero(parse)`. The
  worked examples also assume what `Number` returns for their literal fields
  (for example `Number('1200') == 1200`, `Number('x')` is NaN).
- The source first `map`s rows to parsed pairs and then runs two `reduce`
  folds from 0. The model fuses the two steps. `Sum` is a left fold that
  applies `ParseRow` and then `Contribution` to each row, and the last row is
  added last, as in `reduce`. A `Measure` value selects which of the two folds
  is meant.
- An empty price field is the number 0, not NaN. So the row
  `{price: '', lot: '10'}` is a valid row with price 0: it adds 10 lots and
  0 capital. Reading it as an invalid-price row would give the same totals
  (`EmptyPriceExample`, `NaNPriceExample`).
  A real NaN price, such as non-numeric text, still adds its lot but no capital
  (`InvalidPriceRowCountsLotOnly`).

## Model

| member | source | states |
|---|---|---|
| `Rows.InitialRows` | src/App.tsx:83-86 | the initial row list is exactly two rows with both fields empty |
| `Rows.SetField` | src/App.tsx:117 | `{ ...row, [key]: value }` sets field `key` to `value` and keeps the other field |
| `Rows.UpdateRows` | src/App.tsx:114-120 | same length; row `index` gets `value` in field `key` and keeps its other field; every other row is unchanged; an index naming no row changes nothing |
| `Rows.AppendEmptyRow` | src/App.tsx:122-124 | one row longer, the old rows form the prefix unchanged, and the new last row is empty |
| `Rows.UpdateRowsOverwrites` | src/App.tsx:114-120 | two writes to the same field of the same row leave only the second |
| `Rows.UpdateRowsWithCurrentValue` | src/App.tsx:114-120 | writing back the value a field already holds leaves the rows unchanged |
| `Rows.UpdateRowsCommute` | src/App.tsx:114-120 | edits to two different rows can be applied in either order |
| `Totals.ComputeTotals` | src/App.tsx:88-103 | the totals are the two folds; when `totalLot > 0`, `average * totalLot * 100 == totalValue`, and otherwise `average == 0`, so nothing is ever divided by zero |
| `Totals.SumAppend` | src/App.tsx:94-99 | a fold over a concatenation is the sum of the folds over the parts, so every row is counted exactly once |
| `Totals.SumSplit` | src/App.tsx:94-99 | a row at any position adds exactly its own contribution to a fold |
| `Totals.SumPermutation` | src/App.tsx:94-99 | rows with the same multiset have the same fold: row order does not matter |
| `Totals.TotalsIgnoreRowOrder` | src/App.tsx:88-103 | reordering the rows leaves the lot total, the capital and the average unchanged |
| `Totals.InvalidPriceRowCountsLotOnly` | src/App.tsx:94-99 | a row with a numeric lot and a NaN price adds its lot to `totalLot` and nothing to `totalValue`, at any position |
| `Totals.InvalidLotRowCountsNothing` | src/App.tsx:94-99 | a row whose lot is NaN adds nothing to either total, at any position |
| `Totals.TotalLotReadsOnlyLots` | src/App.tsx:94 | two row lists with the same lot fields have the same `totalLot`, whatever their prices |
| `Totals.TotalsOfNoRows` | src/App.tsx:88-103 | no rows gives totals of 0, 0 and 0 |
| `Totals.TotalsOfEmptyRows` | src/App.tsx:88-103 | when `Number('') == 0`, any number of all-empty rows gives totals of 0, 0 and 0 |
| `Totals.TotalsOfInitialRows` | src/App.tsx:83-103 | the initial (and reset) rows give totals of 0, 0 and 0 |
| `Totals.AddRowKeepsTotals` | src/App.tsx:122-124 | appending an empty row does not change the totals |
| `Totals.UpdateRowShiftsTotals` | src/App.tsx:114-120 | editing row `index` moves each total by that row's new contribution minus its old one |
| `Totals.UpdatePriceKeepsTotalLot` | src/App.tsx:114-120 | editing a price never changes `totalLot` |
| `Totals.AllParseTotals` | src/App.tsx:94-99 | when every field parses, `totalLot` is the plain sum of lots and `totalValue` is 100 times the sum of price times lot |
| `Totals.AverageIsLotWeightedMean` | src/App.tsx:95-100 | when every field parses and `totalLot > 0`, `average * Σ lot == Σ price*lot` |
| `Totals.ValueWithinPriceBounds` | src/App.tsx:95-99 | with lots `>= 0` and prices in `[lo, hi]`, the capital lies between `lo*totalLot*100` and `hi*totalLot*100` |
| `Totals.AverageWithinPriceBounds` | src/App.tsx:100 | with lots `>= 0`, prices in `[lo, hi]` and `totalLot > 0`, the average lies in `[lo, hi]` |
| `Totals.ValueAtOnePrice` | src/App.tsx:94-99 | when every price parses to the same number and every lot parses (any sign), the capital is that price times the lot total times 100 |
| `Totals.AverageOfOnePrice` | src/App.tsx:94-100 | if every lot (of any sign) is bought at one price and the lot total is positive, the average is that price |
| `Totals.NegativeLotExample` | src/App.tsx:94-100 | 10 lots and -5 lots, both at 1000, give 5 lots, capital 500,000 and average 1000 |
| `Totals.OneRowExample` | src/App.tsx:88-103 | 10 lots at 1200 give 10 lots, capital 1,200,000 and average 1200 |
| `Totals.TwoRowExample` | src/App.tsx:88-103 | 5 lots at 1000 and 5 lots at 2000 give 10 lots, capital 1,500,000 and average 1500 |
| `Totals.EmptyPriceExample` | src/App.tsx:88-103 | an empty price with 10 lots gives 10 lots, capital 0 and average 0 |
| `Totals.NaNPriceExample` | src/App.tsx:88-103 | a non-numeric price with 10 lots gives 10 lots, capital 0 and average 0 |
| `Home.Home.constructor` | src/App.tsx:80-86 | the page starts on the calculator panel with two empty rows |
| `Home.Home.SetActiveSection` | src/App.tsx:139-144 | a menu button sets the active panel to its own value, whatever was shown, and leaves the rows unchanged |
| `Home.Home.UpdateRow` | src/App.tsx:114-120 | the rows become `UpdateRows` of the old rows (same length, the edited field set, everything else unchanged), and the panel is untouched |
| `Home.Home.AddRow` | src/App.tsx:122-124 | the rows become `AppendEmptyRow` of the old rows (one empty row more at the end, earlier rows kept), and the panel is untouched |
| `Home.Home.Reset` | src/App.tsx:167-172 | the rows become exactly two empty rows, whatever they were, so a second reset changes nothing; the panel is untouched (the second reset button, lines 219-224, does the same) |
| `Home.NavigationKeepsRows` | src/App.tsx:139-144 | after typing a row and switching to another panel and back, the rows are exactly what was typed (plus the second empty row); two resets then give two empty rows and totals of 0, 0 and 0 (resets at lines 167-172) |
| `Home.Home.CurrentTotals` | src/App.tsx:88-103 | the totals shown are those computed from the current rows, and they keep the guarded-average relation |

## Left out

- JavaScript's `Number` parsing (whitespace trimming, hexadecimal, `Infinity`) is not modelled. The parser is a parameter. The general lemmas assume only `Number('') == 0`; the worked examples also assume the values of their literal fields.
- IEEE-754 rounding, overflow to `Infinity` and NaN propagation are not modelled. The arithmetic is exact over `real`.
- Display formatting with `Intl.NumberFormat('id-ID')` and `toLocaleString` is not modelled. It is a locale library and a presentation concern.
- `useMemo` caching and React re-rendering are not modelled. The totals are recomputed from the rows whenever they are asked for (`Home.Home.CurrentTotals`).
- The JSX and styling (`Button`, `Section`, the calculator layout, `About`) and the static link lists are not modelled. They are view templates and constant data with no behaviour.
- Client-side routing in `App` is not modelled. It is library plumbing.
- Under React, `setRows(current => …)` applies its updater to the latest state, and updates are batched. Here each handler is one synchronous method call.
