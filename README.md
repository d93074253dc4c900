# CS2 market history analyzer — a verified model

`analyze.py` reads a Steam Community Market history export, keeps the
Counter-Strike 2 rows, normalises and cleans them, and writes four JSON
documents for a dashboard: a summary (totals, counts, most purchased item,
highest transaction, per-item details), per-category spent/earned bars, a
per-day per-item series and a purchase/sale pie. This project models that
core in Dafny and proves what the script promises about it:

- `strings.dfy` (`Strings`): Python's `str.strip()` with and without an
  argument, `str.lower()` and the substring test `sub in s`.
- `seqs.dfy` (`Seqs`), `groups.dfy` (`Groups`): order-preserving filtering
  and mapping of a table's rows, and group-by sums with their partition laws.
- `type_normalizer.dfy` (`TypeNormalizer`): `normalize_type`.
- `categories.dfy` (`Categories`): `categorize_item`.
- `frame.dfy` (`Frame`): the row and error types.
- `headers.dfy` (`Headers`): header cleaning, the price-column search and the
  required-column check.
- `pipeline.dfy` (`Pipeline`): the row pipeline, written both as the
  script's six table steps (`Stages`, `Prepare`) and as a per-row reference
  (`Survive`), with a proof that the two agree.
- `aggregates.dfy` (`Aggregates`): the summary, item details, bar data,
  line data and pie data, with conservation laws tying them together.
- `analysis.dfy` (`Analysis`): the whole run after loading, from the header
  row to the four documents or the fatal error.

Money is kept in integer cents throughout. The price and date parsers are
parameters (`toNumeric`, `parseDate`), because they belong to pandas, not
to this code. A parsed date is a `Frame.Date` (month and day).

## Model

| member | source | states |
|---|---|---|
| Strings.StripBy | analyze.py:15 | `strip(chars)` result neither starts nor ends with a dropped character; it is the run of the input that starts after the leading dropped characters; everything after it is dropped characters |
| Strings.Strip | analyze.py:38 | `str.strip()`: `StripBy` with Python's whitespace set, whose contract states what is cut |
| Strings.Lower | analyze.py:38 | `str.lower()` on ASCII letters: same length, each character folded; `Strings.StripLowerCommute` relates it to `Strip` |
| Strings.StripLowerCommute | analyze.py:38 | trimming then lower-casing equals lower-casing then trimming |
| Strings.ContainsIff | analyze.py:111-118 | the executable substring test holds exactly when the substring occurs at some index |
| TypeNormalizer.NormalizeType | analyze.py:35-43 | a missing type stays missing; a present one is `purchase` exactly when its trimmed lower-cased form is one of purchase/buy/bought, `sale` exactly when it is one of sale/sell/sold, and otherwise that trimmed lower-cased form; every result is trimmed and lower-case |
| TypeNormalizer.NormalizeTypeIdempotent | analyze.py:35-43 | normalising twice gives the same as normalising once |
| TypeNormalizer.NormalizeTypeIgnoresCase | analyze.py:38 | the letter case of the input does not change the result |
| TypeNormalizer.NormalizeTypeIgnoresPadding | analyze.py:38 | surrounding whitespace does not change the result |
| TypeNormalizer.NormalizeTypeExamples | analyze.py:39-42 | "BUY" and "Purchase" give `purchase`, "Sold" gives `sale`, a missing type stays missing |
| TypeNormalizer.NormalizeTypePaddedSynonym | analyze.py:38-40 | " Bought " is trimmed before the lookup and gives `purchase` |
| TypeNormalizer.NormalizeTypePaddedOther | analyze.py:38-43 | an unknown type "Trade " passes through as "trade" |
| Categories.Categorize | analyze.py:107-120 | a missing name is Unknown; otherwise each category holds exactly when its marker occurs and no earlier marker does (Capsule, Case, Charm, Sticker), and Weapons exactly when none occurs |
| Categories.CapsuleBeatsCase | analyze.py:111-114 | a name mentioning both "Capsule" and "Case" is a Capsule |
| Categories.CategorizeExamples | analyze.py:107-114 | "Sticker Capsule Case" is Capsules, the skin "AK-47 \| Case Hardened" is Cases, a missing name is Unknown |
| Analysis.RedlineIsWeapon | analyze.py:119-120 | a name with no marker, "AK-47 \| Redline", is Weapons |
| Headers.CleanHeader | analyze.py:15 | a cleaned header neither starts nor ends with an apostrophe |
| Headers.CleanHeaderCutsPadding | analyze.py:15 | the original header is the cleaned header with only whitespace, double quotes and apostrophes before and after it |
| Headers.CleanHeaderNotIdempotent | analyze.py:15 | cleaning `'"a"'` gives `"a"`, and cleaning that again gives `a`: cleaning is not idempotent |
| Headers.CleanHeaders | analyze.py:15 | the cleaned header row has one name per original header, each the cleaned original |
| Headers.PriceColumn | analyze.py:18-21 | the result is the first header containing both "Price" and "Cents", and it is absent exactly when no header does |
| Headers.Absent | analyze.py:24-25 | the missing columns are exactly the wanted ones not in the header row, in the order they are wanted |
| Headers.CheckHeaders | analyze.py:15-28 | without a price column the run fails with NoPriceColumn; otherwise, if a required column is missing, it fails with MissingColumns listing exactly those in order; otherwise it yields the cleaned names and the first price column, and every required column is present; both failures carry the cleaned names |
| Pipeline.Stages | analyze.py:31-55 | the six table steps in script order; `Pipeline.StagesMatchSurvivors` proves they keep exactly the rows `Pipeline.Survive` accepts |
| Pipeline.Survivors | analyze.py:31-55 | the per-row reference applied to the whole table; `Pipeline.SurvivorsKeepOrder` states that it only removes rows and keeps their order |
| Pipeline.Survive | analyze.py:31-55 | a raw row survives exactly when its game is "Counter-Strike 2", its type and item are present, and its price and date are present and parse; it keeps the game and item, and carries the parsed price, the parsed date and the normalised type |
| Pipeline.StagesConcat | analyze.py:31-55 | the six table steps act row by row: on a concatenation they give the concatenation of their results |
| Pipeline.StagesMatchSurvivors | analyze.py:31-55 | the six table steps leave only complete rows, and those are exactly the rows the per-row reference keeps, in the same order |
| Pipeline.SurvivorsKeepOrder | analyze.py:31-55 | the k-th surviving row comes from the k-th kept raw row; kept positions increase; a raw row is kept exactly when the reference accepts it |
| Pipeline.SurvivorsAreClean | analyze.py:31-55 | every surviving row belongs to the target game and comes from some raw row |
| Pipeline.Prepare | analyze.py:31-61 | running the steps succeeds exactly when some surviving row is a purchase or a sale; it then yields the surviving rows, and otherwise fails with NoValidTransactions |
| Analysis.SoldRowScenario | analyze.py:31-55 | a "Sold" AK-47 row with price "1050,00" survives as a sale of 1050 cents in the Weapons category; the same row of another game is dropped |
| Aggregates.TotalSpent | analyze.py:66 | the sum of the purchase prices in cents; `Aggregates.BarDataConserves` ties the spent bars to it and `Aggregates.TotalsNonNegative` bounds it |
| Aggregates.TotalEarned | analyze.py:67 | the sum of the sale prices in cents; `Aggregates.BarDataConserves` ties the earned bars to it |
| Aggregates.TotalsNonNegative | analyze.py:66-68 | when no price is negative, neither total is negative and the net flow never exceeds the earnings |
| Aggregates.TradeCounts | analyze.py:64-70 | the purchase count plus the sale count is the number of purchase-or-sale rows, which is at most the number of rows |
| Aggregates.FirstMaxIndex | analyze.py:72 | `idxmax`: the index holds a price no other row exceeds, and every earlier row's price is strictly smaller |
| Aggregates.HighestTransaction | analyze.py:94-98 | for an empty table the defaults "None", 0, ""; otherwise the item, price and type of the first row with the largest price |
| Aggregates.MostPurchased | analyze.py:71 | "None" when nothing was bought; otherwise an item bought at least once and at least as often as any other item |
| Aggregates.ItemDetails | analyze.py:75-84 | one record per distinct item with its row count, price sum and type breakdown; the four lemmas below state its properties |
| Aggregates.ItemDetailsConserve | analyze.py:75-84 | the transaction counts add up to the number of rows and the price sums to the total price |
| Aggregates.BreakdownConserves | analyze.py:75-77 | an item's type breakdown adds up to its transaction count |
| Aggregates.ItemDetailsCover | analyze.py:75-78 | every item of the table has a record |
| Aggregates.ItemDetailsDistinct | analyze.py:75-78 | no two records have the same item |
| Aggregates.ItemDetailsCounts | analyze.py:75-80 | every record counts at least one row, and its breakdown adds up to that count |
| Aggregates.BarData | analyze.py:122-126 | the intended bars: one record per category that occurs, with its purchase and sale sums, an absent type counting 0; `Aggregates.BarDataConserves` states their totals |
| Aggregates.BarDataAsWritten | analyze.py:122-126 | the bar step as written fails exactly when the table has no purchase or no sale, naming each absent type; otherwise it yields the intended bars |
| Aggregates.OnlyPurchasesBreakBars | analyze.py:123-124 | a table of one bought case makes the bar step as written fail for the absent `sale` |
| Aggregates.OnlyPurchasesIntendedBars | analyze.py:122-126 | for that table the intended bars are one Cases record, spent 50, earned 0 |
| Aggregates.BarDataConserves | analyze.py:122-126 | the spent bars add up to the total spent and the earned bars to the total earned |
| Aggregates.LineData | analyze.py:132-141 | one record per (day, item) that occurs, with its price sum and row count; `Aggregates.LineDataConserves` states their totals |
| Aggregates.LineDataConserves | analyze.py:132-141 | the series' counts add up to the number of rows and its values to the total price |
| Aggregates.PieData | analyze.py:147-150 | two slices: "Purchases" holding the purchase count, then "Sales" holding the sale count; their values add up to the number of purchase-or-sale rows |
| Aggregates.BuildSummary | analyze.py:64-100 | the summary's fields are the totals, counts, most purchased item, highest transaction and item details of the rows; net flow is earned minus spent; the counts cover the purchase-or-sale rows; the item details account for every row and cent; no row's price exceeds the highest transaction's |
| Aggregates.BuildReport | analyze.py:64-150 | the documents agree: bars add up to the summary's totals, the series and the item details to the same count and price total, and the pie to the summary's counts |
| Analysis.Project | analyze.py:31-55 | the five columns the pipeline reads (`df["Game Name"]`, `"Acted On"`, `"Type"`, `"Market Name"` and the price column), taken from each data row by the position of the first header of that name; a short row lacks its trailing cells |
| Analysis.Analyze | analyze.py:15-150 | a header failure is reported as it is; otherwise the run succeeds exactly when some surviving row is a purchase or a sale, producing the report of the surviving rows, and fails with NoValidTransactions otherwise; the report's bars are the intended ones, so a history with only purchases or only sales succeeds here where line 124 as written stops (see Findings) |
| Groups.PartitionTotal | analyze.py:75-76 | summing a group-by over distinct keys that cover every row gives the total over all rows |
| Groups.DistinctKeys | analyze.py:75 | the group keys are distinct, each occurs in the table, and every row's key is among them |
| Groups.ArgMax | analyze.py:71 | `idxmax` over counts: the chosen key is one of the keys and no key scores higher |

## Left out

- Loading the CSV (line 10), the missing-file error (lines 11-13) and `os.makedirs` (line 7) are I/O. The model starts from a table of header names and optional cells.
- The JSON and HTML writes (lines 103-104, 129-130, 144-145, 153-154 and the dashboard after line 156), and every `print`, are output only. The dashboard's HTML, CSS and JavaScript are not modelled.
- `pd.read_csv(..., decimal=",")` type inference and `pd.to_numeric(..., errors="coerce")` are the parameter `toNumeric`. A parsed price is taken to be whole cents.
- `pd.to_datetime(..., format="%d %b", errors="coerce")` is the parameter `parseDate`. The `strftime("%Y-%m-%d")` key of line 132 is stood in for by the parsed `Date` itself.
- Money is integer cents. The float division by 100 and `round(..., 2)` (lines 66-67, 81, 88-90, 96, 123, 139) are not modelled.
- `str(x)` on non-string cells (lines 38, 110) is not modelled: cells are strings or missing.
- `Strings.Lower` folds only ASCII letters; Python's `str.lower()` also folds other scripts. This changes only pass-through type values, never whether a synonym is recognised.
- Group-by outputs (item details, bars, series, type breakdowns) are sequences in order of first occurrence. pandas sorts group keys, and a `value_counts` dict is ordered by count. Contents are modelled; order is not.
- Aggregates.MostPurchased: for tied counts it does not fix which item `idxmax` picks. The contract promises only a most-bought item.
- Duplicate column names are not modelled. `Analysis.IndexOf` takes the first column of a name.
- Header cleaning is not idempotent: `'"a"'` cleans to `"a"` and then to `a` (`Headers.CleanHeaderNotIdempotent`).
- A table with no Counter-Strike 2 rows has no error of its own: it reaches line 59 and fails with NoValidTransactions.
- Aggregates.BarData: the report uses the intended bars, not the failing step of line 124 (see Findings).
- Analysis.Analyze: it builds the report with the intended bars, so it does not stop where line 124 as written stops, for a history with only purchases or only sales. The script has written summary.json by then. `Aggregates.BarDataAsWritten` models that stop.

## Findings

| source | as written | input that shows it | evidently intended | confidence | as-written member | corrected member |
|---|---|---|---|---|---|---|
| analyze.py:123-124 | `unstack` creates a column only for types that occur; `melt(value_vars=["purchase", "sale"])` then raises a KeyError when one of them is absent. This happens after summary.json is written. | a history whose only surviving row is a purchase (`Aggregates.CaseBought`: "Fracture Case", 50 cents) | an absent type counts as 0 spent or earned, as `fillna(0)` on line 125 suggests | not executed | Aggregates.BarDataAsWritten, Aggregates.OnlyPurchasesBreakBars | Aggregates.BarData, Aggregates.BarDataConserves, Aggregates.OnlyPurchasesIntendedBars |
