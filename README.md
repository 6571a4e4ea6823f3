# Real estate fund pipeline, modelled in Dafny

This project models the three stages of a machine-learning pipeline over
Brazilian real estate investment funds (FIIs) listed on Bovespa, and proves
properties of each stage.

- **Scraper.** The scraper reads each fund's pages on Funds Explorer.
  - It cuts the texts it finds into a `RealStateFund` record: the fund list, the price URL, the label/value tables, the chart series inside the page script, and the list of assets.
  - It writes one CSV row per fund.
- **Normalisation.** A script turns the raw CSV table into a dictionary of lists. It parses:
  - liquidity and net worth;
  - the foundation date, written in Portuguese words;
  - the number of issued quotas.
- **Feature transforms.** The notebook transforms turn each fund's time series into fixed-width blocks of numeric columns.
  - Dividends, equity value and vacancy go into twelve 30-day slots.
  - Prices go into twelve calendar-month means.
  - Asset areas go into a vector over the 27 Brazilian state codes.
  - Smaller transforms clean text, fill missing dates and record categories.

Modules, one per file:

- `wrappers.dfy` (`Wrappers`): `Option`, `Result`, and the Python exceptions the code can raise.
- `text.dfy` (`Text`): the Python string operations the code relies on:
  - `in`, `replace`, `split(sep)`, `split()`, `join`, `lower`, `strip`, `index`;
  - `int()` and `float()` on decimal numerals.
- `json.dfy` (`JsonValues`): JSON values. Lookup on a loaded value can raise.
- `series.dfy` (`Series`): `sorted(..., reverse=True)` on (date, value) tuples; `zip`, mean, min and max.
- `buckets.dfy` (`Buckets`): the two slotting rules. These are the 30-day rule and `_filter_date` with its price-window mean.
- `features.dfy` (`Features`): the `Process*` transforms. Each fills a pre-allocated 2-D table in place, row by row.
- `cleaning.dfy` (`Cleaning`): `CleanHeaders`, `CleanPunct`, `InputDate` and `CategoryManager`.
- `processing.dfy` (`Processing`): the field parsers of `data-processing/main.py` and its row-building loop.
- `fund.dfy` (`FundData`): the `RealStateFund` class, its setters and the CSV row of `convert_to_csv`.
- `scraping.dfy` (`Scraping`): the string-processing parts of the `FundsExplorerScraper` methods.

How effects are modelled:

- **Python exceptions** are `Result.Failure(kind)`. Code that runs inside a `try` maps a failure to the method's fallback value.
- **Page reads** are parameters. Every text a browser call would return is a `Result<string>` or `Result<seq<string>>`, and `Failure` stands for a time-out or a missing element.
- **`json.loads`** is a function parameter. For the normalisation script it is `string -> Result<map<string, string>>`; for the scraper it is `string -> Result<Json>`.
- **Higher moments** are a function parameter `moments`. These are the standard deviation, skewness and kurtosis.
- **Dates.** Dates of the 30-day series are day numbers. Price timestamps are (year, month, rest), ordered lexicographically.

Behaviours of the code worth knowing, each proved by the lemma named:

- **Net worth in "mil".** A net worth written "R$ 1,5 mil" is scaled by 10^6, because "mil" contains "mi" and the code tests `"mi" in net_worth` before its else branch (`NetWorthOfMil`).
- **`_filter_date` on a wrap.** When the anchor month is at most `month_n`, the reference month is `12-(month_n-1)` of the previous year. That wrapped reference is the calendar month `month_n` back only when the anchor month is January (`FilterDateRefIsMonthsBack`). All twelve references are right only for anchors in January or December, the one month that never wraps (`FilterDateRefExactMonths`).
- **Repeated timestamps.** A price window is found with `dates.index(date)`. A repeated timestamp therefore always maps to its first position. The slot can then differ from the mean of that month's prices, as `PriceSlotRepeatedDate` shows for one series.
- **Basic information.** The "Informações Básicas" columns are overwritten with a scalar, not appended to. After the loop they hold the last row's values only (`BasicInfoKeepsLastRow`).

## Model

| member | source | states |
|---|---|---|
| Text.Contains | data-processing/main.py:33 | `t in s` holds exactly when `t` occurs at some position of `s` |
| Text.Substitute | data-processing/main.py:36 | `replace` of one character: it changes nothing when the character is absent, and leaves the character out when the replacement lacks it; every character of the result comes from the text (minus the pattern) or from the replacement |
| Text.SubstituteJoin | data-scraper/core/scraping_utils.py:99 | replacing the separator of a join by `t` is joining the same parts with `t` |
| Text.SubstituteIdempotent | data-processing/main.py:42 | a replacement that removes the pattern changes nothing when applied again |
| Text.Split | data-processing/main.py:46 | `split(sep)` gives at least one part, the parts joined by `sep` give back the text, and no part of a one-character split holds the separator |
| Text.SplitOfJoin | data-processing/main.py:69 | splitting a join of separator-free parts gives back exactly those parts |
| Text.UpTo | data-scraper/core/scraping_utils.py:184 | `split(c)[0]`: a prefix of the text holding no `c`, that is either the whole text or followed by `c` |
| Text.UpToOfJoin | data-scraper/core/scraping_utils.py:184 | the part before the first `c` of `a + c + b` is `a` when `a` holds no `c` |
| Text.Words | notebook/utils.py:113 | `split()` with no argument gives non-empty words without white space, made of the text's characters |
| Text.WordsOfJoin | notebook/utils.py:113 | `split()` of words joined by single spaces gives back the words |
| Text.JoinWordsSingleSpaced | notebook/utils.py:113 | joining space-free words by one space gives a text with no space at either end and no two spaces in a row |
| Text.JoinEnds | notebook/utils.py:113 | `sep.join(parts)` starts with the first part and ends with the last |
| Text.Lower | data-processing/main.py:70 | `lower()` keeps the length, lowers each letter position by position, leaves no upper-case letter, and changes nothing in a text without one |
| Text.IndexOf | notebook/utils.py:450 | `index(x)` is the first position holding `x` |
| Text.Strip | data-processing/main.py:70 | `strip()` leaves no white space at either end, adds no character, and changes nothing in a text with no white space at its ends |
| Text.ParseInt | data-processing/main.py:70 | `int()` of a numeral is the numeral's value, and any text it accepts holds a digit |
| Text.ParseDecimal | data-processing/main.py:36 | `float()` of a numeral is the numeral's value, and any text it accepts holds a digit |
| Text.ParseDecimalPoint | data-processing/main.py:46 | `float()` of "whole.fraction" is whole + fraction / 10^len(fraction) |
| Text.NatText | data-processing/main.py:70 | every natural has a decimal numeral, which reads back as that natural |
| Series.Insert | notebook/utils.py:214 | inserting an element adds exactly that element to the multiset |
| Series.InsertSorted | notebook/utils.py:214 | inserting into a descending sequence keeps it descending |
| Series.SortDescending | notebook/utils.py:214 | `sorted(..., reverse=True)` is descending and a permutation of its input |
| Series.SortedArrangementIsUnique | notebook/utils.py:214 | two descending permutations of the same elements are equal, so the sort result does not depend on the algorithm |
| Series.SortedHeadsAgree | notebook/utils.py:214 | two descending permutations of the same non-empty elements start with the same element |
| Series.PointOrder | notebook/utils.py:214 | tuple order on (date, value), read descending, is total, transitive and antisymmetric |
| Series.Zip | notebook/utils.py:214 | `zip` pairs the i-th date with the i-th value, up to the shorter list |
| Series.SortPoints | notebook/utils.py:214 | the sorted (date, value) pairs are descending and a permutation of the zipped pairs |
| Series.Values | notebook/utils.py:214 | the unzipped values keep length and order |
| Series.PricePointOrder | notebook/utils.py:280 | order on (timestamp, price), read descending, is total, transitive and antisymmetric |
| Series.ZipPrices | notebook/utils.py:280 | `zip` pairs the i-th timestamp with the i-th price, up to the shorter list |
| Series.SortPricePoints | notebook/utils.py:280 | the sorted (timestamp, price) pairs are descending and a permutation of the zipped pairs |
| Series.Prices | notebook/utils.py:280 | the unzipped prices keep length and order |
| Series.Stamps | notebook/utils.py:280 | the unzipped timestamps keep length and order |
| Series.Min | notebook/utils.py:233 | the minimum is an element and no element is smaller |
| Series.Max | notebook/utils.py:234 | the maximum is an element and no element is larger |
| Series.MeanBetweenMinAndMax | notebook/utils.py:231-234 | the mean column lies between the min and the max columns |
| Series.Mean | notebook/utils.py:231 | `np.mean`: the mean times the length is the sum |
| Series.MeanBounds | notebook/utils.py:291 | bounds on every element bound the mean |
| Series.MeanOfConstant | notebook/utils.py:287-291 | the mean of equal values, such as `[0]`, is that value |
| Series.SumBounds | notebook/utils.py:291 | n·lo ≤ sum ≤ n·hi when every element lies in [lo, hi] |
| Buckets.Zeros | notebook/utils.py:209 | the pre-filled column block: n zeros |
| Buckets.WriteSlots | notebook/utils.py:217-224 | the loop writing points into slots leaves twelve slots |
| Buckets.ReachFrom | notebook/utils.py:217-221 | the `break`: every point before the stop has month index ≤ 11, and the point it stops at has an index > 11 |
| Buckets.MonthSlots | notebook/utils.py:217-224 | the 30-day slots of a series: twelve of them |
| Buckets.WriteSlotsLast | notebook/utils.py:224 | after writing the first n points, a slot no point reached is 0, and a reached slot holds the value of the last point written to it |
| Buckets.MonthIndexMonotone | notebook/utils.py:218 | in a newest-first series, `(dates[0]-date).days//30` is non-negative and never decreases along the series |
| Buckets.MonthIndex | notebook/utils.py:218 | `(dates[0]-date).days//30` is Python floor division: 30·m ≤ anchor − day < 30·m + 30 |
| Buckets.MonthSlotsMeaning | notebook/utils.py:217-224 | slot k is 0 when no point has month index k, and otherwise holds the value of the last (oldest) point with index k |
| Buckets.MonthSlotsFollowRule | notebook/utils.py:217-224 | the computed slots satisfy the 30-day rule, an independent definition of what each slot holds |
| Buckets.ThirtyDayRuleDetermines | notebook/utils.py:217-224 | two slot vectors that both follow the 30-day rule agree on their twelve slots |
| Buckets.ThirtyDayRuleOfPrefix | notebook/utils.py:217-224 | the rule reads only the first twelve entries of a row |
| Buckets.FillMonthSlots | notebook/utils.py:217-224 | the in-place loop writes `MonthSlots` into the twelve slot columns of one row and changes no other cell |
| Buckets.FilterDateRef | notebook/utils.py:259-264 | `_filter_date`'s reference month: (year, month − n) when month > n; it raises `ValueError` exactly in year 1 with month ≤ n, and otherwise yields a month in 1..12 |
| Buckets.FilterDateRefIsMonthsBack | notebook/utils.py:259-264 | the reference is the calendar month n months back exactly when month > n or month = 1 |
| Buckets.FilterDateRefExactMonths | notebook/utils.py:259-264 | all twelve references are the calendar months 0..11 back exactly when the anchor month is January or December |
| Buckets.MatchIndexes | notebook/utils.py:284 | `indexes` holds only positions in the reference month, and holds `dates.index(d)` for every date d of that month |
| Buckets.MinOf | notebook/utils.py:289 | `min(indexes)` is an element and a lower bound |
| Buckets.MaxOf | notebook/utils.py:289 | `max(indexes)` is an element and an upper bound |
| Buckets.PriceSlot | notebook/utils.py:283-291 | a price slot fails (`ValueError`) exactly when the reference month does not exist, and otherwise is the mean of the price window |
| Buckets.PriceSlotEmpty | notebook/utils.py:286-287 | a slot whose reference month holds no price is 0 |
| Buckets.MonthIsContiguous | notebook/utils.py:289 | in a newest-first list, the dates of one calendar month are adjacent |
| Buckets.MatchWindow | notebook/utils.py:284-289 | with distinct dates, the positions from `min(indexes)` to `max(indexes)` are exactly those in the reference month |
| Buckets.PricesOfWindow | notebook/utils.py:289 | the slice `prices[min(indexes):max(indexes)+1]` is exactly the prices dated in the reference month |
| Buckets.MonthMeanEmpty | notebook/utils.py:286-291 | a month with no date gives `np.mean([0])`, that is 0 |
| Buckets.MonthMeanWithin | notebook/utils.py:286-291 | whatever the order of the dates, a month with a date gives a mean between the least and the greatest price of the slice between two dates of that month |
| Buckets.MonthMeanIsMean | notebook/utils.py:286-291 | with distinct dates, the window mean is the mean of the prices dated in the month, or 0 when there are none |
| Buckets.PriceSlotIsMonthMean | notebook/utils.py:283-291 | with distinct dates, price slot k is the mean of the prices in its reference month, or 0 |
| Buckets.PriceSlotRepeatedDate | notebook/utils.py:284 | with a repeated timestamp, the slot is the first price (4), not the mean of the month's prices (4 and 2) |
| Features.SortedSeries | notebook/utils.py:214 | the sorted series is descending, a permutation of the zipped pairs, and empty exactly when a list is empty |
| Features.Statistics | notebook/utils.py:231-238 | the mean column is the mean of the series; the min and max columns are elements bounding the series, with the mean between them; the relative deviation is the standard deviation over the mean, or 0 when the mean is 0; the last two are the skewness and the kurtosis |
| Features.TotalVariation | notebook/utils.py:303-306 | the total variation is newest ÷ oldest, and 1 when the oldest is 0 |
| Features.DividendTail | notebook/utils.py:227-240 | the seven summary columns: slot 0 + slot 1 + slot 2, then the six statistics of the values |
| Features.DividendColumns | notebook/utils.py:217-240 | a dividend row has 19 columns: the twelve 30-day slots, their last-quarter sum, then the statistics of the sorted values |
| Features.DividendRow | notebook/utils.py:211-240 | a `None` series gives 19 zeros; an empty series raises `ValueError` (unpacking an empty `zip`); otherwise 19 columns with the last-quarter sum |
| Features.EquityColumns | notebook/utils.py:339-361 | an equity row has 19 columns: the twelve 30-day slots, the statistics of the sorted values, then the total variation of newest over oldest |
| Features.EquityRow | notebook/utils.py:333-361 | a `None` series gives 19 zeros, an empty series raises `ValueError`, otherwise 19 columns |
| Features.Fractions | notebook/utils.py:392 | each vacancy percentage is divided by 100 |
| Features.VacancyColumns | notebook/utils.py:396-414 | a vacancy row has 18 columns: the twelve 30-day slots, then the statistics of the sorted values |
| Features.VacancyRow | notebook/utils.py:388-414 | a `None` series gives 18 zeros; a series lacking `date` or `Vacância Física` raises `KeyError`; an empty series raises `ValueError`; otherwise 18 columns |
| Features.SortedPrices | notebook/utils.py:280 | the sorted price series is descending, a permutation of the zipped pairs, and empty exactly when a list is empty |
| Features.PriceSlots | notebook/utils.py:283-291 | the twelve price slots are the twelve `PriceSlot` values, and they fail exactly when one of them does |
| Features.PriceColumns | notebook/utils.py:283-306 | a price row has 19 columns: the twelve slots, the statistics of the sorted prices, then the total variation of newest over oldest |
| Features.PriceRow | notebook/utils.py:277-306 | a `None` series gives 19 zeros; otherwise the row fails exactly when the series is empty or a slot fails |
| Features.AssetArea | notebook/utils.py:448-451 | an absent code gives 0; a present code gives the area at its first occurrence, or `IndexError` when the area list is too short |
| Features.AreasOf | notebook/utils.py:448-451 | the area vector holds each code's `AssetArea`, and fails exactly when one of them does |
| Features.AssetsRow | notebook/utils.py:443-451 | a `None` row gives 27 zeros; a series without `Location` raises `KeyError`, one whose `Location` has fewer than two lists raises `IndexError`; otherwise the areas of the 27 codes |
| Features.DividendSlotsFollowRule | notebook/utils.py:217-224 | the first twelve dividend columns follow the 30-day rule over the sorted series |
| Features.EquitySlotsFollowRule | notebook/utils.py:339-346 | the first twelve equity columns follow the 30-day rule over the sorted series |
| Features.VacancySlotsFollowRule | notebook/utils.py:396-403 | the first twelve vacancy columns follow the 30-day rule over the sorted fractions |
| Features.DividendRowIs | notebook/utils.py:211-240 | a non-empty dividend series gives the dividend columns of its sorted points |
| Features.EquityRowIs | notebook/utils.py:333-361 | a non-empty equity series gives the equity columns of its sorted points |
| Features.VacancyRowIs | notebook/utils.py:388-414 | a non-empty vacancy series gives the vacancy columns of its sorted fractions |
| Features.PriceRowIs | notebook/utils.py:277-306 | a price series whose slots succeed gives the price columns of its sorted points |
| Features.PriceRowFails | notebook/utils.py:259-264 | a non-empty price row fails exactly when its newest timestamp is in year 1 with a month ≤ 11 |
| Features.EquityTotalVariation | notebook/utils.py:358-361 | the equity total variation is newest ÷ oldest of the sorted series, or 1 |
| Features.PriceTotalVariation | notebook/utils.py:303-306 | the price total variation is newest ÷ oldest of the sorted series, or 1 |
| Features.PriceSlotsAreMonthMeans | notebook/utils.py:283-291 | with distinct timestamps, price column k is the mean of the prices in reference month k, or 0 |
| Features.SortedStampsNewestFirst | notebook/utils.py:280 | the timestamps of the sorted prices are newest first |
| Features.AssetsRowAreas | notebook/utils.py:448-451 | position k holds 0 when code k is absent, and the area at its first occurrence otherwise |
| Features.UnknownRegionIgnored | notebook/utils.py:448-451 | a region outside the 27 codes, with its area, leaves the row unchanged when every region has an area |
| Features.UfsDistinct | notebook/utils.py:439-440 | the 27 codes are distinct, so each owns one column |
| Features.AssetsRowSucceeds | notebook/utils.py:449-451 | when every region has an area, the asset row cannot fail |
| Features.MonthColumnNames | notebook/utils.py:247 | twelve names, prefix + "k" for k in 0..11 |
| Features.StatisticNames | notebook/utils.py:422-423 | the six statistics names of a block, each led by the block's prefix and a space |
| Features.TrendColumnNames | notebook/utils.py:312-315 | a block of 19 names: the twelve month names, the six statistics names, then the name of the total variation |
| Features.DividendColumnNames | notebook/utils.py:246-249 | 19 names, one per dividend column: "Div. M-0" to "Div. M-11", the quarter sum "Div. Acum. Últ. Trimestre", then the six statistics names led by "Div." |
| Features.PriceColumnNames | notebook/utils.py:312-315 | 19 names, one per price column: "Preços Média M-0" to "M-11", the six statistics names led by "Preços", the last "Preços Variação Total" |
| Features.EquityColumnNames | notebook/utils.py:367-370 | 19 names, one per equity column: "Val. Patr. M-0" to "M-11", the six statistics names led by "Val. Patr.", the last spelled "Va. Patr. Variação Total" as in the code |
| Features.VacancyColumnNames | notebook/utils.py:420-423 | 18 names, one per vacancy column: "Vacância M-0" to "M-11", then the six statistics names led by "Vacância" |
| Features.AssetColumnNames | notebook/utils.py:457-458 | 27 names, "Área dos Ativos " + code k |
| Features.WriteDividendColumns | notebook/utils.py:217-240 | writes a row's 19 dividend columns into the table and changes no other row |
| Features.WriteDividendRow | notebook/utils.py:212-240 | writes one fund's dividend row and reports its failure; other rows are unchanged |
| Features.FillDividendRows | notebook/utils.py:211-240 | the loop over funds stops at a failing row, every earlier row having succeeded; when none fails, every cell holds its row's value |
| Features.ProcessDividends | notebook/utils.py:206-251 | the transform fails (`ValueError`) exactly when some row does; otherwise column c, row i holds `DividendRow(column[i])[c]`, with one column per dividend column name |
| Features.WriteEquityColumns | notebook/utils.py:339-361 | writes a row's 19 equity columns and changes no other row |
| Features.WriteEquityRow | notebook/utils.py:334-361 | writes one fund's equity row and reports its failure; other rows are unchanged |
| Features.FillEquityRows | notebook/utils.py:333-361 | the loop over funds stops at a failing row, every earlier row having succeeded; otherwise every cell holds its row's value |
| Features.ProcessEquity | notebook/utils.py:328-372 | the transform fails exactly when some row does; otherwise column c, row i holds `EquityRow(column[i])[c]`, with one column per equity column name |
| Features.WriteVacancyColumns | notebook/utils.py:396-414 | writes a row's 18 vacancy columns and changes no other row |
| Features.WriteVacancyRow | notebook/utils.py:389-414 | writes one fund's vacancy row and returns the exception it raises, if any; other rows are unchanged |
| Features.FillVacancyRows | notebook/utils.py:388-414 | the loop over funds stops at the first failing row with that row's exception, every earlier row having succeeded; otherwise every cell holds its row's value |
| Features.ProcessVacancy | notebook/utils.py:383-425 | the transform fails exactly when some row does, with the exception (`KeyError` or `ValueError`) of the first failing row; otherwise column c, row i holds `VacancyRow(column[i])[c]`, with one column per vacancy column name |
| Features.FillPriceSlots | notebook/utils.py:283-291 | the `month_n` loop writes the twelve price slots of one row, reports failure exactly when a slot fails, and changes no other cell |
| Features.WritePriceColumns | notebook/utils.py:283-306 | writes a row's 19 price columns and changes no other row |
| Features.WritePriceRow | notebook/utils.py:278-306 | writes one fund's price row and reports its failure; other rows are unchanged |
| Features.FillPriceRows | notebook/utils.py:277-306 | the loop over funds stops at a failing row, every earlier row having succeeded; otherwise every cell holds its row's value |
| Features.ProcessPrices | notebook/utils.py:271-317 | the transform fails exactly when some row does; otherwise column c, row i holds `PriceRow(column[i])[c]`, with one column per price column name |
| Features.WriteAreas | notebook/utils.py:448-451 | the loop over the codes writes each code's area into the row and fails exactly when `AreasOf` does |
| Features.WriteAssetsRow | notebook/utils.py:444-451 | writes one fund's area row and returns the exception it raises, if any; other rows are unchanged |
| Features.FillAssetsRows | notebook/utils.py:443-451 | the loop over funds stops at the first failing row with that row's exception, every earlier row having succeeded; otherwise every cell holds its row's value |
| Features.ProcessAssets | notebook/utils.py:436-458 | the transform fails exactly when some row does, with the exception (`KeyError` or `IndexError`) of the first failing row; otherwise row i is `AssetsRow(column[i])`, one entry per area column name |
| Cleaning.CleanHeader | notebook/utils.py:87-92 | a missing or "nan" cell becomes `None`; a text starting with "DESCRIÇÃO" loses exactly those nine characters; any other text is kept |
| Cleaning.CleanHeaderOfHeaded | notebook/utils.py:88-90 | stripping the heading undoes prefixing it |
| Cleaning.Translate | notebook/utils.py:100 | `translate(table_punct)` keeps the length and turns exactly punctuation other than `$` and `%`, white space and the en dash into spaces |
| Cleaning.CleanText | notebook/utils.py:113 | the cleaned text is single-spaced, has no upper-case letter, and holds no character of the table other than the space |
| Cleaning.CleanTextIdempotent | notebook/utils.py:113 | cleaning a clean text changes nothing |
| Cleaning.CleanTextWords | notebook/utils.py:113 | the cleaned text has the words of the lowered, translated text |
| Cleaning.CleanPunctCell | notebook/utils.py:112-115 | a missing or "nan" cell becomes `None`; any other cell becomes a clean text |
| Cleaning.CleanPunctCellTwice | notebook/utils.py:112-115 | a second pass changes nothing, except that a cell cleaned to "nan" then becomes `None` |
| Cleaning.CleanHeaders | notebook/utils.py:82-95 | the in-place pass leaves each cell as `CleanHeader` of its old value |
| Cleaning.CleanPunct | notebook/utils.py:106-118 | the in-place pass leaves each cell as `CleanPunctCell` of its old value |
| Cleaning.CleanPunctRow | notebook/utils.py:111-115 | one row's step writes that row's cleaned cell and nothing else |
| Cleaning.Earliest | notebook/utils.py:171-172 | `sorted(dates)[0]` is a reference date no later than any other |
| Cleaning.EarliestIsUnique | notebook/utils.py:171-172 | any reference date no later than all others is that earliest date |
| Cleaning.FilledDate | notebook/utils.py:166-172 | a cell other than `NaT` is kept; `NaT` becomes `None` without a reference, raises `IndexError` on an empty one, and otherwise becomes the earliest reference date |
| Cleaning.InputDate | notebook/utils.py:161-174 | the in-place pass fills every cell as `FilledDate` says; on the first failing row it stops, with the earlier rows filled and the rest untouched |
| Cleaning.CategoryManager.constructor | notebook/utils.py:11-12 | a new manager holds no category |
| Cleaning.CategoryManager.AddCategory | notebook/utils.py:14-15 | the group now holds the given categories, and every other group is unchanged |
| Processing.MonthsDictValues | data-processing/main.py:6-9 | every key of `months_dict` is a month name, sent to its position in 1..12 |
| Processing.MonthNamesInDict | data-processing/main.py:6-9 | each of the twelve month names is a key, sent to its position |
| Processing.Float | data-processing/main.py:38 | `float()` succeeds exactly on the texts the decimal parser accepts, with its value, and raises `ValueError` otherwise |
| Processing.Liquidity | data-processing/main.py:32-38 | "N/A" gives `None`; otherwise the value is `float` of the text with every dot removed |
| Processing.DottedGroups | data-processing/main.py:35-36 | a liquidity or quota count written in dot-separated digit groups reads as the number the joined groups spell |
| Processing.MagnitudeOf | data-processing/main.py:45-50 | billions exactly when the text contains "bi"; millions exactly when it contains "mi" and not "bi"; thousands otherwise |
| Processing.Scaled | data-processing/main.py:45-50 | scaling by 10^9, 10^6 or 10^3 keeps the sign and zero, and multiplies a positive amount by at least 1000 |
| Processing.DecimalPoint | data-processing/main.py:41-42 | the conditional replacement is the same as replacing every comma by a point |
| Processing.NetWorth | data-processing/main.py:40-50 | after commas become points: "N/A" gives `None`; fewer than two words raise `IndexError`; otherwise the second word's value scaled by the magnitude, or `ValueError` |
| Processing.NetWorthOfAmount | data-processing/main.py:40-50 | "R$ <amount> <magnitude>" reads as the amount, its comma read as a point, scaled by the magnitude the word selects |
| Processing.NetWorthOfMil | data-processing/main.py:47-48 | an amount in "mil" (thousands) is scaled by 10^6 |
| Processing.IssuedQuotas | data-processing/main.py:72-75 | "N/A" gives `None`; otherwise the value is `float` of the text with every dot removed |
| Processing.ConstitutionDate | data-processing/main.py:66-70 | "N/A" gives `None`; fewer than three " de " parts raise `IndexError`; a date read is a valid date whose year, month (through `months_dict` of the lowered name) and day come from parts 2, 1 and 0; `KeyError` means an unknown month |
| Processing.ConstitutionDateOverflow | data-processing/main.py:69-70 | `datetime` raises `OverflowError` exactly when the parts are read, the month is known, and the parsed year or day lies outside the range of a C `int` |
| Processing.ConstitutionDateRoundTrip | data-processing/main.py:66-70 | writing a valid date as "D de month de Y", in any capitalisation, and reading it back gives the date |
| Processing.QuoteSwap | data-processing/main.py:30 | every `'` becomes `"` position by position, and nothing else changes |
| Processing.InitialData | data-processing/main.py:15-20 | `proc_data` starts with exactly the 21 column names, each bound to an empty list |
| Processing.Append | data-processing/main.py:27 | `append` adds the value to the end of the key's list; it raises `KeyError` on a missing key and `AttributeError` on a key overwritten with a scalar |
| Processing.Indicators | data-processing/main.py:31-53 | a missing `Liquidez Diária` raises `KeyError`, then a liquidity that does not parse raises its exception, then a missing `Patrimônio Líquido` raises `KeyError`, then a net worth that does not parse raises its exception; when both parse and both lists exist the row succeeds, appending the two values to their lists and changing nothing else |
| Processing.InfoValues | data-processing/main.py:56-75 | a missing field raises `KeyError` before any is parsed; with all fields present, the row succeeds exactly when the date and the quota count parse, and then holds the parsed date, the parsed quota count and the seven text fields unconverted; `KeyError` can then come only from an unknown month |
| Processing.AssignFields | data-processing/main.py:77-85 | after the assignments each info column holds its value as a scalar, and every other key is untouched |
| Processing.BasicInfo | data-processing/main.py:55-85 | one row of basic information succeeds exactly when its nine values do, and then assigns them to the nine info columns; otherwise it raises their exception |
| Processing.ProcessCell | data-processing/main.py:26-85 | one pass of the inner loop's body is the step on that cell |
| Processing.StepKeepsKeys | data-processing/main.py:26-85 | a step that succeeds keeps every key of `proc_data` |
| Processing.RunCellsKeepsKeys | data-processing/main.py:25-85 | a column processed without an exception keeps every key |
| Processing.RunKeysKeepsKeys | data-processing/main.py:23-85 | the whole table processed without an exception keeps every key it started with |
| Processing.ProcessColumn | data-processing/main.py:25-85 | the inner loop over one column computes the fold of the step over its cells, and stops at the first exception |
| Processing.ProcessFunds | data-processing/main.py:23-85 | the two nested loops compute the left fold of the step over columns and cells, and stop at the first exception |
| Processing.RunCellsFailed | data-processing/main.py:23-30 | once a cell raises, the rest of the column changes nothing |
| Processing.RunKeysFailed | data-processing/main.py:23-30 | once a column raises, the remaining columns change nothing |
| Processing.AppendsVerbatim | data-processing/main.py:26-27 | a column named by a key of `proc_data` is appended verbatim, cell by cell |
| Processing.IndicatorsGrowColumns | data-processing/main.py:52-53 | each indicators row adds one entry to the liquidity list and one to the net-worth list, keeping the earlier entries, and changes no other key |
| Processing.BasicInfoFrame | data-processing/main.py:77-85 | processing the basic information keeps every key outside the nine info columns, and never adds the column's own name |
| Processing.BasicInfoKeepsLastRow | data-processing/main.py:77-85 | after the loop each info column holds, as a scalar, the value of the last row alone |
| JsonValues.Lookup | data-scraper/core/scraping_utils.py:104 | `value[key]` gives the field of an object; it raises `KeyError` for a missing key and `TypeError` when the value is not an object |
| JsonValues.TextsOfTextObject | data-scraper/core/scraping_utils.py:275 | a dictionary of texts stored as JSON is read back unchanged |
| FundData.NewRecord | data-scraper/core/data_utils.py:8-24 | a new fund has the given ticker, name and administrator, and every other field empty: `{}`, `[]` or "" |
| FundData.Label | data-scraper/core/data_utils.py:26-27 | the printed form starts with "ticker: ", ends with ")", and is five characters longer than the ticker, name and administrator together |
| FundData.LabelStartsWithTicker | data-scraper/core/data_utils.py:26-27 | for a ticker without a colon, the printed form "ticker: name (admin)" up to its first colon is the ticker |
| FundData.RealStateFund.constructor | data-scraper/core/data_utils.py:8-24 | the constructed fund's record is the new record of its identity |
| FundData.RealStateFund.AddPrices | data-scraper/core/data_utils.py:29-30 | replaces the prices and no other field |
| FundData.RealStateFund.AddMainIndicators | data-scraper/core/data_utils.py:32-33 | replaces the indicators and no other field |
| FundData.RealStateFund.AddDescription | data-scraper/core/data_utils.py:35-36 | replaces the description and no other field |
| FundData.RealStateFund.AddBasicInfo | data-scraper/core/data_utils.py:38-39 | replaces the basic information and no other field |
| FundData.RealStateFund.AddDividends | data-scraper/core/data_utils.py:41-42 | replaces the dividends and no other field |
| FundData.RealStateFund.AddDividendYield | data-scraper/core/data_utils.py:44-45 | replaces the dividend yield and no other field |
| FundData.RealStateFund.AddEquityValue | data-scraper/core/data_utils.py:47-48 | replaces the equity value and no other field |
| FundData.RealStateFund.AddVacancy | data-scraper/core/data_utils.py:50-51 | replaces the vacancy and no other field |
| FundData.RealStateFund.AddAssets | data-scraper/core/data_utils.py:53-54 | replaces the assets and no other field |
| FundData.CsvRow | data-scraper/core/data_utils.py:70-84 | the row dictionary has exactly the 12 CSV column names as keys, each bound to the matching fund field |
| FundData.CsvColumnsDistinct | data-scraper/core/data_utils.py:61-63 | the 12 column names are distinct |
| FundData.RecordOfRow | data-scraper/core/data_utils.py:61-84 | a record is read back only from a row that holds every one of the 12 CSV columns |
| FundData.RowRoundTrip | data-scraper/core/data_utils.py:61-84 | reading back the row of a fund gives the fund, so the row loses no field |
| FundData.ConvertRows | data-scraper/core/data_utils.py:67-88 | one row per fund, in input order, each the row of that fund's record |
| Scraping.FundIdentity | data-scraper/core/scraping_utils.py:82-83 | an item fails (`IndexError`) exactly when it has fewer than four lines; otherwise the fund of lines 0, 1 and 3 |
| Scraping.FundIdentityOfLines | data-scraper/core/scraping_utils.py:82-83 | an item written line by line gives the fund of its lines 0, 1 and 3 |
| Scraping.GetFundsList | data-scraper/core/scraping_utils.py:79-83 | fresh funds for the first two items at most, each from its item's lines; an `IndexError` exactly when one of those items is too short |
| Scraping.TickerRoot | data-scraper/core/scraping_utils.py:99 | `ticker[0:4]` is the prefix of length min(4, length) |
| Scraping.PriceUrl | data-scraper/core/scraping_utils.py:99 | a template without `#` is the URL itself, and the URL holds no `#` once a `#`-free ticker root replaces them |
| Scraping.PriceUrlOfTemplate | data-scraper/core/scraping_utils.py:99 | a template made of pieces around `#` marks becomes the pieces joined by the ticker root |
| Scraping.FetchedPrices | data-scraper/core/scraping_utils.py:99-104 | the stored prices exist exactly when the page is read, its text loads, and it has a `stockReports` entry |
| Scraping.GetFundsPrices | data-scraper/core/scraping_utils.py:94-107 | on success only the prices change, to the `stockReports` entry; on any exception the fund is left as it was |
| Scraping.PairsFold | data-scraper/core/scraping_utils.py:121-124 | after k steps the dictionary has no empty key, and any failure is `IndexError` (reading `elements[i+1]` past the end) |
| Scraping.Pairs | data-scraper/core/scraping_utils.py:121-124 | the pairing loop leaves out the empty label, and raises only `IndexError` |
| Scraping.PairsFailure | data-scraper/core/scraping_utils.py:121-124 | the pairing loop raises (`IndexError`) exactly when the list has odd length and a non-empty last label |
| Scraping.PairsFoldSucceeds | data-scraper/core/scraping_utils.py:121-124 | no read past the end happens while a value follows every visited label |
| Scraping.PairsFoldKeys | data-scraper/core/scraping_utils.py:121-124 | after k steps, the keys are exactly the non-empty labels at even positions below 2k |
| Scraping.PairsFoldValues | data-scraper/core/scraping_utils.py:121-124 | after k steps, each non-empty label is bound to the text after its last occurrence below 2k |
| Scraping.PairsKeys | data-scraper/core/scraping_utils.py:121-124 | the dictionary's keys are exactly the non-empty labels at even positions, so empty labels are skipped |
| Scraping.PairsValues | data-scraper/core/scraping_utils.py:121-124 | each label is bound to the text after its last occurrence, so a repeated label keeps its last value |
| Scraping.PairLabels | data-scraper/core/scraping_utils.py:162-165 | the index-stepping loop computes the pairing fold, including its failure |
| Scraping.TableOf | data-scraper/core/scraping_utils.py:126-130 | the stored table is the pairing, or `{}` when reading the page or pairing raised |
| Scraping.GetMainIndicators | data-scraper/core/scraping_utils.py:110-130 | only the indicators change, to the pairing or to `{}` on an exception |
| Scraping.GetBasicInfo | data-scraper/core/scraping_utils.py:151-171 | only the basic information changes, to the pairing or to `{}` on an exception |
| Scraping.GetDescription | data-scraper/core/scraping_utils.py:133-148 | only the description changes, to the element's text or to "" on an exception |
| Scraping.ChartPiece | data-scraper/core/scraping_utils.py:184 | `parts[k].split("]")[0]` exists exactly when k is in range, and is a prefix of the part holding no `]` |
| Scraping.ChartPieceOfBracketed | data-scraper/core/scraping_utils.py:184 | a part "values]rest" contributes exactly its values |
| Scraping.SeriesChartText | data-scraper/core/scraping_utils.py:183-184 | the two-series chart text exists (no `IndexError`) exactly when both chosen parts exist |
| Scraping.SeriesChartTextOfJoin | data-scraper/core/scraping_utils.py:183-184 | a script cut at `[` into parts gives "[[" + part a up to `]` + "], [" + part b up to `]` + "]]" |
| Scraping.VacancyChartText | data-scraper/core/scraping_utils.py:240-241 | the vacancy text exists exactly when the script has at least nine `[`-parts |
| Scraping.VacancyChartTextOfJoin | data-scraper/core/scraping_utils.py:240-241 | the vacancy text puts parts 3, 5, 6, 7 and 8, each up to its `]`, under the five fixed keys |
| Scraping.Loaded | data-scraper/core/scraping_utils.py:184-190 | a chart method stores the loaded JSON, or the fallback when reading, cutting or loading raised |
| Scraping.SeriesText | data-scraper/core/scraping_utils.py:182-184 | the chart text fails when the page read fails, and is the cut of the script otherwise |
| Scraping.LoadSeries | data-scraper/core/scraping_utils.py:182-190 | the steps of a chart method compute `Loaded` with the `[[], []]` fallback |
| Scraping.GetDividends | data-scraper/core/scraping_utils.py:174-190 | only the dividends change, to the series of parts 3 and 6, or to `[[], []]` |
| Scraping.GetDividendYield | data-scraper/core/scraping_utils.py:193-209 | only the dividend yield changes, to the series of parts 3 and 6, or to `[[], []]` |
| Scraping.GetEquityValue | data-scraper/core/scraping_utils.py:212-228 | only the equity value changes, to the series of parts 3 and 5, or to `[[], []]` |
| Scraping.VacancyText | data-scraper/core/scraping_utils.py:239-241 | the vacancy text fails when the page read fails, and is the five-key cut otherwise |
| Scraping.GetVacancy | data-scraper/core/scraping_utils.py:231-247 | only the vacancy changes, to the five loaded series, or to `{}` |
| Scraping.AssetDetails | data-scraper/core/scraping_utils.py:271-273 | the details loop keeps every key it started with, and raises only `IndexError` |
| Scraping.AssetsFrom | data-scraper/core/scraping_utils.py:266-273 | the assets loop keeps every asset it started with, adds the name on the first line of every element, and raises only `IndexError` |
| Scraping.AssetDetailOfLine | data-scraper/core/scraping_utils.py:271-273 | a detail line binds the text before its first `:` to the text between the first and the second `:` |
| Scraping.AssetDetailsFailure | data-scraper/core/scraping_utils.py:271-273 | an asset's details fail exactly when one of its lines has no `:`, and the failure is `IndexError` |
| Scraping.RepeatedAssetReplaces | data-scraper/core/scraping_utils.py:266-273 | a later element naming the same asset replaces the earlier one's details |
| Scraping.ParseAssets | data-scraper/core/scraping_utils.py:265-273 | the nested loops updating the dictionary of assets in place compute the fold over the elements, including its failure |
| Scraping.AssetsJson | data-scraper/core/scraping_utils.py:275 | the dictionary of assets as JSON has the same asset names, each bound to its details |
| Scraping.AssetsOf | data-scraper/core/scraping_utils.py:258-280 | the result is `{"Assets": ..., "Location": ...}` of the parsed assets and the loaded series of parts 3 and 5 exactly when every step succeeds, and `{}` otherwise |
| Scraping.GetAssets | data-scraper/core/scraping_utils.py:250-280 | only the assets change, to `AssetsOf` of what the page gave |

## Left out

- Browser automation: creating the browser, navigating, waiting and time-outs are not modelled. Every text the browser returns is a parameter. The fund page URL `/funds/<ticker lowered>` is not built, and the base-URL logic of `__get_page` is not modelled either.
- `FundsExplorerScraper` instance state (the browser and the base URL): the scraper methods are module-level methods that take their page texts as parameters.
- `json.loads`: a function parameter, since JSON parsing belongs to the standard library.
- `float()` and `int()`: modelled only on an optional sign, digits and one decimal point, with white space around. Exponents, `inf`, `nan` and underscores are not modelled.
- `str.lower()`: modelled for ASCII and Latin-1 letters only.
- Text.Lower: does not state full Unicode case mapping, because the texts lowered, the month names and the fund descriptions lowered at notebook/utils.py:113, are Portuguese and lie within Latin-1.
- Floating point: every number is an exact real. IEEE rounding of `/100`, of the means and of the sums is not modelled.
- Variance, square root, skewness and kurtosis from `scipy.stats.describe`: these are a function parameter, `moments`. Only the mean, the minimum, the maximum and the "mean == 0 gives 0" guard are computed.
- Calendar arithmetic: 30-day series use day numbers. Price timestamps use (year, month, rest of the timestamp).
- Features.PriceRow: the `ValueError` case is limited to `d.replace` building a month before year 1. The other `datetime` limits are not modelled.
- pandas and numpy: `iloc` reads, `np.c_` and `pd.DataFrame` concatenation are not modelled. Each transform returns its new columns, as many as the names its `*ColumnNames` function gives in order.
- The pandas-based transforms with no logic of their own (`DropRows`, `DropTickerAndName`, `DropColumns`, `Convert2Float`, `OneHotEncoder`, `CountVectorizer`, `FillColumn`): they only call library code.
- `CategoryManager.__str__`: it only prints.
- Logging.
- The CSV read and the pickle write of the normalisation script.
- The CSV file writing of `convert_to_csv`.
- The `try`/`except` around building a CSV row in `convert_to_csv`: building a row cannot raise in the model, so every fund gets its row.
- `data-scraper/core/constants.py` and the orchestration script, `data-scraper/main.py`: configuration and calls only.
- Dividend, equity and price cells: each is taken to be a pair of two lists. `series[0]` and `series[1]` on any other shape, such as the `{}` fallback of the price scraper, are not modelled.
- Processing.ProcessFunds: the raw table is given as its column names, in order, and one list of cell texts per column. The pandas `read_csv` typing of the cells is not modelled.
