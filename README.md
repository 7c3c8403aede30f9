# Spending dashboard transaction pipeline

The spending dashboard (`src/components/SpendingDashboard.tsx`) turns a
bank-statement CSV file into summary figures. This project models the two
parts of that component that do the computing:

- **The row normalizer** (the `complete` callback of the upload handler).
  It picks the header list and turns every parsed row into a record. Each
  header is routed by a case-insensitive substring test ("date", "amount",
  "description", "category"). Rows without a usable amount and date are
  dropped. Module `RowNormalizer`.
- **`processTransactions`**. One scan over the transactions fills four
  dictionaries and the date range. The eight pieces of dashboard state are
  then derived from them:
  - the total spend and three averages;
  - the top merchant;
  - the category breakdown;
  - the Jan..Dec series;
  - the recurring payments.

  Module `Dashboard` holds the imperative scan. Module `AggregationSpec`
  says what the scan accumulates, as functions of the transactions seen so
  far. Module `Derivations` holds the derived views and their meaning.

Supporting modules:

- `Calendar`: the calendar dates a JavaScript `Date` denotes at day
  granularity. `DayNumber` stands in for `getTime()`.
- `Transactions`: the normalized record and the `Math.abs` sum.
- `JsObjects`: a plain object used as an insertion-ordered dictionary, and
  a `Set` kept as its insertion-ordered elements.
- `JsText`: the string operations the code uses.

Modelling choices:

- Amounts are integers in cents.
- `new Date(value)` and `parseFloat(value)` are function parameters.
  `None` stands for an invalid date and for `NaN`.
- A missing field is `undefined`. As an object key or inside a template
  string it becomes the text "undefined".
- The eight React state setters are modelled as the `DashboardState`
  record that `ProcessTransactions` returns.
- The `forEach` callback is the method `Visit`. `Scan` runs it over the
  transactions in order, starting from the first transaction's date.

Behaviours of the code worth noting:

- There is no bank-format detection. Columns are routed by the substring
  test alone, and the last header routed to a field wins.
- The total is the sum of `Math.abs(amount)` over all transactions, income
  included.
- The category totals and the monthly buckets also count income. Only the
  merchant totals and the recurring candidates are limited to negative
  amounts.
- Monthly buckets are month names. The same month of different years
  shares one bucket.

## Model

| member | source | states |
|---|---|---|
| Dashboard.ProcessTransactions | src/components/SpendingDashboard.tsx:26-96 | The total is the sum of magnitudes. The average per transaction divides it by the count. The monthly and daily averages divide it by an inclusive month span and an inclusive day span, both proved at least 1. The top merchant, category breakdown, Jan..Dec series and recurring list are the views whose meaning the lemmas below state. |
| Dashboard.Scan | src/components/SpendingDashboard.tsx:31-65 | After the loop, the date range and the four dictionaries are exactly the specification values for all the transactions. |
| Dashboard.Visit | src/components/SpendingDashboard.tsx:39-65 | One callback step widens the date range by the transaction's date and adds the transaction to each grouping it counts for. A spending transaction is also filed under its recurring-charge key. Well-formed dictionaries stay well formed. |
| Transactions.SumAbsAppend | src/components/SpendingDashboard.tsx:27 | The total of two runs of transactions is the sum of their totals. |
| Transactions.SumAbsPositive | src/components/SpendingDashboard.tsx:27 | With non-zero amounts, the total is zero only for no transactions. |
| Calendar.DayOrderIsCalendarOrder | src/components/SpendingDashboard.tsx:42-43 | Comparing day numbers, as the code compares `Date` objects, agrees with year-month-day order. |
| Calendar.PrecedesIsEarlier | src/components/SpendingDashboard.tsx:42-43 | A date strictly precedes another in the calendar exactly when its time value is smaller. |
| Calendar.DayNumberInjective | src/components/SpendingDashboard.tsx:68 | Two dates with the same time value are the same date. |
| Calendar.MonthSpanPositive | src/components/SpendingDashboard.tsx:69-72 | For an ordered range, the inclusive month count is at least 1. |
| AggregationSpec.RangeFromMembers | src/components/SpendingDashboard.tsx:42-43 | After widening, each end is the starting end or one of the dates seen. |
| AggregationSpec.WidenCovers | src/components/SpendingDashboard.tsx:42-43 | One widening step never moves an end inward. It puts the new date inside the range. |
| AggregationSpec.RangeFromBounds | src/components/SpendingDashboard.tsx:42-43 | After widening by all the dates, every date lies between the two ends, comparing time values. |
| AggregationSpec.RangeMembers | src/components/SpendingDashboard.tsx:36-43 | The earliest and the latest date are both dates of some transaction. |
| AggregationSpec.RangeBounds | src/components/SpendingDashboard.tsx:36-43 | No transaction is dated before the earliest or after the latest date. |
| AggregationSpec.RangeOrdered | src/components/SpendingDashboard.tsx:68-70 | The earliest date is never after the latest, so both spans are at least 1. |
| AggregationSpec.TotalsKeys | src/components/SpendingDashboard.tsx:46-55 | A grouping's keys are the distinct keys of its contributing transactions, in order of first occurrence. |
| AggregationSpec.TotalsValue | src/components/SpendingDashboard.tsx:46-55 | A key is present exactly when some contributing transaction carries it. Its value is the sum of those transactions' magnitudes. An absent key has no such transaction. |
| AggregationSpec.AccumulateSum | src/components/SpendingDashboard.tsx:46-55 | One transaction raises a grouping's sum of values by its magnitude when it counts for the grouping, and by nothing otherwise. |
| AggregationSpec.CountedSum | src/components/SpendingDashboard.tsx:46-55 | One more transaction raises the spend of a grouping's contributors by its magnitude when it counts for the grouping, and by nothing otherwise. |
| AggregationSpec.TotalsSum | src/components/SpendingDashboard.tsx:46-55 | A grouping's values add up to the spend of the transactions that count for it. |
| AggregationSpec.CountedAll | src/components/SpendingDashboard.tsx:51-55 | Every transaction, income included, counts for the category and month groupings. |
| AggregationSpec.AddCharge | src/components/SpendingDashboard.tsx:58-64 | Income leaves the candidates unchanged. A spending transaction adds its key at the end if new. A new key starts with the charge's magnitude. The charge's month joins the key's month set. Every other key is untouched. |
| AggregationSpec.RecurringKeyInjective | src/components/SpendingDashboard.tsx:59 | Two charges get the same candidate key exactly when their descriptions have the same text and their amounts the same magnitude. |
| AggregationSpec.ChargesOfPair | src/components/SpendingDashboard.tsx:58-64 | The charges filed under a transaction's key are exactly the spending transactions with its description text and its magnitude. |
| AggregationSpec.CandidateKeys | src/components/SpendingDashboard.tsx:58-64 | Candidate keys appear once each, in the order of their first charge. |
| AggregationSpec.CandidateContent | src/components/SpendingDashboard.tsx:58-64 | A key is a candidate exactly when some spending transaction carries it. Its amount is that of the first such charge. Its months are the distinct months of its charges, in first-charged order. |
| Derivations.TopEntry | src/components/SpendingDashboard.tsx:76 | The reduction yields an entry whose value no entry exceeds. Every entry after it has a strictly smaller value. |
| Derivations.TopEntryTieKeepsLater | src/components/SpendingDashboard.tsx:76 | Of two entries with equal values, the reduction keeps the later one. |
| Derivations.MerchantTotalsNonEmpty | src/components/SpendingDashboard.tsx:46-48 | One spending transaction is enough to give the merchant totals an entry. The seedless reduction then has something to reduce. |
| Derivations.TopMerchantMeaning | src/components/SpendingDashboard.tsx:75-77 | The top merchant is a description with some negative amount. It is shown with that merchant's total spend, and no spending merchant has a larger total. |
| Derivations.TopEntryBeatsLaterKeys | src/components/SpendingDashboard.tsx:76 | Every key entered after the reduction's key holds a strictly smaller value. |
| Derivations.TopMerchantTie | src/components/SpendingDashboard.tsx:76 | Every merchant first seen after the top merchant spent strictly less. On equal totals, the merchant whose first spending came last wins. |
| Derivations.Breakdown | src/components/SpendingDashboard.tsx:80 | There is one slice per dictionary key, in insertion order, holding that key's value. |
| Derivations.BreakdownSum | src/components/SpendingDashboard.tsx:80 | The slices add up to the dictionary's values. |
| Derivations.CategoryBreakdownNames | src/components/SpendingDashboard.tsx:51-80 | There is one slice per distinct category, a missing category counting as "undefined", in order of first occurrence. No name repeats. A category has a slice exactly when some transaction carries it. |
| Derivations.CategoryBreakdownValues | src/components/SpendingDashboard.tsx:51-80 | Each slice holds its category's spend, and the slices add up to the total. |
| Derivations.YearlySeries | src/components/SpendingDashboard.tsx:83-84 | The series has twelve entries labelled Jan..Dec in calendar order. |
| Derivations.InMonthIsMembers | src/components/SpendingDashboard.tsx:54-55 | The bucket of a month name holds exactly the transactions dated in that calendar month, in any year. |
| Derivations.MonthSpendSum | src/components/SpendingDashboard.tsx:54-55 | The twelve monthly spends add up to the total spend. |
| Derivations.YearlySpendingMeaning | src/components/SpendingDashboard.tsx:82-84 | Entry i is month i with the spend of that calendar month across all years, 0 when nothing falls in it. The series adds up to the total spend. |
| Derivations.QualifyingKeys | src/components/SpendingDashboard.tsx:89 | A key passes the filter exactly when it is listed and its month set has at least three months. |
| Derivations.QualifyingKeysOrder | src/components/SpendingDashboard.tsx:88-89 | The keys that pass the filter keep the entries' order: of two qualifying keys, the one listed first is entered first. |
| Derivations.RecurringFromKeys | src/components/SpendingDashboard.tsx:88-94 | The recurring list has one summary per key that passes the filter, in entry order. |
| Derivations.ChargedMonthsCount | src/components/SpendingDashboard.tsx:63-89 | The size of a candidate's month set is the number of distinct calendar months it was charged in. |
| Derivations.RecurringIffThreeMonths | src/components/SpendingDashboard.tsx:87-89 | A key is listed as recurring exactly when its charges fall in at least three distinct calendar months, whatever their years. With ChargesOfPair, the charges of a key are those with one description text and one magnitude. |
| Derivations.RecurringDescription | src/components/SpendingDashboard.tsx:59-91 | The shown description is the charge's description cut at its first dash. It is the full description exactly when that has no dash. |
| Derivations.RecurringPaymentsMeaning | src/components/SpendingDashboard.tsx:86-95 | Each row belongs to a qualifying key, in first-charged order. It shows the key cut at its first dash, the first charge's magnitude, and the distinct charged months in first-charged order. |
| JsText.BeforeDash | src/components/SpendingDashboard.tsx:91 | The result is a prefix of the string with no dash. When shorter, it is followed by a dash. |
| JsText.Fixed2 | src/components/SpendingDashboard.tsx:59 | The rendered amount has no dash. It is digits, then a point, then exactly two digits. |
| JsText.DecimalRoundTrip | src/components/SpendingDashboard.tsx:59 | Reading the decimal numeral of a whole number back gives that number. |
| JsText.Fixed2RoundTrip | src/components/SpendingDashboard.tsx:59 | Reading the two-decimal rendering back gives the number of cents, so the rendering loses no cent. |
| JsText.Fixed2Injective | src/components/SpendingDashboard.tsx:59 | Two amounts render alike exactly when they are equal. |
| JsText.LastDashSplit | src/components/SpendingDashboard.tsx:59 | Joining a text and a dash-free text with a dash can be undone at the last dash, whatever dashes the first text holds. |
| JsText.BeforeDashOfJoined | src/components/SpendingDashboard.tsx:59-91 | Splitting "description-amount" at its first dash gives the description cut at its own first dash. That is the whole description exactly when it has no dash. |
| JsText.IncludesAt | src/components/SpendingDashboard.tsx:123-129 | A piece found at some position is included. |
| JsText.MissingCharExcludes | src/components/SpendingDashboard.tsx:123-129 | A string lacking one of the piece's characters does not include it. |
| JsObjects.SetAdd | src/components/SpendingDashboard.tsx:63 | `Set.add` keeps the elements distinct. It adds exactly the new element, and adding an existing one changes nothing. |
| JsObjects.DedupElements | src/components/SpendingDashboard.tsx:63 | A set built by successive adds holds every added element exactly once. |
| JsObjects.DedupOrder | src/components/SpendingDashboard.tsx:93 | The set lists its elements in the order they were first added. |
| JsObjects.DedupKeepsOrder | src/components/SpendingDashboard.tsx:76-80 | Two elements first added in one order keep that order in the set. |
| JsObjects.DistinctCardinality | src/components/SpendingDashboard.tsx:89 | A duplicate-free list has as many elements as the set it holds. |
| JsObjects.DedupCardinality | src/components/SpendingDashboard.tsx:89 | A set's size is the number of distinct elements added to it. |
| JsObjects.Put | src/components/SpendingDashboard.tsx:47-61 | Assigning a key appends a new key and leaves an existing key in place. It stores the value under the key and changes no other key. |
| JsObjects.Entries | src/components/SpendingDashboard.tsx:76-88 | `Object.entries` lists every key with its value, in insertion order. |
| JsObjects.AddToSum | src/components/SpendingDashboard.tsx:47-55 | `obj[k] = (obj[k] \|\| 0) + x` raises the sum of the values by x. |
| RowNormalizer.HeaderChoice | src/components/SpendingDashboard.tsx:104-117 | No rows give no headers. Positional rows get three columns that route to date, description and amount. Named rows use the first row's keys in order, for every row. |
| RowNormalizer.LastRouted | src/components/SpendingDashboard.tsx:121-131 | The result is the last header routed to the field, or none when no header is. |
| RowNormalizer.LastRoutedStep | src/components/SpendingDashboard.tsx:121-131 | Routing one more header either makes it the last header of its field or changes nothing. |
| RowNormalizer.LastValueStep | src/components/SpendingDashboard.tsx:121-131 | One more header replaces its field's value with the value it reads, and changes no other field. |
| RowNormalizer.RecordStep | src/components/SpendingDashboard.tsx:121-131 | One more header overwrites exactly the field it routes to. A date is parsed as a date and an amount as a number. An unmatched header changes nothing. |
| RowNormalizer.BuildRecord | src/components/SpendingDashboard.tsx:120-133 | After the loop, each field holds what the last header routed to it wrote, and an unwritten field is undefined. |
| RowNormalizer.ToTransaction | src/components/SpendingDashboard.tsx:134 | A record passes the filter (the predicate `Kept`) when its amount is a number other than 0 and its date is valid. Such a record becomes a transaction with a non-zero amount. |
| RowNormalizer.NormalizeRows | src/components/SpendingDashboard.tsx:119-134 | There are no more transactions than rows, and no transaction has a zero amount. |
| RowNormalizer.NormalizeRowsOne | src/components/SpendingDashboard.tsx:119-134 | A single row gives its record as a transaction when the record has a non-zero amount and a valid date, and nothing otherwise. |
| RowNormalizer.NormalizeRowsAppend | src/components/SpendingDashboard.tsx:119-134 | Rows are handled one at a time and in order: two runs of rows give the first run's transactions followed by the second run's. |
| RowNormalizer.NormalizeRowsEmpty | src/components/SpendingDashboard.tsx:119-134 | No transaction comes out exactly when no row's record passes the filter. |
| RowNormalizer.Normalize | src/components/SpendingDashboard.tsx:104-136 | The upload hands over no transaction exactly when no row passes the filter under the chosen headers. Otherwise the total spend is positive, since no amount is zero. |
| RowNormalizer.NormalizeRowsMembers | src/components/SpendingDashboard.tsx:119-134 | A transaction comes out exactly when it is the record of some row that has a number other than 0 as amount and a valid date. |
| RowNormalizer.RoutePriority | src/components/SpendingDashboard.tsx:123-131 | A header is ignored exactly when it includes none of "date", "amount", "description", "category", ignoring case. Otherwise it goes to the field of the first of these words it includes, in that order, whatever later words it also includes. |
| RowNormalizer.RouteDate | src/components/SpendingDashboard.tsx:123-124 | A header that lower-cases to "date" routes to the date. |
| RowNormalizer.RouteDescription | src/components/SpendingDashboard.tsx:127-128 | A header that lower-cases to "description" routes to the description, since it includes neither "date" nor "amount". |
| RowNormalizer.RouteAmount | src/components/SpendingDashboard.tsx:125-126 | A header that lower-cases to "amount" routes to the amount. |
| RowNormalizer.HeaderlessRecord | src/components/SpendingDashboard.tsx:108-131 | A positional row takes its date from the first cell, its description from the second and its amount from the third. It has no category. |
| RowNormalizer.RouteTransactionDate | src/components/SpendingDashboard.tsx:123-124 | A header that lower-cases to "transaction date" routes to the date. |
| RowNormalizer.RoutePostDate | src/components/SpendingDashboard.tsx:123-124 | A header that lower-cases to "post date" routes to the date. |
| RowNormalizer.TwoDateRecord | src/components/SpendingDashboard.tsx:121-131 | Under headers routed date, date, description, amount, a named row takes its date from the second date column. |
| RowNormalizer.LaterDateColumnWins | src/components/SpendingDashboard.tsx:121-131 | When "Post Date" comes after "Transaction Date", a row is dated by its posting date: the later date column overwrites the earlier one. |

## Left out

- File reading and CSV tokenisation (Papa.parse with `header: true` and `skipEmptyLines`) are outside the model. The parser's output is a parameter: a sequence of rows.
- The positional-row branch cannot be reached while the parser runs with `header: true`. It is modelled as written anyway.
- `new Date(value)` and `parseFloat(value)` are parameters. Their parsing rules, time zones and the time of day are not modelled. Dates carry year, month and day only.
- Dashboard.ProcessTransactions: the daily average divides by whole days. The code's day count can be fractional when the two dates differ in time of day or across a daylight-saving change.
- Amounts are whole cents. Floating-point rounding in sums and averages is not modelled, and the averages are exact rationals. `toFixed(2)` is modelled only for amounts held in cents.
- `toLocaleString('default', { month: 'short' })` is taken to yield exactly the twelve labels of line 83 ("Jan" to "Dec"). A locale whose short names differ, such as "Sept", is not modelled.
- `Object.entries` lists integer-like keys (such as a description "42") first, in numeric order. The model keeps plain insertion order for every key. Keys inherited from `Object.prototype` are not modelled.
- JsText.Lower: lower-cases ASCII letters only. Unicode case mapping is not modelled.
- Dashboard.ProcessTransactions: requires at least one transaction and at least one negative amount. With no transactions the code fails when it reads the first date. Without a negative amount it fails when it reduces an empty entry list. In both cases the state setters called before the failure have already run, and the model does not describe that partial state.
- The React state hooks, re-rendering, the charts, the upload button, `formatDollarAmount` and the rest of the rendering are not modelled. src/components/CollapsibleSection.tsx is not part of this model.
