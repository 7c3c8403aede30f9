/** `processTransactions` (SpendingDashboard.tsx lines 26-96): one scan over
    the transactions fills four dictionaries and the date range, and the
    dashboard's eight pieces of state are then derived from them. */
module Dashboard {
  import opened Calendar
  import opened JsObjects
  import opened Transactions
  import opened AggregationSpec
  import opened Derivations

  /** What the `forEach` of lines 39-65 leaves behind. */
  datatype Tally = Tally(
    range: DateRange,
    merchantTotals: Dict<nat>,
    categoryTotals: Dict<nat>,
    monthlySpending: Dict<nat>,
    recurringCandidates: Dict<Candidate>)

  /** One more transaction extends a grouping's totals by its magnitude
      when it counts for that grouping. */
  lemma TotalsStep(ts: seq<Transaction>, i: nat, g: Grouping)
    requires i < |ts|
    ensures Totals(ts[..i + 1], g) == Accumulate(Totals(ts[..i], g), g, ts[i])
  {
    assert ts[..i + 1][..i] == ts[..i];
  }

  /** One more transaction extends the candidates by its charge. */
  lemma CandidatesStep(ts: seq<Transaction>, i: nat)
    requires i < |ts|
    ensures Candidates(ts[..i + 1]) == AddCharge(Candidates(ts[..i]), ts[i])
  {
    assert ts[..i + 1][..i] == ts[..i];
  }

  /** One more transaction widens the date range by its date. */
  lemma RangeStep(ts: seq<Transaction>, i: nat)
    requires i < |ts|
    ensures RangeFrom(DateRange(ts[0].date, ts[0].date), ts[..i + 1]) ==
      Widen(RangeFrom(DateRange(ts[0].date, ts[0].date), ts[..i]), ts[i].date)
  {
    assert ts[..i + 1][..i] == ts[..i];
  }

  /** The dictionaries of a tally are well formed. */
  ghost predicate TallyValid(tally: Tally) {
    Valid(tally.merchantTotals) && Valid(tally.categoryTotals) &&
    Valid(tally.monthlySpending) && Valid(tally.recurringCandidates)
  }

  /** The `forEach` callback of lines 39-65 on one transaction: a date
      strictly before (after) the range replaces its earliest (latest) end;
      the magnitude goes to the category and the month, and for a spending
      transaction also to the merchant and to the recurring-charge
      candidate, which records the month of the charge. */
  method Visit(tally: Tally, t: Transaction) returns (next: Tally)
    requires TallyValid(tally)
    ensures TallyValid(next)
    ensures next.range == Widen(tally.range, t.date)
    ensures next.merchantTotals == Accumulate(tally.merchantTotals, ByMerchant, t)
    ensures next.categoryTotals == Accumulate(tally.categoryTotals, ByCategory, t)
    ensures next.monthlySpending == Accumulate(tally.monthlySpending, ByMonth, t)
    ensures next.recurringCandidates == AddCharge(tally.recurringCandidates, t)
  {
    var earliest, latest := tally.range.earliest, tally.range.latest;
    if Precedes(t.date, earliest) {
      earliest := t.date;
    }
    if Precedes(latest, t.date) {
      latest := t.date;
    }
    var spent := Abs(t.amount);
    var merchantTotals := tally.merchantTotals;
    if t.amount < 0 {
      merchantTotals := AddTo(merchantTotals, KeyText(t.description), spent);
    }
    var categoryTotals := AddTo(tally.categoryTotals, KeyText(t.category), spent);
    var monthlySpending := AddTo(tally.monthlySpending, MonthOrder[t.date.month], spent);
    var recurringCandidates := tally.recurringCandidates;
    if t.amount < 0 {
      var key := RecurringKey(t);
      if key !in recurringCandidates.vals {
        recurringCandidates := Put(recurringCandidates, key, Candidate(spent, []));
      }
      var entry := recurringCandidates.vals[key];
      recurringCandidates := Put(recurringCandidates, key,
        entry.(months := SetAdd(entry.months, t.date.month)));
    }
    next := Tally(DateRange(earliest, latest), merchantTotals, categoryTotals,
                  monthlySpending, recurringCandidates);
  }

  /** The scan of lines 31-65: the date range starts at the first
      transaction (lines 35-37) and the callback visits every transaction in
      order. */
  method Scan(ts: seq<Transaction>) returns (tally: Tally)
    requires |ts| > 0
    ensures tally.range == RangeOf(ts)
    ensures tally.merchantTotals == Totals(ts, ByMerchant)
    ensures tally.categoryTotals == Totals(ts, ByCategory)
    ensures tally.monthlySpending == Totals(ts, ByMonth)
    ensures tally.recurringCandidates == Candidates(ts)
  {
    var first := ts[0].date;
    tally := Tally(DateRange(first, first), Empty(), Empty(), Empty(), Empty());
    for i := 0 to |ts|
      invariant TallyValid(tally)
      invariant tally.range == RangeFrom(DateRange(first, first), ts[..i])
      invariant tally.merchantTotals == Totals(ts[..i], ByMerchant)
      invariant tally.categoryTotals == Totals(ts[..i], ByCategory)
      invariant tally.monthlySpending == Totals(ts[..i], ByMonth)
      invariant tally.recurringCandidates == Candidates(ts[..i])
    {
      RangeStep(ts, i);
      TotalsStep(ts, i, ByMerchant);
      TotalsStep(ts, i, ByCategory);
      TotalsStep(ts, i, ByMonth);
      CandidatesStep(ts, i);
      tally := Visit(tally, ts[i]);
    }
    assert ts[..|ts|] == ts;
  }

  /** The dashboard component's state (lines 17-24).  Amounts are in cents;
      the three averages are exact quotients. */
  datatype DashboardState = DashboardState(
    yearlySpending: seq<MonthAmount>,
    categoryBreakdown: seq<Slice>,
    totalSpent: nat,
    avgTransaction: real,
    avgMonthlySpend: real,
    avgDailySpend: real,
    topMerchant: Merchant,
    recurringPayments: seq<RecurringPayment>)

  /** `processTransactions`: the state its eight setters leave behind.  It
      needs at least one transaction (line 35 reads the first one) and at
      least one spending transaction (line 76 reduces the merchant entries
      without a seed).  What each derived view means is stated by the
      lemmas about `TopMerchant`, `CategoryBreakdown`, `YearlySpending` and
      `RecurringPayments`. */
  method ProcessTransactions(ts: seq<Transaction>) returns (state: DashboardState)
    requires |ts| > 0
    requires exists i :: 0 <= i < |ts| && ts[i].amount < 0
    // Lines 27-29: the total is the sum of magnitudes, income included.
    ensures state.totalSpent == SumAbs(ts)
    ensures state.avgTransaction == state.totalSpent as real / |ts| as real
    // Lines 67-72: averages over the inclusive month and day ranges.
    ensures MonthSpan(RangeOf(ts).earliest, RangeOf(ts).latest) >= 1
    ensures state.avgMonthlySpend ==
      state.totalSpent as real / MonthSpan(RangeOf(ts).earliest, RangeOf(ts).latest) as real
    ensures DaySpan(RangeOf(ts).earliest, RangeOf(ts).latest) >= 1
    ensures state.avgDailySpend ==
      state.totalSpent as real / DaySpan(RangeOf(ts).earliest, RangeOf(ts).latest) as real
    // Lines 75-95: the derived views.
    ensures state.topMerchant == TopMerchant(ts)
    ensures state.categoryBreakdown == CategoryBreakdown(ts)
    ensures state.yearlySpending == YearlySpending(ts)
    ensures state.recurringPayments == RecurringPayments(ts)
  {
    var total := SumAbs(ts);
    var tally := Scan(ts);
    RangeOrdered(ts);
    MonthSpanPositive(tally.range.earliest, tally.range.latest);

    MerchantTotalsNonEmpty(ts);
    var top := TopEntry(Entries(tally.merchantTotals));
    var merchant := Merchant(top.0, top.1);
    assert merchant == TopMerchant(ts);
    var slices := Breakdown(tally.categoryTotals.keys, tally.categoryTotals.vals);
    assert slices == CategoryBreakdown(ts);
    var series := YearlySeries(tally.monthlySpending);
    assert series == YearlySpending(ts);
    var recurring := RecurringList(tally.recurringCandidates);
    assert recurring == RecurringPayments(ts);

    state := DashboardState(
      series, slices, total,
      total as real / |ts| as real,
      total as real / MonthSpan(tally.range.earliest, tally.range.latest) as real,
      total as real / DaySpan(tally.range.earliest, tally.range.latest) as real,
      merchant, recurring);
  }
}
