/** What the single pass of `processTransactions` (SpendingDashboard.tsx
    lines 36-65) accumulates, stated as functions of the transactions seen
    so far, together with what each accumulated value means. */
module AggregationSpec {
  import opened Wrappers
  import opened Calendar
  import opened JsObjects
  import opened JsText
  import opened Transactions

  /** The month labels of line 83, which are also the short month names
      `toLocaleString('default', { month: 'short' })` yields in an English
      locale. */
  const MonthOrder: seq<string> :=
    ["Jan", "Feb", "Mar", "Apr", "May", "Jun", "Jul", "Aug", "Sep", "Oct", "Nov", "Dec"]

  lemma MonthOrderDistinct()
    ensures |MonthOrder| == 12 && Distinct(MonthOrder)
  {
  }

  /** The three dictionaries of running totals filled by the scan. */
  datatype Grouping =
    | ByMerchant  // merchantTotals: spending only, keyed by description (lines 46-48)
    | ByCategory  // categoryTotals: every transaction, keyed by category (line 51)
    | ByMonth     // monthlySpending: every transaction, keyed by month name (lines 54-55)

  predicate Counts(g: Grouping, t: Transaction) {
    g != ByMerchant || t.amount < 0
  }

  function GroupKey(g: Grouping, t: Transaction): string {
    match g
    case ByMerchant => KeyText(t.description)
    case ByCategory => KeyText(t.category)
    case ByMonth => MonthOrder[t.date.month]
  }

  /** What one transaction does to a grouping's dictionary: a transaction
      that counts for the grouping adds its magnitude under its key. */
  function Accumulate(d: Dict<nat>, g: Grouping, t: Transaction): (r: Dict<nat>)
    requires Valid(d)
    ensures Valid(r)
  {
    if Counts(g, t) then AddTo(d, GroupKey(g, t), Abs(t.amount)) else d
  }

  /** The dictionary a grouping holds after the scan has seen `ts`. */
  function Totals(ts: seq<Transaction>, g: Grouping): (d: Dict<nat>)
    ensures Valid(d)
  {
    if ts == [] then Empty()
    else
      Accumulate(Totals(ts[..|ts| - 1], g), g, ts[|ts| - 1])
  }

  /** The transactions that contribute to a grouping. */
  function Counted(ts: seq<Transaction>, g: Grouping): seq<Transaction> {
    if ts == [] then []
    else Counted(ts[..|ts| - 1], g) + (if Counts(g, ts[|ts| - 1]) then [ts[|ts| - 1]] else [])
  }

  /** The transactions that contribute to key `k` of a grouping. */
  function Members(ts: seq<Transaction>, g: Grouping, k: string): seq<Transaction> {
    if ts == [] then []
    else
      var t := ts[|ts| - 1];
      Members(ts[..|ts| - 1], g, k) + (if Counts(g, t) && GroupKey(g, t) == k then [t] else [])
  }

  /** The keys of the contributing transactions, one per transaction. */
  function CountedKeys(ts: seq<Transaction>, g: Grouping): seq<string> {
    if ts == [] then []
    else
      var t := ts[|ts| - 1];
      CountedKeys(ts[..|ts| - 1], g) + (if Counts(g, t) then [GroupKey(g, t)] else [])
  }

  predicate HasKey(ts: seq<Transaction>, g: Grouping, k: string) {
    exists i :: 0 <= i < |ts| && Counts(g, ts[i]) && GroupKey(g, ts[i]) == k
  }

  lemma HasKeyStep(ts: seq<Transaction>, g: Grouping, k: string)
    requires ts != []
    ensures HasKey(ts, g, k) <==>
      HasKey(ts[..|ts| - 1], g, k) || (Counts(g, ts[|ts| - 1]) && GroupKey(g, ts[|ts| - 1]) == k)
  {
    var p := ts[..|ts| - 1];
    if HasKey(ts, g, k) {
      var i :| 0 <= i < |ts| && Counts(g, ts[i]) && GroupKey(g, ts[i]) == k;
      if i < |p| { assert p[i] == ts[i]; }
    }
    if HasKey(p, g, k) {
      var i :| 0 <= i < |p| && Counts(g, p[i]) && GroupKey(g, p[i]) == k;
      assert ts[i] == p[i];
    }
  }

  /** The keys of a totals dictionary are the keys of the contributing
      transactions, each once, in the order they first appeared. */
  lemma {:induction false} TotalsKeys(ts: seq<Transaction>, g: Grouping)
    ensures Totals(ts, g).keys == Dedup(CountedKeys(ts, g))
  {
    if ts != [] {
      var p, t := ts[..|ts| - 1], ts[|ts| - 1];
      TotalsKeys(p, g);
      if Counts(g, t) {
        DedupAppend(CountedKeys(p, g), GroupKey(g, t));
      } else {
        assert CountedKeys(ts, g) == CountedKeys(p, g);
      }
    }
  }

  /** A key is present exactly when some contributing transaction carries it,
      and its value is the sum of `|amount|` over those transactions. */
  lemma {:induction false} TotalsValue(ts: seq<Transaction>, g: Grouping, k: string)
    ensures k in Totals(ts, g).vals <==> HasKey(ts, g, k)
    ensures k in Totals(ts, g).vals ==> Totals(ts, g).vals[k] == SumAbs(Members(ts, g, k))
    ensures k !in Totals(ts, g).vals ==> Members(ts, g, k) == []
  {
    if ts != [] {
      var p, t := ts[..|ts| - 1], ts[|ts| - 1];
      TotalsValue(p, g, k);
      HasKeyStep(ts, g, k);
      if Counts(g, t) && GroupKey(g, t) == k {
        assert Members(ts, g, k) == Members(p, g, k) + [t];
        SumAbsAppend(Members(p, g, k), [t]);
      } else {
        assert Members(ts, g, k) == Members(p, g, k);
      }
    }
  }

  /** What one transaction adds to the sum of a grouping's values. */
  function Share(g: Grouping, t: Transaction): nat {
    if Counts(g, t) then Abs(t.amount) else 0
  }

  lemma AccumulateSum(d: Dict<nat>, g: Grouping, t: Transaction)
    requires Valid(d)
    ensures SumValues(Accumulate(d, g, t)) == SumValues(d) + Share(g, t)
  {
    if Counts(g, t) {
      AddToSum(d, GroupKey(g, t), Abs(t.amount));
    }
  }

  lemma CountedSum(ts: seq<Transaction>, g: Grouping)
    requires ts != []
    ensures SumAbs(Counted(ts, g)) == SumAbs(Counted(ts[..|ts| - 1], g)) + Share(g, ts[|ts| - 1])
  {
    var p, t := ts[..|ts| - 1], ts[|ts| - 1];
    if Counts(g, t) {
      SumAbsAppend(Counted(p, g), [t]);
      assert SumAbs([t]) == Abs(t.amount);
    } else {
      assert Counted(ts, g) == Counted(p, g) + [];
      assert Counted(p, g) + [] == Counted(p, g);
    }
  }

  /** The values of a totals dictionary add up to the spend of all the
      transactions that contribute to it. */
  lemma {:induction false} TotalsSum(ts: seq<Transaction>, g: Grouping)
    ensures SumValues(Totals(ts, g)) == SumAbs(Counted(ts, g))
  {
    if ts != [] {
      var p, t := ts[..|ts| - 1], ts[|ts| - 1];
      TotalsSum(p, g);
      AccumulateSum(Totals(p, g), g, t);
      CountedSum(ts, g);
    }
  }

  /** Every transaction contributes to the category and month groupings. */
  lemma {:induction false} CountedAll(ts: seq<Transaction>, g: Grouping)
    requires g != ByMerchant
    ensures Counted(ts, g) == ts
  {
    if ts != [] {
      CountedAll(ts[..|ts| - 1], g);
      assert ts == ts[..|ts| - 1] + [ts[|ts| - 1]];
    }
  }

  /** The running date range of lines 35-37 and 41-43: the earliest and the
      latest date seen so far. */
  datatype DateRange = DateRange(earliest: CalendarDate, latest: CalendarDate)

  /** One more date moves an end of the range only when it lies strictly
      outside it (lines 42-43). */
  function Widen(r: DateRange, d: CalendarDate): DateRange {
    DateRange(if Precedes(d, r.earliest) then d else r.earliest,
              if Precedes(r.latest, d) then d else r.latest)
  }

  /** The range after widening `r` by each date of `ts` in turn. */
  function RangeFrom(r: DateRange, ts: seq<Transaction>): DateRange {
    if ts == [] then r else Widen(RangeFrom(r, ts[..|ts| - 1]), ts[|ts| - 1].date)
  }

  /** The range of lines 35-43: it starts at the first date and every date,
      the first one included, widens it. */
  function RangeOf(ts: seq<Transaction>): DateRange
    requires ts != []
  {
    RangeFrom(DateRange(ts[0].date, ts[0].date), ts)
  }

  /** Each end of a widened range is the starting end or a date of `ts`. */
  lemma {:induction false} RangeFromMembers(r: DateRange, ts: seq<Transaction>)
    ensures RangeFrom(r, ts).earliest == r.earliest ||
      exists i :: 0 <= i < |ts| && ts[i].date == RangeFrom(r, ts).earliest
    ensures RangeFrom(r, ts).latest == r.latest ||
      exists i :: 0 <= i < |ts| && ts[i].date == RangeFrom(r, ts).latest
  {
    if ts != [] {
      var p := ts[..|ts| - 1];
      var n := |ts| - 1;
      RangeFromMembers(r, p);
      var q := RangeFrom(r, p);
      if Precedes(ts[n].date, q.earliest) {
        assert ts[n].date == RangeFrom(r, ts).earliest;
      } else if q.earliest != r.earliest {
        var e :| 0 <= e < |p| && p[e].date == q.earliest;
        assert ts[e] == p[e];
      }
      if Precedes(q.latest, ts[n].date) {
        assert ts[n].date == RangeFrom(r, ts).latest;
      } else if q.latest != r.latest {
        var l :| 0 <= l < |p| && p[l].date == q.latest;
        assert ts[l] == p[l];
      }
    }
  }

  /** Widening by a date keeps the old range and the date inside the new
      one, comparing dates as the source compares `Date` objects (by time
      value). */
  lemma WidenCovers(r: DateRange, d: CalendarDate)
    ensures DayNumber(Widen(r, d).earliest) <= DayNumber(r.earliest)
    ensures DayNumber(Widen(r, d).earliest) <= DayNumber(d)
    ensures DayNumber(r.latest) <= DayNumber(Widen(r, d).latest)
    ensures DayNumber(d) <= DayNumber(Widen(r, d).latest)
  {
    PrecedesIsEarlier(d, r.earliest);
    PrecedesIsEarlier(r.latest, d);
  }

  /** Widening never moves an end inwards, and leaves every date of `ts`
      inside the range. */
  lemma {:induction false} RangeFromBounds(r: DateRange, ts: seq<Transaction>)
    ensures DayNumber(RangeFrom(r, ts).earliest) <= DayNumber(r.earliest)
    ensures DayNumber(r.latest) <= DayNumber(RangeFrom(r, ts).latest)
    ensures forall i :: 0 <= i < |ts| ==>
      DayNumber(RangeFrom(r, ts).earliest) <= DayNumber(ts[i].date) <= DayNumber(RangeFrom(r, ts).latest)
  {
    if ts != [] {
      var p := ts[..|ts| - 1];
      var n := |ts| - 1;
      RangeFromBounds(r, p);
      var q := RangeFrom(r, p);
      var w := RangeFrom(r, ts);
      assert w == Widen(q, ts[n].date);
      WidenCovers(q, ts[n].date);
      forall i | 0 <= i < |ts|
        ensures DayNumber(w.earliest) <= DayNumber(ts[i].date) <= DayNumber(w.latest)
      {
        if i < n {
          assert ts[i] == p[i];
        }
      }
    }
  }

  /** Both ends of the range are dates of some transaction. */
  lemma RangeMembers(ts: seq<Transaction>)
    requires ts != []
    ensures exists i :: 0 <= i < |ts| && ts[i].date == RangeOf(ts).earliest
    ensures exists i :: 0 <= i < |ts| && ts[i].date == RangeOf(ts).latest
  {
    RangeFromMembers(DateRange(ts[0].date, ts[0].date), ts);
  }

  /** No transaction is dated before the earliest or after the latest date. */
  lemma RangeBounds(ts: seq<Transaction>)
    requires ts != []
    ensures forall i :: 0 <= i < |ts| ==>
      DayNumber(RangeOf(ts).earliest) <= DayNumber(ts[i].date) <= DayNumber(RangeOf(ts).latest)
  {
    RangeFromBounds(DateRange(ts[0].date, ts[0].date), ts);
  }

  /** The range is never reversed. */
  lemma RangeOrdered(ts: seq<Transaction>)
    requires ts != []
    ensures DayNumber(RangeOf(ts).earliest) <= DayNumber(RangeOf(ts).latest)
  {
    RangeBounds(ts);
    assert DayNumber(RangeOf(ts).earliest) <= DayNumber(ts[0].date);
  }

  /** A recurring-charge candidate (line 61): the amount of its first charge
      and the months it was charged in, as a `Set` in insertion order. */
  datatype Candidate = Candidate(amount: nat, months: seq<int>)

  /** The candidate key of line 59: description, a dash, and the amount with
      two decimals. */
  function RecurringKey(t: Transaction): string {
    KeyText(t.description) + "-" + Fixed2(Abs(t.amount))
  }

  /** The key tells the charges apart exactly by description text and
      magnitude: the amount has no dash, so the key splits back at its last
      dash, and the two-decimal rendering loses no cent. */
  lemma RecurringKeyInjective(t: Transaction, u: Transaction)
    ensures RecurringKey(t) == RecurringKey(u) <==>
      KeyText(t.description) == KeyText(u.description) && Abs(t.amount) == Abs(u.amount)
  {
    LastDashSplit(KeyText(t.description), Fixed2(Abs(t.amount)));
    LastDashSplit(KeyText(u.description), Fixed2(Abs(u.amount)));
    Fixed2Injective(Abs(t.amount), Abs(u.amount));
  }

  /** One step of lines 58-64: only a spending transaction touches the
      candidates; a new key starts with its own amount and no months, then
      the month of the charge is added to the key's set. */
  function AddCharge(d: Dict<Candidate>, t: Transaction): (r: Dict<Candidate>)
    requires Valid(d)
    ensures Valid(r)
    ensures t.amount >= 0 ==> r == d
    ensures t.amount < 0 ==> r.keys == SetAdd(d.keys, RecurringKey(t))
    ensures t.amount < 0 ==>
      RecurringKey(t) in r.vals &&
      r.vals[RecurringKey(t)] ==
        if RecurringKey(t) in d.vals
        then d.vals[RecurringKey(t)].(months := SetAdd(d.vals[RecurringKey(t)].months, t.date.month))
        else Candidate(Abs(t.amount), [t.date.month])
    ensures forall k :: k != RecurringKey(t) ==>
      (k in r.vals <==> k in d.vals) && (k in d.vals ==> r.vals[k] == d.vals[k])
  {
    if t.amount >= 0 then d
    else
      var k := RecurringKey(t);
      var base := if k in d.vals then d else Put(d, k, Candidate(Abs(t.amount), []));
      var c := base.vals[k];
      Put(base, k, c.(months := SetAdd(c.months, t.date.month)))
  }

  /** The `recurringCandidates` dictionary after the scan has seen `ts`. */
  function Candidates(ts: seq<Transaction>): (d: Dict<Candidate>)
    ensures Valid(d)
  {
    if ts == [] then Empty() else AddCharge(Candidates(ts[..|ts| - 1]), ts[|ts| - 1])
  }

  /** The spending transactions filed under candidate key `k`. */
  function Charges(ts: seq<Transaction>, k: string): seq<Transaction> {
    if ts == [] then []
    else
      var t := ts[|ts| - 1];
      Charges(ts[..|ts| - 1], k) + (if t.amount < 0 && RecurringKey(t) == k then [t] else [])
  }

  /** The keys of the spending transactions, one per transaction. */
  function ChargeKeys(ts: seq<Transaction>): seq<string> {
    if ts == [] then []
    else
      var t := ts[|ts| - 1];
      ChargeKeys(ts[..|ts| - 1]) + (if t.amount < 0 then [RecurringKey(t)] else [])
  }

  /** The charges filed under the key of `t` are the spending transactions
      with the same description text and the same magnitude as `t`. */
  lemma {:induction false} ChargesOfPair(ts: seq<Transaction>, t: Transaction, u: Transaction)
    ensures u in Charges(ts, RecurringKey(t)) <==>
      u in ts && u.amount < 0 &&
      KeyText(u.description) == KeyText(t.description) && Abs(u.amount) == Abs(t.amount)
  {
    if ts != [] {
      var p := ts[..|ts| - 1];
      ChargesOfPair(p, t, u);
      RecurringKeyInjective(u, t);
      assert ts == p + [ts[|ts| - 1]];
    }
  }

  function MonthsOf(ts: seq<Transaction>): (ms: seq<int>)
    ensures |ms| == |ts| && forall i :: 0 <= i < |ts| ==> ms[i] == ts[i].date.month
  {
    seq(|ts|, i requires 0 <= i < |ts| => ts[i].date.month)
  }

  lemma MonthsOfAppend(ts: seq<Transaction>, t: Transaction)
    ensures MonthsOf(ts + [t]) == MonthsOf(ts) + [t.date.month]
  {
  }

  /** Candidate keys appear once each, in the order of their first charge. */
  lemma {:induction false} CandidateKeys(ts: seq<Transaction>)
    ensures Candidates(ts).keys == Dedup(ChargeKeys(ts))
  {
    if ts != [] {
      var p, t := ts[..|ts| - 1], ts[|ts| - 1];
      CandidateKeys(p);
      if t.amount < 0 {
        DedupAppend(ChargeKeys(p), RecurringKey(t));
      } else {
        assert ChargeKeys(ts) == ChargeKeys(p);
      }
    }
  }

  /** A key is a candidate exactly when some spending transaction carries it;
      its months are the distinct months of its charges in the order they
      were first charged, and its amount is that of its first charge.
      Income never creates or changes a candidate. */
  lemma {:induction false} CandidateContent(ts: seq<Transaction>, k: string)
    ensures k in Candidates(ts).vals <==> Charges(ts, k) != []
    ensures k in Candidates(ts).vals ==>
      Candidates(ts).vals[k].months == Dedup(MonthsOf(Charges(ts, k))) &&
      Candidates(ts).vals[k].amount == Abs(Charges(ts, k)[0].amount)
  {
    if ts != [] {
      var p, t := ts[..|ts| - 1], ts[|ts| - 1];
      CandidateContent(p, k);
      if t.amount < 0 && RecurringKey(t) == k {
        var cs := Charges(p, k);
        MonthsOfAppend(cs, t);
        assert (cs + [t])[..|cs + [t]| - 1] == cs;
        assert Charges(ts, k)[0] == (if cs == [] then t else cs[0]);
      } else {
        assert Charges(ts, k) == Charges(p, k);
      }
    }
  }
}
