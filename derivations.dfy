/** The values `processTransactions` derives after its loop
    (SpendingDashboard.tsx lines 75-94): the top merchant, the category
    breakdown, the Jan..Dec series and the recurring payments, with what
    each means for the transactions that were scanned. */
module Derivations {
  import opened Calendar
  import opened JsObjects
  import opened JsText
  import opened Transactions
  import opened AggregationSpec

  /** The seedless reduction of line 76 over the entries, which keeps the
      left entry only when its value is strictly larger: the largest value,
      and among equal largest values the entry that comes last. */
  function TopEntry(es: seq<(string, nat)>): (r: (string, nat))
    requires |es| > 0
    ensures forall i :: 0 <= i < |es| ==> es[i].1 <= r.1
    ensures exists j :: 0 <= j < |es| && es[j] == r && (forall i :: j < i < |es| ==> es[i].1 < r.1)
  {
    if |es| == 1 then es[0]
    else
      var a := TopEntry(es[..|es| - 1]);
      var b := es[|es| - 1];
      if a.1 > b.1 then a else b
  }

  /** On a tie the reduction keeps the later entry, since `a[1] > b[1]` fails. */
  lemma TopEntryTieKeepsLater(a: (string, nat), b: (string, nat))
    requires a.1 == b.1
    ensures TopEntry([a, b]) == b
  {
    assert [a, b][..1] == [a];
  }

  datatype Slice = Slice(name: string, value: nat)

  /** The category breakdown of line 80: one slice per key of the
      dictionary, in insertion order. */
  function Breakdown(ks: seq<string>, m: map<string, nat>): (b: seq<Slice>)
    requires forall k :: k in ks ==> k in m
    ensures |b| == |ks|
    ensures forall j :: 0 <= j < |b| ==> b[j].name == ks[j] && b[j].value == m[ks[j]]
  {
    if ks == [] then [] else Breakdown(ks[..|ks| - 1], m) + [Slice(ks[|ks| - 1], m[ks[|ks| - 1]])]
  }

  function SumSlices(b: seq<Slice>): nat {
    if b == [] then 0 else SumSlices(b[..|b| - 1]) + b[|b| - 1].value
  }

  lemma {:induction false} BreakdownSum(ks: seq<string>, m: map<string, nat>)
    requires forall k :: k in ks ==> k in m
    ensures SumSlices(Breakdown(ks, m)) == SumOver(ks, m)
  {
    if ks != [] {
      var b := Breakdown(ks, m);
      assert b[..|b| - 1] == Breakdown(ks[..|ks| - 1], m);
      BreakdownSum(ks[..|ks| - 1], m);
    }
  }

  datatype MonthAmount = MonthAmount(month: string, amount: nat)

  /** The series of line 84: Jan..Dec, each the month's total or 0. */
  function YearlySeries(monthly: Dict<nat>): (s: seq<MonthAmount>)
    ensures |s| == 12
    ensures forall i :: 0 <= i < 12 ==> s[i].month == MonthOrder[i]
  {
    seq(12, i requires 0 <= i < 12 =>
      MonthAmount(MonthOrder[i], if MonthOrder[i] in monthly.vals then monthly.vals[MonthOrder[i]] else 0))
  }

  function SumAmounts(s: seq<MonthAmount>): nat {
    if s == [] then 0 else SumAmounts(s[..|s| - 1]) + s[|s| - 1].amount
  }

  /** The transactions dated in calendar month `m` of any year. */
  function InMonth(ts: seq<Transaction>, m: int): seq<Transaction> {
    if ts == [] then []
    else InMonth(ts[..|ts| - 1], m) + (if ts[|ts| - 1].date.month == m then [ts[|ts| - 1]] else [])
  }

  lemma {:induction false} InMonthIsMembers(ts: seq<Transaction>, m: int)
    requires 0 <= m < 12
    ensures Members(ts, ByMonth, MonthOrder[m]) == InMonth(ts, m)
  {
    if ts != [] {
      MonthOrderDistinct();
      InMonthIsMembers(ts[..|ts| - 1], m);
    }
  }

  /** Spend per calendar month, Jan..Dec. */
  function MonthSpend(ts: seq<Transaction>): (s: seq<nat>)
    ensures |s| == 12
  {
    seq(12, m requires 0 <= m < 12 => SumAbs(InMonth(ts, m)))
  }

  function SumNat(s: seq<nat>): nat {
    if s == [] then 0 else SumNat(s[..|s| - 1]) + s[|s| - 1]
  }

  lemma {:induction false} SumNatBump(s: seq<nat>, i: nat, x: nat)
    requires i < |s|
    ensures SumNat(s[i := s[i] + x]) == SumNat(s) + x
  {
    var s' := s[i := s[i] + x];
    assert s'[..|s| - 1] == if i < |s| - 1 then s[..|s| - 1][i := s[i] + x] else s[..|s| - 1];
    if i < |s| - 1 {
      SumNatBump(s[..|s| - 1], i, x);
    }
  }

  lemma {:induction false} SumNatZero(s: seq<nat>)
    requires forall i :: 0 <= i < |s| ==> s[i] == 0
    ensures SumNat(s) == 0
  {
    if s != [] {
      SumNatZero(s[..|s| - 1]);
    }
  }

  /** Every transaction falls in exactly one calendar month, so the twelve
      monthly spends add up to the total spend. */
  lemma {:induction false} MonthSpendSum(ts: seq<Transaction>)
    ensures SumNat(MonthSpend(ts)) == SumAbs(ts)
  {
    if ts != [] {
      var p, t := ts[..|ts| - 1], ts[|ts| - 1];
      MonthSpendSum(p);
      var m := t.date.month;
      forall i | 0 <= i < 12
        ensures MonthSpend(ts)[i] == MonthSpend(p)[m := MonthSpend(p)[m] + Abs(t.amount)][i]
      {
        if i == m {
          SumAbsAppend(InMonth(p, i), [t]);
        } else {
          assert InMonth(ts, i) == InMonth(p, i);
        }
      }
      assert MonthSpend(ts) == MonthSpend(p)[m := MonthSpend(p)[m] + Abs(t.amount)];
      SumNatBump(MonthSpend(p), m, Abs(t.amount));
    } else {
      SumNatZero(MonthSpend(ts));
    }
  }

  lemma {:induction false} SumAmountsOfSeries(s: seq<MonthAmount>, v: seq<nat>)
    requires |s| == |v| && forall i :: 0 <= i < |s| ==> s[i].amount == v[i]
    ensures SumAmounts(s) == SumNat(v)
  {
    if s != [] {
      SumAmountsOfSeries(s[..|s| - 1], v[..|v| - 1]);
    }
  }

  /** The `yearlySpending` state of lines 83-84. */
  function YearlySpending(ts: seq<Transaction>): seq<MonthAmount> {
    YearlySeries(Totals(ts, ByMonth))
  }

  /** The Jan..Dec series: twelve entries in calendar order, each the spend
      of that calendar month across all years (0 for a month with no
      transaction), adding up to the total spend. */
  lemma YearlySpendingMeaning(ts: seq<Transaction>)
    ensures |YearlySpending(ts)| == 12
    ensures forall i :: 0 <= i < 12 ==>
      YearlySpending(ts)[i] == MonthAmount(MonthOrder[i], SumAbs(InMonth(ts, i)))
    ensures SumAmounts(YearlySpending(ts)) == SumAbs(ts)
  {
    var s := YearlySpending(ts);
    forall i | 0 <= i < 12 ensures s[i] == MonthAmount(MonthOrder[i], SumAbs(InMonth(ts, i))) {
      TotalsValue(ts, ByMonth, MonthOrder[i]);
      InMonthIsMembers(ts, i);
    }
    SumAmountsOfSeries(s, MonthSpend(ts));
    MonthSpendSum(ts);
  }

  /** `monthOrder[m]` for a month index; `join` writes an out-of-range
      (undefined) entry as nothing. */
  function MonthLabel(m: int): string {
    if 0 <= m < 12 then MonthOrder[m] else ""
  }

  /** The month list of line 93: the month set in insertion order, each
      month by its label, joined with a comma and a space. */
  function MonthList(ms: seq<int>): string {
    Join(seq(|ms|, i requires 0 <= i < |ms| => MonthLabel(ms[i])), ", ")
  }

  datatype RecurringPayment = RecurringPayment(description: string, amount: nat, months: string)

  /** The minimum number of distinct months of a recurring charge (line 87). */
  const RecurringThreshold: nat := 3

  /** The row of the recurring table that a qualifying candidate becomes
      (lines 90-94): the key up to its first dash, the amount of the first
      charge and the month list. */
  function Summary(key: string, c: Candidate): RecurringPayment {
    RecurringPayment(BeforeDash(key), c.amount, MonthList(c.months))
  }

  /** The `filter` then `map` of lines 88-94 over the entries. */
  function RecurringFrom(ks: seq<string>, m: map<string, Candidate>): seq<RecurringPayment>
    requires forall k :: k in ks ==> k in m
  {
    if ks == [] then []
    else
      (if |m[ks[0]].months| >= RecurringThreshold then [Summary(ks[0], m[ks[0]])] else [])
        + RecurringFrom(ks[1..], m)
  }

  /** The keys that pass the filter, in entry order. */
  function QualifyingKeys(ks: seq<string>, m: map<string, Candidate>): (qs: seq<string>)
    requires forall k :: k in ks ==> k in m
    ensures forall k :: k in qs <==> k in ks && |m[k].months| >= RecurringThreshold
  {
    if ks == [] then []
    else
      (if |m[ks[0]].months| >= RecurringThreshold then [ks[0]] else [])
        + QualifyingKeys(ks[1..], m)
  }

  /** The qualifying keys keep the order of the entries: of two of them,
      the one listed first comes first among the entries. */
  lemma {:induction false} QualifyingKeysOrder(ks: seq<string>, m: map<string, Candidate>)
    requires forall k :: k in ks ==> k in m
    requires Distinct(ks)
    ensures forall i, j :: 0 <= i < j < |QualifyingKeys(ks, m)| ==>
      QualifyingKeys(ks, m)[i] in ks && QualifyingKeys(ks, m)[j] in ks &&
      FirstIndex(ks, QualifyingKeys(ks, m)[i]) < FirstIndex(ks, QualifyingKeys(ks, m)[j])
  {
    if ks != [] {
      var rest := ks[1..];
      forall i, j | 0 <= i < j < |rest| ensures rest[i] != rest[j] {
        assert rest[i] == ks[i + 1] && rest[j] == ks[j + 1];
      }
      QualifyingKeysOrder(rest, m);
      forall k | k in rest ensures FirstIndex(ks, k) == 1 + FirstIndex(rest, k) {
        var p := FirstIndex(rest, k);
        assert ks[p + 1] == k;
      }
      var qs, qr := QualifyingKeys(ks, m), QualifyingKeys(rest, m);
      var head := if |m[ks[0]].months| >= RecurringThreshold then [ks[0]] else [];
      assert qs == head + qr;
      forall i, j | 0 <= i < j < |qs|
        ensures qs[i] in ks && qs[j] in ks && FirstIndex(ks, qs[i]) < FirstIndex(ks, qs[j])
      {
        var o := |head|;
        assert qs[j] == qr[j - o] && qr[j - o] in rest;
        if i < o {
          assert qs[i] == ks[0];
        } else {
          assert qs[i] == qr[i - o];
        }
      }
    } else {
      assert QualifyingKeys(ks, m) == [];
    }
  }

  /** The recurring list is the summary of each qualifying key, in entry order. */
  lemma {:induction false} RecurringFromKeys(ks: seq<string>, m: map<string, Candidate>)
    requires forall k :: k in ks ==> k in m
    ensures |RecurringFrom(ks, m)| == |QualifyingKeys(ks, m)|
    ensures forall j :: 0 <= j < |RecurringFrom(ks, m)| ==>
      QualifyingKeys(ks, m)[j] in m &&
      RecurringFrom(ks, m)[j] == Summary(QualifyingKeys(ks, m)[j], m[QualifyingKeys(ks, m)[j]])
  {
    if ks != [] {
      RecurringFromKeys(ks[1..], m);
    }
  }

  /** The recurring list of the dashboard. */
  function RecurringList(d: Dict<Candidate>): seq<RecurringPayment>
    requires Valid(d)
  {
    RecurringFrom(d.keys, d.vals)
  }

  /** The distinct calendar months in which key `k` was charged. */
  function ChargedMonths(ts: seq<Transaction>, k: string): set<int> {
    set i | 0 <= i < |Charges(ts, k)| :: Charges(ts, k)[i].date.month
  }

  /** The months set of a candidate has one entry per charged month. */
  lemma ChargedMonthsCount(ts: seq<Transaction>, k: string)
    ensures |Dedup(MonthsOf(Charges(ts, k)))| == |ChargedMonths(ts, k)|
  {
    var ms := MonthsOf(Charges(ts, k));
    assert ChargedMonths(ts, k) == set x | x in ms;
    DedupCardinality(ms);
  }

  /** A (description, amount) key is listed as recurring exactly when its
      spending transactions fall in at least three distinct calendar months,
      whatever their years; income never makes a key recurring. */
  lemma RecurringIffThreeMonths(ts: seq<Transaction>, k: string)
    ensures k in QualifyingKeys(Candidates(ts).keys, Candidates(ts).vals) <==>
      |ChargedMonths(ts, k)| >= RecurringThreshold
  {
    CandidateContent(ts, k);
    ChargedMonthsCount(ts, k);
  }

  /** The description shown for a recurring charge is the charge's
      description cut at its first dash: it is the full description only
      when that has no dash. */
  lemma RecurringDescription(t: Transaction)
    ensures BeforeDash(RecurringKey(t)) == BeforeDash(KeyText(t.description))
    ensures BeforeDash(RecurringKey(t)) == KeyText(t.description) <==> '-' !in KeyText(t.description)
  {
    BeforeDashOfJoined(KeyText(t.description), Fixed2(Abs(t.amount)));
  }

  /** The `recurringPayments` state of lines 87-95. */
  function RecurringPayments(ts: seq<Transaction>): seq<RecurringPayment> {
    RecurringList(Candidates(ts))
  }

  /** The recurring list holds one row per qualifying (description, amount)
      key, in the order the keys were first charged; each row shows the
      key cut at its first dash, the amount of the key's first charge and
      the distinct months of its charges in first-charged order. */
  lemma RecurringPaymentsMeaning(ts: seq<Transaction>)
    ensures var c := Candidates(ts);
      var qs := QualifyingKeys(c.keys, c.vals);
      && |RecurringPayments(ts)| == |qs|
      && forall j :: 0 <= j < |qs| ==>
           Charges(ts, qs[j]) != [] &&
           RecurringPayments(ts)[j] == RecurringPayment(
             BeforeDash(qs[j]),
             Abs(Charges(ts, qs[j])[0].amount),
             MonthList(Dedup(MonthsOf(Charges(ts, qs[j])))))
  {
    var c := Candidates(ts);
    var qs := QualifyingKeys(c.keys, c.vals);
    RecurringFromKeys(c.keys, c.vals);
    forall j | 0 <= j < |qs|
      ensures Charges(ts, qs[j]) != []
      ensures RecurringPayments(ts)[j] == RecurringPayment(
        BeforeDash(qs[j]),
        Abs(Charges(ts, qs[j])[0].amount),
        MonthList(Dedup(MonthsOf(Charges(ts, qs[j])))))
    {
      CandidateContent(ts, qs[j]);
    }
  }

  /** Key `a` of a grouping was first added before key `b`. */
  predicate SeenBefore(ts: seq<Transaction>, g: Grouping, a: string, b: string) {
    var ck := CountedKeys(ts, g);
    a in ck && b in ck && FirstIndex(ck, a) < FirstIndex(ck, b)
  }

  /** The spend total of merchant `k`. */
  function MerchantSpend(ts: seq<Transaction>, k: string): nat {
    SumAbs(Members(ts, ByMerchant, k))
  }

  /** The `{ name, amount }` shown as top merchant. */
  datatype Merchant = Merchant(name: string, amount: nat)

  /** A spending transaction gives the merchant totals an entry. */
  lemma MerchantTotalsNonEmpty(ts: seq<Transaction>)
    requires exists i :: 0 <= i < |ts| && ts[i].amount < 0
    ensures |Totals(ts, ByMerchant).keys| > 0
  {
    var i0 :| 0 <= i0 < |ts| && ts[i0].amount < 0;
    TotalsValue(ts, ByMerchant, KeyText(ts[i0].description));
  }

  /** The `topMerchant` state of lines 76-77: the entry the seedless
      reduction keeps, which needs at least one merchant entry. */
  function TopMerchant(ts: seq<Transaction>): Merchant
    requires exists i :: 0 <= i < |ts| && ts[i].amount < 0
  {
    MerchantTotalsNonEmpty(ts);
    var e := TopEntry(Entries(Totals(ts, ByMerchant)));
    Merchant(e.0, e.1)
  }

  /** The top merchant is a description that has at least one negative
      amount, shown with its spend total, and no merchant spent more. */
  lemma TopMerchantMeaning(ts: seq<Transaction>)
    requires exists i :: 0 <= i < |ts| && ts[i].amount < 0
    ensures HasKey(ts, ByMerchant, TopMerchant(ts).name)
    ensures TopMerchant(ts).amount == MerchantSpend(ts, TopMerchant(ts).name)
    ensures forall i :: 0 <= i < |ts| && ts[i].amount < 0 ==>
      MerchantSpend(ts, KeyText(ts[i].description)) <= TopMerchant(ts).amount
  {
    MerchantTotalsNonEmpty(ts);
    var d := Totals(ts, ByMerchant);
    var r := TopEntry(Entries(d));
    TotalsValue(ts, ByMerchant, r.0);
    forall i | 0 <= i < |ts| && ts[i].amount < 0
      ensures MerchantSpend(ts, KeyText(ts[i].description)) <= r.1
    {
      var k := KeyText(ts[i].description);
      TotalsValue(ts, ByMerchant, k);
      assert Entries(d)[FirstIndex(d.keys, k)].1 == MerchantSpend(ts, k);
    }
  }

  /** Every key entered after the top entry's key has a smaller value. */
  lemma TopEntryBeatsLaterKeys(d: Dict<nat>, k: string)
    requires Valid(d) && |d.keys| > 0 && k in d.vals
    requires TopEntry(Entries(d)).0 in d.keys
    requires FirstIndex(d.keys, TopEntry(Entries(d)).0) < FirstIndex(d.keys, k)
    ensures d.vals[k] < TopEntry(Entries(d)).1
  {
    var es := Entries(d);
    var r := TopEntry(es);
    var j :| 0 <= j < |es| && es[j] == r && (forall i :: j < i < |es| ==> es[i].1 < r.1);
    var x := FirstIndex(d.keys, k);
    assert es[x].1 == d.vals[k];
    DistinctFirstIndex(d.keys, j);
  }

  /** On equal totals the merchant whose first spending came last wins:
      every merchant first seen after the top one has a strictly smaller
      total. */
  lemma TopMerchantTie(ts: seq<Transaction>)
    requires exists i :: 0 <= i < |ts| && ts[i].amount < 0
    ensures forall i ::
      (0 <= i < |ts| && ts[i].amount < 0 &&
       SeenBefore(ts, ByMerchant, TopMerchant(ts).name, KeyText(ts[i].description)))
      ==> MerchantSpend(ts, KeyText(ts[i].description)) < TopMerchant(ts).amount
  {
    MerchantTotalsNonEmpty(ts);
    var d := Totals(ts, ByMerchant);
    var r := TopEntry(Entries(d));
    TotalsKeys(ts, ByMerchant);
    forall i | 0 <= i < |ts| && ts[i].amount < 0 &&
        SeenBefore(ts, ByMerchant, r.0, KeyText(ts[i].description))
      ensures MerchantSpend(ts, KeyText(ts[i].description)) < r.1
    {
      var k := KeyText(ts[i].description);
      TotalsValue(ts, ByMerchant, k);
      DedupKeepsOrder(CountedKeys(ts, ByMerchant), r.0, k);
      TopEntryBeatsLaterKeys(d, k);
    }
  }

  /** The `categoryBreakdown` state of line 80. */
  function CategoryBreakdown(ts: seq<Transaction>): seq<Slice> {
    var d := Totals(ts, ByCategory);
    Breakdown(d.keys, d.vals)
  }

  /** One slice per distinct category (a missing category counting as
      "undefined"), in the order the categories first occur. */
  lemma CategoryBreakdownNames(ts: seq<Transaction>)
    ensures var b := CategoryBreakdown(ts);
      && |b| == |Dedup(CountedKeys(ts, ByCategory))|
      && (forall j :: 0 <= j < |b| ==> b[j].name == Dedup(CountedKeys(ts, ByCategory))[j])
      && (forall i, j :: 0 <= i < j < |b| ==> b[i].name != b[j].name)
      && (forall k :: HasKey(ts, ByCategory, k) <==> exists j :: 0 <= j < |b| && b[j].name == k)
  {
    var d := Totals(ts, ByCategory);
    var b := CategoryBreakdown(ts);
    TotalsKeys(ts, ByCategory);
    forall k ensures HasKey(ts, ByCategory, k) <==> exists j :: 0 <= j < |b| && b[j].name == k {
      TotalsValue(ts, ByCategory, k);
      if k in d.keys {
        var j := FirstIndex(d.keys, k);
        assert b[j].name == k;
      }
    }
  }

  /** Each slice holds its category's spend, and the slices add up to the
      total spend. */
  lemma CategoryBreakdownValues(ts: seq<Transaction>)
    ensures var b := CategoryBreakdown(ts);
      && (forall j :: 0 <= j < |b| ==> b[j].value == SumAbs(Members(ts, ByCategory, b[j].name)))
      && SumSlices(b) == SumAbs(ts)
  {
    var d := Totals(ts, ByCategory);
    var b := CategoryBreakdown(ts);
    forall j | 0 <= j < |b| ensures b[j].value == SumAbs(Members(ts, ByCategory, b[j].name)) {
      TotalsValue(ts, ByCategory, b[j].name);
    }
    BreakdownSum(d.keys, d.vals);
    TotalsSum(ts, ByCategory);
    CountedAll(ts, ByCategory);
  }
}
