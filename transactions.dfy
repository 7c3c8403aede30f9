/** The record the row normalizer hands to the aggregator
    (SpendingDashboard.tsx lines 119-134) and the spend arithmetic shared by
    every total the dashboard shows.  Amounts are held in integer cents;
    a negative amount is money leaving the account. */
module Transactions {
  import opened Wrappers
  import opened Calendar

  /** A field the CSV row did not supply stays `undefined`, modelled as `None`. */
  datatype Transaction = Transaction(
    date: CalendarDate,
    description: Option<string>,
    category: Option<string>,
    amount: int)

  function Abs(x: int): nat {
    if x < 0 then -x else x
  }

  /** The name a field takes when it is used as an object key or spliced
      into a template string: `undefined` becomes the text "undefined". */
  function KeyText(field: Option<string>): string {
    match field
    case None => "undefined"
    case Some(s) => s
  }

  /** The sum of `Math.abs(t.amount)` over a sequence of transactions. */
  function SumAbs(ts: seq<Transaction>): nat {
    if ts == [] then 0 else SumAbs(ts[..|ts| - 1]) + Abs(ts[|ts| - 1].amount)
  }

  lemma {:induction false} SumAbsAppend(ts: seq<Transaction>, us: seq<Transaction>)
    ensures SumAbs(ts + us) == SumAbs(ts) + SumAbs(us)
    decreases |us|
  {
    if us != [] {
      var u := us[..|us| - 1];
      assert (ts + us)[..|ts + us| - 1] == ts + u;
      assert (ts + us)[|ts + us| - 1] == us[|us| - 1];
      SumAbsAppend(ts, u);
      assert SumAbs(us) == SumAbs(u) + Abs(us[|us| - 1].amount);
    } else {
      assert ts + us == ts;
    }
  }

  /** A sum of magnitudes of non-zero amounts is zero only for no transactions. */
  lemma {:induction false} SumAbsPositive(ts: seq<Transaction>)
    requires forall i :: 0 <= i < |ts| ==> ts[i].amount != 0
    ensures SumAbs(ts) == 0 <==> ts == []
  {
    if ts != [] {
      SumAbsPositive(ts[..|ts| - 1]);
    }
  }
}
