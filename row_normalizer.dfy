/** The row normalizer of the upload handler (SpendingDashboard.tsx lines
    104-134): it chooses the header list, turns every parsed CSV row into a
    `{date, description, category, amount}` record by routing each header
    through a case-insensitive substring test, and keeps only the records
    with a usable amount and date.

    CSV tokenisation is done upstream; its output is a sequence of rows,
    each either positional cells or named fields.  `new Date(value)` and
    `parseFloat(value)` are passed in as the functions `parseDate` and
    `parseAmount`: `None` stands for an invalid date and for `NaN`, and the
    amount is in cents. */
module RowNormalizer {
  import opened Wrappers
  import opened Calendar
  import opened JsText
  import opened Transactions

  /** One row as the CSV parser delivers it: an array of cells, or an object
      whose keys (in column order) name its fields. */
  datatype ParsedRow =
    | Cells(cells: seq<string>)
    | Fields(names: seq<string>, fields: map<string, string>)

  /** The record field a header writes to. */
  datatype Field = DateField | AmountField | DescriptionField | CategoryField | Unused

  /** The words a header is tested for, in the order lines 123-131 test
      them, with the field each one selects. */
  const Priority: seq<(string, Field)> := [
    ("date", DateField), ("amount", AmountField),
    ("description", DescriptionField), ("category", CategoryField)]

  /** The routing of lines 123-131: the first of "date", "amount",
      "description", "category" that the lower-cased header includes decides
      the field; a header including none of them is ignored. */
  function Route(header: string): Field
  {
    var h := Lower(header);
    if Includes(h, "date") then DateField
    else if Includes(h, "amount") then AmountField
    else if Includes(h, "description") then DescriptionField
    else if Includes(h, "category") then CategoryField
    else Unused
  }

  /** A header is ignored exactly when it includes none of the words;
      otherwise it goes to the field of the first word in priority order
      that it includes, whatever later words it also includes. */
  lemma RoutePriority(header: string)
    ensures Route(header) == Unused <==>
      forall k :: 0 <= k < |Priority| ==> !Includes(Lower(header), Priority[k].0)
    ensures forall k :: 0 <= k < |Priority| && Route(header) == Priority[k].1 ==>
      Includes(Lower(header), Priority[k].0) &&
      forall j :: 0 <= j < k ==> !Includes(Lower(header), Priority[j].0)
  {
    var h := Lower(header);
    assert Priority[0].0 == "date" && Priority[1].0 == "amount";
    assert Priority[2].0 == "description" && Priority[3].0 == "category";
  }

  /** The fixed header list used when the first row is an array (line 110). */
  const HeaderlessColumns: seq<string> := ["date", "description", "amount"]

  lemma LowerHeaderlessColumns()
    ensures Lower(HeaderlessColumns[0]) == "date"
    ensures Lower(HeaderlessColumns[1]) == "description"
    ensures Lower(HeaderlessColumns[2]) == "amount"
  {
    assert Lower("date") == "date";
    assert Lower("description") == "description";
    assert Lower("amount") == "amount";
  }

  /** The header list of lines 104-117: none for no rows, the fixed list when
      the first row is an array, otherwise the first row's own keys. */
  function Headers(data: seq<ParsedRow>): seq<string> {
    if data == [] then []
    else match data[0]
      case Cells(_) => HeaderlessColumns
      case Fields(names, _) => names
  }

  /** The value a header reads from a row (line 122): the cell at the
      header's position for an array row, the field under the header's name
      otherwise; a missing cell or field is `undefined`. */
  function ValueAt(row: ParsedRow, header: string, index: nat): Option<string> {
    match row
    case Cells(cells) => if index < |cells| then Some(cells[index]) else None
    case Fields(_, fields) => if header in fields then Some(fields[header]) else None
  }

  /** The index of the last header routed to field `f`, if any. */
  function LastRouted(hs: seq<string>, f: Field): (r: Option<nat>)
    ensures r.None? <==> forall j :: 0 <= j < |hs| ==> Route(hs[j]) != f
    ensures r.Some? ==>
      r.value < |hs| && Route(hs[r.value]) == f &&
      forall j :: r.value < j < |hs| ==> Route(hs[j]) != f
  {
    if hs == [] then None
    else if Route(hs[|hs| - 1]) == f then Some(|hs| - 1)
    else LastRouted(hs[..|hs| - 1], f)
  }

  /** Routing one more header either makes it the last one routed to `f`
      or leaves the last one as it was. */
  lemma LastRoutedStep(hs: seq<string>, i: nat, f: Field)
    requires i < |hs|
    ensures LastRouted(hs[..i + 1], f) ==
      if Route(hs[i]) == f then Some(i) else LastRouted(hs[..i], f)
  {
    assert hs[..i + 1][..i] == hs[..i];
  }

  /** The record under construction: every field starts `undefined`. */
  datatype RawRecord = RawRecord(
    date: Option<CalendarDate>,
    description: Option<string>,
    category: Option<string>,
    amount: Option<int>)

  function ParseOr<T>(parse: string -> Option<T>, value: Option<string>): Option<T> {
    match value
    case None => None
    case Some(s) => parse(s)
  }

  /** The value the last header routed to `f` reads from the row. */
  function LastValue(hs: seq<string>, row: ParsedRow, f: Field): Option<string> {
    match LastRouted(hs, f)
    case None => None
    case Some(i) => ValueAt(row, hs[i], i)
  }

  /** The record a row becomes: each field holds what the LAST header routed
      to it wrote, since every later assignment overwrites an earlier one. */
  function RecordOf(hs: seq<string>, row: ParsedRow,
                    parseDate: string -> Option<CalendarDate>,
                    parseAmount: string -> Option<int>): RawRecord
  {
    RawRecord(
      ParseOr(parseDate, LastValue(hs, row, DateField)),
      LastValue(hs, row, DescriptionField),
      LastValue(hs, row, CategoryField),
      ParseOr(parseAmount, LastValue(hs, row, AmountField)))
  }

  lemma LastValueStep(hs: seq<string>, i: nat, row: ParsedRow, f: Field)
    requires i < |hs|
    ensures LastValue(hs[..i + 1], row, f) ==
      if Route(hs[i]) == f then ValueAt(row, hs[i], i) else LastValue(hs[..i], row, f)
  {
    LastRoutedStep(hs, i, f);
    assert hs[..i + 1][i] == hs[i];
    match LastRouted(hs[..i], f)
    case None =>
    case Some(j) => assert hs[..i + 1][j] == hs[..i][j];
  }

  /** One more header overwrites the field it routes to with the value it
      reads, and changes nothing else. */
  lemma RecordStep(hs: seq<string>, i: nat, row: ParsedRow,
                   parseDate: string -> Option<CalendarDate>,
                   parseAmount: string -> Option<int>)
    requires i < |hs|
    ensures var before := RecordOf(hs[..i], row, parseDate, parseAmount);
      var after := RecordOf(hs[..i + 1], row, parseDate, parseAmount);
      var value := ValueAt(row, hs[i], i);
      match Route(hs[i])
      case DateField => after == before.(date := ParseOr(parseDate, value))
      case AmountField => after == before.(amount := ParseOr(parseAmount, value))
      case DescriptionField => after == before.(description := value)
      case CategoryField => after == before.(category := value)
      case Unused => after == before
  {
    LastValueStep(hs, i, row, DateField);
    LastValueStep(hs, i, row, AmountField);
    LastValueStep(hs, i, row, DescriptionField);
    LastValueStep(hs, i, row, CategoryField);
  }

  /** The `headers.forEach` of lines 120-133, assigning the record field by
      field. */
  method BuildRecord(hs: seq<string>, row: ParsedRow,
                     parseDate: string -> Option<CalendarDate>,
                     parseAmount: string -> Option<int>)
    returns (rec: RawRecord)
    ensures rec == RecordOf(hs, row, parseDate, parseAmount)
  {
    rec := RawRecord(None, None, None, None);
    for i := 0 to |hs|
      invariant rec == RecordOf(hs[..i], row, parseDate, parseAmount)
    {
      RecordStep(hs, i, row, parseDate, parseAmount);
      var value := ValueAt(row, hs[i], i);
      match Route(hs[i])
      case DateField => rec := rec.(date := ParseOr(parseDate, value));
      case AmountField => rec := rec.(amount := ParseOr(parseAmount, value));
      case DescriptionField => rec := rec.(description := value);
      case CategoryField => rec := rec.(category := value);
      case Unused =>
    }
    assert hs[..|hs|] == hs;
  }

  /** The filter of line 134: the amount is a number other than zero and the
      date is valid. */
  predicate Kept(rec: RawRecord) {
    rec.amount.Some? && rec.amount.value != 0 && rec.date.Some?
  }

  function ToTransaction(rec: RawRecord): (t: Transaction)
    requires Kept(rec)
    ensures t.amount != 0
  {
    Transaction(rec.date.value, rec.description, rec.category, rec.amount.value)
  }

  /** What one row contributes: its transaction when its record passes
      the filter, nothing otherwise. */
  function RowOutput(hs: seq<string>, row: ParsedRow,
                     parseDate: string -> Option<CalendarDate>,
                     parseAmount: string -> Option<int>): seq<Transaction>
  {
    var rec := RecordOf(hs, row, parseDate, parseAmount);
    if Kept(rec) then [ToTransaction(rec)] else []
  }

  /** The `map` then `filter` of lines 119-134 over the rows, in order:
      no more transactions than rows, none of them with a zero amount. */
  function NormalizeRows(hs: seq<string>, rows: seq<ParsedRow>,
                         parseDate: string -> Option<CalendarDate>,
                         parseAmount: string -> Option<int>): (ts: seq<Transaction>)
    ensures |ts| <= |rows|
    ensures forall i :: 0 <= i < |ts| ==> ts[i].amount != 0
  {
    if rows == [] then []
    else RowOutput(hs, rows[0], parseDate, parseAmount) + NormalizeRows(hs, rows[1..], parseDate, parseAmount)
  }

  /** A single row gives its transaction when its record passes the filter,
      and nothing otherwise. */
  lemma NormalizeRowsOne(hs: seq<string>, row: ParsedRow,
                         parseDate: string -> Option<CalendarDate>,
                         parseAmount: string -> Option<int>)
    ensures NormalizeRows(hs, [row], parseDate, parseAmount) ==
      var rec := RecordOf(hs, row, parseDate, parseAmount);
      if Kept(rec) then [ToTransaction(rec)] else []
  {
    assert [row][1..] == [];
  }

  /** The rows are handled one by one and in order: normalizing two runs of
      rows gives the transactions of the first run followed by those of the
      second. */
  lemma {:induction false} NormalizeRowsAppend(hs: seq<string>, a: seq<ParsedRow>, b: seq<ParsedRow>,
                                               parseDate: string -> Option<CalendarDate>,
                                               parseAmount: string -> Option<int>)
    ensures NormalizeRows(hs, a + b, parseDate, parseAmount) ==
      NormalizeRows(hs, a, parseDate, parseAmount) + NormalizeRows(hs, b, parseDate, parseAmount)
  {
    if a == [] {
      assert a + b == b;
    } else {
      assert (a + b)[0] == a[0];
      assert (a + b)[1..] == a[1..] + b;
      NormalizeRowsAppend(hs, a[1..], b, parseDate, parseAmount);
    }
  }

  /** No transaction comes out exactly when no row passes the filter. */
  lemma {:induction false} NormalizeRowsEmpty(hs: seq<string>, rows: seq<ParsedRow>,
                                              parseDate: string -> Option<CalendarDate>,
                                              parseAmount: string -> Option<int>)
    ensures NormalizeRows(hs, rows, parseDate, parseAmount) == [] <==>
      forall i :: 0 <= i < |rows| ==> !Kept(RecordOf(hs, rows[i], parseDate, parseAmount))
  {
    if rows != [] {
      NormalizeRowsEmpty(hs, rows[1..], parseDate, parseAmount);
      forall i | 0 <= i < |rows| - 1 ensures rows[1..][i] == rows[i + 1] { }
    }
  }

  /** Everything the upload handler hands to the aggregator (line 136): no
      transaction exactly when no row passes the filter, and otherwise a
      positive total, since no amount is zero. */
  function Normalize(data: seq<ParsedRow>,
                     parseDate: string -> Option<CalendarDate>,
                     parseAmount: string -> Option<int>): (ts: seq<Transaction>)
    ensures ts == [] <==>
      forall i :: 0 <= i < |data| ==> !Kept(RecordOf(Headers(data), data[i], parseDate, parseAmount))
    ensures SumAbs(ts) == 0 <==> ts == []
  {
    NormalizeRowsEmpty(Headers(data), data, parseDate, parseAmount);
    SumAbsPositive(NormalizeRows(Headers(data), data, parseDate, parseAmount));
    NormalizeRows(Headers(data), data, parseDate, parseAmount)
  }

  /** A transaction comes out of the normalizer exactly when it is the record
      of some input row that passes the filter. */
  lemma {:induction false} NormalizeRowsMembers(hs: seq<string>, rows: seq<ParsedRow>,
                                                parseDate: string -> Option<CalendarDate>,
                                                parseAmount: string -> Option<int>,
                                                t: Transaction)
    ensures t in NormalizeRows(hs, rows, parseDate, parseAmount) <==>
      exists i :: 0 <= i < |rows| &&
        Kept(RecordOf(hs, rows[i], parseDate, parseAmount)) &&
        t == ToTransaction(RecordOf(hs, rows[i], parseDate, parseAmount))
  {
    if rows != [] {
      NormalizeRowsMembers(hs, rows[1..], parseDate, parseAmount, t);
      var rec := RecordOf(hs, rows[0], parseDate, parseAmount);
      if t in NormalizeRows(hs, rows[1..], parseDate, parseAmount) {
        var i :| 0 <= i < |rows| - 1 &&
          Kept(RecordOf(hs, rows[1..][i], parseDate, parseAmount)) &&
          t == ToTransaction(RecordOf(hs, rows[1..][i], parseDate, parseAmount));
        assert rows[i + 1] == rows[1..][i];
      }
      if exists i :: 0 <= i < |rows| &&
          Kept(RecordOf(hs, rows[i], parseDate, parseAmount)) &&
          t == ToTransaction(RecordOf(hs, rows[i], parseDate, parseAmount))
      {
        var i :| 0 <= i < |rows| &&
          Kept(RecordOf(hs, rows[i], parseDate, parseAmount)) &&
          t == ToTransaction(RecordOf(hs, rows[i], parseDate, parseAmount));
        if i > 0 {
          assert rows[1..][i - 1] == rows[i];
        }
      }
    }
  }

  /** The routing of the column names used below, whatever their case. */
  lemma RouteDate(h: string)
    requires Lower(h) == "date"
    ensures Route(h) == DateField
  {
  }

  lemma RouteDescription(h: string)
    requires Lower(h) == "description"
    ensures Route(h) == DescriptionField
  {
    MissingCharExcludes("description", "date", 'a');
    MissingCharExcludes("description", "amount", 'a');
  }

  lemma RouteAmount(h: string)
    requires Lower(h) == "amount"
    ensures Route(h) == AmountField
  {
    MissingCharExcludes("amount", "date", 'd');
  }

  /** Where each field of a row is read from when its three headers route
      to the date, the description and the amount, in that order. */
  lemma DateDescriptionAmount(hs: seq<string>, row: ParsedRow)
    requires |hs| == 3
    requires Route(hs[0]) == DateField && Route(hs[1]) == DescriptionField
    requires Route(hs[2]) == AmountField
    ensures LastRouted(hs, DateField) == Some(0)
    ensures LastRouted(hs, DescriptionField) == Some(1)
    ensures LastRouted(hs, AmountField) == Some(2)
    ensures LastRouted(hs, CategoryField) == None
  {
  }

  /** Rows without headers: the first cell is the date, the second the
      description and the third the amount; no category is set. */
  lemma HeaderlessRecord(cells: seq<string>,
                         parseDate: string -> Option<CalendarDate>,
                         parseAmount: string -> Option<int>)
    requires |cells| >= 3
    ensures RecordOf(HeaderlessColumns, Cells(cells), parseDate, parseAmount) ==
      RawRecord(parseDate(cells[0]), Some(cells[1]), None, parseAmount(cells[2]))
  {
    LowerHeaderlessColumns();
    RouteDate(HeaderlessColumns[0]);
    RouteDescription(HeaderlessColumns[1]);
    RouteAmount(HeaderlessColumns[2]);
    DateDescriptionAmount(HeaderlessColumns, Cells(cells));
  }

  /** The header list: none without rows; for positional rows three
      columns read as the date, the description and the amount; otherwise
      the first row's own keys, in order, for every row. */
  lemma HeaderChoice(data: seq<ParsedRow>)
    ensures data == [] ==> Headers(data) == []
    ensures data != [] && data[0].Cells? ==>
      |Headers(data)| == 3 && Route(Headers(data)[0]) == DateField &&
      Route(Headers(data)[1]) == DescriptionField && Route(Headers(data)[2]) == AmountField
    ensures data != [] && data[0].Fields? ==> Headers(data) == data[0].names
  {
    LowerHeaderlessColumns();
    RouteDate(HeaderlessColumns[0]);
    RouteDescription(HeaderlessColumns[1]);
    RouteAmount(HeaderlessColumns[2]);
  }

  /** Columns of a card export that carries both a transaction date and a
      posting date. */
  const TwoDateColumns: seq<string> :=
    ["Transaction Date", "Post Date", "Description", "Amount"]

  lemma RouteTransactionDate(h: string)
    requires Lower(h) == "transaction date"
    ensures Route(h) == DateField
  {
    IncludesAt("transaction date", "date", 12);
  }

  lemma RoutePostDate(h: string)
    requires Lower(h) == "post date"
    ensures Route(h) == DateField
  {
    IncludesAt("post date", "date", 5);
  }

  /** Where each field of a row is read from when its four headers route to
      two dates, the description and the amount: the second date header is
      the last one routed to the date. */
  lemma TwoDatesDescriptionAmount(hs: seq<string>)
    requires |hs| == 4
    requires Route(hs[0]) == DateField && Route(hs[1]) == DateField
    requires Route(hs[2]) == DescriptionField && Route(hs[3]) == AmountField
    ensures LastRouted(hs, DateField) == Some(1)
    ensures LastRouted(hs, DescriptionField) == Some(2)
    ensures LastRouted(hs, AmountField) == Some(3)
    ensures LastRouted(hs, CategoryField) == None
  {
  }

  /** A named-field row under such headers takes its date from the second
      date column. */
  lemma TwoDateRecord(hs: seq<string>, fields: map<string, string>,
                      parseDate: string -> Option<CalendarDate>,
                      parseAmount: string -> Option<int>)
    requires |hs| == 4
    requires Route(hs[0]) == DateField && Route(hs[1]) == DateField
    requires Route(hs[2]) == DescriptionField && Route(hs[3]) == AmountField
    requires hs[1] in fields && hs[2] in fields && hs[3] in fields
    ensures RecordOf(hs, Fields(hs, fields), parseDate, parseAmount) ==
      RawRecord(parseDate(fields[hs[1]]), Some(fields[hs[2]]), None, parseAmount(fields[hs[3]]))
  {
    TwoDatesDescriptionAmount(hs);
  }

  /** With two date columns the later one wins: a row is dated by its
      posting date, not by its transaction date. */
  lemma LaterDateColumnWins(fields: map<string, string>,
                            parseDate: string -> Option<CalendarDate>,
                            parseAmount: string -> Option<int>)
    requires "Post Date" in fields && "Description" in fields && "Amount" in fields
    ensures RecordOf(TwoDateColumns, Fields(TwoDateColumns, fields), parseDate, parseAmount) ==
      RawRecord(parseDate(fields["Post Date"]), Some(fields["Description"]),
                None, parseAmount(fields["Amount"]))
  {
    assert Lower(TwoDateColumns[0]) == "transaction date";
    assert Lower(TwoDateColumns[1]) == "post date";
    assert Lower(TwoDateColumns[2]) == "description";
    assert Lower(TwoDateColumns[3]) == "amount";
    RouteTransactionDate(TwoDateColumns[0]);
    RoutePostDate(TwoDateColumns[1]);
    RouteDescription(TwoDateColumns[2]);
    RouteAmount(TwoDateColumns[3]);
    TwoDateRecord(TwoDateColumns, fields, parseDate, parseAmount);
  }
}
