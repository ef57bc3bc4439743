/** The data export of the settings page: records turned into rows of named
    values, rows written as comma-separated lines with every value in its
    `JSON.stringify` form, and the monthly revenue table built from the
    completed payments. */
module Export {
  import opened Seqs
  import opened Text
  import opened Json
  import opened Calendar
  import opened Entities
  import opened PaymentsPage

  /** A value of an exported record field; `Missing` is `undefined`. */
  datatype Value = Missing | Str(text: string) | Num(n: int)

  /** An exported record: its field names in order, each with its value. */
  type Row = seq<(string, Value)>

  /** The values `row[header] || ""` replaces by the empty text. */
  predicate Falsy(v: Value)
  {
    v.Missing? || v == Str("") || v == Num(0)
  }

  /** `JSON.stringify(value || "")`: a text between quotes with its escapes,
      a number as its decimal numeral. */
  function Cell(v: Value): (r: string)
    ensures Falsy(v) ==> r == Quote("")
    ensures v.Str? ==> Unquote(r) == Some(v.text)
    ensures v.Num? && v.n != 0 ==> ParseInt(r) == Some(v.n)
    ensures '\n' !in r
  {
    if Falsy(v) then
      QuoteRoundTrip("");
      QuoteHasNoLineBreak("");
      Quote("")
    else
      match v
      case Str(s) =>
        QuoteRoundTrip(s);
        QuoteHasNoLineBreak(s);
        Quote(s)
      case Num(n) =>
        IntToStringRoundTrip(n);
        IntToString(n)
      case Missing => Quote("")
  }

  function KeyOf(e: (string, Value)): string
  {
    e.0
  }

  function ValueCell(e: (string, Value)): string
  {
    Cell(e.1)
  }

  /** `Object.keys(row)` */
  function Keys(row: Row): seq<string>
  {
    MapSeq(KeyOf, row)
  }

  predicate DistinctKeys(keys: seq<string>)
  {
    forall i, j :: 0 <= i < j < |keys| ==> keys[i] != keys[j]
  }

  /** `row[k]`: the value of the first field named `k`, or `undefined`. */
  function Lookup(row: Row, k: string): (v: Value)
    ensures (forall i :: 0 <= i < |row| ==> row[i].0 != k) ==> v == Missing
    ensures forall i :: 0 <= i < |row| && row[i].0 == k && (forall j :: 0 <= j < i ==> row[j].0 != k) ==> v == row[i].1
  {
    if row == [] then Missing
    else if row[0].0 == k then row[0].1
    else Lookup(row[1..], k)
  }

  function CellOf(row: Row): string -> string
  {
    h => Cell(Lookup(row, h))
  }

  /** One data line: the row's values under the given headers. */
  function Line(headers: seq<string>, row: Row): string
  {
    Join(MapSeq(CellOf(row), headers), ",")
  }

  function LineOf(headers: seq<string>): Row -> string
  {
    row => Line(headers, row)
  }

  /** `exportToCSV`: nothing for no rows ("No data to export"); otherwise the
      first row's field names, then one line per row. */
  function Csv(rows: seq<Row>): (r: Option<string>)
    ensures r.None? <==> rows == []
  {
    if rows == [] then None
    else
      var headers := Keys(rows[0]);
      Some(Join([Join(headers, ",")] + MapSeq(LineOf(headers), rows), "\n"))
  }

  lemma LineHasNoLineBreak(headers: seq<string>, row: Row)
    ensures '\n' !in Line(headers, row)
  {
    JoinWithout(MapSeq(CellOf(row), headers), ",", '\n');
  }

  /** Read back by lines, the export is the header line and one line per
      row, in the order of the rows. */
  lemma CsvLines(rows: seq<Row>)
    requires rows != []
    requires forall i :: 0 <= i < |rows[0]| ==> '\n' !in rows[0][i].0
    ensures var lines := Split(Csv(rows).value, '\n');
      |lines| == |rows| + 1
      && lines[0] == Join(Keys(rows[0]), ",")
      && forall i :: 0 <= i < |rows| ==> lines[i + 1] == Line(Keys(rows[0]), rows[i])
  {
    var headers := Keys(rows[0]);
    var body := MapSeq(LineOf(headers), rows);
    var xs := [Join(headers, ",")] + body;
    JoinWithout(headers, ",", '\n');
    forall i | 0 <= i < |body|
      ensures '\n' !in body[i]
    {
      LineHasNoLineBreak(headers, rows[i]);
    }
    assert Csv(rows) == Some(Join(xs, "\n"));
    SplitJoin(xs, '\n');
  }

  /** A row that has exactly the header fields, each once, is written as its
      own values in its own field order. */
  lemma LineOfOwnFields(headers: seq<string>, row: Row)
    requires Keys(row) == headers && DistinctKeys(headers)
    ensures Line(headers, row) == Join(MapSeq(ValueCell, row), ",")
  {
    var a, b := MapSeq(CellOf(row), headers), MapSeq(ValueCell, row);
    forall i | 0 <= i < |a|
      ensures a[i] == b[i]
    {
      LookupOwnField(row, i);
    }
    assert a == b;
  }

  lemma LookupOwnField(row: Row, i: int)
    requires 0 <= i < |row| && DistinctKeys(Keys(row))
    ensures Lookup(row, row[i].0) == row[i].1
  {
    var keys := Keys(row);
    forall j | 0 <= j < i
      ensures row[j].0 != row[i].0
    {
      assert keys[j] == row[j].0 && keys[i] == row[i].0;
    }
  }

  /** Headers that name each field once and hold no separator. */
  predicate GoodHeaders(headers: seq<string>)
  {
    headers != [] && DistinctKeys(headers)
    && forall i :: 0 <= i < |headers| ==> '\n' !in headers[i] && ',' !in headers[i]
  }

  /** An export of rows that share their distinct field names: the first
      line lists the names, and line i + 1 holds the values of row i in
      field order. */
  lemma UniformExport(rows: seq<Row>, headers: seq<string>)
    requires rows != []
    requires forall i :: 0 <= i < |rows| ==> Keys(rows[i]) == headers
    requires GoodHeaders(headers)
    ensures var lines := Split(Csv(rows).value, '\n');
      |lines| == |rows| + 1
      && Split(lines[0], ',') == headers
      && forall i :: 0 <= i < |rows| ==> lines[i + 1] == Join(MapSeq(ValueCell, rows[i]), ",")
  {
    assert Keys(rows[0]) == headers;
    forall i | 0 <= i < |rows[0]|
      ensures '\n' !in rows[0][i].0
    {
      assert headers[i] == rows[0][i].0;
    }
    CsvLines(rows);
    SplitJoin(headers, ',');
    forall i | 0 <= i < |rows|
      ensures Line(headers, rows[i]) == Join(MapSeq(ValueCell, rows[i]), ",")
    {
      LineOfOwnFields(headers, rows[i]);
    }
  }

  // ---------------------------------------------------------------------
  // The four exports' rows.

  const MemberHeaders: seq<string> := ["Name", "Email", "Phone", "Duration", "Status", "JoinDate", "ExpiryDate"]

  function MemberRow(m: Member): (r: Row)
    ensures Keys(r) == MemberHeaders
  {
    [("Name", Str(m.name)), ("Email", Str(m.email)), ("Phone", Str(m.phone)),
     ("Duration", Str(IntToString(m.plan_duration) + " months")),
     ("Status", Str(StatusText(m.status))),
     ("JoinDate", Str(DateText(m.joining_date))), ("ExpiryDate", Str(DateText(m.expiry_date)))]
  }

  function PaymentStatusValue(st: PaymentStatus): Value
  {
    match st
    case Completed => Str("completed")
    case Pending => Str("pending")
    case Failed => Str("failed")
    case NoStatus => Missing
  }

  const PaymentHeaders: seq<string> := ["MemberName", "Amount", "Date", "Mode", "Status"]

  function PaymentRow(p: Payment): (r: Row)
    ensures Keys(r) == PaymentHeaders
  {
    [("MemberName", Str(p.member_name)), ("Amount", Num(p.amount)), ("Date", Str(p.payment_date)),
     ("Mode", Str(p.payment_method)), ("Status", PaymentStatusValue(p.status))]
  }

  const PlanHeaders: seq<string> := ["Name", "Price", "Duration", "Features"]

  function PlanRow(p: Plan): (r: Row)
    ensures Keys(r) == PlanHeaders
  {
    [("Name", Str(p.name)), ("Price", Num(p.price)),
     ("Duration", Str(IntToString(p.duration) + " days")),
     ("Features", Str(Join(p.features, "; ")))]
  }

  const RevenueHeaders: seq<string> := ["Month", "Revenue"]

  function RevenueRow(e: (string, int)): (r: Row)
    ensures Keys(r) == RevenueHeaders
  {
    [("Month", Str(e.0)), ("Revenue", Num(e.1))]
  }

  /** An export of records shaped by `f`, which gives every record the same
      headers, has a line per record under those headers, or is refused
      when there are no records. */
  lemma ShapedExport<T>(f: T -> Row, xs: seq<T>, headers: seq<string>)
    requires forall x :: Keys(f(x)) == headers
    requires GoodHeaders(headers)
    ensures Csv(MapSeq(f, xs)).None? <==> xs == []
    ensures xs != [] ==> var lines := Split(Csv(MapSeq(f, xs)).value, '\n');
      |lines| == |xs| + 1 && Split(lines[0], ',') == headers
      && forall i :: 0 <= i < |xs| ==> lines[i + 1] == Join(MapSeq(ValueCell, f(xs[i])), ",")
  {
    if xs != [] {
      UniformExport(MapSeq(f, xs), headers);
    }
  }

  lemma MemberHeadersGood()
    ensures GoodHeaders(MemberHeaders)
  {
  }

  lemma PaymentHeadersGood()
    ensures GoodHeaders(PaymentHeaders)
  {
  }

  lemma PlanHeadersGood()
    ensures GoodHeaders(PlanHeaders)
  {
  }

  lemma RevenueHeadersGood()
    ensures GoodHeaders(RevenueHeaders)
  {
  }

  // ---------------------------------------------------------------------
  // Reading the cells of a row back.

  /** The cell decodes to a numeral followed by `unit`, and the numeral reads
      as `n`: the "N months" and "N days" columns. */
  predicate ReadsAsCount(cell: string, unit: string, n: int)
  {
    var t := Unquote(cell);
    t.Some? && |t.value| >= |unit| && t.value[|t.value| - |unit|..] == unit
    && ParseInt(t.value[..|t.value| - |unit|]) == Some(n)
  }

  lemma CountCell(n: int, unit: string)
    ensures ReadsAsCount(Cell(Str(IntToString(n) + unit)), unit, n)
  {
    var t := IntToString(n) + unit;
    assert Unquote(Cell(Str(t))) == Some(t);
    assert t[..|t| - |unit|] == IntToString(n) && t[|t| - |unit|..] == unit;
    IntToStringRoundTrip(n);
  }

  /** A date cell reads back as the date, for a date of the years 0-9999. */
  predicate ReadsAsDate(cell: string, d: CalDate)
  {
    Unquote(cell).Some? && ParseDate(Unquote(cell).value) == Some(d)
  }

  lemma DateCell(d: CalDate)
    requires IsValid(d) && 0 <= d.year <= 9999
    ensures ReadsAsDate(Cell(Str(DateText(d))), d)
  {
    DateTextRoundTrip(d);
  }

  /** In a record whose field names are `headers`, looking up the i-th name
      finds the i-th value. */
  lemma FieldAt(row: Row, headers: seq<string>, i: int)
    requires Keys(row) == headers && GoodHeaders(headers) && 0 <= i < |row|
    ensures Lookup(row, headers[i]) == row[i].1
  {
    assert headers[i] == row[i].0;
    LookupOwnField(row, i);
  }

  /** Each cell of a member's line reads back as the member's field: the
      texts as they are, the plan length as "N months", the dates as dates. */
  lemma MemberCells(m: Member)
    ensures var row := MemberRow(m);
      && Unquote(Cell(Lookup(row, "Name"))) == Some(m.name)
      && Unquote(Cell(Lookup(row, "Email"))) == Some(m.email)
      && Unquote(Cell(Lookup(row, "Phone"))) == Some(m.phone)
      && ReadsAsCount(Cell(Lookup(row, "Duration")), " months", m.plan_duration)
      && Unquote(Cell(Lookup(row, "Status"))) == Some(StatusText(m.status))
      && (IsValid(m.joining_date) && 0 <= m.joining_date.year <= 9999 ==> ReadsAsDate(Cell(Lookup(row, "JoinDate")), m.joining_date))
      && (IsValid(m.expiry_date) && 0 <= m.expiry_date.year <= 9999 ==> ReadsAsDate(Cell(Lookup(row, "ExpiryDate")), m.expiry_date))
  {
    var row := MemberRow(m);
    MemberHeadersGood();
    FieldAt(row, MemberHeaders, 0);
    FieldAt(row, MemberHeaders, 1);
    FieldAt(row, MemberHeaders, 2);
    FieldAt(row, MemberHeaders, 3);
    FieldAt(row, MemberHeaders, 4);
    FieldAt(row, MemberHeaders, 5);
    FieldAt(row, MemberHeaders, 6);
    CountCell(m.plan_duration, " months");
    if IsValid(m.joining_date) && 0 <= m.joining_date.year <= 9999 {
      DateCell(m.joining_date);
    }
    if IsValid(m.expiry_date) && 0 <= m.expiry_date.year <= 9999 {
      DateCell(m.expiry_date);
    }
  }

  /** Each cell of a payment's line reads back as the payment's field; an
      amount of 0 and a missing status are written as an empty text cell. */
  lemma PaymentCells(p: Payment)
    ensures var row := PaymentRow(p);
      && Unquote(Cell(Lookup(row, "MemberName"))) == Some(p.member_name)
      && (p.amount != 0 ==> ParseInt(Cell(Lookup(row, "Amount"))) == Some(p.amount))
      && (p.amount == 0 ==> Cell(Lookup(row, "Amount")) == Quote(""))
      && Unquote(Cell(Lookup(row, "Date"))) == Some(p.payment_date)
      && Unquote(Cell(Lookup(row, "Mode"))) == Some(p.payment_method)
      && (p.status == NoStatus ==> Cell(Lookup(row, "Status")) == Quote(""))
      && (p.status == Completed ==> Unquote(Cell(Lookup(row, "Status"))) == Some("completed"))
      && (p.status == Pending ==> Unquote(Cell(Lookup(row, "Status"))) == Some("pending"))
      && (p.status == Failed ==> Unquote(Cell(Lookup(row, "Status"))) == Some("failed"))
  {
    var row := PaymentRow(p);
    PaymentHeadersGood();
    FieldAt(row, PaymentHeaders, 0);
    FieldAt(row, PaymentHeaders, 1);
    FieldAt(row, PaymentHeaders, 2);
    FieldAt(row, PaymentHeaders, 3);
    FieldAt(row, PaymentHeaders, 4);
  }

  /** Each cell of a plan's line reads back as the plan's field: the length
      as "N days" and the features as their "; "-joined text. */
  lemma PlanCells(p: Plan)
    ensures var row := PlanRow(p);
      && Unquote(Cell(Lookup(row, "Name"))) == Some(p.name)
      && (p.price != 0 ==> ParseInt(Cell(Lookup(row, "Price"))) == Some(p.price))
      && (p.price == 0 ==> Cell(Lookup(row, "Price")) == Quote(""))
      && ReadsAsCount(Cell(Lookup(row, "Duration")), " days", p.duration)
      && Unquote(Cell(Lookup(row, "Features"))) == Some(Join(p.features, "; "))
  {
    var row := PlanRow(p);
    PlanHeadersGood();
    FieldAt(row, PlanHeaders, 0);
    FieldAt(row, PlanHeaders, 1);
    FieldAt(row, PlanHeaders, 2);
    FieldAt(row, PlanHeaders, 3);
    CountCell(p.duration, " days");
  }

  /** The members export: one line per member under the seven headers. */
  lemma MembersExport(ms: seq<Member>)
    ensures Csv(MapSeq(MemberRow, ms)).None? <==> ms == []
    ensures ms != [] ==> var lines := Split(Csv(MapSeq(MemberRow, ms)).value, '\n');
      |lines| == |ms| + 1 && Split(lines[0], ',') == MemberHeaders
      && forall i :: 0 <= i < |ms| ==> lines[i + 1] == Join(MapSeq(ValueCell, MemberRow(ms[i])), ",")
  {
    MemberHeadersGood();
    ShapedExport(MemberRow, ms, MemberHeaders);
  }

  lemma PaymentsExport(ps: seq<Payment>)
    ensures Csv(MapSeq(PaymentRow, ps)).None? <==> ps == []
    ensures ps != [] ==> var lines := Split(Csv(MapSeq(PaymentRow, ps)).value, '\n');
      |lines| == |ps| + 1 && Split(lines[0], ',') == PaymentHeaders
      && forall i :: 0 <= i < |ps| ==> lines[i + 1] == Join(MapSeq(ValueCell, PaymentRow(ps[i])), ",")
  {
    PaymentHeadersGood();
    ShapedExport(PaymentRow, ps, PaymentHeaders);
  }

  lemma PlansExport(pl: seq<Plan>)
    ensures Csv(MapSeq(PlanRow, pl)).None? <==> pl == []
    ensures pl != [] ==> var lines := Split(Csv(MapSeq(PlanRow, pl)).value, '\n');
      |lines| == |pl| + 1 && Split(lines[0], ',') == PlanHeaders
      && forall i :: 0 <= i < |pl| ==> lines[i + 1] == Join(MapSeq(ValueCell, PlanRow(pl[i])), ",")
  {
    PlanHeadersGood();
    ShapedExport(PlanRow, pl, PlanHeaders);
  }

  // ---------------------------------------------------------------------
  // Monthly revenue: completed payments grouped by the first seven
  // characters ("YYYY-MM") of their date, months in order of first
  // appearance, as the insertion order of a JavaScript object lists them.

  /** `dateStr.substring(0, 7)` */
  function MonthOf(p: Payment): string
  {
    Take(PaymentDay(p), 7)
  }

  /** The distinct months of the payments, in order of first appearance. */
  function Months(ps: seq<Payment>): seq<string>
  {
    if ps == [] then []
    else
      var earlier := Months(ps[..|ps| - 1]);
      var k := MonthOf(ps[|ps| - 1]);
      if k in earlier then earlier else earlier + [k]
  }

  /** The sum of the amounts of the payments of month `k`. */
  function MonthTotal(ps: seq<Payment>, k: string): int
  {
    if ps == [] then 0
    else MonthTotal(ps[..|ps| - 1], k) + (if MonthOf(ps[|ps| - 1]) == k then ps[|ps| - 1].amount else 0)
  }

  function EntryOf(ps: seq<Payment>): string -> (string, int)
  {
    k => (k, MonthTotal(ps, k))
  }

  function Revenue(e: (string, int)): int
  {
    e.1
  }

  function CompletedPayments(payments: seq<Payment>): seq<Payment>
  {
    Filter(HasPaymentStatus(Completed), payments)
  }

  /** The rows of the revenue export before they are written: one entry
      per month of a completed payment, with that month's total. */
  function RevenueEntries(payments: seq<Payment>): seq<(string, int)>
  {
    var done := CompletedPayments(payments);
    MapSeq(EntryOf(done), Months(done))
  }

  /** `handleExportRevenue` up to the writing: the running totals, then the
      table of months and totals. */
  method MonthlyRevenue(payments: seq<Payment>) returns (entries: seq<(string, int)>)
    ensures entries == RevenueEntries(payments)
  {
    var done := CompletedPayments(payments);
    var totals, order := MonthTotals(done);
    entries := [];
    var j := 0;
    while j < |order|
      invariant 0 <= j <= |order|
      invariant entries == MapSeq(EntryOf(done), order[..j])
    {
      assert order[..j + 1] == order[..j] + [order[j]];
      MapConcat(EntryOf(done), order[..j], [order[j]]);
      entries := entries + [(order[j], totals[order[j]])];
      j := j + 1;
    }
    assert order[..j] == order;
  }

  /** The `forEach` pass: adds each amount to its month's running total,
      opening the month on its first payment. */
  method MonthTotals(done: seq<Payment>) returns (totals: map<string, int>, order: seq<string>)
    ensures order == Months(done)
    ensures forall k :: k in totals <==> k in order
    ensures forall k :: k in totals ==> totals[k] == MonthTotal(done, k)
  {
    totals, order := map[], [];
    var i := 0;
    while i < |done|
      invariant 0 <= i <= |done|
      invariant order == Months(done[..i])
      invariant forall k :: k in totals <==> k in order
      invariant forall k :: k in totals ==> totals[k] == MonthTotal(done[..i], k)
    {
      var p := done[i];
      var month := MonthOf(p);
      MonthsStep(done, i);
      MonthTotalStep(done, i);
      if month in totals {
        totals := totals[month := totals[month] + p.amount];
      } else {
        MonthTotalAbsent(done[..i], month);
        totals := totals[month := p.amount];
        order := order + [month];
      }
      i := i + 1;
    }
    assert done[..i] == done;
  }

  lemma MonthsStep(ps: seq<Payment>, i: int)
    requires 0 <= i < |ps|
    ensures Months(ps[..i + 1]) == if MonthOf(ps[i]) in Months(ps[..i]) then Months(ps[..i]) else Months(ps[..i]) + [MonthOf(ps[i])]
  {
    assert ps[..i + 1][..i] == ps[..i];
  }

  lemma MonthTotalStep(ps: seq<Payment>, i: int)
    requires 0 <= i < |ps|
    ensures forall k :: MonthTotal(ps[..i + 1], k) == MonthTotal(ps[..i], k) + (if MonthOf(ps[i]) == k then ps[i].amount else 0)
  {
    assert ps[..i + 1][..i] == ps[..i];
  }

  /** `handleExportRevenue`: the revenue table written as the export is. */
  method ExportRevenue(payments: seq<Payment>) returns (csv: Option<string>)
    ensures csv == Csv(MapSeq(RevenueRow, RevenueEntries(payments)))
  {
    var entries := MonthlyRevenue(payments);
    csv := Csv(MapSeq(RevenueRow, entries));
  }

  lemma {:induction false} MonthTotalAbsent(ps: seq<Payment>, k: string)
    requires k !in Months(ps)
    ensures MonthTotal(ps, k) == 0
  {
    if ps != [] {
      MonthTotalAbsent(ps[..|ps| - 1], k);
    }
  }

  /** No month appears twice. */
  lemma {:induction false} MonthsDistinct(ps: seq<Payment>)
    ensures DistinctKeys(Months(ps))
  {
    if ps != [] {
      MonthsDistinct(ps[..|ps| - 1]);
    }
  }

  /** The months are exactly those of the payments. */
  lemma {:induction false} MonthsCover(ps: seq<Payment>, k: string)
    ensures k in Months(ps) <==> exists i :: 0 <= i < |ps| && MonthOf(ps[i]) == k
  {
    if ps != [] {
      var init := ps[..|ps| - 1];
      MonthsCover(init, k);
      if exists i :: 0 <= i < |init| && MonthOf(init[i]) == k {
        var i :| 0 <= i < |init| && MonthOf(init[i]) == k;
        assert ps[i] == init[i];
      }
      if exists i :: 0 <= i < |ps| && MonthOf(ps[i]) == k {
        var i :| 0 <= i < |ps| && MonthOf(ps[i]) == k;
        if i < |init| {
          assert init[i] == ps[i];
        }
      }
    }
  }

  function InMonth(k: string): Payment -> bool
  {
    (p: Payment) => MonthOf(p) == k
  }

  /** A month's total is the sum over that month's payments. */
  lemma {:induction false} MonthTotalIsSum(ps: seq<Payment>, k: string)
    ensures MonthTotal(ps, k) == SumBy(Filter(InMonth(k), ps), Amount)
  {
    if ps != [] {
      var init, last := ps[..|ps| - 1], ps[|ps| - 1];
      MonthTotalIsSum(init, k);
      assert ps == init + [last];
      var f := Filter(InMonth(k), init);
      var g := Filter(InMonth(k), [last]);
      FilterConcat(InMonth(k), init, [last]);
      SumConcat(f, g, Amount);
      FilterSingle(InMonth(k), last);
    }
  }

  /** The totals of the months in `keys`, summed. */
  function KeysTotal(ps: seq<Payment>, keys: seq<string>): int
  {
    if keys == [] then 0 else KeysTotal(ps, keys[..|keys| - 1]) + MonthTotal(ps, keys[|keys| - 1])
  }

  lemma {:induction false} KeysTotalIsSum(ps: seq<Payment>, keys: seq<string>)
    ensures SumBy(MapSeq(EntryOf(ps), keys), Revenue) == KeysTotal(ps, keys)
  {
    if keys != [] {
      var init := keys[..|keys| - 1];
      KeysTotalIsSum(ps, init);
      assert keys == init + [keys[|keys| - 1]];
      MapConcat(EntryOf(ps), init, [keys[|keys| - 1]]);
      SumConcat(MapSeq(EntryOf(ps), init), MapSeq(EntryOf(ps), [keys[|keys| - 1]]), Revenue);
    }
  }

  /** One more payment adds its amount to exactly one of distinct months,
      when its month is among them. */
  lemma {:induction false} KeysTotalSnoc(ps: seq<Payment>, p: Payment, keys: seq<string>)
    requires DistinctKeys(keys)
    ensures KeysTotal(ps + [p], keys) == KeysTotal(ps, keys) + (if MonthOf(p) in keys then p.amount else 0)
  {
    if keys != [] {
      var init := keys[..|keys| - 1];
      assert DistinctKeys(init);
      KeysTotalSnoc(ps, p, init);
      assert (ps + [p])[..|ps|] == ps;
      assert MonthOf(p) in keys <==> MonthOf(p) in init || MonthOf(p) == keys[|keys| - 1];
      assert keys[|keys| - 1] !in init;
    }
  }

  lemma {:induction false} MonthsTotalIsSum(ps: seq<Payment>)
    ensures KeysTotal(ps, Months(ps)) == SumBy(ps, Amount)
  {
    if ps != [] {
      var init, last := ps[..|ps| - 1], ps[|ps| - 1];
      var m := Months(init);
      MonthsTotalIsSum(init);
      MonthsDistinct(init);
      assert ps == init + [last];
      KeysTotalSnoc(init, last, m);
      SumConcat(init, [last], Amount);
      if MonthOf(last) !in m {
        assert (m + [MonthOf(last)])[..|m|] == m;
        MonthTotalAbsent(init, MonthOf(last));
      }
    }
  }

  /** The revenue table accounts for every completed amount and nothing
      else: its totals add up to the completed total. */
  lemma RevenueSum(payments: seq<Payment>)
    ensures SumBy(RevenueEntries(payments), Revenue) == TotalWithStatus(payments, Completed)
  {
    var done := CompletedPayments(payments);
    KeysTotalIsSum(done, Months(done));
    MonthsTotalIsSum(done);
  }

  /** Each entry names a distinct month of a completed payment, every such
      month has an entry, and its total is the sum of that month's
      completed payments. */
  lemma RevenueEntriesSpec(payments: seq<Payment>)
    ensures var r := RevenueEntries(payments);
      (forall i, j :: 0 <= i < j < |r| ==> r[i].0 != r[j].0)
      && (forall i :: 0 <= i < |r| ==> r[i].1 == SumBy(Filter(InMonth(r[i].0), CompletedPayments(payments)), Amount))
  {
    var done := CompletedPayments(payments);
    var r := RevenueEntries(payments);
    MonthsDistinct(done);
    forall i | 0 <= i < |r|
      ensures r[i].1 == SumBy(Filter(InMonth(r[i].0), done), Amount)
    {
      MonthTotalIsSum(done, r[i].0);
    }
  }

  lemma RevenueMonthsCover(payments: seq<Payment>, k: string)
    ensures (exists i :: 0 <= i < |RevenueEntries(payments)| && RevenueEntries(payments)[i].0 == k)
        <==> (exists p :: p in payments && p.status == Completed && MonthOf(p) == k)
  {
    var done := CompletedPayments(payments);
    var r := RevenueEntries(payments);
    MonthsCover(done, k);
    if exists i :: 0 <= i < |r| && r[i].0 == k {
      var i :| 0 <= i < |r| && r[i].0 == k;
      assert k in Months(done);
      var j :| 0 <= j < |done| && MonthOf(done[j]) == k;
      FilterKeeps(HasPaymentStatus(Completed), payments, done[j]);
    }
    if exists p :: p in payments && p.status == Completed && MonthOf(p) == k {
      var p :| p in payments && p.status == Completed && MonthOf(p) == k;
      FilterKeeps(HasPaymentStatus(Completed), payments, p);
      var j :| 0 <= j < |done| && done[j] == p;
      assert k in Months(done);
      var i :| 0 <= i < |Months(done)| && Months(done)[i] == k;
      assert r[i].0 == k;
    }
  }
}
