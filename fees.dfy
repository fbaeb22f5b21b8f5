/** The computation of `fees_report`: the ledger rows after the first are
    charged 0.25 per day late, the charges are summed per patron in a
    dictionary that keeps first-appearance order, and each total is
    rendered with two decimals.  Fees are counted in whole quarters, so the
    float sums of `fees_report` (multiples of 0.25) are exact here. */
module Fees {
  import opened Runtime
  import opened Decimal
  import opened Calendar
  import opened DateText

  /** One ledger line, read under the fixed field names
      book_uid, isbn_13, patron_id, date_checkout, date_due, date_returned. */
  datatype Row = Row(
    bookUid: string,
    isbn13: string,
    patronId: string,
    dateCheckout: string,
    dateDue: string,
    dateReturned: string)

  /** One line of the report: the `patron_id` and `late_fees` columns. */
  datatype FeeLine = FeeLine(patronId: string, lateFees: string)

  /** `(date_returned - date_due).days` with both dates read as `mm/dd/yyyy`;
      None when either one makes `strptime` raise ValueError. */
  function DaysLate(row: Row): (r: Option<int>)
  {
    match ParseUs(row.dateDue)
    case None => None
    case Some(due) =>
      match ParseUs(row.dateReturned)
      case None => None
      case Some(returned) => Some(DaysBetween(due, returned))
  }

  /** A row's lateness is defined exactly when both its dates parse; it is
      the shift that takes the due date to the return date, and it is
      positive exactly when the book came back after the due date. */
  lemma DaysLateMeaning(row: Row)
    ensures DaysLate(row).Some? <==> ParseUs(row.dateDue).Some? && ParseUs(row.dateReturned).Some?
    ensures DaysLate(row).Some? ==>
      var due, returned := ParseUs(row.dateDue).value, ParseUs(row.dateReturned).value;
      && AddDays(due, DaysLate(row).value) == Some(returned)
      && (DaysLate(row).value > 0 <==> Before(due, returned))
  {
    if DaysLate(row).Some? {
      var due, returned := ParseUs(row.dateDue).value, ParseUs(row.dateReturned).value;
      AddDaysBetween(due, returned);
      DaysBetweenSign(due, returned);
    }
  }

  /** A row whose two dates are written as `mm/dd/yyyy` is late by the
      days between them. */
  lemma DaysLateOfRenderings(row: Row, due: Date, returned: Date)
    requires ValidDate(due) && ValidDate(returned)
    requires row.dateDue == FormatUs(due) && row.dateReturned == FormatUs(returned)
    ensures DaysLate(row) == Some(DaysBetween(due, returned))
  {
    UsRoundTrip(due);
    UsRoundTrip(returned);
  }

  /** The charge for one return in quarters: 0.25 per day late, nothing
      for a return on or before the due date. */
  function LateFee(daysLate: int): nat {
    if daysLate > 0 then daysLate else 0
  }

  /** What the fee computation keeps of a row: its patron and its lateness. */
  datatype Entry = Entry(patronId: string, daysLate: int)

  /** The entry of one row, or the ValueError of a date that does not parse. */
  function ReadEntry(row: Row): Result<Entry> {
    match DaysLate(row)
    case None => Failure(ValueError)
    case Some(late) => Success(Entry(row.patronId, late))
  }

  /** The entries of the rows in order, or the exception of the first row
      whose dates do not parse. */
  function Ledger(rows: seq<Row>): Result<seq<Entry>> {
    MapAll(rows, ReadEntry)
  }

  /** The ledger exists exactly when every row's dates parse, and then it
      pairs each row's patron with that row's lateness; otherwise reading
      it raises ValueError. */
  lemma LedgerMeaning(rows: seq<Row>)
    ensures Ledger(rows).Success? <==> forall i :: 0 <= i < |rows| ==> DaysLate(rows[i]).Some?
    ensures Ledger(rows).Success? ==> |Ledger(rows).value| == |rows|
    ensures Ledger(rows).Success? ==> forall i :: 0 <= i < |rows| ==>
      Ledger(rows).value[i] == Entry(rows[i].patronId, DaysLate(rows[i]).value)
    ensures Ledger(rows).Failure? ==> Ledger(rows).error == ValueError
  {
    MapAllSucceeds(rows, ReadEntry);
    if Ledger(rows).Failure? {
      MapAllFails(rows, ReadEntry);
    }
  }

  /** The patron ids of `es` in order of first appearance: the keys of the
      accumulating dictionary. */
  function Patrons(es: seq<Entry>): seq<string> {
    if es == [] then []
    else
      var before := Patrons(es[..|es| - 1]);
      var p := es[|es| - 1].patronId;
      if p in before then before else before + [p]
  }

  /** Every patron with an entry is listed, nobody else is, and nobody twice. */
  lemma {:induction false} PatronsListEachOnce(es: seq<Entry>)
    ensures forall p :: p in Patrons(es) <==> exists i :: 0 <= i < |es| && es[i].patronId == p
    ensures forall i, j :: 0 <= i < j < |Patrons(es)| ==> Patrons(es)[i] != Patrons(es)[j]
  {
    if es != [] {
      var front := es[..|es| - 1];
      PatronsListEachOnce(front);
      assert forall i :: 0 <= i < |es| - 1 ==> es[i] == front[i];
    }
  }

  /** The total of a patron's charges over `es`, in quarters. */
  function Total(es: seq<Entry>, p: string): nat {
    if es == [] then 0
    else
      var last := es[|es| - 1];
      Total(es[..|es| - 1], p) + (if last.patronId == p then LateFee(last.daysLate) else 0)
  }

  /** A patron's running total never decreases as more rows are processed. */
  lemma {:induction false} TotalNeverDecreases(es: seq<Entry>, p: string, i: nat, j: nat)
    requires i <= j <= |es|
    ensures Total(es[..i], p) <= Total(es[..j], p)
    decreases j - i
  {
    if i < j {
      TotalNeverDecreases(es, p, i, j - 1);
      assert es[..j][..j - 1] == es[..j - 1];
    }
  }

  /** A patron owes nothing exactly when none of their returns was late. */
  lemma {:induction false} TotalZeroIffOnTime(es: seq<Entry>, p: string)
    ensures Total(es, p) == 0 <==>
      forall i :: 0 <= i < |es| && es[i].patronId == p ==> es[i].daysLate <= 0
  {
    if es != [] {
      var front := es[..|es| - 1];
      assert forall i :: 0 <= i < |front| ==> front[i] == es[i];
      TotalZeroIffOnTime(front, p);
    }
  }

  /** The index of the first entry of patron `p` (|es| when there is none). */
  function FirstIndex(es: seq<Entry>, p: string): (k: nat)
    ensures k <= |es|
    ensures k < |es| ==> es[k].patronId == p
    ensures forall i :: 0 <= i < k ==> es[i].patronId != p
  {
    if es == [] then 0
    else if es[0].patronId == p then 0
    else 1 + FirstIndex(es[1..], p)
  }

  lemma FirstIndexOfPrefix(es: seq<Entry>, n: nat, p: string)
    requires n <= |es| && FirstIndex(es[..n], p) < n
    ensures FirstIndex(es, p) == FirstIndex(es[..n], p)
  {
    var b := FirstIndex(es[..n], p);
    assert es[b].patronId == p;
  }

  /** The report lists patrons in the order of their first rows. */
  lemma {:induction false} PatronsInFirstAppearanceOrder(es: seq<Entry>)
    ensures forall i, j :: 0 <= i < j < |Patrons(es)| ==>
      FirstIndex(es, Patrons(es)[i]) < FirstIndex(es, Patrons(es)[j]) < |es|
  {
    if es != [] {
      var n := |es| - 1;
      var front := es[..n];
      var before := Patrons(front);
      PatronsInFirstAppearanceOrder(front);
      PatronsListEachOnce(front);
      assert forall i :: 0 <= i < n ==> front[i] == es[i];
      forall q | q in before
        ensures FirstIndex(es, q) == FirstIndex(front, q) < n
      {
        var k :| 0 <= k < n && front[k].patronId == q;
        assert FirstIndex(front, q) <= k;
        FirstIndexOfPrefix(es, n, q);
      }
      if es[n].patronId !in before {
        assert FirstIndex(es, es[n].patronId) == n;
      }
    }
  }

  /** The state of the accumulating `defaultdict` after the entries `es`:
      its keys, in insertion order, are the patrons of `es`, and each
      patron's value is their total. */
  ghost predicate Accumulated(es: seq<Entry>, order: seq<string>, fees: map<string, nat>) {
    && order == Patrons(es)
    && (forall p :: p in fees <==> p in order)
    && (forall p :: p in fees ==> fees[p] == Total(es, p))
  }

  /** One update of the insertion-ordered accumulator keeps its keys equal
      to the patrons seen so far and its values equal to their totals. */
  lemma AccumulateStep(es: seq<Entry>, e: Entry, order: seq<string>, fees: map<string, nat>)
    requires Accumulated(es, order, fees)
    ensures Accumulated(es + [e],
      if e.patronId in fees then order else order + [e.patronId],
      fees[e.patronId := (if e.patronId in fees then fees[e.patronId] else 0) + LateFee(e.daysLate)])
  {
    var all := es + [e];
    var p0 := e.patronId;
    var fees' := fees[p0 := (if p0 in fees then fees[p0] else 0) + LateFee(e.daysLate)];
    assert all[..|all| - 1] == es;
    assert Patrons(all) == if p0 in order then order else order + [p0];
    if p0 !in order {
      TotalOfAbsent(es, p0);
    }
    assert Total(all, p0) == Total(es, p0) + LateFee(e.daysLate);
    forall p | p in fees' ensures fees'[p] == Total(all, p) {
      if p != p0 {
        assert Total(all, p) == Total(es, p);
      }
    }
  }

  /** A patron with no entry owes nothing. */
  lemma {:induction false} TotalOfAbsent(es: seq<Entry>, p: string)
    requires p !in Patrons(es)
    ensures Total(es, p) == 0
  {
    if es != [] {
      TotalOfAbsent(es[..|es| - 1], p);
    }
  }

  /** `f'{q * 0.25:0.2f}'`: whole currency units, a point, and the cents,
      which are 00, 25, 50 or 75. */
  function FormatFee(q: nat): string {
    NatToString(q / 4) + "." + Two(q % 4 * 25)
  }

  /** The rendered fee has exactly two decimals and denotes `q` quarters. */
  lemma FormatFeeDenotes(q: nat)
    ensures var s := FormatFee(q);
      && |s| >= 4 && s[|s| - 3] == '.'
      && AllDigits(s[..|s| - 3]) && IsDigit(s[|s| - 2]) && IsDigit(s[|s| - 1])
      && DigitsValue(s[..|s| - 3]) * 100 + Num2(s[|s| - 2], s[|s| - 1]) == 25 * q
      && (|s| > 4 ==> s[0] != '0')
  {
    var s := FormatFee(q);
    var whole, cents := NatToString(q / 4), Two(q % 4 * 25);
    assert s[..|s| - 3] == whole;
    assert s[|s| - 2] == cents[0] && s[|s| - 1] == cents[1];
    NatToStringValue(q / 4);
    TwoRoundTrip(q % 4 * 25);
  }

  /** The two `strptime` calls and the subtraction for row `i`: its
      lateness, which extends the entries read so far, or None, when
      reading the ledger raises at this row (ValueError, by `LedgerMeaning`). */
  method ReadRow(rows: seq<Row>, i: nat, ghost es: seq<Entry>) returns (late: Option<int>)
    requires i < |rows| && MapsTo(rows[..i], ReadEntry, es)
    ensures late.None? ==> Ledger(rows).Failure?
    ensures late.Some? ==> MapsTo(rows[..i + 1], ReadEntry, es + [Entry(rows[i].patronId, late.value)])
  {
    var row := rows[i];
    assert forall k :: 0 <= k < i ==> rows[k] == rows[..i][k];
    var due := ParseUs(row.dateDue);
    if due.None? {
      MapAllFirstFailure(rows, ReadEntry, i);
      return None;
    }
    var returned := ParseUs(row.dateReturned);
    if returned.None? {
      MapAllFirstFailure(rows, ReadEntry, i);
      return None;
    }
    late := Some(DaysBetween(due.value, returned.value));
    MapsToExtend(rows, ReadEntry, i, es);
  }

  /** `fees_report` from the rows `DictReader` yields to the rows
      `DictWriter` is given: `rows.pop(0)` drops the first row (an empty
      ledger raises IndexError), a date that does not parse raises
      ValueError before anything is written, and otherwise each patron gets
      one line, in first-appearance order, with their total. */
  method FeesReport(rows: seq<Row>) returns (r: Result<seq<FeeLine>>)
    ensures |rows| == 0 ==> r == Failure(IndexError)
    ensures |rows| > 0 && Ledger(rows[1..]).Failure? ==> r == Failure(ValueError)
    ensures |rows| > 0 && Ledger(rows[1..]).Success? ==>
      var es := Ledger(rows[1..]).value;
      && r.Success?
      && |r.value| == |Patrons(es)|
      && forall k :: 0 <= k < |r.value| ==>
        r.value[k] == FeeLine(Patrons(es)[k], FormatFee(Total(es, Patrons(es)[k])))
  {
    if |rows| == 0 {
      return Failure(IndexError);
    }
    var ok, order, fees, es := ChargeRows(rows[1..]);
    if !ok {
      return Failure(ValueError);
    }
    r := Success(seq(|order|, k requires 0 <= k < |order| => FeeLine(order[k], FormatFee(fees[order[k]]))));
  }

  /** The loop of `fees_report`: reads each row in turn and adds its fee to
      the patron's value in the `defaultdict`, whose keys (`order`) keep
      insertion order.  It stops with ValueError at the first row whose
      dates do not parse. */
  method ChargeRows(rest: seq<Row>)
    returns (ok: bool, order: seq<string>, fees: map<string, nat>, ghost es: seq<Entry>)
    ensures !ok ==> Ledger(rest).Failure?
    ensures ok ==> Ledger(rest) == Success(es)
    ensures ok ==> Accumulated(es, order, fees)
  {
    order, fees, es := [], map[], [];
    var i := 0;
    while i < |rest|
      invariant 0 <= i <= |rest|
      invariant MapsTo(rest[..i], ReadEntry, es)
      invariant Accumulated(es, order, fees)
    {
      var row := rest[i];
      var late := ReadRow(rest, i, es);
      if late.None? {
        return false, order, fees, es;
      }
      ghost var e := Entry(row.patronId, late.value);
      AccumulateStep(es, e, order, fees);
      var p := row.patronId;
      var owed := if p in fees then fees[p] else 0;
      if p !in fees {
        order := order + [p];
      }
      fees := fees[p := owed + LateFee(late.value)];
      es := es + [e];
      i := i + 1;
    }
    assert rest[..i] == rest;
    MapAllOfMapsTo(rest, ReadEntry, es);
    ok := true;
  }

  /** The `mm/dd/yyyy` renderings of the dates of the worked example. */
  lemma ExampleRenderings()
    ensures FormatUs(Date(2023, 1, 1)) == "01/01/2023" && FormatUs(Date(2023, 1, 5)) == "01/05/2023"
    ensures FormatUs(Date(2023, 1, 10)) == "01/10/2023" && FormatUs(Date(2023, 1, 12)) == "01/12/2023"
  {
    assert Year4(2023) == "2023";
  }

  /** The worked example: after the dropped first row, patron "1" returns
      one book 4 days late and one 2 days late, patron "2" one on time. */
  lemma WorkedExample()
    ensures var rows := [
        Row("book_uid", "isbn_13", "patron_id", "date_checkout", "date_due", "date_returned"),
        Row("b1", "9780000000001", "1", "12/20/2022", "01/01/2023", "01/05/2023"),
        Row("b2", "9780000000002", "2", "12/20/2022", "01/01/2023", "01/01/2023"),
        Row("b3", "9780000000003", "1", "01/02/2023", "01/10/2023", "01/12/2023")];
      Ledger(rows[1..]) == Success([Entry("1", 4), Entry("2", 0), Entry("1", 2)])
  {
    var rest := [
      Row("b1", "9780000000001", "1", "12/20/2022", "01/01/2023", "01/05/2023"),
      Row("b2", "9780000000002", "2", "12/20/2022", "01/01/2023", "01/01/2023"),
      Row("b3", "9780000000003", "1", "01/02/2023", "01/10/2023", "01/12/2023")];
    var es := [Entry("1", 4), Entry("2", 0), Entry("1", 2)];
    var jan1, jan5, jan10, jan12 := Date(2023, 1, 1), Date(2023, 1, 5), Date(2023, 1, 10), Date(2023, 1, 12);
    ExampleRenderings();
    DaysLateOfRenderings(rest[0], jan1, jan5);
    DaysLateOfRenderings(rest[1], jan1, jan1);
    DaysLateOfRenderings(rest[2], jan10, jan12);
    assert DaysBetween(jan1, jan5) == 4 && DaysBetween(jan10, jan12) == 2;
    forall i | 0 <= i < 3
      ensures ReadEntry(rest[i]) == Success(es[i])
    {
      assert i == 0 || i == 1 || i == 2;
    }
    MapAllOfMapsTo(rest, ReadEntry, es);
  }

  /** The report of the worked example: "1,1.50" then "2,0.00". */
  lemma WorkedExampleTotals()
    ensures var es := [Entry("1", 4), Entry("2", 0), Entry("1", 2)];
      && Patrons(es) == ["1", "2"]
      && FormatFee(Total(es, "1")) == "1.50"
      && FormatFee(Total(es, "2")) == "0.00"
  {
    var e1 := [Entry("1", 4)];
    var e2 := e1 + [Entry("2", 0)];
    var es := e2 + [Entry("1", 2)];
    assert e1[..0] == [] && e2[..1] == e1 && es[..2] == e2;
    assert Patrons(e1) == ["1"] && Patrons(e2) == ["1", "2"];
    assert Total(e1, "1") == 4 && Total(e1, "2") == 0;
    assert Total(e2, "1") == 4 && Total(e2, "2") == 0;
    assert Total(es, "1") == 6 && Total(es, "2") == 0;
    assert Two(50) == "50" && Two(0) == "00";
  }

  /** The lines of a report whose ledger holds the worked example's entries. */
  lemma WorkedExampleLines(lines: seq<FeeLine>)
    requires var es := [Entry("1", 4), Entry("2", 0), Entry("1", 2)];
      && |lines| == |Patrons(es)|
      && forall k :: 0 <= k < |lines| ==> lines[k] == FeeLine(Patrons(es)[k], FormatFee(Total(es, Patrons(es)[k])))
    ensures lines == [FeeLine("1", "1.50"), FeeLine("2", "0.00")]
  {
    WorkedExampleTotals();
    assert lines == [lines[0], lines[1]];
  }

  /** `fees_report` on the worked example, end to end: the header line is
      dropped and the report is "1,1.50" then "2,0.00". */
  method WorkedReport() returns (r: Result<seq<FeeLine>>)
    ensures r == Success([FeeLine("1", "1.50"), FeeLine("2", "0.00")])
  {
    var rows := [
      Row("book_uid", "isbn_13", "patron_id", "date_checkout", "date_due", "date_returned"),
      Row("b1", "9780000000001", "1", "12/20/2022", "01/01/2023", "01/05/2023"),
      Row("b2", "9780000000002", "2", "12/20/2022", "01/01/2023", "01/01/2023"),
      Row("b3", "9780000000003", "1", "01/02/2023", "01/10/2023", "01/12/2023")];
    WorkedExample();
    r := FeesReport(rows);
    WorkedExampleLines(r.value);
  }
}
