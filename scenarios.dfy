/** Worked examples: the ledger of an allowance, a meal and books, and the
    weekly key collision between years. */
module Scenarios {
  import opened Calendar
  import opened PeriodKeys
  import opened Ledger
  import opened Queries
  import opened Aggregation
  import opened DrillDown

  /** Day counts and the start of ISO week 1 for the years of the examples:
      2023-01-02, 2024-01-01 and 2024-12-30 are the Mondays of week 1. */
  lemma Year2023()
    ensures DaysBeforeYear(2023) == 738520 && Week1Monday(2023) == 738522
  {
  }

  lemma Year2024()
    ensures DaysBeforeYear(2024) == 738885 && Week1Monday(2024) == 738886
  {
  }

  lemma Year2025()
    ensures DaysBeforeYear(2025) == 739251 && Week1Monday(2025) == 739250
  {
  }

  lemma Week2Of2023(d: CalendarDate)
    requires d == Date(2023, 1, 11)
    ensures WeeklyKey(d) == "2"
  {
    Year2023();
    Year2024();
    assert Ordinal(d) == 738531;
    IsoWeekWithinYear(d);
    assert DecimalString(2) == "2";
  }

  /** 2023-01-11 and 2024-01-10 are both in ISO week 2, so they share the weekly key "2". */
  lemma WeeklyKeyCollidesAcrossYears(a: CalendarDate, b: CalendarDate)
    requires a == Date(2023, 1, 11) && b == Date(2024, 1, 10)
    ensures a.year != b.year && WeeklyKey(a) == WeeklyKey(b) == "2"
  {
    Week2Of2023(a);
    Week2Of2024(b);
  }

  lemma Week2Of2024(d: CalendarDate)
    requires d == Date(2024, 1, 10)
    ensures WeeklyKey(d) == "2"
  {
    Year2024();
    Year2025();
    assert Ordinal(d) == 738895;
    IsoWeekWithinYear(d);
    assert DecimalString(2) == "2";
  }

  lemma Week3Of2024(d: CalendarDate)
    requires d == Date(2024, 1, 15)
    ensures WeeklyKey(d) == "3"
  {
    Year2024();
    Year2025();
    assert Ordinal(d) == 738900;
    IsoWeekWithinYear(d);
    assert DecimalString(3) == "3";
  }

  lemma Week5Of2024(d: CalendarDate)
    requires d == Date(2024, 2, 1)
    ensures WeeklyKey(d) == "5"
  {
    Year2024();
    Year2025();
    assert Ordinal(d) == 738917;
    IsoWeekWithinYear(d);
    assert DecimalString(5) == "5";
  }

  lemma YearDigits2024()
    ensures PaddedDigits(2024, 4) == "2024"
  {
    assert PaddedDigits(2, 1) == "2";
    assert PaddedDigits(20, 2) == "20";
    assert PaddedDigits(202, 3) == "202";
  }

  lemma MonthDigits(m: nat)
    requires 1 <= m <= 9
    ensures PaddedDigits(m, 2) == ['0', DigitChar(m)]
  {
    assert m / 10 == 0 && m % 10 == m;
    assert PaddedDigits(0, 1) == "0";
  }

  /** The monthly keys of January to September 2024. */
  lemma MonthlyKeys2024(d: CalendarDate)
    requires d.year == 2024 && d.month <= 9
    ensures MonthlyKey(d) == ['2', '0', '2', '4', '-', '0', DigitChar(d.month)]
  {
    YearDigits2024();
    MonthDigits(d.month);
  }

  const Allowance := Transaction(Date(2024, 1, 10), Income, "Allowance", 500000)
  const Food := Transaction(Date(2024, 1, 15), Expense, "Food", 150000)
  const Books := Transaction(Date(2024, 2, 1), Expense, "Books", 200000)

  /** The three rows with their period columns: 2024-01-10 is in ISO week 2,
      2024-01-15 in week 3 and 2024-02-01 in week 5. */
  function ExampleTable(): seq<Row> {
    [Row(Allowance, "2024-01", "2"), Row(Food, "2024-01", "3"), Row(Books, "2024-02", "5")]
  }

  /** AddPeriodColumns on a three-row ledger, row by row. */
  lemma ColumnsOfThree(rows: seq<Transaction>)
    requires |rows| == 3
    ensures AddPeriodColumns(rows) == [
      Row(rows[0], MonthlyKey(rows[0].date), WeeklyKey(rows[0].date)),
      Row(rows[1], MonthlyKey(rows[1].date), WeeklyKey(rows[1].date)),
      Row(rows[2], MonthlyKey(rows[2].date), WeeklyKey(rows[2].date))]
  {
  }

  lemma ExampleColumns(rows: seq<Transaction>)
    requires rows == [Allowance, Food, Books]
    ensures AddPeriodColumns(rows) == ExampleTable()
  {
    ColumnsOfThree(rows);
    var d0, d1, d2 := rows[0].date, rows[1].date, rows[2].date;
    MonthlyKeys2024(d0);
    MonthlyKeys2024(d1);
    MonthlyKeys2024(d2);
    assert MonthlyKey(d0) == "2024-01" && MonthlyKey(d1) == "2024-01" && MonthlyKey(d2) == "2024-02";
    Week2Of2024(d0);
    Week3Of2024(d1);
    Week5Of2024(d2);
  }

  /** The session of the example: three accepted appends, then a rejected one. */
  method ExampleSession() returns (l: Ledger)
    ensures l.Valid() && l.rows == [Allowance, Food, Books]
  {
    l := new Ledger();
    var o1 := l.Append(Allowance.date, Income, "Allowance", 500000);
    var o2 := l.Append(Food.date, Expense, "Food", 150000);
    var o3 := l.Append(Books.date, Expense, "Books", 200000);
    var o4 := l.Append(Date(2024, 2, 2), Expense, "", 1000);
    assert o1 == o2 == o3 == Added && o4 == Rejected;
  }

  /** An append with an empty description is rejected and the new ledger stays empty. */
  method RejectedAppend() returns (l: Ledger)
    ensures l.rows == []
  {
    l := new Ledger();
    var outcome := l.Append(Date(2024, 1, 10), Expense, "", 1000);
    assert outcome == Rejected;
  }

  lemma ExampleTotals()
    ensures LedgerTotals(ExampleTable()) == Totals(500000, 350000, 150000)
  {
  }

  lemma ExampleMonthlyAggregate()
    ensures Aggregate(ExampleTable(), Monthly)
      == map["2024-01" := Cell(500000, 150000, 350000), "2024-02" := Cell(0, 200000, -200000)]
  {
    MonthlyCells(ExampleTable());
  }

  lemma MonthlyCells(t: seq<Row>)
    requires t == ExampleTable()
    ensures Aggregate(t, Monthly)
      == map["2024-01" := Cell(500000, 150000, 350000), "2024-02" := Cell(0, 200000, -200000)]
  {
    MonthlyGroups(t);
    var a := Aggregate(t, Monthly);
    assert a.Keys == {"2024-01", "2024-02"};
    assert a["2024-01"] == Cell(500000, 150000, 350000);
    assert a["2024-02"] == Cell(0, 200000, -200000);
  }

  /** The grouped sums of the example, one row at a time from the last. */
  lemma MonthlyGroups(t: seq<Row>)
    requires t == ExampleTable()
    ensures GroupSums(t, Monthly) == map["2024-02" := Sums(0, 200000), "2024-01" := Sums(500000, 150000)]
  {
    assert t[1..][1..][1..] == [];
    assert GroupSums(t[1..][1..], Monthly) == map["2024-02" := Sums(0, 200000)];
    assert GroupSums(t[1..], Monthly) == map["2024-02" := Sums(0, 200000), "2024-01" := Sums(0, 150000)];
  }

  /** The pie of a single expense row is one slice holding its amount. */
  lemma OneRowPie(r: Row)
    ensures PieSlices([r]) == [Slice(r.tx.description, r.tx.amount)]
  {
    assert [r][..0] == [];
  }

  /** February's pie is the single books slice; March has no expense to show. */
  lemma ExampleBreakdown()
    ensures PieSlices(PeriodExpenses(ExampleTable(), Monthly, "2024-02")) == [Slice("Books", 200000)]
    ensures PeriodExpenseView(ExampleTable(), Monthly, "2024-03") == NoExpenses
  {
    FebruaryPie();
    MarchHasNoExpenses();
  }

  lemma FebruaryPie()
    ensures PieSlices(PeriodExpenses(ExampleTable(), Monthly, "2024-02")) == [Slice("Books", 200000)]
  {
    var t := ExampleTable();
    FebruaryExpenses(t);
    OneRowPie(t[2]);
  }

  lemma MarchHasNoExpenses()
    ensures PeriodExpenseView(ExampleTable(), Monthly, "2024-03") == NoExpenses
  {
    var t := ExampleTable();
    assert forall x | x in t :: PeriodOf(x, Monthly) in {"2024-01", "2024-02"};
  }

  /** February 2024 holds one expense row, the books. */
  lemma FebruaryExpenses(t: seq<Row>)
    requires t == ExampleTable()
    ensures PeriodExpenses(t, Monthly, "2024-02") == [t[2]]
  {
    assert t[1..][1..][1..] == [];
    assert InPeriod(t[1..][1..], Monthly, "2024-02") == [t[2]];
    assert InPeriod(t[1..], Monthly, "2024-02") == [t[2]];
    assert InPeriod(t, Monthly, "2024-02") == [t[2]];
    assert [t[2]][1..] == [];
  }

  /** A first session with only the allowance recorded: the page as written
      fails on the missing `Pengeluaran` column, while the month itself has a
      well-defined row with expense 0. */
  lemma IncomeOnlyLedgerFails()
    ensures AggregateAsWritten([ExampleTable()[0]], Monthly) == None
    ensures Aggregate([ExampleTable()[0]], Monthly) == map["2024-01" := Cell(500000, 0, 500000)]
  {
    var table := [ExampleTable()[0]];
    assert table[1..] == [];
    assert GroupSums(table, Monthly) == map["2024-01" := Sums(500000, 0)];
  }
}
