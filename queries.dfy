/** The table the page works on once the period columns are added, and the
    row selections and column sum it is built from: `df[df["Tipe"] == kind]`,
    `df[df[periode_col] == key]`, a selection by description, and
    `["Jumlah"].sum()`. */
module Queries {
  import opened PeriodKeys
  import opened Ledger

  /** A ledger row together with its derived `Bulan` and `Minggu` columns. */
  datatype Row = Row(tx: Transaction, month: string, week: string)

  /** Adds the two derived period columns to every row. */
  function AddPeriodColumns(rows: seq<Transaction>): (table: seq<Row>)
    ensures |table| == |rows|
    ensures forall i | 0 <= i < |rows| ::
      table[i].tx == rows[i] && table[i].month == MonthlyKey(rows[i].date) && table[i].week == WeeklyKey(rows[i].date)
  {
    if rows == [] then []
    else [Row(rows[0], MonthlyKey(rows[0].date), WeeklyKey(rows[0].date))] + AddPeriodColumns(rows[1..])
  }

  /** Appending a transaction to the ledger appends one row to the table. */
  lemma {:induction false} AddPeriodColumnsAppend(rows: seq<Transaction>, t: Transaction)
    ensures AddPeriodColumns(rows + [t]) == AddPeriodColumns(rows) + [Row(t, MonthlyKey(t.date), WeeklyKey(t.date))]
  {
    if rows != [] {
      var longer := rows + [t];
      assert longer[0] == rows[0] && longer[1..] == rows[1..] + [t];
      var head := [Row(rows[0], MonthlyKey(rows[0].date), WeeklyKey(rows[0].date))];
      assert AddPeriodColumns(longer) == head + AddPeriodColumns(rows[1..] + [t]);
      AddPeriodColumnsAppend(rows[1..], t);
      assert AddPeriodColumns(rows) == head + AddPeriodColumns(rows[1..]);
    } else {
      assert rows + [t] == [t];
    }
  }

  /** The value of the chosen period column (`periode_col`) in a row. */
  function PeriodOf(r: Row, mode: Mode): string {
    match mode
    case Monthly => r.month
    case Weekly => r.week
  }

  /** In a table built by AddPeriodColumns the period column is the period key of the row's date. */
  lemma PeriodColumnIsKey(rows: seq<Transaction>, mode: Mode, i: int)
    requires 0 <= i < |rows|
    ensures PeriodOf(AddPeriodColumns(rows)[i], mode) == PeriodKey(mode, rows[i].date)
  {
  }

  /** The period keys present in the table. */
  function PeriodKeysOf(table: seq<Row>, mode: Mode): set<string> {
    set r | r in table :: PeriodOf(r, mode)
  }

  /** `Jumlah` summed over the rows; an empty selection sums to 0. */
  function SumAmounts(table: seq<Row>): (total: int)
    ensures total >= 0
    ensures (forall i | 0 <= i < |table| :: WellFormed(table[i].tx)) ==> (total == 0 <==> table == [])
  {
    if table == [] then 0 else table[0].tx.amount + SumAmounts(table[1..])
  }

  /** The rows of one kind, in table order. */
  function OfKind(table: seq<Row>, kind: Kind): (r: seq<Row>)
    ensures |r| <= |table|
  {
    if table == [] then []
    else (if table[0].tx.kind == kind then [table[0]] else []) + OfKind(table[1..], kind)
  }

  /** The rows whose period column equals `key`, in table order. */
  function InPeriod(table: seq<Row>, mode: Mode, key: string): (r: seq<Row>)
    ensures |r| <= |table|
  {
    if table == [] then []
    else (if PeriodOf(table[0], mode) == key then [table[0]] else []) + InPeriod(table[1..], mode, key)
  }

  /** The rows with a given description, in table order. */
  function WithDescription(table: seq<Row>, text: string): (r: seq<Row>)
    ensures |r| <= |table|
  {
    if table == [] then []
    else (if table[0].tx.description == text then [table[0]] else []) + WithDescription(table[1..], text)
  }

  lemma {:induction false} OfKindMembers(table: seq<Row>, kind: Kind)
    ensures forall x :: x in OfKind(table, kind) <==> x in table && x.tx.kind == kind
  {
    if table != [] {
      assert table == [table[0]] + table[1..];
      OfKindMembers(table[1..], kind);
    }
  }

  lemma {:induction false} InPeriodMembers(table: seq<Row>, mode: Mode, key: string)
    ensures forall x :: x in InPeriod(table, mode, key) <==> x in table && PeriodOf(x, mode) == key
  {
    if table != [] {
      assert table == [table[0]] + table[1..];
      InPeriodMembers(table[1..], mode, key);
    }
  }

  lemma {:induction false} WithDescriptionMembers(table: seq<Row>, text: string)
    ensures forall x :: x in WithDescription(table, text) <==> x in table && x.tx.description == text
  {
    if table != [] {
      assert table == [table[0]] + table[1..];
      WithDescriptionMembers(table[1..], text);
    }
  }

  /** The sum of a concatenation is the sum of its parts. */
  lemma {:induction false} SumAmountsAppend(a: seq<Row>, b: seq<Row>)
    ensures SumAmounts(a + b) == SumAmounts(a) + SumAmounts(b)
  {
    if a != [] {
      assert (a + b)[0] == a[0] && (a + b)[1..] == a[1..] + b;
      SumAmountsAppend(a[1..], b);
    } else {
      assert a + b == b;
    }
  }

  /** Selections keep table order: selecting from a concatenation concatenates the selections. */
  lemma {:induction false} OfKindAppend(a: seq<Row>, b: seq<Row>, kind: Kind)
    ensures OfKind(a + b, kind) == OfKind(a, kind) + OfKind(b, kind)
  {
    if a != [] {
      var ab := a + b;
      assert ab[0] == a[0] && ab[1..] == a[1..] + b;
      var head := if a[0].tx.kind == kind then [a[0]] else [];
      assert OfKind(ab, kind) == head + OfKind(a[1..] + b, kind);
      OfKindAppend(a[1..], b, kind);
      assert OfKind(a, kind) == head + OfKind(a[1..], kind);
    } else {
      assert a + b == b;
    }
  }

  lemma {:induction false} InPeriodAppend(a: seq<Row>, b: seq<Row>, mode: Mode, key: string)
    ensures InPeriod(a + b, mode, key) == InPeriod(a, mode, key) + InPeriod(b, mode, key)
  {
    if a != [] {
      var ab := a + b;
      assert ab[0] == a[0] && ab[1..] == a[1..] + b;
      var head := if PeriodOf(a[0], mode) == key then [a[0]] else [];
      assert InPeriod(ab, mode, key) == head + InPeriod(a[1..] + b, mode, key);
      InPeriodAppend(a[1..], b, mode, key);
      assert InPeriod(a, mode, key) == head + InPeriod(a[1..], mode, key);
    } else {
      assert a + b == b;
    }
  }

  lemma {:induction false} WithDescriptionAppend(a: seq<Row>, b: seq<Row>, text: string)
    ensures WithDescription(a + b, text) == WithDescription(a, text) + WithDescription(b, text)
  {
    if a != [] {
      var ab := a + b;
      assert ab[0] == a[0] && ab[1..] == a[1..] + b;
      var head := if a[0].tx.description == text then [a[0]] else [];
      assert WithDescription(ab, text) == head + WithDescription(a[1..] + b, text);
      WithDescriptionAppend(a[1..], b, text);
      assert WithDescription(a, text) == head + WithDescription(a[1..], text);
    } else {
      assert a + b == b;
    }
  }

  /** A period key that no row has selects nothing. */
  lemma AbsentPeriodSelectsNothing(table: seq<Row>, mode: Mode, key: string)
    requires key !in PeriodKeysOf(table, mode)
    ensures InPeriod(table, mode, key) == []
  {
  }

  /** Every row is income or expense, so the two kind totals add up to the whole column. */
  lemma {:induction false} KindsPartitionSum(table: seq<Row>)
    ensures SumAmounts(OfKind(table, Income)) + SumAmounts(OfKind(table, Expense)) == SumAmounts(table)
  {
    if table != [] {
      var head, rest := table[0], table[1..];
      KindsPartitionSum(rest);
      var inc := if head.tx.kind == Income then [head] else [];
      var exp := if head.tx.kind == Expense then [head] else [];
      SumAmountsAppend(inc, OfKind(rest, Income));
      SumAmountsAppend(exp, OfKind(rest, Expense));
      assert SumAmounts(inc) + SumAmounts(exp) == head.tx.amount;
    }
  }
}
