/** The aggregates of the page: whole-ledger totals (income, expense and their
    net) and the per-period table `grouped` built by
    `groupby([periode_col, "Tipe"])["Jumlah"].sum().unstack(fill_value=0)`
    with its added `Net` column. */
module Aggregation {
  import opened PeriodKeys
  import opened Ledger
  import opened Queries

  datatype Option<T> = None | Some(value: T)

  /** `total_income`, `total_expense` and `net`. */
  datatype Totals = Totals(income: int, expense: int, net: int)

  /** The totals: income and expense together account for every amount in the
      table, and the net is what remains of the income once the expense is taken out. */
  function LedgerTotals(table: seq<Row>): (t: Totals)
    ensures t.income + t.expense == SumAmounts(table)
    ensures t.net == SumAmounts(table) - 2 * t.expense
    ensures t.income >= 0 && t.expense >= 0
  {
    KindsPartitionSum(table);
    var income := SumAmounts(OfKind(table, Income));
    var expense := SumAmounts(OfKind(table, Expense));
    Totals(income, expense, income - expense)
  }

  /** Appending one row moves the totals by exactly that row's amount. */
  lemma TotalsAfterAppend(table: seq<Row>, r: Row)
    ensures var before, after := LedgerTotals(table), LedgerTotals(table + [r]);
      if r.tx.kind == Income then
        after == Totals(before.income + r.tx.amount, before.expense, before.net + r.tx.amount)
      else
        after == Totals(before.income, before.expense + r.tx.amount, before.net - r.tx.amount)
  {
    KindSumAfterAppend(table, r, Income);
    KindSumAfterAppend(table, r, Expense);
  }

  lemma KindSumAfterAppend(table: seq<Row>, r: Row, kind: Kind)
    ensures SumAmounts(OfKind(table + [r], kind))
      == SumAmounts(OfKind(table, kind)) + (if r.tx.kind == kind then r.tx.amount else 0)
  {
    assert [r][1..] == [];
    var single := OfKind([r], kind);
    assert single == if r.tx.kind == kind then [r] else [];
    OfKindAppend(table, [r], kind);
    SumAmountsAppend(OfKind(table, kind), single);
  }

  /** One cell pair of the unstacked table: the summed `Pemasukan` and `Pengeluaran` of a period. */
  datatype Sums = Sums(income: int, expense: int)

  function AddRow(s: Sums, r: Row): Sums {
    match r.tx.kind
    case Income => Sums(s.income + r.tx.amount, s.expense)
    case Expense => Sums(s.income, s.expense + r.tx.amount)
  }

  /** The grouped and unstacked sums, with 0 in a period that has no row of a
      kind; the grouping has exactly the period keys present in the table. */
  function GroupSums(table: seq<Row>, mode: Mode): (g: map<string, Sums>)
  {
    if table == [] then map[]
    else
      var rest := GroupSums(table[1..], mode);
      var k := PeriodOf(table[0], mode);
      rest[k := AddRow(if k in rest then rest[k] else Sums(0, 0), table[0])]
  }

  lemma {:induction false} GroupSumsKeys(table: seq<Row>, mode: Mode)
    ensures GroupSums(table, mode).Keys == PeriodKeysOf(table, mode)
  {
    if table != [] {
      var rest := table[1..];
      GroupSumsKeys(rest, mode);
      assert table == [table[0]] + rest;
      assert PeriodKeysOf(table, mode) == PeriodKeysOf(rest, mode) + {PeriodOf(table[0], mode)};
    }
  }

  /** A row of `grouped` after the `Net` column is added. */
  datatype Cell = Cell(income: int, expense: int, net: int)

  /** `grouped`, when a kind with no row at all counts as a column of zeros:
      one row per period present in the table, with its `Net` column. */
  function Aggregate(table: seq<Row>, mode: Mode): (grouped: map<string, Cell>)
    ensures grouped.Keys == PeriodKeysOf(table, mode)
    ensures forall k | k in grouped :: grouped[k].net == grouped[k].income - grouped[k].expense
  {
    GroupSumsKeys(table, mode);
    var g := GroupSums(table, mode);
    map k | k in g :: Cell(g[k].income, g[k].expense, g[k].income - g[k].expense)
  }

  /** The sum of one kind's amounts over the rows of one period. */
  function PeriodSum(table: seq<Row>, mode: Mode, key: string, kind: Kind): int {
    SumAmounts(OfKind(InPeriod(table, mode, key), kind))
  }

  /** Peeling off the first row changes a period sum by that row's amount when
      the row has that period and kind, and by nothing otherwise. */
  lemma PeriodSumCons(table: seq<Row>, mode: Mode, key: string, kind: Kind)
    requires table != []
    ensures PeriodSum(table, mode, key, kind)
      == (if PeriodOf(table[0], mode) == key && table[0].tx.kind == kind then table[0].tx.amount else 0)
         + PeriodSum(table[1..], mode, key, kind)
  {
    var head := if PeriodOf(table[0], mode) == key then [table[0]] else [];
    var rest := InPeriod(table[1..], mode, key);
    OfKindAppend(head, rest, kind);
    SumAmountsAppend(OfKind(head, kind), OfKind(rest, kind));
  }

  /** The grouping is an independent computation of the period sums: each cell
      holds the sums of that period's income and expense rows. */
  lemma {:induction false} GroupSumsCell(table: seq<Row>, mode: Mode, k: string)
    requires k in GroupSums(table, mode)
    ensures GroupSums(table, mode)[k] == Sums(PeriodSum(table, mode, k, Income), PeriodSum(table, mode, k, Expense))
  {
    var rest := table[1..];
    var g := GroupSums(rest, mode);
    PeriodSumCons(table, mode, k, Income);
    PeriodSumCons(table, mode, k, Expense);
    if k in g {
      GroupSumsCell(rest, mode, k);
    } else {
      GroupSumsKeys(rest, mode);
      AbsentPeriodSelectsNothing(rest, mode, k);
      assert PeriodSum(rest, mode, k, Income) == 0 && PeriodSum(rest, mode, k, Expense) == 0;
    }
  }

  lemma GroupSumsCorrect(table: seq<Row>, mode: Mode)
    ensures forall k | k in GroupSums(table, mode) ::
      GroupSums(table, mode)[k] == Sums(PeriodSum(table, mode, k, Income), PeriodSum(table, mode, k, Expense))
  {
    forall k | k in GroupSums(table, mode)
      ensures GroupSums(table, mode)[k] == Sums(PeriodSum(table, mode, k, Income), PeriodSum(table, mode, k, Expense))
    {
      GroupSumsCell(table, mode, k);
    }
  }

  /** Each row of `grouped` holds that period's income sum and expense sum,
      0 when the period has no row of that kind. */
  lemma AggregateCorrect(table: seq<Row>, mode: Mode)
    ensures forall k | k in Aggregate(table, mode) ::
      && Aggregate(table, mode)[k].income == PeriodSum(table, mode, k, Income)
      && Aggregate(table, mode)[k].expense == PeriodSum(table, mode, k, Expense)
  {
    GroupSumsCorrect(table, mode);
  }

  predicate Distinct(keys: seq<string>) {
    forall i, j | 0 <= i < j < |keys| :: keys[i] != keys[j]
  }

  /** A column of `grouped`: `Pemasukan`, `Pengeluaran` or `Net`. */
  datatype Column = IncomeColumn | ExpenseColumn | NetColumn

  function CellValue(c: Cell, col: Column): int {
    match col
    case IncomeColumn => c.income
    case ExpenseColumn => c.expense
    case NetColumn => c.net
  }

  /** A column of `grouped` summed over the periods listed in `keys`. */
  function ColumnSum(grouped: map<string, Cell>, keys: seq<string>, col: Column): int
    requires forall k | k in keys :: k in grouped
  {
    if keys == [] then 0 else CellValue(grouped[keys[0]], col) + ColumnSum(grouped, keys[1..], col)
  }

  /** The period sums of one kind over the periods listed in `keys`. */
  function KeysSum(table: seq<Row>, mode: Mode, keys: seq<string>, kind: Kind): int {
    if keys == [] then 0 else PeriodSum(table, mode, keys[0], kind) + KeysSum(table, mode, keys[1..], kind)
  }

  lemma {:induction false} KeysSumCons(table: seq<Row>, mode: Mode, keys: seq<string>, kind: Kind)
    requires table != [] && Distinct(keys)
    ensures KeysSum(table, mode, keys, kind)
      == KeysSum(table[1..], mode, keys, kind)
         + (if PeriodOf(table[0], mode) in keys && table[0].tx.kind == kind then table[0].tx.amount else 0)
  {
    if keys != [] {
      var first, rest := keys[0], keys[1..];
      DistinctTail(keys);
      PeriodSumCons(table, mode, first, kind);
      KeysSumCons(table, mode, rest, kind);
      assert keys == [first] + rest;
    }
  }

  /** The tail of a list of distinct keys is distinct and does not hold the head. */
  lemma DistinctTail(keys: seq<string>)
    requires Distinct(keys) && keys != []
    ensures Distinct(keys[1..]) && keys[0] !in keys[1..]
  {
    var rest := keys[1..];
    forall i, j | 0 <= i < j < |rest|
      ensures rest[i] != rest[j]
    {
      assert rest[i] == keys[i + 1] && rest[j] == keys[j + 1];
    }
    forall i | 0 <= i < |rest|
      ensures rest[i] != keys[0]
    {
      assert rest[i] == keys[i + 1];
    }
  }

  /** When `keys` lists every period of the table once, the period sums of a
      kind add up to that kind's total: the periods partition the rows. */
  lemma {:induction false} KeysSumCoversKind(table: seq<Row>, mode: Mode, keys: seq<string>, kind: Kind)
    requires Distinct(keys)
    requires PeriodKeysOf(table, mode) <= set k | k in keys
    ensures KeysSum(table, mode, keys, kind) == SumAmounts(OfKind(table, kind))
  {
    if table == [] {
      KeysSumEmpty(mode, keys, kind);
    } else {
      var rest := table[1..];
      assert table == [table[0]] + rest;
      assert PeriodKeysOf(rest, mode) <= PeriodKeysOf(table, mode);
      KeysSumCoversKind(rest, mode, keys, kind);
      KeysSumCons(table, mode, keys, kind);
      assert PeriodOf(table[0], mode) in PeriodKeysOf(table, mode);
      var head := if table[0].tx.kind == kind then [table[0]] else [];
      SumAmountsAppend(head, OfKind(rest, kind));
    }
  }

  lemma {:induction false} KeysSumEmpty(mode: Mode, keys: seq<string>, kind: Kind)
    ensures KeysSum([], mode, keys, kind) == 0
  {
    if keys != [] {
      KeysSumEmpty(mode, keys[1..], kind);
    }
  }

  /** Summing the cells of a table that holds the period sums gives the summed period sums. */
  lemma {:induction false} ColumnSumIsKeysSum(grouped: map<string, Cell>, table: seq<Row>, mode: Mode, keys: seq<string>)
    requires forall k | k in keys :: k in grouped
    requires forall k | k in keys ::
      && grouped[k].income == PeriodSum(table, mode, k, Income)
      && grouped[k].expense == PeriodSum(table, mode, k, Expense)
      && grouped[k].net == grouped[k].income - grouped[k].expense
    ensures ColumnSum(grouped, keys, IncomeColumn) == KeysSum(table, mode, keys, Income)
    ensures ColumnSum(grouped, keys, ExpenseColumn) == KeysSum(table, mode, keys, Expense)
    ensures ColumnSum(grouped, keys, NetColumn)
      == KeysSum(table, mode, keys, Income) - KeysSum(table, mode, keys, Expense)
  {
    if keys != [] {
      assert keys[0] in keys;
      ColumnSumIsKeysSum(grouped, table, mode, keys[1..]);
    }
  }

  /** Summing a column of `grouped` over all its periods, each once and in any
      order, gives the whole-ledger figure: total income, total expense, net. */
  lemma PeriodColumnsSumToTotals(table: seq<Row>, mode: Mode, keys: seq<string>)
    requires Distinct(keys)
    requires (set k | k in keys) == Aggregate(table, mode).Keys
    ensures ColumnSum(Aggregate(table, mode), keys, IncomeColumn) == LedgerTotals(table).income
    ensures ColumnSum(Aggregate(table, mode), keys, ExpenseColumn) == LedgerTotals(table).expense
    ensures ColumnSum(Aggregate(table, mode), keys, NetColumn) == LedgerTotals(table).net
  {
    AggregateCorrect(table, mode);
    ColumnSumIsKeysSum(Aggregate(table, mode), table, mode, keys);
    KeysSumCoversKind(table, mode, keys, Income);
    KeysSumCoversKind(table, mode, keys, Expense);
  }

  /** The kinds that occur in the table: the columns `unstack` produces. */
  function KindColumns(table: seq<Row>): set<Kind> {
    set r | r in table :: r.tx.kind
  }

  /** `grouped` as the page computes it: `grouped["Pemasukan"]` and
      `grouped["Pengeluaran"]` raise KeyError (None here) unless both kinds
      occur. The page thus fails on every table that lacks one of the kinds,
      such as the very first income entered; the corrected Aggregate fills the
      missing column with zeros, and agrees with the page whenever both kinds occur. */
  function AggregateAsWritten(table: seq<Row>, mode: Mode): (r: Option<map<string, Cell>>)
    ensures r == None
      <==> (forall x | x in table :: x.tx.kind == Income) || (forall x | x in table :: x.tx.kind == Expense)
    ensures r.Some? ==> r.value == Aggregate(table, mode)
  {
    KindColumnsMembers(table);
    if Income in KindColumns(table) && Expense in KindColumns(table) then Some(Aggregate(table, mode))
    else None
  }

  /** A kind has a column exactly when some row has that kind. */
  lemma KindColumnsMembers(table: seq<Row>)
    ensures forall kind :: kind in KindColumns(table) <==> exists x | x in table :: x.tx.kind == kind
  {
    forall kind | exists x | x in table :: x.tx.kind == kind
      ensures kind in KindColumns(table)
    {
      var x :| x in table && x.tx.kind == kind;
    }
  }
}
