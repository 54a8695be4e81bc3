/** The drill-down into one selected period: its rows (`df_sel`), its expense
    rows (`exp_sel`), and the expense composition the pie chart shows, one slice
    per description with the amounts of equal descriptions added up. */
module DrillDown {
  import opened PeriodKeys
  import opened Ledger
  import opened Queries
  import opened Aggregation

  /** `exp_sel`: the expense rows of the selected period, in table order. */
  function PeriodExpenses(table: seq<Row>, mode: Mode, key: string): (r: seq<Row>)
    ensures forall x :: x in r <==> x in table && PeriodOf(x, mode) == key && x.tx.kind == Expense
  {
    InPeriodMembers(table, mode, key);
    OfKindMembers(InPeriod(table, mode, key), Expense);
    OfKind(InPeriod(table, mode, key), Expense)
  }

  /** The selection keeps table order: rows appended later come later. */
  lemma PeriodExpensesAppend(a: seq<Row>, b: seq<Row>, mode: Mode, key: string)
    ensures PeriodExpenses(a + b, mode, key) == PeriodExpenses(a, mode, key) + PeriodExpenses(b, mode, key)
  {
    InPeriodAppend(a, b, mode, key);
    OfKindAppend(InPeriod(a, mode, key), InPeriod(b, mode, key), Expense);
  }

  /** The expense rows of a period add up to that period's `Pengeluaran` cell. */
  lemma PeriodExpensesMatchCell(table: seq<Row>, mode: Mode, key: string)
    requires key in Aggregate(table, mode)
    ensures SumAmounts(PeriodExpenses(table, mode, key)) == Aggregate(table, mode)[key].expense
  {
    AggregateCorrect(table, mode);
  }

  /** A period that is not in `grouped` has no expense rows. */
  lemma AbsentPeriodHasNoExpenses(table: seq<Row>, mode: Mode, key: string)
    requires key !in Aggregate(table, mode)
    ensures PeriodExpenses(table, mode, key) == []
  {
    AbsentPeriodSelectsNothing(table, mode, key);
  }

  /** One pie slice: a description and the summed amount of its expenses. */
  datatype Slice = Slice(name: string, value: int)

  /** Adds `value` to the slice called `name`, or appends a new slice for it:
      the total and that name's value grow by `value`, no other value moves,
      and the name joins the names (AddToSlicesDistinct: names stay distinct). */
  function AddToSlices(slices: seq<Slice>, name: string, value: int): (r: seq<Slice>)
    ensures SliceTotal(r) == SliceTotal(slices) + value
    ensures forall other :: ValueOf(r, other) == ValueOf(slices, other) + (if other == name then value else 0)
    ensures Names(r) == Names(slices) + {name}
  {
    if slices == [] then [Slice(name, value)]
    else
      var rest := slices[1..];
      assert slices == [slices[0]] + rest;
      assert Names(slices) == {slices[0].name} + Names(rest);
      if slices[0].name == name then
        var r := [Slice(name, slices[0].value + value)] + rest;
        assert Names(r) == {name} + Names(rest);
        r
      else
        var added := AddToSlices(rest, name, value);
        var r := [slices[0]] + added;
        assert Names(r) == {slices[0].name} + Names(added);
        r
  }

  /** The pie data of a list of expense rows: one slice per description, and
      the slices add up to all the amounts. */
  function PieSlices(expenses: seq<Row>): (slices: seq<Slice>)
    ensures Names(slices) == Descriptions(expenses)
    ensures SliceTotal(slices) == SumAmounts(expenses)
  {
    if expenses == [] then []
    else
      var init, last := expenses[..|expenses| - 1], expenses[|expenses| - 1];
      assert expenses == init + [last];
      assert Descriptions(expenses) == Descriptions(init) + {last.tx.description};
      SumAmountsAppend(init, [last]);
      AddToSlices(PieSlices(init), last.tx.description, last.tx.amount)
  }

  function SliceTotal(slices: seq<Slice>): int {
    if slices == [] then 0 else slices[0].value + SliceTotal(slices[1..])
  }

  function Names(slices: seq<Slice>): set<string> {
    set s | s in slices :: s.name
  }

  predicate DistinctNames(slices: seq<Slice>) {
    forall i, j | 0 <= i < j < |slices| :: slices[i].name != slices[j].name
  }

  /** The value shown for a description: its slice's value, or 0 when it has none. */
  function ValueOf(slices: seq<Slice>, name: string): int {
    if slices == [] then 0
    else if slices[0].name == name then slices[0].value
    else ValueOf(slices[1..], name)
  }

  function Descriptions(rows: seq<Row>): set<string> {
    set r | r in rows :: r.tx.description
  }

  /** Merging keeps the slice names distinct. */
  lemma {:induction false} AddToSlicesDistinct(slices: seq<Slice>, name: string, value: int)
    requires DistinctNames(slices)
    ensures DistinctNames(AddToSlices(slices, name, value))
  {
    if slices != [] && slices[0].name != name {
      var rest := slices[1..];
      DistinctUncons(slices);
      AddToSlicesDistinct(rest, name, value);
      DistinctCons(slices[0], AddToSlices(rest, name, value));
    }
  }

  /** The tail of distinct slices is distinct and does not hold the head's name. */
  lemma DistinctUncons(slices: seq<Slice>)
    requires DistinctNames(slices) && slices != []
    ensures DistinctNames(slices[1..]) && slices[0].name !in Names(slices[1..])
  {
    var rest := slices[1..];
    forall s | s in rest
      ensures s.name != slices[0].name
    {
      var i :| 0 <= i < |rest| && rest[i] == s;
      assert rest[i] == slices[i + 1];
    }
  }

  /** A slice whose name is new may go in front of distinct slices. */
  lemma DistinctCons(s: Slice, rest: seq<Slice>)
    requires DistinctNames(rest) && s.name !in Names(rest)
    ensures DistinctNames([s] + rest)
  {
    var r := [s] + rest;
    forall i, j | 0 <= i < j < |r|
      ensures r[i].name != r[j].name
    {
      assert r[j] == rest[j - 1];
      if i > 0 {
        assert r[i] == rest[i - 1];
      }
    }
  }

  /** No description has two slices, and each slice holds the sum of that
      description's amounts. */
  lemma {:induction false} PieSlicesCorrect(expenses: seq<Row>)
    ensures DistinctNames(PieSlices(expenses))
    ensures forall name :: ValueOf(PieSlices(expenses), name) == SumAmounts(WithDescription(expenses, name))
  {
    if expenses != [] {
      var n := |expenses| - 1;
      var init, last := expenses[..n], expenses[n];
      assert expenses == init + [last];
      PieSlicesCorrect(init);
      AddToSlicesDistinct(PieSlices(init), last.tx.description, last.tx.amount);
      forall name
        ensures ValueOf(PieSlices(expenses), name) == SumAmounts(WithDescription(expenses, name))
      {
        WithDescriptionAppend(init, [last], name);
        SumAmountsAppend(WithDescription(init, name), WithDescription([last], name));
      }
    }
  }

  /** The pie of a period sums to that period's `Pengeluaran` cell. */
  lemma PieMatchesCell(table: seq<Row>, mode: Mode, key: string)
    requires key in Aggregate(table, mode)
    ensures SliceTotal(PieSlices(PeriodExpenses(table, mode, key))) == Aggregate(table, mode)[key].expense
  {
    PeriodExpensesMatchCell(table, mode, key);
  }

  /** What the composition section shows: a pie, or the notice that the
      period has no expenses (a normal outcome, not an error). */
  datatype ExpenseView = Pie(slices: seq<Slice>) | NoExpenses

  function PeriodExpenseView(table: seq<Row>, mode: Mode, key: string): (v: ExpenseView)
    ensures v == NoExpenses <==> forall x | x in table && PeriodOf(x, mode) == key :: x.tx.kind == Income
  {
    var expenses := PeriodExpenses(table, mode, key);
    if expenses == [] then NoExpenses
    else
      assert expenses[0] in expenses;
      Pie(PieSlices(expenses))
  }
}
