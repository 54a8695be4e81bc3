/** The transaction ledger kept in the session: an ordered table of rows
    (Tanggal, Tipe, Deskripsi, Jumlah) that only ever grows by a validated
    append. */
module Ledger {
  import opened Calendar

  /** The `Tipe` column: "Pemasukan" (income) or "Pengeluaran" (expense). */
  datatype Kind = Income | Expense

  /** One row: date, kind, description and amount in whole rupiah. The amount
      widget only yields integers of at least 0. */
  datatype Transaction = Transaction(date: CalendarDate, kind: Kind, description: string, amount: nat)

  /** The guard of the "Tambah" button: a non-empty description (Python
      truthiness of the raw string, no trimming) and a positive amount. */
  predicate Accepts(description: string, amount: nat) {
    description != "" && amount > 0
  }

  /** What every stored row satisfies. */
  predicate WellFormed(t: Transaction) {
    Accepts(t.description, t.amount)
  }

  predicate AllWellFormed(rows: seq<Transaction>) {
    forall i | 0 <= i < |rows| :: WellFormed(rows[i])
  }

  datatype AppendOutcome = Added | Rejected

  class Ledger {
    /** The rows in insertion order. */
    var rows: seq<Transaction>

    ghost predicate Valid()
      reads this
    {
      AllWellFormed(rows)
    }

    /** The session starts with an empty table. */
    constructor ()
      ensures Valid() && rows == []
    {
      rows := [];
    }

    /** Add a row when the guard holds; otherwise leave the table as it was. */
    method Append(date: CalendarDate, kind: Kind, description: string, amount: nat)
      returns (outcome: AppendOutcome)
      requires Valid()
      modifies this
      ensures Valid()
      ensures outcome == Added <==> description != "" && amount > 0
      ensures outcome == Added ==> rows == old(rows) + [Transaction(date, kind, description, amount)]
      ensures outcome == Rejected ==> rows == old(rows)
    {
      if Accepts(description, amount) {
        rows := rows + [Transaction(date, kind, description, amount)];
        outcome := Added;
      } else {
        outcome := Rejected;
      }
    }
  }
}
