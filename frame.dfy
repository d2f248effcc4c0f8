/** The tabular data model of the ticket ledger: a table is an ordered list of
    column names and an ordered list of rows, each row mapping a column name to
    a cell that is either null or a value. */
module Frame {

  datatype Option<+T> = None | Some(value: T)

  datatype Outcome<+E> = Pass | Fail(error: E)

  datatype Result<+T, +E> = Success(value: T) | Failure(error: E)

  /** A non-null cell: money and quantities are exact reals, labels are text. */
  datatype Value = Num(amount: real) | Text(text: string)

  /** A cell; `None` is the null a repaired column is filled with. */
  type Cell = Option<Value>

  type Row = map<string, Cell>

  datatype Table = Table(columns: seq<string>, rows: seq<Row>)

  /** The names of the ledger's six required columns, in their fixed order. */
  const MATCH := "Match"
  const STAND := "Stand"
  const PURCHASE_PRICE := "Purchase Price"
  const SELLING_PRICE := "Selling Price"
  const QUANTITY := "Quantity"
  const PROFIT := "Profit"
  const REQUIRED: seq<string> := [MATCH, STAND, PURCHASE_PRICE, SELLING_PRICE, QUANTITY, PROFIT]

  /** The derived column the summary page adds before it offers the reset. */
  const CUMULATIVE_PROFIT := "Cumulative Profit"

  /** The cell of row `r` under column `c`; a column the row lacks reads as null. */
  function Get(r: Row, c: string): Cell {
    if c in r then r[c] else None
  }

  predicate Distinct<T(==)>(s: seq<T>) {
    forall i, j :: 0 <= i < j < |s| ==> s[i] != s[j]
  }

  /** Row `r` has a cell for exactly the columns of the table. */
  predicate HasColumns(r: Row, columns: seq<string>) {
    r.Keys == set c | c in columns
  }

  /** A rectangular table: distinct column names, every row keyed by exactly those names. */
  predicate WellFormed(t: Table) {
    && Distinct(t.columns)
    && forall i :: 0 <= i < |t.rows| ==> HasColumns(t.rows[i], t.columns)
  }

  /** Every required column is present. */
  predicate HasRequired(columns: seq<string>) {
    forall c :: c in REQUIRED ==> c in columns
  }
}
