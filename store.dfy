/** The ledger store: loading the ticket table with schema repair, appending a
    ticket, adding the derived cumulative column and resetting, first as pure
    functions on tables and then as the ledger object whose methods change the
    in-memory table and overwrite the stored copy. */
module Store {
  import opened Frame
  import opened Summary

  // ----- load with schema repair -----

  /** The table with column `c` added after the existing ones, null in every row. */
  function AddNullColumn(t: Table, c: string): Table {
    Table(t.columns + [c], seq(|t.rows|, i requires 0 <= i < |t.rows| => t.rows[i][c := None]))
  }

  /** Adds, one name of `names` after another, each column the table lacks. */
  function RepairWith(t: Table, names: seq<string>): Table
    decreases |names|
  {
    if names == [] then t
    else
      var t' := RepairWith(t, names[..|names| - 1]);
      var c := names[|names| - 1];
      if c in t'.columns then t' else AddNullColumn(t', c)
  }

  /** The table as loaded from an existing stored copy: every missing required column added. */
  function Repaired(t: Table): Table {
    RepairWith(t, REQUIRED)
  }

  lemma AddNullColumnSpec(t: Table, c: string)
    requires WellFormed(t) && c !in t.columns
    ensures var t' := AddNullColumn(t, c);
      && WellFormed(t')
      && (forall i, d :: 0 <= i < |t.rows| && d in t.columns ==> Get(t'.rows[i], d) == Get(t.rows[i], d))
      && (forall i :: 0 <= i < |t.rows| ==> Get(t'.rows[i], c) == None)
  {
  }

  /** Repair keeps every existing column, in place and with its values, keeps the
      row count, adds every name of `names` the table lacked, after the existing
      ones and null in every row, and keeps the table rectangular. */
  lemma {:induction false} RepairWithSpec(t: Table, names: seq<string>)
    requires WellFormed(t)
    ensures var t' := RepairWith(t, names);
      && WellFormed(t')
      && |t'.rows| == |t.rows|
      && |t.columns| <= |t'.columns| && t'.columns[..|t.columns|] == t.columns
      && (forall c :: c in names ==> c in t'.columns)
      && (forall c :: c in t'.columns[|t.columns|..] ==> c in names && c !in t.columns)
      && (forall i, c :: 0 <= i < |t.rows| && c in t.columns ==> Get(t'.rows[i], c) == Get(t.rows[i], c))
      && (forall i, c :: 0 <= i < |t.rows| && c in t'.columns[|t.columns|..] ==> Get(t'.rows[i], c) == None)
    decreases |names|
  {
    if names != [] {
      var prefix := names[..|names| - 1];
      var c := names[|names| - 1];
      var s := RepairWith(t, prefix);
      RepairWithSpec(t, prefix);
      if c !in s.columns {
        AddNullColumnSpec(s, c);
        var t' := AddNullColumn(s, c);
        assert t'.columns[..|t.columns|] == s.columns[..|t.columns|];
        assert t'.columns[|t.columns|..] == s.columns[|t.columns|..] + [c];
        assert forall d :: d in t.columns ==> d in s.columns by {
          forall d | d in t.columns ensures d in s.columns {
            var k :| 0 <= k < |t.columns| && t.columns[k] == d;
            assert s.columns[..|t.columns|][k] == d;
          }
        }
        forall d | d in s.columns[|t.columns|..] ensures d in s.columns {
          var k :| 0 <= k < |s.columns[|t.columns|..]| && s.columns[|t.columns|..][k] == d;
          assert s.columns[k + |t.columns|] == d;
        }
      }
    }
  }

  /** When every name is already a column, repair changes nothing. */
  lemma {:induction false} RepairWithNoop(t: Table, names: seq<string>)
    requires forall c :: c in names ==> c in t.columns
    ensures RepairWith(t, names) == t
    decreases |names|
  {
    if names != [] {
      RepairWithNoop(t, names[..|names| - 1]);
    }
  }

  /** Schema repair of a stored table: the existing columns and their cells stay
      as they were, the row count is kept, extra columns are not dropped, every
      required column is present afterwards and every added column is null in
      every row. */
  lemma RepairedSchema(t: Table)
    requires WellFormed(t)
    ensures var t' := Repaired(t);
      && WellFormed(t')
      && HasRequired(t'.columns)
      && |t'.rows| == |t.rows|
      && |t.columns| <= |t'.columns| && t'.columns[..|t.columns|] == t.columns
      && (forall c :: c in t'.columns[|t.columns|..] ==> c in REQUIRED && c !in t.columns)
      && (forall i, c :: 0 <= i < |t.rows| && c in t.columns ==> Get(t'.rows[i], c) == Get(t.rows[i], c))
      && (forall i, c :: 0 <= i < |t.rows| && c in t'.columns[|t.columns|..] ==> Get(t'.rows[i], c) == None)
  {
    RepairWithSpec(t, REQUIRED);
  }

  /** A table that already has every required column loads unchanged. */
  lemma RepairedNoop(t: Table)
    requires HasRequired(t.columns)
    ensures Repaired(t) == t
  {
    RepairWithNoop(t, REQUIRED);
  }

  /** Loading a repaired table again repairs nothing. */
  lemma RepairedIdempotent(t: Table)
    requires WellFormed(t)
    ensures Repaired(Repaired(t)) == Repaired(t)
  {
    RepairedSchema(t);
    RepairedNoop(Repaired(t));
  }

  // ----- append -----

  /** The sidebar form's five inputs. */
  datatype Ticket = Ticket(matchName: string, stand: string, purchasePrice: real, sellingPrice: real, quantity: int)

  /** The form's lower bounds: both prices at least 0 and at least one ticket. */
  predicate ValidTicket(x: Ticket) {
    x.purchasePrice >= 0.0 && x.sellingPrice >= 0.0 && x.quantity >= 1
  }

  function Profit(x: Ticket): real {
    (x.sellingPrice - x.purchasePrice) * (x.quantity as real)
  }

  /** The new row's six values, in the order of the required columns. */
  function TicketValues(x: Ticket): seq<Cell> {
    [Some(Text(x.matchName)), Some(Text(x.stand)), Some(Num(x.purchasePrice)),
     Some(Num(x.sellingPrice)), Some(Num(x.quantity as real)), Some(Num(Profit(x)))]
  }

  /** A row laid out by position: value `i` goes under column `i`. */
  function RowOf(columns: seq<string>, values: seq<Cell>): Row
    requires |columns| == |values|
    decreases |columns|
  {
    if columns == [] then map[]
    else RowOf(columns[..|columns| - 1], values[..|values| - 1])[columns[|columns| - 1] := values[|values| - 1]]
  }

  lemma {:induction false} RowOfSpec(columns: seq<string>, values: seq<Cell>)
    requires |columns| == |values| && Distinct(columns)
    ensures HasColumns(RowOf(columns, values), columns)
    ensures forall i :: 0 <= i < |columns| ==> Get(RowOf(columns, values), columns[i]) == values[i]
    decreases |columns|
  {
    if columns != [] {
      var n := |columns| - 1;
      RowOfSpec(columns[..n], values[..n]);
      assert columns == columns[..n] + [columns[n]];
      assert forall i :: 0 <= i < n ==> columns[..n][i] == columns[i] && columns[i] != columns[n];
    }
  }

  /** Why an append fails: a row of six values does not fit a table with a
      different number of columns. */
  datatype AppendError = ShapeMismatch(columnsPassed: nat, valuesPassed: nat)

  /** Appending a ticket: one positional row at the end, or a shape error when the
      table does not have exactly six columns. */
  function AppendTable(t: Table, x: Ticket): Result<Table, AppendError>
    requires ValidTicket(x)
  {
    if |t.columns| != |TicketValues(x)| then Failure(ShapeMismatch(|t.columns|, |TicketValues(x)|))
    else Success(Table(t.columns, t.rows + [RowOf(t.columns, TicketValues(x))]))
  }

  /** Append succeeds exactly when the table has six columns; it then keeps the
      columns, adds exactly one row at the end, leaves every earlier row as it
      was and in order, and lays the six values out by position. */
  lemma AppendIsEndAppend(t: Table, x: Ticket)
    requires WellFormed(t) && ValidTicket(x)
    ensures AppendTable(t, x).Success? <==> |t.columns| == 6
    ensures AppendTable(t, x).Failure? ==> AppendTable(t, x).error == ShapeMismatch(|t.columns|, 6)
    ensures AppendTable(t, x).Success? ==>
      var t' := AppendTable(t, x).value;
      && WellFormed(t')
      && t'.columns == t.columns
      && |t'.rows| == |t.rows| + 1
      && t'.rows[..|t.rows|] == t.rows
      && forall i :: 0 <= i < 6 ==> Get(t'.rows[|t.rows|], t.columns[i]) == TicketValues(x)[i]
  {
    if |t.columns| == 6 {
      RowOfSpec(t.columns, TicketValues(x));
      assert AppendTable(t, x).value.rows[..|t.rows|] == t.rows;
    }
  }

  /** On a table with the required columns in their fixed order, the new last row
      holds the ticket's fields and Profit is (selling - purchase) * quantity,
      whether that is a gain, zero or a loss. */
  lemma AppendProfitFormula(t: Table, x: Ticket)
    requires WellFormed(t) && ValidTicket(x) && t.columns == REQUIRED
    ensures AppendTable(t, x).Success?
    ensures var r := AppendTable(t, x).value.rows[|t.rows|];
      && Get(r, MATCH) == Some(Text(x.matchName))
      && Get(r, STAND) == Some(Text(x.stand))
      && Get(r, PURCHASE_PRICE) == Some(Num(x.purchasePrice))
      && Get(r, SELLING_PRICE) == Some(Num(x.sellingPrice))
      && Get(r, QUANTITY) == Some(Num(x.quantity as real))
      && Get(r, PROFIT) == Some(Num((x.sellingPrice - x.purchasePrice) * (x.quantity as real)))
  {
    AppendIsEndAppend(t, x);
    var r := AppendTable(t, x).value.rows[|t.rows|];
    assert Get(r, t.columns[5]) == TicketValues(x)[5];
    assert t.columns[5] == PROFIT;
    assert TicketValues(x)[5] == Some(Num(Profit(x)));
    assert Profit(x) == (x.sellingPrice - x.purchasePrice) * (x.quantity as real);
  }

  /** The layout is positional: with Match and Stand swapped in the column list,
      the match name lands under Stand and the stand name under Match. */
  lemma AppendMisaligned(t: Table, x: Ticket)
    requires WellFormed(t) && ValidTicket(x)
    requires t.columns == [STAND, MATCH, PURCHASE_PRICE, SELLING_PRICE, QUANTITY, PROFIT]
    ensures AppendTable(t, x).Success?
    ensures Get(AppendTable(t, x).value.rows[|t.rows|], MATCH) == Some(Text(x.stand))
    ensures Get(AppendTable(t, x).value.rows[|t.rows|], STAND) == Some(Text(x.matchName))
  {
    AppendIsEndAppend(t, x);
    assert t.columns[0] == STAND && t.columns[1] == MATCH;
  }

  /** Appending adds the ticket's profit to the total profit, and the last
      cumulative entry is then that new total. */
  lemma AppendAddsProfit(t: Table, x: Ticket)
    requires WellFormed(t) && ValidTicket(x) && t.columns == REQUIRED
    requires NumericColumn(t.rows, PROFIT)
    ensures AppendTable(t, x).Success?
    ensures var rows' := AppendTable(t, x).value.rows;
      && NumericColumn(rows', PROFIT)
      && TotalProfit(rows') == TotalProfit(t.rows) + Profit(x)
      && CumulativeProfit(rows')[|rows'| - 1] == Some(TotalProfit(rows'))
  {
    AppendProfitFormula(t, x);
    var r := AppendTable(t, x).value.rows[|t.rows|];
    var rows' := t.rows + [r];
    assert AppendTable(t, x).value.rows == rows';
    assert forall i :: 0 <= i < |t.rows| ==> rows'[i] == t.rows[i];
    TotalProfitSnoc(t.rows, r);
    CumulativeLastIsTotal(rows');
  }

  /** Loading the copy that append wrote gives back the appended table. */
  lemma AppendThenReload(t: Table, x: Ticket)
    requires WellFormed(t) && ValidTicket(x) && HasRequired(t.columns)
    requires AppendTable(t, x).Success?
    ensures Repaired(AppendTable(t, x).value) == AppendTable(t, x).value
  {
    RepairedNoop(AppendTable(t, x).value);
  }

  // ----- the derived column and reset -----

  function NumCell(v: Option<real>): Cell {
    match v
    case None => None
    case Some(x) => Some(Num(x))
  }

  /** The table once the page has set the Cumulative Profit column: added after the
      others if it is new, overwritten in place if it exists. */
  function WithCumulative(t: Table): Table
    requires NumericColumn(t.rows, PROFIT)
  {
    var cum := CumulativeProfit(t.rows);
    Table(if CUMULATIVE_PROFIT in t.columns then t.columns else t.columns + [CUMULATIVE_PROFIT],
          seq(|t.rows|, i requires 0 <= i < |t.rows| => t.rows[i][CUMULATIVE_PROFIT := NumCell(cum[i])]))
  }

  /** The derived column keeps the table rectangular, keeps every other cell and
      the row count, and is added after the other columns when it is new. */
  lemma WithCumulativeSpec(t: Table)
    requires WellFormed(t) && NumericColumn(t.rows, PROFIT)
    ensures WellFormed(WithCumulative(t))
    ensures WithCumulative(t).columns
         == if CUMULATIVE_PROFIT in t.columns then t.columns else t.columns + [CUMULATIVE_PROFIT]
    ensures |WithCumulative(t).rows| == |t.rows|
    ensures forall i, c :: 0 <= i < |t.rows| && c != CUMULATIVE_PROFIT ==> Get(WithCumulative(t).rows[i], c) == Get(t.rows[i], c)
  {
  }

  /** Row `i` of the derived column holds the total profit of rows 0..i, or null
      where row `i` has no Profit. */
  lemma WithCumulativeAt(t: Table, i: int)
    requires NumericColumn(t.rows, PROFIT) && 0 <= i < |t.rows|
    ensures NumericColumn(t.rows[..i + 1], PROFIT)
    ensures Get(WithCumulative(t).rows[i], CUMULATIVE_PROFIT)
         == if Get(t.rows[i], PROFIT).Some? then Some(Num(TotalProfit(t.rows[..i + 1]))) else None
  {
    CumulativeIsPrefixTotal(t.rows, i);
  }

  /** Reset as written: zero rows under the current column list. */
  function ResetTable(t: Table): Table {
    Table(t.columns, [])
  }

  /** Reset to the fixed schema: zero rows under the six required columns. It
      takes the page's table, which it ignores, so that it pairs with `ResetTable`. */
  function ResetFresh(t: Table): Table {
    Table(REQUIRED, [])
  }

  lemma RequiredDistinct()
    ensures Distinct(REQUIRED) && CUMULATIVE_PROFIT !in REQUIRED && |REQUIRED| == 6
  {
  }

  /** Reset as written keeps the derived column: after a page run on a non-empty
      ledger stored under the six required columns, the reset writes seven
      columns, the next load keeps all seven, and every append then fails. */
  lemma ReloadAfterResetRejectsAppend(file: Table, x: Ticket)
    requires WellFormed(file) && file.columns == REQUIRED && file.rows != []
    requires NumericColumn(file.rows, PROFIT) && ValidTicket(x)
    ensures var page := Repaired(file);
      NumericColumn(page.rows, PROFIT)
      && var written := ResetTable(WithCumulative(page));
      && written.columns == REQUIRED + [CUMULATIVE_PROFIT]
      && written.rows == []
      && Repaired(written) == written
      && AppendTable(Repaired(written), x) == Failure(ShapeMismatch(7, 6))
  {
    RequiredDistinct();
    RepairedNoop(file);
    var written := ResetTable(WithCumulative(file));
    RepairedNoop(written);
  }

  /** Reset to the fixed schema: whatever the page held, the next load yields an
      empty six-column table and the next append succeeds with the ticket's row. */
  lemma ReloadAfterFreshResetAccepts(page: Table, x: Ticket)
    requires ValidTicket(x)
    ensures var written := ResetFresh(page);
      && written.columns == REQUIRED
      && written.rows == []
      && Repaired(written) == written
      && AppendTable(Repaired(written), x).Success?
      && |AppendTable(Repaired(written), x).value.rows| == 1
      && Get(AppendTable(Repaired(written), x).value.rows[0], PROFIT) == Some(Num(Profit(x)))
  {
    RequiredDistinct();
    var written := ResetFresh(page);
    RepairedNoop(written);
    AppendProfitFormula(written, x);
  }

  // ----- the ledger object -----

  /** The ledger held in memory by the page together with the stored copy
      (`None`: no stored table exists). */
  class Ledger {
    var columns: seq<string>
    var rows: seq<Row>
    var stored: Option<Table>

    function Current(): Table
      reads this
    {
      Table(columns, rows)
    }

    ghost predicate Valid()
      reads this
    {
      WellFormed(Current()) && (stored.Some? ==> WellFormed(stored.value))
    }

    /** Load: with no stored table, start empty under the six required columns and
        store that; otherwise take the stored table and repair its schema. */
    constructor Load(file: Option<Table>)
      requires file.Some? ==> WellFormed(file.value)
      ensures Valid()
      ensures file.None? ==> Current() == Table(REQUIRED, []) && stored == Some(Current())
      ensures file.Some? ==> Current() == Repaired(file.value) && stored == file
    {
      RequiredDistinct();
      if file.None? {
        columns, rows, stored := REQUIRED, [], Some(Table(REQUIRED, []));
      } else {
        columns, rows, stored := file.value.columns, file.value.rows, file;
      }
      new;
      if file.Some? {
        AddMissingColumns();
      }
    }

    /** Adds each missing required column in turn, null in every row. */
    method AddMissingColumns()
      requires Valid()
      modifies this
      ensures Valid()
      ensures Current() == Repaired(old(Current())) && stored == old(stored)
    {
      ghost var start := Current();
      for i := 0 to |REQUIRED|
        invariant Valid() && stored == old(stored)
        invariant Current() == RepairWith(start, REQUIRED[..i])
      {
        var c := REQUIRED[i];
        assert REQUIRED[..i + 1][..i] == REQUIRED[..i];
        if c !in columns {
          AddNullColumnSpec(Current(), c);
          var before := rows;
          columns := columns + [c];
          rows := seq(|before|, j requires 0 <= j < |before| => before[j][c := None]);
        }
      }
      assert REQUIRED[..|REQUIRED|] == REQUIRED;
    }

    /** Add Ticket: on a six-column table, one positional row at the end and the
        whole table written back; otherwise a shape error and nothing changes. */
    method Append(x: Ticket) returns (outcome: Outcome<AppendError>)
      requires Valid() && ValidTicket(x)
      modifies this
      ensures Valid()
      ensures AppendTable(old(Current()), x).Success? ==>
        outcome.Pass? && Current() == AppendTable(old(Current()), x).value && stored == Some(Current())
      ensures AppendTable(old(Current()), x).Failure? ==>
        outcome == Fail(AppendTable(old(Current()), x).error) && unchanged(this)
    {
      AppendIsEndAppend(Current(), x);
      var values := TicketValues(x);
      if |columns| != |values| {
        outcome := Fail(ShapeMismatch(|columns|, |values|));
        return;
      }
      rows := rows + [RowOf(columns, values)];
      stored := Some(Table(columns, rows));
      outcome := Pass;
    }

    /** The page's derived column; the stored copy is not written. */
    method AddCumulativeProfit()
      requires Valid() && NumericColumn(rows, PROFIT)
      modifies this
      ensures Valid()
      ensures Current() == WithCumulative(old(Current())) && stored == old(stored)
    {
      WithCumulativeSpec(Current());
      var cum := CumulativeProfit(rows);
      if CUMULATIVE_PROFIT !in columns {
        columns := columns + [CUMULATIVE_PROFIT];
      }
      var before := rows;
      rows := seq(|before|, i requires 0 <= i < |before| => before[i][CUMULATIVE_PROFIT := NumCell(cum[i])]);
    }

    /** Reset as written: zero rows under the current column list, written back.
        The button is offered only when the table has rows and the pie chart of
        the per-Match Profit sums above it could be drawn. */
    method Reset()
      requires Valid() && rows != [] && NumericColumn(rows, PROFIT) && MatchProfitsNonNegative(rows)
      modifies this
      ensures Valid()
      ensures Current() == ResetTable(old(Current())) && stored == Some(Current())
    {
      rows := [];
      stored := Some(Table(columns, rows));
    }

    /** Reset to the fixed schema: zero rows under the six required columns, written back. */
    method ResetToSchema()
      requires Valid() && rows != [] && NumericColumn(rows, PROFIT) && MatchProfitsNonNegative(rows)
      modifies this
      ensures Valid()
      ensures Current() == ResetFresh(old(Current())) && stored == Some(Current())
    {
      RequiredDistinct();
      columns, rows := REQUIRED, [];
      stored := Some(Table(columns, rows));
    }
  }
}
