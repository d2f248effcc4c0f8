/** Worked ledgers: a gain followed by a break-even sale of the same match, and
    a single loss. */
module Scenarios {
  import opened Frame
  import opened Summary
  import opened Store

  const EMPTY := Table(REQUIRED, [])

  /** A gain of 100 and a break-even sale of the same match: the total is 100, the
      running profit is [100, 100] and "Match A" is one group with Selling Price
      sum 200 and Profit sum 100. */
  lemma GainThenBreakEven()
    ensures var t1 := AppendTable(EMPTY, Ticket("Match A", "Stand 1", 100.0, 150.0, 2));
      && t1.Success?
      && var t2 := AppendTable(t1.value, Ticket("Match A", "Stand 2", 50.0, 50.0, 1));
      && t2.Success?
      && NumericColumn(t2.value.rows, PROFIT)
      && TotalProfit(t2.value.rows) == 100.0
      && CumulativeProfit(t2.value.rows) == [Some(100.0), Some(100.0)]
  {
    TwoTicketsRunning(Ticket("Match A", "Stand 1", 100.0, 150.0, 2), Ticket("Match A", "Stand 2", 50.0, 50.0, 1));
  }

  /** What one append to a six-column ledger does, in one place. */
  lemma AppendStep(t: Table, x: Ticket)
    requires WellFormed(t) && ValidTicket(x) && t.columns == REQUIRED && NumericColumn(t.rows, PROFIT)
    ensures AppendTable(t, x).Success?
    ensures var t' := AppendTable(t, x).value;
      && WellFormed(t') && t'.columns == REQUIRED
      && |t'.rows| == |t.rows| + 1 && t'.rows[..|t.rows|] == t.rows
      && NumericColumn(t'.rows, PROFIT)
      && TotalProfit(t'.rows) == TotalProfit(t.rows) + Profit(x)
      && Get(t'.rows[|t.rows|], MATCH) == Some(Text(x.matchName))
      && Get(t'.rows[|t.rows|], SELLING_PRICE) == Some(Num(x.sellingPrice))
      && Get(t'.rows[|t.rows|], PROFIT) == Some(Num(Profit(x)))
  {
    AppendIsEndAppend(t, x);
    AppendProfitFormula(t, x);
    AppendAddsProfit(t, x);
  }

  /** Two tickets appended to an empty ledger: the total is the sum of their
      profits and the running profit passes through the first one's. */
  lemma TwoTicketsRunning(a: Ticket, b: Ticket)
    requires ValidTicket(a) && ValidTicket(b)
    ensures var t1 := AppendTable(EMPTY, a);
      && t1.Success?
      && var t2 := AppendTable(t1.value, b);
      && t2.Success?
      && NumericColumn(t2.value.rows, PROFIT)
      && TotalProfit(t2.value.rows) == Profit(a) + Profit(b)
      && CumulativeProfit(t2.value.rows) == [Some(Profit(a)), Some(Profit(a) + Profit(b))]
  {
    RequiredDistinct();
    AppendStep(EMPTY, a);
    var t1 := AppendTable(EMPTY, a).value;
    AppendStep(t1, b);
    var rows := AppendTable(t1, b).value.rows;
    assert Get(rows[0], PROFIT).Some? by {
      assert rows[0] == rows[..1][0];
    }
    var cum := CumulativeProfit(rows);
    assert cum[0] == Some(Profit(a)) by {
      CumulativeIsPrefixTotal(rows, 0);
    }
    assert cum[1] == Some(Profit(a) + Profit(b)) by {
      CumulativeIsPrefixTotal(rows, 1);
      assert rows[..2] == rows;
    }
    assert cum == [Some(Profit(a)), Some(Profit(a) + Profit(b))];
  }

  /** The same two sales form the single group "Match A" with Selling Price sum
      200 and Profit sum 100. */
  lemma GainThenBreakEvenGroups()
    ensures var t1 := AppendTable(EMPTY, Ticket("Match A", "Stand 1", 100.0, 150.0, 2));
      && t1.Success?
      && var t2 := AppendTable(t1.value, Ticket("Match A", "Stand 2", 50.0, 50.0, 1));
      && t2.Success?
      && NumericColumn(t2.value.rows, PROFIT) && NumericColumn(t2.value.rows, SELLING_PRICE)
      && MatchSummary(t2.value.rows) == [MatchTotals(Text("Match A"), 200.0, 100.0)]
  {
    SameMatchTwice(Ticket("Match A", "Stand 1", 100.0, 150.0, 2), Ticket("Match A", "Stand 2", 50.0, 50.0, 1));
  }

  /** Two tickets of the same match appended to an empty ledger form one group. */
  lemma SameMatchTwice(a: Ticket, b: Ticket)
    requires ValidTicket(a) && ValidTicket(b) && a.matchName == b.matchName
    ensures var t1 := AppendTable(EMPTY, a);
      && t1.Success?
      && var t2 := AppendTable(t1.value, b);
      && t2.Success?
      && NumericColumn(t2.value.rows, PROFIT) && NumericColumn(t2.value.rows, SELLING_PRICE)
      && MatchSummary(t2.value.rows)
         == [MatchTotals(Text(a.matchName), a.sellingPrice + b.sellingPrice, Profit(a) + Profit(b))]
  {
    RequiredDistinct();
    AppendStep(EMPTY, a);
    var t1 := AppendTable(EMPTY, a).value;
    AppendStep(t1, b);
    var rows := AppendTable(t1, b).value.rows;
    assert rows[0] == rows[..1][0];
    TwoSaleGroups(rows, Text(a.matchName), a.sellingPrice, b.sellingPrice, Profit(a), Profit(b));
  }

  /** Two rows of the same match form one group holding both rows' sums. */
  lemma TwoSaleGroups(rows: seq<Row>, m: Value, s1: real, s2: real, p1: real, p2: real)
    requires |rows| == 2
    requires Get(rows[0], MATCH) == Some(m) && Get(rows[1], MATCH) == Some(m)
    requires Get(rows[0], SELLING_PRICE) == Some(Num(s1)) && Get(rows[1], SELLING_PRICE) == Some(Num(s2))
    requires Get(rows[0], PROFIT) == Some(Num(p1)) && Get(rows[1], PROFIT) == Some(Num(p2))
    ensures NumericColumn(rows, PROFIT) && NumericColumn(rows, SELLING_PRICE)
    ensures MatchSummary(rows) == [MatchTotals(m, s1 + s2, p1 + p2)]
  {
    assert rows[..1][..0] == [];
    assert Keys(rows[..1], MATCH) == [m];
    assert Keys(rows, MATCH) == [m];
    assert SumWhere(rows[..1], SELLING_PRICE, KeyIs(MATCH, m)) == s1;
    assert SumWhere(rows[..1], PROFIT, KeyIs(MATCH, m)) == p1;
  }

  /** The gain-then-break-even ledger reaches the reset (its one Match group has
      Profit sum 100), and after the reset as written the next append fails. */
  lemma GainThenBreakEvenResetRejectsAppend(x: Ticket)
    requires ValidTicket(x)
    ensures var t1 := AppendTable(EMPTY, Ticket("Match A", "Stand 1", 100.0, 150.0, 2));
      && t1.Success?
      && var t2 := AppendTable(t1.value, Ticket("Match A", "Stand 2", 50.0, 50.0, 1));
      && t2.Success?
      && NumericColumn(t2.value.rows, PROFIT)
      && MatchProfitsNonNegative(t2.value.rows)
      && AppendTable(Repaired(ResetTable(WithCumulative(t2.value))), x) == Failure(ShapeMismatch(7, 6))
  {
    SameMatchResetRejectsAppend(Ticket("Match A", "Stand 1", 100.0, 150.0, 2), Ticket("Match A", "Stand 2", 50.0, 50.0, 1), x);
  }

  /** Two tickets of one match with a non-negative combined profit reach the
      reset, and after the reset as written the next append fails. */
  lemma SameMatchResetRejectsAppend(a: Ticket, b: Ticket, x: Ticket)
    requires ValidTicket(a) && ValidTicket(b) && ValidTicket(x) && a.matchName == b.matchName
    requires Profit(a) + Profit(b) >= 0.0
    ensures var t1 := AppendTable(EMPTY, a);
      && t1.Success?
      && var t2 := AppendTable(t1.value, b);
      && t2.Success?
      && NumericColumn(t2.value.rows, PROFIT)
      && MatchProfitsNonNegative(t2.value.rows)
      && AppendTable(Repaired(ResetTable(WithCumulative(t2.value))), x) == Failure(ShapeMismatch(7, 6))
  {
    RequiredDistinct();
    AppendStep(EMPTY, a);
    var t1 := AppendTable(EMPTY, a).value;
    AppendStep(t1, b);
    var t2 := AppendTable(t1, b).value;
    assert NumericColumn(t2.rows, SELLING_PRICE) && forall g :: g in MatchSummary(t2.rows) ==> g.profit >= 0.0 by {
      SameMatchTwice(a, b);
    }
    ResetReachedThenRejects(t2, x);
  }

  /** A six-column ledger with rows and no negative Match group reaches the
      reset, and after the reset as written the next append fails. */
  lemma ResetReachedThenRejects(t: Table, x: Ticket)
    requires WellFormed(t) && t.columns == REQUIRED && t.rows != [] && ValidTicket(x)
    requires NumericColumn(t.rows, SELLING_PRICE) && NumericColumn(t.rows, PROFIT)
    requires forall g :: g in MatchSummary(t.rows) ==> g.profit >= 0.0
    ensures MatchProfitsNonNegative(t.rows)
    ensures AppendTable(Repaired(ResetTable(WithCumulative(t))), x) == Failure(ShapeMismatch(7, 6))
  {
    MatchProfitsNonNegativeSummary(t.rows);
    ReloadAfterResetRejectsAppend(t, x);
    RepairedNoop(t);
  }

  /** A single loss: selling 3 tickets bought at 200 for 180 records a Profit of
      -60, which is the total. */
  lemma SingleLoss()
    ensures var t := AppendTable(EMPTY, Ticket("Match B", "Stand 1", 200.0, 180.0, 3));
      && t.Success?
      && NumericColumn(t.value.rows, PROFIT)
      && Get(t.value.rows[0], PROFIT) == Some(Num(-60.0))
      && TotalProfit(t.value.rows) == -60.0
  {
    var x := Ticket("Match B", "Stand 1", 200.0, 180.0, 3);
    RequiredDistinct();
    AppendProfitFormula(EMPTY, x);
    AppendAddsProfit(EMPTY, x);
  }

  /** The single-loss ledger never reaches the reset: its one Match group has a
      negative Profit sum, which the pie chart refuses. */
  lemma SingleLossBlocksReset()
    ensures var t := AppendTable(EMPTY, Ticket("Match B", "Stand 1", 200.0, 180.0, 3));
      && t.Success?
      && !MatchProfitsNonNegative(t.value.rows)
  {
    var x := Ticket("Match B", "Stand 1", 200.0, 180.0, 3);
    RequiredDistinct();
    AppendStep(EMPTY, x);
    var rows := AppendTable(EMPTY, x).value.rows;
    assert rows[..0] == [];
    assert Get(rows[0], MATCH) == Some(Text("Match B"));
    assert Amount(rows[0], PROFIT) == Profit(x) == -60.0;
    assert Text("Match B") in Keys(rows, MATCH);
    var f := KeyIs(MATCH, Text("Match B"));
    assert Term(rows[0], PROFIT, f) == -60.0;
    assert SumWhere(rows, PROFIT, f) == SumWhere(rows[..0], PROFIT, f) + Term(rows[0], PROFIT, f);
  }
}
