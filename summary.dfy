/** The summary engine: the total profit, the running (cumulative) profit and
    the group-by sums the ledger page shows, as pure functions over the rows of
    the table, with the properties that tie them together. */
module Summary {
  import opened Frame

  /** The numeric value of a cell; a null cell is skipped by the sum, so it adds 0. */
  function Amount(r: Row, col: string): real {
    match Get(r, col)
    case Some(Num(x)) => x
    case _ => 0.0
  }

  predicate IsNumeric(c: Cell) {
    c.None? || c.value.Num?
  }

  /** Every cell of column `col` is null or a number, so that summing it is defined. */
  predicate NumericColumn(rows: seq<Row>, col: string) {
    forall i :: 0 <= i < |rows| ==> IsNumeric(Get(rows[i], col))
  }

  /** Which rows a sum ranges over: all of them, those whose key cell is not
      null, or those whose key cell holds exactly `key`. */
  datatype Filter = AllRows | KeyPresent(keyCol: string) | KeyIs(keyCol: string, key: Value)

  predicate Selects(f: Filter, r: Row) {
    match f
    case AllRows => true
    case KeyPresent(k) => Get(r, k).Some?
    case KeyIs(k, v) => Get(r, k) == Some(v)
  }

  /** What row `r` adds to the sum of column `col` over the rows `f` selects. */
  function Term(r: Row, col: string, f: Filter): real {
    if Selects(f, r) then Amount(r, col) else 0.0
  }

  /** The null-skipping sum of column `col` over the rows that `f` selects. */
  function SumWhere(rows: seq<Row>, col: string, f: Filter): real
    decreases |rows|
  {
    if rows == [] then 0.0
    else SumWhere(rows[..|rows| - 1], col, f) + Term(rows[|rows| - 1], col, f)
  }

  lemma SumWhereSnoc(rows: seq<Row>, r: Row, col: string, f: Filter)
    ensures SumWhere(rows + [r], col, f) == SumWhere(rows, col, f) + Term(r, col, f)
  {
  }

  lemma {:induction false} SumWhereConcat(a: seq<Row>, b: seq<Row>, col: string, f: Filter)
    ensures SumWhere(a + b, col, f) == SumWhere(a, col, f) + SumWhere(b, col, f)
    decreases |b|
  {
    if b == [] {
      assert a + b == a;
    } else {
      var b', x := b[..|b| - 1], b[|b| - 1];
      assert b == b' + [x];
      assert a + b == (a + b') + [x];
      SumWhereConcat(a, b', col, f);
      SumWhereSnoc(a + b', x, col, f);
      SumWhereSnoc(b', x, col, f);
    }
  }

  /** Taking one row out of the table takes exactly its term out of the sum. */
  lemma SumWhereRemove(s: seq<Row>, i: int, col: string, f: Filter)
    requires 0 <= i < |s|
    ensures SumWhere(s, col, f) == SumWhere(s[..i] + s[i + 1..], col, f) + Term(s[i], col, f)
  {
    assert s == s[..i] + ([s[i]] + s[i + 1..]);
    assert [] + [s[i]] == [s[i]];
    SumWhereSnoc([], s[i], col, f);
    SumWhereConcat(s[..i], [s[i]] + s[i + 1..], col, f);
    SumWhereConcat([s[i]], s[i + 1..], col, f);
    SumWhereConcat(s[..i], s[i + 1..], col, f);
  }

  lemma MultisetRemove<T>(s: seq<T>, i: int)
    requires 0 <= i < |s|
    ensures multiset(s[..i] + s[i + 1..]) == multiset(s) - multiset{s[i]}
  {
    assert s == s[..i] + [s[i]] + s[i + 1..];
  }

  /** A sum does not depend on the order of the rows: any permutation gives the same value. */
  lemma {:induction false} SumWherePermutation(a: seq<Row>, b: seq<Row>, col: string, f: Filter)
    requires multiset(a) == multiset(b)
    ensures SumWhere(a, col, f) == SumWhere(b, col, f)
    decreases |a|
  {
    if a == [] {
      assert |b| == |multiset(b)| == 0;
    } else {
      var n := |a| - 1;
      var x := a[n];
      assert x in multiset(b);
      var i :| 0 <= i < |b| && b[i] == x;
      MultisetRemove(a, n);
      MultisetRemove(b, i);
      assert a[..n] + a[n + 1..] == a[..n];
      SumWherePermutation(a[..n], b[..i] + b[i + 1..], col, f);
      SumWhereRemove(b, i, col, f);
    }
  }

  /** Two filters that select the same rows give the same sum. */
  lemma {:induction false} SumWhereSameSelection(rows: seq<Row>, col: string, f: Filter, g: Filter)
    requires forall i :: 0 <= i < |rows| ==> (Selects(f, rows[i]) <==> Selects(g, rows[i]))
    ensures SumWhere(rows, col, f) == SumWhere(rows, col, g)
    decreases |rows|
  {
    if rows != [] {
      SumWhereSameSelection(rows[..|rows| - 1], col, f, g);
    }
  }

  // ----- total profit (the page's total) -----

  /** The sum of the non-null Profit cells of the table. */
  function TotalProfit(rows: seq<Row>): (total: real)
    requires NumericColumn(rows, PROFIT)
    ensures rows == [] ==> total == 0.0
  {
    SumWhere(rows, PROFIT, AllRows)
  }

  /** Adding a row at the end adds its Profit (or nothing, when it is null) to the total. */
  lemma TotalProfitSnoc(rows: seq<Row>, r: Row)
    requires NumericColumn(rows + [r], PROFIT)
    ensures NumericColumn(rows, PROFIT)
    ensures TotalProfit(rows + [r]) == TotalProfit(rows) + Amount(r, PROFIT)
  {
    assert forall i :: 0 <= i < |rows| ==> (rows + [r])[i] == rows[i];
    SumWhereSnoc(rows, r, PROFIT, AllRows);
  }

  // ----- cumulative profit -----

  /** The running sum of the Profit column in row order, starting from `acc`;
      like a null-skipping cumulative sum, a null Profit yields a null entry and
      leaves the running sum as it was. */
  function RunningProfit(rows: seq<Row>, acc: real): (cum: seq<Option<real>>)
    ensures |cum| == |rows|
  {
    if rows == [] then []
    else
      var acc' := acc + Amount(rows[0], PROFIT);
      [if Get(rows[0], PROFIT).Some? then Some(acc') else None] + RunningProfit(rows[1..], acc')
  }

  /** The cumulative profit column: one entry per row. */
  function CumulativeProfit(rows: seq<Row>): (cum: seq<Option<real>>)
    requires NumericColumn(rows, PROFIT)
    ensures |cum| == |rows|
  {
    RunningProfit(rows, 0.0)
  }

  lemma {:induction false} RunningProfitAt(rows: seq<Row>, acc: real, i: int)
    requires 0 <= i < |rows|
    ensures RunningProfit(rows, acc)[i]
         == if Get(rows[i], PROFIT).Some? then Some(acc + SumWhere(rows[..i + 1], PROFIT, AllRows)) else None
    decreases i
  {
    var r := rows[0];
    assert [] + [r] == [r];
    SumWhereSnoc([], r, PROFIT, AllRows);
    if i == 0 {
      assert rows[..1] == [r];
    } else {
      RunningProfitAt(rows[1..], acc + Amount(r, PROFIT), i - 1);
      assert rows[1..][i - 1] == rows[i];
      assert rows[1..][..i] == rows[1..i + 1];
      assert rows[..i + 1] == [r] + rows[1..i + 1];
      SumWhereConcat([r], rows[1..i + 1], PROFIT, AllRows);
    }
  }

  /** Entry `i` of the cumulative profit is the total profit of the first `i + 1`
      rows, or null when row `i` has no Profit. */
  lemma CumulativeIsPrefixTotal(rows: seq<Row>, i: int)
    requires NumericColumn(rows, PROFIT)
    requires 0 <= i < |rows|
    ensures NumericColumn(rows[..i + 1], PROFIT)
    ensures CumulativeProfit(rows)[i]
         == if Get(rows[i], PROFIT).Some? then Some(TotalProfit(rows[..i + 1])) else None
  {
    assert forall j :: 0 <= j < i + 1 ==> rows[..i + 1][j] == rows[j];
    RunningProfitAt(rows, 0.0, i);
  }

  /** When the last row has a Profit, the last cumulative entry is the total profit. */
  lemma CumulativeLastIsTotal(rows: seq<Row>)
    requires NumericColumn(rows, PROFIT)
    requires rows != [] && Get(rows[|rows| - 1], PROFIT).Some?
    ensures CumulativeProfit(rows)[|rows| - 1] == Some(TotalProfit(rows))
  {
    CumulativeIsPrefixTotal(rows, |rows| - 1);
    assert rows[..|rows|] == rows;
  }

  // ----- group-by sums -----

  /** The distinct non-null values of column `keyCol`, in order of first appearance. */
  function Keys(rows: seq<Row>, keyCol: string): (keys: seq<Value>)
    ensures Distinct(keys)
    ensures forall k :: k in keys <==> exists i :: 0 <= i < |rows| && Get(rows[i], keyCol) == Some(k)
    decreases |rows|
  {
    if rows == [] then []
    else
      var prefix := rows[..|rows| - 1];
      assert forall i :: 0 <= i < |prefix| ==> prefix[i] == rows[i];
      var keys := Keys(prefix, keyCol);
      match Get(rows[|rows| - 1], keyCol)
      case None => keys
      case Some(k) => if k in keys then keys else keys + [k]
  }

  /** The null-skipping sum of `col` over the rows whose `keyCol` cell is exactly `key`. */
  function GroupSum(rows: seq<Row>, keyCol: string, key: Value, col: string): real {
    SumWhere(rows, col, KeyIs(keyCol, key))
  }

  /** The group sums of `col` for each key of `keys`, in that order. */
  function GroupSums(rows: seq<Row>, keyCol: string, col: string, keys: seq<Value>): (sums: seq<real>) {
    seq(|keys|, j requires 0 <= j < |keys| => GroupSum(rows, keyCol, keys[j], col))
  }

  function Total(xs: seq<real>): real {
    if xs == [] then 0.0 else xs[0] + Total(xs[1..])
  }

  function Plus(a: seq<real>, b: seq<real>): (c: seq<real>)
    requires |a| == |b|
  {
    seq(|a|, j requires 0 <= j < |a| => a[j] + b[j])
  }

  lemma {:induction false} TotalPlus(a: seq<real>, b: seq<real>)
    requires |a| == |b|
    ensures Total(Plus(a, b)) == Total(a) + Total(b)
    decreases |a|
  {
    if a != [] {
      assert Plus(a, b)[1..] == Plus(a[1..], b[1..]);
      TotalPlus(a[1..], b[1..]);
    }
  }

  lemma {:induction false} TotalZeros(xs: seq<real>)
    requires forall j :: 0 <= j < |xs| ==> xs[j] == 0.0
    ensures Total(xs) == 0.0
    decreases |xs|
  {
    if xs != [] {
      TotalZeros(xs[1..]);
    }
  }

  /** What row `r` adds to each group sum of `keys`. */
  function Indicators(r: Row, keyCol: string, col: string, keys: seq<Value>): seq<real> {
    seq(|keys|, j requires 0 <= j < |keys| => Term(r, col, KeyIs(keyCol, keys[j])))
  }

  /** Over distinct keys, a row contributes to at most one group: the one of its own key. */
  lemma {:induction false} TotalIndicators(r: Row, keyCol: string, col: string, keys: seq<Value>)
    requires Distinct(keys)
    ensures Total(Indicators(r, keyCol, col, keys))
         == if Get(r, keyCol).Some? && Get(r, keyCol).value in keys then Amount(r, col) else 0.0
    decreases |keys|
  {
    if keys != [] {
      assert Indicators(r, keyCol, col, keys)[1..] == Indicators(r, keyCol, col, keys[1..]);
      assert Distinct(keys[1..]) by {
        forall i, j | 0 <= i < j < |keys[1..]| ensures keys[1..][i] != keys[1..][j] {
          assert keys[1..][i] == keys[i + 1] && keys[1..][j] == keys[j + 1];
        }
      }
      assert keys[0] !in keys[1..];
      TotalIndicators(r, keyCol, col, keys[1..]);
    }
  }

  /** Partition of the sum: over distinct keys that cover every non-null key of the
      table, the group sums add up to the sum over the rows with a non-null key. */
  lemma {:induction false} GroupSumsPartition(rows: seq<Row>, keyCol: string, col: string, keys: seq<Value>)
    requires Distinct(keys)
    requires forall i :: 0 <= i < |rows| && Get(rows[i], keyCol).Some? ==> Get(rows[i], keyCol).value in keys
    ensures Total(GroupSums(rows, keyCol, col, keys)) == SumWhere(rows, col, KeyPresent(keyCol))
    decreases |rows|
  {
    if rows == [] {
      TotalZeros(GroupSums(rows, keyCol, col, keys));
    } else {
      var prefix, r := rows[..|rows| - 1], rows[|rows| - 1];
      assert forall i :: 0 <= i < |prefix| ==> prefix[i] == rows[i];
      GroupSumsPartition(prefix, keyCol, col, keys);
      assert GroupSums(rows, keyCol, col, keys)
          == Plus(GroupSums(prefix, keyCol, col, keys), Indicators(r, keyCol, col, keys));
      TotalPlus(GroupSums(prefix, keyCol, col, keys), Indicators(r, keyCol, col, keys));
      TotalIndicators(r, keyCol, col, keys);
    }
  }

  /** Reordering the rows leaves the set of group keys as it was. */
  lemma KeysPermutation(a: seq<Row>, b: seq<Row>, keyCol: string, k: Value)
    requires multiset(a) == multiset(b)
    ensures k in Keys(a, keyCol) <==> k in Keys(b, keyCol)
  {
    if k in Keys(a, keyCol) {
      var i :| 0 <= i < |a| && Get(a[i], keyCol) == Some(k);
      assert a[i] in multiset(b);
      var i' :| 0 <= i' < |b| && b[i'] == a[i];
    }
    if k in Keys(b, keyCol) {
      var i :| 0 <= i < |b| && Get(b[i], keyCol) == Some(k);
      assert b[i] in multiset(a);
      var i' :| 0 <= i' < |a| && a[i'] == b[i];
    }
  }

  // ----- per-Match and per-Stand summaries -----

  datatype MatchTotals = MatchTotals(key: Value, sellingPrice: real, profit: real)

  datatype StandTotals = StandTotals(key: Value, profit: real)

  /** One group per distinct non-null Match, with its Selling Price and Profit sums. */
  function MatchSummary(rows: seq<Row>): seq<MatchTotals>
    requires NumericColumn(rows, SELLING_PRICE) && NumericColumn(rows, PROFIT)
  {
    var keys := Keys(rows, MATCH);
    seq(|keys|, j requires 0 <= j < |keys| =>
      MatchTotals(keys[j], GroupSum(rows, MATCH, keys[j], SELLING_PRICE), GroupSum(rows, MATCH, keys[j], PROFIT)))
  }

  /** One group per distinct non-null Stand, with its Profit sum. */
  function StandSummary(rows: seq<Row>): seq<StandTotals>
    requires NumericColumn(rows, PROFIT)
  {
    var keys := Keys(rows, STAND);
    seq(|keys|, j requires 0 <= j < |keys| => StandTotals(keys[j], GroupSum(rows, STAND, keys[j], PROFIT)))
  }

  function MatchSellingPrices(groups: seq<MatchTotals>): seq<real> {
    seq(|groups|, j requires 0 <= j < |groups| => groups[j].sellingPrice)
  }

  function MatchProfits(groups: seq<MatchTotals>): seq<real> {
    seq(|groups|, j requires 0 <= j < |groups| => groups[j].profit)
  }

  function StandProfits(groups: seq<StandTotals>): seq<real> {
    seq(|groups|, j requires 0 <= j < |groups| => groups[j].profit)
  }

  predicate AllKeyed(rows: seq<Row>, keyCol: string) {
    forall i :: 0 <= i < |rows| ==> Get(rows[i], keyCol).Some?
  }

  /** Every per-Match Profit sum is at least 0. The page draws these sums as a pie
      chart, which refuses negative wedges, so the controls after the chart are
      reached only when this holds. */
  predicate MatchProfitsNonNegative(rows: seq<Row>) {
    forall k :: k in Keys(rows, MATCH) ==> GroupSum(rows, MATCH, k, PROFIT) >= 0.0
  }

  /** The pie's condition, read off the per-Match summary: no group has a negative Profit sum. */
  lemma MatchProfitsNonNegativeSummary(rows: seq<Row>)
    requires NumericColumn(rows, SELLING_PRICE) && NumericColumn(rows, PROFIT)
    ensures MatchProfitsNonNegative(rows) <==> forall g :: g in MatchSummary(rows) ==> g.profit >= 0.0
  {
    var keys := Keys(rows, MATCH);
    var groups := MatchSummary(rows);
    if forall g :: g in groups ==> g.profit >= 0.0 {
      forall k | k in keys ensures GroupSum(rows, MATCH, k, PROFIT) >= 0.0 {
        var j :| 0 <= j < |keys| && keys[j] == k;
        assert groups[j] in groups;
      }
    }
  }

  /** The Match groups are exactly the distinct non-null Match values, each once,
      and each group's sums are the sums over the rows with that exact Match. */
  lemma MatchSummaryGroups(rows: seq<Row>)
    requires NumericColumn(rows, SELLING_PRICE) && NumericColumn(rows, PROFIT)
    ensures forall j, j' :: 0 <= j < j' < |MatchSummary(rows)| ==> MatchSummary(rows)[j].key != MatchSummary(rows)[j'].key
    ensures forall k :: (exists j :: 0 <= j < |MatchSummary(rows)| && MatchSummary(rows)[j].key == k)
                    <==> (exists i :: 0 <= i < |rows| && Get(rows[i], MATCH) == Some(k))
    ensures forall j :: 0 <= j < |MatchSummary(rows)| ==>
              var g := MatchSummary(rows)[j];
              g.sellingPrice == SumWhere(rows, SELLING_PRICE, KeyIs(MATCH, g.key))
              && g.profit == SumWhere(rows, PROFIT, KeyIs(MATCH, g.key))
  {
    var keys := Keys(rows, MATCH);
    forall k | k in keys ensures exists j :: 0 <= j < |MatchSummary(rows)| && MatchSummary(rows)[j].key == k {
      var j :| 0 <= j < |keys| && keys[j] == k;
      assert MatchSummary(rows)[j].key == k;
    }
  }

  /** The per-Match Profit sums add up to the total Profit of the rows with a
      non-null Match, and likewise for Selling Price; when every row has a Match
      the Profit sums add up to the total profit. */
  lemma MatchSummaryPartition(rows: seq<Row>)
    requires NumericColumn(rows, SELLING_PRICE) && NumericColumn(rows, PROFIT)
    ensures Total(MatchProfits(MatchSummary(rows))) == SumWhere(rows, PROFIT, KeyPresent(MATCH))
    ensures Total(MatchSellingPrices(MatchSummary(rows))) == SumWhere(rows, SELLING_PRICE, KeyPresent(MATCH))
    ensures AllKeyed(rows, MATCH) ==> Total(MatchProfits(MatchSummary(rows))) == TotalProfit(rows)
  {
    var keys := Keys(rows, MATCH);
    assert MatchProfits(MatchSummary(rows)) == GroupSums(rows, MATCH, PROFIT, keys);
    assert MatchSellingPrices(MatchSummary(rows)) == GroupSums(rows, MATCH, SELLING_PRICE, keys);
    GroupSumsPartition(rows, MATCH, PROFIT, keys);
    GroupSumsPartition(rows, MATCH, SELLING_PRICE, keys);
    if AllKeyed(rows, MATCH) {
      SumWhereSameSelection(rows, PROFIT, KeyPresent(MATCH), AllRows);
    }
  }

  /** The Stand groups are exactly the distinct non-null Stand values, each once,
      and each group's Profit is the sum over the rows with that exact Stand. */
  lemma StandSummaryGroups(rows: seq<Row>)
    requires NumericColumn(rows, PROFIT)
    ensures forall j, j' :: 0 <= j < j' < |StandSummary(rows)| ==> StandSummary(rows)[j].key != StandSummary(rows)[j'].key
    ensures forall k :: (exists j :: 0 <= j < |StandSummary(rows)| && StandSummary(rows)[j].key == k)
                    <==> (exists i :: 0 <= i < |rows| && Get(rows[i], STAND) == Some(k))
    ensures forall j :: 0 <= j < |StandSummary(rows)| ==>
              StandSummary(rows)[j].profit == SumWhere(rows, PROFIT, KeyIs(STAND, StandSummary(rows)[j].key))
  {
    var keys := Keys(rows, STAND);
    forall k | k in keys ensures exists j :: 0 <= j < |StandSummary(rows)| && StandSummary(rows)[j].key == k {
      var j :| 0 <= j < |keys| && keys[j] == k;
      assert StandSummary(rows)[j].key == k;
    }
  }

  /** The per-Stand Profit sums add up to the total Profit of the rows with a
      non-null Stand, and to the total profit when every row has a Stand. */
  lemma StandSummaryPartition(rows: seq<Row>)
    requires NumericColumn(rows, PROFIT)
    ensures Total(StandProfits(StandSummary(rows))) == SumWhere(rows, PROFIT, KeyPresent(STAND))
    ensures AllKeyed(rows, STAND) ==> Total(StandProfits(StandSummary(rows))) == TotalProfit(rows)
  {
    var keys := Keys(rows, STAND);
    assert StandProfits(StandSummary(rows)) == GroupSums(rows, STAND, PROFIT, keys);
    GroupSumsPartition(rows, STAND, PROFIT, keys);
    if AllKeyed(rows, STAND) {
      SumWhereSameSelection(rows, PROFIT, KeyPresent(STAND), AllRows);
    }
  }

  lemma MatchSummaryIncluded(a: seq<Row>, b: seq<Row>, g: MatchTotals)
    requires multiset(a) == multiset(b)
    requires NumericColumn(a, SELLING_PRICE) && NumericColumn(a, PROFIT)
    requires NumericColumn(b, SELLING_PRICE) && NumericColumn(b, PROFIT)
    requires g in MatchSummary(a)
    ensures g in MatchSummary(b)
  {
    var j :| 0 <= j < |MatchSummary(a)| && MatchSummary(a)[j] == g;
    KeysPermutation(a, b, MATCH, g.key);
    var keys := Keys(b, MATCH);
    var j' :| 0 <= j' < |keys| && keys[j'] == g.key;
    SumWherePermutation(a, b, SELLING_PRICE, KeyIs(MATCH, g.key));
    SumWherePermutation(a, b, PROFIT, KeyIs(MATCH, g.key));
    assert MatchSummary(b)[j'] == g;
  }

  /** The per-Match groups do not depend on the order of the rows. */
  lemma MatchSummaryOrderIndependent(a: seq<Row>, b: seq<Row>)
    requires multiset(a) == multiset(b)
    requires NumericColumn(a, SELLING_PRICE) && NumericColumn(a, PROFIT)
    requires NumericColumn(b, SELLING_PRICE) && NumericColumn(b, PROFIT)
    ensures forall g :: g in MatchSummary(a) <==> g in MatchSummary(b)
  {
    forall g | g in MatchSummary(a) ensures g in MatchSummary(b) {
      MatchSummaryIncluded(a, b, g);
    }
    forall g | g in MatchSummary(b) ensures g in MatchSummary(a) {
      MatchSummaryIncluded(b, a, g);
    }
  }

  lemma StandSummaryIncluded(a: seq<Row>, b: seq<Row>, g: StandTotals)
    requires multiset(a) == multiset(b)
    requires NumericColumn(a, PROFIT) && NumericColumn(b, PROFIT)
    requires g in StandSummary(a)
    ensures g in StandSummary(b)
  {
    var j :| 0 <= j < |StandSummary(a)| && StandSummary(a)[j] == g;
    KeysPermutation(a, b, STAND, g.key);
    var keys := Keys(b, STAND);
    var j' :| 0 <= j' < |keys| && keys[j'] == g.key;
    SumWherePermutation(a, b, PROFIT, KeyIs(STAND, g.key));
    assert StandSummary(b)[j'] == g;
  }

  /** The per-Stand groups do not depend on the order of the rows. */
  lemma StandSummaryOrderIndependent(a: seq<Row>, b: seq<Row>)
    requires multiset(a) == multiset(b)
    requires NumericColumn(a, PROFIT) && NumericColumn(b, PROFIT)
    ensures forall g :: g in StandSummary(a) <==> g in StandSummary(b)
  {
    forall g | g in StandSummary(a) ensures g in StandSummary(b) {
      StandSummaryIncluded(a, b, g);
    }
    forall g | g in StandSummary(b) ensures g in StandSummary(a) {
      StandSummaryIncluded(b, a, g);
    }
  }

  /** The total profit does not depend on the order of the rows. */
  lemma TotalProfitOrderIndependent(a: seq<Row>, b: seq<Row>)
    requires multiset(a) == multiset(b)
    requires NumericColumn(a, PROFIT) && NumericColumn(b, PROFIT)
    ensures TotalProfit(a) == TotalProfit(b)
  {
    SumWherePermutation(a, b, PROFIT, AllRows);
  }
}
