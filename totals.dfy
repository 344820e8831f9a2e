/**
 * The totals reduction of the average-price calculator: the rows are parsed
 * field by field, two left folds sum the lots and the capital, and the
 * average is the capital per share, guarded against a non-positive lot total.
 */
module Totals {
  import opened Wrappers
  import opened Rows

  /** Shares per lot on the exchange. */
  const LotSize: real := 100.0

  /**
   * The number parser applied to each text field (`Number` in the source);
   * `None` stands for NaN. Numbers are exact reals, not IEEE doubles.
   */
  type Parser = string -> Option<real>

  /** `Number('')` is 0, not NaN: the parser the page actually uses has this property. */
  predicate EmptyIsZero(parse: Parser)
  {
    parse("") == Some(0.0)
  }

  /** A row after the `map` step: each field parsed on its own. */
  datatype ParsedRow = ParsedRow(price: Option<real>, lot: Option<real>)

  function ParseRow(parse: Parser, row: Row): ParsedRow
  {
    ParsedRow(parse(row.price), parse(row.lot))
  }

  /** Which of the two folds: the lot total or the capital total. */
  datatype Measure = LotMeasure | ValueMeasure

  /**
   * What one parsed row adds to a fold: its lot when that is a number, and
   * `price * lot * 100` only when both fields are numbers; NaN adds 0.
   */
  function Contribution(m: Measure, p: ParsedRow): real
  {
    match m
    case LotMeasure =>
      (match p.lot case Some(l) => l case None => 0.0)
    case ValueMeasure =>
      (match (p.price, p.lot)
       case (Some(price), Some(lot)) => price * lot * LotSize
       case _ => 0.0)
  }

  /** `reduce` from 0, left to right: the last row is added last. */
  function Sum(parse: Parser, m: Measure, rows: seq<Row>): real
  {
    if rows == [] then 0.0
    else Sum(parse, m, rows[..|rows| - 1]) + Contribution(m, ParseRow(parse, rows[|rows| - 1]))
  }

  function TotalLot(parse: Parser, rows: seq<Row>): real
  {
    Sum(parse, LotMeasure, rows)
  }

  function TotalValue(parse: Parser, rows: seq<Row>): real
  {
    Sum(parse, ValueMeasure, rows)
  }

  datatype Summary = Summary(totalLot: real, totalValue: real, average: real)

  /**
   * The totals shown under the rows. The average is the capital per share
   * when the lot total is positive and 0 otherwise, so it never divides by
   * zero, not even for a negative lot total.
   */
  function ComputeTotals(parse: Parser, rows: seq<Row>): (t: Summary)
    ensures t.totalLot == TotalLot(parse, rows) && t.totalValue == TotalValue(parse, rows)
    ensures t.totalLot > 0.0 ==> t.average * (t.totalLot * LotSize) == t.totalValue
    ensures t.totalLot <= 0.0 ==> t.average == 0.0
  {
    var totalLot := TotalLot(parse, rows);
    var totalValue := TotalValue(parse, rows);
    var average := if totalLot > 0.0 then totalValue / (totalLot * LotSize) else 0.0;
    Summary(totalLot, totalValue, average)
  }

  // ---------------------------------------------------------------------
  // The folds over pieces of the sequence

  /** Summing a concatenation sums the parts: every row is visited exactly once. */
  lemma {:induction false} SumAppend(parse: Parser, m: Measure, a: seq<Row>, b: seq<Row>)
    ensures Sum(parse, m, a + b) == Sum(parse, m, a) + Sum(parse, m, b)
    decreases |b|
  {
    if b == [] {
      assert a + b == a;
    } else {
      var b' := b[..|b| - 1];
      assert (a + b)[..|a + b| - 1] == a + b';
      assert (a + b)[|a + b| - 1] == b[|b| - 1];
      SumAppend(parse, m, a, b');
    }
  }

  /** A row in the middle of the sequence adds exactly its own contribution. */
  lemma SumSplit(parse: Parser, m: Measure, rows: seq<Row>, k: int)
    requires 0 <= k < |rows|
    ensures Sum(parse, m, rows)
         == Sum(parse, m, rows[..k] + rows[k + 1..]) + Contribution(m, ParseRow(parse, rows[k]))
  {
    assert rows == rows[..k] + [rows[k]] + rows[k + 1..];
    SumAppend(parse, m, rows[..k] + [rows[k]], rows[k + 1..]);
    SumAppend(parse, m, rows[..k], [rows[k]]);
    SumAppend(parse, m, rows[..k], rows[k + 1..]);
    assert [rows[k]][..0] == [];
  }

  /** No row is skipped, so the order of the rows does not matter. */
  lemma {:induction false} SumPermutation(parse: Parser, m: Measure, a: seq<Row>, b: seq<Row>)
    requires multiset(a) == multiset(b)
    ensures Sum(parse, m, a) == Sum(parse, m, b)
    decreases |a|
  {
    if a == [] {
      assert |b| == |multiset(b)| == 0;
    } else {
      var x := a[|a| - 1];
      var a' := a[..|a| - 1];
      assert a == a' + [x];
      assert x in multiset(b);
      var k :| 0 <= k < |b| && b[k] == x;
      var b' := b[..k] + b[k + 1..];
      RemoveMatching(a, b, k);
      SumPermutation(parse, m, a', b');
      SumSplit(parse, m, b, k);
    }
  }

  /** Taking the last element of one side and a matching element of the other leaves equal multisets. */
  lemma RemoveMatching<T>(a: seq<T>, b: seq<T>, k: int)
    requires multiset(a) == multiset(b) && a != []
    requires 0 <= k < |b| && b[k] == a[|a| - 1]
    ensures multiset(a[..|a| - 1]) == multiset(b[..k] + b[k + 1..])
  {
    var x := b[k];
    assert a == a[..|a| - 1] + [x];
    assert b == b[..k] + [x] + b[k + 1..];
    var ma, mb := multiset(a[..|a| - 1]), multiset(b[..k] + b[k + 1..]);
    assert ma + multiset{x} == mb + multiset{x};
    assert ma == (ma + multiset{x}) - multiset{x};
    assert mb == (mb + multiset{x}) - multiset{x};
  }

  /** Reordering the rows changes none of the totals. */
  lemma TotalsIgnoreRowOrder(parse: Parser, a: seq<Row>, b: seq<Row>)
    requires multiset(a) == multiset(b)
    ensures ComputeTotals(parse, a) == ComputeTotals(parse, b)
  {
    SumPermutation(parse, LotMeasure, a, b);
    SumPermutation(parse, ValueMeasure, a, b);
  }

  // ---------------------------------------------------------------------
  // What each fold counts

  /**
   * A row whose lot is a number and whose price is NaN adds its lot to the
   * lot total and nothing to the capital, wherever it stands.
   */
  lemma InvalidPriceRowCountsLotOnly(parse: Parser, before: seq<Row>, row: Row, after: seq<Row>, lot: real)
    requires parse(row.lot) == Some(lot) && parse(row.price) == None
    ensures TotalLot(parse, before + [row] + after) == TotalLot(parse, before + after) + lot
    ensures TotalValue(parse, before + [row] + after) == TotalValue(parse, before + after)
  {
    var rows := before + [row] + after;
    var k := |before|;
    assert rows[k] == row && rows[..k] == before && rows[k + 1..] == after;
    SumSplit(parse, LotMeasure, rows, k);
    SumSplit(parse, ValueMeasure, rows, k);
  }

  /** A row whose lot is NaN adds nothing to either total, wherever it stands. */
  lemma InvalidLotRowCountsNothing(parse: Parser, before: seq<Row>, row: Row, after: seq<Row>)
    requires parse(row.lot) == None
    ensures TotalLot(parse, before + [row] + after) == TotalLot(parse, before + after)
    ensures TotalValue(parse, before + [row] + after) == TotalValue(parse, before + after)
  {
    var rows := before + [row] + after;
    var k := |before|;
    assert rows[k] == row && rows[..k] == before && rows[k + 1..] == after;
    SumSplit(parse, LotMeasure, rows, k);
    SumSplit(parse, ValueMeasure, rows, k);
  }

  /** The lot total reads only the lot fields: prices never change it. */
  lemma {:induction false} TotalLotReadsOnlyLots(parse: Parser, a: seq<Row>, b: seq<Row>)
    requires |a| == |b|
    requires forall i :: 0 <= i < |a| ==> a[i].lot == b[i].lot
    ensures TotalLot(parse, a) == TotalLot(parse, b)
    decreases |a|
  {
    if a != [] {
      TotalLotReadsOnlyLots(parse, a[..|a| - 1], b[..|b| - 1]);
    }
  }

  // ---------------------------------------------------------------------
  // Empty input, the initial rows, and the row-store operations

  /** No rows: every total is 0, and there is no division by zero. */
  lemma TotalsOfNoRows(parse: Parser)
    ensures ComputeTotals(parse, []) == Summary(0.0, 0.0, 0.0)
  {
  }

  /** Rows whose fields are all empty give totals of 0. */
  lemma {:induction false} TotalsOfEmptyRows(parse: Parser, rows: seq<Row>)
    requires EmptyIsZero(parse)
    requires forall i :: 0 <= i < |rows| ==> rows[i] == EmptyRow
    ensures ComputeTotals(parse, rows) == Summary(0.0, 0.0, 0.0)
    decreases |rows|
  {
    if rows != [] {
      TotalsOfEmptyRows(parse, rows[..|rows| - 1]);
    }
  }

  /** On page load and after a reset every total is 0. */
  lemma TotalsOfInitialRows(parse: Parser)
    requires EmptyIsZero(parse)
    ensures ComputeTotals(parse, InitialRows()) == Summary(0.0, 0.0, 0.0)
  {
    TotalsOfEmptyRows(parse, InitialRows());
  }

  /** Adding an empty row does not change what the page shows. */
  lemma AddRowKeepsTotals(parse: Parser, rows: seq<Row>)
    requires EmptyIsZero(parse)
    ensures ComputeTotals(parse, AppendEmptyRow(rows)) == ComputeTotals(parse, rows)
  {
    SumAppend(parse, LotMeasure, rows, [EmptyRow]);
    SumAppend(parse, ValueMeasure, rows, [EmptyRow]);
  }

  /**
   * Editing one field of one row moves each total by the difference between
   * the row's new and old contributions; nothing else is recounted.
   */
  lemma UpdateRowShiftsTotals(parse: Parser, rows: seq<Row>, index: int, key: Field, value: string)
    requires 0 <= index < |rows|
    ensures var r := UpdateRows(rows, index, key, value);
            var was := ParseRow(parse, rows[index]);
            var now := ParseRow(parse, r[index]);
            && TotalLot(parse, r) == TotalLot(parse, rows) - Contribution(LotMeasure, was) + Contribution(LotMeasure, now)
            && TotalValue(parse, r) == TotalValue(parse, rows) - Contribution(ValueMeasure, was) + Contribution(ValueMeasure, now)
  {
    var r := UpdateRows(rows, index, key, value);
    assert r[..index] == rows[..index];
    assert r[index + 1..] == rows[index + 1..];
    SumSplit(parse, LotMeasure, rows, index);
    SumSplit(parse, LotMeasure, r, index);
    SumSplit(parse, ValueMeasure, rows, index);
    SumSplit(parse, ValueMeasure, r, index);
  }

  /** Editing a price never changes the lot total. */
  lemma UpdatePriceKeepsTotalLot(parse: Parser, rows: seq<Row>, index: int, value: string)
    ensures TotalLot(parse, UpdateRows(rows, index, Price, value)) == TotalLot(parse, rows)
  {
    TotalLotReadsOnlyLots(parse, UpdateRows(rows, index, Price, value), rows);
  }

  // ---------------------------------------------------------------------
  // The average is a lot-weighted mean of the prices

  /** Both fields of every row are numbers. */
  predicate AllParse(parse: Parser, rows: seq<Row>)
  {
    forall i :: 0 <= i < |rows| ==> parse(rows[i].price).Some? && parse(rows[i].lot).Some?
  }

  /** Plain sum of the lots of fully parsed rows, first row first. */
  function LotSum(parse: Parser, rows: seq<Row>): real
    requires AllParse(parse, rows)
  {
    if rows == [] then 0.0 else parse(rows[0].lot).value + LotSum(parse, rows[1..])
  }

  /** Plain sum of price times lot over fully parsed rows, first row first. */
  function PriceLotSum(parse: Parser, rows: seq<Row>): real
    requires AllParse(parse, rows)
  {
    if rows == [] then 0.0 else parse(rows[0].price).value * parse(rows[0].lot).value + PriceLotSum(parse, rows[1..])
  }

  /**
   * When every field is a number, the folds are the textbook sums: the lot
   * total is the sum of the lots and the capital is 100 times the sum of
   * price times lot.
   */
  lemma {:induction false} AllParseTotals(parse: Parser, rows: seq<Row>)
    requires AllParse(parse, rows)
    ensures TotalLot(parse, rows) == LotSum(parse, rows)
    ensures TotalValue(parse, rows) == LotSize * PriceLotSum(parse, rows)
    decreases |rows|
  {
    if rows != [] {
      var rest := rows[1..];
      AllParseTotals(parse, rest);
      assert rows == [rows[0]] + rest;
      SumAppend(parse, LotMeasure, [rows[0]], rest);
      SumAppend(parse, ValueMeasure, [rows[0]], rest);
    }
  }

  /** With every field a number and a positive lot total, the average is the lot-weighted mean price. */
  lemma AverageIsLotWeightedMean(parse: Parser, rows: seq<Row>)
    requires AllParse(parse, rows)
    requires TotalLot(parse, rows) > 0.0
    ensures ComputeTotals(parse, rows).average * LotSum(parse, rows) == PriceLotSum(parse, rows)
  {
    AllParseTotals(parse, rows);
    var t := ComputeTotals(parse, rows);
    assert t.average * (t.totalLot * LotSize) == LotSize * PriceLotSum(parse, rows);
    assert (t.average * t.totalLot) * LotSize == PriceLotSum(parse, rows) * LotSize;
  }

  /** Every field of the row is a number, the price lies in [lo, hi] and the lot is non-negative. */
  predicate PricedWithin(parse: Parser, row: Row, lo: real, hi: real)
  {
    && parse(row.price).Some? && parse(row.lot).Some?
    && lo <= parse(row.price).value <= hi
    && 0.0 <= parse(row.lot).value
  }

  /** The capital lies between the lot total valued at the lowest and at the highest price. */
  lemma {:induction false} ValueWithinPriceBounds(parse: Parser, rows: seq<Row>, lo: real, hi: real)
    requires forall i :: 0 <= i < |rows| ==> PricedWithin(parse, rows[i], lo, hi)
    ensures lo * TotalLot(parse, rows) * LotSize <= TotalValue(parse, rows) <= hi * TotalLot(parse, rows) * LotSize
    decreases |rows|
  {
    if rows != [] {
      var rest := rows[..|rows| - 1];
      ValueWithinPriceBounds(parse, rest, lo, hi);
      var row := rows[|rows| - 1];
      assert PricedWithin(parse, row, lo, hi);
      var p, l := parse(row.price).value, parse(row.lot).value;
      assert (p - lo) * l >= 0.0;
      assert (hi - p) * l >= 0.0;
      assert lo * l * LotSize <= p * l * LotSize <= hi * l * LotSize;
    }
  }

  /**
   * With non-negative lots, prices in [lo, hi] and a positive lot total,
   * the average price lies in [lo, hi] too.
   */
  lemma AverageWithinPriceBounds(parse: Parser, rows: seq<Row>, lo: real, hi: real)
    requires forall i :: 0 <= i < |rows| ==> PricedWithin(parse, rows[i], lo, hi)
    requires TotalLot(parse, rows) > 0.0
    ensures lo <= ComputeTotals(parse, rows).average <= hi
  {
    ValueWithinPriceBounds(parse, rows, lo, hi);
    var t := ComputeTotals(parse, rows);
    var d := t.totalLot * LotSize;
    assert d > 0.0;
    assert t.average * d == t.totalValue;
    assert lo * d == lo * t.totalLot * LotSize && hi * d == hi * t.totalLot * LotSize;
    DivideByPositive(lo, t.average, d);
    DivideByPositive(t.average, hi, d);
  }

  lemma DivideByPositive(x: real, y: real, d: real)
    requires d > 0.0 && x * d <= y * d
    ensures x <= y
  {
    assert (y - x) * d >= 0.0;
  }

  /**
   * When every price is the same number and every lot is a number (of any
   * sign), the capital is that price times the lot total times 100.
   */
  lemma {:induction false} ValueAtOnePrice(parse: Parser, rows: seq<Row>, price: real)
    requires forall i :: 0 <= i < |rows| ==> parse(rows[i].price) == Some(price) && parse(rows[i].lot).Some?
    ensures TotalValue(parse, rows) == price * TotalLot(parse, rows) * LotSize
    decreases |rows|
  {
    if rows != [] {
      var rest := rows[..|rows| - 1];
      ValueAtOnePrice(parse, rest, price);
      var row := rows[|rows| - 1];
      assert parse(row.price) == Some(price) && parse(row.lot).Some?;
      var l := parse(row.lot).value;
      assert price * (TotalLot(parse, rest) + l) * LotSize
          == price * TotalLot(parse, rest) * LotSize + price * l * LotSize;
    }
  }

  /**
   * Buying every lot at one price averages to that price, whenever the lot
   * total is positive; single lots may be negative.
   */
  lemma AverageOfOnePrice(parse: Parser, rows: seq<Row>, price: real)
    requires forall i :: 0 <= i < |rows| ==> parse(rows[i].price) == Some(price) && parse(rows[i].lot).Some?
    requires TotalLot(parse, rows) > 0.0
    ensures ComputeTotals(parse, rows).average == price
  {
    ValueAtOnePrice(parse, rows, price);
    var t := ComputeTotals(parse, rows);
    var d := t.totalLot * LotSize;
    assert d > 0.0;
    assert t.average * d == price * d;
    DivideByPositive(t.average, price, d);
    DivideByPositive(price, t.average, d);
  }

  /** Ten lots bought and five sold back, all at 1000: the average stays 1000. */
  lemma NegativeLotExample(parse: Parser)
    requires parse("1000") == Some(1000.0) && parse("10") == Some(10.0) && parse("-5") == Some(-5.0)
    ensures ComputeTotals(parse, [Row("1000", "10"), Row("1000", "-5")]) == Summary(5.0, 500000.0, 1000.0)
  {
    var rows := [Row("1000", "10"), Row("1000", "-5")];
    assert rows[..1] == [Row("1000", "10")];
    assert TotalLot(parse, [Row("1000", "10")]) == 10.0;
    assert TotalLot(parse, rows) == 5.0;
    AverageOfOnePrice(parse, rows, 1000.0);
    ValueAtOnePrice(parse, rows, 1000.0);
  }

  // ---------------------------------------------------------------------
  // Worked examples

  /** One purchase of 10 lots at 1200. */
  lemma OneRowExample(parse: Parser)
    requires parse("1200") == Some(1200.0) && parse("10") == Some(10.0)
    ensures ComputeTotals(parse, [Row("1200", "10")]) == Summary(10.0, 1200000.0, 1200.0)
  {
  }

  /** Five lots at 1000 and five at 2000 average to 1500. */
  lemma TwoRowExample(parse: Parser)
    requires parse("1000") == Some(1000.0) && parse("2000") == Some(2000.0) && parse("5") == Some(5.0)
    ensures ComputeTotals(parse, [Row("1000", "5"), Row("2000", "5")]) == Summary(10.0, 1500000.0, 1500.0)
  {
    var rows := [Row("1000", "5"), Row("2000", "5")];
    assert rows[..1] == [Row("1000", "5")];
    assert TotalLot(parse, [Row("1000", "5")]) == 5.0;
    assert TotalValue(parse, [Row("1000", "5")]) == 500000.0;
    assert TotalLot(parse, rows) == 10.0;
    assert TotalValue(parse, rows) == 1500000.0;
  }

  /** An empty price is the number 0: the lots count, the capital and the average stay 0. */
  lemma EmptyPriceExample(parse: Parser)
    requires EmptyIsZero(parse) && parse("10") == Some(10.0)
    ensures ComputeTotals(parse, [Row("", "10")]) == Summary(10.0, 0.0, 0.0)
  {
  }

  /** A non-numeric price with 10 lots: the lots count, the capital does not. */
  lemma NaNPriceExample(parse: Parser)
    requires parse("x") == None && parse("10") == Some(10.0)
    ensures ComputeTotals(parse, [Row("x", "10")]) == Summary(10.0, 0.0, 0.0)
  {
  }
}
