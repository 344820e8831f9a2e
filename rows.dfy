/**
 * The row store of the average-price calculator: an ordered sequence of
 * (price, lot) pairs, kept as the raw text the user typed.
 */
module Rows {

  /** One entry of the calculator; both fields are unvalidated text. */
  datatype Row = Row(price: string, lot: string)

  /** The two fields `updateRow` may replace. */
  datatype Field = Price | Lot

  /** A row whose two fields are empty, as appended by `addRow`. */
  const EmptyRow := Row("", "")

  /** The state on page load and after a reset: two empty rows. */
  function InitialRows(): (r: seq<Row>)
    ensures |r| == 2 && r[0] == EmptyRow && r[1] == EmptyRow
  {
    [EmptyRow, EmptyRow]
  }

  function Get(row: Row, key: Field): string
  {
    match key
    case Price => row.price
    case Lot => row.lot
  }

  function Other(key: Field): Field
  {
    match key
    case Price => Lot
    case Lot => Price
  }

  /** `{ ...row, [key]: value }`: the row with one field replaced. */
  function SetField(row: Row, key: Field, value: string): (r: Row)
    ensures Get(r, key) == value
    ensures Get(r, Other(key)) == Get(row, Other(key))
  {
    match key
    case Price => row.(price := value)
    case Lot => row.(lot := value)
  }

  /**
   * `updateRow(index, key, value)`: every row keeps its value except the
   * one at position `index`, whose field `key` becomes `value`. An index
   * that names no row matches no position, so nothing changes.
   */
  function UpdateRows(rows: seq<Row>, index: int, key: Field, value: string): (r: seq<Row>)
    ensures |r| == |rows|
    ensures forall i :: 0 <= i < |rows| && i != index ==> r[i] == rows[i]
    ensures 0 <= index < |rows| ==>
              Get(r[index], key) == value && Get(r[index], Other(key)) == Get(rows[index], Other(key))
    ensures !(0 <= index < |rows|) ==> r == rows
  {
    seq(|rows|, i requires 0 <= i < |rows| => if i == index then SetField(rows[i], key, value) else rows[i])
  }

  /** `addRow`: one more row, empty, at the end. */
  function AppendEmptyRow(rows: seq<Row>): (r: seq<Row>)
    ensures |r| == |rows| + 1
    ensures r[..|rows|] == rows
    ensures r[|rows|] == EmptyRow
  {
    rows + [EmptyRow]
  }

  /** Writing the same field twice leaves the last write. */
  lemma UpdateRowsOverwrites(rows: seq<Row>, index: int, key: Field, v1: string, v2: string)
    ensures UpdateRows(UpdateRows(rows, index, key, v1), index, key, v2) == UpdateRows(rows, index, key, v2)
  {
    var r1 := UpdateRows(UpdateRows(rows, index, key, v1), index, key, v2);
    var r2 := UpdateRows(rows, index, key, v2);
    if 0 <= index < |rows| {
      assert r1[index] == r2[index] by {
        match key
        case Price =>
        case Lot =>
      }
    }
  }

  /** Writing back the value a field already holds changes nothing. */
  lemma UpdateRowsWithCurrentValue(rows: seq<Row>, index: int, key: Field)
    requires 0 <= index < |rows|
    ensures UpdateRows(rows, index, key, Get(rows[index], key)) == rows
  {
    var r := UpdateRows(rows, index, key, Get(rows[index], key));
    assert r[index] == rows[index] by {
      match key
      case Price =>
      case Lot =>
    }
  }

  /** Updates of different rows commute. */
  lemma UpdateRowsCommute(rows: seq<Row>, i: int, ki: Field, vi: string, j: int, kj: Field, vj: string)
    requires i != j
    ensures UpdateRows(UpdateRows(rows, i, ki, vi), j, kj, vj) == UpdateRows(UpdateRows(rows, j, kj, vj), i, ki, vi)
  {
  }
}
