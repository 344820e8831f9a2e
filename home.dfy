/**
 * The state of the calculator page: the active menu panel and the rows the
 * user typed. Each event handler replaces one of the two and leaves the
 * other alone; the totals are recomputed from the rows on demand.
 */
module Home {
  import opened Rows
  import opened Totals

  /** The four panels behind the menu buttons; the calculator is `Hitung`. */
  datatype Section = Hitung | News | Idx | Analysis

  class Home {
    var activeSection: Section
    var rows: seq<Row>

    /** Page load: the calculator panel with two empty rows. */
    constructor ()
      ensures activeSection == Hitung && rows == InitialRows()
    {
      activeSection := Hitung;
      rows := InitialRows();
    }

    /** A menu button: shows its panel, whatever was shown, and keeps the rows. */
    method SetActiveSection(section: Section)
      modifies this
      ensures activeSection == section
      ensures rows == old(rows)
    {
      activeSection := section;
    }

    /** Typing in the field `key` of row `index`. */
    method UpdateRow(index: int, key: Field, value: string)
      modifies this
      ensures rows == UpdateRows(old(rows), index, key, value)
      ensures activeSection == old(activeSection)
    {
      rows := UpdateRows(rows, index, key, value);
    }

    /** The add button: one empty row more at the end, earlier rows untouched. */
    method AddRow()
      modifies this
      ensures rows == AppendEmptyRow(old(rows))
      ensures activeSection == old(activeSection)
    {
      rows := AppendEmptyRow(rows);
    }

    /** The reset button: back to two empty rows, whatever was there; doing it twice is doing it once. */
    method Reset()
      modifies this
      ensures rows == InitialRows()
      ensures activeSection == old(activeSection)
    {
      rows := InitialRows();
    }

    /** The totals shown under the rows, recomputed from the current rows. */
    function CurrentTotals(parse: Parser): (t: Summary)
      reads this
      ensures t == ComputeTotals(parse, rows)
      ensures t.totalLot > 0.0 ==> t.average * (t.totalLot * LotSize) == t.totalValue
      ensures t.totalLot <= 0.0 ==> t.average == 0.0
    {
      ComputeTotals(parse, rows)
    }
  }

  /**
   * A session: type into a row, open another panel, come back. The rows
   * survive the panel switch (`typed`), and two resets bring the rows back
   * to the initial ones and the totals back to 0 (`after`).
   */
  method NavigationKeepsRows(parse: Parser) returns (typed: seq<Row>, after: Summary)
    requires EmptyIsZero(parse)
    ensures typed == [Row("1200", "10"), EmptyRow]
    ensures after == Summary(0.0, 0.0, 0.0)
  {
    var home := new Home();
    home.UpdateRow(0, Price, "1200");
    home.UpdateRow(0, Lot, "10");
    typed := home.rows;
    home.SetActiveSection(News);
    home.SetActiveSection(Hitung);
    assert home.rows == typed && home.rows[0] == Row("1200", "10");
    home.AddRow();
    assert |home.rows| == 3 && home.rows[..2] == typed;
    home.Reset();
    home.Reset();
    assert home.rows == InitialRows();
    TotalsOfInitialRows(parse);
    after := home.CurrentTotals(parse);
  }
}
