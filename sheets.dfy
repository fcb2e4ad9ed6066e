/** Worksheets and workbooks, as far as the fill reads and writes them.
    A worksheet's rows are ExcelJS's row list: row r (1-based) is element
    r - 1, `rowCount` is the length of the list, and `lastRow` is row
    `rowCount` when the list is not empty. */
module Sheets {
  import opened Cells
  import opened Header
  import opened Random

  type RowNumber = n: nat | n >= 1 witness 1

  /** `getRow(r).values`: a row past the end of the list has no cells. */
  function RowAt(rows: seq<Row>, r: int): Row {
    if 1 <= r <= |rows| then rows[r - 1] else []
  }

  /** `worksheet.lastRow?.number` */
  function LastRow(rows: seq<Row>): Option<RowNumber> {
    if |rows| == 0 then None else Some(|rows|)
  }

  /** The occupancy question: does some data row (2 to `rowCount`) hold a
      non-null cell? */
  predicate Occupied(rows: seq<Row>) {
    exists r :: 2 <= r <= |rows| && !IsEmptyRow(RowAt(rows, r))
  }

  /** The first row the fill writes. */
  function StartRow(replace: bool, lastRow: Option<RowNumber>): (r: nat)
    ensures r >= 2
    ensures replace ==> r == 2
    ensures !replace && lastRow.Some? ==> r == lastRow.value + 1
    ensures !replace && lastRow.None? ==> r == 2
  {
    if replace then 2
    else match lastRow
      case Some(n) => n + 1
      case None => 2
  }

  /** On a worksheet, Append starts below every existing row and below
      the header; neither mode ever starts on the header row. */
  lemma StartRowOnSheet(rows: seq<Row>, replace: bool)
    ensures StartRow(replace, LastRow(rows)) >= 2
    ensures !replace ==> StartRow(replace, LastRow(rows)) == Max(|rows|, 1) + 1
  {
  }

  /** `getRow(r)` then `row.values = cells`: the row's prior cells are all
      replaced; missing rows before r are created empty. */
  function SetRow(rows: seq<Row>, r: RowNumber, cells: Row): (after: seq<Row>)
    ensures |after| == Max(|rows|, r)
    ensures after[r - 1] == cells
    ensures forall k :: 1 <= k <= |after| && k != r ==> RowAt(after, k) == RowAt(rows, k)
  {
    if r <= |rows| then rows[r - 1 := cells]
    else rows + seq(r - 1 - |rows|, _ => []) + [cells]
  }

  /** A synthesized row: exactly `width` cells, none of them empty, each a
      random string, number or boolean. */
  predicate IsRandomRow(row: Row, width: nat) {
    |row| == width && forall j :: 0 <= j < |row| ==> row[j].Some? && IsRandomValue(row[j].value)
  }

  /** The write loop's effect: rows start .. start + count - 1 are
      synthesized rows of `width` cells, every other row is as before (or
      a newly created empty row), and the list reaches the last row
      written. */
  ghost predicate RandomRowsWritten(before: seq<Row>, after: seq<Row>, start: RowNumber, count: nat, width: nat) {
    && |after| == (if count == 0 then |before| else Max(|before|, start + count - 1))
    && forall r :: 1 <= r <= |after| ==>
         if start <= r < start + count then IsRandomRow(RowAt(after, r), width)
         else RowAt(after, r) == RowAt(before, r)
  }

  /** `fillRandomData`'s effect on the worksheet's rows: the width is the
      header's column count and the start row follows the mode. */
  ghost predicate Filled(before: seq<Row>, after: seq<Row>, replace: bool, count: nat) {
    RandomRowsWritten(before, after, StartRow(replace, LastRow(before)),
                      count, FilledColumns(RowAt(before, 1)))
  }

  /** Replace overwrites rows 2 .. count + 1 and keeps every row past them:
      nothing is truncated. */
  lemma ReplaceKeepsLaterRows(before: seq<Row>, after: seq<Row>, count: nat)
    requires Filled(before, after, true, count)
    ensures |after| == if count == 0 then |before| else Max(|before|, count + 1)
    ensures forall r :: count + 2 <= r <= |before| ==> RowAt(after, r) == RowAt(before, r)
    ensures |before| >= 1 ==> RowAt(after, 1) == RowAt(before, 1)
    ensures forall r :: 2 <= r < count + 2 ==> IsRandomRow(RowAt(after, r), FilledColumns(RowAt(before, 1)))
  {
  }

  /** Append keeps rows 1 .. lastRow and adds `count` rows right after them. */
  lemma AppendKeepsExistingRows(before: seq<Row>, after: seq<Row>, count: nat)
    requires Filled(before, after, false, count)
    ensures |after| == if count == 0 then |before| else Max(|before|, 1) + count
    ensures forall r :: 1 <= r <= |before| ==> RowAt(after, r) == RowAt(before, r)
    ensures forall r :: Max(|before|, 1) < r <= |after| ==>
              IsRandomRow(RowAt(after, r), FilledColumns(RowAt(before, 1)))
  {
  }

  /** A fill of at least one row over a header with at least one filled
      column leaves data behind: the next fill request finds the sheet
      occupied. */
  lemma FilledSheetIsOccupied(before: seq<Row>, after: seq<Row>, replace: bool, count: nat)
    requires Filled(before, after, replace, count)
    requires count > 0 && FilledColumns(RowAt(before, 1)) > 0
    ensures Occupied(after)
  {
    var start := StartRow(replace, LastRow(before));
    assert IsRandomRow(RowAt(after, start), FilledColumns(RowAt(before, 1)));
    assert RowAt(after, start)[0].Some?;
  }

  /** Over a header with no filled column the fill writes rows without
      cells: Replace on a sheet whose data rows it covers leaves no data. */
  lemma ZeroWidthFillLeavesNoData(before: seq<Row>, after: seq<Row>, count: nat)
    requires Filled(before, after, true, count)
    requires FilledColumns(RowAt(before, 1)) == 0
    requires |before| <= count + 1
    ensures !Occupied(after)
  {
    forall r | 2 <= r <= |after| ensures IsEmptyRow(RowAt(after, r)) {
      assert IsRandomRow(RowAt(after, r), 0);
    }
  }

  class Worksheet {
    const name: string
    var rows: seq<Row>

    constructor (name: string, rows: seq<Row>)
      ensures this.name == name && this.rows == rows
    {
      this.name := name;
      this.rows := rows;
    }

    function GetRow(r: int): Row
      reads this
    {
      RowAt(rows, r)
    }

    function LastRowNumber(): Option<RowNumber>
      reads this
    {
      LastRow(rows)
    }

    /** The occupancy scan of `handleDummyDataFill`: rows 2 to `rowCount`
        in order, stopping at the first row with a non-null cell. */
    method HasData() returns (hasNoEmptyRows: bool, ghost stoppedAt: nat)
      ensures hasNoEmptyRows <==> Occupied(rows)
      ensures hasNoEmptyRows ==>
                2 <= stoppedAt <= |rows| && !IsEmptyRow(RowAt(rows, stoppedAt)) &&
                forall r :: 2 <= r < stoppedAt ==> IsEmptyRow(RowAt(rows, r))
      ensures |rows| < 2 ==> !hasNoEmptyRows
    {
      hasNoEmptyRows := false;
      stoppedAt := 0;
      var rowIndex := 2;
      while rowIndex <= |rows|
        invariant 2 <= rowIndex <= Max(|rows| + 1, 2)
        invariant forall r :: 2 <= r < rowIndex ==> IsEmptyRow(RowAt(rows, r))
        invariant !hasNoEmptyRows
      {
        var isEmpty := IsEmptyRow(RowAt(rows, rowIndex));
        if !isEmpty {
          hasNoEmptyRows := true;
          stoppedAt := rowIndex;
          break;
        }
        rowIndex := rowIndex + 1;
      }
    }

    /** `Array(width).fill(null).map(...)`: one random value per column. */
    static method RandomCells(width: nat, rng: MathRandom) returns (cells: Row)
      requires rng.Valid()
      modifies rng
      ensures IsRandomRow(cells, width)
    {
      cells := [];
      while |cells| < width
        invariant IsRandomRow(cells, |cells|) && |cells| <= width
      {
        var v := RandomValue(rng);
        cells := cells + [Some(v)];
      }
    }

    /** The write loop of `fillRandomData`: `count` consecutive rows from
        `start`, each overwritten with `width` random cells. */
    method WriteRandomRows(start: RowNumber, count: nat, width: nat, rng: MathRandom)
      requires rng.Valid()
      modifies this, rng
      ensures RandomRowsWritten(old(rows), rows, start, count, width)
    {
      var rowIndex: RowNumber := start;
      var i := 1;
      while i <= count
        invariant 1 <= i <= count + 1
        invariant rowIndex == start + i - 1
        invariant RandomRowsWritten(old(rows), rows, start, i - 1, width)
      {
        var cells := RandomCells(width, rng);
        rows := SetRow(rows, rowIndex, cells);
        rowIndex := rowIndex + 1;
        i := i + 1;
      }
    }
  }

  /** The sheets of a loaded workbook, in order. */
  class Workbook {
    const worksheets: seq<Worksheet>

    constructor (worksheets: seq<Worksheet>)
      ensures this.worksheets == worksheets
    {
      this.worksheets := worksheets;
    }

    /** `worksheets.map(sheet => sheet.name)` */
    function SheetNames(): (names: seq<string>)
      ensures |names| == |worksheets|
      ensures forall i :: 0 <= i < |names| ==> names[i] == worksheets[i].name
    {
      seq(|worksheets|, i requires 0 <= i < |worksheets| => worksheets[i].name)
    }

    /** `getWorksheet(name)`: the first sheet of that name, or null. */
    function GetWorksheet(name: string): (ws: Worksheet?)
      ensures ws == null <==> name !in SheetNames()
      ensures ws != null ==> exists i :: 0 <= i < |worksheets| && worksheets[i] == ws &&
                               ws.name == name && forall j :: 0 <= j < i ==> worksheets[j].name != name
    {
      FindSheet(worksheets, name)
    }
  }

  function FindSheet(sheets: seq<Worksheet>, name: string): (ws: Worksheet?)
    ensures ws == null <==> forall i :: 0 <= i < |sheets| ==> sheets[i].name != name
    ensures ws != null ==> exists i :: 0 <= i < |sheets| && sheets[i] == ws &&
                             ws.name == name && forall j :: 0 <= j < i ==> sheets[j].name != name
  {
    if sheets == [] then null
    else if sheets[0].name == name then sheets[0]
    else
      var ws := FindSheet(sheets[1..], name);
      assert forall i :: 1 <= i < |sheets| ==> sheets[1..][i - 1] == sheets[i];
      ws
  }
}
