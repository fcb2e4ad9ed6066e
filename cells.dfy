/** Cell values and rows as the component reads them through ExcelJS. */
module Cells {

  datatype Option<+T> = None | Some(value: T)

  /** A non-null cell value. Absent cells (null, undefined or a hole in
      `row.values`) are `None` in a `Row`. */
  datatype CellValue =
    | Text(text: string)
    | Number(number: real)
    | Boolean(flag: bool)
    /** `{ richText: [{ text }, ...] }`: the texts of its runs, in order */
    | RichText(runs: seq<string>)
    /** Any other object value (date, formula, hyperlink, error); `json`
        is what `JSON.stringify` renders for it. */
    | Composite(json: string)

  /** `row.values`: column c (1-based) is element c - 1. */
  type Row = seq<Option<CellValue>>

  /** `row.values.every(cell => cell === null || cell === undefined)` */
  predicate IsEmptyRow(row: Row) {
    forall j :: 0 <= j < |row| ==> row[j].None?
  }

  function Max(a: int, b: int): int {
    if a < b then b else a
  }
}
