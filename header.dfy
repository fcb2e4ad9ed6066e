/** Row 1 of the worksheet: how many columns the fill writes, and the
    labels the form displays. */
module Header {
  import opened Cells

  /** `filledColumns.length`: the number of entries of row 1 that are
      neither null nor undefined, wherever they stand in the row. */
  function FilledColumns(row: Row): (n: nat)
    ensures n <= |row|
  {
    if row == [] then 0
    else FilledColumns(row[..|row| - 1]) + (if row[|row| - 1].Some? then 1 else 0)
  }

  /** The indices of the non-null entries of a row. */
  ghost function FilledIndices(row: Row): set<int> {
    set j | 0 <= j < |row| && row[j].Some?
  }

  /** The length of the run of non-null cells starting at column 1. */
  function LeadingRun(row: Row): (n: nat)
    ensures n <= |row|
    ensures forall j :: 0 <= j < n ==> row[j].Some?
    ensures n < |row| ==> row[n].None?
  {
    if row == [] || row[0].None? then 0 else 1 + LeadingRun(row[1..])
  }

  /** The column count is the size of the set of filled positions. */
  lemma {:induction false} FilledColumnsIsCardinality(row: Row)
    ensures FilledColumns(row) == |FilledIndices(row)|
  {
    if row != [] {
      var init := row[..|row| - 1];
      FilledColumnsIsCardinality(init);
      assert forall j :: 0 <= j < |init| ==> init[j] == row[j];
      if row[|row| - 1].Some? {
        assert FilledIndices(row) == FilledIndices(init) + {|row| - 1};
      } else {
        assert FilledIndices(row) == FilledIndices(init);
      }
    }
  }

  lemma {:induction false} FilledColumnsAppend(a: Row, b: Row)
    ensures FilledColumns(a + b) == FilledColumns(a) + FilledColumns(b)
  {
    if b == [] {
      assert a + b == a;
    } else {
      var b' := b[..|b| - 1];
      assert (a + b)[..|a + b| - 1] == a + b';
      FilledColumnsAppend(a, b');
    }
  }

  /** No non-null entry at all: column count zero exactly on an empty row. */
  lemma {:induction false} FilledColumnsZero(row: Row)
    ensures FilledColumns(row) == 0 <==> IsEmptyRow(row)
  {
    if row != [] {
      var init := row[..|row| - 1];
      FilledColumnsZero(init);
      assert forall j :: 0 <= j < |init| ==> init[j] == row[j];
    }
  }

  /** Every entry non-null: column count equal to the row's length. */
  lemma {:induction false} FilledColumnsFull(row: Row)
    ensures FilledColumns(row) == |row| <==> forall j :: 0 <= j < |row| ==> row[j].Some?
  {
    if row != [] {
      var init := row[..|row| - 1];
      FilledColumnsFull(init);
      assert forall j :: 0 <= j < |init| ==> init[j] == row[j];
    }
  }

  /** A gap in the header does not change the column count: the count is
      of non-null entries, not of a contiguous run from column 1. */
  lemma FilledColumnsIgnoresGaps(a: Row, b: Row)
    ensures FilledColumns(a + [None] + b) == FilledColumns(a + b)
  {
    FilledColumnsAppend(a + [None], b);
    FilledColumnsAppend(a, [None]);
    FilledColumnsAppend(a, b);
    var gap: Row := [None];
    assert gap[..0] == [];
  }

  /** The column count agrees with the leading run of non-null cells
      exactly when no non-null cell follows the first absent one. */
  lemma LeadingRunAgreement(row: Row)
    ensures LeadingRun(row) <= FilledColumns(row)
    ensures LeadingRun(row) == FilledColumns(row) <==>
              forall j :: LeadingRun(row) <= j < |row| ==> row[j].None?
  {
    var k := LeadingRun(row);
    SplitCount(row, k);
    LeadingRunFull(row);
    TailEmpty(row, k);
  }

  lemma SplitCount(row: Row, k: nat)
    requires k <= |row|
    ensures FilledColumns(row) == FilledColumns(row[..k]) + FilledColumns(row[k..])
  {
    assert row == row[..k] + row[k..];
    FilledColumnsAppend(row[..k], row[k..]);
  }

  lemma LeadingRunFull(row: Row)
    ensures FilledColumns(row[..LeadingRun(row)]) == LeadingRun(row)
  {
    var head := row[..LeadingRun(row)];
    assert forall j :: 0 <= j < |head| ==> head[j].Some?;
    FilledColumnsFull(head);
  }

  lemma TailEmpty(row: Row, k: nat)
    requires k <= |row|
    ensures FilledColumns(row[k..]) == 0 <==> forall j :: k <= j < |row| ==> row[j].None?
  {
    var tail := row[k..];
    FilledColumnsZero(tail);
    assert forall j :: k <= j < |row| ==> tail[j - k] == row[j];
  }

  /** A value as the header list displays it, after `handleSubmit`'s
      mapping. */
  datatype Display = Str(s: string) | Num(x: real) | Flag(b: bool)

  /** `richText.map(textObj => textObj.text).join("")` */
  function Join(runs: seq<string>): string {
    if runs == [] then "" else runs[0] + Join(runs[1..])
  }

  lemma {:induction false} JoinLength(runs: seq<string>)
    ensures |Join(runs)| == 0 <==> forall i :: 0 <= i < |runs| ==> runs[i] == ""
  {
    if runs != [] {
      JoinLength(runs[1..]);
      assert forall i :: 1 <= i < |runs| ==> runs[1..][i - 1] == runs[i];
    }
  }

  /** The mapping of one non-null cell: rich text is flattened, other
      objects are stringified, primitives stay as they are. */
  function Flatten(c: CellValue): Display {
    match c
    case Text(s) => Str(s)
    case Number(x) => Num(x)
    case Boolean(b) => Flag(b)
    case RichText(runs) => Str(Join(runs))
    case Composite(json) => Str(json)
  }

  /** `Boolean(value)` for the values the mapping produces. */
  predicate Truthy(d: Display) {
    match d
    case Str(s) => s != ""
    case Num(x) => x != 0.0
    case Flag(b) => b
  }

  /** What one entry of row 1 contributes to the displayed header. */
  function Shown(cell: Option<CellValue>): seq<Display> {
    match cell
    case None => []
    case Some(c) => if Truthy(Flatten(c)) then [Flatten(c)] else []
  }

  /** `processedFirstRow.filter(Boolean)`: row 1 mapped, then its falsy
      values (null, undefined, "", 0, false) removed. */
  function DisplayHeader(row: Row): (shown: seq<Display>)
    ensures |shown| <= FilledColumns(row)
    ensures forall i :: 0 <= i < |shown| ==> Truthy(shown[i])
  {
    if row == [] then [] else DisplayHeader(row[..|row| - 1]) + Shown(row[|row| - 1])
  }

  /** The mapping and the filter keep column order. */
  lemma {:induction false} DisplayHeaderAppend(a: Row, b: Row)
    ensures DisplayHeader(a + b) == DisplayHeader(a) + DisplayHeader(b)
  {
    if b == [] {
      assert a + b == a;
    } else {
      var b' := b[..|b| - 1];
      assert (a + b)[..|a + b| - 1] == a + b';
      DisplayHeaderAppend(a, b');
    }
  }

  /** A label is displayed exactly when it is truthy and some non-null
      cell of row 1 maps to it. */
  lemma {:induction false} DisplayHeaderMembers(row: Row, d: Display)
    ensures d in DisplayHeader(row) <==>
              Truthy(d) && exists j :: 0 <= j < |row| && row[j].Some? && Flatten(row[j].value) == d
  {
    if row != [] {
      var init := row[..|row| - 1];
      DisplayHeaderMembers(init, d);
      assert forall j :: 0 <= j < |init| ==> init[j] == row[j];
      if exists j :: 0 <= j < |row| && row[j].Some? && Flatten(row[j].value) == d {
        var j :| 0 <= j < |row| && row[j].Some? && Flatten(row[j].value) == d;
        if j < |init| {
          assert init[j] == row[j];
        }
      }
    }
  }

  /** Every non-null header cell is displayed exactly when none of them
      maps to a falsy value. */
  lemma {:induction false} DisplayHeaderKeepsAll(row: Row)
    ensures |DisplayHeader(row)| == FilledColumns(row) <==>
              forall j :: 0 <= j < |row| && row[j].Some? ==> Truthy(Flatten(row[j].value))
  {
    if row != [] {
      var init := row[..|row| - 1];
      DisplayHeaderKeepsAll(init);
      assert forall j :: 0 <= j < |init| ==> init[j] == row[j];
    }
  }
}
