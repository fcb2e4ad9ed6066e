/** The `Home` component's session state and its event handlers, each an
    atomic update of the fields the handler sets. */
module Home {
  import opened Cells
  import opened Header
  import opened Random
  import opened Sheets
  import Gate

  /** The error messages the handlers set. */
  datatype ErrorKind =
    | SelectFileAndWorksheet   // no file or no selected sheet
    | NoVisibleWorksheet       // a sheet name is selected but no worksheet is held
    | WorksheetNotFound        // the workbook has no sheet of the selected name
    | WorkbookUnavailable      // no workbook or no selected sheet at a choice
    | FileMissing              // the fill ran without a file to name the download

  class Session {
    var file: Option<string>
    var error: Option<ErrorKind>
    var firstRow: Option<seq<Display>>
    var rowCount: nat
    var availableSheets: seq<string>
    var selectedSheet: Option<string>
    var showModal: bool
    var replaceMode: bool
    var userDecisionMade: bool
    var workbook: Workbook?
    var worksheet: Worksheet?
    const random: MathRandom

    function Flags(): Gate.Flags
      reads this
    {
      Gate.Flags(userDecisionMade, replaceMode, showModal)
    }

    ghost predicate Valid()
      reads this
    {
      random.Valid() && Gate.Consistent(Flags())
    }

    /** A sheet is selected in the handlers' truthiness sense: a name is
        held and it is not the empty string. */
    predicate SheetSelected()
      reads this
    {
      selectedSheet != None && selectedSheet.value != ""
    }

    /** The sheets of the loaded workbook, which a choice may fill. */
    function WorkbookSheets(): set<Worksheet>
      reads this
    {
      if workbook == null then {} else set s | s in workbook.worksheets
    }

    constructor (random: MathRandom)
      requires random.Valid()
      ensures Valid() && this.random == random
      ensures file == None && error == None && firstRow == None && rowCount == 10
      ensures availableSheets == [] && selectedSheet == None
      ensures Flags() == Gate.Initial
      ensures workbook == null && worksheet == null
    {
      file, error, firstRow, rowCount := None, None, None, 10;
      availableSheets, selectedSheet := [], None;
      showModal, replaceMode, userDecisionMade := false, false, false;
      workbook, worksheet := null, null;
      this.random := random;
    }

    /** `handleFileChange`: `files` are the names of the chosen files and
        `loaded` the workbook ExcelJS reads from the first of them, or null
        when reading it fails (the handler then stops after clearing the
        error). The decision flags are not reset. */
    method HandleFileChange(files: seq<string>, loaded: Workbook?)
      requires Valid()
      modifies this
      ensures Valid()
      ensures Flags() == Gate.Step(old(Flags()), Gate.LoadFile).0
      ensures rowCount == old(rowCount) && firstRow == old(firstRow)
      ensures files == [] ==> file == old(file) && error == old(error)
      ensures files != [] ==> file == Some(files[0]) && error == None
      ensures files == [] || loaded == null ==>
                availableSheets == old(availableSheets) && selectedSheet == old(selectedSheet) &&
                workbook == old(workbook) && worksheet == old(worksheet)
      ensures files != [] && loaded != null ==>
                availableSheets == loaded.SheetNames() && workbook == loaded &&
                (if loaded.SheetNames() == [] then
                   selectedSheet == old(selectedSheet) && worksheet == old(worksheet)
                 else
                   selectedSheet == Some(loaded.SheetNames()[0]) &&
                   worksheet == loaded.GetWorksheet(loaded.SheetNames()[0]) &&
                   worksheet == loaded.worksheets[0])
    {
      if files != [] {
        file := Some(files[0]);
        error := None;
        if loaded != null {
          var sheetNames := loaded.SheetNames();
          availableSheets := sheetNames;
          if |sheetNames| > 0 {
            selectedSheet := Some(sheetNames[0]);
            worksheet := loaded.GetWorksheet(sheetNames[0]);
          }
          workbook := loaded;
        }
      }
    }

    /** `handleSheetSelection`: the decision flags are not reset. */
    method HandleSheetSelection(value: string)
      requires Valid()
      modifies this
      ensures Valid()
      ensures Flags() == Gate.Step(old(Flags()), Gate.SelectSheet).0
      ensures selectedSheet == Some(value)
      ensures worksheet == if old(workbook) == null then old(worksheet) else old(workbook).GetWorksheet(value)
      ensures workbook == old(workbook) && file == old(file) && error == old(error)
      ensures rowCount == old(rowCount) && firstRow == old(firstRow) && availableSheets == old(availableSheets)
    {
      selectedSheet := Some(value);
      if workbook != null {
        worksheet := workbook.GetWorksheet(value);
      }
    }

    /** `handleRowCountChange`: the number of rows a fill writes. */
    method HandleRowCountChange(value: nat)
      requires Valid()
      modifies this
      ensures Valid()
      ensures rowCount == value
      ensures Flags() == old(Flags()) && file == old(file) && error == old(error)
      ensures firstRow == old(firstRow) && availableSheets == old(availableSheets)
      ensures selectedSheet == old(selectedSheet) && workbook == old(workbook) && worksheet == old(worksheet)
    {
      rowCount := value;
    }

    /** The dialog's `onOpenChange(false)`: dismissed without a choice. */
    method CloseModal()
      requires Valid()
      modifies this
      ensures Valid()
      ensures Flags() == Gate.Step(old(Flags()), Gate.CloseModal).0
      ensures file == old(file) && error == old(error) && rowCount == old(rowCount)
      ensures firstRow == old(firstRow) && availableSheets == old(availableSheets)
      ensures selectedSheet == old(selectedSheet) && workbook == old(workbook) && worksheet == old(worksheet)
    {
      showModal := false;
    }

    /** `fillRandomData`: over the held worksheet, writes `rowCount` rows of
        as many cells as row 1 has filled columns, from the row the mode
        dictates; then the workbook is written back for download, which
        needs a file. */
    method FillRandomData(replace: bool)
      requires Valid()
      modifies this, worksheet, random
      ensures Valid()
      ensures worksheet == old(worksheet) && workbook == old(workbook)
      ensures Flags() == old(Flags()) && file == old(file) && rowCount == old(rowCount)
      ensures firstRow == old(firstRow) && availableSheets == old(availableSheets)
      ensures selectedSheet == old(selectedSheet)
      ensures worksheet != null && workbook != null ==>
                Filled(old(worksheet.rows), worksheet.rows, replace, rowCount) &&
                error == (if file == None then Some(FileMissing) else old(error))
      ensures worksheet == null || workbook == null ==>
                error == old(error) && (worksheet != null ==> worksheet.rows == old(worksheet.rows))
    {
      if worksheet != null && workbook != null {
        var lastColIndex := FilledColumns(worksheet.GetRow(1));
        var rowIndex := StartRow(replace, worksheet.LastRowNumber());
        worksheet.WriteRandomRows(rowIndex, rowCount, lastColIndex, random);
        if file == None {
          error := Some(FileMissing);
        }
      }
    }

    /** `handleDummyDataFill`: the guard, the occupancy scan and the gate.
        With data and no recorded decision it only opens the dialog;
        otherwise it fills in the remembered mode. */
    method HandleDummyDataFill()
      requires Valid()
      modifies this, worksheet, random
      ensures Valid()
      ensures worksheet == old(worksheet) && workbook == old(workbook) && file == old(file)
      ensures rowCount == old(rowCount) && firstRow == old(firstRow)
      ensures availableSheets == old(availableSheets) && selectedSheet == old(selectedSheet)
      ensures file == None || !SheetSelected() ==>
                error == Some(SelectFileAndWorksheet) && Flags() == old(Flags()) &&
                (worksheet != null ==> worksheet.rows == old(worksheet.rows))
      ensures file != None && SheetSelected() && worksheet == null ==>
                error == Some(NoVisibleWorksheet) && Flags() == old(Flags())
      ensures file != None && SheetSelected() && worksheet != null ==>
                var step := Gate.Step(old(Flags()), Gate.FillRequest(Occupied(old(worksheet.rows))));
                && Flags() == step.0
                && (step.1 == Gate.Prompt ==> worksheet.rows == old(worksheet.rows) && error == old(error))
                && (step.1 != Gate.Prompt && workbook != null ==>
                      step.1 == Gate.Fill(replaceMode) &&
                      Filled(old(worksheet.rows), worksheet.rows, replaceMode, rowCount) &&
                      error == old(error))
                && (step.1 != Gate.Prompt && workbook == null ==>
                      worksheet.rows == old(worksheet.rows) && error == old(error))
    {
      if file == None || !SheetSelected() {
        error := Some(SelectFileAndWorksheet);
        return;
      }
      if worksheet != null {
        var hasNoEmptyRows, _ := worksheet.HasData();
        if hasNoEmptyRows && !userDecisionMade {
          showModal := true;
          return;
        } else {
          FillRandomData(replaceMode);
        }
      } else {
        error := Some(NoVisibleWorksheet);
      }
    }

    /** `handleReplace` (replace) and `handleAppend` (not replace): record
        the choice, close the dialog, re-fetch the selected sheet and fill
        it in the chosen mode. */
    method Choose(replace: bool)
      requires Valid()
      modifies this, random, WorkbookSheets()
      ensures Valid()
      ensures Flags() == Gate.Step(old(Flags()), Gate.Choose(replace)).0
      ensures workbook == old(workbook) && file == old(file) && rowCount == old(rowCount)
      ensures firstRow == old(firstRow) && availableSheets == old(availableSheets)
      ensures selectedSheet == old(selectedSheet)
      ensures workbook == null || !SheetSelected() ==>
                error == Some(WorkbookUnavailable) && worksheet == old(worksheet) &&
                unchanged(old(WorkbookSheets()))
      ensures workbook != null && SheetSelected() ==>
                var ws := workbook.GetWorksheet(selectedSheet.value);
                && worksheet == ws
                && (ws == null ==> error == Some(WorksheetNotFound) && unchanged(old(WorkbookSheets())))
                && (ws != null ==>
                      Filled(old(ws.rows), ws.rows, replace, rowCount) &&
                      error == (if file == None then Some(FileMissing) else old(error)) &&
                      unchanged(old(WorkbookSheets()) - {ws}))
    {
      replaceMode := replace;
      userDecisionMade := true;
      showModal := false;
      if workbook != null && SheetSelected() {
        var newWorksheet := workbook.GetWorksheet(selectedSheet.value);
        worksheet := newWorksheet;
        if newWorksheet != null {
          FillRandomData(replace);
        } else {
          error := Some(WorksheetNotFound);
        }
      } else {
        error := Some(WorkbookUnavailable);
      }
    }

    /** `handleReplace` */
    method HandleReplace()
      requires Valid()
      modifies this, random, WorkbookSheets()
      ensures Valid()
      ensures Flags() == Gate.Step(old(Flags()), Gate.Choose(true)).0
      ensures userDecisionMade && replaceMode && !showModal
      ensures workbook == old(workbook) && file == old(file) && rowCount == old(rowCount)
      ensures firstRow == old(firstRow) && availableSheets == old(availableSheets)
      ensures selectedSheet == old(selectedSheet)
      ensures workbook == null || !SheetSelected() ==>
                error == Some(WorkbookUnavailable) && worksheet == old(worksheet) &&
                unchanged(old(WorkbookSheets()))
      ensures workbook != null && SheetSelected() ==>
                var ws := workbook.GetWorksheet(selectedSheet.value);
                && worksheet == ws
                && (ws == null ==> error == Some(WorksheetNotFound) && unchanged(old(WorkbookSheets())))
                && (ws != null ==>
                      Filled(old(ws.rows), ws.rows, true, rowCount) &&
                      error == (if file == None then Some(FileMissing) else old(error)) &&
                      unchanged(old(WorkbookSheets()) - {ws}))
    {
      Choose(true);
    }

    /** `handleAppend` */
    method HandleAppend()
      requires Valid()
      modifies this, random, WorkbookSheets()
      ensures Valid()
      ensures Flags() == Gate.Step(old(Flags()), Gate.Choose(false)).0
      ensures userDecisionMade && !replaceMode && !showModal
      ensures workbook == old(workbook) && file == old(file) && rowCount == old(rowCount)
      ensures firstRow == old(firstRow) && availableSheets == old(availableSheets)
      ensures selectedSheet == old(selectedSheet)
      ensures workbook == null || !SheetSelected() ==>
                error == Some(WorkbookUnavailable) && worksheet == old(worksheet) &&
                unchanged(old(WorkbookSheets()))
      ensures workbook != null && SheetSelected() ==>
                var ws := workbook.GetWorksheet(selectedSheet.value);
                && worksheet == ws
                && (ws == null ==> error == Some(WorksheetNotFound) && unchanged(old(WorkbookSheets())))
                && (ws != null ==>
                      Filled(old(ws.rows), ws.rows, false, rowCount) &&
                      error == (if file == None then Some(FileMissing) else old(error)) &&
                      unchanged(old(WorkbookSheets()) - {ws}))
    {
      Choose(false);
    }

    /** `handleSubmit`: the displayed header labels of the held worksheet. */
    method HandleSubmit()
      requires Valid()
      modifies this
      ensures Valid()
      ensures Flags() == old(Flags()) && file == old(file) && rowCount == old(rowCount)
      ensures availableSheets == old(availableSheets) && selectedSheet == old(selectedSheet)
      ensures workbook == old(workbook) && worksheet == old(worksheet)
      ensures file == None || !SheetSelected() ==>
                error == Some(SelectFileAndWorksheet) && firstRow == old(firstRow)
      ensures file != None && SheetSelected() && worksheet == null ==>
                error == Some(NoVisibleWorksheet) && firstRow == old(firstRow)
      ensures file != None && SheetSelected() && worksheet != null ==>
                firstRow == Some(DisplayHeader(RowAt(worksheet.rows, 1))) && error == old(error)
    {
      if file == None || !SheetSelected() {
        error := Some(SelectFileAndWorksheet);
        return;
      }
      if worksheet != null {
        firstRow := Some(DisplayHeader(worksheet.GetRow(1)));
      } else {
        error := Some(NoVisibleWorksheet);
      }
    }
  }

  /** A recorded choice survives a new file and a new sheet selection:
      after Replace, loading another workbook (whose sheets the choice did
      not touch), picking a non-empty sheet name and asking for a fill again
      does not open the dialog and fills the picked sheet in Replace mode
      with the session's row count. */
  method StickyChoiceScenario(s: Session, files: seq<string>, loaded: Workbook, name: string)
    requires s.Valid() && files != [] && name != ""
    requires forall w :: w in loaded.worksheets ==> w !in s.WorkbookSheets()
    modifies s, s.random, s.WorkbookSheets(), set ws | ws in loaded.worksheets
    ensures s.Valid()
    ensures s.userDecisionMade && s.replaceMode && !s.showModal
    ensures s.file == Some(files[0]) && s.selectedSheet == Some(name) && s.workbook == loaded
    ensures s.worksheet == loaded.GetWorksheet(name) && s.rowCount == old(s.rowCount)
    ensures s.worksheet != null ==>
              Filled(old(loaded.GetWorksheet(name).rows), s.worksheet.rows, true, old(s.rowCount))
  {
    s.HandleReplace();
    s.HandleFileChange(files, loaded);
    s.HandleSheetSelection(name);
    assert s.workbook == loaded;
    s.HandleDummyDataFill();
  }
}
