/** Spreadsheet ingestion (src/hcp_crawler/services/excel_service.py) from the point where
    the workbook has been opened: header normalisation, the column map, and the row loop
    that turns data rows into identity records. A cell is `None` or the text Python's `str`
    gives for its value. */
module ExcelService {
  import opened Strings
  import opened Schemas

  /** The workbook as the loader leaves it. */
  datatype Workbook =
    | Unreadable(reason: string)                 // `load_workbook` raised
    | NoActiveSheet                              // `wb.active` is None
    | Sheet(rows: seq<seq<Option<string>>>)      // the active sheet's rows, header first

  /** The exceptions `parse_excel` raises. `IndexError` comes from a data row too short to
      hold the PROJECT_ID column, which the row loop reads without a bound check. */
  datatype ExcelError = ValueError(message: string) | IndexError

  /** The records and the number of rows skipped for want of a project id. */
  datatype Parsed = Parsed(records: seq<HCPInput>, skipped: nat)

  const ProjectIdColumn := "PROJECT_ID"
  const FirstNameColumn := "FIRST_NAME"
  const MiddleNameColumn := "MIDDLE_NAME"
  const LastNameColumn := "LAST_NAME"
  const AddressLine1Column := "ADDRESS_LINE_1"
  const AddressLine2Column := "ADDRESS_LINE_2"
  const CityColumn := "CITY"
  const StateCodeColumn := "STATE_CODE"

  /** The column names that are mapped. */
  const ExpectedColumns: set<string> := {
    ProjectIdColumn, FirstNameColumn, MiddleNameColumn, LastNameColumn,
    AddressLine1Column, AddressLine2Column, CityColumn, StateCodeColumn
  }

  /** `_normalise_header`: strip, upper-case, spaces to underscores. */
  function NormaliseHeader(h: string): string {
    ReplaceChar(Upper(Strip(h)), ' ', '_')
  }

  /** A normalised header is the stripped header, letter for letter, upper-cased and with
      each space turned into an underscore; so it is no longer than the header and has no
      space and no lower-case letter. */
  lemma NormaliseHeaderShape(h: string)
    ensures |NormaliseHeader(h)| == |Strip(h)| <= |h|
    ensures forall i :: 0 <= i < |Strip(h)| ==>
      NormaliseHeader(h)[i] == if Strip(h)[i] == ' ' then '_' else UpperChar(Strip(h)[i])
    ensures forall i :: 0 <= i < |NormaliseHeader(h)| ==>
      NormaliseHeader(h)[i] != ' ' && !('a' <= NormaliseHeader(h)[i] <= 'z')
  {
    UpperMeaning(Strip(h));
  }

  /** Two strings that agree letter by letter once upper-cased. */
  predicate SameUpToCase(h: string, g: string) {
    |h| == |g| && forall i :: 0 <= i < |h| ==> UpperChar(h[i]) == UpperChar(g[i])
  }

  /** Agreeing letter by letter is agreeing after `upper()`. */
  lemma SameUpToCaseIsUpperEqual(h: string, g: string)
    ensures SameUpToCase(h, g) <==> Upper(h) == Upper(g)
  {
    if Upper(h) == Upper(g) {
      forall i | 0 <= i < |h|
        ensures UpperChar(h[i]) == UpperChar(g[i])
      {
        assert Upper(h)[i] == UpperChar(h[i]) && Upper(g)[i] == UpperChar(g[i]);
      }
    }
  }

  /** Upper-casing never turns a character into whitespace or back. */
  lemma CaseAlignsSpace(h: string, g: string)
    requires SameUpToCase(h, g)
    ensures SpaceAligned(h, g)
  {
  }

  lemma CaseSlice(h: string, g: string, l: nat, n: nat)
    requires SameUpToCase(h, g) && l + n <= |h|
    ensures SameUpToCase(h[l..l + n], g[l..l + n])
  {
    var a, b := h[l..l + n], g[l..l + n];
    forall i | 0 <= i < n
      ensures UpperChar(a[i]) == UpperChar(b[i])
    {
      assert a[i] == h[l + i] && b[i] == g[l + i];
    }
  }

  /** `strip()` removes the same whitespace from strings that differ only in case, so what
      it leaves still differs only in case. */
  lemma StripCase(h: string, g: string)
    requires SameUpToCase(h, g)
    ensures SameUpToCase(Strip(h), Strip(g))
  {
    CaseAlignsSpace(h, g);
    StripAligned(h, g);
    CaseSlice(h, g, LeadingSpaces(h), |Strip(h)|);
  }

  /** Headers that differ only in the case of their letters normalise alike, so column
      matching ignores case. */
  lemma NormaliseIgnoresCase(h: string, g: string)
    requires SameUpToCase(h, g)
    ensures NormaliseHeader(h) == NormaliseHeader(g)
  {
    StripCase(h, g);
    SameUpToCaseIsUpperEqual(Strip(h), Strip(g));
  }

  /** The text of a cell: `str(v).strip()`, or "" for an empty cell. A cell whose text is
      "" is falsy in Python, and strips to "" as well. */
  function CellText(c: Option<string>): (t: string)
    ensures c.None? ==> t == ""
    ensures c.Some? ==> t == Strip(c.value)
  {
    match c
    case None => ""
    case Some(v) => Strip(v)
  }

  /** The normalised names of the header row. */
  function HeaderNames(header: seq<Option<string>>): (names: seq<string>)
    ensures |names| == |header|
    ensures forall i :: 0 <= i < |header| ==> names[i] == NormaliseHeader(CellText(header[i]))
  {
    seq(|header|, i requires 0 <= i < |header| => NormaliseHeader(CellText(header[i])))
  }

  /** The column map: each expected name to its column; a later column with the same name
      replaces an earlier one. */
  function ColumnMap(names: seq<string>): map<string, nat>
    decreases |names|
  {
    if names == [] then map[]
    else
      var m := ColumnMap(names[..|names| - 1]);
      var name := names[|names| - 1];
      if name in ExpectedColumns then m[name := |names| - 1] else m
  }

  /** A name is mapped exactly when it is expected and some header has it, and it is mapped
      to the last such header. */
  lemma {:induction false} ColumnMapEntry(names: seq<string>, k: string)
    ensures k in ColumnMap(names) <==> k in ExpectedColumns && k in names
    ensures k in ColumnMap(names) ==>
      ColumnMap(names)[k] < |names| && names[ColumnMap(names)[k]] == k
      && forall j :: ColumnMap(names)[k] < j < |names| ==> names[j] != k
    decreases |names|
  {
    if names != [] {
      var front := names[..|names| - 1];
      ColumnMapEntry(front, k);
      assert names == front + [names[|names| - 1]];
    }
  }

  /** `_cell(col)`: the stripped text of the row's cell in that column, or "" when the column
      is not mapped, the row is too short, or the cell is empty. */
  function Field(row: seq<Option<string>>, cm: map<string, nat>, col: string): (f: string)
    ensures col !in cm || cm[col] >= |row| ==> f == ""
    ensures col in cm && cm[col] < |row| ==> f == CellText(row[cm[col]])
  {
    if col in cm && cm[col] < |row| then CellText(row[cm[col]]) else ""
  }

  /** One data row: no record when its project id is blank, an IndexError when the row does
      not reach the PROJECT_ID column. */
  function RowRecord(row: seq<Option<string>>, cm: map<string, nat>): (r: Result<Option<HCPInput>, ExcelError>)
    requires ProjectIdColumn in cm
    ensures r.Err? <==> cm[ProjectIdColumn] >= |row|
    ensures r.Err? ==> r.error == IndexError
    ensures r.Ok? && r.value.Some? ==>
      r.value.value == RecordOf(row, cm, CellText(row[cm[ProjectIdColumn]]))
      && r.value.value.projectId != ""
    ensures r.Ok? ==> (r.value.None? <==> CellText(row[cm[ProjectIdColumn]]) == "")
  {
    var pid := cm[ProjectIdColumn];
    if pid >= |row| then Err(IndexError)
    else
      var projectId := CellText(row[pid]);
      if projectId == "" then Ok(None) else Ok(Some(RecordOf(row, cm, projectId)))
  }

  /** The record built from a kept row: its project id, and every other field from its
      column. */
  function RecordOf(row: seq<Option<string>>, cm: map<string, nat>, projectId: string): (rec: HCPInput)
    ensures rec.projectId == projectId
  {
    HCPInput(
      projectId,
      Field(row, cm, FirstNameColumn),
      Field(row, cm, MiddleNameColumn),
      Field(row, cm, LastNameColumn),
      Field(row, cm, AddressLine1Column),
      Field(row, cm, AddressLine2Column),
      Field(row, cm, CityColumn),
      Field(row, cm, StateCodeColumn))
  }

  /** Taking one row's outcome into the loop's result: an earlier error stands, a row's
      error stops the loop, a record is appended and a skipped row counted. */
  function Absorb(prev: Result<Parsed, ExcelError>, row: Result<Option<HCPInput>, ExcelError>): (r: Result<Parsed, ExcelError>)
    ensures r.Ok? <==> prev.Ok? && row.Ok?
    ensures r.Err? ==> r.error == if prev.Err? then prev.error else row.error
    ensures r.Ok? && row.value.None? ==> r.value == prev.value.(skipped := prev.value.skipped + 1)
    ensures r.Ok? && row.value.Some? ==> r.value == prev.value.(records := prev.value.records + [row.value.value])
  {
    match prev
    case Err(e) => Err(e)
    case Ok(p) =>
      match row
      case Err(e) => Err(e)
      case Ok(None) => Ok(p.(skipped := p.skipped + 1))
      case Ok(Some(rec)) => Ok(p.(records := p.records + [rec]))
  }

  /** The loop's result after taking the row outcomes in order. */
  function Fold(outs: seq<Result<Option<HCPInput>, ExcelError>>): Result<Parsed, ExcelError>
    decreases |outs|
  {
    if outs == [] then Ok(Parsed([], 0))
    else Absorb(Fold(outs[..|outs| - 1]), outs[|outs| - 1])
  }

  /** The loop fails exactly when some row's outcome is an error. */
  lemma {:induction false} FoldFails(outs: seq<Result<Option<HCPInput>, ExcelError>>)
    ensures Fold(outs).Err? <==> exists i :: 0 <= i < |outs| && outs[i].Err?
    decreases |outs|
  {
    if outs != [] {
      var front := outs[..|outs| - 1];
      FoldFails(front);
      assert forall i :: 0 <= i < |front| ==> front[i] == outs[i];
      if outs[|outs| - 1].Err? {
        assert Fold(outs).Err?;
      }
    }
  }

  /** When every failing row fails with IndexError, so does the loop. */
  lemma {:induction false} FoldErrorIsIndex(outs: seq<Result<Option<HCPInput>, ExcelError>>)
    requires forall i :: 0 <= i < |outs| && outs[i].Err? ==> outs[i].error == IndexError
    ensures Fold(outs).Err? ==> Fold(outs).error == IndexError
    decreases |outs|
  {
    if outs != [] {
      var front := outs[..|outs| - 1];
      assert forall i :: 0 <= i < |front| ==> front[i] == outs[i];
      FoldErrorIsIndex(front);
    }
  }

  /** A loop that completes accounts for every row as a record or a skip, and its records
      are records some row produced. */
  lemma {:induction false} FoldTally(outs: seq<Result<Option<HCPInput>, ExcelError>>)
    requires Fold(outs).Ok?
    ensures |Fold(outs).value.records| + Fold(outs).value.skipped == |outs|
    ensures forall j :: 0 <= j < |Fold(outs).value.records| ==>
      exists i :: 0 <= i < |outs| && outs[i] == Ok(Some(Fold(outs).value.records[j]))
    decreases |outs|
  {
    if outs != [] {
      var front := outs[..|outs| - 1];
      FoldTally(front);
      var all := Fold(outs).value.records;
      var prev := Fold(front).value.records;
      forall j | 0 <= j < |all|
        ensures exists i :: 0 <= i < |outs| && outs[i] == Ok(Some(all[j]))
      {
        if j < |prev| {
          assert all[j] == prev[j];
          var i :| 0 <= i < |front| && front[i] == Ok(Some(prev[j]));
          assert outs[i] == front[i];
        } else {
          assert outs[|outs| - 1] == Ok(Some(all[j]));
        }
      }
    }
  }

  /** One more outcome taken into the loop. */
  lemma FoldSnoc(outs: seq<Result<Option<HCPInput>, ExcelError>>, i: nat)
    requires i < |outs|
    ensures Fold(outs[..i + 1]) == Absorb(Fold(outs[..i]), outs[i])
  {
    assert outs[..i + 1][..i] == outs[..i];
  }

  /** Each data row's outcome. */
  function RowOutcomes(rows: seq<seq<Option<string>>>, cm: map<string, nat>): (outs: seq<Result<Option<HCPInput>, ExcelError>>)
    requires ProjectIdColumn in cm
    ensures |outs| == |rows|
    ensures forall i :: 0 <= i < |rows| ==> outs[i] == RowRecord(rows[i], cm)
  {
    seq(|rows|, i requires 0 <= i < |rows| => RowRecord(rows[i], cm))
  }

  /** The row loop over the data rows, stopping at the first IndexError. */
  function ParseRows(rows: seq<seq<Option<string>>>, cm: map<string, nat>): Result<Parsed, ExcelError>
    requires ProjectIdColumn in cm
  {
    Fold(RowOutcomes(rows, cm))
  }

  /** A row too short to hold the PROJECT_ID column. */
  predicate ShortRow(row: seq<Option<string>>, cm: map<string, nat>)
    requires ProjectIdColumn in cm
  {
    cm[ProjectIdColumn] >= |row|
  }

  /** The row loop fails exactly when some row does not reach the PROJECT_ID column, and
      then with an IndexError. */
  lemma ParseRowsFails(rows: seq<seq<Option<string>>>, cm: map<string, nat>)
    requires ProjectIdColumn in cm
    ensures ParseRows(rows, cm).Err? <==> exists i :: 0 <= i < |rows| && ShortRow(rows[i], cm)
    ensures ParseRows(rows, cm).Err? ==> ParseRows(rows, cm).error == IndexError
  {
    var outs := RowOutcomes(rows, cm);
    FoldFails(outs);
    FoldErrorIsIndex(outs);
    if exists i :: 0 <= i < |rows| && ShortRow(rows[i], cm) {
      var i :| 0 <= i < |rows| && ShortRow(rows[i], cm);
      assert outs[i].Err?;
    }
  }

  /** A loop that completes accounts for every data row as a record or a skip, so there are
      at most as many records as rows, and every record has a non-blank project id. */
  lemma ParseRowsTally(rows: seq<seq<Option<string>>>, cm: map<string, nat>)
    requires ProjectIdColumn in cm && ParseRows(rows, cm).Ok?
    ensures var p := ParseRows(rows, cm).value;
      |p.records| + p.skipped == |rows|
      && forall j :: 0 <= j < |p.records| ==> p.records[j].projectId != ""
  {
    var outs := RowOutcomes(rows, cm);
    FoldTally(outs);
    var p := ParseRows(rows, cm).value;
    forall j | 0 <= j < |p.records|
      ensures p.records[j].projectId != ""
    {
      var i :| 0 <= i < |outs| && outs[i] == Ok(Some(p.records[j]));
      assert RowRecord(rows[i], cm) == Ok(Some(p.records[j]));
    }
  }

  predicate StartsWithRecords(all: seq<HCPInput>, prefix: seq<HCPInput>) {
    |prefix| <= |all| && all[..|prefix|] == prefix
  }

  /** Rows are taken in order: dropping the last row outcome of a loop that completes
      leaves a loop that completes with a prefix of its records. */
  lemma FoldFront(outs: seq<Result<Option<HCPInput>, ExcelError>>)
    requires outs != [] && Fold(outs).Ok?
    ensures Fold(outs[..|outs| - 1]).Ok?
    ensures StartsWithRecords(Fold(outs).value.records, Fold(outs[..|outs| - 1]).value.records)
  {
    AbsorbPrefix(Fold(outs[..|outs| - 1]), outs[|outs| - 1]);
  }

  /** A result that absorbed a row extends the one before it. */
  lemma AbsorbPrefix(prev: Result<Parsed, ExcelError>, row: Result<Option<HCPInput>, ExcelError>)
    requires Absorb(prev, row).Ok?
    ensures prev.Ok? && StartsWithRecords(Absorb(prev, row).value.records, prev.value.records)
  {
    if row.value.Some? {
      assert (prev.value.records + [row.value.value])[..|prev.value.records|] == prev.value.records;
    }
  }

  function ReadFailedMessage(filename: string, reason: string): string {
    "Could not read Excel file '" + filename + "': " + reason
  }

  function NoActiveSheetMessage(): string {
    "The Excel workbook has no active sheet."
  }

  function TooFewRowsMessage(): string {
    "The Excel file must have a header row and at least one data row."
  }

  /** Python's `repr` of a list of strings, for strings without quotes or backslashes. */
  function ListRepr(items: seq<string>): string {
    "[" + Join(seq(|items|, i requires 0 <= i < |items| => "'" + items[i] + "'"), ", ") + "]"
  }

  function MissingProjectIdMessage(rawHeaders: seq<string>): string {
    "Missing required column 'PROJECT_ID'. Found columns: " + ListRepr(rawHeaders)
  }

  /** What `parse_excel` returns or raises for a workbook. */
  function ParseSpec(wb: Workbook, filename: string): (r: Result<Parsed, ExcelError>)
  {
    match wb
    case Unreadable(reason) => Err(ValueError(ReadFailedMessage(filename, reason)))
    case NoActiveSheet => Err(ValueError(NoActiveSheetMessage()))
    case Sheet(rows) => ParseSheet(rows)
  }

  /** What `parse_excel` returns or raises for the rows of the active sheet. */
  function ParseSheet(rows: seq<seq<Option<string>>>): (r: Result<Parsed, ExcelError>)
  {
    if |rows| < 2 then Err(ValueError(TooFewRowsMessage()))
    else
      var raw := seq(|rows[0]|, i requires 0 <= i < |rows[0]| => CellText(rows[0][i]));
      var names := HeaderNames(rows[0]);
      if ProjectIdColumn !in names then Err(ValueError(MissingProjectIdMessage(raw)))
      else
        ColumnMapEntry(names, ProjectIdColumn);
        ParseRows(rows[1..], ColumnMap(names))
  }

  /** A sheet without a data row, or without a header normalising to PROJECT_ID. */
  predicate Unusable(rows: seq<seq<Option<string>>>) {
    |rows| < 2 || ProjectIdColumn !in HeaderNames(rows[0])
  }

  /** A sheet raises ValueError exactly when it has fewer than two rows or no header
      normalising to PROJECT_ID; otherwise it parses or raises IndexError. */
  lemma ParseSheetErrors(rows: seq<seq<Option<string>>>)
    ensures ParseSheet(rows).Err? && ParseSheet(rows).error.ValueError? <==> Unusable(rows)
  {
    if |rows| >= 2 && ProjectIdColumn in HeaderNames(rows[0]) {
      var names := HeaderNames(rows[0]);
      ColumnMapEntry(names, ProjectIdColumn);
      ParseRowsFails(rows[1..], ColumnMap(names));
    }
  }

  /** The ValueError cases: an unreadable file, no active sheet, fewer than two rows, or no
      header normalising to PROJECT_ID; any other sheet parses or raises IndexError. */
  lemma ParseErrors(wb: Workbook, filename: string)
    ensures ParseSpec(wb, filename).Err? && ParseSpec(wb, filename).error.ValueError? <==>
      || wb.Unreadable? || wb.NoActiveSheet?
      || (wb.Sheet? && Unusable(wb.rows))
  {
    if wb.Sheet? {
      ParseSheetErrors(wb.rows);
    }
  }

  /** A sheet that parses yields at most one record per data row, each with a project id,
      and accounts for every data row as a record or a skip. */
  lemma ParseCounts(wb: Workbook, filename: string)
    requires ParseSpec(wb, filename).Ok?
    ensures wb.Sheet? && |wb.rows| >= 2
    ensures var p := ParseSpec(wb, filename).value;
      |p.records| + p.skipped == |wb.rows| - 1 && |p.records| <= |wb.rows| - 1
      && forall j :: 0 <= j < |p.records| ==> p.records[j].projectId != ""
  {
    var names := HeaderNames(wb.rows[0]);
    ColumnMapEntry(names, ProjectIdColumn);
    ParseRowsTally(wb.rows[1..], ColumnMap(names));
  }

  /** The header lookup `_cell`: when header `j` has an expected column's name and no later
      header does, a row's field for that column is the stripped text of its cell `j`, or ""
      when the row is short or the cell empty. */
  lemma FieldFromHeader(names: seq<string>, row: seq<Option<string>>, col: string, j: nat)
    requires col in ExpectedColumns
    requires j < |names| && names[j] == col
    requires forall k :: j < k < |names| ==> names[k] != col
    ensures Field(row, ColumnMap(names), col) == if j < |row| then CellText(row[j]) else ""
  {
    ColumnMapLast(names, col, j);
  }

  /** An expected name is mapped to the last header that has it. */
  lemma {:induction false} ColumnMapLast(names: seq<string>, col: string, j: nat)
    requires col in ExpectedColumns
    requires j < |names| && names[j] == col
    requires forall k :: j < k < |names| ==> names[k] != col
    ensures col in ColumnMap(names) && ColumnMap(names)[col] == j
    decreases |names|
  {
    if j < |names| - 1 {
      var front := names[..|names| - 1];
      assert front[j] == col;
      ColumnMapLast(front, col, j);
    }
  }

  /** With no header of a column's name every row's field for it is "". */
  lemma NoHeaderField(names: seq<string>, row: seq<Option<string>>, col: string)
    requires col !in names
    ensures Field(row, ColumnMap(names), col) == ""
  {
    ColumnMapEntry(names, col);
  }

  /** The `col_map` loop. */
  method MapColumns(names: seq<string>) returns (colMap: map<string, nat>)
    ensures colMap == ColumnMap(names)
  {
    colMap := map[];
    for idx := 0 to |names|
      invariant colMap == ColumnMap(names[..idx])
    {
      assert names[..idx + 1][..idx] == names[..idx];
      if names[idx] in ExpectedColumns {
        colMap := colMap[names[idx] := idx];
      }
    }
    assert names[..|names|] == names;
  }

  /** The row loop. */
  method ReadRows(data: seq<seq<Option<string>>>, colMap: map<string, nat>) returns (r: Result<Parsed, ExcelError>)
    requires ProjectIdColumn in colMap
    ensures r == ParseRows(data, colMap)
  {
    ghost var outs := RowOutcomes(data, colMap);
    var records: seq<HCPInput> := [];
    var skipped: nat := 0;
    for i := 0 to |data|
      invariant Fold(outs[..i]) == Ok(Parsed(records, skipped))
    {
      FoldSnoc(outs, i);
      var row := data[i];
      var pid := colMap[ProjectIdColumn];
      if pid >= |row| {
        ParseRowsFails(data, colMap);
        assert ShortRow(data[i], colMap);
        return Err(IndexError);
      }
      var projectId := CellText(row[pid]);
      if projectId == "" {
        skipped := skipped + 1;
        continue;
      }
      records := records + [RecordOf(row, colMap, projectId)];
    }
    assert outs[..|data|] == outs;
    r := Ok(Parsed(records, skipped));
  }

  /** `parse_excel` after the workbook load. */
  method ParseExcel(wb: Workbook, filename: string) returns (r: Result<Parsed, ExcelError>)
    ensures r == ParseSpec(wb, filename)
  {
    if wb.Unreadable? {
      return Err(ValueError(ReadFailedMessage(filename, wb.reason)));
    }
    if wb.NoActiveSheet? {
      return Err(ValueError(NoActiveSheetMessage()));
    }
    r := ReadSheet(wb.rows);
  }

  /** The header checks and the two loops over the active sheet's rows. */
  method ReadSheet(rows: seq<seq<Option<string>>>) returns (r: Result<Parsed, ExcelError>)
    ensures r == ParseSheet(rows)
  {
    if |rows| < 2 {
      return Err(ValueError(TooFewRowsMessage()));
    }
    var raw := seq(|rows[0]|, i requires 0 <= i < |rows[0]| => CellText(rows[0][i]));
    var names := seq(|raw|, i requires 0 <= i < |raw| => NormaliseHeader(raw[i]));
    assert names == HeaderNames(rows[0]);
    if ProjectIdColumn !in names {
      return Err(ValueError(MissingProjectIdMessage(raw)));
    }
    var colMap := MapColumns(names);
    ColumnMapEntry(names, ProjectIdColumn);
    // PROJECT_ID is always mapped here, so the row loop's check for an unmapped
    // PROJECT_ID column never skips a row.
    r := ReadRows(rows[1..], colMap);
  }
}
