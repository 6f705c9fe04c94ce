/**
 * `load_excel_dataframe`: the first worksheet's rows become string columns.
 * The header is the first row holding a cell that is neither empty nor an
 * error; the table is as wide as the widest row; a blank header cell `i` is
 * named `col_{i+1}`; every row below the header gives each column one cell,
 * null for an empty, error or missing cell.
 */
module ExcelLoader {
  import opened Wrappers
  import opened Text
  import opened Values
  import opened AppErrors
  import opened Frame

  /** A worksheet cell as calamine reads it; `text` is its `Display` rendering. */
  datatype XlCell = Empty | ErrorCell(text: string) | Value(text: string)

  /** `Data::to_string`: an empty cell renders as the empty string. */
  function Display(c: XlCell): string {
    if c.Empty? then "" else c.text
  }

  predicate IsBlank(c: XlCell) {
    c.Empty? || c.ErrorCell?
  }

  predicate BlankRow(row: seq<XlCell>) {
    forall k :: 0 <= k < |row| ==> IsBlank(row[k])
  }

  /** Index of the first row that is not blank. */
  function HeaderIndex(rows: seq<seq<XlCell>>): (h: Option<nat>)
    ensures h.Some? ==> h.value < |rows| && !BlankRow(rows[h.value])
    ensures h.Some? ==> forall j :: 0 <= j < h.value ==> BlankRow(rows[j])
    ensures h.None? <==> forall j :: 0 <= j < |rows| ==> BlankRow(rows[j])
  {
    if rows == [] then None
    else if !BlankRow(rows[0]) then Some(0)
    else
      match HeaderIndex(rows[1..])
      case None => None
      case Some(i) => Some(i + 1)
  }

  /** The length of the widest row, 0 when there are none. */
  function Width(rows: seq<seq<XlCell>>): (w: nat)
    ensures forall j :: 0 <= j < |rows| ==> |rows[j]| <= w
    ensures w == 0 || exists j :: 0 <= j < |rows| && |rows[j]| == w
  {
    if rows == [] then 0
    else
      var rest := Width(rows[1..]);
      assert forall j :: 1 <= j < |rows| ==> rows[j] == rows[1..][j - 1];
      if |rows[0]| >= rest then |rows[0]| else rest
  }

  /** The name of column `i`: the trimmed header text, or `col_{i+1}` when that is empty. */
  function ColumnName(header: seq<XlCell>, i: nat): (name: string)
    ensures name != []
  {
    var text := if i < |header| then Display(header[i]) else "";
    if Trim(text) == [] then "col_" + Decimal(i + 1) else Trim(text)
  }

  /** The cell column `ci` receives from one data row. */
  function RowCell(row: seq<XlCell>, ci: nat): AnyValue {
    if ci < |row| && !IsBlank(row[ci]) then Str(Display(row[ci])) else Null
  }

  /** Column `i`: its name and one cell per row below the header. */
  function ExcelColumn(rows: seq<seq<XlCell>>, h: nat, i: nat): (c: Column)
    requires h < |rows|
    ensures c.name == ColumnName(rows[h], i) && c.dtype == StringType && |c.cells| == |rows| - h - 1
    ensures forall r :: 0 <= r < |c.cells| ==> c.cells[r] == RowCell(rows[h + 1 + r], i)
  {
    Column(ColumnName(rows[h], i), StringType,
      seq(|rows| - h - 1, r requires 0 <= r < |rows| - h - 1 => RowCell(rows[h + 1 + r], i)))
  }

  /** All `width` columns below header row `h`. */
  function ExcelColumns(rows: seq<seq<XlCell>>, h: nat, width: nat): (cols: seq<Column>)
    requires h < |rows|
    ensures |cols| == width
    ensures forall i :: 0 <= i < width ==> cols[i] == ExcelColumn(rows, h, i)
  {
    seq(width, i requires 0 <= i < width => ExcelColumn(rows, h, i))
  }

  /**
   * The whole branch on the first worksheet's rows (`None` when the workbook
   * has no sheet); `pathText` is the lossy rendering of the path used in errors.
   */
  function ExcelTable(pathText: string, sheet: Option<seq<seq<XlCell>>>): (r: Result<seq<Column>, AppError>)
    ensures sheet.None? || HeaderIndex(sheet.value).None? ==> r == Err(UnsupportedFormat(pathText))
    ensures r.Err? && r.error != UnsupportedFormat(pathText) ==> r.error.Polars?
  {
    match sheet
    case None => Err(UnsupportedFormat(pathText))
    case Some(rows) =>
      match HeaderIndex(rows)
      case None => Err(UnsupportedFormat(pathText))
      case Some(h) =>
        var width := Width(rows);
        if width == 0 then Err(UnsupportedFormat(pathText))
        else NewDataFrame(ExcelColumns(rows, h, width))
  }

  /** Once a header row is found the table is never zero columns wide, so that error branch cannot fire. */
  lemma HeaderImpliesWidth(rows: seq<seq<XlCell>>)
    requires HeaderIndex(rows).Some?
    ensures Width(rows) > 0
  {
    var h := HeaderIndex(rows).value;
    assert |rows[h]| > 0;
  }

  /** The names given to blank header cells never clash with one another. */
  lemma GeneratedNamesDistinct(i: nat, j: nat)
    requires i != j
    ensures "col_" + Decimal(i + 1) != "col_" + Decimal(j + 1)
  {
    if "col_" + Decimal(i + 1) == "col_" + Decimal(j + 1) {
      assert Decimal(i + 1) == ("col_" + Decimal(i + 1))[4..];
      DecimalInjective(i + 1, j + 1);
    }
  }

  /**
   * What a loaded worksheet is: there is a header row, and the table holds
   * one column per cell of the widest row, each built from the rows below the
   * header as `ExcelColumn` states.
   */
  lemma ExcelTableShape(pathText: string, rows: seq<seq<XlCell>>)
    requires ExcelTable(pathText, Some(rows)).Ok?
    ensures HeaderIndex(rows).Some? && Width(rows) > 0
    ensures var cols := ExcelTable(pathText, Some(rows)).value;
      && |cols| == Width(rows)
      && forall i :: 0 <= i < |cols| ==> cols[i] == ExcelColumn(rows, HeaderIndex(rows).value, i)
  {
  }

  /** The header search: the first row that is not all empty or error cells. */
  method FindHeader(rows: seq<seq<XlCell>>) returns (h: Option<nat>)
    ensures h == HeaderIndex(rows)
  {
    h := None;
    for i := 0 to |rows|
      invariant forall j :: 0 <= j < i ==> BlankRow(rows[j])
    {
      if !BlankRow(rows[i]) {
        h := Some(i);
        HeaderIndexFirst(rows, i);
        return;
      }
    }
  }

  /** The first non-blank row is the header. */
  lemma HeaderIndexFirst(rows: seq<seq<XlCell>>, i: nat)
    requires i < |rows| && !BlankRow(rows[i])
    requires forall j :: 0 <= j < i ==> BlankRow(rows[j])
    ensures HeaderIndex(rows) == Some(i)
  {
  }

  /** Pushes one data row's cells onto the column buffers. */
  method PushExcelRow(columns: seq<seq<AnyValue>>, row: seq<XlCell>) returns (out: seq<seq<AnyValue>>)
    ensures |out| == |columns|
    ensures forall i :: 0 <= i < |columns| ==> out[i] == columns[i] + [RowCell(row, i)]
  {
    out := columns;
    for ci := 0 to |columns|
      invariant |out| == |columns|
      invariant forall j :: 0 <= j < ci ==> out[j] == columns[j] + [RowCell(row, j)]
      invariant forall j :: ci <= j < |columns| ==> out[j] == columns[j]
    {
      var value := if ci < |row| && !IsBlank(row[ci]) then Str(Display(row[ci])) else Null;
      out := out[ci := out[ci] + [value]];
    }
  }

  /** Reading row `ri` below the header extends column `i` by that row's cell. */
  lemma ExcelPrefixStep(rows: seq<seq<XlCell>>, h: nat, i: nat, ri: nat)
    requires h < ri < |rows|
    ensures ExcelColumn(rows, h, i).cells[..ri - h] == ExcelColumn(rows, h, i).cells[..ri - h - 1] + [RowCell(rows[ri], i)]
  {
    var cells := ExcelColumn(rows, h, i).cells;
    assert cells[..ri - h] == cells[..ri - h - 1] + [cells[ri - h - 1]];
  }

  /** The header names, pushed one per column. */
  method BuildHeaders(header: seq<XlCell>, colCount: nat) returns (headers: seq<string>)
    ensures |headers| == colCount
    ensures forall j :: 0 <= j < colCount ==> headers[j] == ColumnName(header, j)
  {
    headers := [];
    for i := 0 to colCount
      invariant |headers| == i
      invariant forall j :: 0 <= j < i ==> headers[j] == ColumnName(header, j)
    {
      var name := if i < |header| then Display(header[i]) else "";
      var finalName := if Trim(name) == [] then "col_" + Decimal(i + 1) else Trim(name);
      headers := headers + [finalName];
    }
  }

  /** The column buffers, filled from every row below the header. */
  method FillColumns(rows: seq<seq<XlCell>>, h: nat, colCount: nat) returns (columns: seq<seq<AnyValue>>)
    requires h < |rows|
    ensures |columns| == colCount
    ensures forall i :: 0 <= i < colCount ==> columns[i] == ExcelColumn(rows, h, i).cells
  {
    columns := seq(colCount, _ => []);
    for ri := 0 to |rows|
      invariant |columns| == colCount
      invariant forall i :: 0 <= i < colCount ==> columns[i] == ExcelColumn(rows, h, i).cells[..if ri <= h then 0 else ri - h - 1]
    {
      if ri <= h {
        continue;
      }
      columns := PushExcelRow(columns, rows[ri]);
      forall i | 0 <= i < colCount
        ensures columns[i] == ExcelColumn(rows, h, i).cells[..ri + 1 - h - 1]
      {
        ExcelPrefixStep(rows, h, i, ri);
      }
    }
    forall i | 0 <= i < colCount
      ensures columns[i] == ExcelColumn(rows, h, i).cells
    {
      assert ExcelColumn(rows, h, i).cells[..|rows| - h - 1] == ExcelColumn(rows, h, i).cells;
    }
  }

  /** The Excel branch as the loader runs it. */
  method LoadExcel(pathText: string, sheet: Option<seq<seq<XlCell>>>) returns (r: Result<seq<Column>, AppError>)
    ensures r == ExcelTable(pathText, sheet)
  {
    if sheet.None? {
      return Err(UnsupportedFormat(pathText));
    }
    var rows := sheet.value;
    var headerIdx := FindHeader(rows);
    if headerIdx.None? {
      return Err(UnsupportedFormat(pathText));
    }
    var h := headerIdx.value;
    var colCount := Width(rows);
    if colCount == 0 {
      return Err(UnsupportedFormat(pathText));
    }
    var headers := BuildHeaders(rows[h], colCount);
    var columns := FillColumns(rows, h, colCount);
    var columnVec := seq(colCount, i requires 0 <= i < colCount => Column(headers[i], StringType, columns[i]));
    assert columnVec == ExcelColumns(rows, h, colCount);
    r := NewDataFrame(columnVec);
  }
}
