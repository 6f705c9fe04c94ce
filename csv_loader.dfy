/**
 * The CSV branch of `load_dataframe`: the text is cut into lines, the first
 * line into trimmed header names, and every later line into trimmed fields
 * by plain comma splitting (no quoting). Each column receives one cell per
 * data line: the field, or null when it is empty or missing; fields beyond
 * the header's width are dropped.
 */
module CsvLoader {
  import opened Wrappers
  import opened Text
  import opened Values
  import opened AppErrors
  import opened Frame

  /** Every piece trimmed. */
  function TrimAll(pieces: seq<string>): (r: seq<string>)
    ensures |r| == |pieces|
    ensures forall k :: 0 <= k < |r| ==> r[k] == Trim(pieces[k])
  {
    seq(|pieces|, k requires 0 <= k < |pieces| => Trim(pieces[k]))
  }

  /** Pieces without whitespace at either end are left alone by trimming. */
  lemma TrimAllTrimmed(pieces: seq<string>)
    requires forall k :: 0 <= k < |pieces| ==> pieces[k] != [] && !IsWhitespace(pieces[k][0]) && !IsWhitespace(pieces[k][|pieces[k]| - 1])
    ensures TrimAll(pieces) == pieces
  {
    forall k | 0 <= k < |pieces|
      ensures TrimAll(pieces)[k] == pieces[k]
    {
      TrimOfTrimmed(pieces[k]);
    }
  }

  /** The trimmed comma-separated fields of one line. */
  function Fields(line: string): (r: seq<string>)
    ensures |r| >= 1
  {
    TrimAll(Split(line, ','))
  }

  /** The cell column `i` receives from a line's fields. */
  function FieldCell(fields: seq<string>, i: nat): (v: AnyValue)
    ensures v == Null || (v.Str? && i < |fields| && v.s == fields[i] && v.s != [])
    ensures i < |fields| && fields[i] != [] ==> v == Str(fields[i])
  {
    if i < |fields| && fields[i] != [] then Str(fields[i]) else Null
  }

  /** Column `i` of the table read from `lines`: header `i` and one cell per later line. */
  function CsvColumn(lines: seq<string>, i: nat): (c: Column)
    requires lines != [] && i < |Fields(lines[0])|
    ensures c.name == Fields(lines[0])[i] && c.dtype == StringType
    ensures |c.cells| == |lines| - 1
    ensures forall r :: 0 <= r < |lines| - 1 ==> c.cells[r] == FieldCell(Fields(lines[r + 1]), i)
  {
    Column(Fields(lines[0])[i], StringType,
      seq(|lines| - 1, r requires 0 <= r < |lines| - 1 => FieldCell(Fields(lines[r + 1]), i)))
  }

  /** The columns before `DataFrame::new` checks them. */
  function CsvColumns(lines: seq<string>): (cols: seq<Column>)
    requires lines != []
    ensures |cols| == |Fields(lines[0])|
    ensures forall i :: 0 <= i < |cols| ==> cols[i] == CsvColumn(lines, i)
  {
    seq(|Fields(lines[0])|, i requires 0 <= i < |Fields(lines[0])| => CsvColumn(lines, i))
  }

  /** The whole CSV branch on the file's text. */
  function CsvTable(data: string): Result<seq<Column>, AppError> {
    var lines := Lines(data);
    if lines == [] then Err(Polars(NoData("CSV file is empty")))
    else NewDataFrame(CsvColumns(lines))
  }

  /** Only text without lines fails before the columns are built; every loaded column has one cell per data line. */
  lemma CsvTableShape(data: string)
    ensures data == [] ==> CsvTable(data) == Err(Polars(NoData("CSV file is empty")))
    ensures CsvTable(data).Ok? ==>
      var lines := Lines(data);
      && |CsvTable(data).value| == |Split(lines[0], ',')|
      && forall i :: 0 <= i < |CsvTable(data).value| ==> |CsvTable(data).value[i].cells| == |lines| - 1
  {
  }

  /** Pushes one line's cells onto the column buffers. */
  method PushRow(columns: seq<seq<AnyValue>>, fields: seq<string>) returns (out: seq<seq<AnyValue>>)
    ensures |out| == |columns|
    ensures forall i :: 0 <= i < |columns| ==> out[i] == columns[i] + [FieldCell(fields, i)]
  {
    out := columns;
    for i := 0 to |columns|
      invariant |out| == |columns|
      invariant forall j :: 0 <= j < i ==> out[j] == columns[j] + [FieldCell(fields, j)]
      invariant forall j :: i <= j < |columns| ==> out[j] == columns[j]
    {
      var value := if i < |fields| && fields[i] != [] then Str(fields[i]) else Null;
      out := out[i := out[i] + [value]];
    }
  }

  /** Reading line `l` extends column `i` by that line's cell. */
  lemma ColumnPrefixStep(lines: seq<string>, i: nat, l: nat)
    requires lines != [] && i < |Fields(lines[0])| && 1 <= l < |lines|
    ensures CsvColumn(lines, i).cells[..l] == CsvColumn(lines, i).cells[..l - 1] + [FieldCell(Fields(lines[l]), i)]
  {
    var cells := CsvColumn(lines, i).cells;
    assert cells[..l] == cells[..l - 1] + [cells[l - 1]];
  }

  /** The CSV branch as the loader runs it: column buffers filled line by line. */
  method LoadCsv(data: string) returns (r: Result<seq<Column>, AppError>)
    ensures r == CsvTable(data)
  {
    var lines := Lines(data);
    if lines == [] {
      return Err(Polars(NoData("CSV file is empty")));
    }
    var headers := Fields(lines[0]);
    var columns: seq<seq<AnyValue>> := seq(|headers|, _ => []);
    for l := 1 to |lines|
      invariant |columns| == |headers|
      invariant forall i :: 0 <= i < |headers| ==> columns[i] == CsvColumn(lines, i).cells[..l - 1]
    {
      var fields := Fields(lines[l]);
      columns := PushRow(columns, fields);
      forall i | 0 <= i < |headers|
        ensures columns[i] == CsvColumn(lines, i).cells[..l]
      {
        ColumnPrefixStep(lines, i, l);
      }
    }
    var seriesVec := seq(|headers|, i requires 0 <= i < |headers| => Column(headers[i], StringType, columns[i]));
    assert seriesVec == CsvColumns(lines) by {
      forall i | 0 <= i < |headers|
        ensures seriesVec[i] == CsvColumn(lines, i)
      {
        assert columns[i] == CsvColumn(lines, i).cells by {
          assert CsvColumn(lines, i).cells[..|lines| - 1] == CsvColumn(lines, i).cells;
        }
      }
    }
    r := NewDataFrame(seriesVec);
  }

  /** A cell text that survives a trip through a CSV file: non-empty, without whitespace at either end, without commas or line feeds. */
  predicate CleanCell(c: string) {
    c != [] && !IsWhitespace(c[0]) && !IsWhitespace(c[|c| - 1]) && ',' !in c && '\n' !in c
  }

  /** The header line followed by one comma-joined line per row. */
  function CsvLines(header: seq<string>, rows: seq<seq<string>>): (lines: seq<string>)
    requires |header| >= 1
    requires forall r :: 0 <= r < |rows| ==> |rows[r]| == |header|
    ensures |lines| == |rows| + 1 && lines[0] == JoinWith(header, ',')
    ensures forall r :: 0 <= r < |rows| ==> lines[r + 1] == JoinWith(rows[r], ',')
  {
    [JoinWith(header, ',')] + seq(|rows|, r requires 0 <= r < |rows| => JoinWith(rows[r], ','))
  }

  /** A table written as CSV text. */
  function RenderCsv(header: seq<string>, rows: seq<seq<string>>): string
    requires |header| >= 1
    requires forall r :: 0 <= r < |rows| ==> |rows[r]| == |header|
  {
    JoinLines(CsvLines(header, rows))
  }

  /** The comma-joined fields of clean cells are read back as those cells. */
  lemma FieldsOfJoin(cells: seq<string>)
    requires |cells| >= 1
    requires forall k :: 0 <= k < |cells| ==> CleanCell(cells[k])
    ensures Fields(JoinWith(cells, ',')) == cells
  {
    JoinSplit(cells, ',');
    TrimAllTrimmed(cells);
  }

  /** The comma-joined clean cells form one line that `str::lines` leaves as it is. */
  lemma CleanLine(cells: seq<string>)
    requires |cells| >= 1
    requires forall k :: 0 <= k < |cells| ==> CleanCell(cells[k])
    ensures '\n' !in JoinWith(cells, ',') && StripCr(JoinWith(cells, ',')) == JoinWith(cells, ',')
  {
    JoinWithAvoids(cells, ',', '\n');
    var line := JoinWith(cells, ',');
    var last := cells[|cells| - 1];
    JoinWithLast(cells, ',');
    assert line[|line| - 1] == last[|last| - 1];
  }

  /** A character that is neither the separator nor in any piece is not in the joined text. */
  lemma {:induction false} JoinWithAvoids(parts: seq<string>, sep: char, c: char)
    requires |parts| >= 1 && c != sep
    requires forall k :: 0 <= k < |parts| ==> c !in parts[k]
    ensures c !in JoinWith(parts, sep)
  {
    if |parts| > 1 {
      JoinWithAvoids(parts[1..], sep, c);
    }
  }

  /** The joined text ends with the last piece. */
  lemma {:induction false} JoinWithLast(parts: seq<string>, sep: char)
    requires |parts| >= 1
    ensures var s := JoinWith(parts, sep); var last := parts[|parts| - 1];
      |s| >= |last| && s[|s| - |last|..] == last
  {
    if |parts| > 1 {
      JoinWithLast(parts[1..], sep);
      assert parts[1..][|parts| - 2] == parts[|parts| - 1];
    }
  }

  /** String columns named by `header` holding the rows' cells. */
  function StringTable(header: seq<string>, rows: seq<seq<string>>): seq<Column>
    requires forall r :: 0 <= r < |rows| ==> |rows[r]| == |header|
  {
    seq(|header|, i requires 0 <= i < |header| =>
      Column(header[i], StringType, seq(|rows|, r requires 0 <= r < |rows| => Str(rows[r][i]))))
  }

  /** Lines whose fields are the header and the rows, all non-empty, give the string table. */
  lemma CsvColumnsOfFields(lines: seq<string>, header: seq<string>, rows: seq<seq<string>>)
    requires |lines| == |rows| + 1
    requires forall r :: 0 <= r < |rows| ==> |rows[r]| == |header|
    requires Fields(lines[0]) == header
    requires forall r :: 0 <= r < |rows| ==> Fields(lines[r + 1]) == rows[r]
    requires forall r, i :: 0 <= r < |rows| && 0 <= i < |rows[r]| ==> rows[r][i] != []
    ensures CsvColumns(lines) == StringTable(header, rows)
  {
    forall i | 0 <= i < |header|
      ensures CsvColumns(lines)[i] == StringTable(header, rows)[i]
    {
      assert CsvColumn(lines, i).cells == StringTable(header, rows)[i].cells;
    }
  }

  /** The lines of a rendered table are the header line and one line per row. */
  lemma RenderedLines(header: seq<string>, rows: seq<seq<string>>, lines: seq<string>)
    requires |header| >= 1
    requires forall i :: 0 <= i < |header| ==> CleanCell(header[i])
    requires forall r :: 0 <= r < |rows| ==> |rows[r]| == |header|
    requires forall r, i :: 0 <= r < |rows| && 0 <= i < |header| ==> CleanCell(rows[r][i])
    requires lines == CsvLines(header, rows)
    ensures Lines(RenderCsv(header, rows)) == lines
    ensures Fields(lines[0]) == header
    ensures forall r :: 0 <= r < |rows| ==> Fields(lines[r + 1]) == rows[r]
  {
    forall k | 0 <= k < |lines|
      ensures '\n' !in lines[k] && StripCr(lines[k]) == lines[k]
      ensures Fields(lines[k]) == if k == 0 then header else rows[k - 1]
    {
      if k == 0 {
        FieldsOfJoin(header);
        CleanLine(header);
      } else {
        var row := rows[k - 1];
        assert lines[k] == JoinWith(row, ',');
        assert forall i :: 0 <= i < |row| ==> CleanCell(row[i]);
        FieldsOfJoin(row);
        CleanLine(row);
      }
    }
    JoinLinesLines(lines);
    forall r | 0 <= r < |rows|
      ensures Fields(lines[r + 1]) == rows[r]
    {
    }
  }

  /**
   * Writing a table of clean cells with distinct header names as CSV and
   * loading it gives back one string column per header name, holding the
   * rows' cells in order.
   */
  lemma CsvRoundTrip(header: seq<string>, rows: seq<seq<string>>)
    requires |header| >= 1
    requires forall i :: 0 <= i < |header| ==> CleanCell(header[i])
    requires forall i, j :: 0 <= i < j < |header| ==> header[i] != header[j]
    requires forall r :: 0 <= r < |rows| ==> |rows[r]| == |header|
    requires forall r, i :: 0 <= r < |rows| && 0 <= i < |header| ==> CleanCell(rows[r][i])
    ensures CsvTable(RenderCsv(header, rows)) == Ok(StringTable(header, rows))
  {
    var lines := CsvLines(header, rows);
    RenderedLines(header, rows, lines);
    CsvColumnsOfFields(lines, header, rows);
    var cols := StringTable(header, rows);
    assert UniqueNames(cols);
    assert SameHeight(cols);
  }
}
