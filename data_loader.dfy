/**
 * `load_dataframe`: the lower-cased file extension picks a loader; audio
 * returns its table as decoded, every other format then goes through the
 * numeric pass and, after it, the datetime pass.
 */
module DataLoader {
  import opened Wrappers
  import opened Text
  import opened Values
  import opened Foreign
  import opened Paths
  import opened AppErrors
  import opened Frame
  import opened CsvLoader
  import opened ExcelLoader
  import opened AudioLoader
  import opened NumericCoercion
  import opened DateTimeCoercion

  /**
   * The file system and the foreign readers, as parameters: the file's text
   * (an `Io` error when it cannot be opened or read), Polars' Parquet and
   * JSON-lines readers, calamine's workbook (its first sheet's rows, `None`
   * when it has no sheet) and symphonia's decoded default track.
   */
  datatype Sources = Sources(
    readText: Path -> Result<string, AppError>,
    readParquet: Path -> Result<seq<Column>, AppError>,
    readJsonLines: Path -> Result<seq<Column>, AppError>,
    openWorkbook: Path -> Result<Option<seq<seq<XlCell>>>, AppError>,
    decodeAudio: Path -> Result<AudioStream, AppError>)

  /** The Polars readers hand back proper data frames. */
  ghost predicate ReadersGiveFrames(src: Sources) {
    && (forall path :: src.readParquet(path).Ok? ==> IsFrame(src.readParquet(path).value))
    && (forall path :: src.readJsonLines(path).Ok? ==> IsFrame(src.readJsonLines(path).value))
  }

  datatype Format = Csv | Parquet | JsonLines | Excel | Audio | Unsupported

  /** The loader chosen for an already lower-cased extension. */
  function FormatOf(ext: string): (f: Format)
    ensures f == Audio <==> ext in ["wav", "mp3", "flac", "ogg", "m4a", "aac"]
    ensures f == Unsupported <==>
      ext !in ["csv", "parquet", "json", "jsonl", "ndjson", "xlsx", "xls", "wav", "mp3", "flac", "ogg", "m4a", "aac"]
  {
    match ext
    case "csv" => Csv
    case "parquet" => Parquet
    case "json" => JsonLines
    case "jsonl" => JsonLines
    case "ndjson" => JsonLines
    case "xlsx" => Excel
    case "xls" => Excel
    case "wav" => Audio
    case "mp3" => Audio
    case "flac" => Audio
    case "ogg" => Audio
    case "m4a" => Audio
    case "aac" => Audio
    case _ => Unsupported
  }

  /** The extension as the dispatch sees it: lower-cased, empty when there is none. */
  function DispatchExtension(path: Path): (ext: string)
    ensures Extension(path).None? ==> ext == ""
    ensures Extension(path).Some? ==>
      |ext| == |Extension(path).value| && forall i :: 0 <= i < |ext| ==> ext[i] == LowerChar(Extension(path).value[i])
    ensures forall i :: 0 <= i < |ext| ==> !('A' <= ext[i] <= 'Z')
  {
    Lower(Extension(path).GetOr(""))
  }

  /**
   * Dispatch ignores case: two names that differ only in the case of their
   * extension pick the same loader, the one of the lower-cased extension.
   */
  lemma DispatchIgnoresCase(dir: Path, stem: string, ext: string, other: string)
    requires stem != [] && (stem != "." || ext != "") && '.' !in ext
    requires |other| == |ext| && forall i :: 0 <= i < |ext| ==> LowerChar(other[i]) == LowerChar(ext[i])
    ensures DispatchExtension(dir + [stem + "." + ext]) == Lower(ext)
    ensures FormatOf(DispatchExtension(dir + [stem + "." + other])) == FormatOf(DispatchExtension(dir + [stem + "." + ext]))
  {
    StemAndExtensionOfName(dir, stem, ext);
    assert forall i :: 0 <= i < |other| ==> other[i] != '.' by {
      forall i | 0 <= i < |other| ensures other[i] != '.' {
        assert ext[i] in ext;
      }
    }
    StemAndExtensionOfName(dir, stem, other);
    assert Lower(other) == Lower(ext);
  }

  /** `data.CSV` is loaded as CSV. */
  lemma UpperCaseCsv(dir: Path)
    ensures FormatOf(DispatchExtension(dir + ["data.CSV"])) == Csv
  {
    assert "data.CSV" == "data" + "." + "CSV";
    StemAndExtensionOfName(dir, "data", "CSV");
    assert Lower("CSV") == "csv";
  }

  /** The table a tabular loader produces, before any coercion. */
  function RawTable(path: Path, f: Format, src: Sources): Result<seq<Column>, AppError>
    requires f != Audio && f != Unsupported
  {
    match f
    case Csv =>
      (match src.readText(path)
       case Err(e) => Err(e)
       case Ok(data) => CsvTable(data))
    case Parquet => src.readParquet(path)
    case JsonLines => src.readJsonLines(path)
    case Excel =>
      (match src.openWorkbook(path)
       case Err(e) => Err(e)
       case Ok(sheet) => ExcelTable(ToString(path), sheet))
  }

  /** One column after both passes: the numeric pass first, then the datetime pass. */
  function Coerced(col: Column, marker: string, p: Parsers): Column {
    DatetimeCoerced(NumericCoerced(col, marker, p.parseF64), p)
  }

  /** Both passes over a whole table, column by column. */
  function CoercedTable(cols: seq<Column>, marker: string, p: Parsers): (r: seq<Column>)
    ensures |r| == |cols|
    ensures forall i :: 0 <= i < |cols| ==> r[i] == Coerced(cols[i], marker, p)
  {
    seq(|cols|, i requires 0 <= i < |cols| => Coerced(cols[i], marker, p))
  }

  /** `load_dataframe` as a function of the path, the configured marker and the foreign pieces. */
  function LoadTable(path: Path, marker: string, src: Sources, p: Parsers): Result<seq<Column>, AppError> {
    var f := FormatOf(DispatchExtension(path));
    if f == Unsupported then Err(UnsupportedFormat(ToString(path)))
    else if f == Audio then AudioLoad(src.decodeAudio(path))
    else
      match RawTable(path, f, src)
      case Err(e) => Err(e)
      case Ok(cols) => Ok(CoercedTable(cols, marker, p))
  }

  /**
   * What the loader returns: an unknown extension is `UnsupportedFormat` with
   * the path; audio is the decoded table untouched by either pass; any other
   * format keeps its columns' names and order, each column numeric-coerced
   * and then datetime-coerced, and a column the numeric pass converts stays a
   * `Float64` column.
   */
  lemma LoadTableShape(path: Path, marker: string, src: Sources, p: Parsers)
    requires ReadersGiveFrames(src)
    ensures FormatOf(DispatchExtension(path)) == Unsupported ==>
      LoadTable(path, marker, src, p) == Err(UnsupportedFormat(ToString(path)))
    ensures FormatOf(DispatchExtension(path)) == Audio ==>
      LoadTable(path, marker, src, p) == AudioLoad(src.decodeAudio(path))
    ensures var f := FormatOf(DispatchExtension(path));
      f != Unsupported && f != Audio && RawTable(path, f, src).Ok? ==>
        var raw := RawTable(path, f, src).value;
        var r := LoadTable(path, marker, src, p);
        && IsFrame(raw) && r.Ok? && |r.value| == |raw|
        && forall i :: 0 <= i < |raw| ==>
             && r.value[i].name == raw[i].name && |r.value[i].cells| == |raw[i].cells|
             && (ShouldConvert(raw[i], marker, p.parseF64) ==> r.value[i] == NumericCoerced(raw[i], marker, p.parseF64))
  {
    var f := FormatOf(DispatchExtension(path));
    if f != Unsupported && f != Audio && RawTable(path, f, src).Ok? {
      var raw := RawTable(path, f, src).value;
      RawTableFrame(path, f, src);
      forall i | 0 <= i < |raw| && ShouldConvert(raw[i], marker, p.parseF64)
        ensures Coerced(raw[i], marker, p) == NumericCoerced(raw[i], marker, p.parseF64)
      {
        assert NumericCoerced(raw[i], marker, p.parseF64).dtype == Float64Type;
      }
    }
  }

  /** The tabular branch: read, build the frame, then run the two passes on it in place. */
  method LoadTabular(path: Path, f: Format, marker: string, src: Sources, p: Parsers)
    returns (r: Result<seq<Column>, AppError>)
    requires f == FormatOf(DispatchExtension(path)) && f != Audio && f != Unsupported && ReadersGiveFrames(src)
    ensures r == LoadTable(path, marker, src, p)
    ensures r.Ok? ==> IsFrame(r.value)
  {
    var raw := RawTable(path, f, src);
    if raw.Err? {
      return Err(raw.error);
    }
    RawTableFrame(path, f, src);
    var df := new DataFrame(raw.value);
    CastStringColumnsToNumeric(df, marker, p.parseF64);
    CastStringColumnsToDatetime(df, p);
    assert df.columns == CoercedTable(raw.value, marker, p);
    r := Ok(df.columns);
  }

  /** Every tabular loader yields a proper data frame: distinct names, one height. */
  lemma RawTableFrame(path: Path, f: Format, src: Sources)
    requires f != Audio && f != Unsupported && ReadersGiveFrames(src)
    ensures RawTable(path, f, src).Ok? ==> IsFrame(RawTable(path, f, src).value)
  {
    if f == Csv && src.readText(path).Ok? {
      CsvTableShape(src.readText(path).value);
    }
  }

  /** `load_dataframe`. */
  method LoadDataFrame(path: Path, marker: string, src: Sources, p: Parsers) returns (r: Result<seq<Column>, AppError>)
    requires ReadersGiveFrames(src)
    ensures r == LoadTable(path, marker, src, p)
  {
    var extension := Lower(Extension(path).GetOr(""));
    var f := FormatOf(extension);
    if f == Unsupported {
      return Err(UnsupportedFormat(ToString(path)));
    }
    if f == Audio {
      r := LoadAudio(src.decodeAudio(path));
      return;
    }
    r := LoadTabular(path, f, marker, src, p);
  }
}
