# Scatters, modelled in Dafny

Scatters turns tabular and audio files into interactive HTML scatter plots. It
takes a file or a folder and finds the supported files under it. Each file is
loaded into a Polars data frame. String columns that look numeric become
`Float64`, and those that look like dates become `Datetime(ms)`. An X column
and one or more Y columns are then chosen, long series are optionally reduced
with LTTB, and every series is serialised to ECharts JSON. Last, an HTML page
is written next to the input or into an output directory.

This project models the column-level decision and shaping rules of that
pipeline and proves what they guarantee. A table is a `seq<Column>`, where a
column has a name, a data type and a sequence of `AnyValue` cells. The Polars
`DataFrame` is the class `Frame.DataFrame`, and the two coercion passes update
its `columns` in place.

Everything outside the program's own logic is a parameter:
- the file system and the foreign readers (`DataLoader.Sources`);
- `str::parse::<f64>`, Polars' datetime cast and chrono's `parse_from_str` (`Foreign.Parsers`);
- `any_value_to_f64` and the `lttb` crate (`Processing.Numerics`);
- the writer that stores a rendered page (`Scatters.Environment`).

Floating-point numbers are carried as IEEE-754 bit patterns and are never
computed on.

Modules, one per concern:
- `Wrappers`, `Text`, `Values`, `Foreign`, `Paths`, `AppErrors`, `CommandLine` and `Frame` hold the data model, Rust's `str` and `Path` semantics, and the error and option types.
- `CsvLoader`, `ExcelLoader`, `AudioLoader`, `NumericCoercion`, `DateTimeFormats`, `DateTimeParsing`, `DateTimeCoercion` and `DataLoader` model `src/data_loader.rs`.
- `Processing` models `src/processing.rs`.
- `Plotter` models `src/plotter.rs`.
- `Scatters` models `src/lib.rs`.

Most loops of the source are a `method` proved against a function that
specifies it, and the properties are proved about those functions. Examples:
- `LoadCsv` against `CsvTable`;
- `CastStringColumnsToNumeric` against `NumericCoerced`;
- `BuildFormats` against `FormatList`;
- `BuildOneSeries` against `SeriesJsonOf`;
- `Run` against `RunOutcome`.

Four loops are written as functions instead, each a recursion or a sequence
comprehension over the same elements:
- the format loop of `try_parse_many` (`src/data_loader.rs:242-261`) is `DateTimeParsing.TryParseMany`;
- `check_string_series_for_marker` (`src/processing.rs:162-176`) is `Values.HasMarker`;
- the date-column scan of `select_x_series` (`src/processing.rs:226-234`) is `Processing.FirstTemporal`;
- the builder loop of `downsample_series` (`src/processing.rs:148-151`) is the comprehension in `Processing.DownsampleSeries`.

## Reading of the source

The source does not compile as given in four places. The model follows the
evident intent:
- `cli.downsample` (`src/processing.rs:73`) does not exist. The field is `downsample_threshold: usize`, with default 10000 (`src/cli.rs:50-51`). The model keeps the `Option` that processing reads, as `Cli.downsampleThreshold: Option<nat>`. `Some(10000)` is the command line's default, and `None` means no reduction. The field's own help text promises the `None` case, but the declared default never produces it.
- `cli.special_marker` (`src/processing.rs:103`, `:165`) is `vertical_marker` (`src/cli.rs:70`). The model calls it `Cli.verticalMarker`.
- `plot_data.x_series` and `plot_data.y_series_list` (`src/plotter.rs:48`, `:114`) do not exist. `PlotData` holds `series_list`, a list of (name, x, y) entries (`src/processing.rs:20`). The model zips each entry's own X and Y, and names the series object by the entry's name. That name is the Y series' name, saved before downsampling (`src/processing.rs:72`, `:83`), so a reduced series keeps its name rather than becoming `y_downsampled`. The X axis type comes from the first entry's X column, and is `value` when there is no entry. One consequence: when the first entry is downsampled its X is the `Float64` column `x_downsampled`, so a date X column then gives a `value` axis, not a `time` axis.
- `load_dataframe(file_path)` (`src/lib.rs:76`) lacks the `cli` argument. The model passes the command line's marker.

In two places the code and the prose description of the program disagree.
The model follows the code:
- The plotter draws a mark line only for a Y cell that is exactly the string `|` (`src/plotter.rs:128-129`). It does not use the configured marker, and it does not trim (`Plotter.MarkerIsLiteral`).
- Discovery's extension list (`src/lib.rs:119-121`) lacks `ogg`, `m4a` and `aac`. The loader accepts those three (`src/data_loader.rs:108`), but a run never hands such a file to it (`Scatters.ExtraAudioNotDiscovered`).

## Model

| member | source | states |
|---|---|---|
| Text.TrimSpec | src/data_loader.rs:60 | `trim` leaves no whitespace at either end. It empties exactly the strings made only of whitespace, and returns text without whitespace unchanged |
| Text.SplitJoin | src/data_loader.rs:59 | joining the pieces of `split(',')` with commas gives the line back |
| Text.JoinSplit | src/data_loader.rs:69 | splitting the comma-join of comma-free pieces gives those pieces back |
| Text.Lines | src/data_loader.rs:50 | `lines` yields no line exactly for empty text, and no line holds a line feed |
| Text.JoinLinesLines | src/data_loader.rs:50 | lines written one per line feed, without carriage returns, are read back unchanged by `lines` |
| Text.Words | src/data_loader.rs:199 | `split_whitespace` yields non-empty words without whitespace, and text without whitespace is one word |
| Text.Lower | src/data_loader.rs:41 | lower-casing keeps the length and maps each character to its ASCII lower case |
| Text.DecimalRoundTrip | src/data_loader.rs:409 | the decimal rendering of `n` reads back as `n` |
| Text.DecimalInjective | src/data_loader.rs:409 | distinct numbers render as distinct decimal strings |
| Values.NullCount | src/data_loader.rs:149 | `null_count` is at most the length, equals it exactly when every cell is null, and is 0 exactly when none is |
| Values.NullCountCovering | src/data_loader.rs:354-356 | a column null wherever another is has at least as many nulls, and exactly as many iff it is non-null wherever the other is |
| Values.HasMarker | src/processing.rs:161-178 | the marker scan is true iff some string cell's trimmed text equals the marker |
| Values.WrapI64 | src/data_loader.rs:252 | an `i64` product wraps into the `i64` range, is unchanged when it fits, and stays congruent modulo 2^64 |
| Values.AsU32 | src/data_loader.rs:533 | `as u32` gives a value below 2^32 that equals the input when the input fits |
| Values.IndexColumn | src/data_loader.rs:533-541 | a generated counter column (`sample_index`, and `row_index` at src/processing.rs:238-240) is a `u32` column holding 0, 1, ... up to its count taken modulo 2^32 |
| Values.TruncDiv | src/plotter.rs:235-236 | Rust's integer division: the remainder is smaller than the divisor and has the dividend's sign |
| Values.TruncDivOfNegative | src/plotter.rs:235 | on -1 500 000 ns Rust's division gives -1 ms where Euclidean division gives -2 |
| Paths.StemDotExtension | src/lib.rs:160 | a name with an extension is its stem, a dot and the extension, and the extension holds no dot |
| Paths.StemAndExtensionOfName | src/lib.rs:124 | naming a file `stem.ext` gives back that stem and extension whenever the name is not `..` (so `..ogg` has stem `.` and extension `ogg`) |
| Paths.WithFileName | src/lib.rs:167 | `with_file_name` ends the path with the new name |
| Paths.Join | src/lib.rs:164 | `join` appends one component to the directory |
| Frame.NewDataFrame | src/data_loader.rs:95 | `DataFrame::new` succeeds iff names are distinct and heights equal, returns the columns unchanged, and reports duplicates first |
| Frame.IndexOfName | src/processing.rs:196 | `column(name)` finds the first column with that name, and nothing exactly when no column has it |
| Frame.IndexOfUniqueName | src/data_loader.rs:144 | in a frame, looking up a column's own name finds that column |
| Frame.DataFrame.constructor | src/data_loader.rs:95 | a new frame holds the given columns and is valid |
| Frame.DataFrame.Replace | src/data_loader.rs:357 | `replace` swaps the named column for the new one of the same length and keeps the frame valid |
| CsvLoader.FieldCell | src/data_loader.rs:73-82 | column `i` gets the field when it exists and is non-empty, and null otherwise |
| CsvLoader.CsvColumn | src/data_loader.rs:58-92 | column `i` is named by trimmed header field `i`, is a string column, and has one cell per data line |
| CsvLoader.CsvColumns | src/data_loader.rs:88-92 | one column per header field, in header order |
| CsvLoader.CsvTableShape | src/data_loader.rs:50-85 | empty text is the "CSV file is empty" error, and a loaded table has one column per header field with (lines - 1) cells each |
| CsvLoader.PushRow | src/data_loader.rs:72-84 | one line appends exactly its cell to every column buffer |
| CsvLoader.LoadCsv | src/data_loader.rs:44-96 | the nested push loops build exactly `CsvTable` of the text |
| CsvLoader.FieldsOfJoin | src/data_loader.rs:69 | the trimmed fields of a comma-joined line of clean cells are those cells |
| CsvLoader.RenderedLines | src/data_loader.rs:50-69 | a rendered table reads back as the header line and one line per row, with the expected fields |
| CsvLoader.CsvRoundTrip | src/data_loader.rs:44-96 | writing a table of clean cells with distinct header names as CSV and loading it gives one string column per header holding the rows' cells |
| ExcelLoader.HeaderIndex | src/data_loader.rs:382-388 | the header is the first row that is not all empty or error cells, and there is none iff every row is blank |
| ExcelLoader.Width | src/data_loader.rs:393 | the width is the length of the widest row, 0 without rows |
| ExcelLoader.ColumnName | src/data_loader.rs:402-414 | every column gets a non-empty name: the trimmed header text, with a generated `col_{i+1}` standing in for an empty one |
| ExcelLoader.ExcelColumn | src/data_loader.rs:417-431 | column `i` is a string column under `ColumnName`, holding cell `i` of each row below the header, one per row |
| ExcelLoader.ExcelTable | src/data_loader.rs:369-440 | no sheet, or no header row, is `UnsupportedFormat`, and any other error comes from `DataFrame::new` |
| ExcelLoader.HeaderImpliesWidth | src/data_loader.rs:393-398 | once a header row exists the width is positive, so the zero-width error cannot occur |
| ExcelLoader.GeneratedNamesDistinct | src/data_loader.rs:408-409 | generated names `col_{i+1}` differ for different columns |
| ExcelLoader.ExcelTableShape | src/data_loader.rs:382-440 | a loaded sheet has a header, as many columns as its widest row, and each column as `ExcelColumn` states |
| ExcelLoader.FindHeader | src/data_loader.rs:382-388 | the header search loop finds `HeaderIndex` |
| ExcelLoader.HeaderIndexFirst | src/data_loader.rs:384-386 | the first non-blank row is the header |
| ExcelLoader.BuildHeaders | src/data_loader.rs:401-414 | the header loop pushes `ColumnName` for every column |
| ExcelLoader.PushExcelRow | src/data_loader.rs:424-430 | one data row appends exactly its cell to every column buffer |
| ExcelLoader.FillColumns | src/data_loader.rs:417-431 | the row loop skips the rows up to the header and fills every column as `ExcelColumn` |
| ExcelLoader.LoadExcel | src/data_loader.rs:369-440 | the Excel branch returns exactly `ExcelTable` |
| AudioLoader.StridedSpec | src/data_loader.rs:514-519 | channel `c` of `n` takes every sample at `c + k*n` and misses none |
| AudioLoader.StridedInterleave | src/data_loader.rs:513-519 | de-interleaving frames of `n` samples gives channel `c` as sample `c` of every frame |
| AudioLoader.ExtendChannels | src/data_loader.rs:513-521 | one packet extends every channel buffer by its strided share |
| AudioLoader.Deinterleave | src/data_loader.rs:489-522 | the decoding loop's buffers are exactly `ChannelData`, one per channel |
| AudioLoader.Resize | src/data_loader.rs:548 | `resize` cuts to the length or pads with the fill value |
| AudioLoader.ChannelColumn | src/data_loader.rs:545-556 | channel `i` is a `Float32` column `channel_{i}` with one cell per sample, its own samples first, then zero padding |
| AudioLoader.AudioColumns | src/data_loader.rs:532-557 | `sample_index` comes first, then one column per channel in order |
| AudioLoader.ChannelNamesDistinct | src/data_loader.rs:550 | channel names differ from each other and from `sample_index` |
| AudioLoader.AudioNamesUnique | src/data_loader.rs:560 | an audio table's column names are distinct |
| AudioLoader.AudioTableShape | src/data_loader.rs:526-561 | no samples gives an empty table; otherwise there is a row per sample, `sample_index` holds 0..len-1, and each channel is zero-padded; 2^32 samples or more is a shape error |
| AudioLoader.BuildAudioColumns | src/data_loader.rs:532-557 | the assembly loop builds exactly `AudioColumns` |
| AudioLoader.LoadAudio | src/data_loader.rs:457-561 | the audio branch returns exactly `AudioLoad` of the decoded track |
| NumericCoercion.ParsedCells | src/data_loader.rs:343-350 | each cell becomes its trimmed text parsed as `f64`, or null |
| NumericCoercion.NumericCoerced | src/data_loader.rs:279-359 | a column becomes `Float64` iff it is a string column without the marker, with at least one non-null value, and every non-null value parses; it then holds `ParsedCells`, with its name, length and null positions kept. Any other column is kept as it is |
| NumericCoercion.ScanCells | src/data_loader.rs:287-308 | the scan reports a marker iff some cell trims to it, and a number iff some non-marker cell parses |
| NumericCoercion.ParsedCountMatches | src/data_loader.rs:354-356 | the parsed non-null count equals the original iff every non-null value parses |
| NumericCoercion.NumericReplacement | src/data_loader.rs:281-358 | a column is replaced iff the three conditions hold, and then by `NumericCoerced` |
| NumericCoercion.CastStringColumnsToNumeric | src/data_loader.rs:272-362 | the pass leaves every column as `NumericCoerced` of the old one, in place, and keeps a valid frame |
| DateTimeCoercion.AcceptsRatio | src/data_loader.rs:153 | the rule `parsed*10 >= nonNulls*9` with some non-nulls means at least nine tenths were read |
| DateTimeCoercion.AcceptsMonotone | src/data_loader.rs:227 | reading more values keeps a column accepted, reading all is enough, and below nine tenths is rejected |
| DateTimeCoercion.MsCell | src/data_loader.rs:229-232 | a parsed value becomes a `Datetime(ms)` cell, and a failure becomes null |
| DateTimeCoercion.NativeCells | src/data_loader.rs:148 | the native cast keeps the length and maps null to null |
| DateTimeCoercion.HeuristicCells | src/data_loader.rs:207-221 | each cell is the first-match parse of its normalised text |
| DateTimeCoercion.HeuristicParse | src/data_loader.rs:223-236 | the heuristic column is returned iff the acceptance rule holds, as a `Datetime(ms)` column under the same name |
| DateTimeCoercion.DatetimeCoerced | src/data_loader.rs:143-165 | a column is converted iff it is a string column and the native cast or the 56-format search is accepted by the 90% rule. An accepted native cast gives the native cells; otherwise an accepted search gives `HeuristicParse`'s column. A converted column keeps its name and nulls |
| DateTimeCoercion.DatetimeStrategyOrder | src/data_loader.rs:158-163 | the native cast wins when accepted, and the 56-format search is used only otherwise |
| DateTimeCoercion.ParseStringSeriesToDatetime | src/data_loader.rs:174-237 | the parse loop and the threshold give exactly `HeuristicParse` with the generated formats |
| DateTimeCoercion.DatetimeReplacement | src/data_loader.rs:145-163 | a column is replaced by `DatetimeCoerced`, or left as that function leaves it |
| DateTimeCoercion.CastStringColumnsToDatetime | src/data_loader.rs:136-167 | the pass leaves every column as `DatetimeCoerced` of the old one, in place, and keeps a valid frame |
| DateTimeFormats.DatePattern | src/data_loader.rs:181-182 | a date pattern is 8 characters long and uses one separator for both gaps |
| DateTimeFormats.Render | src/data_loader.rs:184-190 | a format is its date pattern followed by its time suffix |
| DateTimeFormats.FormatList | src/data_loader.rs:176-193 | the list holds 4 x 14 = 56 formats |
| DateTimeFormats.SpecAtPositionOf | src/data_loader.rs:179-193 | every combination of separator, order and time part is in the list |
| DateTimeFormats.PositionOfSpecAt | src/data_loader.rs:179-193 | each position holds exactly one combination |
| DateTimeFormats.YearFirstBeforeDayFirst | src/data_loader.rs:184-190 | even positions are year-first, each followed by the same format day-first |
| DateTimeFormats.DateOnlyFirst | src/data_loader.rs:184-185 | the two date-only formats open each separator's block of 14 |
| DateTimeFormats.RenderInjective | src/data_loader.rs:181-189 | different combinations give different format strings |
| DateTimeFormats.FormatListDistinct | src/data_loader.rs:176-193 | the 56 formats are pairwise distinct |
| DateTimeFormats.HasHourIffTimed | src/data_loader.rs:245 | `contains("%H")` holds exactly for the formats with a time part |
| DateTimeFormats.DateOnlyEntries | src/data_loader.rs:184-185 | the two date-only pushes add the block's first two formats |
| DateTimeFormats.TimedEntries | src/data_loader.rs:189-190 | each pair of timed pushes adds the next two formats of the block |
| DateTimeFormats.PushTimedFormats | src/data_loader.rs:186-191 | the time loop extends the list by six formats, still a prefix of `FormatList` |
| DateTimeFormats.PushSeparatorFormats | src/data_loader.rs:179-192 | one separator pass adds its block of 14, still a prefix of `FormatList` |
| DateTimeFormats.BuildFormats | src/data_loader.rs:176-193 | the push loops build exactly `FormatList` |
| DateTimeParsing.NormalizeSpacesIsNormal | src/data_loader.rs:196-204 | the output has no whitespace at either end, only single spaces inside, and no run of two |
| DateTimeParsing.NormalizeSpacesIdempotent | src/data_loader.rs:196-204 | normalising twice is the same as normalising once |
| DateTimeParsing.NormalizeSpacesKeepsWords | src/data_loader.rs:197-202 | text without whitespace is returned unchanged |
| DateTimeParsing.NormalTrim | src/data_loader.rs:197 | normal text is its own trim |
| DateTimeParsing.JoinSpacesNormal | src/data_loader.rs:199 | joining whitespace-free words with single spaces gives normal text |
| DateTimeParsing.NormalWordsJoin | src/data_loader.rs:199 | splitting normal text into words and re-joining it gives it back |
| DateTimeParsing.TimedMs | src/data_loader.rs:247-253 | a whole-second date-time is `secs * 1000` ms, and sub-second parts stay within that second |
| DateTimeParsing.TimedMsAsWritten | src/data_loader.rs:248-253 | the code as written agrees with `TimedMs` whenever chrono's nanosecond timestamp fits in `i64` |
| DateTimeParsing.FarFutureOverflow | src/data_loader.rs:249-252 | 1 January 3000 comes out as -4 389 808 147 419 ms as written, instead of 32 503 680 000 000 |
| DateTimeParsing.TimedMsWholeSeconds | src/data_loader.rs:256-259 | midnight through the date-time branch equals the date-only branch's `secs * 1000` |
| DateTimeParsing.TryParseManyFirstMatch | src/data_loader.rs:240-264 | the search fails iff no format parses, and otherwise returns the result of the first format that does |
| DataLoader.FormatOf | src/data_loader.rs:43-113 | the six audio extensions pick the audio loader, and every extension outside the 13 listed is unsupported |
| DataLoader.DispatchExtension | src/data_loader.rs:37-41 | the dispatch key is the path's extension lower-cased character by character, and empty when the path has none |
| DataLoader.DispatchIgnoresCase | src/data_loader.rs:37-41 | `stem.ext` dispatches on the lower-cased `ext`, and two names differing only in the case of the extension pick the same loader |
| DataLoader.UpperCaseCsv | src/data_loader.rs:37-44 | `data.CSV` is loaded as CSV |
| DataLoader.CoercedTable | src/data_loader.rs:116-120 | every column goes through the numeric pass first and then the datetime pass |
| DataLoader.LoadTableShape | src/data_loader.rs:36-125 | an unknown extension is `UnsupportedFormat` with the path, audio is returned without either pass, and a tabular load keeps names, order and heights, with numeric conversions surviving the datetime pass |
| DataLoader.RawTableFrame | src/data_loader.rs:43-107 | every tabular loader yields distinct names and one height |
| DataLoader.LoadTabular | src/data_loader.rs:97-125 | reading and then both in-place passes give `LoadTable`, and a valid frame |
| DataLoader.LoadDataFrame | src/data_loader.rs:36-126 | `load_dataframe` returns exactly `LoadTable` |
| Processing.FirstTemporal | src/processing.rs:226-234 | the first date or date-time column with a non-null value, and none iff no such column |
| Processing.SelectX | src/processing.rs:192-241 | selection fails iff `--index` names no column, or `--use-first-column` meets a table without columns; the series' name is the returned name |
| Processing.SelectXIndexWins | src/processing.rs:194-202 | `--index` wins over every other rule, and a missing name is `ColumnNotFound(name)` |
| Processing.SelectXFirstColumnThenSampleIndex | src/processing.rs:205-223 | `--use-first-column` takes column 0, and otherwise `sample_index` beats any date column |
| Processing.SelectXFallbacks | src/processing.rs:225-240 | the first usable date column is chosen next, and otherwise `row_index` holds 0..height-1 |
| Processing.DefaultY | src/processing.rs:278-303 | the default Y columns are exactly the qualifying columns of the table, and there are none iff nothing qualifies. The X column never qualifies. A string column qualifies iff it holds the marker, and any other iff its type is numeric |
| Processing.DefaultRows | src/processing.rs:278-303 | the positions of the qualifying columns, each one a valid position of a qualifying column |
| Processing.DefaultYInTableOrder | src/processing.rs:278-303 | the default selection keeps table order: entry `k` is the table's column at the `k`-th position, the positions strictly increase, and every qualifying column's position is listed |
| Processing.DefaultYAtRows | src/processing.rs:278-303 | entry `k` of the default selection is the table's column at the `k`-th listed position |
| Processing.DefaultRowsIncreasing | src/processing.rs:278-303 | the listed positions strictly increase, so no column is taken twice or out of order |
| Processing.DefaultRowsComplete | src/processing.rs:278-303 | every qualifying column's position is listed |
| Processing.FirstMissing | src/processing.rs:262-270 | the position of the first listed name no column has |
| Processing.ListedY | src/processing.rs:261-275 | the selection fails iff some listed name is missing, with `ColumnNotFound` of the first missing name; otherwise entry `k` is the table's column named `names[k]`, in the listed order |
| Processing.SelectY | src/processing.rs:253-310 | with `--columns`: the listed selection, `ListedY`'s `ColumnNotFound` returned unchanged, and `NoNumericColumns` for an empty list. Without it: exactly `DefaultY`, failing with `NoNumericColumns` iff nothing qualifies and never including the X column. A selection is never empty |
| Processing.CollectListed | src/processing.rs:262-274 | the listed-columns loop returns `ListedY`, stopping at the first missing name |
| Processing.FirstMissingAt | src/processing.rs:267-269 | a missing name after present ones is the first missing one |
| Processing.CollectDefault | src/processing.rs:278-302 | the default loop returns `DefaultY` |
| Processing.SelectYSeries | src/processing.rs:253-310 | `select_y_series` returns exactly `SelectY` |
| Processing.Pairs | src/processing.rs:118-128 | the LTTB input keeps only the rows where both values convert to `f64`, and is empty iff no row does |
| Processing.DownsampleSeries | src/processing.rs:117-157 | no convertible pair gives two empty `Float64` series under the inputs' names, and otherwise the LTTB points split into `x_downsampled` and `y_downsampled` |
| Processing.Entry | src/processing.rs:71-89 | an entry is named after its Y series |
| Processing.PlotDataOf | src/processing.rs:52-111 | an X or Y selection error is returned unchanged |
| Processing.PlotDataShape | src/processing.rs:67-98 | one entry per Y series in order, reduced iff a threshold is set and the series is longer; `downsampled` iff some entry was; the title defaults to the file name |
| Processing.AssembleSeries | src/processing.rs:67-89 | the assembly loop builds one `Entry` per Y series and sets `downsampled` iff one was reduced |
| Processing.PreparePlotData | src/processing.rs:52-111 | `prepare_plot_data` returns exactly `PlotDataOf` |
| Plotter.DatetimeMs | src/plotter.rs:233-239 | a datetime becomes milliseconds, dividing toward zero, with the value's sign |
| Plotter.ToJson | src/plotter.rs:212-243 | the JSON is null iff the cell is null or a non-finite float |
| Plotter.TimeJsonAgrees | src/plotter.rs:228-240 | a date is its midnight in ms, and whole milliseconds in ns or µs give the same JSON as in ms |
| Plotter.TruncDivExact | src/plotter.rs:235-236 | dividing an exact multiple toward zero gives the factor back |
| Plotter.RowsOf | src/plotter.rs:125-160 | the rows that yield a point (or a mark line) among the first `n` rows |
| Plotter.RowsOfComplete | src/plotter.rs:125-160 | every such row is listed |
| Plotter.RowsOfIncreasing | src/plotter.rs:125-160 | the listed rows are strictly increasing |
| Plotter.PointsAreRows | src/plotter.rs:139-143 | the points are exactly the rows with non-null X and Y and Y not `\|`, in row order |
| Plotter.MarksAreRows | src/plotter.rs:128-136 | the mark lines are exactly the rows with non-null X and Y equal to `\|`, at that row's X, in row order |
| Plotter.NullXContributesNothing | src/plotter.rs:126 | rows with null X give neither points nor mark lines |
| Plotter.MarkerIsLiteral | src/plotter.rs:128-129 | only the exact string `\|` is a mark line, so a trimmed-marker cell `" \| "` is plotted as a point |
| Plotter.SeriesJsonOf | src/plotter.rs:162-199 | a series object carries its entry's name, and `metaN` is its number of points, at most the length of either column |
| Plotter.SeriesNamedAfterY | src/plotter.rs:187 | every series on the page carries the name of the Y series it plots, in selection order, downsampled or not |
| Plotter.BuildOneSeries | src/plotter.rs:118-202 | the row loop builds exactly `SeriesJsonOf` |
| Plotter.BuildSeriesJson | src/plotter.rs:112-205 | one series object per entry, in order |
| Plotter.XAxisType | src/plotter.rs:48-52 | `time` iff date or datetime, `category` iff string, and `value` otherwise |
| Plotter.PageOf | src/plotter.rs:42-103 | one series per entry, and the number formatter exactly on a `value` axis |
| Plotter.GenerateHtmlPlot | src/plotter.rs:42-103 | `generate_html_plot` builds exactly `PageOf` |
| Scatters.WalkFiles | src/lib.rs:130-138 | the walk collects at most one path per entry, every one supported |
| Scatters.WalkFilesComplete | src/lib.rs:130-137 | every readable regular file with a supported extension is collected |
| Scatters.WalkFilesSound | src/lib.rs:130-137 | everything collected is such a file of the walk |
| Scatters.WalkFilesAppend | src/lib.rs:130-137 | collection follows walk order: two stretches of walk give their results concatenated |
| Scatters.DiscoveredShape | src/lib.rs:117-143 | neither file nor directory is `InvalidInputPath`, a single file is kept iff supported, and an unsupported one gives an empty list |
| Scatters.SupportedIsLoadable | src/lib.rs:119-125 | every discovered file has a loader |
| Scatters.ExtraAudioNotDiscovered | src/lib.rs:119-121 | `.ogg`, `.m4a` and `.aac` files are loadable as audio but never discovered |
| Scatters.ExtraAudioExtensions | src/lib.rs:119-121 | those three extensions are lower case, audio to the loader, and missing from discovery's list |
| Scatters.FindSupportedFiles | src/lib.rs:117-143 | `find_supported_files` returns exactly `Discovered` |
| Scatters.OutputPath | src/lib.rs:159-169 | the page is named stem + `.html`, and goes in the output directory when given, next to the input otherwise |
| Scatters.OutputNeverOverwritesInput | src/lib.rs:159-169 | a supported input is never the path its own page is written to |
| Scatters.ProcessOutcomeSteps | src/lib.rs:74-101 | a load or X-selection error is the file's error, and a loaded, prepared file's outcome is the writer's result for its page at its output path |
| Scatters.FirstFailure | src/lib.rs:54-58 | the first file whose processing fails, and none iff all succeed |
| Scatters.BatchStopsAtFirstFailure | src/lib.rs:54-58 | files are attempted in order up to the first failure. The batch fails iff some file fails, naming the last attempted one, and an empty batch attempts nothing |
| Scatters.ProcessSingleFile | src/lib.rs:74-101 | `process_single_file` gives the load, prepare, render and write outcome |
| Scatters.ProcessFiles | src/lib.rs:54-58 | the loop returns the batch's verdict and attempts `BatchAttempted` files |
| Scatters.Run | src/lib.rs:43-62 | `run` returns exactly `RunOutcome` (discovery, then the batch) and attempts `Attempted` files |
| Scatters.FirstFailureAt | src/lib.rs:56-57 | a failing file after successful ones is the first failure |

## Left out

- File reads and writes, `WalkDir`, `create_dir_all` and `fs::write` are parameters of the model. So are the Parquet, JSON-lines, calamine and symphonia readers. Their errors enter as the `Err` those parameters return.
- The audio decode loop's packet reading and end-of-file handling are outside the model. The decoded track enters as a `Result<AudioStream, AppError>`.
- Floating-point work is left out: `str::parse::<f64>`, `any_value_to_f64`, the LTTB reduction, the initial Y range with its padding, and the per-series `metaXMin`/`metaXMax`/`metaYMin`/`metaYMax`. The first three are parameters, and the ranges are not modelled.
- DateTimeParsing.ParseWith: uses the corrected `TimedMs`, so the loader's results (`TryParseMany`, `HeuristicCells`, `LoadTable`) are those of the intended program. As written, a date-time whose nanosecond timestamp does not fit in `i64` (after 2262 or before 1677) gets the wrapped fallback of `TimedMsAsWritten` (see "## Findings").
- Processing.DownsampleSeries: states only the pair filter and how LTTB's output is split. Which points LTTB keeps belongs to the foreign crate.
- Plotter.PageOf: the Y range and the rendered HTML string are not modelled. The page is the template's inputs.
- Plotter.SeriesJsonOf: the series object holds no fixed styling keys and no float ranges, and `serde_json::to_string` is not modelled. Its error path cannot be reached with these values, so the `unwrap_or_default` fallback is not modelled either.
- Text.Lower: lower-cases ASCII letters only, while `to_lowercase` also folds non-ASCII letters. Every extension the program compares against is ASCII.
- Paths.Extension: an extension that is not valid UTF-8 counts as `None` in Rust. In the model every path is text.
- The `count != s.len()` guard (`src/data_loader.rs:311`) cannot fire in the model, because the scan visits every cell.
- `AnyValue::StringOwned` behaves as `AnyValue::String` everywhere, so the model has one string cell, `Str`.
- `DataFrame::replace` failures are excluded by `Replace`'s requires. Both passes replace a column of the frame's own name with one of the same length.
- `rechunk_mut` only changes memory layout.
- The `worksheet_range(...).unwrap()` panic on an unreadable sheet is not modelled. `openWorkbook` yields the first sheet's rows or `None`.
- `println!` and `--debug` output are not modelled. Run's `attempted` count stands for the "Processing" lines.
- The `anyhow` context strings are not modelled. A failed file becomes `RunError.Failed(file, cause)`.
- `src/main.rs`, the `clap` parsing in `src/cli.rs` and the HTML template with its script are not part of this model.

## Findings

| source | as written | input that shows it | evidently intended | confidence | as-written member | corrected member |
|---|---|---|---|---|---|---|
| src/data_loader.rs:248-253 | when chrono has no `i64` nanosecond timestamp, the fallback `secs * 1_000_000_000` overflows `i64` too. It wraps in a release build and panics in a debug build | the cell `3000-01-01 00:00` (1 January 3000, seconds 32 503 680 000) gives -4 389 808 147 419 ms, a date in 1830 | the date-time's milliseconds since the epoch, 32 503 680 000 000 | high; not executed | DateTimeParsing.FarFutureOverflow | DateTimeParsing.TimedMs |
