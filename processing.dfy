/**
 * `prepare_plot_data`: picks the X column by a fixed order of rules, the Y
 * columns from the command line or by type, downsamples long series, and
 * packages the result with the plot options.
 */
module Processing {
  import opened Wrappers
  import opened Values
  import opened Paths
  import opened AppErrors
  import opened Frame
  import opened CommandLine

  /** One point handed to the LTTB reduction. */
  datatype Point = Point(x: F64, y: F64)

  /**
   * The floating-point pieces, as parameters: `any_value_to_f64` (string
   * parsing, integer and time conversions) and the `lttb` crate's reduction
   * of a point list to a threshold.
   */
  datatype Numerics = Numerics(
    toF64: AnyValue -> Option<F64>,
    lttb: (seq<Point>, nat) -> seq<Point>)

  /** One plotted series: its name, its X values and its Y values. */
  datatype PlotEntry = PlotEntry(name: string, x: Column, y: Column)

  /** `PlotData`: everything the plotter needs. */
  datatype PlotData = PlotData(
    title: string,
    seriesList: seq<PlotEntry>,
    specialMarker: string,
    autoscaleY: bool,
    animations: bool,
    maxDecimals: int,
    useWhiteTheme: bool,
    largeModeThreshold: nat,
    downsampled: bool)

  // ---------------------------------------------------------------------------
  // X axis

  /** A date or date-time column with at least one non-null value. */
  predicate UsableTime(c: Column) {
    IsTemporalType(c.dtype) && NullCount(c.cells) < |c.cells|
  }

  /** The first usable date or date-time column. */
  function FirstTemporal(cols: seq<Column>): (k: Option<nat>)
    ensures k.Some? ==> k.value < |cols| && UsableTime(cols[k.value])
    ensures k.Some? ==> forall j :: 0 <= j < k.value ==> !UsableTime(cols[j])
    ensures k.None? <==> forall j :: 0 <= j < |cols| ==> !UsableTime(cols[j])
  {
    if cols == [] then None
    else if UsableTime(cols[0]) then Some(0)
    else
      match FirstTemporal(cols[1..])
      case None => None
      case Some(k) => Some(k + 1)
  }

  /**
   * `select_x_series`: `--index`, else the first column under
   * `--use-first-column`, else `sample_index`, else the first usable
   * date or date-time column, else `row_index`.
   */
  function SelectX(cols: seq<Column>, cli: Cli): (r: Result<(Column, string), AppError>)
    ensures r.Err? <==>
      || (cli.index.Some? && IndexOfName(cols, cli.index.value).None?)
      || (cli.index.None? && cli.useFirstColumn && cols == [])
    ensures r.Ok? ==> r.value.0.name == r.value.1
  {
    if cli.index.Some? then
      match IndexOfName(cols, cli.index.value)
      case None => Err(ColumnNotFound(cli.index.value))
      case Some(k) => Ok((cols[k], cli.index.value))
    else if cli.useFirstColumn then
      if cols == [] then Err(Polars(NoData("DataFrame is empty")))
      else Ok((cols[0], cols[0].name))
    else if IndexOfName(cols, "sample_index").Some? then
      Ok((cols[IndexOfName(cols, "sample_index").value], "sample_index"))
    else
      match FirstTemporal(cols)
      case Some(k) => Ok((cols[k], cols[k].name))
      case None => Ok((IndexColumn("row_index", Height(cols)), "row_index"))
  }

  /** `--index` wins whatever else holds, and a name no column has is `ColumnNotFound`. */
  lemma SelectXIndexWins(cols: seq<Column>, cli: Cli)
    requires cli.index.Some?
    ensures var name := cli.index.value;
      SelectX(cols, cli) == (if exists j :: 0 <= j < |cols| && cols[j].name == name
        then Ok((cols[IndexOfName(cols, name).value], name)) else Err(ColumnNotFound(name)))
  {
  }

  /** Without `--index`: `--use-first-column` takes column 0, and otherwise a `sample_index` column beats every date column. */
  lemma SelectXFirstColumnThenSampleIndex(cols: seq<Column>, cli: Cli)
    requires cli.index.None?
    ensures cli.useFirstColumn && cols != [] ==> SelectX(cols, cli) == Ok((cols[0], cols[0].name))
    ensures !cli.useFirstColumn && (exists j :: 0 <= j < |cols| && cols[j].name == "sample_index") ==>
      SelectX(cols, cli).Ok? && SelectX(cols, cli).value.1 == "sample_index"
  {
  }

  /**
   * With no rule above firing, the first usable date column wins, and
   * without one the rows are numbered `0 .. height - 1` in `row_index`.
   */
  lemma SelectXFallbacks(cols: seq<Column>, cli: Cli)
    requires cli.index.None? && !cli.useFirstColumn
    requires forall j :: 0 <= j < |cols| ==> cols[j].name != "sample_index"
    ensures SelectX(cols, cli).Ok?
    ensures (exists j :: 0 <= j < |cols| && UsableTime(cols[j])) ==>
      var x := SelectX(cols, cli).value.0;
      UsableTime(x) && x == cols[FirstTemporal(cols).value]
    ensures (forall j :: 0 <= j < |cols| ==> !UsableTime(cols[j])) && Height(cols) < U32_MODULUS ==>
      var (x, name) := SelectX(cols, cli).value;
      name == "row_index" && |x.cells| == Height(cols)
      && forall i :: 0 <= i < Height(cols) ==> x.cells[i] == Int(UInt32, i)
  {
  }

  // ---------------------------------------------------------------------------
  // Y axis

  /** The default rule for one column: not the X column, and a string column holding the marker or a numeric column. */
  predicate IncludeByDefault(c: Column, xName: string, marker: string) {
    c.name != xName && (if c.dtype == StringType then HasMarker(c.cells, marker) else IsNumericType(c.dtype))
  }

  /** The columns the default rule keeps, in table order. */
  function DefaultY(cols: seq<Column>, xName: string, marker: string): (ys: seq<Column>)
    ensures |ys| <= |cols|
    ensures ys == [] <==> forall j :: 0 <= j < |cols| ==> !IncludeByDefault(cols[j], xName, marker)
    ensures forall k :: 0 <= k < |ys| ==> ys[k] in cols && IncludeByDefault(ys[k], xName, marker)
    ensures forall j :: 0 <= j < |cols| && IncludeByDefault(cols[j], xName, marker) ==> cols[j] in ys
  {
    if cols == [] then []
    else
      var last := cols[|cols| - 1];
      var init := DefaultY(cols[..|cols| - 1], xName, marker);
      assert forall j :: 0 <= j < |cols| - 1 ==> cols[j] == cols[..|cols| - 1][j];
      if IncludeByDefault(last, xName, marker) then init + [last] else init
  }

  /** The positions of the columns the default rule keeps, in table order. */
  function DefaultRows(cols: seq<Column>, xName: string, marker: string): (idx: seq<nat>)
    ensures forall k :: 0 <= k < |idx| ==> idx[k] < |cols| && IncludeByDefault(cols[idx[k]], xName, marker)
  {
    if cols == [] then []
    else
      var init := DefaultRows(cols[..|cols| - 1], xName, marker);
      assert forall j :: 0 <= j < |cols| - 1 ==> cols[j] == cols[..|cols| - 1][j];
      if IncludeByDefault(cols[|cols| - 1], xName, marker) then init + [|cols| - 1] else init
  }

  /**
   * The default selection keeps table order: its k-th column is the table's
   * column at the k-th qualifying position, the positions strictly increase,
   * and every qualifying position is among them.
   */
  lemma DefaultYInTableOrder(cols: seq<Column>, xName: string, marker: string)
    ensures var idx := DefaultRows(cols, xName, marker); var ys := DefaultY(cols, xName, marker);
      && |ys| == |idx| && StrictlyIncreasing(idx)
      && (forall k :: 0 <= k < |idx| ==> ys[k] == cols[idx[k]])
      && (forall j :: 0 <= j < |cols| && IncludeByDefault(cols[j], xName, marker) ==> j in idx)
  {
    DefaultYAtRows(cols, xName, marker);
    DefaultRowsIncreasing(cols, xName, marker);
    DefaultRowsComplete(cols, xName, marker);
  }

  /** `ys` lists the table's columns at the positions `idx`, one for one. */
  predicate AtRows(ys: seq<Column>, cols: seq<Column>, idx: seq<nat>) {
    |ys| == |idx| && forall k :: 0 <= k < |idx| ==> idx[k] < |cols| && ys[k] == cols[idx[k]]
  }

  /** Positions into a prefix stay valid in the whole table, and the last column can be appended. */
  lemma AtRowsExtend(ys: seq<Column>, cols: seq<Column>, idx: seq<nat>)
    requires cols != [] && AtRows(ys, cols[..|cols| - 1], idx)
    ensures AtRows(ys, cols, idx)
    ensures AtRows(ys + [cols[|cols| - 1]], cols, idx + [|cols| - 1])
  {
    var init := cols[..|cols| - 1];
    assert forall k :: 0 <= k < |idx| ==> init[idx[k]] == cols[idx[k]];
  }

  /** The k-th default column is the table's column at the k-th listed position. */
  lemma {:induction false} DefaultYAtRows(cols: seq<Column>, xName: string, marker: string)
    ensures AtRows(DefaultY(cols, xName, marker), cols, DefaultRows(cols, xName, marker))
  {
    if cols != [] {
      var init := cols[..|cols| - 1];
      var last := cols[|cols| - 1];
      DefaultYAtRows(init, xName, marker);
      var idx0, ys0 := DefaultRows(init, xName, marker), DefaultY(init, xName, marker);
      AtRowsExtend(ys0, cols, idx0);
      if IncludeByDefault(last, xName, marker) {
        assert DefaultRows(cols, xName, marker) == idx0 + [|cols| - 1];
        assert DefaultY(cols, xName, marker) == ys0 + [last];
      } else {
        assert DefaultRows(cols, xName, marker) == idx0;
        assert DefaultY(cols, xName, marker) == ys0;
      }
    }
  }

  /** The listed positions strictly increase. */
  lemma {:induction false} DefaultRowsIncreasing(cols: seq<Column>, xName: string, marker: string)
    ensures StrictlyIncreasing(DefaultRows(cols, xName, marker))
  {
    if cols != [] {
      var init := cols[..|cols| - 1];
      DefaultRowsIncreasing(init, xName, marker);
      var idx0 := DefaultRows(init, xName, marker);
      if IncludeByDefault(cols[|cols| - 1], xName, marker) {
        var idx := idx0 + [|cols| - 1];
        forall k, l | 0 <= k < l < |idx|
          ensures idx[k] < idx[l]
        {
          if l < |idx0| { assert idx[k] == idx0[k] && idx[l] == idx0[l]; }
        }
      }
    }
  }

  /** Every qualifying position is listed. */
  lemma {:induction false} DefaultRowsComplete(cols: seq<Column>, xName: string, marker: string)
    ensures forall j :: 0 <= j < |cols| && IncludeByDefault(cols[j], xName, marker) ==> j in DefaultRows(cols, xName, marker)
  {
    if cols != [] {
      var init := cols[..|cols| - 1];
      DefaultRowsComplete(init, xName, marker);
      assert forall j :: 0 <= j < |init| ==> cols[j] == init[j];
    }
  }

  /** The position of the first listed name that no column has. */
  function FirstMissing(cols: seq<Column>, names: seq<string>): (k: Option<nat>)
    ensures k.Some? ==> k.value < |names| && IndexOfName(cols, names[k.value]).None?
    ensures k.Some? ==> forall j :: 0 <= j < k.value ==> IndexOfName(cols, names[j]).Some?
    ensures k.None? <==> forall j :: 0 <= j < |names| ==> IndexOfName(cols, names[j]).Some?
  {
    if names == [] then None
    else if IndexOfName(cols, names[0]).None? then Some(0)
    else
      match FirstMissing(cols, names[1..])
      case None => None
      case Some(k) => Some(k + 1)
  }

  /** The columns listed by name, in the listed order; the first missing name is the error. */
  function ListedY(cols: seq<Column>, names: seq<string>): (r: Result<seq<Column>, AppError>)
    ensures r.Err? <==> FirstMissing(cols, names).Some?
    ensures r.Err? ==> r.error == ColumnNotFound(names[FirstMissing(cols, names).value])
    ensures r.Ok? ==> |r.value| == |names|
    ensures r.Ok? ==> forall k :: 0 <= k < |names| ==> r.value[k] == cols[IndexOfName(cols, names[k]).value]
    ensures r.Ok? ==> forall k :: 0 <= k < |names| ==> r.value[k].name == names[k]
  {
    match FirstMissing(cols, names)
    case Some(k) => Err(ColumnNotFound(names[k]))
    case None => Ok(seq(|names|, k requires 0 <= k < |names| => cols[IndexOfName(cols, names[k]).value]))
  }

  /** `select_y_series`: the listed columns, or the default ones; none at all is `NoNumericColumns`. */
  function SelectY(cols: seq<Column>, cli: Cli, xName: string): (r: Result<seq<Column>, AppError>)
    ensures r.Ok? ==> r.value != []
    ensures cli.columns.None? ==> (r == Err(NoNumericColumns) <==> forall j :: 0 <= j < |cols| ==> !IncludeByDefault(cols[j], xName, cli.verticalMarker))
    ensures cli.columns.None? && r.Ok? ==> forall k :: 0 <= k < |r.value| ==> r.value[k].name != xName
    ensures cli.columns.None? && r.Ok? ==> r.value == DefaultY(cols, xName, cli.verticalMarker)
    ensures cli.columns.Some? && ListedY(cols, cli.columns.value).Err? ==> r == ListedY(cols, cli.columns.value)
    ensures cli.columns.Some? && ListedY(cols, cli.columns.value).Ok? ==>
      if cli.columns.value == [] then r == Err(NoNumericColumns) else r == ListedY(cols, cli.columns.value)
  {
    var ys := if cli.columns.Some? then ListedY(cols, cli.columns.value) else Ok(DefaultY(cols, xName, cli.verticalMarker));
    match ys
    case Err(e) => Err(e)
    case Ok(list) => if list == [] then Err(NoNumericColumns) else Ok(list)
  }

  /** The listed-columns branch, pushing one column per name and stopping at the first missing one. */
  method CollectListed(cols: seq<Column>, names: seq<string>) returns (r: Result<seq<Column>, AppError>)
    ensures r == ListedY(cols, names)
  {
    var list: seq<Column> := [];
    for k := 0 to |names|
      invariant forall j :: 0 <= j < k ==> IndexOfName(cols, names[j]).Some?
      invariant |list| == k
      invariant forall j :: 0 <= j < k ==> list[j] == cols[IndexOfName(cols, names[j]).value]
    {
      var found := IndexOfName(cols, names[k]);
      if found.None? {
        FirstMissingAt(cols, names, k);
        return Err(ColumnNotFound(names[k]));
      }
      list := list + [cols[found.value]];
    }
    assert FirstMissing(cols, names).None?;
    assert list == seq(|names|, k requires 0 <= k < |names| => cols[IndexOfName(cols, names[k]).value]);
    r := Ok(list);
  }

  /** A missing name with every earlier one present is the first missing one. */
  lemma FirstMissingAt(cols: seq<Column>, names: seq<string>, k: nat)
    requires k < |names| && IndexOfName(cols, names[k]).None?
    requires forall j :: 0 <= j < k ==> IndexOfName(cols, names[j]).Some?
    ensures FirstMissing(cols, names) == Some(k)
  {
    var m := FirstMissing(cols, names);
    assert m.Some?;
    assert !(m.value < k);
    assert !(m.value > k);
  }

  /** The default branch, pushing every column the rule keeps. */
  method CollectDefault(cols: seq<Column>, xName: string, marker: string) returns (list: seq<Column>)
    ensures list == DefaultY(cols, xName, marker)
  {
    list := [];
    for k := 0 to |cols|
      invariant list == DefaultY(cols[..k], xName, marker)
    {
      assert cols[..k + 1][..k] == cols[..k];
      var c := cols[k];
      if c.name != xName {
        var shouldInclude := if c.dtype == StringType then HasMarker(c.cells, marker) else IsNumericType(c.dtype);
        if shouldInclude {
          list := list + [c];
        }
      }
    }
    assert cols[..|cols|] == cols;
  }

  /** `select_y_series`. */
  method SelectYSeries(cols: seq<Column>, cli: Cli, xName: string) returns (r: Result<seq<Column>, AppError>)
    ensures r == SelectY(cols, cli, xName)
  {
    var list: seq<Column>;
    if cli.columns.Some? {
      var listed := CollectListed(cols, cli.columns.value);
      if listed.Err? {
        return Err(listed.error);
      }
      list := listed.value;
    } else {
      list := CollectDefault(cols, xName, cli.verticalMarker);
    }
    if list == [] {
      r := Err(NoNumericColumns);
    } else {
      r := Ok(list);
    }
  }

  // ---------------------------------------------------------------------------
  // Downsampling and assembly

  /** The rows of the zipped X and Y where both values convert to `f64`, in row order. */
  function Pairs(xs: seq<AnyValue>, ys: seq<AnyValue>, toF64: AnyValue -> Option<F64>): (pts: seq<Point>)
    ensures |pts| <= |xs| && |pts| <= |ys|
    ensures pts == [] <==> forall i :: 0 <= i < |xs| && i < |ys| ==> toF64(xs[i]).None? || toF64(ys[i]).None?
  {
    if xs == [] || ys == [] then []
    else
      var rest := Pairs(xs[1..], ys[1..], toF64);
      assert forall i :: 1 <= i < |xs| && i < |ys| ==> xs[i] == xs[1..][i - 1] && ys[i] == ys[1..][i - 1];
      match (toF64(xs[0]), toF64(ys[0]))
      case (Some(x), Some(y)) => [Point(x, y)] + rest
      case _ => rest
  }

  /**
   * `downsample_series`: no convertible pair gives two empty `Float64`
   * series under the inputs' names; otherwise the LTTB points, split into
   * `x_downsampled` and `y_downsampled`.
   */
  function DownsampleSeries(x: Column, y: Column, threshold: nat, num: Numerics): (r: (Column, Column))
    ensures r.0.dtype == Float64Type && r.1.dtype == Float64Type
    ensures |r.0.cells| == |r.1.cells|
    ensures Pairs(x.cells, y.cells, num.toF64) == [] ==>
      r == (Column(x.name, Float64Type, []), Column(y.name, Float64Type, []))
    ensures Pairs(x.cells, y.cells, num.toF64) != [] ==>
      var ds := num.lttb(Pairs(x.cells, y.cells, num.toF64), threshold);
      && r.0.name == "x_downsampled" && r.1.name == "y_downsampled" && |r.0.cells| == |ds|
      && forall i :: 0 <= i < |ds| ==> r.0.cells[i] == Float64(ds[i].x) && r.1.cells[i] == Float64(ds[i].y)
  {
    var points := Pairs(x.cells, y.cells, num.toF64);
    if points == [] then (Column(x.name, Float64Type, []), Column(y.name, Float64Type, []))
    else
      var ds := num.lttb(points, threshold);
      (Column("x_downsampled", Float64Type, seq(|ds|, i requires 0 <= i < |ds| => Float64(ds[i].x))),
       Column("y_downsampled", Float64Type, seq(|ds|, i requires 0 <= i < |ds| => Float64(ds[i].y))))
  }

  /** Whether a Y series is reduced: a threshold is set and the series is longer. */
  predicate IsDownsampled(y: Column, threshold: Option<nat>) {
    threshold.Some? && |y.cells| > threshold.value
  }

  /** The entry for one Y series. */
  function Entry(x: Column, y: Column, threshold: Option<nat>, num: Numerics): (e: PlotEntry)
    ensures e.name == y.name
  {
    if IsDownsampled(y, threshold) then
      var (dx, dy) := DownsampleSeries(x, y, threshold.value, num);
      PlotEntry(y.name, dx, dy)
    else PlotEntry(y.name, x, y)
  }

  /** Some Y series among the first `k` is reduced. */
  predicate AnyDownsampled(ys: seq<Column>, threshold: Option<nat>) {
    exists k :: 0 <= k < |ys| && IsDownsampled(ys[k], threshold)
  }

  /** The plot title: `--title`, else the input's file name. */
  function Title(cli: Cli, path: Path): string {
    cli.title.GetOr(FileName(path).GetOr(""))
  }

  /** `prepare_plot_data` as a function: one entry per Y series and the options carried over. */
  function PlotDataOf(cols: seq<Column>, cli: Cli, path: Path, num: Numerics): (r: Result<PlotData, AppError>)
    ensures SelectX(cols, cli).Err? ==> r == Err(SelectX(cols, cli).error)
    ensures SelectX(cols, cli).Ok? && SelectY(cols, cli, SelectX(cols, cli).value.1).Err? ==>
      r == Err(SelectY(cols, cli, SelectX(cols, cli).value.1).error)
  {
    match SelectX(cols, cli)
    case Err(e) => Err(e)
    case Ok((x, xName)) =>
      match SelectY(cols, cli, xName)
      case Err(e) => Err(e)
      case Ok(ys) =>
        var entries := seq(|ys|, k requires 0 <= k < |ys| => Entry(x, ys[k], cli.downsampleThreshold, num));
        Ok(PlotData(Title(cli, path), entries, cli.verticalMarker, !cli.noAutoscaleY, cli.animations,
          cli.maxDecimals, cli.whiteTheme, cli.largeModeThreshold, AnyDownsampled(ys, cli.downsampleThreshold)))
  }

  /**
   * The assembled plot: one entry per Y series in the same order and named
   * after it; an entry is reduced exactly when a threshold is set and its
   * series is longer, and otherwise pairs the X column with the untouched
   * series; `downsampled` says whether any entry was reduced; the title is
   * `--title` or else the input's file name.
   */
  lemma PlotDataShape(cols: seq<Column>, cli: Cli, path: Path, num: Numerics)
    requires PlotDataOf(cols, cli, path, num).Ok?
    ensures
      var pd := PlotDataOf(cols, cli, path, num).value;
      var (x, xName) := SelectX(cols, cli).value;
      var ys := SelectY(cols, cli, xName).value;
      && |pd.seriesList| == |ys| > 0
      && (forall k :: 0 <= k < |ys| ==> pd.seriesList[k].name == ys[k].name)
      && (forall k :: 0 <= k < |ys| && !IsDownsampled(ys[k], cli.downsampleThreshold) ==>
            pd.seriesList[k].x == x && pd.seriesList[k].y == ys[k])
      && (forall k :: 0 <= k < |ys| && IsDownsampled(ys[k], cli.downsampleThreshold) ==>
            (pd.seriesList[k].x, pd.seriesList[k].y) == DownsampleSeries(x, ys[k], cli.downsampleThreshold.value, num))
      && (pd.downsampled <==> exists k :: 0 <= k < |ys| && IsDownsampled(ys[k], cli.downsampleThreshold))
      && (cli.title.None? ==> pd.title == FileName(path).GetOr(""))
  {
  }

  /** The assembly loop: one entry per Y series, noting whether any was reduced. */
  method AssembleSeries(x: Column, ys: seq<Column>, threshold: Option<nat>, num: Numerics)
    returns (entries: seq<PlotEntry>, downsampled: bool)
    ensures entries == seq(|ys|, k requires 0 <= k < |ys| => Entry(x, ys[k], threshold, num))
    ensures downsampled == AnyDownsampled(ys, threshold)
  {
    entries := [];
    downsampled := false;
    for k := 0 to |ys|
      invariant |entries| == k
      invariant forall j :: 0 <= j < k ==> entries[j] == Entry(x, ys[j], threshold, num)
      invariant downsampled <==> exists j :: 0 <= j < k && IsDownsampled(ys[j], threshold)
    {
      var y := ys[k];
      if threshold.Some? && |y.cells| > threshold.value {
        var (dx, dy) := DownsampleSeries(x, y, threshold.value, num);
        entries := entries + [PlotEntry(y.name, dx, dy)];
        downsampled := true;
        continue;
      }
      entries := entries + [PlotEntry(y.name, x, y)];
    }
  }

  /** `prepare_plot_data`. */
  method PreparePlotData(cols: seq<Column>, cli: Cli, path: Path, num: Numerics) returns (r: Result<PlotData, AppError>)
    ensures r == PlotDataOf(cols, cli, path, num)
  {
    var selected := SelectX(cols, cli);
    if selected.Err? {
      return Err(selected.error);
    }
    var (x, xName) := selected.value;
    var ySeries := SelectYSeries(cols, cli, xName);
    if ySeries.Err? {
      return Err(ySeries.error);
    }
    var entries, downsampled := AssembleSeries(x, ySeries.value, cli.downsampleThreshold, num);
    var title := if cli.title.Some? then cli.title.value else FileName(path).GetOr("");
    r := Ok(PlotData(title, entries, cli.verticalMarker, !cli.noAutoscaleY, cli.animations,
      cli.maxDecimals, cli.whiteTheme, cli.largeModeThreshold, downsampled));
  }
}
