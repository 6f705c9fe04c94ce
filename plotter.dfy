/**
 * The plotter's data rules: how each cell becomes a JSON value, how an X
 * column and a Y column are zipped into ECharts points and vertical mark
 * lines, and how the X axis type is chosen.
 */
module Plotter {
  import opened Wrappers
  import opened Values
  import opened Processing
  import opened Paths
  import opened CommandLine

  /**
   * A `serde_json::Value` as the plotter produces it. A float is kept as its
   * bit pattern; `serde_json` turns a non-finite one into `null`.
   */
  datatype Json =
    | JNull
    | JBool(b: bool)
    | JString(s: string)
    | JInt(i: int)
    | JFloat32(f32: F32)
    | JFloat64(f64: F64)

  /** An `f32` that is neither infinite nor NaN: its exponent bits are not all ones. */
  predicate IsFiniteF32(b: F32) {
    (b >> 23) & 0xFF != 0xFF
  }

  predicate IsFiniteF64(b: F64) {
    (b >> 52) & 0x7FF != 0x7FF
  }

  /** Milliseconds since the epoch of a `Datetime` value, divided toward zero. */
  function DatetimeMs(v: int, unit: TimeUnit): (ms: int)
    ensures unit == Milliseconds ==> ms == v
    ensures unit == Microseconds ==> -1000 < v - ms * 1000 < 1000 && (v >= 0 ==> ms >= 0) && (v <= 0 ==> ms <= 0)
    ensures unit == Nanoseconds ==> -1_000_000 < v - ms * 1_000_000 < 1_000_000 && (v >= 0 ==> ms >= 0) && (v <= 0 ==> ms <= 0)
  {
    match unit
    case Nanoseconds => TruncDiv(v, 1_000_000)
    case Microseconds => TruncDiv(v, 1_000)
    case Milliseconds => v
  }

  /** `any_value_to_json_value`. */
  function ToJson(av: AnyValue): (j: Json)
    ensures j == JNull <==>
      (av == Null || (av.Float32? && !IsFiniteF32(av.f32)) || (av.Float64? && !IsFiniteF64(av.f64)))
  {
    match av
    case Null => JNull
    case Boolean(b) => JBool(b)
    case Str(s) => JString(s)
    case Int(_, v) => JInt(v)
    case Float32(f) => if IsFiniteF32(f) then JFloat32(f) else JNull
    case Float64(f) => if IsFiniteF64(f) then JFloat64(f) else JNull
    case Date(days) => JInt(days * 86_400_000)
    case Datetime(v, unit) => JInt(DatetimeMs(v, unit))
    case OtherValue(text) => JString(text)
  }

  /**
   * The same instant gives the same JSON whatever its unit: a date is its
   * midnight in milliseconds, and a nanosecond or microsecond count of whole
   * milliseconds comes out as those milliseconds.
   */
  lemma TimeJsonAgrees(t: int, days: int)
    ensures ToJson(Datetime(t * 1_000_000, Nanoseconds)) == ToJson(Datetime(t, Milliseconds))
    ensures ToJson(Datetime(t * 1_000, Microseconds)) == ToJson(Datetime(t, Milliseconds))
    ensures ToJson(Date(days)) == ToJson(Datetime(days * 86_400_000, Milliseconds))
  {
    TruncDivExact(t, 1_000_000);
    TruncDivExact(t, 1_000);
  }

  /** Dividing an exact multiple toward zero gives the factor back. */
  lemma TruncDivExact(t: int, d: int)
    requires d > 0
    ensures TruncDiv(t * d, d) == t
  {
    var q := TruncDiv(t * d, d);
    assert t * d - q * d == (t - q) * d;
    MultipleBounds(t - q, d);
  }

  /** A non-zero multiple of `d` is at least `d` away from zero. */
  lemma MultipleBounds(a: int, d: int)
    requires d > 0
    ensures a >= 1 ==> a * d >= d
    ensures a <= -1 ==> a * d <= -d
  {
    if a >= 1 {
      assert a * d == d + (a - 1) * d;
    } else if a <= -1 {
      assert a * d == -d + (a + 1) * d;
    }
  }

  /** What one zipped row contributes. */
  datatype Outcome = Skip | MarkAt(xAxis: Json) | PointAt(x: Json, y: Json)

  /**
   * The row rule: a null X contributes nothing; a Y that is exactly the
   * string `|` is a vertical mark line at X; a null Y contributes nothing;
   * any other row is one `[x, y]` point.
   */
  function RowOutcome(xv: AnyValue, yv: AnyValue): Outcome {
    if xv == Null then Skip
    else if yv == Str("|") then MarkAt(ToJson(xv))
    else if yv == Null then Skip
    else PointAt(ToJson(xv), ToJson(yv))
  }

  /** The number of zipped rows. */
  function Rows(x: Column, y: Column): nat {
    if |x.cells| <= |y.cells| then |x.cells| else |y.cells|
  }

  /** The points of the first `n` zipped rows, in row order. */
  function Points(x: Column, y: Column, n: nat): (pts: seq<(Json, Json)>)
    requires n <= Rows(x, y)
    ensures |pts| <= n
  {
    if n == 0 then []
    else
      match RowOutcome(x.cells[n - 1], y.cells[n - 1])
      case PointAt(a, b) => Points(x, y, n - 1) + [(a, b)]
      case _ => Points(x, y, n - 1)
  }

  /** The mark lines of the first `n` zipped rows, in row order. */
  function Marks(x: Column, y: Column, n: nat): (ms: seq<Json>)
    requires n <= Rows(x, y)
    ensures |ms| <= n
  {
    if n == 0 then []
    else
      match RowOutcome(x.cells[n - 1], y.cells[n - 1])
      case MarkAt(a) => Marks(x, y, n - 1) + [a]
      case _ => Marks(x, y, n - 1)
  }

  /** The indices among the first `n` rows whose outcome is a point (`wantPoint`) or a mark line. */
  function RowsOf(x: Column, y: Column, n: nat, wantPoint: bool): (idx: seq<nat>)
    requires n <= Rows(x, y)
    ensures forall k :: 0 <= k < |idx| ==> idx[k] < n
    ensures forall k :: 0 <= k < |idx| ==> Selected(RowOutcome(x.cells[idx[k]], y.cells[idx[k]]), wantPoint)
  {
    if n == 0 then []
    else
      var rest := RowsOf(x, y, n - 1, wantPoint);
      if Selected(RowOutcome(x.cells[n - 1], y.cells[n - 1]), wantPoint) then
        assert forall k :: 0 <= k < |rest| ==> (rest + [n - 1])[k] == rest[k];
        rest + [n - 1]
      else rest
  }

  /** Every selected row among the first `n` is listed. */
  lemma {:induction false} RowsOfComplete(x: Column, y: Column, n: nat, wantPoint: bool)
    requires n <= Rows(x, y)
    ensures forall i :: 0 <= i < n && Selected(RowOutcome(x.cells[i], y.cells[i]), wantPoint) ==>
      i in RowsOf(x, y, n, wantPoint)
  {
    if n > 0 {
      RowsOfComplete(x, y, n - 1, wantPoint);
    }
  }

  /** The listed rows are strictly increasing, so none is listed twice. */
  lemma {:induction false} RowsOfIncreasing(x: Column, y: Column, n: nat, wantPoint: bool)
    requires n <= Rows(x, y)
    ensures StrictlyIncreasing(RowsOf(x, y, n, wantPoint))
  {
    if n > 0 {
      RowsOfIncreasing(x, y, n - 1, wantPoint);
      var rest := RowsOf(x, y, n - 1, wantPoint);
      if Selected(RowOutcome(x.cells[n - 1], y.cells[n - 1]), wantPoint) {
        var idx := rest + [n - 1];
        forall k, l | 0 <= k < l < |idx|
          ensures idx[k] < idx[l]
        {
          assert idx[k] == rest[k];
          if l < |rest| {
            assert idx[l] == rest[l];
          }
        }
      }
    }
  }

  predicate Selected(o: Outcome, wantPoint: bool) {
    if wantPoint then o.PointAt? else o.MarkAt?
  }

  /**
   * The emitted points are exactly the point rows, in increasing row order:
   * entry `k` is the JSON of X and Y at the `k`-th row with non-null X, a
   * non-null Y and a Y other than `|`.
   */
  lemma {:induction false} PointsAreRows(x: Column, y: Column, n: nat)
    requires n <= Rows(x, y)
    ensures var idx := RowsOf(x, y, n, true);
      && |Points(x, y, n)| == |idx|
      && forall k :: 0 <= k < |idx| ==>
           Points(x, y, n)[k] == (ToJson(x.cells[idx[k]]), ToJson(y.cells[idx[k]]))
           && x.cells[idx[k]] != Null && y.cells[idx[k]] != Null && y.cells[idx[k]] != Str("|")
  {
    if n > 0 {
      PointsAreRows(x, y, n - 1);
    }
  }

  /** The mark lines are exactly the rows with non-null X whose Y is `|`, at that row's X, in row order. */
  lemma {:induction false} MarksAreRows(x: Column, y: Column, n: nat)
    requires n <= Rows(x, y)
    ensures var idx := RowsOf(x, y, n, false);
      && |Marks(x, y, n)| == |idx|
      && forall k :: 0 <= k < |idx| ==>
           Marks(x, y, n)[k] == ToJson(x.cells[idx[k]])
           && x.cells[idx[k]] != Null && y.cells[idx[k]] == Str("|")
  {
    if n > 0 {
      MarksAreRows(x, y, n - 1);
    }
  }

  /** An X column of nulls gives neither points nor mark lines. */
  lemma {:induction false} NullXContributesNothing(x: Column, y: Column, n: nat)
    requires n <= Rows(x, y)
    requires forall i :: 0 <= i < n ==> x.cells[i] == Null
    ensures Points(x, y, n) == [] && Marks(x, y, n) == []
  {
    if n > 0 {
      NullXContributesNothing(x, y, n - 1);
    }
  }

  /**
   * The mark-line rule looks for the literal `|`, not the configured
   * marker, and only for an untrimmed match: a marker cell `" | "` that made
   * its column a Y column is plotted as a point.
   */
  lemma MarkerIsLiteral(xv: AnyValue)
    requires xv != Null
    ensures RowOutcome(xv, Str("|")).MarkAt?
    ensures RowOutcome(xv, Str(" | ")).PointAt?
    ensures IsMarkerCell(Str(" | "), "|")
  {
    TrimOfSpaces();
  }

  lemma TrimOfSpaces()
    ensures IsMarkerCell(Str(" | "), "|")
  {
    var s := " | ";
    assert Text.LeadingWhitespace(s) == 1 by {
      assert Text.IsWhitespace(s[0]) && !Text.IsWhitespace(s[1]);
      Text.LeadingWhitespaceSpec(s);
    }
    assert Text.TrimStart(s) == "| ";
    assert Text.TrailingWhitespace("| ") == 1 by {
      Text.TrailingWhitespaceSpec("| ");
    }
  }

  /** One series object, without its fixed styling keys and float ranges. */
  datatype SeriesJson = SeriesJson(name: string, metaN: nat, data: seq<(Json, Json)>, markLines: seq<Json>)

  /**
   * The series object for one entry, named by the entry's own name: the Y
   * series' name, kept even when its data was reduced to `y_downsampled`.
   */
  function SeriesJsonOf(e: PlotEntry): (s: SeriesJson)
    ensures s.name == e.name && s.metaN == |s.data|
    ensures s.metaN <= |e.x.cells| && s.metaN <= |e.y.cells|
  {
    var n := Rows(e.x, e.y);
    var pts := Points(e.x, e.y, n);
    SeriesJson(e.name, |pts|, pts, Marks(e.x, e.y, n))
  }

  /** The row loop for one series. */
  method BuildOneSeries(e: PlotEntry) returns (s: SeriesJson)
    ensures s == SeriesJsonOf(e)
  {
    var dataPoints: seq<(Json, Json)> := [];
    var markLinesData: seq<Json> := [];
    var n := if |e.x.cells| <= |e.y.cells| then |e.x.cells| else |e.y.cells|;
    for i := 0 to n
      invariant dataPoints == Points(e.x, e.y, i)
      invariant markLinesData == Marks(e.x, e.y, i)
    {
      var xVal := e.x.cells[i];
      var yVal := e.y.cells[i];
      if xVal != Null {
        if yVal == Str("|") {
          markLinesData := markLinesData + [ToJson(xVal)];
          continue;
        }
        if yVal != Null {
          dataPoints := dataPoints + [(ToJson(xVal), ToJson(yVal))];
        }
      }
    }
    s := SeriesJson(e.name, |dataPoints|, dataPoints, markLinesData);
  }

  /** `build_series_json`: one object per entry, in order. */
  method BuildSeriesJson(pd: PlotData) returns (objects: seq<SeriesJson>)
    ensures |objects| == |pd.seriesList|
    ensures forall k :: 0 <= k < |objects| ==> objects[k] == SeriesJsonOf(pd.seriesList[k])
  {
    objects := [];
    for k := 0 to |pd.seriesList|
      invariant |objects| == k
      invariant forall j :: 0 <= j < k ==> objects[j] == SeriesJsonOf(pd.seriesList[j])
    {
      var obj := BuildOneSeries(pd.seriesList[k]);
      objects := objects + [obj];
    }
  }

  /** The ECharts axis type for an X column's data type. */
  function XAxisType(t: DType): (kind: string)
    ensures kind in ["time", "category", "value"]
    ensures kind == "time" <==> IsTemporalType(t)
    ensures kind == "category" <==> t == StringType
  {
    if IsTemporalType(t) then "time" else if t == StringType then "category" else "value"
  }

  /** The number formatter goes on the axis labels of a `value` axis only. */
  function LabelExtra(kind: string): string {
    if kind == "value" then ", formatter: formatNumber" else ""
  }

  /** The template's inputs, without the float Y range. */
  datatype Page = Page(
    title: string,
    autoscaleY: bool,
    animations: bool,
    maxDecimals: int,
    useWhiteTheme: bool,
    xAxisType: string,
    xAxisLabelExtra: string,
    series: seq<SeriesJson>)

  /** The X column whose type decides the axis: the first entry's, when there is one. */
  function AxisDType(pd: PlotData): DType {
    if pd.seriesList == [] then Float64Type else pd.seriesList[0].x.dtype
  }

  /** `generate_html_plot` up to the template. */
  function PageOf(pd: PlotData): (page: Page)
    ensures |page.series| == |pd.seriesList|
    ensures forall k :: 0 <= k < |pd.seriesList| ==> page.series[k] == SeriesJsonOf(pd.seriesList[k])
    ensures page.xAxisLabelExtra != "" <==> !IsTemporalType(AxisDType(pd)) && AxisDType(pd) != StringType
  {
    var kind := XAxisType(AxisDType(pd));
    Page(pd.title, pd.autoscaleY, pd.animations, pd.maxDecimals, pd.useWhiteTheme, kind, LabelExtra(kind),
      seq(|pd.seriesList|, k requires 0 <= k < |pd.seriesList| => SeriesJsonOf(pd.seriesList[k])))
  }

  /**
   * Every series on the page carries the name of the Y series it plots, in
   * selection order, whether or not it was downsampled.
   */
  lemma SeriesNamedAfterY(cols: seq<Column>, cli: Cli, path: Path, num: Numerics)
    requires PlotDataOf(cols, cli, path, num).Ok?
    ensures var page := PageOf(PlotDataOf(cols, cli, path, num).value);
      var ys := SelectY(cols, cli, SelectX(cols, cli).value.1).value;
      |page.series| == |ys| && forall k :: 0 <= k < |ys| ==> page.series[k].name == ys[k].name
  {
    PlotDataShape(cols, cli, path, num);
  }

  /** `generate_html_plot`: the series objects, then the axis choice. */
  method GenerateHtmlPlot(pd: PlotData) returns (page: Page)
    ensures page == PageOf(pd)
  {
    var objects := BuildSeriesJson(pd);
    var kind := XAxisType(AxisDType(pd));
    page := Page(pd.title, pd.autoscaleY, pd.animations, pd.maxDecimals, pd.useWhiteTheme, kind, LabelExtra(kind), objects);
  }
}
