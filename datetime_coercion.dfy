/**
 * `try_cast_string_columns_to_datetime`: a string column becomes a
 * millisecond `Datetime` column when Polars' own cast, or failing that the
 * heuristic format search, reads at least 90% of its non-null values.
 */
module DateTimeCoercion {
  import opened Wrappers
  import opened Values
  import opened Foreign
  import opened Frame
  import opened DateTimeFormats
  import opened DateTimeParsing

  /** The acceptance rule: some non-null values, and `parsed * 10 >= nonNulls * 9`. */
  predicate Accepts(nonNulls: nat, parsed: nat) {
    nonNulls > 0 && parsed * 10 >= nonNulls * 9
  }

  /** The rule in terms of the ratio: at least nine tenths of the non-null values were read. */
  lemma AcceptsRatio(nonNulls: nat, parsed: nat)
    ensures Accepts(nonNulls, parsed) <==> nonNulls > 0 && (parsed as real) / (nonNulls as real) >= 0.9
  {
    if nonNulls > 0 {
      var n, k := nonNulls as real, parsed as real;
      var ratio := k / n;
      assert k == ratio * n;
      assert (parsed * 10 >= nonNulls * 9) == (k * 10.0 >= n * 9.0);
      SignOfProduct(ratio - 0.9, n);
      assert (ratio - 0.9) * n == k - 0.9 * n;
    }
  }

  /** A product with a positive factor has the sign of the other factor. */
  lemma SignOfProduct(x: real, y: real)
    requires y > 0.0
    ensures x * y >= 0.0 <==> x >= 0.0
  {
    if x < 0.0 {
      assert (-x) * y > 0.0;
    }
  }

  /** Reading more values never turns an accepted column into a rejected one; reading them all is always enough. */
  lemma AcceptsMonotone(nonNulls: nat, parsed: nat, more: nat)
    ensures Accepts(nonNulls, parsed) && parsed <= more ==> Accepts(nonNulls, more)
    ensures nonNulls > 0 ==> Accepts(nonNulls, nonNulls)
    ensures nonNulls > 0 && parsed * 10 < nonNulls * 9 ==> !Accepts(nonNulls, parsed)
  {
  }

  /** A millisecond count as a `Datetime(ms)` cell; no value is null. */
  function MsCell(ms: Option<int>): (v: AnyValue)
    ensures v == Null <==> ms.None?
  {
    match ms
    case Some(t) => Datetime(t, Milliseconds)
    case None => Null
  }

  /** Polars' native string-to-`Datetime(ms)` cast, cell by cell. */
  function NativeCells(cells: seq<AnyValue>, p: Parsers): (r: seq<AnyValue>)
    ensures |r| == |cells|
    ensures forall i :: 0 <= i < |cells| && cells[i] == Null ==> r[i] == Null
  {
    seq(|cells|, i requires 0 <= i < |cells| => if cells[i].Str? then MsCell(p.castDatetime(cells[i].s)) else Null)
  }

  /** One cell of the heuristic pass: the normalised text searched against the formats. */
  function CellMs(v: AnyValue, fmts: seq<string>, p: Parsers): Option<int> {
    if v.Str? then TryParseMany(NormalizeSpaces(v.s), fmts, p) else None
  }

  function HeuristicCells(cells: seq<AnyValue>, fmts: seq<string>, p: Parsers): (r: seq<AnyValue>)
    ensures |r| == |cells|
    ensures forall i :: 0 <= i < |cells| ==> r[i] == MsCell(CellMs(cells[i], fmts, p))
  {
    seq(|cells|, i requires 0 <= i < |cells| => MsCell(CellMs(cells[i], fmts, p)))
  }

  /** `parse_string_series_to_datetime` with a given format list: the parsed column when the rule accepts it. */
  function HeuristicParse(col: Column, fmts: seq<string>, p: Parsers): (r: Option<Column>)
    ensures r.Some? ==> r.value.name == col.name && r.value.dtype == DatetimeType(Milliseconds)
    ensures r.Some? ==> r.value.cells == HeuristicCells(col.cells, fmts, p)
    ensures r.Some? <==> Accepts(NonNullCount(col.cells), NonNullCount(HeuristicCells(col.cells, fmts, p)))
  {
    var cells := HeuristicCells(col.cells, fmts, p);
    if Accepts(NonNullCount(col.cells), NonNullCount(cells)) then
      Some(Column(col.name, DatetimeType(Milliseconds), cells))
    else None
  }

  /** Whether the native cast of a column meets the acceptance rule. */
  predicate NativeAccepted(col: Column, p: Parsers) {
    Accepts(NonNullCount(col.cells), NonNullCount(NativeCells(col.cells, p)))
  }

  /** What the datetime pass leaves in place of one column. */
  function DatetimeCoerced(col: Column, p: Parsers): (r: Column)
    ensures r.name == col.name && |r.cells| == |col.cells|
    ensures r == col || (col.dtype == StringType && r.dtype == DatetimeType(Milliseconds))
    ensures r != col ==> forall i :: 0 <= i < |col.cells| && col.cells[i] == Null ==> r.cells[i] == Null
    ensures r != col ==> Accepts(NonNullCount(col.cells), NonNullCount(r.cells))
    ensures r != col <==> col.dtype == StringType && (NativeAccepted(col, p) || HeuristicParse(col, FormatList(), p).Some?)
    ensures col.dtype == StringType && NativeAccepted(col, p) ==>
              r == Column(col.name, DatetimeType(Milliseconds), NativeCells(col.cells, p))
    ensures col.dtype == StringType && !NativeAccepted(col, p) && HeuristicParse(col, FormatList(), p).Some? ==>
              r == HeuristicParse(col, FormatList(), p).value
  {
    if col.dtype != StringType then col
    else if NativeAccepted(col, p) then Column(col.name, DatetimeType(Milliseconds), NativeCells(col.cells, p))
    else
      match HeuristicParse(col, FormatList(), p)
      case Some(c) => c
      case None => col
  }

  /** The heuristic search is used only when the native cast is not accepted, and then with the 56 generated formats. */
  lemma DatetimeStrategyOrder(col: Column, p: Parsers)
    requires col.dtype == StringType
    ensures NativeAccepted(col, p) ==> DatetimeCoerced(col, p).cells == NativeCells(col.cells, p)
    ensures !NativeAccepted(col, p) && DatetimeCoerced(col, p) != col ==>
      forall i :: 0 <= i < |col.cells| ==> DatetimeCoerced(col, p).cells[i] == MsCell(CellMs(col.cells[i], FormatList(), p))
  {
  }

  /** `parse_string_series_to_datetime`: builds the format list, parses every cell, applies the rule. */
  method ParseStringSeriesToDatetime(s: Column, p: Parsers) returns (r: Option<Column>)
    ensures r == HeuristicParse(s, FormatList(), p)
  {
    var fmts := BuildFormats();
    var parsed: seq<Option<int>> := [];
    for i := 0 to |s.cells|
      invariant |parsed| == i
      invariant forall j :: 0 <= j < i ==> parsed[j] == CellMs(s.cells[j], fmts, p)
    {
      var ms: Option<int> := None;
      if s.cells[i].Str? {
        var norm := NormalizeSpaces(s.cells[i].s);
        ms := TryParseMany(norm, fmts, p);
      }
      parsed := parsed + [ms];
    }
    var cells := seq(|parsed|, j requires 0 <= j < |parsed| => MsCell(parsed[j]));
    assert cells == HeuristicCells(s.cells, fmts, p);
    var parsedNonNulls := |cells| - NullCount(cells);
    var originalNonNulls := |s.cells| - NullCount(s.cells);
    if originalNonNulls > 0 && parsedNonNulls * 10 >= originalNonNulls * 9 {
      r := Some(Column(s.name, DatetimeType(Milliseconds), cells));
    } else {
      r := None;
    }
  }

  /**
   * The decision the pass takes for one column: `Some(series)` when the
   * column is to be replaced, `None` when it is kept.
   */
  method DatetimeReplacement(s: Column, p: Parsers) returns (replacement: Option<Column>)
    ensures replacement.None? ==> DatetimeCoerced(s, p) == s
    ensures replacement.Some? ==> replacement.value == DatetimeCoerced(s, p)
  {
    replacement := None;
    if s.dtype != StringType {
      return;
    }
    var native := NativeCells(s.cells, p);
    var originalNonNulls := |s.cells| - NullCount(s.cells);
    var parsedNonNulls := |native| - NullCount(native);
    if originalNonNulls > 0 && parsedNonNulls * 10 >= originalNonNulls * 9 {
      replacement := Some(Column(s.name, DatetimeType(Milliseconds), native));
      return;
    }
    replacement := ParseStringSeriesToDatetime(s, p);
  }

  /** `try_cast_string_columns_to_datetime`, in place on the frame. */
  method CastStringColumnsToDatetime(df: DataFrame, p: Parsers)
    requires df.Valid()
    modifies df
    ensures df.Valid()
    ensures |df.columns| == |old(df.columns)|
    ensures forall i :: 0 <= i < |df.columns| ==> df.columns[i] == DatetimeCoerced(old(df.columns)[i], p)
  {
    ghost var cols0 := df.columns;
    for k := 0 to |df.columns|
      invariant df.Valid() && |df.columns| == |cols0|
      invariant forall i :: 0 <= i < k ==> df.columns[i] == DatetimeCoerced(cols0[i], p)
      invariant forall i :: k <= i < |cols0| ==> df.columns[i] == cols0[i]
    {
      var s := df.columns[k];
      var replacement := DatetimeReplacement(s, p);
      if replacement.Some? {
        IndexOfUniqueName(df.columns, k);
        df.Replace(s.name, replacement.value);
      }
    }
  }
}
