/**
 * `try_cast_string_columns_to_numeric`: a string column becomes a `Float64`
 * column only when it holds no marker cell, holds at least one non-null
 * value, and every non-null trimmed value parses as a float.
 */
module NumericCoercion {
  import opened Wrappers
  import opened Text
  import opened Values
  import opened Frame

  /** A string cell whose trimmed text parses as `f64`. */
  predicate ParsesAsNumber(v: AnyValue, parse: string -> Option<F64>) {
    v.Str? && parse(Trim(v.s)).Some?
  }

  /** One cell of the parsed series: the parsed float, or null. */
  function ParsedCell(v: AnyValue, parse: string -> Option<F64>): AnyValue {
    if v.Str? then
      match parse(Trim(v.s))
      case Some(f) => Float64(f)
      case None => Null
    else Null
  }

  function ParsedCells(cells: seq<AnyValue>, parse: string -> Option<F64>): (r: seq<AnyValue>)
    ensures |r| == |cells|
    ensures forall i :: 0 <= i < |cells| ==> r[i] == ParsedCell(cells[i], parse)
  {
    seq(|cells|, i requires 0 <= i < |cells| => ParsedCell(cells[i], parse))
  }

  /** The three conditions under which a string column is replaced. */
  predicate ShouldConvert(col: Column, marker: string, parse: string -> Option<F64>) {
    && col.dtype == StringType
    && !HasMarker(col.cells, marker)
    && NonNullCount(col.cells) > 0
    && forall i :: 0 <= i < |col.cells| && col.cells[i] != Null ==> ParsesAsNumber(col.cells[i], parse)
  }

  /** What the pass leaves in place of one column. */
  function NumericCoerced(col: Column, marker: string, parse: string -> Option<F64>): (r: Column)
    ensures r.name == col.name && |r.cells| == |col.cells|
    ensures r == col || (col.dtype == StringType && r.dtype == Float64Type)
    ensures HasMarker(col.cells, marker) ==> r == col
    ensures (exists i :: 0 <= i < |col.cells| && col.cells[i] != Null && !ParsesAsNumber(col.cells[i], parse)) ==> r == col
    ensures r != col ==> forall i :: 0 <= i < |r.cells| ==>
              (r.cells[i] == Null <==> col.cells[i] == Null)
              && (r.cells[i] != Null ==> r.cells[i] == Float64(parse(Trim(col.cells[i].s)).value))

    ensures r != col <==> ShouldConvert(col, marker, parse)
    ensures ShouldConvert(col, marker, parse) ==> r == Column(col.name, Float64Type, ParsedCells(col.cells, parse))
  {
    if ShouldConvert(col, marker, parse) then Column(col.name, Float64Type, ParsedCells(col.cells, parse))
    else col
  }

  /** The first pass over the cells: is there a marker, and is there a numeric non-marker value. */
  method ScanCells(cells: seq<AnyValue>, marker: string, parse: string -> Option<F64>)
    returns (hasMarker: bool, hasNumeric: bool)
    ensures hasMarker <==> exists i :: 0 <= i < |cells| && IsMarkerCell(cells[i], marker)
    ensures hasNumeric <==> exists i :: 0 <= i < |cells| && !IsMarkerCell(cells[i], marker) && ParsesAsNumber(cells[i], parse)
  {
    hasMarker, hasNumeric := false, false;
    for k := 0 to |cells|
      invariant hasMarker <==> exists i :: 0 <= i < k && IsMarkerCell(cells[i], marker)
      invariant hasNumeric <==> exists i :: 0 <= i < k && !IsMarkerCell(cells[i], marker) && ParsesAsNumber(cells[i], parse)
    {
      var v := cells[k];
      if v.Str? {
        var trimmed := Trim(v.s);
        if trimmed == marker {
          hasMarker := true;
        } else if parse(trimmed).Some? {
          hasNumeric := true;
        }
      }
      assert IsMarkerCell(v, marker) <==> v.Str? && Trim(v.s) == marker;
    }
  }

  /** The parsed series counts as many non-nulls as the column iff every non-null value parsed. */
  lemma ParsedCountMatches(cells: seq<AnyValue>, parse: string -> Option<F64>)
    ensures NonNullCount(ParsedCells(cells, parse)) <= NonNullCount(cells)
    ensures NonNullCount(ParsedCells(cells, parse)) == NonNullCount(cells)
            <==> forall i :: 0 <= i < |cells| && cells[i] != Null ==> ParsesAsNumber(cells[i], parse)
  {
    var parsed := ParsedCells(cells, parse);
    NullCountCovering(cells, parsed);
  }

  /**
   * The decision the pass takes for one column: `Some(series)` when the
   * column is to be replaced by the parsed series, `None` when it is kept.
   */
  method NumericReplacement(s: Column, marker: string, parse: string -> Option<F64>)
    returns (replacement: Option<Column>)
    ensures replacement.Some? <==> ShouldConvert(s, marker, parse)
    ensures replacement.Some? ==> replacement.value == NumericCoerced(s, marker, parse)
  {
    replacement := None;
    if s.dtype != StringType {
      return;
    }
    var hasMarker, hasNumeric := ScanCells(s.cells, marker, parse);
    if hasMarker {
      assert HasMarker(s.cells, marker);
      return;
    }
    if !hasNumeric {
      return;
    }
    var parsed := ParsedCells(s.cells, parse);
    var originalNonNulls := |s.cells| - NullCount(s.cells);
    var parsedNumericCount := |parsed| - NullCount(parsed);
    ParsedCountMatches(s.cells, parse);
    if originalNonNulls > 0 && parsedNumericCount == originalNonNulls {
      replacement := Some(Column(s.name, Float64Type, parsed));
    }
  }

  /** `try_cast_string_columns_to_numeric`, in place on the frame. */
  method CastStringColumnsToNumeric(df: DataFrame, marker: string, parse: string -> Option<F64>)
    requires df.Valid()
    modifies df
    ensures df.Valid()
    ensures |df.columns| == |old(df.columns)|
    ensures forall i :: 0 <= i < |df.columns| ==> df.columns[i] == NumericCoerced(old(df.columns)[i], marker, parse)
  {
    ghost var cols0 := df.columns;
    for k := 0 to |df.columns|
      invariant df.Valid() && |df.columns| == |cols0|
      invariant forall i :: 0 <= i < k ==> df.columns[i] == NumericCoerced(cols0[i], marker, parse)
      invariant forall i :: k <= i < |cols0| ==> df.columns[i] == cols0[i]
    {
      var s := df.columns[k];
      var replacement := NumericReplacement(s, marker, parse);
      if replacement.Some? {
        IndexOfUniqueName(df.columns, k);
        df.Replace(s.name, replacement.value);
      }
    }
  }
}
