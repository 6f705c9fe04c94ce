/**
 * The cell-level data model: Polars data types, the `AnyValue` union a cell
 * holds, named columns, and the fixed-width integer rules the program relies on.
 * Floating-point numbers are carried as their IEEE-754 bit patterns and never
 * computed on.
 */
module Values {
  import opened Wrappers
  import opened Text

  type F32 = bv32
  type F64 = bv64

  datatype TimeUnit = Nanoseconds | Microseconds | Milliseconds
  datatype IntKind = UInt8 | UInt16 | UInt32 | UInt64 | Int8 | Int16 | Int32 | Int64

  /** A column's data type. */
  datatype DType =
    | BooleanType
    | IntType(kind: IntKind)
    | Float32Type
    | Float64Type
    | StringType
    | DateType
    | DatetimeType(unit: TimeUnit)
    | OtherType(typeName: string, numeric: bool)

  /**
   * Polars `DataType::is_numeric`: the integer and float types, and any other
   * type Polars counts as numeric (`Decimal`, `Int128`), which carries that
   * answer in its `numeric` flag.
   */
  predicate IsNumericType(t: DType) {
    t.IntType? || t.Float32Type? || t.Float64Type? || (t.OtherType? && t.numeric)
  }

  predicate IsTemporalType(t: DType) {
    t.DateType? || t.DatetimeType?
  }

  /** One cell, as Polars' `AnyValue`. `Date` counts days and `Datetime` ticks of its unit since the epoch. */
  datatype AnyValue =
    | Null
    | Boolean(b: bool)
    | Str(s: string)
    | Int(kind: IntKind, v: int)
    | Float32(f32: F32)
    | Float64(f64: F64)
    | Date(days: int)
    | Datetime(ticks: int, unit: TimeUnit)
    | OtherValue(text: string)

  /** A named Polars series. */
  datatype Column = Column(name: string, dtype: DType, cells: seq<AnyValue>)

  /** Row or column positions listed in order, none twice. */
  predicate StrictlyIncreasing(s: seq<nat>) {
    forall k, l :: 0 <= k < l < |s| ==> s[k] < s[l]
  }

  /** `null_count()`. */
  function NullCount(cells: seq<AnyValue>): (n: nat)
    ensures n <= |cells|
    ensures n == |cells| <==> forall i :: 0 <= i < |cells| ==> cells[i] == Null
    ensures n == 0 <==> forall i :: 0 <= i < |cells| ==> cells[i] != Null
  {
    if cells == [] then 0
    else
      var rest := NullCount(cells[1..]);
      assert forall i :: 1 <= i < |cells| ==> cells[i] == cells[1..][i - 1];
      (if cells[0] == Null then 1 else 0) + rest
  }

  /** `len() - null_count()`. */
  function NonNullCount(cells: seq<AnyValue>): nat {
    |cells| - NullCount(cells)
  }

  /**
   * Null counts of two aligned columns where `b` is null wherever `a` is:
   * `b` has at least as many nulls, and exactly as many iff it is non-null
   * wherever `a` is.
   */
  lemma {:induction false} NullCountCovering(a: seq<AnyValue>, b: seq<AnyValue>)
    requires |a| == |b|
    requires forall i :: 0 <= i < |a| && a[i] == Null ==> b[i] == Null
    ensures NullCount(b) >= NullCount(a)
    ensures NullCount(b) == NullCount(a) <==> forall i :: 0 <= i < |a| && a[i] != Null ==> b[i] != Null
  {
    if a != [] {
      NullCountCovering(a[1..], b[1..]);
      assert forall i :: 1 <= i < |a| ==> a[i] == a[1..][i - 1] && b[i] == b[1..][i - 1];
    }
  }

  /** A string cell whose trimmed text is the marker. */
  predicate IsMarkerCell(v: AnyValue, marker: string) {
    v.Str? && Trim(v.s) == marker
  }

  /** `check_string_series_for_marker`: a search that stops at the first marker cell. */
  function HasMarker(cells: seq<AnyValue>, marker: string): (found: bool)
    ensures found <==> exists i :: 0 <= i < |cells| && IsMarkerCell(cells[i], marker)
  {
    if cells == [] then false
    else if IsMarkerCell(cells[0], marker) then true
    else
      assert forall i :: 1 <= i < |cells| ==> cells[i] == cells[1..][i - 1];
      HasMarker(cells[1..], marker)
  }

  const I64_MIN: int := -0x8000_0000_0000_0000
  const I64_MAX: int := 0x7FFF_FFFF_FFFF_FFFF
  const U32_MODULUS: nat := 0x1_0000_0000

  predicate InI64(x: int) {
    I64_MIN <= x <= I64_MAX
  }

  /** Two's-complement wrap-around of an `i64` operation (overflow checks off). */
  function WrapI64(x: int): (r: int)
    ensures InI64(r)
    ensures InI64(x) ==> r == x
    ensures (x - r) % 0x1_0000_0000_0000_0000 == 0
  {
    (x - I64_MIN) % 0x1_0000_0000_0000_0000 + I64_MIN
  }

  /** `as u32` on a length: keeps the low 32 bits. */
  function AsU32(n: nat): (r: nat)
    ensures r < U32_MODULUS
    ensures n < U32_MODULUS ==> r == n
  {
    n % U32_MODULUS
  }

  /**
   * A generated `u32` counter column, `(0..count as u32)`: the loader's
   * `sample_index` and the X selection's `row_index` are both built this way.
   */
  function IndexColumn(name: string, count: nat): (col: Column)
    ensures col.name == name && col.dtype == IntType(UInt32)
    ensures |col.cells| == AsU32(count)
    ensures forall i :: 0 <= i < |col.cells| ==> col.cells[i] == Int(UInt32, i)
  {
    var len := AsU32(count);
    Column(name, IntType(UInt32), seq(len, i requires 0 <= i < len => Int(UInt32, i)))
  }

  /** Rust's integer `/`, which rounds toward zero (Dafny's `/` is Euclidean). */
  function TruncDiv(a: int, b: int): (q: int)
    requires b > 0
    ensures var rem := a - q * b; -b < rem < b && (a >= 0 ==> rem >= 0) && (a < 0 ==> rem <= 0)
  {
    if a >= 0 then a / b else -((-a) / b)
  }

  /** Rust and Dafny division part ways on negative dividends that are not multiples. */
  lemma TruncDivOfNegative()
    ensures TruncDiv(-1_500_000, 1_000_000) == -1
    ensures -1_500_000 / 1_000_000 == -2
  {
  }
}

/**
 * The foreign libraries the loader calls, as parameters: `str::parse::<f64>`,
 * Polars' native string-to-datetime cast, and chrono's `parse_from_str`.
 */
module Foreign {
  import opened Wrappers
  import opened Values

  /** A chrono `NaiveDateTime` read as UTC: whole seconds since the epoch and the sub-second nanoseconds. */
  datatype NaiveDateTime = NaiveDateTime(secs: int, subsecNanos: nat)

  datatype Parsers = Parsers(
    /** `str::parse::<f64>` on already-trimmed text. */
    parseF64: string -> Option<F64>,
    /** Polars' cast of one string cell to `Datetime(ms)`; `None` where the cast yields null. */
    castDatetime: string -> Option<int>,
    /** chrono `NaiveDateTime::parse_from_str(text, format)`. */
    parseDateTime: (string, string) -> Option<NaiveDateTime>,
    /** chrono `NaiveDate::parse_from_str(text, format)`, as days since the epoch. */
    parseDate: (string, string) -> Option<int>)
}
