/**
 * The 56 candidate `chrono` formats the heuristic date parser tries, in the
 * order `parse_string_series_to_datetime` pushes them.
 */
module DateTimeFormats {
  import opened Wrappers
  import opened Text

  const Separators: seq<char> := ['-', '/', '.', ' ']
  const DateTimeSeparators: seq<string> := ["T", " "]
  const TimeFormats: seq<string> := ["%H", "%H:%M", "%H:%M:%S"]

  /** 4 separators, each with 2 date-only and 2 x 3 x 2 timed formats. */
  const PerSeparator: nat := 14
  const FormatCount: nat := 56

  datatype DateOrder = YearFirst | DayFirst

  /** A time part: which date-time separator and which clock format. */
  datatype TimePart = TimePart(dtSep: nat, clock: nat)

  /** One candidate: which date separator, which field order, which time part if any. */
  datatype FormatSpec = FormatSpec(sep: nat, order: DateOrder, time: Option<TimePart>)

  /** A candidate whose indices name entries of the three lists. */
  predicate Generated(spec: FormatSpec) {
    && spec.sep < |Separators|
    && (spec.time.Some? ==> spec.time.value.dtSep < |DateTimeSeparators| && spec.time.value.clock < |TimeFormats|)
  }

  function OrderAt(o: nat): DateOrder {
    if o == 0 then YearFirst else DayFirst
  }

  /** `%Y{sep}%m{sep}%d` or `%d{sep}%m{sep}%Y`: one separator for both gaps. */
  function DatePattern(sep: char, order: DateOrder): (r: string)
    ensures |r| == 8 && r[2] == sep && r[5] == sep
    ensures r[0] == '%' && r[1] == (if order == YearFirst then 'Y' else 'd')
  {
    match order
    case YearFirst => "%Y" + [sep] + "%m" + [sep] + "%d"
    case DayFirst => "%d" + [sep] + "%m" + [sep] + "%Y"
  }

  function TimeSuffix(time: Option<TimePart>): string
    requires time.Some? ==> time.value.dtSep < |DateTimeSeparators| && time.value.clock < |TimeFormats|
  {
    match time
    case None => ""
    case Some(t) => DateTimeSeparators[t.dtSep] + TimeFormats[t.clock]
  }

  /** The `chrono` format string of a candidate. */
  function Render(spec: FormatSpec): (r: string)
    requires Generated(spec)
    ensures |r| >= 8
    ensures r[..8] == DatePattern(Separators[spec.sep], spec.order)
    ensures r[8..] == TimeSuffix(spec.time)
  {
    var d := DatePattern(Separators[spec.sep], spec.order);
    var r := d + TimeSuffix(spec.time);
    assert r[..8] == d;
    r
  }

  /** The separator block of position `k`, that is `k / 14`. */
  function BlockOf(k: nat): (b: nat)
    ensures PerSeparator * b <= k < PerSeparator * b + PerSeparator
  {
    if k < PerSeparator then 0 else 1 + BlockOf(k - PerSeparator)
  }

  /**
   * The candidate at position `j` of the block of separator `b`: the two
   * date-only formats first, then for each date-time separator and each
   * clock the year-first format followed by the day-first one.
   */
  function SlotSpec(b: nat, j: nat): (spec: FormatSpec)
    requires j < PerSeparator
  {
    if j < 2 then FormatSpec(b, OrderAt(j), None)
    else
      var d := if j < 8 then 0 else 1;
      var r := j - 2 - 6 * d;
      var t := if r < 2 then 0 else if r < 4 then 1 else 2;
      FormatSpec(b, OrderAt(r - 2 * t), Some(TimePart(d, t)))
  }

  /** The candidate at position `k` of the list. */
  function SpecAt(k: nat): (spec: FormatSpec)
    requires k < FormatCount
    ensures Generated(spec)
  {
    var b := BlockOf(k);
    SlotSpec(b, k - PerSeparator * b)
  }

  /** The position of a candidate in the list: the inverse of `SpecAt`. */
  function PositionOf(spec: FormatSpec): (k: nat)
    requires Generated(spec)
    ensures k < FormatCount
  {
    var o := if spec.order == YearFirst then 0 else 1;
    match spec.time
    case None => PerSeparator * spec.sep + o
    case Some(t) => PerSeparator * spec.sep + 2 + 6 * t.dtSep + 2 * t.clock + o
  }

  /** The list `parse_string_series_to_datetime` builds. */
  function FormatList(): (r: seq<string>)
    ensures |r| == FormatCount
  {
    seq(FormatCount, k requires 0 <= k < FormatCount => Render(SpecAt(k)))
  }

  lemma FormatListAt(k: nat)
    requires k < FormatCount
    ensures FormatList()[k] == Render(SpecAt(k))
  {
  }

  /** Every candidate sits at the position `PositionOf` gives it. */
  lemma SpecAtPositionOf(spec: FormatSpec)
    requires Generated(spec)
    ensures SpecAt(PositionOf(spec)) == spec
  {
    var k := PositionOf(spec);
    assert BlockOf(k) == spec.sep;
  }

  /** ... and every position holds a candidate: the two maps are inverse. */
  lemma PositionOfSpecAt(k: nat)
    requires k < FormatCount
    ensures PositionOf(SpecAt(k)) == k
  {
  }

  /**
   * Year-first comes before day-first: even positions are year-first, and
   * the next position holds the same candidate with day-first order.
   */
  lemma YearFirstBeforeDayFirst(k: nat)
    requires k < FormatCount
    ensures SpecAt(k).order == (if k % 2 == 0 then YearFirst else DayFirst)
    ensures k % 2 == 0 ==> k + 1 < FormatCount && SpecAt(k + 1) == SpecAt(k).(order := DayFirst)
  {
    var b := BlockOf(k);
    assert k % 2 == (k - PerSeparator * b) % 2;
    if k % 2 == 0 {
      assert BlockOf(k + 1) == b;
    }
  }

  /** Date-only candidates come first in each block, timed ones after. */
  lemma DateOnlyFirst(k: nat)
    requires k < FormatCount
    ensures SpecAt(k).time.None? <==> k - PerSeparator * BlockOf(k) < 2
    ensures SpecAt(k).sep == BlockOf(k)
  {
  }

  lemma RenderChar(spec: FormatSpec, i: nat)
    requires Generated(spec) && i < 8
    ensures Render(spec)[i] == DatePattern(Separators[spec.sep], spec.order)[i]
  {
    assert Render(spec)[..8][i] == Render(spec)[i];
  }

  lemma TimeSuffixShape(t: TimePart)
    requires t.dtSep < |DateTimeSeparators| && t.clock < |TimeFormats|
    ensures var s := TimeSuffix(Some(t));
      && |s| == 3 + 3 * t.clock
      && s[0] == (if t.dtSep == 0 then 'T' else ' ')
  {
  }

  /** Different candidates have different format strings. */
  lemma {:induction false} RenderInjective(a: FormatSpec, b: FormatSpec)
    requires Generated(a) && Generated(b)
    requires Render(a) == Render(b)
    ensures a == b
  {
    RenderChar(a, 1);
    RenderChar(b, 1);
    RenderChar(a, 2);
    RenderChar(b, 2);
    assert a.order == b.order;
    assert Separators[a.sep] == Separators[b.sep];
    assert a.sep == b.sep;
    var sa, sb := TimeSuffix(a.time), TimeSuffix(b.time);
    assert sa == Render(a)[8..] == sb;
    if a.time.Some? {
      TimeSuffixShape(a.time.value);
    }
    if b.time.Some? {
      TimeSuffixShape(b.time.value);
    }
  }

  /** The 56 format strings are pairwise distinct. */
  lemma FormatListDistinct(i: nat, j: nat)
    requires i < j < FormatCount
    ensures FormatList()[i] != FormatList()[j]
  {
    if FormatList()[i] == FormatList()[j] {
      RenderInjective(SpecAt(i), SpecAt(j));
      PositionOfSpecAt(i);
      PositionOfSpecAt(j);
    }
  }

  /** `f.contains("%H")` tells a timed candidate from a date-only one. */
  lemma {:induction false} HasHourIffTimed(spec: FormatSpec)
    requires Generated(spec)
    ensures Contains(Render(spec), "%H") <==> spec.time.Some?
  {
    var r := Render(spec);
    if spec.time.Some? {
      var s := TimeSuffix(spec.time);
      assert r[8..] == s;
      assert r[9..11] == s[1..3] == "%H";
      assert OccursAt(r, "%H", 9);
    } else {
      assert |r| == 8;
      forall i | 0 <= i <= |r|
        ensures !OccursAt(r, "%H", i)
      {
        if i + 2 <= |r| {
          assert r[i..i + 2][1] == r[i + 1];
          RenderChar(spec, i + 1);
        }
      }
    }
  }

  lemma TakeTwoMore<T>(f: seq<T>, k: nat)
    requires k + 2 <= |f|
    ensures f[..k + 2] == f[..k] + [f[k], f[k + 1]]
  {
  }

  /** The two date-only formats of block `b`. */
  lemma DateOnlyEntries(b: nat)
    requires b < |Separators|
    ensures var k := PerSeparator * b;
      FormatList()[..k + 2] == FormatList()[..k]
        + [DatePattern(Separators[b], YearFirst), DatePattern(Separators[b], DayFirst)]
  {
    var k := PerSeparator * b;
    assert BlockOf(k) == b && BlockOf(k + 1) == b;
    var y, d := DatePattern(Separators[b], YearFirst), DatePattern(Separators[b], DayFirst);
    assert y + "" == y && d + "" == d;
    FormatListAt(k);
    FormatListAt(k + 1);
    TakeTwoMore(FormatList(), k);
  }

  /** The two formats of block `b` for date-time separator `d` and clock `t`. */
  lemma TimedEntries(b: nat, d: nat, t: nat)
    requires b < |Separators| && d < |DateTimeSeparators| && t < |TimeFormats|
    ensures var k := PerSeparator * b + 2 + 6 * d + 2 * t;
      var suffix := DateTimeSeparators[d] + TimeFormats[t];
      FormatList()[..k + 2] == FormatList()[..k]
        + [DatePattern(Separators[b], YearFirst) + suffix, DatePattern(Separators[b], DayFirst) + suffix]
  {
    var k := PerSeparator * b + 2 + 6 * d + 2 * t;
    assert BlockOf(k) == b && BlockOf(k + 1) == b;
    assert SpecAt(k) == FormatSpec(b, YearFirst, Some(TimePart(d, t)));
    assert SpecAt(k + 1) == FormatSpec(b, DayFirst, Some(TimePart(d, t)));
    FormatListAt(k);
    FormatListAt(k + 1);
    TakeTwoMore(FormatList(), k);
  }

  /** The innermost push loop: one date-time separator, every clock. */
  method PushTimedFormats(fmts0: seq<string>, b: nat, d: nat, ymd: string, dmy: string)
    returns (fmts: seq<string>)
    requires b < |Separators| && d < |DateTimeSeparators|
    requires ymd == DatePattern(Separators[b], YearFirst) && dmy == DatePattern(Separators[b], DayFirst)
    requires |fmts0| == PerSeparator * b + 2 + 6 * d && fmts0 == FormatList()[..|fmts0|]
    ensures |fmts| == |fmts0| + 6 && fmts == FormatList()[..|fmts|]
  {
    fmts := fmts0;
    var dts := DateTimeSeparators[d];
    for t := 0 to |TimeFormats|
      invariant |fmts| == |fmts0| + 2 * t && fmts == FormatList()[..|fmts|]
    {
      var clock := TimeFormats[t];
      TimedEntries(b, d, t);
      fmts := fmts + [ymd + (dts + clock)];
      fmts := fmts + [dmy + (dts + clock)];
    }
  }

  /** One pass of the separator loop: the block of fourteen formats of separator `b`. */
  method PushSeparatorFormats(fmts0: seq<string>, b: nat) returns (fmts: seq<string>)
    requires b < |Separators|
    requires |fmts0| == PerSeparator * b && fmts0 == FormatList()[..|fmts0|]
    ensures |fmts| == |fmts0| + PerSeparator && fmts == FormatList()[..|fmts|]
  {
    var sep := Separators[b];
    var ymd := DatePattern(sep, YearFirst);
    var dmy := DatePattern(sep, DayFirst);
    DateOnlyEntries(b);
    fmts := fmts0 + [ymd];
    fmts := fmts + [dmy];
    for d := 0 to |DateTimeSeparators|
      invariant |fmts| == |fmts0| + 2 + 6 * d && fmts == FormatList()[..|fmts|]
    {
      fmts := PushTimedFormats(fmts, b, d, ymd, dmy);
    }
  }

  /** The generator's push loops. */
  method BuildFormats() returns (fmts: seq<string>)
    ensures fmts == FormatList()
  {
    fmts := [];
    for b := 0 to |Separators|
      invariant |fmts| == PerSeparator * b && fmts == FormatList()[..|fmts|]
    {
      fmts := PushSeparatorFormats(fmts, b);
    }
  }
}
