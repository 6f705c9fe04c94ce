/**
 * Parsing one string cell as a date or a date-time: `normalize_spaces`
 * (trim, then collapse every whitespace run to one space) and
 * `try_parse_many` (the first candidate format chrono accepts decides the
 * milliseconds since the epoch).
 */
module DateTimeParsing {
  import opened Wrappers
  import opened Text
  import opened Values
  import opened Foreign

  /**
   * A normalised string: every whitespace character in it is a plain space
   * with a non-whitespace character on each side. In particular it neither
   * starts nor ends with whitespace and has no run of two.
   */
  ghost predicate IsNormal(s: string) {
    && (forall i :: 0 <= i < |s| && IsWhitespace(s[i]) ==> s[i] == ' ' && 0 < i < |s| - 1)
    && (forall i, j :: 0 <= i < j < |s| && j == i + 1 ==> !IsWhitespace(s[i]) || !IsWhitespace(s[j]))
  }

  /** `normalize_spaces`: the trimmed text, with its words re-joined by single spaces when it holds whitespace. */
  function NormalizeSpaces(input: string): string {
    var trimmed := Trim(input);
    if HasWhitespace(trimmed) then JoinSpaces(Words(trimmed)) else trimmed
  }

  /** Splicing two normal strings with one space keeps the result normal. */
  lemma NormalSplice(a: string, b: string)
    requires IsNormal(a) && IsNormal(b) && a != [] && b != []
    ensures IsNormal(a + " " + b)
  {
    var s := a + " " + b;
    assert !IsWhitespace(a[|a| - 1]);
    assert !IsWhitespace(b[0]);
    forall i | 0 <= i < |s| && IsWhitespace(s[i])
      ensures s[i] == ' ' && 0 < i < |s| - 1
    {
      if i < |a| {
        assert s[i] == a[i];
      } else if i > |a| {
        assert s[i] == b[i - |a| - 1];
      }
    }
    forall i, j | 0 <= i < j < |s| && j == i + 1
      ensures !IsWhitespace(s[i]) || !IsWhitespace(s[j])
    {
      if j < |a| {
        assert s[i] == a[i] && s[j] == a[j];
      } else if i > |a| {
        assert s[i] == b[i - |a| - 1] && s[j] == b[j - |a| - 1];
      }
    }
  }

  /** Joining non-empty whitespace-free words with single spaces gives a normal string. */
  lemma {:induction false} JoinSpacesNormal(ws: seq<string>)
    requires forall k :: 0 <= k < |ws| ==> ws[k] != [] && !HasWhitespace(ws[k])
    ensures IsNormal(JoinSpaces(ws))
    ensures ws != [] ==> JoinSpaces(ws) != []
  {
    if ws == [] {
    } else if |ws| == 1 {
      assert IsNormal(ws[0]) by {
        assert forall i :: 0 <= i < |ws[0]| ==> !IsWhitespace(ws[0][i]);
      }
    } else {
      JoinSpacesNormal(ws[1..]);
      assert IsNormal(ws[0]) by {
        assert forall i :: 0 <= i < |ws[0]| ==> !IsWhitespace(ws[0][i]);
      }
      NormalSplice(ws[0], JoinSpaces(ws[1..]));
    }
  }

  /** The output of `normalize_spaces` is normal. */
  lemma NormalizeSpacesIsNormal(input: string)
    ensures IsNormal(NormalizeSpaces(input))
  {
    var trimmed := Trim(input);
    if HasWhitespace(trimmed) {
      JoinSpacesNormal(Words(trimmed));
    } else {
      assert forall i :: 0 <= i < |trimmed| ==> !IsWhitespace(trimmed[i]);
    }
  }

  /** A normal string is its own trim. */
  lemma NormalTrim(s: string)
    requires IsNormal(s)
    ensures Trim(s) == s
  {
    LeadingWhitespaceSpec(s);
    assert LeadingWhitespace(s) == 0;
    assert TrimStart(s) == s;
    TrailingWhitespaceSpec(s);
    assert TrailingWhitespace(s) == 0;
  }

  /** In a normal string the first word is followed by one space and a normal, non-empty rest. */
  lemma NormalAfterFirstWord(s: string, k: nat)
    requires IsNormal(s) && k == WordLen(s) < |s|
    ensures s[k] == ' ' && k + 1 < |s| && IsNormal(s[k + 1..])
  {
    var rest := s[k + 1..];
    forall i | 0 <= i < |rest| && IsWhitespace(rest[i])
      ensures rest[i] == ' ' && 0 < i < |rest| - 1
    {
      assert rest[i] == s[k + 1 + i];
      assert rest[i - 1] == s[k + i];
    }
    forall i, j | 0 <= i < j < |rest| && j == i + 1
      ensures !IsWhitespace(rest[i]) || !IsWhitespace(rest[j])
    {
      assert rest[i] == s[k + 1 + i] && rest[j] == s[k + 1 + j];
    }
  }

  /** Splitting a normal string into words and joining them with spaces gives it back. */
  lemma {:induction false} NormalWordsJoin(s: string)
    requires IsNormal(s)
    ensures JoinSpaces(Words(s)) == s
    ensures s != [] ==> Words(s) != []
    decreases |s|
  {
    if s != [] {
      var k := WordLen(s);
      if k == |s| {
        SingleWord(s);
      } else {
        NormalAfterFirstWord(s, k);
        NormalWordsJoin(s[k + 1..]);
        WordsAfterFirstWord(s, k);
        JoinAfterFirstWord(s, k, Words(s[k + 1..]));
      }
    }
  }

  /** Text without whitespace is one word. */
  lemma SingleWord(s: string)
    requires s != [] && WordLen(s) == |s|
    ensures Words(s) == [s] && JoinSpaces(Words(s)) == s
  {
    assert s[..|s|] == s && s[|s|..] == [];
  }

  /** Past the first word and the space after it, the words are those of the rest. */
  lemma WordsAfterFirstWord(s: string, k: nat)
    requires s != [] && k == WordLen(s) < |s| && !IsWhitespace(s[0])
    ensures Words(s) == [s[..k]] + Words(s[k + 1..])
  {
    assert s[k..][1..] == s[k + 1..];
  }

  /** Joining the first word of `s` to words that join to the text after its space gives `s` back. */
  lemma JoinAfterFirstWord(s: string, k: nat, ws: seq<string>)
    requires k < |s| && s[k] == ' ' && ws != [] && JoinSpaces(ws) == s[k + 1..]
    ensures JoinSpaces([s[..k]] + ws) == s
  {
    JoinSpacesCons(s[..k], ws);
    assert s == s[..k] + " " + s[k + 1..];
  }

  lemma JoinSpacesCons(w: string, ws: seq<string>)
    requires ws != []
    ensures JoinSpaces([w] + ws) == w + " " + JoinSpaces(ws)
  {
    assert ([w] + ws)[1..] == ws;
  }

  /** `normalize_spaces` is idempotent. */
  lemma NormalizeSpacesIdempotent(input: string)
    ensures NormalizeSpaces(NormalizeSpaces(input)) == NormalizeSpaces(input)
  {
    var r := NormalizeSpaces(input);
    NormalizeSpacesIsNormal(input);
    NormalTrim(r);
    NormalWordsJoin(r);
  }

  /** Text without whitespace at its ends or inside comes back unchanged. */
  lemma NormalizeSpacesKeepsWords(input: string)
    requires !HasWhitespace(input)
    ensures NormalizeSpaces(input) == input
  {
    TrimSpec(input);
  }

  /** Milliseconds of a date-time as the intended arithmetic gives them: nanoseconds since the epoch, divided toward zero. */
  function TimedMs(dt: NaiveDateTime): (ms: int)
    ensures dt.subsecNanos == 0 ==> ms == dt.secs * 1000
    ensures dt.secs >= 0 && dt.subsecNanos < 1_000_000_000 ==> dt.secs * 1000 <= ms < dt.secs * 1000 + 1000
  {
    TruncDiv(dt.secs * 1_000_000_000 + dt.subsecNanos, 1_000_000)
  }

  /**
   * The date-time branch of `try_parse_many` as written: chrono's nanosecond
   * timestamp when it fits in `i64`, otherwise the fallback
   * `secs * 1_000_000_000`, which then wraps around (overflow checks off).
   */
  function TimedMsAsWritten(dt: NaiveDateTime): (ms: int)
    ensures InI64(dt.secs * 1_000_000_000 + dt.subsecNanos) ==> ms == TimedMs(dt)
  {
    var exact := dt.secs * 1_000_000_000 + dt.subsecNanos;
    var nanos := if InI64(exact) then exact else WrapI64(dt.secs * 1_000_000_000);
    TruncDiv(nanos, 1_000_000)
  }

  /** 1 January 3000, midnight: chrono has no `i64` nanosecond timestamp for it, and the fallback wraps to a date before 1970. */
  lemma FarFutureOverflow()
    ensures var dt := NaiveDateTime(32_503_680_000, 0);
      && !InI64(dt.secs * 1_000_000_000)
      && TimedMsAsWritten(dt) == -4_389_808_147_419
      && TimedMs(dt) == 32_503_680_000_000
  {
  }

  /** Midnight `days` after the epoch, read through the date-time branch, agrees with the date-only branch. */
  lemma TimedMsWholeSeconds(days: int)
    ensures TimedMs(NaiveDateTime(days * 86_400, 0)) == days * 86_400 * 1000
  {
  }

  /** One candidate format: `NaiveDateTime` when the format has an hour field, `NaiveDate` at midnight otherwise. */
  function ParseWith(s: string, f: string, p: Parsers): Option<int> {
    if Contains(f, "%H") then
      match p.parseDateTime(s, f)
      case Some(dt) => Some(TimedMs(dt))
      case None => None
    else
      match p.parseDate(s, f)
      case Some(days) => Some(days * 86_400 * 1000)
      case None => None
  }

  /** `try_parse_many`: the first format in list order that parses `s` decides the result. */
  function TryParseMany(s: string, fmts: seq<string>, p: Parsers): Option<int> {
    if fmts == [] then None
    else
      match ParseWith(s, fmts[0], p)
      case Some(ms) => Some(ms)
      case None => TryParseMany(s, fmts[1..], p)
  }

  /** The search fails exactly when no format parses, and succeeds with the first format that does. */
  lemma {:induction false} TryParseManyFirstMatch(s: string, fmts: seq<string>, p: Parsers)
    ensures TryParseMany(s, fmts, p).None? <==> forall i :: 0 <= i < |fmts| ==> ParseWith(s, fmts[i], p).None?
    ensures TryParseMany(s, fmts, p).Some? ==>
      exists i :: 0 <= i < |fmts| && TryParseMany(s, fmts, p) == ParseWith(s, fmts[i], p)
        && forall j :: 0 <= j < i ==> ParseWith(s, fmts[j], p).None?
  {
    if fmts != [] {
      TryParseManyFirstMatch(s, fmts[1..], p);
      if ParseWith(s, fmts[0], p).None? {
        assert forall i :: 1 <= i < |fmts| ==> fmts[i] == fmts[1..][i - 1];
        if TryParseMany(s, fmts, p).Some? {
          var i :| 0 <= i < |fmts[1..]| && TryParseMany(s, fmts[1..], p) == ParseWith(s, fmts[1..][i], p)
            && forall j :: 0 <= j < i ==> ParseWith(s, fmts[1..][j], p).None?;
          assert TryParseMany(s, fmts, p) == ParseWith(s, fmts[i + 1], p);
        }
      }
    }
  }
}
