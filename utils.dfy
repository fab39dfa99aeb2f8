/**
 * Identifier and date normalisation (`sanitize_mc`, `date_only`), shared by
 * the layered services and, as verbatim copies, by the handler.
 */
module Utils {
  import opened Py

  // ---------------------------------------------------------------------
  // sanitize_mc
  // ---------------------------------------------------------------------

  /** The digit characters of `s`, in order: what `re.sub(r"[^0-9]", "", s)` leaves. */
  function Digits(s: string): (r: string)
    ensures |r| <= |s|
    ensures forall i :: 0 <= i < |r| ==> IsDigit(r[i])
  {
    if s == [] then [] else (if IsDigit(s[0]) then [s[0]] else []) + Digits(s[1..])
  }

  /** `sanitize_mc(mc)`: `re.sub(r"[^0-9]", "", str(mc or ""))`. */
  function SanitizeMc(mc: Json): (r: string)
    requires IsScalar(mc)
    ensures forall i :: 0 <= i < |r| ==> IsDigit(r[i])
    ensures !Truthy(mc) ==> r == ""
    ensures mc.JStr? ==> r == Digits(mc.s)
  {
    Digits(Str(Or(mc, JStr(""))))
  }

  /** Filtering distributes over concatenation: digits keep their relative order. */
  lemma {:induction false} DigitsAppend(a: string, b: string)
    ensures Digits(a + b) == Digits(a) + Digits(b)
  {
    if a == [] {
      assert a + b == b;
    } else {
      var t := a + b;
      assert t[0] == a[0] && t[1..] == a[1..] + b;
      DigitsAppend(a[1..], b);
      var head := if IsDigit(a[0]) then [a[0]] else [];
      var rest, tail := Digits(a[1..]), Digits(b);
      assert Digits(t) == head + (rest + tail);
      assert head + (rest + tail) == (head + rest) + tail;
    }
  }

  /** A digit at position `i` survives, right after the digits that precede it. */
  lemma DigitsKeepsEachDigit(s: string, i: nat)
    requires i < |s| && IsDigit(s[i])
    ensures Digits(s) == Digits(s[..i]) + [s[i]] + Digits(s[i + 1..])
  {
    var t := s[i..];
    assert s[..i] + t == s;
    DigitsAppend(s[..i], t);
    assert t[0] == s[i] && t[1..] == s[i + 1..];
    var before, after := Digits(s[..i]), Digits(s[i + 1..]);
    assert Digits(t) == [s[i]] + after;
    assert before + ([s[i]] + after) == before + [s[i]] + after;
  }

  /** A string made only of digits is left as it is. */
  lemma {:induction false} DigitsOfDigitString(s: string)
    requires forall i :: 0 <= i < |s| ==> IsDigit(s[i])
    ensures Digits(s) == s
  {
    if s != [] {
      DigitsOfDigitString(s[1..]);
    }
  }

  /** sanitize_mc is idempotent. */
  lemma SanitizeMcIdempotent(mc: Json)
    requires IsScalar(mc)
    ensures SanitizeMc(JStr(SanitizeMc(mc))) == SanitizeMc(mc)
  {
    DigitsOfDigitString(SanitizeMc(mc));
  }

  // ---------------------------------------------------------------------
  // date_only
  // ---------------------------------------------------------------------

  /** `s.replace("Z", "")`: every `Z`, not only a trailing one, is removed. */
  function RemoveZ(s: string): (r: string)
    ensures 'Z' !in r
    ensures |r| <= |s|
  {
    if s == [] then [] else (if s[0] == 'Z' then [] else [s[0]]) + RemoveZ(s[1..])
  }

  lemma {:induction false} RemoveZKeepsOtherText(s: string)
    requires 'Z' !in s
    ensures RemoveZ(s) == s
  {
    if s != [] {
      RemoveZKeepsOtherText(s[1..]);
    }
  }

  predicate IsLeap(y: int) {
    y % 4 == 0 && (y % 100 != 0 || y % 400 == 0)
  }

  function DaysInMonth(y: int, m: int): int
    requires 1 <= m <= 12
  {
    if m == 2 then (if IsLeap(y) then 29 else 28)
    else if m == 4 || m == 6 || m == 9 || m == 11 then 30
    else 31
  }

  datatype Ymd = Ymd(year: int, month: int, day: int)

  /** A `datetime.date` value: years 1 to 9999, real calendar days. */
  predicate IsCalendarDate(d: Ymd) {
    1 <= d.year <= 9999 && 1 <= d.month <= 12 && 1 <= d.day <= DaysInMonth(d.year, d.month)
  }

  type CalendarDate = d: Ymd | IsCalendarDate(d) witness Ymd(1, 1, 1)

  /**
   * `datetime.fromisoformat(t).date()`: a partial parser; a failure stands
   * for the exception that sends `date_only` to its regex fallback.
   */
  type IsoParser = string -> Option<CalendarDate>

  /** Shape of `\d{4}-\d{2}-\d{2}`. */
  predicate DateShaped(w: string) {
    |w| == 10 && w[4] == '-' && w[7] == '-'
    && forall i :: 0 <= i < 10 && i != 4 && i != 7 ==> IsDigit(w[i])
  }

  /** `\d{4}-\d{2}-\d{2}` matches `t` at position `j`. */
  predicate DateAt(t: string, j: int) {
    0 <= j && j + 10 <= |t| && DateShaped(t[j..j + 10])
  }

  /** `n` in exactly `width` decimal digits, zero padded (`%0*d`). */
  function Pad(n: nat, width: nat): (r: string)
    ensures |r| == width
    ensures forall i :: 0 <= i < width ==> IsDigit(r[i])
  {
    if width == 0 then [] else Pad(n / 10, width - 1) + [DigitChar(n % 10)]
  }

  /** `date.isoformat()`. */
  function IsoFormat(d: CalendarDate): (r: string)
    ensures DateShaped(r)
  {
    Pad(d.year, 4) + "-" + Pad(d.month, 2) + "-" + Pad(d.day, 2)
  }

  function Pow10(k: nat): nat {
    if k == 0 then 1 else 10 * Pow10(k - 1)
  }

  function DigitValue(c: char): nat
    requires IsDigit(c)
  {
    c as int - '0' as int
  }

  /** The number a string of decimal digits denotes. */
  function DecimalValue(s: string): nat
    requires forall i :: 0 <= i < |s| ==> IsDigit(s[i])
  {
    if s == [] then 0 else 10 * DecimalValue(s[..|s| - 1]) + DigitValue(s[|s| - 1])
  }

  /** Reads the date back out of a `YYYY-MM-DD` string. */
  function ParseYmd(w: string): Ymd
    requires DateShaped(w)
  {
    Ymd(DecimalValue(w[0..4]), DecimalValue(w[5..7]), DecimalValue(w[8..10]))
  }

  lemma {:induction false} PadValue(n: nat, width: nat)
    requires n < Pow10(width)
    ensures DecimalValue(Pad(n, width)) == n
  {
    if width > 0 {
      PadValue(n / 10, width - 1);
      var p := Pad(n, width);
      assert p[..|p| - 1] == Pad(n / 10, width - 1);
    }
  }

  /** `date.isoformat()` loses nothing: the date can be read back. */
  lemma IsoFormatRoundTrip(d: CalendarDate)
    ensures ParseYmd(IsoFormat(d)) == d
  {
    var w := IsoFormat(d);
    PadValue(d.year, 4);
    PadValue(d.month, 2);
    PadValue(d.day, 2);
    assert w[0..4] == Pad(d.year, 4);
    assert w[5..7] == Pad(d.month, 2);
    assert w[8..10] == Pad(d.day, 2);
  }

  /** Leftmost position at or after `from` where the date pattern matches. */
  function DateIndex(t: string, from: nat): (r: Option<nat>)
    decreases |t| - from
    ensures r.Some? ==> from <= r.value && DateAt(t, r.value)
    ensures r.Some? ==> forall j :: from <= j < r.value ==> !DateAt(t, j)
    ensures r.None? ==> forall j :: from <= j ==> !DateAt(t, j)
  {
    if from + 10 > |t| then None
    else if DateShaped(t[from..from + 10]) then Some(from)
    else DateIndex(t, from + 1)
  }

  /** `re.search(r"(\d{4}-\d{2}-\d{2})", t)`, group 1. */
  function FindDate(t: string): Option<string> {
    match DateIndex(t, 0)
    case Some(i) => Some(t[i..i + 10])
    case None => None
  }

  /**
   * `date_only(v)`: `fromisoformat(str(v).replace("Z", "")).date().isoformat()`,
   * or, when that raises, the first `YYYY-MM-DD` in `str(v or "")`.
   */
  function DateOnly(iso: IsoParser, v: Json): (r: Option<string>)
    requires IsScalar(v)
    ensures r.Some? ==> DateShaped(r.value)
  {
    match iso(RemoveZ(Str(v)))
    case Some(d) => Some(IsoFormat(d))
    case None => FindDate(Str(Or(v, JStr(""))))
  }

  /**
   * The fallback returns the leftmost `YYYY-MM-DD` of the original text,
   * whether or not it names a real day.
   */
  lemma DateOnlyFallbackIsLeftmost(iso: IsoParser, s: string, i: nat)
    requires iso(RemoveZ(s)) == None
    requires DateAt(s, i) && forall j :: 0 <= j < i ==> !DateAt(s, j)
    ensures DateOnly(iso, JStr(s)) == Some(s[i..i + 10])
  {
    assert Or(JStr(s), JStr("")) == JStr(s);
    var r := DateIndex(s, 0);
    assert r.Some? && r.value == i;
    assert FindDate(s) == Some(s[i..i + 10]);
  }

  /** When neither the parse nor the pattern succeeds, there is no date. */
  lemma DateOnlyAbsent(iso: IsoParser, s: string)
    requires iso(RemoveZ(s)) == None
    requires forall j :: 0 <= j ==> !DateAt(s, j)
    ensures DateOnly(iso, JStr(s)) == None
  {
  }

  /** `date_only(None)`: `str(None)` is "None", which the parser rejects, and `None or ""` is empty. */
  lemma DateOnlyOfNone(iso: IsoParser)
    requires iso("None") == None
    ensures DateOnly(iso, JNull) == None
  {
    assert RemoveZ("None") == "None" by { RemoveZKeepsOtherText("None"); }
  }

  /**
   * Text shaped like `YYYY-MM-DD` that the parser rejects (a month 13, a
   * day 45) still comes back, unchanged, from the fallback.
   */
  lemma DateOnlyKeepsImpossibleDate(iso: IsoParser, w: string)
    requires DateShaped(w) && iso(w) == None
    ensures DateOnly(iso, JStr(w)) == Some(w)
  {
    DateShapedHasNoZ(w);
    RemoveZKeepsOtherText(w);
    assert w[0..10] == w;
    DateOnlyFallbackIsLeftmost(iso, w, 0);
  }

  /** The parser is only ever shown text with every `Z` removed. */
  lemma DateOnlyParsesWithoutZ(iso1: IsoParser, iso2: IsoParser, v: Json)
    requires IsScalar(v)
    requires forall t :: 'Z' !in t ==> iso1(t) == iso2(t)
    ensures DateOnly(iso1, v) == DateOnly(iso2, v)
  {
  }

  /**
   * What `fromisoformat` does with text that already looks like
   * `YYYY-MM-DD`: reject it, or return that very day.
   */
  ghost predicate AgreesOnPlainDates(iso: IsoParser) {
    forall w :: DateShaped(w) ==> iso(w).None? || IsoFormat(iso(w).value) == w
  }

  lemma DateShapedHasNoZ(w: string)
    requires DateShaped(w)
    ensures 'Z' !in w
  {
    forall i | 0 <= i < |w|
      ensures w[i] != 'Z'
    {
      assert i == 4 || i == 7 || IsDigit(w[i]);
    }
  }

  /** date_only is idempotent on what it returns. */
  lemma DateOnlyIdempotent(iso: IsoParser, v: Json)
    requires IsScalar(v) && AgreesOnPlainDates(iso)
    requires DateOnly(iso, v).Some?
    ensures DateOnly(iso, JStr(DateOnly(iso, v).value)) == DateOnly(iso, v)
  {
    DateOnlyOfPlainDate(iso, DateOnly(iso, v).value);
  }

  /** Under such a parser, a plain `YYYY-MM-DD` text comes back as itself. */
  lemma DateOnlyOfPlainDate(iso: IsoParser, w: string)
    requires DateShaped(w) && AgreesOnPlainDates(iso)
    ensures DateOnly(iso, JStr(w)) == Some(w)
  {
    match iso(w)
    case None =>
      DateOnlyKeepsImpossibleDate(iso, w);
    case Some(d) =>
      DateShapedHasNoZ(w);
      RemoveZKeepsOtherText(w);
      assert IsoFormat(d) == w;
  }
}
