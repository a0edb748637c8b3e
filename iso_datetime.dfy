/**
 * Naive datetimes and their ISO 8601 text, as produced by `datetime.isoformat`
 * and read back by `datetime.fromisoformat`.
 */
module IsoDateTime {
  import opened Wrappers

  /** The fields of a naive `datetime` (no time zone). */
  datatype Stamp = Stamp(year: int, month: int, day: int,
                         hour: int, minute: int, second: int, microsecond: int)

  predicate IsLeapYear(y: int) {
    y % 4 == 0 && (y % 100 != 0 || y % 400 == 0)
  }

  function DaysInMonth(y: int, m: int): int {
    if m == 2 then (if IsLeapYear(y) then 29 else 28)
    else if m == 4 || m == 6 || m == 9 || m == 11 then 30
    else 31
  }

  /** The ranges `datetime` enforces (MINYEAR = 1, MAXYEAR = 9999). */
  predicate ValidStamp(s: Stamp) {
    && 1 <= s.year <= 9999
    && 1 <= s.month <= 12
    && 1 <= s.day <= DaysInMonth(s.year, s.month)
    && 0 <= s.hour < 24
    && 0 <= s.minute < 60
    && 0 <= s.second < 60
    && 0 <= s.microsecond < 1000000
  }

  /** A value of Python's `datetime` type. */
  type DateTime = s: Stamp | ValidStamp(s) witness Stamp(1, 1, 1, 0, 0, 0, 0)

  // ---------------------------------------------------------------- digits

  function Pow10(w: nat): nat {
    if w == 0 then 1 else 10 * Pow10(w - 1)
  }

  predicate IsDigit(c: char) {
    '0' <= c <= '9'
  }

  predicate AllDigits(s: string) {
    forall i :: 0 <= i < |s| ==> IsDigit(s[i])
  }

  function DigitChar(d: nat): (c: char)
    requires d < 10
    ensures IsDigit(c) && c as int - '0' as int == d
  {
    ('0' as int + d) as char
  }

  /** The last `w` decimal digits of `n`, zero-padded (`%0wd` for `n < 10^w`). */
  function Digits(n: nat, w: nat): (s: string)
    ensures |s| == w
  {
    if w == 0 then "" else Digits(n / 10, w - 1) + [DigitChar(n % 10)]
  }

  lemma {:induction false} DigitsAreDigits(n: nat, w: nat)
    ensures AllDigits(Digits(n, w))
  {
    if w > 0 {
      DigitsAreDigits(n / 10, w - 1);
    }
  }

  /** The number a string of decimal digits denotes (`int(s)`). */
  function DigitsValue(s: string): nat
    requires AllDigits(s)
  {
    if s == [] then 0
    else 10 * DigitsValue(s[..|s| - 1]) + (s[|s| - 1] as int - '0' as int)
  }

  lemma {:induction false} DigitsRoundTrip(n: nat, w: nat)
    requires n < Pow10(w)
    ensures AllDigits(Digits(n, w)) && DigitsValue(Digits(n, w)) == n
  {
    DigitsAreDigits(n, w);
    if w > 0 {
      var s := Digits(n, w);
      assert s[..|s| - 1] == Digits(n / 10, w - 1);
      DigitsRoundTrip(n / 10, w - 1);
    }
  }

  // ------------------------------------------------------ fixed-width layouts

  /** One piece of a fixed-width text layout. */
  datatype Piece =
    | Field(width: nat)  // a number written in exactly `width` decimal digits
    | Char(c: char)      // this character
    | Sep                // the caller's separator character

  /** A layout: pieces written left to right. */
  datatype Layout = Done | Then(piece: Piece, rest: Layout)

  /** How many numbers a layout holds. */
  function FieldCount(p: Layout): nat {
    match p
    case Done => 0
    case Then(x, rest) => (if x.Field? then 1 else 0) + FieldCount(rest)
  }

  /** How many characters a layout takes. */
  function Width(p: Layout): nat {
    match p
    case Done => 0
    case Then(x, rest) => (if x.Field? then x.width else 1) + Width(rest)
  }

  /** The number of digits of the `i`-th field of a layout. */
  function FieldWidth(p: Layout, i: nat): nat
    requires i < FieldCount(p)
  {
    match p
    case Then(x, rest) =>
      if x.Field? && i == 0 then x.width
      else FieldWidth(rest, if x.Field? then i - 1 else i)
  }

  /** Every number fits in the digits its field has. */
  predicate Fits(p: Layout, vals: seq<nat>)
    requires |vals| == FieldCount(p)
  {
    forall i :: 0 <= i < |vals| ==> vals[i] < Pow10(FieldWidth(p, i))
  }

  /** `vals` written out by layout `p`, with `sep` wherever the layout has a separator. */
  function Render(p: Layout, vals: seq<nat>, sep: char): (s: string)
    requires |vals| == FieldCount(p)
    ensures |s| == Width(p)
  {
    match p
    case Done => ""
    case Then(Field(w), rest) => Digits(vals[0], w) + Render(rest, vals[1..], sep)
    case Then(Char(c), rest) => [c] + Render(rest, vals, sep)
    case Then(Sep, rest) => [sep] + Render(rest, vals, sep)
  }

  /** The numbers of `s` read by layout `p`; any character matches a separator. */
  function Parse(p: Layout, s: string): (r: Option<seq<nat>>)
    ensures r.Some? ==> |r.value| == FieldCount(p) && |s| == Width(p)
  {
    match p
    case Done => if s == [] then Some([]) else None
    case Then(Field(w), rest) =>
      if |s| < w || !AllDigits(s[..w]) then None
      else (match Parse(rest, s[w..])
            case None => None
            case Some(vs) => Some([DigitsValue(s[..w])] + vs))
    case Then(Char(c), rest) => if |s| == 0 || s[0] != c then None else Parse(rest, s[1..])
    case Then(Sep, rest) => if |s| == 0 then None else Parse(rest, s[1..])
  }

  /** Reading back what a layout rendered gives the numbers it was given. */
  lemma {:induction false} ParseRender(p: Layout, vals: seq<nat>, sep: char)
    requires |vals| == FieldCount(p) && Fits(p, vals)
    ensures Parse(p, Render(p, vals, sep)) == Some(vals)
  {
    match p
    case Done =>
    case Then(Field(w), rest) =>
      var tail := Render(rest, vals[1..], sep);
      var s := Digits(vals[0], w) + tail;
      assert s[..w] == Digits(vals[0], w) && s[w..] == tail;
      assert FieldWidth(p, 0) == w;
      DigitsRoundTrip(vals[0], w);
      assert forall i :: 0 <= i < |vals| - 1 ==> FieldWidth(rest, i) == FieldWidth(p, i + 1);
      ParseRender(rest, vals[1..], sep);
      assert [vals[0]] + vals[1..] == vals;
    case Then(Char(c), rest) =>
      var s := [c] + Render(rest, vals, sep);
      assert s[1..] == Render(rest, vals, sep);
      ParseRender(rest, vals, sep);
    case Then(Sep, rest) =>
      var s := [sep] + Render(rest, vals, sep);
      assert s[1..] == Render(rest, vals, sep);
      ParseRender(rest, vals, sep);
  }

  // ---------------------------------------------------------- ISO 8601 text

  /** `YYYY-MM-DD?HH:MM:SS`, followed by `.ffffff` when `fraction` holds. */
  function IsoLayout(fraction: bool): (p: Layout)
    ensures FieldCount(p) == if fraction then 7 else 6
    ensures Width(p) == if fraction then 26 else 19
  {
    if fraction then
      Then(Field(4), Then(Char('-'), Then(Field(2), Then(Char('-'), Then(Field(2), Then(Sep,
      Then(Field(2), Then(Char(':'), Then(Field(2), Then(Char(':'), Then(Field(2),
      Then(Char('.'), Then(Field(6), Done)))))))))))))
    else
      Then(Field(4), Then(Char('-'), Then(Field(2), Then(Char('-'), Then(Field(2), Then(Sep,
      Then(Field(2), Then(Char(':'), Then(Field(2), Then(Char(':'), Then(Field(2), Done)))))))))))
  }

  /** The numbers `isoformat` writes: the fraction only when it is not zero. */
  function IsoFields(t: DateTime): (v: seq<nat>)
    ensures |v| == if t.microsecond == 0 then 6 else 7
  {
    [t.year, t.month, t.day, t.hour, t.minute, t.second]
      + (if t.microsecond == 0 then [] else [t.microsecond])
  }

  /** `t.isoformat(sep)` */
  function IsoFormat(t: DateTime, sep: char): (s: string)
    ensures |s| == if t.microsecond == 0 then 19 else 26
  {
    Render(IsoLayout(t.microsecond != 0), IsoFields(t), sep)
  }

  /**
   * `datetime.fromisoformat(s)`; None stands for the ValueError it raises.
   * The separator at index 10 may be any character.
   */
  function FromIsoFormat(s: string): (r: Option<DateTime>)
    ensures r.Some? ==> |s| == 19 || |s| == 26
  {
    var fraction := |s| != 19;
    match Parse(IsoLayout(fraction), s)
    case None => None
    case Some(v) =>
      var st := Stamp(v[0], v[1], v[2], v[3], v[4], v[5], if fraction then v[6] else 0);
      if ValidStamp(st) then Some(st) else None
  }

  /** The property the storage round trip rests on: `fromisoformat(d.isoformat(sep)) == d`. */
  lemma IsoRoundTrip(t: DateTime, sep: char)
    ensures FromIsoFormat(IsoFormat(t, sep)) == Some(t)
  {
    var p, v := IsoLayout(t.microsecond != 0), IsoFields(t);
    assert Pow10(2) == 100 && Pow10(4) == 10000 && Pow10(6) == 1000000;
    ParseRender(p, v, sep);
  }
}
