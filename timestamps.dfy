/**
 * The timestamps the entities carry and the `format('Y-m-d H:i:s')` the
 * DTOs apply to them. `Parse` reads the 19-character form back; it is not
 * part of the application and serves as the formatter's inverse.
 */
module Timestamps {
  import opened Results

  function IsLeapYear(year: int): bool {
    year % 4 == 0 && (year % 100 != 0 || year % 400 == 0)
  }

  function DaysInMonth(year: int, month: int): (r: int)
    requires 1 <= month <= 12
    ensures 28 <= r <= 31
  {
    if month == 2 then (if IsLeapYear(year) then 29 else 28)
    else if month == 4 || month == 6 || month == 9 || month == 11 then 30
    else 31
  }

  /** The fields of a PHP `DateTime` that `Y-m-d H:i:s` shows (proleptic Gregorian, no zone). */
  datatype DateTimeFields = DateTimeFields(year: int, month: int, day: int, hour: int, minute: int, second: int) {
    predicate Valid() {
      && 1 <= month <= 12 && 1 <= day <= DaysInMonth(year, month)
      && 0 <= hour < 24 && 0 <= minute < 60 && 0 <= second < 60
    }
  }

  /** A PHP `DateTime` always denotes a real calendar date and time of day. */
  type DateTime = d: DateTimeFields | d.Valid() witness DateTimeFields(1970, 1, 1, 0, 0, 0)

  predicate IsDigit(c: char) {
    '0' <= c <= '9'
  }

  predicate AllDigits(s: string) {
    forall i :: 0 <= i < |s| ==> IsDigit(s[i])
  }

  predicate IsDigitField(s: string, width: nat) {
    |s| == width && AllDigits(s)
  }

  function DigitChar(d: nat): (c: char)
    requires d < 10
    ensures IsDigit(c) && c as int - '0' as int == d
  {
    ('0' as int + d) as char
  }

  /** The value of a string of decimal digits; "" reads as 0. */
  function DigitsValue(s: string): nat
    requires AllDigits(s)
  {
    if s == [] then 0 else DigitsValue(s[..|s| - 1]) * 10 + (s[|s| - 1] as int - '0' as int)
  }

  function Pow10(k: nat): nat {
    if k == 0 then 1 else 10 * Pow10(k - 1)
  }

  /** The shortest decimal representation of `n`, read back by `DigitsValue`. */
  function Decimal(n: nat): (r: string)
    ensures |r| >= 1 && AllDigits(r)
    ensures DigitsValue(r) == n
  {
    if n < 10 then [DigitChar(n)]
    else
      var r := Decimal(n / 10) + [DigitChar(n % 10)];
      assert r[..|r| - 1] == Decimal(n / 10);
      r
  }

  lemma {:induction false} DecimalWidth(n: nat, k: nat)
    requires 1 <= k && n < Pow10(k)
    ensures |Decimal(n)| <= k
  {
    if n >= 10 {
      DecimalWidth(n / 10, k - 1);
    }
  }

  function Zeros(k: nat): (r: string)
    ensures |r| == k && AllDigits(r) && DigitsValue(r) == 0
  {
    if k == 0 then []
    else
      var r := Zeros(k - 1) + ['0'];
      assert r[..|r| - 1] == Zeros(k - 1);
      r
  }

  /** Leading zeros do not change the value of a digit string. */
  lemma {:induction false} LeadingZeros(k: nat, s: string)
    requires AllDigits(s)
    ensures AllDigits(Zeros(k) + s) && DigitsValue(Zeros(k) + s) == DigitsValue(s)
  {
    if s != [] {
      var t := Zeros(k) + s;
      assert t[..|t| - 1] == Zeros(k) + s[..|s| - 1];
      LeadingZeros(k, s[..|s| - 1]);
    } else {
      assert Zeros(k) + s == Zeros(k);
    }
  }

  /** `sprintf('%0<width>d', n)`: the decimal digits of `n`, left-padded with zeros to `width`. */
  function ZeroPadded(n: nat, width: nat): (r: string)
    requires 1 <= width
    ensures AllDigits(r) && DigitsValue(r) == n
    ensures n < Pow10(width) ==> |r| == width
  {
    var d := Decimal(n);
    var r := if |d| < width then Zeros(width - |d|) + d else d;
    assert AllDigits(r) && DigitsValue(r) == n by {
      if |d| < width { LeadingZeros(width - |d|, d); }
    }
    assert n < Pow10(width) ==> |d| <= width by {
      if n < Pow10(width) { DecimalWidth(n, width); }
    }
    r
  }

  /** Two decimal digits with a leading zero, as the `m`, `d`, `H`, `i` and `s` format characters print. */
  function TwoDigits(n: nat): (r: string)
    requires n < 100
    ensures IsDigitField(r, 2) && DigitsValue(r) == n
  {
    var r := [DigitChar(n / 10), DigitChar(n % 10)];
    assert r[..1] == [DigitChar(n / 10)] && r[..1][..0] == [];
    assert DigitsValue(r[..1]) == n / 10;
    r
  }

  /** The `Y` format character: at least four digits, with '-' for years before year 0. */
  function FormatYear(year: int): (r: string)
    ensures year >= 0 ==> AllDigits(r) && DigitsValue(r) == year && |r| >= 4
    ensures year < 0 ==> |r| >= 5 && r[0] == '-' && AllDigits(r[1..]) && DigitsValue(r[1..]) == -year
    ensures 0 <= year < 10000 ==> |r| == 4
  {
    assert Pow10(4) == 10000;
    if year < 0 then
      var r := "-" + ZeroPadded(-year, 4);
      assert r[1..] == ZeroPadded(-year, 4);
      r
    else ZeroPadded(year, 4)
  }

  /** Six formatted fields joined by the separators of `Y-m-d H:i:s`. */
  function Joined(y: string, mo: string, da: string, h: string, mi: string, se: string): string {
    (y + "-" + mo + "-" + da) + " " + (h + ":" + mi + ":" + se)
  }

  /** `$dateTime->format('Y-m-d H:i:s')` */
  function Format(d: DateTime): (r: string)
    ensures 0 <= d.year < 10000 ==> IsTimestampShape(r)
  {
    var r := Joined(FormatYear(d.year), TwoDigits(d.month), TwoDigits(d.day),
                    TwoDigits(d.hour), TwoDigits(d.minute), TwoDigits(d.second));
    assert 0 <= d.year < 10000 ==> IsTimestampShape(r) by {
      if 0 <= d.year < 10000 {
        ParseJoined(FormatYear(d.year), TwoDigits(d.month), TwoDigits(d.day),
                    TwoDigits(d.hour), TwoDigits(d.minute), TwoDigits(d.second));
      }
    }
    r
  }

  /** The shape `YYYY-MM-DD HH:MM:SS`: digits with the separators at fixed positions. */
  predicate IsTimestampShape(s: string) {
    && |s| == 19 && s[4] == '-' && s[7] == '-' && s[10] == ' ' && s[13] == ':' && s[16] == ':'
    && AllDigits(s[0..4]) && AllDigits(s[5..7]) && AllDigits(s[8..10])
    && AllDigits(s[11..13]) && AllDigits(s[14..16]) && AllDigits(s[17..19])
  }

  function FieldsOf(s: string): DateTimeFields
    requires IsTimestampShape(s)
  {
    DateTimeFields(DigitsValue(s[0..4]), DigitsValue(s[5..7]), DigitsValue(s[8..10]),
                   DigitsValue(s[11..13]), DigitsValue(s[14..16]), DigitsValue(s[17..19]))
  }

  /** Reads back a `YYYY-MM-DD HH:MM:SS` string; `None` for any other shape or an impossible date. */
  function Parse(s: string): (r: Option<DateTime>)
    ensures r.Some? ==> IsTimestampShape(s)
  {
    if IsTimestampShape(s) && FieldsOf(s).Valid() then Some(FieldsOf(s)) else None
  }

  /**
   * For four-digit years the formatted timestamp is 19 characters with the
   * separators at fixed positions, and it determines the timestamp: parsing
   * it gives the timestamp back.
   */
  lemma ParseFormat(d: DateTime)
    requires 0 <= d.year < 10000
    ensures IsTimestampShape(Format(d))
    ensures Parse(Format(d)) == Some(d)
  {
    assert Pow10(4) == 10000;
    ParseJoined(ZeroPadded(d.year, 4), TwoDigits(d.month), TwoDigits(d.day),
                TwoDigits(d.hour), TwoDigits(d.minute), TwoDigits(d.second));
  }

  /** `Parse` on six digit fields joined by the `Y-m-d H:i:s` separators. */
  lemma ParseJoined(y: string, mo: string, da: string, h: string, mi: string, se: string)
    requires IsDigitField(y, 4) && IsDigitField(mo, 2) && IsDigitField(da, 2)
    requires IsDigitField(h, 2) && IsDigitField(mi, 2) && IsDigitField(se, 2)
    ensures IsTimestampShape(Joined(y, mo, da, h, mi, se))
    ensures FieldsOf(Joined(y, mo, da, h, mi, se))
      == DateTimeFields(DigitsValue(y), DigitsValue(mo), DigitsValue(da), DigitsValue(h), DigitsValue(mi), DigitsValue(se))
  {
    var date: string := y + "-" + mo + "-" + da;
    var time: string := h + ":" + mi + ":" + se;
    var s := Joined(y, mo, da, h, mi, se);
    FieldsAt(y, '-', mo, '-', da);
    FieldsAt(h, ':', mi, ':', se);
    assert s[..10] == date && s[10] == ' ' && s[11..] == time;
    assert s[0..4] == y;
    assert s[5..7] == mo;
    assert s[8..10] == da;
    assert s[11..13] == h;
    assert s[14..16] == mi;
    assert s[17..19] == se;
  }

  /** Where the three fields of `a + [p] + b + [q] + c` lie, for a field `a` of any width and two-wide `b`, `c`. */
  lemma FieldsAt(a: string, p: char, b: string, q: char, c: string)
    requires |b| == 2 && |c| == 2
    ensures var s := a + [p] + b + [q] + c; var n := |a|;
      |s| == n + 6 && s[..n] == a && s[n] == p && s[n + 1..n + 3] == b && s[n + 3] == q && s[n + 4..] == c
  {
  }

  /** Two timestamps with four-digit years format alike only if they are equal. */
  lemma FormatInjective(d: DateTime, e: DateTime)
    requires 0 <= d.year < 10000 && 0 <= e.year < 10000
    requires Format(d) == Format(e)
    ensures d == e
  {
    ParseFormat(d);
    ParseFormat(e);
  }
}
