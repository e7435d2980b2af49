/** Calendar date-times at one-second resolution, the `YYYY-MM-DD` and
    `YYYY-MM-DD HH:MM:SS` text forms the server reads and writes, and the
    chronological order the date filter compares with. */
module DateTimes {
  import opened Wrappers

  /** A naive (time-zone free) date-time, like Python's `datetime`. */
  datatype DateTime = DateTime(year: int, month: int, day: int, hour: int, minute: int, second: int)

  /** Gregorian leap years. */
  predicate IsLeapYear(y: int)
  {
    y % 4 == 0 && (y % 100 != 0 || y % 400 == 0)
  }

  function DaysInMonth(y: int, m: int): int
    requires 1 <= m <= 12
  {
    if m == 2 then (if IsLeapYear(y) then 29 else 28)
    else if m == 4 || m == 6 || m == 9 || m == 11 then 30
    else 31
  }

  /** A calendar day Python's `datetime` can represent (years 1 to 9999). */
  predicate ValidDate(y: int, m: int, d: int)
  {
    1 <= y <= 9999 && 1 <= m <= 12 && 1 <= d <= DaysInMonth(y, m)
  }

  predicate Valid(t: DateTime)
  {
    && ValidDate(t.year, t.month, t.day)
    && 0 <= t.hour <= 23 && 0 <= t.minute <= 59 && 0 <= t.second <= 59
  }

  predicate IsMidnight(t: DateTime)
  {
    t.hour == 0 && t.minute == 0 && t.second == 0
  }

  /** `a <= b` in time: the fields compared most significant first. */
  predicate NotAfter(a: DateTime, b: DateTime)
  {
    if a.year != b.year then a.year < b.year
    else if a.month != b.month then a.month < b.month
    else if a.day != b.day then a.day < b.day
    else if a.hour != b.hour then a.hour < b.hour
    else if a.minute != b.minute then a.minute < b.minute
    else a.second <= b.second
  }

  /** `NotAfter` is a total order on date-times, so the range test
      `start <= t <= end` means what it says. */
  lemma NotAfterIsTotalOrder(a: DateTime, b: DateTime, c: DateTime)
    ensures NotAfter(a, a)
    ensures NotAfter(a, b) || NotAfter(b, a)
    ensures NotAfter(a, b) && NotAfter(b, a) ==> a == b
    ensures NotAfter(a, b) && NotAfter(b, c) ==> NotAfter(a, c)
  {
  }

  // ---------------------------------------------------------------------
  // Fixed-width decimal fields

  predicate IsDigit(c: char)
  {
    '0' <= c <= '9'
  }

  predicate AllDigits(s: string)
  {
    forall i :: 0 <= i < |s| ==> IsDigit(s[i])
  }

  function Pow10(n: nat): nat
  {
    if n == 0 then 1 else 10 * Pow10(n - 1)
  }

  /** The number a string of decimal digits spells. */
  function DecodeDigits(s: string): (n: nat)
    requires AllDigits(s)
    ensures n < Pow10(|s|)
    decreases |s|
  {
    if |s| == 0 then 0
    else DecodeDigits(s[..|s| - 1]) * 10 + (s[|s| - 1] as int - '0' as int)
  }

  /** `n` written in exactly `width` digits, with leading zeros. */
  function EncodeDigits(n: nat, width: nat): (s: string)
    ensures |s| == width && AllDigits(s)
  {
    if width == 0 then []
    else EncodeDigits(n / 10, width - 1) + [('0' as int + n % 10) as char]
  }

  /** Encoding a number that fits the width and decoding it gives it back. */
  lemma {:induction false} DecodeEncode(n: nat, width: nat)
    requires n < Pow10(width)
    ensures DecodeDigits(EncodeDigits(n, width)) == n
  {
    if width > 0 {
      var s := EncodeDigits(n, width);
      DecodeEncode(n / 10, width - 1);
      assert s[..|s| - 1] == EncodeDigits(n / 10, width - 1);
    }
  }

  /** A digit string is the padded encoding of its own value. */
  lemma {:induction false} EncodeDecode(s: string)
    requires AllDigits(s)
    ensures EncodeDigits(DecodeDigits(s), |s|) == s
    decreases |s|
  {
    if |s| > 0 {
      var init := s[..|s| - 1];
      var d := s[|s| - 1] as int - '0' as int;
      AppendDigit(DecodeDigits(init), d);
      EncodeDecode(init);
      assert s == init + [s[|s| - 1]];
    }
  }

  /** Appending decimal digit `d` to `a` and splitting it off again. */
  lemma AppendDigit(a: nat, d: int)
    requires 0 <= d < 10
    ensures (a * 10 + d) / 10 == a && (a * 10 + d) % 10 == d
  {
  }

  // ---------------------------------------------------------------------
  // Text forms

  /** Three fields with a separator character after the first two, as in
      `2024-03-05` and `13:45:00`. */
  function Join3(a: string, x: char, b: string, y: char, c: string): string
  {
    a + [x] + b + [y] + c
  }

  /** Where the pieces of `Join3` sit in its result. */
  lemma Join3Layout(a: string, x: char, b: string, y: char, c: string)
    ensures var s := Join3(a, x, b, y, c);
            && s[..|a|] == a && s[|a|] == x && s[|a| + 1..|a| + 1 + |b|] == b
            && s[|a| + 1 + |b|] == y && s[|a| + 2 + |b|..] == c
  {
    var s := Join3(a, x, b, y, c);
    assert s == a + ([x] + b + [y] + c);
    assert s[|a|..] == [x] + b + [y] + c;
    assert s[|a| + 1..] == b + ([y] + c);
  }

  /** Cutting a string at two separator positions and joining the pieces
      gives it back. */
  lemma Join3Split(s: string, i: nat, j: nat)
    requires i < j < |s|
    ensures Join3(s[..i], s[i], s[i + 1..j], s[j], s[j + 1..]) == s
  {
  }

  /** Three fixed-width digit fields with the given separators. */
  predicate Shaped(s: string, sep: char, w: nat)
  {
    |s| == w + 6 && s[w] == sep && s[w + 3] == sep
    && AllDigits(s[..w]) && AllDigits(s[w + 1..w + 3]) && AllDigits(s[w + 4..])
  }

  /** The three numbers of a `Shaped` string. */
  function Fields(s: string, sep: char, w: nat): (int, int, int)
    requires Shaped(s, sep, w)
  {
    (DecodeDigits(s[..w]), DecodeDigits(s[w + 1..w + 3]), DecodeDigits(s[w + 4..]))
  }

  /** `n1 sep n2 sep n3` with `n1` in `w` digits and the others in two. */
  function Unfields(n1: nat, n2: nat, n3: nat, sep: char, w: nat): string
  {
    Join3(EncodeDigits(n1, w), sep, EncodeDigits(n2, 2), sep, EncodeDigits(n3, 2))
  }

  /** Printing three numbers that fit their widths and reading them back
      gives the same numbers. */
  lemma FieldsUnfields(n1: nat, n2: nat, n3: nat, sep: char, w: nat)
    requires n1 < Pow10(w) && n2 < 100 && n3 < 100
    ensures Shaped(Unfields(n1, n2, n3, sep, w), sep, w)
    ensures Fields(Unfields(n1, n2, n3, sep, w), sep, w) == (n1, n2, n3)
  {
    Join3Layout(EncodeDigits(n1, w), sep, EncodeDigits(n2, 2), sep, EncodeDigits(n3, 2));
    DecodeEncode(n1, w);
    DecodeEncode(n2, 2);
    DecodeEncode(n3, 2);
  }

  /** A `Shaped` string is the printing of its own fields. */
  lemma UnfieldsFields(s: string, sep: char, w: nat)
    requires Shaped(s, sep, w)
    ensures var (n1, n2, n3) := Fields(s, sep, w); Unfields(n1, n2, n3, sep, w) == s
  {
    EncodeDecode(s[..w]);
    EncodeDecode(s[w + 1..w + 3]);
    EncodeDecode(s[w + 4..]);
    Join3Split(s, w, w + 3);
  }

  /** `strptime(s, "%Y-%m-%d")` read strictly: four-digit year, two-digit
      month and day, and a day that exists. The result is midnight of that
      day. */
  function ParseDate(s: string): (r: Option<DateTime>)
    ensures r.Some? ==> Valid(r.value) && IsMidnight(r.value)
  {
    if Shaped(s, '-', 4) then
      var (y, m, d) := Fields(s, '-', 4);
      if ValidDate(y, m, d) then Some(DateTime(y, m, d, 0, 0, 0)) else None
    else None
  }

  /** The clock part `HH:MM:SS` read strictly. */
  function ParseTime(s: string): Option<(int, int, int)>
  {
    if Shaped(s, ':', 2) then
      var (h, mi, sec) := Fields(s, ':', 2);
      if h <= 23 && mi <= 59 && sec <= 59 then Some((h, mi, sec)) else None
    else None
  }

  /** `strptime(s, "%Y-%m-%d %H:%M:%S")` read strictly. */
  function ParseTimestamp(s: string): (r: Option<DateTime>)
    ensures r.Some? ==> Valid(r.value)
  {
    if |s| == 19 && s[10] == ' ' then
      match (ParseDate(s[..10]), ParseTime(s[11..]))
      case (Some(day), Some((h, mi, sec))) => Some(day.(hour := h, minute := mi, second := sec))
      case _ => None
    else None
  }

  /** `strftime("%Y-%m-%d")`. */
  function FormatDate(t: DateTime): (s: string)
    requires Valid(t)
  {
    Unfields(t.year, t.month, t.day, '-', 4)
  }

  function FormatTime(t: DateTime): (s: string)
    requires Valid(t)
  {
    Unfields(t.hour, t.minute, t.second, ':', 2)
  }

  /** `strftime("%Y-%m-%d %H:%M:%S")`, the form the server stamps new
      reviews with. */
  function FormatTimestamp(t: DateTime): (s: string)
    requires Valid(t)
  {
    FormatDate(t) + " " + FormatTime(t)
  }

  /** Reading back a written date gives the same day. */
  lemma ParseFormatDate(t: DateTime)
    requires Valid(t)
    ensures ParseDate(FormatDate(t)) == Some(t.(hour := 0, minute := 0, second := 0))
  {
    FieldsUnfields(t.year, t.month, t.day, '-', 4);
  }

  /** Every date the parser accepts is written back character for
      character: the parser admits only the canonical form. */
  lemma FormatParseDate(s: string)
    requires ParseDate(s).Some?
    ensures FormatDate(ParseDate(s).value) == s
  {
    UnfieldsFields(s, '-', 4);
  }

  /** Reading back a written clock time gives the same time. */
  lemma ParseFormatTime(t: DateTime)
    requires Valid(t)
    ensures ParseTime(FormatTime(t)) == Some((t.hour, t.minute, t.second))
  {
    FieldsUnfields(t.hour, t.minute, t.second, ':', 2);
  }

  /** The timestamp written for a new review reads back as the same
      instant, so the date filter can always parse what the server stores. */
  lemma ParseFormatTimestamp(t: DateTime)
    requires Valid(t)
    ensures ParseTimestamp(FormatTimestamp(t)) == Some(t)
  {
    var d, c := FormatDate(t), FormatTime(t);
    FieldsUnfields(t.year, t.month, t.day, '-', 4);
    FieldsUnfields(t.hour, t.minute, t.second, ':', 2);
    var s := FormatTimestamp(t);
    assert s == d + ([' '] + c);
    assert s[..10] == d && s[10] == ' ' && s[11..] == c;
    ParseFormatDate(t);
    ParseFormatTime(t);
  }

  /** Every timestamp the parser accepts is in canonical form. */
  lemma FormatParseTimestamp(s: string)
    requires ParseTimestamp(s).Some?
    ensures FormatTimestamp(ParseTimestamp(s).value) == s
  {
    var t := ParseTimestamp(s).value;
    FormatParseDate(s[..10]);
    UnfieldsFields(s[11..], ':', 2);
    assert FormatDate(t) == s[..10];
    assert FormatTime(t) == s[11..];
    assert s == s[..10] + [s[10]] + s[11..];
  }
}
