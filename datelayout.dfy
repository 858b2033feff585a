/**
 * Go's `time.Parse` restricted to the one layout the ingest handler sorts by,
 * "2006-01-02T15:04", and `Time.Before` on the instants it yields (all in UTC).
 *
 * The layout elements behave as in Go's time package:
 *   2006  exactly four digits (year 0000..9999)
 *   01    exactly two digits, 1..12
 *   02    exactly two digits, 1..days in that month of that year
 *   15    one or two digits (two when the second character is a digit), 0..23
 *   04    exactly two digits, 0..59
 * and `-`, `T`, `:` must appear literally, with nothing after the minutes.
 */
module DateLayout {
  import opened Common

  datatype DateTime = DateTime(year: int, month: int, day: int, hour: int, minute: int)

  predicate IsDigit(c: char) { '0' <= c <= '9' }

  function Digit(c: char): (d: int)
    requires IsDigit(c)
    ensures 0 <= d <= 9
  {
    c as int - '0' as int
  }

  function DigitChar(d: int): (c: char)
    requires 0 <= d <= 9
    ensures IsDigit(c) && Digit(c) == d
  {
    ('0' as int + d) as char
  }

  predicate IsLeap(year: int) {
    year % 4 == 0 && (year % 100 != 0 || year % 400 == 0)
  }

  function DaysIn(month: int, year: int): (n: int)
    requires 1 <= month <= 12
    ensures 28 <= n <= 31
    ensures month == 2 ==> (n == 29 <==> IsLeap(year))
  {
    if month == 2 then (if IsLeap(year) then 29 else 28)
    else if month == 4 || month == 6 || month == 9 || month == 11 then 30
    else 31
  }

  /** The instants the layout can denote. */
  predicate Valid(t: DateTime) {
    && 0 <= t.year <= 9999
    && 1 <= t.month <= 12
    && 1 <= t.day <= DaysIn(t.month, t.year)
    && 0 <= t.hour < 24
    && 0 <= t.minute < 60
  }

  // ---------------------------------------------------------------------
  // The parser, one layout element at a time

  /** The `2006` element: four digits, and the rest of the input. */
  function LongYear(s: string): Option<(int, string)> {
    if |s| >= 4 && IsDigit(s[0]) && IsDigit(s[1]) && IsDigit(s[2]) && IsDigit(s[3])
    then Some((1000 * Digit(s[0]) + 100 * Digit(s[1]) + 10 * Digit(s[2]) + Digit(s[3]), s[4..]))
    else None
  }

  /** Go's `getnum`: two digits if there are two, else one digit unless `fixed`. */
  function GetNum(s: string, fixed: bool): Option<(int, string)> {
    if |s| == 0 || !IsDigit(s[0]) then None
    else if |s| == 1 || !IsDigit(s[1]) then
      (if fixed then None else Some((Digit(s[0]), s[1..])))
    else Some((10 * Digit(s[0]) + Digit(s[1]), s[2..]))
  }

  /** A literal character of the layout. */
  function Skip(s: string, lit: char): Option<string> {
    if |s| > 0 && s[0] == lit then Some(s[1..]) else None
  }

  /** `time.Parse("2006-01-02T15:04", s)`; None is a non-nil error. */
  function Parse(s: string): (r: Option<DateTime>)
    ensures r.Some? ==> Valid(r.value)
  {
    var y :- LongYear(s);
    var s1 :- Skip(y.1, '-');
    var mo :- GetNum(s1, true);
    if mo.0 < 1 || 12 < mo.0 then None else
    var s2 :- Skip(mo.1, '-');
    var d :- GetNum(s2, true);
    var s3 :- Skip(d.1, 'T');
    var h :- GetNum(s3, false);
    if 24 <= h.0 then None else
    var s4 :- Skip(h.1, ':');
    var mi :- GetNum(s4, true);
    if 60 <= mi.0 then None else
    if mi.1 != [] then None else
    if d.0 < 1 || DaysIn(mo.0, y.0) < d.0 then None else
    Some(DateTime(y.0, mo.0, d.0, h.0, mi.0))
  }

  // ---------------------------------------------------------------------
  // The canonical text of an instant: the partner of Parse

  function Pad2(n: int): (s: string)
    requires 0 <= n < 100
    ensures |s| == 2
  {
    [DigitChar(n / 10), DigitChar(n % 10)]
  }

  function Pad4(n: int): (s: string)
    requires 0 <= n < 10000
    ensures |s| == 4
  {
    Pad2(n / 100) + Pad2(n % 100)
  }

  /** The layout applied to `t`, with the hour written as `hourText`. */
  function Tail(t: DateTime, hourText: string): string
    requires Valid(t)
  {
    Pad4(t.year) + ("-" + (Pad2(t.month) + ("-" + (Pad2(t.day) + ("T" + (hourText + (":" + Pad2(t.minute))))))))
  }

  /** The layout applied to `t`, hour written with two digits. */
  function Format(t: DateTime): (s: string)
    requires Valid(t)
    ensures |s| == 16
  {
    Tail(t, Pad2(t.hour))
  }

  /** The same with a single-digit hour, which `15` also accepts. */
  function FormatShortHour(t: DateTime): (s: string)
    requires Valid(t) && t.hour < 10
    ensures |s| == 15
  {
    Tail(t, [DigitChar(t.hour)])
  }

  // ---------------------------------------------------------------------
  // Element lemmas

  lemma LongYearOf(n: int, rest: string)
    requires 0 <= n < 10000
    ensures LongYear(Pad4(n) + rest) == Some((n, rest))
  {
    var s := Pad4(n) + rest;
    var hi, lo := n / 100, n % 100;
    assert Digit(s[0]) == hi / 10 && Digit(s[1]) == hi % 10;
    assert Digit(s[2]) == lo / 10 && Digit(s[3]) == lo % 10;
    assert 1000 * (hi / 10) + 100 * (hi % 10) == 100 * hi;
    assert s[4..] == rest;
  }

  lemma LongYearInverse(s: string)
    requires LongYear(s).Some?
    ensures 0 <= LongYear(s).value.0 < 10000
    ensures s == Pad4(LongYear(s).value.0) + LongYear(s).value.1
  {
    var n := LongYear(s).value.0;
    var d0, d1, d2, d3 := Digit(s[0]), Digit(s[1]), Digit(s[2]), Digit(s[3]);
    var hi, lo := 10 * d0 + d1, 10 * d2 + d3;
    assert n == 100 * hi + lo;
    assert n / 100 == hi && n % 100 == lo;
    assert Pad2(hi) == s[..2] by {
      assert hi / 10 == d0 && hi % 10 == d1;
    }
    assert Pad2(lo) == s[2..4] by {
      assert lo / 10 == d2 && lo % 10 == d3;
    }
    assert s == s[..2] + s[2..4] + s[4..];
  }

  lemma GetNumTwo(n: int, rest: string, fixed: bool)
    requires 0 <= n < 100
    ensures GetNum(Pad2(n) + rest, fixed) == Some((n, rest))
  {
    var s := Pad2(n) + rest;
    assert s[2..] == rest;
  }

  lemma GetNumOne(n: int, rest: string)
    requires 0 <= n < 10
    requires rest == [] || !IsDigit(rest[0])
    ensures GetNum([DigitChar(n)] + rest, false) == Some((n, rest))
  {
    var s := [DigitChar(n)] + rest;
    assert s[1..] == rest;
  }

  lemma GetNumInverse(s: string, fixed: bool)
    requires GetNum(s, fixed).Some?
    ensures 0 <= GetNum(s, fixed).value.0 < 100
    ensures var (n, rest) := GetNum(s, fixed).value;
      || s == Pad2(n) + rest
      || (!fixed && n < 10 && s == [DigitChar(n)] + rest && (rest == [] || !IsDigit(rest[0])))
  {
    var (n, rest) := GetNum(s, fixed).value;
    if |s| >= 2 && IsDigit(s[1]) {
      assert Pad2(n) == s[..2];
      assert s == s[..2] + s[2..];
    } else {
      assert [DigitChar(n)] == s[..1];
      assert s == s[..1] + s[1..];
    }
  }

  lemma SkipInverse(s: string, lit: char)
    requires Skip(s, lit).Some?
    ensures s == [lit] + Skip(s, lit).value
  {
  }

  // ---------------------------------------------------------------------
  // Parse and Format are inverse to each other

  /** Parsing the text between the year and the minutes' end, given its parts. */
  lemma ParseTail(t: DateTime, hourText: string)
    requires Valid(t)
    requires hourText == Pad2(t.hour) || (t.hour < 10 && hourText == [DigitChar(t.hour)])
    ensures Parse(Tail(t, hourText)) == Some(t)
  {
    var r5 := ":" + Pad2(t.minute);
    var r4 := hourText + r5;
    var r3 := "T" + r4;
    var r2 := Pad2(t.day) + r3;
    var r1 := "-" + r2;
    var r0 := Pad2(t.month) + r1;
    var s := Pad4(t.year) + ("-" + r0);
    assert s == Tail(t, hourText);
    LongYearOf(t.year, "-" + r0);
    assert Skip("-" + r0, '-') == Some(r0);
    GetNumTwo(t.month, r1, true);
    assert Skip(r1, '-') == Some(r2);
    GetNumTwo(t.day, r3, true);
    assert Skip(r3, 'T') == Some(r4);
    if hourText == Pad2(t.hour) {
      GetNumTwo(t.hour, r5, false);
    } else {
      GetNumOne(t.hour, r5);
    }
    assert Skip(r5, ':') == Some(Pad2(t.minute));
    GetNumTwo(t.minute, [], true);
    assert Pad2(t.minute) + [] == Pad2(t.minute);
  }

  /** Every valid instant's canonical text parses back to it. */
  lemma ParseFormat(t: DateTime)
    requires Valid(t)
    ensures Parse(Format(t)) == Some(t)
  {
    ParseTail(t, Pad2(t.hour));
  }

  /** A single-digit hour is accepted too, and denotes the same instant. */
  lemma ParseFormatShortHour(t: DateTime)
    requires Valid(t) && t.hour < 10
    ensures Parse(FormatShortHour(t)) == Some(t)
  {
    ParseTail(t, [DigitChar(t.hour)]);
  }

  /** Everything Parse accepts is a valid instant written in one of the two forms. */
  lemma ParseSound(s: string)
    requires Parse(s).Some?
    ensures Valid(Parse(s).value)
    ensures var t := Parse(s).value;
      s == Format(t) || (t.hour < 10 && s == FormatShortHour(t))
  {
    var t := Parse(s).value;
    var y := LongYear(s).value;
    LongYearInverse(s);
    var s1 := Skip(y.1, '-').value;
    SkipInverse(y.1, '-');
    var mo := GetNum(s1, true).value;
    GetNumInverse(s1, true);
    var s2 := Skip(mo.1, '-').value;
    SkipInverse(mo.1, '-');
    var d := GetNum(s2, true).value;
    GetNumInverse(s2, true);
    var s3 := Skip(d.1, 'T').value;
    SkipInverse(d.1, 'T');
    var h := GetNum(s3, false).value;
    GetNumInverse(s3, false);
    var s4 := Skip(h.1, ':').value;
    SkipInverse(h.1, ':');
    var mi := GetNum(s4, true).value;
    GetNumInverse(s4, true);
    assert mi.1 == [];
    assert s4 == Pad2(t.minute) by {
      assert s4 == Pad2(mi.0) + [];
    }
    if s3 == Pad2(h.0) + h.1 {
      assert s == Tail(t, Pad2(t.hour));
    } else {
      assert s == Tail(t, [DigitChar(t.hour)]);
    }
  }

  /** Parse is exactly "is Format or FormatShortHour of a valid instant". */
  lemma ParseIff(s: string, t: DateTime)
    ensures Parse(s) == Some(t) <==>
      Valid(t) && (s == Format(t) || (t.hour < 10 && s == FormatShortHour(t)))
  {
    if Parse(s) == Some(t) {
      ParseSound(s);
    }
    if Valid(t) && s == Format(t) {
      ParseFormat(t);
    }
    if Valid(t) && t.hour < 10 && s == FormatShortHour(t) {
      ParseFormatShortHour(t);
    }
  }

  // ---------------------------------------------------------------------
  // Time.Before

  /** `t1.Before(t2)`: t1 is the earlier instant. All parsed times are UTC,
      so this is the lexicographic order on the fields. */
  predicate Before(t1: DateTime, t2: DateTime) {
    || t1.year < t2.year
    || (t1.year == t2.year && t1.month < t2.month)
    || (t1.year == t2.year && t1.month == t2.month && t1.day < t2.day)
    || (t1.year == t2.year && t1.month == t2.month && t1.day == t2.day && t1.hour < t2.hour)
    || (t1.year == t2.year && t1.month == t2.month && t1.day == t2.day && t1.hour == t2.hour
        && t1.minute < t2.minute)
  }

  /** Minutes since 0000-01-01T00:00, counting each month as 31 days: an
      order-preserving numbering of instants (not elapsed time). */
  function Rank(t: DateTime): int {
    (((t.year * 12 + (t.month - 1)) * 31 + (t.day - 1)) * 24 + t.hour) * 60 + t.minute
  }

  /** On valid instants, Before is the order of the numbering, hence a strict total order. */
  lemma BeforeIffRank(t1: DateTime, t2: DateTime)
    requires Valid(t1) && Valid(t2)
    ensures Before(t1, t2) <==> Rank(t1) < Rank(t2)
    ensures Rank(t1) == Rank(t2) <==> t1 == t2
  {
    var m1 := t1.year * 12 + (t1.month - 1);
    var m2 := t2.year * 12 + (t2.month - 1);
    var d1 := m1 * 31 + (t1.day - 1);
    var d2 := m2 * 31 + (t2.day - 1);
    var h1 := d1 * 24 + t1.hour;
    var h2 := d2 * 24 + t2.hour;
    assert Rank(t1) == h1 * 60 + t1.minute && Rank(t2) == h2 * 60 + t2.minute;
    assert Rank(t1) < Rank(t2) <==> h1 < h2 || (h1 == h2 && t1.minute < t2.minute);
    assert h1 < h2 <==> d1 < d2 || (d1 == d2 && t1.hour < t2.hour);
    assert d1 < d2 <==> m1 < m2 || (m1 == m2 && t1.day < t2.day);
    assert m1 < m2 <==> t1.year < t2.year || (t1.year == t2.year && t1.month < t2.month);
    assert m1 == m2 <==> t1.year == t2.year && t1.month == t2.month;
  }
}
