/** Calendar dates and timestamps, and the three strftime layouts the script
    uses for date columns: %d%b%Y, %d %b %Y and %Y-%m-%d (English month
    abbreviations, as in the C locale). */
module Calendar {
  import opened Wrappers
  import opened Text

  datatype CalDate = CalDate(year: int, month: int, day: int)

  predicate IsLeapYear(y: int) {
    (y % 4 == 0 && y % 100 != 0) || y % 400 == 0
  }

  function DaysInMonth(y: int, m: int): (n: int)
    requires 1 <= m <= 12
    ensures 28 <= n <= 31
  {
    if m == 2 then (if IsLeapYear(y) then 29 else 28)
    else if m == 4 || m == 6 || m == 9 || m == 11 then 30
    else 31
  }

  /** A Gregorian date whose year has four digits, so that %Y prints exactly
      four characters (pandas timestamps lie well inside this range). */
  predicate ValidDate(d: CalDate) {
    1000 <= d.year <= 9999 && 1 <= d.month <= 12 && 1 <= d.day <= DaysInMonth(d.year, d.month)
  }

  type Date = d: CalDate | ValidDate(d) witness CalDate(2000, 1, 1)

  const NanosPerDay: int := 86_400_000_000_000

  /** A pandas Timestamp: a calendar date and the time of day in nanoseconds. */
  datatype Moment = Moment(date: Date, nanos: int)

  type Timestamp = t: Moment | 0 <= t.nanos < NanosPerDay witness Moment(CalDate(2000, 1, 1), 0)

  /** Chronological order of dates. */
  predicate DateBefore(a: Date, b: Date) {
    a.year < b.year
    || (a.year == b.year && a.month < b.month)
    || (a.year == b.year && a.month == b.month && a.day < b.day)
  }

  /** Chronological order of timestamps: by date, then by time of day. */
  predicate StampBefore(a: Timestamp, b: Timestamp) {
    DateBefore(a.date, b.date) || (a.date == b.date && a.nanos < b.nanos)
  }

  /** %b: the English three-letter month abbreviation. */
  function MonthAbbr(m: int): (s: string)
    requires 1 <= m <= 12
    ensures |s| == 3
  {
    ["Jan", "Feb", "Mar", "Apr", "May", "Jun", "Jul", "Aug", "Sep", "Oct", "Nov", "Dec"][m - 1]
  }

  /** The month an abbreviation names, as strptime's %b reads it. */
  function MonthNumber(s: string): (r: Option<int>)
    ensures r.Some? ==> 1 <= r.value <= 12 && MonthAbbr(r.value) == s
  {
    if s == "Jan" then Some(1) else if s == "Feb" then Some(2)
    else if s == "Mar" then Some(3) else if s == "Apr" then Some(4)
    else if s == "May" then Some(5) else if s == "Jun" then Some(6)
    else if s == "Jul" then Some(7) else if s == "Aug" then Some(8)
    else if s == "Sep" then Some(9) else if s == "Oct" then Some(10)
    else if s == "Nov" then Some(11) else if s == "Dec" then Some(12)
    else None
  }

  lemma MonthRoundTrip(m: int)
    requires 1 <= m <= 12
    ensures MonthNumber(MonthAbbr(m)) == Some(m)
  {
  }

  /** Two zero-padded digits (%d, %m). */
  function Pad2(n: int): (s: string)
    requires 0 <= n < 100
    ensures |s| == 2 && AllDigits(s)
  {
    [DigitChar(n / 10), DigitChar(n % 10)]
  }

  /** Four digits (%Y): the hundreds and the rest, two digits each. */
  function Pad4(n: int): (s: string)
    requires 0 <= n < 10000
    ensures |s| == 4 && AllDigits(s)
  {
    Pad2(n / 100) + Pad2(n % 100)
  }

  function Value2(s: string): (n: int)
    requires |s| == 2 && AllDigits(s)
    ensures 0 <= n < 100 && Pad2(n) == s
  {
    DigitValue(s[0]) * 10 + DigitValue(s[1])
  }

  function Value4(s: string): (n: int)
    requires |s| == 4 && AllDigits(s)
    ensures 0 <= n < 10000 && Pad4(n) == s
  {
    var hi, lo := Value2(s[0..2]), Value2(s[2..4]);
    var n := hi * 100 + lo;
    assert n / 100 == hi && n % 100 == lo;
    assert s == s[0..2] + s[2..4];
    n
  }

  lemma Pad2RoundTrip(n: int)
    requires 0 <= n < 100
    ensures Value2(Pad2(n)) == n
  {
  }

  lemma Pad4RoundTrip(n: int)
    requires 0 <= n < 10000
    ensures Value4(Pad4(n)) == n
  {
    var s := Pad4(n);
    assert s[0..2] == Pad2(n / 100) && s[2..4] == Pad2(n % 100);
    Pad2RoundTrip(n / 100);
    Pad2RoundTrip(n % 100);
  }

  /** strftime('%d%b%Y'), e.g. "10Sep2025". */
  function CompactText(d: Date): (s: string)
    ensures |s| == 9 && AllDigits(s[..2]) && AllDigits(s[5..])
    ensures s[2..5] == MonthAbbr(d.month)
  {
    Pad2(d.day) + MonthAbbr(d.month) + Pad4(d.year)
  }

  /** strftime('%d %b %Y'), e.g. "10 Sep 2025". */
  function PrettyText(d: Date): (s: string)
    ensures |s| == 11 && s[2] == ' ' && s[6] == ' '
    ensures AllDigits(s[..2]) && s[3..6] == MonthAbbr(d.month) && AllDigits(s[7..])
  {
    Pad2(d.day) + " " + MonthAbbr(d.month) + " " + Pad4(d.year)
  }

  /** strftime('%Y-%m-%d'), e.g. "2025-09-10". */
  function IsoText(d: Date): (s: string)
    ensures |s| == 10 && s[4] == '-' && s[7] == '-'
    ensures AllDigits(s[..4]) && AllDigits(s[5..7]) && AllDigits(s[8..])
  {
    Pad4(d.year) + "-" + Pad2(d.month) + "-" + Pad2(d.day)
  }

  function MakeDate(y: int, m: int, d: int): Option<Date> {
    if ValidDate(CalDate(y, m, d)) then Some(CalDate(y, m, d)) else None
  }

  /** strptime(s, '%d%b%Y') on the exact layout CompactText prints: two-digit day,
      capitalised abbreviation, four-digit year; None where strptime raises. */
  function ParseCompact(s: string): (r: Option<Date>)
    ensures r.Some? ==> CompactText(r.value) == s
  {
    if |s| == 9 && AllDigits(s[0..2]) && AllDigits(s[5..9]) then
      match MonthNumber(s[2..5])
      case Some(m) =>
        var r := MakeDate(Value4(s[5..9]), m, Value2(s[0..2]));
        assert r.Some? ==> s == s[0..2] + s[2..5] + s[5..9];
        r
      case None => None
    else None
  }

  /** strptime(s, '%d %b %Y') on the layout PrettyText prints. */
  function ParsePretty(s: string): (r: Option<Date>)
    ensures r.Some? ==> PrettyText(r.value) == s
  {
    if |s| == 11 && AllDigits(s[0..2]) && s[2] == ' ' && s[6] == ' ' && AllDigits(s[7..11]) then
      match MonthNumber(s[3..6])
      case Some(m) =>
        var r := MakeDate(Value4(s[7..11]), m, Value2(s[0..2]));
        assert r.Some? ==> s == s[0..2] + " " + s[3..6] + " " + s[7..11];
        r
      case None => None
    else None
  }

  /** strptime(s, '%Y-%m-%d') on the layout IsoText prints. */
  function ParseIso(s: string): (r: Option<Date>)
    ensures r.Some? ==> IsoText(r.value) == s
  {
    if |s| == 10 && AllDigits(s[0..4]) && s[4] == '-' && AllDigits(s[5..7]) && s[7] == '-' && AllDigits(s[8..10]) then
      var r := MakeDate(Value4(s[0..4]), Value2(s[5..7]), Value2(s[8..10]));
      assert r.Some? ==> s == s[0..4] + "-" + s[5..7] + "-" + s[8..10];
      r
    else None
  }

  lemma CompactRoundTrip(d: Date)
    ensures ParseCompact(CompactText(d)) == Some(d)
  {
    var s := CompactText(d);
    assert s[0..2] == Pad2(d.day) && s[2..5] == MonthAbbr(d.month) && s[5..9] == Pad4(d.year);
    MonthRoundTrip(d.month);
    Pad2RoundTrip(d.day);
    Pad4RoundTrip(d.year);
  }

  lemma PrettyRoundTrip(d: Date)
    ensures ParsePretty(PrettyText(d)) == Some(d)
  {
    var s := PrettyText(d);
    assert s[0..2] == Pad2(d.day) && s[3..6] == MonthAbbr(d.month) && s[7..11] == Pad4(d.year);
    MonthRoundTrip(d.month);
    Pad2RoundTrip(d.day);
    Pad4RoundTrip(d.year);
  }

  lemma IsoRoundTrip(d: Date)
    ensures ParseIso(IsoText(d)) == Some(d)
  {
    var s := IsoText(d);
    assert s[0..4] == Pad4(d.year) && s[5..7] == Pad2(d.month) && s[8..10] == Pad2(d.day);
    Pad2RoundTrip(d.day);
    Pad2RoundTrip(d.month);
    Pad4RoundTrip(d.year);
  }

  /** The compact layout names each date once: different dates print differently. */
  lemma CompactInjective(a: Date, b: Date)
    requires CompactText(a) == CompactText(b)
    ensures a == b
  {
    CompactRoundTrip(a);
    CompactRoundTrip(b);
  }
}
