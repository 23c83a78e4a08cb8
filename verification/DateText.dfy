/** Dates as the database layer prints and reads them. */
module DateText {
  import opened Basics

  datatype DateTime = DateTime(year: nat, month: nat, day: nat, hours: nat, minutes: nat, seconds: nat)

  /** Chronological (lexicographic) order. */
  predicate Earlier(a: DateTime, b: DateTime) {
    || a.year < b.year
    || (a.year == b.year
        && (|| a.month < b.month
            || (a.month == b.month
                && (|| a.day < b.day
                    || (a.day == b.day
                        && (|| a.hours < b.hours
                            || (a.hours == b.hours
                                && (|| a.minutes < b.minutes
                                    || (a.minutes == b.minutes && a.seconds < b.seconds)))))))))
  }

  lemma EarlierIsStrictTotalOrder(a: DateTime, b: DateTime, c: DateTime)
    ensures !Earlier(a, a)
    ensures Earlier(a, b) && Earlier(b, c) ==> Earlier(a, c)
    ensures a == b || Earlier(a, b) || Earlier(b, a)
  {
  }

  /** The order is chronological: the first of year, month, day, hours, minutes and seconds in which two dates differ
      decides. */
  lemma EarlierIsChronological(a: DateTime, b: DateTime)
    ensures var x, y := [a.year, a.month, a.day, a.hours, a.minutes, a.seconds],
                        [b.year, b.month, b.day, b.hours, b.minutes, b.seconds];
      Earlier(a, b) <==> exists k :: 0 <= k < 6 && x[..k] == y[..k] && x[k] < y[k]
  {
    var x, y := [a.year, a.month, a.day, a.hours, a.minutes, a.seconds],
                [b.year, b.month, b.day, b.hours, b.minutes, b.seconds];
    if Earlier(a, b) {
      var k := if a.year != b.year then 0 else if a.month != b.month then 1 else if a.day != b.day then 2
               else if a.hours != b.hours then 3 else if a.minutes != b.minutes then 4 else 5;
      assert x[..k] == y[..k] && x[k] < y[k];
    }
    if k :| 0 <= k < 6 && x[..k] == y[..k] && x[k] < y[k] {
      forall j | 0 <= j < k ensures x[j] == y[j] { assert x[..k][j] == y[..k][j]; }
      assert k > 0 ==> x[0] == y[0];
      assert k > 1 ==> x[1] == y[1];
      assert k > 2 ==> x[2] == y[2];
      assert k > 3 ==> x[3] == y[3];
      assert k > 4 ==> x[4] == y[4];
      assert x[0] == a.year && y[0] == b.year && x[1] == a.month && y[1] == b.month && x[2] == a.day && y[2] == b.day;
      assert x[3] == a.hours && y[3] == b.hours && x[4] == a.minutes && y[4] == b.minutes;
    }
  }

  function DaysIn(year: nat, month: nat): nat {
    if month in {4, 6, 9, 11} then 30
    else if month != 2 then 31
    else if year % 4 == 0 && (year % 100 != 0 || year % 400 == 0) then 29
    else 28
  }

  /** What the timestamp column accepts. */
  predicate IsCalendarDate(dt: DateTime) {
    && 1 <= dt.year <= 9999
    && 1 <= dt.month <= 12
    && 1 <= dt.day <= DaysIn(dt.year, dt.month)
    && dt.hours <= 23 && dt.minutes <= 59 && dt.seconds <= 59
  }

  /** The lengths of the months. */
  lemma MonthLengths(year: nat)
    ensures forall m :: m in [1, 3, 5, 7, 8, 10, 12] ==> DaysIn(year, m) == 31
    ensures forall m :: m in [4, 6, 9, 11] ==> DaysIn(year, m) == 30
    ensures DaysIn(2023, 2) == 28 && DaysIn(2024, 2) == 29 && DaysIn(1900, 2) == 28 && DaysIn(2000, 2) == 29
    ensures DaysIn(year + 400, 2) == DaysIn(year, 2)
  {
  }

  /** One second later by the calendar. */
  function NextSecond(dt: DateTime): DateTime {
    if dt.seconds < 59 then dt.(seconds := dt.seconds + 1)
    else if dt.minutes < 59 then dt.(minutes := dt.minutes + 1, seconds := 0)
    else if dt.hours < 23 then dt.(hours := dt.hours + 1, minutes := 0, seconds := 0)
    else if dt.day < DaysIn(dt.year, dt.month) then DateTime(dt.year, dt.month, dt.day + 1, 0, 0, 0)
    else if dt.month < 12 then DateTime(dt.year, dt.month + 1, 1, 0, 0, 0)
    else DateTime(dt.year + 1, 1, 1, 0, 0, 0)
  }

  /** The calendar dates, in their order, are the seconds from the first of the year 1 to the last of the year 9999:
      the next second is the first date after a date, and there is a next one except after the last. */
  lemma CalendarInSeconds(dt: DateTime, other: DateTime)
    ensures IsCalendarDate(DateTime(1, 1, 1, 0, 0, 0)) && IsCalendarDate(DateTime(9999, 12, 31, 23, 59, 59))
    ensures IsCalendarDate(dt) ==> !Earlier(dt, DateTime(1, 1, 1, 0, 0, 0))
    ensures IsCalendarDate(dt) ==> (dt != DateTime(9999, 12, 31, 23, 59, 59) <==> IsCalendarDate(NextSecond(dt)))
    ensures Earlier(dt, NextSecond(dt))
    ensures IsCalendarDate(dt) && IsCalendarDate(other) && Earlier(dt, other) ==>
              other == NextSecond(dt) || Earlier(NextSecond(dt), other)
  {
  }

  // ---------- decimal text ----------

  function Digit(d: nat): char
    requires d < 10
  {
    ('0' as int + d) as char
  }

  predicate IsDigit(c: char) { '0' <= c <= '9' }

  function DigitValue(c: char): nat
    requires IsDigit(c)
  {
    c as int - '0' as int
  }

  /** ostream << n */
  function Decimal(n: nat): (s: string)
    ensures s != "" && forall c :: c in s ==> IsDigit(c)
  {
    if n < 10 then [Digit(n)] else Decimal(n / 10) + [Digit(n % 10)]
  }

  function Zeros(k: nat): (s: string)
    ensures |s| == k && forall c :: c in s ==> c == '0'
  {
    if k == 0 then "" else "0" + Zeros(k - 1)
  }

  /** setfill('0') << setw(width) << n : never shortens, only pads on the left. */
  function Padded(width: nat, n: nat): string {
    var d := Decimal(n);
    if |d| >= width then d else Zeros(width - |d|) + d
  }

  /** The number a digit string denotes. */
  function ValueOf(s: string): nat
    requires forall c :: c in s ==> IsDigit(c)
  {
    if s == "" then 0
    else
      assert s[|s| - 1] in s;
      ValueOf(s[..|s| - 1]) * 10 + DigitValue(s[|s| - 1])
  }

  function Pow10(k: nat): nat {
    if k == 0 then 1 else 10 * Pow10(k - 1)
  }

  lemma {:induction false} DecimalValue(n: nat)
    ensures ValueOf(Decimal(n)) == n
  {
    if n >= 10 {
      DecimalValue(n / 10);
      assert Decimal(n)[..|Decimal(n)| - 1] == Decimal(n / 10);
    }
  }

  lemma {:induction false} DecimalLength(n: nat, width: nat)
    requires width > 0 && n < Pow10(width)
    ensures |Decimal(n)| <= width
  {
    if n >= 10 {
      assert width > 1 by { assert Pow10(1) == 10 * Pow10(0); }
      DecimalLength(n / 10, width - 1);
    }
  }

  lemma {:induction false} LeadingZeros(k: nat, s: string)
    requires forall c :: c in s ==> IsDigit(c)
    ensures forall c :: c in Zeros(k) + s ==> IsDigit(c)
    ensures ValueOf(Zeros(k) + s) == ValueOf(s)
  {
    if s == "" {
      if k > 0 {
        LeadingZeros(k - 1, s);
        ZerosSnoc(k - 1);
        assert Zeros(k) + s == Zeros(k);
        assert Zeros(k)[..k - 1] == Zeros(k - 1) == Zeros(k - 1) + s;
      } else {
        assert Zeros(k) + s == s;
      }
    } else {
      var init := s[..|s| - 1];
      LeadingZeros(k, init);
      assert (Zeros(k) + s)[..k + |s| - 1] == Zeros(k) + init;
    }
  }

  lemma {:induction false} ZerosSnoc(k: nat)
    ensures Zeros(k + 1) == Zeros(k) + "0"
  {
    if k > 0 { ZerosSnoc(k - 1); }
  }

  lemma PaddedReadsBack(width: nat, n: nat)
    requires width > 0 && n < Pow10(width)
    ensures |Padded(width, n)| == width
    ensures forall c :: c in Padded(width, n) ==> IsDigit(c)
    ensures ValueOf(Padded(width, n)) == n
  {
    hide ValueOf, Decimal, Zeros, Pow10;
    DecimalValue(n);
    DecimalLength(n, width);
    var d := Decimal(n);
    if |d| < width { LeadingZeros(width - |d|, d); }
    assert Padded(width, n) == if |d| < width then Zeros(width - |d|) + d else d;
  }

  // ---------- formats ----------

  /** A format string: numeric conversions and literal characters, in order. */
  datatype Format = End | Literal(c: char, rest: Format) | Number(width: nat, low: nat, high: nat, rest: Format)

  predicate WellFormed(format: Format) {
    match format
    case End => true
    case Literal(_, rest) => WellFormed(rest)
    case Number(w, _, high, rest) => w > 0 && high < Pow10(w) && WellFormed(rest)
  }

  function Numbers(format: Format): nat {
    match format
    case End => 0
    case Literal(_, rest) => Numbers(rest)
    case Number(_, _, _, rest) => 1 + Numbers(rest)
  }

  function Width(format: Format): nat {
    match format
    case End => 0
    case Literal(_, rest) => 1 + Width(rest)
    case Number(w, _, _, rest) => w + Width(rest)
  }

  /** Stream insertion with zero fill. */
  function Put(format: Format, values: seq<nat>): string
    requires |values| == Numbers(format)
  {
    match format
    case End => ""
    case Literal(c, rest) => [c] + Put(rest, values)
    case Number(w, _, _, rest) => Padded(w, values[0]) + Put(rest, values[1..])
  }

  /** std::get_time: each conversion takes its full width in digits and checks its range. */
  function Scan(format: Format, text: string): Option<seq<nat>> {
    match format
    case End => Some([])
    case Literal(c, rest) =>
      if text != "" && text[0] == c then Scan(rest, text[1..]) else None
    case Number(w, low, high, rest) =>
      if |text| < w || (exists c :: c in text[..w] && !IsDigit(c)) then None
      else
        var v := ValueOf(text[..w]);
        if !(low <= v <= high) then None
        else match Scan(rest, text[w..])
          case None => None
          case Some(vs) => Some([v] + vs)
  }

  predicate InRange(format: Format, values: seq<nat>)
    requires |values| == Numbers(format)
  {
    match format
    case End => true
    case Literal(_, rest) => InRange(rest, values)
    case Number(_, low, high, rest) => low <= values[0] <= high && InRange(rest, values[1..])
  }

  /** Reading back what was printed, for any format: it gives the same values exactly when all are in range. */
  lemma {:induction false} ScanPut(format: Format, values: seq<nat>)
    requires WellFormed(format) && |values| == Numbers(format)
    ensures Scan(format, Put(format, values)) == Some(values) <==> InRange(format, values)
    ensures InRange(format, values) ==> |Put(format, values)| == Width(format)
  {
    var text := Put(format, values);
    match format
    case End =>
    case Literal(c, rest) =>
      ScanPut(rest, values);
      assert text[1..] == Put(rest, values);
    case Number(w, low, high, rest) =>
      ScanPut(rest, values[1..]);
      ScanNumber(format, values);
  }

  lemma SameLastDigit(x: nat, d: nat, y: nat, e: nat)
    requires d < 10 && e < 10 && x * 10 + d == y * 10 + e
    ensures x == y && d == e
  {
  }

  /** Digit strings of one length are told apart by their values. */
  lemma {:induction false} SameValueSame(a: string, b: string)
    requires |a| == |b| && (forall c :: c in a ==> IsDigit(c)) && (forall c :: c in b ==> IsDigit(c))
    requires ValueOf(a) == ValueOf(b)
    ensures a == b
  {
    if a != "" {
      var n := |a| - 1;
      assert a[n] in a && b[n] in b;
      SameLastDigit(ValueOf(a[..n]), DigitValue(a[n]), ValueOf(b[..n]), DigitValue(b[n]));
      SameValueSame(a[..n], b[..n]);
      assert a == a[..n] + [a[n]] && b == b[..n] + [b[n]];
    }
  }

  /** What the scan accepts, for any format and any text: exactly the texts that begin with what is printed for
      values in range, and it returns those values. */
  lemma {:induction false} ScanExact(format: Format, text: string, values: seq<nat>)
    requires WellFormed(format) && |values| == Numbers(format)
    ensures Scan(format, text) == Some(values) <==> InRange(format, values) && Put(format, values) <= text
  {
    hide Padded, ValueOf, IsDigit, Pow10;
    match format
    case End =>
    case Literal(c, rest) =>
      if text != "" {
        ScanExact(rest, text[1..], values);
        PrefixOfRest([c], Put(rest, values), text);
      }
    case Number(w, low, high, rest) =>
      if |text| >= w { ScanExact(rest, text[w..], values[1..]); }
      if low <= values[0] <= high { PaddedReadsBack(w, values[0]); }
      ScanNumberExact(format, text, values);
  }

  lemma PrefixOfRest(front: string, rest: string, text: string)
    requires |front| <= |text|
    ensures front + rest <= text <==> front == text[..|front|] && rest <= text[|front|..]
  {
    var n := |front|;
    assert text == text[..n] + text[n..];
    if front + rest <= text {
      assert (front + rest)[..n] == front && (front + rest)[n..] == rest;
      assert text[..|front + rest|] == front + rest;
    }
  }

  lemma ScanNumberExact(format: Format, text: string, values: seq<nat>)
    requires WellFormed(format) && |values| == Numbers(format) && format.Number?
    requires |text| >= format.width ==>
      (Scan(format.rest, text[format.width..]) == Some(values[1..]) <==>
        InRange(format.rest, values[1..]) && Put(format.rest, values[1..]) <= text[format.width..])
    ensures Scan(format, text) == Some(values) <==> InRange(format, values) && Put(format, values) <= text
  {
    hide Padded, ValueOf, IsDigit, Pow10;
    var w, rest := format.width, format.rest;
    if format.low <= values[0] <= format.high {
      PaddedReadsBack(w, values[0]);
      var p := Padded(w, values[0]);
      assert Put(format, values) == p + Put(rest, values[1..]);
      if |text| >= w {
        PrefixOfRest(p, Put(rest, values[1..]), text);
        var head := text[..w];
        if (forall c :: c in head ==> IsDigit(c)) && ValueOf(head) == values[0] { SameValueSame(head, p); }
      }
    }
    assert [values[0]] + values[1..] == values;
    if |text| >= w && Scan(rest, text[w..]).Some? {
      var tail := Scan(rest, text[w..]).value;
      assert ([values[0]] + tail)[1..] == tail;
    }
  }

  /** A number and what follows it. */
  lemma ScanNumber(format: Format, values: seq<nat>)
    requires WellFormed(format) && |values| == Numbers(format) && format.Number?
    requires var rest := format.rest;
      && (Scan(rest, Put(rest, values[1..])) == Some(values[1..]) <==> InRange(rest, values[1..]))
      && (InRange(rest, values[1..]) ==> |Put(rest, values[1..])| == Width(rest))
    ensures Scan(format, Put(format, values)) == Some(values) <==> InRange(format, values)
    ensures InRange(format, values) ==> |Put(format, values)| == Width(format)
  {
    hide Padded, ValueOf, IsDigit, Pow10;
    var text, w, rest := Put(format, values), format.width, format.rest;
    if format.low <= values[0] <= format.high {
      PaddedReadsBack(w, values[0]);
      assert text[..w] == Padded(w, values[0]);
      assert text[w..] == Put(rest, values[1..]);
      assert [values[0]] + values[1..] == values;
      var tail := Scan(rest, text[w..]);
      if tail.Some? { assert ([values[0]] + tail.value)[1..] == tail.value; }
    }
  }

  // ---------- "%Y-%m-%d %H:%M:%S" ----------

  const FORMAT: Format :=
    Number(4, 0, 9999, Literal('-', Number(2, 1, 12, Literal('-', Number(2, 1, 31, Literal(' ',
      Number(2, 0, 23, Literal(':', Number(2, 0, 59, Literal(':', Number(2, 0, 60, End)))))))))))

  /** The fields of struct tm that get_time fills, with the offsets of section 7.27.1 of C11. */
  datatype Tm = Tm(tmYear: int, tmMon: int, tmMday: int, tmHour: int, tmMin: int, tmSec: int)

  lemma FormatFacts()
    ensures Numbers(FORMAT) == 6 && Width(FORMAT) == 19 && WellFormed(FORMAT)
  {
    assert Pow10(2) == 100 && Pow10(4) == 10000;
  }

  function Fields(dt: DateTime): seq<nat> {
    [dt.year, dt.month, dt.day, dt.hours, dt.minutes, dt.seconds]
  }

  function Print(dt: DateTime): string {
    FormatFacts();
    Put(FORMAT, Fields(dt))
  }

  function GetTime(text: string): Option<Tm> {
    match Scan(FORMAT, text)
    case None => None
    case Some(v) =>
      if |v| != 6 then None
      else
        var f := seq(6, i requires 0 <= i < 6 => v[i] as int);
        Some(Tm(f[0] - 1900, f[1] - 1, f[2], f[3], f[4], f[5]))
  }

  /** The conversion from struct tm; fields below the calendar origin have no date. */
  function FromTm(tm: Tm): Option<DateTime> {
    if tm.tmYear >= -1900 && tm.tmMon >= -1 && tm.tmMday >= 0 && tm.tmHour >= 0 && tm.tmMin >= 0 && tm.tmSec >= 0
    then Some(DateTime(tm.tmYear + 1900, tm.tmMon + 1, tm.tmMday, tm.tmHour, tm.tmMin, tm.tmSec))
    else None
  }

  function Parse(text: string): Option<DateTime> {
    match GetTime(text)
    case None => None
    case Some(tm) => FromTm(tm)
  }

  predicate Readable(dt: DateTime) {
    && dt.year <= 9999 && 1 <= dt.month <= 12 && 1 <= dt.day <= 31
    && dt.hours <= 23 && dt.minutes <= 59 && dt.seconds <= 60
  }

  /** Printing then parsing gives the date back exactly when every field is in the range its conversion
      accepts; the text then has 19 characters. */
  lemma ParsePrint(dt: DateTime)
    ensures Parse(Print(dt)) == Some(dt) <==> Readable(dt)
    ensures Readable(dt) ==> |Print(dt)| == 19
    ensures IsCalendarDate(dt) ==> Readable(dt)
  {
    hide Put, Scan, InRange, WellFormed;
    FormatFacts();
    ScanPut(FORMAT, Fields(dt));
    ReadableIsInRange(dt);
    var v := Scan(FORMAT, Print(dt));
    if v.Some? && |v.value| == 6 {
      var d := Fields(DateTime(v.value[0], v.value[1], v.value[2], v.value[3], v.value[4], v.value[5]));
      assert d == v.value;
    }
  }

  /** Any text at all: it is read as this date exactly if the date is readable and the text begins with the printed
      date. */
  lemma ParseExact(text: string, dt: DateTime)
    ensures Parse(text) == Some(dt) <==> Readable(dt) && Print(dt) <= text
  {
    hide Put, Scan, InRange, WellFormed;
    FormatFacts();
    ScanExact(FORMAT, text, Fields(dt));
    ReadableIsInRange(dt);
    var v := Scan(FORMAT, text);
    if v.Some? && |v.value| == 6 {
      var d := Fields(DateTime(v.value[0], v.value[1], v.value[2], v.value[3], v.value[4], v.value[5]));
      assert d == v.value;
    }
  }

  lemma ReadableIsInRange(dt: DateTime)
    ensures Numbers(FORMAT) == 6
    ensures InRange(FORMAT, Fields(dt)) <==> Readable(dt)
  {
    FormatFacts();
    var f := Fields(dt);
    var r1 := FORMAT.rest.rest;
    var r2 := r1.rest.rest;
    var r3 := r2.rest.rest;
    var r4 := r3.rest.rest;
    var r5 := r4.rest.rest;
    assert InRange(r5, f[5..]) <==> dt.seconds <= 60 by { assert f[5..][0] == dt.seconds; }
    assert f[4..][1..] == f[5..] && f[3..][1..] == f[4..] && f[2..][1..] == f[3..] && f[1..][1..] == f[2..];
    assert InRange(r4, f[4..]) <==> dt.minutes <= 59 && InRange(r5, f[5..]);
    assert InRange(r3, f[3..]) <==> dt.hours <= 23 && InRange(r4, f[4..]);
    assert InRange(r2, f[2..]) <==> 1 <= dt.day <= 31 && InRange(r3, f[3..]);
    assert InRange(r1, f[1..]) <==> 1 <= dt.month <= 12 && InRange(r2, f[2..]);
    assert InRange(FORMAT, f) <==> dt.year <= 9999 && InRange(r1, f[1..]);
  }

  // ---------- the text itself ----------

  /** The number written at position i with two digits. */
  function TwoAt(text: string, i: nat): int
    requires i + 2 <= |text|
  {
    10 * (text[i] as int - 48) + (text[i + 1] as int - 48)
  }

  function FourAt(text: string, i: nat): int
    requires i + 4 <= |text|
  {
    100 * TwoAt(text, i) + TwoAt(text, i + 2)
  }

  lemma PaddedTwo(n: nat)
    requires n < 100
    ensures |Padded(2, n)| == 2 && TwoAt(Padded(2, n), 0) == n
    ensures forall c :: c in Padded(2, n) ==> 48 <= c as int <= 57
  {
    assert Pow10(2) == 100 by { assert Pow10(1) == 10 * Pow10(0); }
    PaddedReadsBack(2, n);
    hide Padded;
    var s := Padded(2, n);
    assert s[0] in s && s[..1][..0] == "" && s[..1][0] == s[0];
    assert ValueOf(s) == ValueOf(s[..1]) * 10 + DigitValue(s[1]);
    assert ValueOf(s[..1]) == ValueOf("") * 10 + DigitValue(s[0]);
  }

  lemma PaddedFour(n: nat)
    requires n < 10000
    ensures |Padded(4, n)| == 4 && FourAt(Padded(4, n), 0) == n
    ensures forall c :: c in Padded(4, n) ==> 48 <= c as int <= 57
  {
    assert Pow10(4) == 10000 by { assert Pow10(2) == 10 * Pow10(1) && Pow10(1) == 10 * Pow10(0); }
    PaddedReadsBack(4, n);
    hide Padded;
    var s := Padded(4, n);
    assert forall i :: 0 <= i < 4 ==> s[i] in s;
    assert s[..3][..2] == s[..2] && s[..2][..1] == s[..1] && s[..1][..0] == "";
    assert s[..3][2] == s[2] && s[..2][1] == s[1] && s[..1][0] == s[0];
    assert forall k :: 0 <= k < 4 ==> forall c :: c in s[..k] ==> c in s;
    assert ValueOf(s[..1]) == ValueOf("") * 10 + DigitValue(s[0]);
    assert ValueOf(s[..2]) == ValueOf(s[..1]) * 10 + DigitValue(s[1]);
    assert ValueOf(s[..3]) == ValueOf(s[..2]) * 10 + DigitValue(s[2]);
    assert ValueOf(s) == ValueOf(s[..3]) * 10 + DigitValue(s[3]);
  }

  /** The printed text, part by part. */
  lemma PrintParts(dt: DateTime)
    ensures Print(dt) ==
              Padded(4, dt.year) + ("-" + (Padded(2, dt.month) + ("-" + (Padded(2, dt.day) + (" " +
                (Padded(2, dt.hours) + (":" + (Padded(2, dt.minutes) + (":" + Padded(2, dt.seconds))))))))))
  {
    hide Padded;
    FormatFacts();
    var f := Fields(dt);
    var r1 := FORMAT.rest.rest;
    var r2 := r1.rest.rest;
    var r3 := r2.rest.rest;
    var r4 := r3.rest.rest;
    var r5 := r4.rest.rest;
    assert f[1..][1..] == f[2..] && f[2..][1..] == f[3..] && f[3..][1..] == f[4..] && f[4..][1..] == f[5..];
    assert Put(r5, f[5..]) == Padded(2, dt.seconds) by {
      assert Put(End, f[5..][1..]) == "" && Padded(2, dt.seconds) + "" == Padded(2, dt.seconds);
    }
    assert Put(r4, f[4..]) == Padded(2, dt.minutes) + (":" + Put(r5, f[5..]));
    assert Put(r3, f[3..]) == Padded(2, dt.hours) + (":" + Put(r4, f[4..]));
    assert Put(r2, f[2..]) == Padded(2, dt.day) + (" " + Put(r3, f[3..]));
    assert Put(r1, f[1..]) == Padded(2, dt.month) + ("-" + Put(r2, f[2..]));
    assert Put(FORMAT, f) == Padded(4, dt.year) + ("-" + Put(r1, f[1..]));
  }

  /** What stands where: year, month and day with '-' between them, a blank, hours, minutes and seconds with ':'
      between them, each a decimal number of fixed width. */
  predicate IsStamp(text: string, dt: DateTime) {
    && |text| == 19
    && text[4] == '-' && text[7] == '-' && text[10] == ' ' && text[13] == ':' && text[16] == ':'
    && FourAt(text, 0) == dt.year && TwoAt(text, 5) == dt.month && TwoAt(text, 8) == dt.day
    && TwoAt(text, 11) == dt.hours && TwoAt(text, 14) == dt.minutes && TwoAt(text, 17) == dt.seconds
    && forall i :: 0 <= i < 19 && i != 4 && i != 7 && i != 10 && i != 13 && i != 16 ==> '0' <= text[i] <= '9'
  }

  /** The printed date is that text. */
  lemma PrintedText(dt: DateTime)
    requires Readable(dt)
    ensures IsStamp(Print(dt), dt)
  {
    hide Padded, Print, TwoAt, FourAt;
    PrintParts(dt);
    PaddedFour(dt.year);
    PaddedTwo(dt.month);
    PaddedTwo(dt.day);
    PaddedTwo(dt.hours);
    PaddedTwo(dt.minutes);
    PaddedTwo(dt.seconds);
    var text := Print(dt);
    Slices(Padded(4, dt.year), Padded(2, dt.month), Padded(2, dt.day), Padded(2, dt.hours), Padded(2, dt.minutes),
      Padded(2, dt.seconds), text);
    TwoWithin(text, 5);
    TwoWithin(text, 8);
    TwoWithin(text, 11);
    TwoWithin(text, 14);
    TwoWithin(text, 17);
    FourWithin(text, 0);
    DigitsWithin(text, 0, 4);
    DigitsWithin(text, 5, 7);
    DigitsWithin(text, 8, 10);
    DigitsWithin(text, 11, 13);
    DigitsWithin(text, 14, 16);
    DigitsWithin(text, 17, 19);
  }

  lemma TwoWithin(text: string, i: nat)
    requires i + 2 <= |text|
    ensures TwoAt(text, i) == TwoAt(text[i..i + 2], 0)
  {
  }

  lemma FourWithin(text: string, i: nat)
    requires i + 4 <= |text|
    ensures FourAt(text, i) == FourAt(text[i..i + 4], 0)
  {
    hide TwoAt;
    var part := text[i..i + 4];
    assert part[0..2] == text[i..i + 2] && part[2..4] == text[i + 2..i + 4];
    TwoWithin(text, i);
    TwoWithin(text, i + 2);
    TwoWithin(part, 0);
    TwoWithin(part, 2);
  }

  /** The part of a text from position k on, cut at its first separator. */
  lemma Cut(text: string, k: nat, front: string, c: char, rest: string)
    requires k <= |text| && text[k..] == front + ([c] + rest)
    ensures var n := k + |front|;
      n + 1 <= |text| && text[k..n] == front && text[n] == c && text[n + 1..] == rest
  {
    var n, tail := |front|, text[k..];
    assert tail[..n] == front && tail[n] == c && tail[n + 1..] == rest;
    assert text[k..k + n] == tail[..n] && text[k + n] == tail[n] && text[k + n + 1..] == tail[n + 1..];
  }

  lemma Slices(a: string, b: string, c: string, d: string, e: string, f: string, text: string)
    requires |a| == 4 && |b| == 2 && |c| == 2 && |d| == 2 && |e| == 2 && |f| == 2
    requires text == a + ("-" + (b + ("-" + (c + (" " + (d + (":" + (e + (":" + f)))))))))
    ensures |text| == 19
    ensures text[4] == '-' && text[7] == '-' && text[10] == ' ' && text[13] == ':' && text[16] == ':'
    ensures text[0..4] == a && text[5..7] == b && text[8..10] == c && text[11..13] == d && text[14..16] == e
    ensures text[17..19] == f
  {
    var r4 := e + (":" + f);
    var r3 := d + (":" + r4);
    var r2 := c + (" " + r3);
    var r1 := b + ("-" + r2);
    assert text[0..] == text;
    Cut(text, 0, a, '-', r1);
    Cut(text, 5, b, '-', r2);
    Cut(text, 8, c, ' ', r3);
    Cut(text, 11, d, ':', r4);
    Cut(text, 14, e, ':', f);
  }

  lemma DigitsWithin(text: string, lo: nat, hi: nat)
    requires lo <= hi <= |text| && forall c :: c in text[lo..hi] ==> 48 <= c as int <= 57
    ensures forall i :: lo <= i < hi ==> '0' <= text[i] <= '9'
  {
    forall i | lo <= i < hi ensures '0' <= text[i] <= '9' {
      assert text[i] == text[lo..hi][i - lo] && text[i] in text[lo..hi];
    }
  }

  /** What std::get_time makes of such a text: years since 1900 and months since January. */
  lemma ReadFields(dt: DateTime)
    requires Readable(dt)
    ensures GetTime(Print(dt)) ==
              Some(Tm(dt.year - 1900, dt.month - 1, dt.day, dt.hours, dt.minutes, dt.seconds))
  {
    hide Put, Scan, InRange, WellFormed;
    FormatFacts();
    ScanPut(FORMAT, Fields(dt));
    ReadableIsInRange(dt);
  }
}
