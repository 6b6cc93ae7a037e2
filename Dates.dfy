/** SQLite's `date(x)` on TEXT, the function `list_movements` applies to
    both the stored `created_at` and the date bounds it is given: the text is
    read as a date, a date and a time, or a time alone, and the calendar day
    it denotes is written back as "YYYY-MM-DD"; text of any other shape is
    NULL. Dates are proleptic Gregorian. */
module Dates {
  import opened Wrappers
  import opened Text

  datatype Ymd = Ymd(y: int, m: int, d: int)

  /** A time of day as far as it can move the date: hour, minute and the
      timezone offset in minutes (positive east of UTC, 0 for none, for "Z"
      and for "+00:00"). Seconds and their fraction never reach the next
      day and are not kept. */
  datatype Clock = Clock(h: int, mi: int, tz: int)

  /** What the text states: a date, or none for a bare time (read on
      2000-01-01), and a time of day if one was given. */
  datatype Stamp = Stamp(date: Option<Ymd>, clock: Option<Clock>)

  predicate IsLeap(y: int) {
    y % 4 == 0 && (y % 100 != 0 || y % 400 == 0)
  }

  function DaysIn(y: int, m: int): (r: int)
    ensures 28 <= r <= 31
    ensures m == 2 ==> (r == 29 <==> IsLeap(y))
  {
    if m == 2 then (if IsLeap(y) then 29 else 28)
    else if m == 4 || m == 6 || m == 9 || m == 11 then 30
    else 31
  }

  /** A day that exists in the calendar. */
  predicate ValidYmd(d: Ymd) {
    1 <= d.m <= 12 && 1 <= d.d <= DaysIn(d.y, d.m)
  }

  // ---- reading the text ----

  /** SQLite's own `isspace`: the ASCII blanks only. */
  predicate SqlSpace(c: char) {
    c == ' ' || '\t' <= c <= '\r'
  }

  function SkipSpace(s: string, i: nat): (j: nat)
    requires i <= |s|
    ensures i <= j <= |s|
    decreases |s| - i
  {
    if i < |s| && SqlSpace(s[i]) then SkipSpace(s, i + 1) else i
  }

  /** The separator between a date and its time: any run of blanks and 'T's. */
  function SkipSpaceOrT(s: string, i: nat): (j: nat)
    requires i <= |s|
    ensures i <= j <= |s|
    decreases |s| - i
  {
    if i < |s| && (SqlSpace(s[i]) || s[i] == 'T') then SkipSpaceOrT(s, i + 1) else i
  }

  function SkipDigits(s: string, i: nat): (j: nat)
    requires i <= |s|
    ensures i <= j <= |s|
    decreases |s| - i
  {
    if i < |s| && IsDigit(s[i]) then SkipDigits(s, i + 1) else i
  }

  function Digit(c: char): int {
    c as int - '0' as int
  }

  /** `getDigits` for a two-digit field at `i`: its value when it lies in lo..hi. */
  function Two(s: string, i: nat, lo: int, hi: int): (r: Option<int>)
    ensures r.Some? ==> i + 2 <= |s| && lo <= r.value <= hi
  {
    if i + 2 <= |s| && IsDigit(s[i]) && IsDigit(s[i + 1]) && lo <= 10 * Digit(s[i]) + Digit(s[i + 1]) <= hi
    then Some(10 * Digit(s[i]) + Digit(s[i + 1]))
    else None
  }

  /** The four-digit year field, 0000 to 9999. */
  function Four(s: string, i: nat): (r: Option<int>)
    ensures r.Some? ==> i + 4 <= |s| && 0 <= r.value <= 9999
  {
    var hi, lo := Two(s, i, 0, 99), Two(s, i + 2, 0, 99);
    if hi.Some? && lo.Some? then Some(100 * hi.value + lo.value) else None
  }

  /** `parseTimezone` on what follows a time: blanks, then nothing, "Z" or
      "z", or a sign and HH:MM with HH at most 14, then blanks to the end. */
  function ParseZone(s: string, i: nat): (r: Option<int>)
    requires i <= |s|
    ensures r.Some? ==> -899 <= r.value <= 899
  {
    var j := SkipSpace(s, i);
    if j == |s| then Some(0)
    else if s[j] == 'Z' || s[j] == 'z' then
      if SkipSpace(s, j + 1) == |s| then Some(0) else None
    else if (s[j] == '+' || s[j] == '-') && Two(s, j + 4, 0, 59).Some? && Two(s, j + 1, 0, 14).Some?
            && s[j + 3] == ':' && SkipSpace(s, j + 6) == |s| then
      var off := 60 * Two(s, j + 1, 0, 14).value + Two(s, j + 4, 0, 59).value;
      Some(if s[j] == '-' then -off else off)
    else None
  }

  /** `parseHhMmSs` at `i`: HH:MM with HH from 00 to 24 and MM from 00 to 59,
      optionally :SS (00 to 59) followed by '.' and digits, then a timezone. */
  function ParseTime(s: string, i: nat): (r: Option<Clock>)
    requires i <= |s|
    ensures r.Some? ==> 0 <= r.value.h <= 24 && 0 <= r.value.mi <= 59 && -899 <= r.value.tz <= 899
  {
    var h, mi := Two(s, i, 0, 24), Two(s, i + 3, 0, 59);
    if h.None? || mi.None? || s[i + 2] != ':' then None
    else
      var k := i + 5;
      var zone :=
        if k < |s| && s[k] == ':' then
          if Two(s, k + 1, 0, 59).None? then None
          else if k + 4 < |s| && s[k + 3] == '.' && IsDigit(s[k + 4]) then Some(SkipDigits(s, k + 4))
          else Some(k + 3)
        else Some(k);
      if zone.None? then None
      else
        match ParseZone(s, zone.value)
        case None => None
        case Some(tz) => Some(Clock(h.value, mi.value, tz))
  }

  /** The ranges the parsers guarantee. */
  predicate StampInRange(st: Stamp) {
    && (st.date.Some? ==> 0 <= st.date.value.y <= 9999 && 1 <= st.date.value.m <= 12 && 1 <= st.date.value.d <= 31)
    && (st.clock.Some? ==> 0 <= st.clock.value.h <= 24 && 0 <= st.clock.value.mi <= 59
                           && -899 <= st.clock.value.tz <= 899)
  }

  /** `parseDateOrTime` on text: "YYYY-MM-DD" with MM from 01 to 12 and DD
      from 01 to 31, then any blanks and 'T's, then nothing or a time; or
      else a time alone. */
  function ParseStamp(s: string): (r: Option<Stamp>)
    ensures r.Some? ==> StampInRange(r.value)
  {
    var y, mo, d := Four(s, 0), Two(s, 5, 1, 12), Two(s, 8, 1, 31);
    var dated :=
      if d.Some? && y.Some? && mo.Some? && s[4] == '-' && s[7] == '-' then
        var j := SkipSpaceOrT(s, 10);
        var date := Ymd(y.value, mo.value, d.value);
        if j == |s| then Some(Stamp(Some(date), None))
        else
          match ParseTime(s, j)
          case None => None
          case Some(c) => Some(Stamp(Some(date), Some(c)))
      else None;
    if dated.Some? then dated
    else
      match ParseTime(s, 0)
      case None => None
      case Some(c) => Some(Stamp(None, Some(c)))
  }

  // ---- the day it denotes ----

  /** A day of month up to 31 counted on from the first of the month, as
      the Julian day computation does: "02-30" lands in March. */
  function Carry(d: Ymd): (r: Ymd)
    requires 1 <= d.m <= 12 && 1 <= d.d <= 31
    ensures ValidYmd(r)
    ensures ValidYmd(d) ==> r == d
  {
    var n := DaysIn(d.y, d.m);
    if d.d <= n then d
    else if d.m == 12 then Ymd(d.y + 1, 1, d.d - n)
    else Ymd(d.y, d.m + 1, d.d - n)
  }

  /** The day before, the same day or the day after. */
  function AddDay(d: Ymd, k: int): (r: Ymd)
    requires ValidYmd(d) && -1 <= k <= 1
    ensures ValidYmd(r)
    ensures k == 0 ==> r == d
  {
    if k == 0 then d
    else if k == 1 then
      if d.d < DaysIn(d.y, d.m) then d.(d := d.d + 1)
      else if d.m < 12 then Ymd(d.y, d.m + 1, 1)
      else Ymd(d.y + 1, 1, 1)
    else
      if d.d > 1 then d.(d := d.d - 1)
      else if d.m > 1 then Ymd(d.y, d.m - 1, DaysIn(d.y, d.m - 1))
      else Ymd(d.y - 1, 12, 31)
  }

  /** `computeJD` then `computeYMD`: a date without timezone whose day is at
      most 28 is kept as written (an hour of 24 does not move it); otherwise
      the day is carried into the next month when the month is too short,
      and the time of day less the offset moves it by whole days. A year
      past 9999 is out of the Julian day range and yields NULL. */
  function Resolve(st: Stamp): (r: Option<Ymd>)
    requires StampInRange(st)
    ensures r.Some? ==> ValidYmd(r.value) && -1 <= r.value.y <= 9999
  {
    var tz := if st.clock.Some? then st.clock.value.tz else 0;
    if st.date.Some? && tz == 0 && st.date.value.d <= 28 then
      assert ValidYmd(st.date.value);
      Some(st.date.value)
    else
      var base := if st.date.Some? then Carry(st.date.value) else Ymd(2000, 1, 1);
      var minutes := if st.clock.Some? then 60 * st.clock.value.h + st.clock.value.mi - tz else 0;
      var r := AddDay(base, minutes / 1440);
      if r.y > 9999 then None else Some(r)
  }

  // ---- writing the result ----

  function DigitChar(n: int): (c: char)
    requires 0 <= n <= 9
    ensures '0' <= c <= '9'
  {
    ('0' as int + n) as char
  }

  function Pad2(n: int): (s: string)
    requires 0 <= n <= 99
    ensures |s| == 2
  {
    [DigitChar(n / 10), DigitChar(n % 10)]
  }

  function Pad4(n: int): (s: string)
    requires 0 <= n <= 9999
    ensures |s| == 4 && '0' <= s[0] <= '9'
  {
    Pad2(n / 100) + Pad2(n % 100)
  }

  /** "YYYY-MM-DD", with a leading '-' for a year before 0. */
  function DateText(d: Ymd): (s: string)
    requires ValidYmd(d) && -9999 <= d.y <= 9999
    ensures |s| == (if d.y < 0 then 11 else 10)
    ensures s[0] == '-' <==> d.y < 0
  {
    (if d.y < 0 then "-" + Pad4(-d.y) else Pad4(d.y)) + "-" + Pad2(d.m) + "-" + Pad2(d.d)
  }

  /** `date(s)`: the day the text denotes, or None for NULL. */
  function DateOf(s: string): (r: Option<string>)
    ensures ParseStamp(s).None? ==> r.None?
    ensures r.Some? ==> |r.value| == 10 || (|r.value| == 11 && r.value[0] == '-')
  {
    match ParseStamp(s)
    case None => None
    case Some(st) =>
      match Resolve(st)
      case None => None
      case Some(d) => Some(DateText(d))
  }

  /** What `datetime.isoformat(timespec="seconds")` writes, the format of
      every stored `created_at`. */
  function IsoText(d: Ymd, h: int, mi: int, sec: int): string
    requires ValidYmd(d) && 0 <= d.y <= 9999 && 0 <= h <= 23 && 0 <= mi <= 59 && 0 <= sec <= 59
  {
    DateText(d) + "T" + Pad2(h) + ":" + Pad2(mi) + ":" + Pad2(sec)
  }

  // ---- properties ----

  /** A month past 12 is NULL. */
  lemma DateOfBadMonth()
    ensures DateOf("2024-13-01") == None
  {
    var s := "2024-13-01";
    assert Two(s, 5, 1, 12) == None;
    assert Two(s, 3, 0, 59) == None;
    assert ParseTime(s, 0) == None;
  }

  /** Text after the date that is not a time makes the whole text NULL. */
  lemma DateOfTrailingText()
    ensures DateOf("2024-01-31Tjunk") == None
  {
    var s := "2024-01-31Tjunk";
    assert SkipSpaceOrT(s, 11) == 11;
    assert SkipSpaceOrT(s, 10) == 11;
    assert Two(s, 11, 0, 24) == None;
    assert ParseTime(s, 11) == None;
    assert Two(s, 3, 0, 59) == None;
    assert ParseTime(s, 0) == None;
  }

  /** A day the month does not have is carried into the next month. */
  lemma DateOfCarries()
    ensures DateOf("2024-02-30") == Some("2024-03-01")
  {
    var s := "2024-02-30";
    assert s[0] == '2' && s[1] == '0' && s[2] == '2' && s[3] == '4' && s[5] == '0' && s[6] == '2';
    assert s[8] == '3' && s[9] == '0';
    assert Two(s, 0, 0, 99) == Some(20) && Two(s, 2, 0, 99) == Some(24);
    assert Two(s, 5, 1, 12) == Some(2) && Two(s, 8, 1, 31) == Some(30);
    assert SkipSpaceOrT(s, 10) == 10;
    assert ParseStamp(s) == Some(Stamp(Some(Ymd(2024, 2, 30)), None));
    assert IsLeap(2024);
    assert Resolve(Stamp(Some(Ymd(2024, 2, 30)), None)) == Some(Ymd(2024, 3, 1));
    assert Pad2(20) == "20" && Pad2(24) == "24" && Pad2(3) == "03" && Pad2(1) == "01";
    assert Four(s, 0) == Some(2024);
    assert Pad4(2024) == "2024";
    assert DateText(Ymd(2024, 3, 1)) == "2024-03-01";
  }

  /** A timezone offset can move the day forward. */
  lemma DateOfZone(s: string)
    requires s == "2023-12-31T23:30:00-01:00"
    ensures DateOf(s) == Some("2024-01-01")
  {
    ZoneStampParses(s);
    ZoneResolves();
    DateText2024();
  }

  lemma ZoneResolves()
    ensures Resolve(Stamp(Some(Ymd(2023, 12, 31)), Some(Clock(23, 30, -60)))) == Some(Ymd(2024, 1, 1))
  {
    assert (60 * 23 + 30 + 60) / 1440 == 1;
  }

  lemma DateText2024()
    ensures DateText(Ymd(2024, 1, 1)) == "2024-01-01"
  {
    assert Pad2(20) == "20" && Pad2(24) == "24" && Pad2(1) == "01";
  }

  lemma ZoneStampParses(s: string)
    requires s == "2023-12-31T23:30:00-01:00"
    ensures ParseStamp(s) == Some(Stamp(Some(Ymd(2023, 12, 31)), Some(Clock(23, 30, -60))))
  {
    ZoneDateFields(s);
    ZoneTimeParses(s);
  }

  lemma ZoneDateFields(s: string)
    requires s == "2023-12-31T23:30:00-01:00"
    ensures Four(s, 0) == Some(2023) && Two(s, 5, 1, 12) == Some(12) && Two(s, 8, 1, 31) == Some(31)
    ensures s[4] == '-' && s[7] == '-' && SkipSpaceOrT(s, 10) == 11
  {
    assert s[0] == '2' && s[1] == '0' && s[2] == '2' && s[3] == '3';
    assert Two(s, 0, 0, 99) == Some(20) && Two(s, 2, 0, 99) == Some(23);
    assert s[5] == '1' && s[6] == '2' && s[8] == '3' && s[9] == '1';
    assert s[10] == 'T' && s[11] == '2';
    assert SkipSpaceOrT(s, 11) == 11;
  }

  lemma ZoneTimeParses(s: string)
    requires s == "2023-12-31T23:30:00-01:00"
    ensures ParseTime(s, 11) == Some(Clock(23, 30, -60))
  {
    assert Two(s, 11, 0, 24) == Some(23) && Two(s, 14, 0, 59) == Some(30) && Two(s, 17, 0, 59) == Some(0);
    assert SkipSpace(s, 19) == 19 && SkipSpace(s, 25) == 25;
    assert Two(s, 20, 0, 14) == Some(1) && Two(s, 23, 0, 59) == Some(0);
    assert ParseZone(s, 19) == Some(-60);
  }

  /** An hour of 24 leaves a day up to the 28th alone ... */
  lemma DateOfHour24Early()
    ensures DateOf("2024-01-15 24:00") == Some("2024-01-15")
  {
    var s := "2024-01-15 24:00";
    assert s[0] == '2' && s[1] == '0' && s[2] == '2' && s[3] == '4' && s[5] == '0' && s[6] == '1';
    assert s[8] == '1' && s[9] == '5' && s[10] == ' ' && s[11] == '2' && s[12] == '4' && s[14] == '0' && s[15] == '0';
    assert Two(s, 0, 0, 99) == Some(20) && Two(s, 2, 0, 99) == Some(24);
    assert Two(s, 5, 1, 12) == Some(1) && Two(s, 8, 1, 31) == Some(15);
    assert SkipSpaceOrT(s, 11) == 11;
    assert SkipSpaceOrT(s, 10) == 11;
    assert Two(s, 11, 0, 24) == Some(24) && Two(s, 14, 0, 59) == Some(0);
    assert SkipSpace(s, 16) == 16;
    assert ParseTime(s, 11) == Some(Clock(24, 0, 0));
    assert ParseStamp(s) == Some(Stamp(Some(Ymd(2024, 1, 15)), Some(Clock(24, 0, 0))));
    assert Pad2(20) == "20" && Pad2(24) == "24" && Pad2(1) == "01" && Pad2(15) == "15";
    assert Four(s, 0) == Some(2024);
    assert Pad4(2024) == "2024";
    assert DateText(Ymd(2024, 1, 15)) == "2024-01-15";
  }

  /** ... and moves a later day to the next one. */
  lemma DateOfHour24Late(s: string)
    requires s == "2024-01-31 24:00"
    ensures DateOf(s) == Some("2024-02-01")
  {
    Hour24LateParses(s);
    assert Resolve(Stamp(Some(Ymd(2024, 1, 31)), Some(Clock(24, 0, 0)))) == Some(Ymd(2024, 2, 1));
    assert Pad2(20) == "20" && Pad2(24) == "24" && Pad2(2) == "02" && Pad2(1) == "01";
    assert DateText(Ymd(2024, 2, 1)) == "2024-02-01";
  }

  lemma Hour24LateParses(s: string)
    requires s == "2024-01-31 24:00"
    ensures ParseStamp(s) == Some(Stamp(Some(Ymd(2024, 1, 31)), Some(Clock(24, 0, 0))))
  {
    assert Two(s, 0, 0, 99) == Some(20) && Two(s, 2, 0, 99) == Some(24);
    assert Four(s, 0) == Some(2024);
    assert Two(s, 5, 1, 12) == Some(1) && Two(s, 8, 1, 31) == Some(31);
    assert SkipSpaceOrT(s, 11) == 11;
    assert SkipSpaceOrT(s, 10) == 11;
    assert Two(s, 11, 0, 24) == Some(24) && Two(s, 14, 0, 59) == Some(0);
    assert SkipSpace(s, 16) == 16;
    assert ParseTime(s, 11) == Some(Clock(24, 0, 0));
  }

  /** A day past 9999-12-31 is outside the Julian day range: NULL. */
  lemma DateOfYearLimit()
    ensures DateOf("9999-12-31T24:00") == None
  {
    var s := "9999-12-31T24:00";
    assert Two(s, 0, 0, 99) == Some(99) && Two(s, 2, 0, 99) == Some(99);
    assert Two(s, 5, 1, 12) == Some(12) && Two(s, 8, 1, 31) == Some(31);
    assert SkipSpaceOrT(s, 11) == 11;
    assert SkipSpaceOrT(s, 10) == 11;
    assert Two(s, 11, 0, 24) == Some(24) && Two(s, 14, 0, 59) == Some(0);
    assert SkipSpace(s, 16) == 16;
    assert ParseTime(s, 11) == Some(Clock(24, 0, 0));
    assert ParseStamp(s) == Some(Stamp(Some(Ymd(9999, 12, 31)), Some(Clock(24, 0, 0))));
  }

  /** A time alone is read on 2000-01-01. */
  lemma DateOfBareTime()
    ensures DateOf("12:00") == Some("2000-01-01")
  {
    var s := "12:00";
    assert Two(s, 8, 1, 31) == None;
    assert Two(s, 0, 0, 24) == Some(12) && Two(s, 3, 0, 59) == Some(0);
    assert SkipSpace(s, 5) == 5;
    assert ParseTime(s, 0) == Some(Clock(12, 0, 0));
    assert ParseStamp(s) == Some(Stamp(None, Some(Clock(12, 0, 0))));
    assert Resolve(Stamp(None, Some(Clock(12, 0, 0)))) == Some(Ymd(2000, 1, 1));
    assert Pad2(20) == "20" && Pad2(0) == "00" && Pad2(1) == "01";
    assert Pad4(2000) == "2000";
    assert DateText(Ymd(2000, 1, 1)) == "2000-01-01";
  }

  lemma TwoOfPad(s: string, i: nat, n: int, lo: int, hi: int)
    requires 0 <= n <= 99 && i + 2 <= |s| && s[i..i + 2] == Pad2(n) && lo <= n <= hi
    ensures Two(s, i, lo, hi) == Some(n)
  {
    assert s[i] == Pad2(n)[0] && s[i + 1] == Pad2(n)[1];
  }

  lemma FourOfPad(s: string, i: nat, n: int)
    requires 0 <= n <= 9999 && i + 4 <= |s| && s[i..i + 4] == Pad4(n)
    ensures Four(s, i) == Some(n)
  {
    assert s[i..i + 2] == Pad2(n / 100) && s[i + 2..i + 4] == Pad2(n % 100);
    TwoOfPad(s, i, n / 100, 0, 99);
    TwoOfPad(s, i + 2, n % 100, 0, 99);
  }

  /** The date fields of a written date read back as the date. */
  lemma DateFieldsOfText(d: Ymd, s: string)
    requires ValidYmd(d) && 0 <= d.y <= 9999 && |s| >= 10 && s[..10] == DateText(d)
    ensures Four(s, 0) == Some(d.y) && Two(s, 5, 1, 12) == Some(d.m) && Two(s, 8, 1, 31) == Some(d.d)
    ensures s[4] == '-' && s[7] == '-'
  {
    var t := DateText(d);
    assert t == Pad4(d.y) + "-" + Pad2(d.m) + "-" + Pad2(d.d);
    assert s[0..4] == Pad4(d.y) && s[5..7] == Pad2(d.m) && s[8..10] == Pad2(d.d);
    FourOfPad(s, 0, d.y);
    TwoOfPad(s, 5, d.m, 1, 12);
    TwoOfPad(s, 8, d.d, 1, 31);
  }

  /** A written date is its own `date()`. */
  /** `date()` of a date it returned is that date again, for the years it
      writes without a sign. */
  lemma {:induction false} DateOfIdempotent(s: string)
    requires DateOf(s).Some? && DateOf(s).value[0] != '-'
    ensures DateOf(DateOf(s).value) == DateOf(s)
  {
    var d := Resolve(ParseStamp(s).value).value;
    DateOfDate(d);
  }

  lemma DateOfDate(d: Ymd)
    requires ValidYmd(d) && 0 <= d.y <= 9999
    ensures DateOf(DateText(d)) == Some(DateText(d))
  {
    var s := DateText(d);
    DateFieldsOfText(d, s);
    assert ParseStamp(s) == Some(Stamp(Some(d), None));
    assert Resolve(Stamp(Some(d), None)) == Some(d);
  }

  /** A stored timestamp's `date()` is its date part: the time of day never
      moves the day. */
  lemma DateOfTimestamp(d: Ymd, h: int, mi: int, sec: int)
    requires ValidYmd(d) && 0 <= d.y <= 9999 && 0 <= h <= 23 && 0 <= mi <= 59 && 0 <= sec <= 59
    ensures DateOf(IsoText(d, h, mi, sec)) == Some(DateText(d))
  {
    IsoStampParses(d, h, mi, sec);
    assert (60 * h + mi) / 1440 == 0;
  }

  lemma IsoStampParses(d: Ymd, h: int, mi: int, sec: int)
    requires ValidYmd(d) && 0 <= d.y <= 9999 && 0 <= h <= 23 && 0 <= mi <= 59 && 0 <= sec <= 59
    ensures ParseStamp(IsoText(d, h, mi, sec)) == Some(Stamp(Some(d), Some(Clock(h, mi, 0))))
  {
    var s := IsoText(d, h, mi, sec);
    assert |s| == 19 && s[..10] == DateText(d) && s[10] == 'T' && IsDigit(s[11]);
    DateFieldsOfText(d, s);
    assert SkipSpaceOrT(s, 11) == 11;
    IsoTimeParses(d, h, mi, sec);
  }

  lemma IsoTimeParses(d: Ymd, h: int, mi: int, sec: int)
    requires ValidYmd(d) && 0 <= d.y <= 9999 && 0 <= h <= 23 && 0 <= mi <= 59 && 0 <= sec <= 59
    ensures IsDigit(IsoText(d, h, mi, sec)[11])
    ensures ParseTime(IsoText(d, h, mi, sec), 11) == Some(Clock(h, mi, 0))
  {
    var s := IsoText(d, h, mi, sec);
    assert s == DateText(d) + "T" + Pad2(h) + ":" + Pad2(mi) + ":" + Pad2(sec);
    assert |s| == 19 && |DateText(d)| == 10;
    assert s[11..13] == Pad2(h) && s[14..16] == Pad2(mi) && s[17..19] == Pad2(sec);
    TwoOfPad(s, 11, h, 0, 24);
    TwoOfPad(s, 14, mi, 0, 59);
    TwoOfPad(s, 17, sec, 0, 59);
    assert s[13] == ':' && s[16] == ':';
    assert ParseZone(s, 19) == Some(0);
  }
}
