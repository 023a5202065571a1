/** The display task of app/app_display.c: the TIME/DATE toggle of
    `Display_Task`, with the LCD driver calls as output events, and the two
    buffer formatters `Display_TimeString` and `Display_DateString`. */
module Display {
  import opened Types

  /** Values of the state variable `display_lcd`. */
  const DISPLAY_IDLE: byte := 0
  const DISPLAY_TIME: byte := 1
  const DISPLAY_DATE: byte := 2

  /** LCD rows and columns used by the task. */
  const ROW_ONE: byte := 0
  const ROW_TWO: byte := 1
  const COL_1: byte := 0x1
  const COL_3: byte := 0x3

  /** The size of each text buffer, and the ASCII code of '0'. */
  const NUM_16: nat := 16
  const NUM_48: nat := 48
  const HEX_10: nat := 0x10

  /** A 16-character LCD line buffer. */
  type Buffer = s: seq<char> | |s| == NUM_16 witness "\0\0\0\0\0\0\0\0\0\0\0\0\0\0\0\0"

  /** The all-NUL buffer a C global array starts as. */
  const Blank: Buffer := "\0\0\0\0\0\0\0\0\0\0\0\0\0\0\0\0"

  /** The fixed tables of `Display_DateString`. */
  const Months: seq<seq<char>> := ["JAN", "FEB", "MAR", "APR", "MAY", "JUN",
                                   "JUL", "AUG", "SEP", "OCT", "NOV", "DEC"]
  const DaysW: seq<seq<char>> := ["MO", "TU", "WE", "TH", "FR", "SA", "SU"]

  /** Calls into the LCD driver. */
  datatype LcdCall = SetCursor(row: byte, col: byte) | String(text: seq<char>)

  /** Storing an integer into a `char`: its low eight bits. */
  function CharOf(n: nat): (c: char)
    ensures c as int == n % 0x100
  {
    (n % 0x100) as char
  }

  /** The character `'0' + d`, as the formatters compute it. */
  function DigitChar(d: nat): (c: char)
    ensures d < 10 ==> '0' <= c <= '9' && c as int - '0' as int == d
  {
    CharOf(d + NUM_48)
  }

  /** The display task's globals. */
  datatype Display = Display(state: byte, bufTime: Buffer, bufDate: Buffer)

  const Initial: Display := Display(DISPLAY_TIME, Blank, Blank)

  /** `Display_TimeString`: hour, minute and second as two base-10 digits each,
      separated by ':'; positions 8 to 15 are not written. */
  function TimeString(buf: Buffer, tm: Tm): (r: Buffer)
    ensures r[2] == ':' && r[5] == ':'
    ensures r[0] == DigitChar(tm.hour / 10) && r[1] == DigitChar(tm.hour % 10)
    ensures r[3] == DigitChar(tm.min / 10) && r[4] == DigitChar(tm.min % 10)
    ensures r[6] == DigitChar(tm.sec / 10) && r[7] == DigitChar(tm.sec % 10)
    ensures r[8..] == buf[8..]
  {
    [DigitChar(tm.hour / 10), DigitChar(tm.hour % 10), ':',
     DigitChar(tm.min / 10), DigitChar(tm.min % 10), ':',
     DigitChar(tm.sec / 10), DigitChar(tm.sec % 10)] + buf[8..]
  }

  /** The month and weekday tables are indexed with `tm_mon - 1` and
      `tm_wday - 1`; outside these ranges the C code reads outside the tables. */
  predicate DateIndexable(tm: Tm)
  {
    1 <= tm.mon <= 12 && 1 <= tm.wday <= 7
  }

  /** `Display_DateString`: "MMM,DD YYyy WW" with the month abbreviation, the
      day in base 10, the day of the year in base 16, the year in base 10 and the
      weekday abbreviation; positions 14 and 15 are not written. */
  function DateString(buf: Buffer, tm: Tm): (r: Buffer)
    requires DateIndexable(tm)
    ensures r[0..3] == Months[tm.mon - 1]
    ensures r[3] == ',' && r[6] == ' ' && r[11] == ' '
    ensures r[4] == DigitChar(tm.mday / 10) && r[5] == DigitChar(tm.mday % 10)
    ensures r[7] == DigitChar(tm.yday / HEX_10) && r[8] == DigitChar(tm.yday % HEX_10)
    ensures r[9] == DigitChar(tm.year / 10) && r[10] == DigitChar(tm.year % 10)
    ensures r[12..14] == DaysW[tm.wday - 1]
    ensures r[14..] == buf[14..]
  {
    var m := Months[tm.mon - 1];
    var w := DaysW[tm.wday - 1];
    [m[0], m[1], m[2], ',',
     DigitChar(tm.mday / 10), DigitChar(tm.mday % 10), ' ',
     DigitChar(tm.yday / HEX_10), DigitChar(tm.yday % HEX_10),
     DigitChar(tm.year / 10), DigitChar(tm.year % 10), ' ',
     w[0], w[1]] + buf[14..]
  }

  /** What one `Display_Task` call leaves behind, with the LCD calls made. */
  datatype Step = Step(d: Display, lcd: seq<LcdCall>)

  /** `Display_Task`: alternates between showing the time on the second row and
      the date on the first; any other state value does nothing. */
  function DisplayTask(d: Display, clockMsg: Msg): (r: Step)
    requires d.state == DISPLAY_DATE ==> DateIndexable(clockMsg.tm)
    ensures d.state == DISPLAY_TIME ==>
      && r.d == d.(state := DISPLAY_DATE, bufTime := TimeString(d.bufTime, clockMsg.tm))
      && r.lcd == [SetCursor(ROW_TWO, COL_3), String(r.d.bufTime)]
    ensures d.state == DISPLAY_DATE ==>
      && r.d == d.(state := DISPLAY_TIME, bufDate := DateString(d.bufDate, clockMsg.tm))
      && r.lcd == [SetCursor(ROW_ONE, COL_1), String(r.d.bufDate)]
    ensures d.state !in {DISPLAY_TIME, DISPLAY_DATE} ==> r == Step(d, [])
  {
    if d.state == DISPLAY_TIME then
      var b := TimeString(d.bufTime, clockMsg.tm);
      Step(d.(state := DISPLAY_DATE, bufTime := b), [SetCursor(ROW_TWO, COL_3), String(b)])
    else if d.state == DISPLAY_DATE then
      var b := DateString(d.bufDate, clockMsg.tm);
      Step(d.(state := DISPLAY_TIME, bufDate := b), [SetCursor(ROW_ONE, COL_1), String(b)])
    else
      Step(d, [])
  }

  /** Two calls in a row return the toggle to where it started, having written
      one time line and one date line. */
  lemma ToggleReturns(d: Display, m1: Msg, m2: Msg)
    requires d.state == DISPLAY_TIME && DateIndexable(m2.tm)
    ensures DisplayTask(DisplayTask(d, m1).d, m2).d.state == DISPLAY_TIME
    ensures DisplayTask(d, m1).lcd[0] == SetCursor(ROW_TWO, COL_3)
    ensures DisplayTask(DisplayTask(d, m1).d, m2).lcd[0] == SetCursor(ROW_ONE, COL_1)
  {
  }

  /** Reads a decimal digit back, or -1 for any other character. */
  function DigitValue(c: char): int
  {
    if '0' <= c <= '9' then c as int - '0' as int else -1
  }

  /** Reads a two-digit number in `base` back from two characters. */
  function TwoDigits(c0: char, c1: char, base: nat): int
  {
    if DigitValue(c0) < 0 || DigitValue(c1) < 0 then -1
    else base * DigitValue(c0) + DigitValue(c1)
  }

  /** The time line read back as (hour, minute, second). */
  function ParseTime(buf: Buffer): (int, int, int)
  {
    (TwoDigits(buf[0], buf[1], 10), TwoDigits(buf[3], buf[4], 10), TwoDigits(buf[6], buf[7], 10))
  }

  /** Two decimal digits read back in `base` as `base * d0 + d1`. */
  lemma DigitsReadBack(d0: nat, d1: nat, base: nat)
    requires d0 < 10 && d1 < 10
    ensures TwoDigits(DigitChar(d0), DigitChar(d1), base) == base * d0 + d1
  {
    assert DigitValue(DigitChar(d0)) == d0;
    assert DigitValue(DigitChar(d1)) == d1;
  }

  /** The two base-10 digits of a value below 100 read back as that value. */
  lemma TwoDigitsRoundTrip(v: nat)
    requires v < 100
    ensures TwoDigits(DigitChar(v / 10), DigitChar(v % 10), 10) == v
  {
    DigitsReadBack(v / 10, v % 10, 10);
  }

  /** The time line is an exact record of hour, minute and second whenever each
      is below 100: reading it back gives the values formatted. */
  lemma TimeStringRoundTrip(buf: Buffer, tm: Tm)
    requires tm.hour < 100 && tm.min < 100 && tm.sec < 100
    ensures ParseTime(TimeString(buf, tm)) == (tm.hour as int, tm.min as int, tm.sec as int)
  {
    TwoDigitsRoundTrip(tm.hour);
    TwoDigitsRoundTrip(tm.min);
    TwoDigitsRoundTrip(tm.sec);
  }

  /** The 1-based position of `s` in `table`, or 0 when it is absent. */
  function IndexOf(table: seq<seq<char>>, s: seq<char>): (i: nat)
    ensures i <= |table|
    ensures i > 0 ==> table[i - 1] == s
    ensures i == 0 ==> s !in table
    decreases |table|
  {
    if |table| == 0 then 0
    else if table[|table| - 1] == s then |table|
    else IndexOf(table[..|table| - 1], s)
  }

  /** The date line read back as (month, day, day of year, year, weekday). */
  function ParseDate(buf: Buffer): (int, int, int, int, int)
  {
    (IndexOf(Months, buf[0..3]), TwoDigits(buf[4], buf[5], 10), TwoDigits(buf[7], buf[8], 16),
     TwoDigits(buf[9], buf[10], 10), IndexOf(DaysW, buf[12..14]))
  }

  /** Distinct table entries, so the abbreviation identifies its index. */
  lemma TablesDistinct()
    ensures forall i, j :: 0 <= i < j < |Months| ==> Months[i] != Months[j]
    ensures forall i, j :: 0 <= i < j < |DaysW| ==> DaysW[i] != DaysW[j]
  {
  }

  /** The last position of `s` in a table of distinct entries is its position. */
  lemma IndexOfDistinct(table: seq<seq<char>>, k: nat)
    requires k < |table|
    requires forall i, j :: 0 <= i < j < |table| ==> table[i] != table[j]
    ensures IndexOf(table, table[k]) == k + 1
  {
    var i := IndexOf(table, table[k]);
    assert table[i - 1] == table[k];
  }

  /** The date line reads back as the month, day, day of year, year and weekday
      it was built from, whenever the day and year are below 100 and the day of
      the year is a two-digit binary-coded-decimal value (both nibbles below 10,
      so that base-16 digits are decimal characters). */
  lemma DateStringRoundTrip(buf: Buffer, tm: Tm)
    requires DateIndexable(tm)
    requires tm.mday < 100 && tm.year < 100 && tm.yday < 0xA0 && tm.yday % 0x10 < 10
    ensures ParseDate(DateString(buf, tm)) ==
      (tm.mon as int, tm.mday as int, tm.yday as int, tm.year as int, tm.wday as int)
  {
    var r := DateString(buf, tm);
    TablesDistinct();
    IndexOfDistinct(Months, tm.mon - 1);
    IndexOfDistinct(DaysW, tm.wday - 1);
    TwoDigitsRoundTrip(tm.mday);
    TwoDigitsRoundTrip(tm.year);
    DigitsReadBack(tm.yday / HEX_10, tm.yday % HEX_10, HEX_10);
  }

  /** The default day of the year 0x20 set by the clock shows as "20". */
  lemma DefaultYdayShowsAsTwenty(buf: Buffer, tm: Tm)
    requires DateIndexable(tm) && tm.yday == 0x20
    ensures DateString(buf, tm)[7..9] == "20"
  {
  }
}
