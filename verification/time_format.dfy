/** Calendar timestamps and the two `strftime` layouts the bot prints:
    '%d.%m. %H:%M Uhr' for forecast times and '%H:%M:%S' for the clock in the
    test banner. Parsing NOAA timestamps and converting between time zones
    are foreign behaviour and appear only as functions passed in. */
module TimeFormat {

  datatype Stamp = Stamp(year: int, month: int, day: int, hour: int, minute: int, second: int)

  predicate IsLeapYear(y: int) {
    y % 4 == 0 && (y % 100 != 0 || y % 400 == 0)
  }

  function DaysInMonth(y: int, m: int): int
    requires 1 <= m <= 12
  {
    if m == 2 then (if IsLeapYear(y) then 29 else 28)
    else if m == 4 || m == 6 || m == 9 || m == 11 then 30
    else 31
  }

  /** The range of values Python's `datetime` accepts. */
  predicate ValidStamp(t: Stamp) {
    && 1 <= t.year <= 9999
    && 1 <= t.month <= 12
    && 1 <= t.day <= DaysInMonth(t.year, t.month)
    && 0 <= t.hour < 24
    && 0 <= t.minute < 60
    && 0 <= t.second < 60
  }

  type DateTime = t: Stamp | ValidStamp(t) witness Stamp(1970, 1, 1, 0, 0, 0)

  predicate IsDigit(c: char) {
    '0' <= c <= '9'
  }

  function DigitValue(c: char): nat
    requires IsDigit(c)
  {
    c as int - '0' as int
  }

  /** The two decimal digits at `s[i]` and `s[i + 1]`. */
  predicate TwoDigitsAt(s: string, i: nat) {
    i + 2 <= |s| && IsDigit(s[i]) && IsDigit(s[i + 1])
  }

  function ReadTwoDigits(s: string, i: nat): nat
    requires TwoDigitsAt(s, i)
  {
    10 * DigitValue(s[i]) + DigitValue(s[i + 1])
  }

  /** A number below 100 written with two digits, zero-padded as `%d`, `%m`,
      `%H`, `%M` and `%S` write it. */
  function Pad2(n: nat): (r: string)
    requires n < 100
    ensures TwoDigitsAt(r, 0) && |r| == 2
    ensures ReadTwoDigits(r, 0) == n
  {
    [('0' as int + n / 10) as char, ('0' as int + n % 10) as char]
  }

  /** Day, month, hour and minute: what '%d.%m. %H:%M Uhr' shows. */
  datatype DisplayFields = DisplayFields(day: nat, month: nat, hour: nat, minute: nat)

  function FieldsShown(t: DateTime): DisplayFields {
    DisplayFields(t.day, t.month, t.hour, t.minute)
  }

  /** The shape 'dd.mm. HH:MM Uhr'. */
  predicate IsDisplayShape(s: string) {
    && |s| == 16
    && TwoDigitsAt(s, 0) && s[2] == '.'
    && TwoDigitsAt(s, 3) && s[5] == '.' && s[6] == ' '
    && TwoDigitsAt(s, 7) && s[9] == ':'
    && TwoDigitsAt(s, 10) && s[12..] == " Uhr"
  }

  function ReadDisplay(s: string): DisplayFields
    requires IsDisplayShape(s)
  {
    DisplayFields(ReadTwoDigits(s, 0), ReadTwoDigits(s, 3), ReadTwoDigits(s, 7), ReadTwoDigits(s, 10))
  }

  /** `t.strftime('%d.%m. %H:%M Uhr')`. */
  function FormatDisplay(t: DateTime): (r: string)
    ensures IsDisplayShape(r)
    ensures ReadDisplay(r) == FieldsShown(t)
  {
    var d, mo, h, mi := Pad2(t.day), Pad2(t.month), Pad2(t.hour), Pad2(t.minute);
    var r := d + "." + mo + ". " + h + ":" + mi + " Uhr";
    assert r[0..2] == d && r[3..5] == mo && r[7..9] == h && r[10..12] == mi;
    r
  }

  /** Hour, minute and second: what '%H:%M:%S' shows. */
  datatype ClockFields = ClockFields(hour: nat, minute: nat, second: nat)

  /** The shape 'HH:MM:SS'. */
  predicate IsClockShape(s: string) {
    && |s| == 8
    && TwoDigitsAt(s, 0) && s[2] == ':'
    && TwoDigitsAt(s, 3) && s[5] == ':'
    && TwoDigitsAt(s, 6)
  }

  function ReadClock(s: string): ClockFields
    requires IsClockShape(s)
  {
    ClockFields(ReadTwoDigits(s, 0), ReadTwoDigits(s, 3), ReadTwoDigits(s, 6))
  }

  /** `t.strftime('%H:%M:%S')`. */
  function FormatClock(t: DateTime): (r: string)
    ensures IsClockShape(r)
    ensures ReadClock(r) == ClockFields(t.hour, t.minute, t.second)
  {
    var h, mi, s := Pad2(t.hour), Pad2(t.minute), Pad2(t.second);
    var r := h + ":" + mi + ":" + s;
    assert r[0..2] == h && r[3..5] == mi && r[6..8] == s;
    r
  }
}
