/** Calendar dates as Python's `datetime.date` holds them, the age-in-years formula
    and the two text forms of a date the system writes ('YYYY-MM-DD' and DICOM 'YYYYMMDD'). */
module Dates {
  import opened Wrappers
  import opened Text

  datatype Date = Date(year: int, month: int, day: int)

  predicate IsLeapYear(y: int) {
    y % 4 == 0 && (y % 100 != 0 || y % 400 == 0)
  }

  function DaysInMonth(y: int, m: int): int {
    if m == 2 then (if IsLeapYear(y) then 29 else 28)
    else if m == 4 || m == 6 || m == 9 || m == 11 then 30
    else 31
  }

  /** A date `datetime.date` accepts: years MINYEAR (1) to MAXYEAR (9999). */
  predicate ValidDate(d: Date) {
    1 <= d.year <= 9999 && 1 <= d.month <= 12 && 1 <= d.day <= DaysInMonth(d.year, d.month)
  }

  /** The values `datetime.date` can hold. */
  type CalendarDate = d: Date | ValidDate(d) witness Date(2000, 1, 1)

  /** Strict chronological order: lexicographic on (year, month, day). */
  predicate Before(a: Date, b: Date) {
    a.year < b.year || (a.year == b.year && (a.month < b.month || (a.month == b.month && a.day < b.day)))
  }

  /** `(today.month, today.day) < (birth.month, birth.day)`: this year's birthday is still ahead. */
  predicate BirthdayAhead(today: Date, birth: Date) {
    today.month < birth.month || (today.month == birth.month && today.day < birth.day)
  }

  /** The same month and day, `years` later. */
  function Anniversary(birth: Date, years: int): Date {
    Date(birth.year + years, birth.month, birth.day)
  }

  /** Age in years as both partner models compute it: the number of completed years,
      0 for a birthdate in the future and 0 without a birthdate. */
  function AgeOn(today: Date, birth: Option<Date>): (age: nat)
    ensures birth.None? ==> age == 0
    ensures birth.Some? && Before(today, birth.value) ==> age == 0
    ensures birth.Some? && !Before(today, birth.value) ==>
      !Before(today, Anniversary(birth.value, age)) && Before(today, Anniversary(birth.value, age + 1))
  {
    match birth
    case None => 0
    case Some(b) =>
      var years := today.year - b.year - (if BirthdayAhead(today, b) then 1 else 0);
      if years < 0 then 0 else years
  }

  /** Completed years are unique: only one age satisfies the anniversary bounds. */
  lemma AgeIsUnique(today: Date, birth: Date, years: nat)
    requires !Before(today, Anniversary(birth, years)) && Before(today, Anniversary(birth, years + 1))
    ensures AgeOn(today, Some(birth)) == years
  {
  }

  /** `date(today.year - years, 1, 1)`, or `None` where `date()` raises ValueError
      because the year falls outside 1..9999. */
  function JanFirstYearsAgo(today: Date, years: int): (r: Option<Date>)
    ensures r.Some? <==> 1 <= today.year - years <= 9999
    ensures r.Some? ==> ValidDate(r.value) && r.value == Date(today.year - years, 1, 1)
  {
    var y := today.year - years;
    if 1 <= y <= 9999 then Some(Date(y, 1, 1)) else None
  }

  /** The message of the ValueError `date()` raises for a year outside 1..9999. */
  function YearOutOfRange(year: int): string {
    "year " + IntToString(year) + " is out of range"
  }

  /** Setting an age and reading it back: the age of 1 January `a` years ago is `a`. */
  lemma AgeOfJanFirstYearsAgo(today: Date, a: nat)
    requires ValidDate(today) && JanFirstYearsAgo(today, a).Some?
    ensures AgeOn(today, JanFirstYearsAgo(today, a)) == a
  {
  }

  lemma Pow10Small()
    ensures Pow10(2) == 100 && Pow10(4) == 10000
  {
    assert Pow10(1) == 10;
    assert Pow10(3) == 1000;
  }

  /** `date.isoformat()`: 'YYYY-MM-DD', zero padded. */
  function IsoFormat(d: Date): (s: string)
    requires ValidDate(d)
    ensures |s| == 10 && s[4] == '-' && s[7] == '-'
    ensures AllDigits(s[..4]) && AllDigits(s[5..7]) && AllDigits(s[8..])
    ensures DigitsValue(s[..4]) == d.year && DigitsValue(s[5..7]) == d.month && DigitsValue(s[8..]) == d.day
  {
    Pow10Small();
    var y, m, dd := ZeroPad(d.year, 4), ZeroPad(d.month, 2), ZeroPad(d.day, 2);
    var s := y + "-" + m + "-" + dd;
    assert s[..4] == y && s[5..7] == m && s[8..] == dd;
    s
  }

  /** `date.strftime('%Y%m%d')`, the DICOM DA form: eight digits, year, month and day. */
  function DicomDate(d: Date): (s: string)
    requires ValidDate(d)
    ensures |s| == 8 && AllDigits(s)
    ensures DigitsValue(s[..4]) == d.year && DigitsValue(s[4..6]) == d.month && DigitsValue(s[6..]) == d.day
  {
    Pow10Small();
    var y, m, dd := ZeroPad(d.year, 4), ZeroPad(d.month, 2), ZeroPad(d.day, 2);
    var s := y + m + dd;
    assert s[..4] == y && s[4..6] == m && s[6..] == dd;
    s
  }

  /** Different dates are written differently. */
  lemma IsoFormatInjective(a: Date, b: Date)
    requires ValidDate(a) && ValidDate(b) && IsoFormat(a) == IsoFormat(b)
    ensures a == b
  {
  }

  lemma DicomDateInjective(a: Date, b: Date)
    requires ValidDate(a) && ValidDate(b) && DicomDate(a) == DicomDate(b)
    ensures a == b
  {
  }

  /** The DICOM form is the ISO form with its two dashes removed. */
  lemma DicomDateDropsDashes(d: Date)
    requires ValidDate(d)
    ensures DicomDate(d) == IsoFormat(d)[..4] + IsoFormat(d)[5..7] + IsoFormat(d)[8..]
  {
    Pow10Small();
    var y, m, dd := ZeroPad(d.year, 4), ZeroPad(d.month, 2), ZeroPad(d.day, 2);
    var iso := IsoFormat(d);
    assert iso == y + "-" + m + "-" + dd;
    assert iso[..4] == y;
    assert iso[5..7] == m;
    assert iso[8..] == dd;
  }
}
