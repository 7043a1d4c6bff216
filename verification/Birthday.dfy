/**
  src/services/birthday.rs: when a birthday is observed, which submitted
  birthdays are accepted, and the facts the rule evaluator reads.
 */
module Birthday {
  import opened Wrappers
  import opened Calendar

  // --- observed birthdays -------------------------------------------------------

  /**
    The date a birthday is celebrated in `year`. The two last branches are the
    source's clamps for impossible days; `ObservedDateOfRealBirthday` shows that
    a stored birthday never reaches them. A year chrono cannot hold makes the
    source panic, hence the `requires`.
   */
  function EffectiveBday(year: int, month: int, day: int): (d: Date)
    requires CHRONO_MIN_YEAR <= year <= CHRONO_MAX_YEAR
    ensures RealDate(d) && d.year == year
  {
    if month == 2 && day == 29 && !IsLeap(year) then Date(year, 2, 28)
    else
      match FromYmd(year, month, day)
      case Some(d) => d
      case None =>
        match FromYmd(year, month, 1)
        case Some(d) => d
        case None => Date(year, 1, 1)
  }

  /** What `validate_date` accepts, the bounds on the year aside. */
  predicate RealBirthday(month: int, day: int, year: Option<int>) {
    && 1 <= month <= 12
    && 1 <= day <= DaysInMonth(month, year.Some? ==> IsLeap(year.value))
  }

  datatype DateError = BadMonth | BadYear | BadDay

  /** `validate_date`, with the year of the clock as an input. */
  function ValidateDate(month: int, day: int, year: Option<int>, thisYear: int): (r: Option<DateError>)
  {
    if !(1 <= month <= 12) then Some(BadMonth)
    else if year.Some? && !(1900 <= year.value <= thisYear) then Some(BadYear)
    else
      var leap := if year.Some? then IsLeap(year.value) else true;
      if day < 1 || day > DaysInMonth(month, leap) then Some(BadDay) else None
  }

  // --- static facts ---------------------------------------------------------------

  const ZODIAC_SIGNS: seq<string> := ["capricorn", "aquarius", "pisces", "aries", "taurus", "gemini",
                                      "cancer", "leo", "virgo", "libra", "scorpio", "sagittarius"]

  const CHINESE_ZODIACS: seq<string> := ["rat", "ox", "tiger", "rabbit", "dragon", "snake",
                                         "horse", "goat", "monkey", "rooster", "dog", "pig"]

  const SEASONS: seq<string> := ["winter", "spring", "summer", "autumn"]

  const BIRTHSTONES: seq<string> := ["garnet", "amethyst", "aquamarine", "diamond", "emerald", "pearl",
                                     "ruby", "peridot", "sapphire", "opal", "topaz", "turquoise"]

  const WEEKDAYS: seq<string> := ["monday", "tuesday", "wednesday", "thursday",
                                  "friday", "saturday", "sunday"]

  /** The last day of each month that still belongs to the sign the month opens with. */
  function LastDayOfOpeningSign(month: int): int
    requires 1 <= month <= 12
  {
    [19, 18, 20, 19, 20, 20, 22, 22, 22, 22, 21, 21][month - 1]
  }

  function Zodiac(month: int, day: int): (z: string)
    ensures z in ZODIAC_SIGNS
  {
    if !(1 <= month <= 12) then ZODIAC_SIGNS[0]
    else if day <= LastDayOfOpeningSign(month) then ZODIAC_SIGNS[month - 1]
    else ZODIAC_SIGNS[month % 12]
  }

  function ChineseZodiac(year: int): (z: string)
    ensures z in CHINESE_ZODIACS
  {
    CHINESE_ZODIACS[(year - 4) % 12]
  }

  function Season(month: int): (s: string)
    ensures s in SEASONS
  {
    if 3 <= month <= 5 then SEASONS[1]
    else if 6 <= month <= 8 then SEASONS[2]
    else if 9 <= month <= 11 then SEASONS[3]
    else SEASONS[0]
  }

  function Birthstone(month: int): (s: string)
    ensures s in BIRTHSTONES
  {
    if 1 <= month <= 12 then BIRTHSTONES[month - 1] else BIRTHSTONES[0]
  }

  function WeekdayName(d: Date): (w: string)
    requires RealDate(d)
    ensures w in WEEKDAYS
  {
    WEEKDAYS[(DayNumber(d) - 1) % 7]
  }

  datatype Derived = Derived(
    zodiac: string,
    chineseZodiac: Option<string>,
    season: string,
    birthstone: string,
    birthWeekday: Option<string>)

  predicate ChronoYear(year: Option<int>) {
    year.Some? ==> CHRONO_MIN_YEAR <= year.value <= CHRONO_MAX_YEAR
  }

  function ComputeDerived(month: int, day: int, year: Option<int>): Derived
    requires ChronoYear(year)
  {
    Derived(
      Zodiac(month, day),
      if year.Some? then Some(ChineseZodiac(year.value)) else None,
      Season(month),
      Birthstone(month),
      if year.Some? then
        var born := FromYmd(year.value, month, day);
        Some(WeekdayName(if born.Some? then born.value else EffectiveBday(year.value, month, day)))
      else None)
  }

  // --- facts of the day -------------------------------------------------------------

  datatype BirthdayInput = BirthdayInput(month: int, day: int, year: Option<int>)

  datatype Facts = Facts(
    hasBirthday: bool,
    hasYear: bool,
    isToday: bool,
    isThisWeek: bool,
    isThisMonth: bool,
    daysUntil: int,
    ageYears: Option<int>,
    ageTurning: Option<int>,
    birthMonth: int,
    birthDay: int,
    birthYear: Option<int>,
    zodiac: string,
    chineseZodiac: Option<string>,
    season: string,
    birthstone: string,
    weekday: Option<string>)

  /** This year's observance if it is still ahead, else next year's. */
  function NextBday(month: int, day: int, today: Date): (d: Date)
    requires UsableToday(today)
    ensures RealDate(d)
  {
    var thisYears := EffectiveBday(today.year, month, day);
    if !Before(thisYears, today) then thisYears else EffectiveBday(today.year + 1, month, day)
  }

  function DaysUntil(month: int, day: int, today: Date): int
    requires UsableToday(today)
  {
    DaysBetween(NextBday(month, day, today), today)
  }

  function Age(birthYear: int, month: int, day: int, today: Date): int
    requires UsableToday(today)
  {
    var age := today.year - birthYear;
    if Before(today, EffectiveBday(today.year, month, day)) then age - 1 else age
  }

  function AgeTurning(birthYear: int, month: int, day: int, today: Date): int
    requires UsableToday(today)
  {
    NextBday(month, day, today).year - birthYear
  }

  /** `compute_facts`, with the member's local date as an input. */
  function ComputeFacts(input: BirthdayInput, today: Date): Facts
    requires UsableToday(today) && ChronoYear(input.year)
  {
    var BirthdayInput(month, day, year) := input;
    var daysUntil := DaysUntil(month, day, today);
    var derived := ComputeDerived(month, day, year);
    Facts(
      true,
      year.Some?,
      daysUntil == 0,
      0 <= daysUntil <= 6,
      today.month == month,
      daysUntil,
      if year.Some? then Some(Age(year.value, month, day, today)) else None,
      if year.Some? then Some(AgeTurning(year.value, month, day, today)) else None,
      month,
      day,
      year,
      derived.zodiac,
      derived.chineseZodiac,
      derived.season,
      derived.birthstone,
      derived.birthWeekday)
  }
}
