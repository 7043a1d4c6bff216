/**
  What the calendar arithmetic of birthday.rs promises its users, stated
  without its formulas: the countdown is the distance to the next observed
  birthday, the week flag marks the seven days that end on one, and an age is
  a number of birthdays.
 */
module BirthdayLaws {
  import opened Wrappers
  import opened Calendar
  import opened Birthday
  import opened BirthdaySql
  import BT = BirthdayTable

  /** `date` is a day on which the birthday is celebrated. */
  predicate Observed(month: int, day: int, date: Date) {
    && RealDate(date)
    && 1 <= date.year <= CHRONO_MAX_YEAR
    && date == EffectiveBday(date.year, month, day)
  }

  function AddDays(d: Date, k: nat): Date
    requires RealDate(d)
    ensures RealDate(AddDays(d, k))
  {
    if k == 0 then d
    else
      NextDayAddsOne(AddDays(d, k - 1));
      NextDay(AddDays(d, k - 1))
  }

  lemma {:induction false} AddDaysAddsToDayNumber(d: Date, k: nat)
    requires RealDate(d)
    ensures DayNumber(AddDays(d, k)) == DayNumber(d) + k
  {
    if k > 0 {
      AddDaysAddsToDayNumber(d, k - 1);
      NextDayAddsOne(AddDays(d, k - 1));
    }
  }

  // --- spacing ----------------------------------------------------------------------

  lemma {:induction false} LeapDayShiftsLaterMonths(month: int)
    requires 1 <= month <= 12
    ensures DaysBeforeMonth(month, true) == DaysBeforeMonth(month, false) + if month <= 2 then 0 else 1
  {
    if month > 1 {
      LeapDayShiftsLaterMonths(month - 1);
    }
  }

  /** Two successive observances are 365 or 366 days apart, 29 February included. */
  lemma SuccessiveObservances(year: int, month: int, day: int, birthYear: Option<int>)
    requires 1 <= year < CHRONO_MAX_YEAR && RealBirthday(month, day, birthYear)
    ensures 365 <= DaysBetween(EffectiveBday(year + 1, month, day), EffectiveBday(year, month, day)) <= 366
  {
    hide EffectiveBday, BdayEffective, IsLeap, DaysBeforeYear, DaysBeforeMonth;
    YearStep(year);
    LeapDayShiftsLaterMonths(month);
    ObservedDateOfRealBirthday(year, month, day, birthYear);
    ObservedDateOfRealBirthday(year + 1, month, day, birthYear);
    LeapYearsAreApart(year);
  }

  lemma LeapYearsAreApart(year: int)
    ensures !(IsLeap(year) && IsLeap(year + 1))
  {
  }

  /** The observance found is the first one on or after today. */
  lemma NextBdayIsFirst(month: int, day: int, birthYear: Option<int>, today: Date, other: Date)
    requires UsableToday(today) && RealBirthday(month, day, birthYear)
    requires Observed(month, day, other) && DayNumber(today) <= DayNumber(other)
    ensures DayNumber(NextBday(month, day, today)) <= DayNumber(other)
  {
    hide EffectiveBday, DayNumber;
    var next := NextBday(month, day, today);
    DayNumberOrdersDates(EffectiveBday(today.year, month, day), today);
    DayNumberOrdersDates(other, today);
    DayNumberOrdersDates(other, next);
    assert today.year <= other.year;
  }

  lemma SameYearIsClose(a: Date, b: Date)
    requires RealDate(a) && RealDate(b) && a.year == b.year
    ensures DaysBetween(a, b) <= 365
  {
    DayWithinYear(a);
    DayWithinYear(b);
  }

  lemma NextBdayIsAhead(month: int, day: int, birthYear: Option<int>, today: Date)
    requires UsableToday(today) && RealBirthday(month, day, birthYear)
    ensures Observed(month, day, NextBday(month, day, today))
    ensures 0 <= DaysUntil(month, day, today) <= 365
  {
    hide EffectiveBday, DayNumber;
    var thisYears := EffectiveBday(today.year, month, day);
    var nextYears := EffectiveBday(today.year + 1, month, day);
    DayNumberOrdersDates(thisYears, today);
    if Before(thisYears, today) {
      SuccessiveObservances(today.year, month, day, birthYear);
      EarlierDateHasSmallerNumber(today, nextYears);
    } else {
      SameYearIsClose(thisYears, today);
    }
  }

  // --- the countdown ----------------------------------------------------------------

  /** `days_until` is the least k for which today + k is an observed birthday. */
  lemma DaysUntilIsLeast(month: int, day: int, birthYear: Option<int>, today: Date)
    requires UsableToday(today) && RealBirthday(month, day, birthYear)
    ensures 0 <= DaysUntil(month, day, today) <= 365
    ensures Observed(month, day, AddDays(today, DaysUntil(month, day, today)))
    ensures forall k: nat :: k < DaysUntil(month, day, today) ==> !Observed(month, day, AddDays(today, k))
  {
    var n := DaysUntil(month, day, today);
    NextBdayIsAhead(month, day, birthYear, today);
    AddDaysAddsToDayNumber(today, n);
    DayNumberOrdersDates(AddDays(today, n), NextBday(month, day, today));
    forall k: nat | k < n
      ensures !Observed(month, day, AddDays(today, k))
    {
      AddDaysAddsToDayNumber(today, k);
      if Observed(month, day, AddDays(today, k)) {
        NextBdayIsFirst(month, day, birthYear, today, AddDays(today, k));
      }
    }
  }

  /** `is_today` holds on one day of each calendar year, the observed one. */
  lemma ZeroOncePerYear(month: int, day: int, birthYear: Option<int>, today: Date)
    requires UsableToday(today) && RealBirthday(month, day, birthYear)
    ensures DaysUntil(month, day, today) == 0 <==> today == EffectiveBday(today.year, month, day)
    ensures Observed(month, day, today) <==> DaysUntil(month, day, today) == 0
  {
    DayNumberOrdersDates(NextBday(month, day, today), today);
  }

  /** From one day to the next the countdown drops by exactly one, until it is zero. */
  lemma CountdownDropsByOne(month: int, day: int, birthYear: Option<int>, today: Date)
    requires UsableToday(today) && UsableToday(NextDay(today)) && RealBirthday(month, day, birthYear)
    requires DaysUntil(month, day, today) != 0
    ensures DaysUntil(month, day, NextDay(today)) == DaysUntil(month, day, today) - 1
  {
    var tomorrow := NextDay(today);
    var next := NextBday(month, day, today);
    var nextTomorrow := NextBday(month, day, tomorrow);
    NextDayAddsOne(today);
    NextBdayIsAhead(month, day, birthYear, today);
    NextBdayIsAhead(month, day, birthYear, tomorrow);
    NextBdayIsFirst(month, day, birthYear, tomorrow, next);
    NextBdayIsFirst(month, day, birthYear, today, nextTomorrow);
  }

  /** The week flag marks exactly the seven days that end on an observed birthday. */
  lemma WeekFlagEndsOnBirthday(input: BirthdayInput, today: Date)
    requires UsableToday(today) && RealBirthday(input.month, input.day, input.year) && ChronoYear(input.year)
    ensures ComputeFacts(input, today).isThisWeek
       <==> exists b :: Observed(input.month, input.day, b) && 0 <= DaysBetween(b, today) <= 6
  {
    var BirthdayInput(month, day, year) := input;
    NextBdayIsAhead(month, day, year, today);
    if b :| Observed(month, day, b) && 0 <= DaysBetween(b, today) <= 6 {
      NextBdayIsFirst(month, day, year, today, b);
    }
    if ComputeFacts(input, today).isThisWeek {
      assert 0 <= DaysBetween(NextBday(month, day, today), today) <= 6;
    }
  }

  // --- ages -------------------------------------------------------------------------

  /** The years after the birth year whose observed birthday has come by `today`. */
  function BirthdaysReached(birthYear: int, month: int, day: int, today: Date): set<int>
    requires CHRONO_MIN_YEAR <= birthYear && UsableToday(today)
  {
    set y | birthYear < y <= today.year && !Before(today, EffectiveBday(y, month, day))
  }

  function YearsAfter(year: int, n: nat): (years: set<int>)
    ensures |years| == n
    ensures forall y :: y in years <==> year < y <= year + n
  {
    if n == 0 then {} else YearsAfter(year, n - 1) + {year + n}
  }

  /** From the day of birth on, an age is the number of birthdays celebrated since. */
  lemma AgeCountsBirthdays(birthYear: int, month: int, day: int, today: Date)
    requires UsableToday(today) && 1 <= birthYear && RealBirthday(month, day, Some(birthYear))
    requires !Before(today, Date(birthYear, month, day))
    ensures Age(birthYear, month, day, today) == |BirthdaysReached(birthYear, month, day, today)|
  {
    var age := Age(birthYear, month, day, today);
    ObservedDateOfRealBirthday(today.year, month, day, Some(birthYear));
    assert BirthdaysReached(birthYear, month, day, today) == YearsAfter(birthYear, age);
  }

  /** An age rises by one on an observed birthday and stays put on every other day. */
  lemma AgeRisesOnBirthdays(birthYear: int, month: int, day: int, today: Date)
    requires UsableToday(today) && UsableToday(NextDay(today)) && RealBirthday(month, day, Some(birthYear))
    ensures Age(birthYear, month, day, NextDay(today))
         == Age(birthYear, month, day, today) + if Observed(month, day, NextDay(today)) then 1 else 0
  {
    ObservedDateOfRealBirthday(today.year, month, day, Some(birthYear));
    ObservedDateOfRealBirthday(today.year + 1, month, day, Some(birthYear));
  }

  /** `age_turning` is the age reached on the next observance, today's included. */
  lemma AgeTurningIsNextAge(birthYear: int, month: int, day: int, today: Date)
    requires UsableToday(today) && RealBirthday(month, day, Some(birthYear))
    ensures AgeTurning(birthYear, month, day, today)
         == Age(birthYear, month, day, today) + if Observed(month, day, today) then 0 else 1
  {
    ObservedDateOfRealBirthday(today.year, month, day, Some(birthYear));
  }

  // --- weekdays ---------------------------------------------------------------------

  function DayAfter(weekday: string): string {
    match weekday
    case "monday" => "tuesday"
    case "tuesday" => "wednesday"
    case "wednesday" => "thursday"
    case "thursday" => "friday"
    case "friday" => "saturday"
    case "saturday" => "sunday"
    case _ => "monday"
  }

  lemma WeekdayAt(k: int)
    ensures DayAfter(WEEKDAYS[k % 7]) == WEEKDAYS[(k + 1) % 7]
  {
    var i := k % 7;
    assert (k + 1) % 7 == if i == 6 then 0 else i + 1;
    assert DayAfter(WEEKDAYS[0]) == WEEKDAYS[1] && DayAfter(WEEKDAYS[1]) == WEEKDAYS[2];
    assert DayAfter(WEEKDAYS[2]) == WEEKDAYS[3] && DayAfter(WEEKDAYS[3]) == WEEKDAYS[4];
    assert DayAfter(WEEKDAYS[4]) == WEEKDAYS[5] && DayAfter(WEEKDAYS[5]) == WEEKDAYS[6];
    assert DayAfter(WEEKDAYS[6]) == WEEKDAYS[0];
  }

  /** Weekdays follow one another through every month end and leap day, and 1 January 2000 was a Saturday. */
  lemma WeekdaysFollowOneAnother(d: Date)
    requires RealDate(d)
    ensures RealDate(NextDay(d)) && WeekdayName(NextDay(d)) == DayAfter(WeekdayName(d))
    ensures WeekdayName(Date(2000, 1, 1)) == "saturday"
  {
    hide DayNumber, NextDay, DayAfter;
    FirstDayOf2000();
    NextDayAddsOne(d);
    WeekdayAt(DayNumber(d) - 1);
  }

  lemma FirstDayOf2000()
    ensures DayNumber(Date(2000, 1, 1)) == 730120
  {
  }

  /** What a saved row says of the weekday of birth. */
  function StoredWeekday(born: Date, tz: string): Option<string>
    requires CHRONO_MIN_YEAR <= born.year <= CHRONO_MAX_YEAR
  {
    BT.RowOf(BT.SaveBody(born.month, born.day, Some(born.year), tz)).birthWeekday
  }

  lemma StoredWeekdayIsOfBirth(born: Date, tz: string)
    requires RealDate(born) && CHRONO_MIN_YEAR <= born.year <= CHRONO_MAX_YEAR
    ensures StoredWeekday(born, tz) == Some(WeekdayName(born))
  {
    hide DayNumber;
  }

  /**
    The weekday stored for a date of birth is that date's: those born a day later
    get the next weekday, and those born on 1 January 2000 a Saturday.
   */
  lemma StoredWeekdaysFollowOneAnother(born: Date, tz: string)
    requires RealDate(born) && CHRONO_MIN_YEAR <= born.year < CHRONO_MAX_YEAR
    ensures StoredWeekday(born, tz).Some?
    ensures NextDay(born).year <= CHRONO_MAX_YEAR
    ensures StoredWeekday(NextDay(born), tz) == Some(DayAfter(StoredWeekday(born, tz).value))
    ensures StoredWeekday(Date(2000, 1, 1), tz) == Some("saturday")
  {
    WeekdaysFollowOneAnother(born);
    StoredWeekdayIsOfBirth(born, tz);
    StoredWeekdayIsOfBirth(NextDay(born), tz);
    StoredWeekdayIsOfBirth(Date(2000, 1, 1), tz);
  }

  // --- the other stored facts -----------------------------------------------------------

  function SavedRow(born: BirthdayInput, tz: string): BT.Row
    requires ChronoYear(born.year)
  {
    BT.RowOf(BT.SaveBody(born.month, born.day, born.year, tz))
  }

  const ANIMALS_FROM_2004 := ["monkey", "rooster", "dog", "pig", "rat", "ox",
                              "tiger", "rabbit", "dragon", "snake", "horse", "goat"]

  /** Twelve animals take turns; a year divisible by twelve, such as 2004, is one of the monkey. */
  lemma StoredAnimalIsOfYear(born: BirthdayInput, tz: string)
    requires born.year.Some? && ChronoYear(born.year)
    ensures SavedRow(born, tz).chineseZodiac == Some(ANIMALS_FROM_2004[born.year.value % 12])
  {
    AnimalOfYear(born.year.value);
  }

  lemma AnimalOfYear(year: int)
    ensures ChineseZodiac(year) == ANIMALS_FROM_2004[year % 12]
  {
    AnimalsTurn();
    assert (year - 4) % 12 == if year % 12 < 4 then year % 12 + 8 else year % 12 - 4;
  }

  lemma AnimalsTurn()
    ensures |ANIMALS_FROM_2004| == |CHINESE_ZODIACS| == 12
    ensures forall i :: 0 <= i < 12 ==> ANIMALS_FROM_2004[i] == CHINESE_ZODIACS[if i < 4 then i + 8 else i - 4]
  {
    assert ANIMALS_FROM_2004[0] == CHINESE_ZODIACS[8] && ANIMALS_FROM_2004[1] == CHINESE_ZODIACS[9];
    assert ANIMALS_FROM_2004[2] == CHINESE_ZODIACS[10] && ANIMALS_FROM_2004[3] == CHINESE_ZODIACS[11];
    assert ANIMALS_FROM_2004[4] == CHINESE_ZODIACS[0] && ANIMALS_FROM_2004[5] == CHINESE_ZODIACS[1];
    assert ANIMALS_FROM_2004[6] == CHINESE_ZODIACS[2] && ANIMALS_FROM_2004[7] == CHINESE_ZODIACS[3];
    assert ANIMALS_FROM_2004[8] == CHINESE_ZODIACS[4] && ANIMALS_FROM_2004[9] == CHINESE_ZODIACS[5];
    assert ANIMALS_FROM_2004[10] == CHINESE_ZODIACS[6] && ANIMALS_FROM_2004[11] == CHINESE_ZODIACS[7];
  }

  lemma StoredSeasonIsOfMonth(born: BirthdayInput, tz: string)
    requires ChronoYear(born.year) && RealBirthday(born.month, born.day, born.year)
    ensures var season := SavedRow(born, tz).season;
            && (season == "winter" <==> born.month in {12, 1, 2})
            && (season == "spring" <==> born.month in {3, 4, 5})
            && (season == "summer" <==> born.month in {6, 7, 8})
            && (season == "autumn" <==> born.month in {9, 10, 11})
  {
    assert "winter"[0] != "spring"[0] && "winter"[0] != "summer"[0] && "winter"[0] != "autumn"[0];
    assert "spring"[1] != "summer"[1] && "spring"[0] != "autumn"[0] && "summer"[0] != "autumn"[0];
  }

  lemma StoredBirthstoneIsOfMonth(born: BirthdayInput, tz: string)
    requires ChronoYear(born.year) && RealBirthday(born.month, born.day, born.year)
    ensures SavedRow(born, tz).birthstone
         == ["garnet", "amethyst", "aquamarine", "diamond", "emerald", "pearl",
             "ruby", "peridot", "sapphire", "opal", "topaz", "turquoise"][born.month - 1]
  {
  }

  /** The day on which the sign that begins in a month begins, and that sign. */
  const SIGN_BEGINS := [20, 19, 21, 20, 21, 21, 23, 23, 23, 23, 22, 22]
  const SIGN_BEGINNING := ["aquarius", "pisces", "aries", "taurus", "gemini", "cancer",
                           "leo", "virgo", "libra", "scorpio", "sagittarius", "capricorn"]

  lemma SignsTurn()
    ensures |SIGN_BEGINNING| == |SIGN_BEGINS| == |ZODIAC_SIGNS| == 12
    ensures forall i :: 0 <= i < 12 ==> SIGN_BEGINNING[i] == ZODIAC_SIGNS[if i == 11 then 0 else i + 1]
    ensures forall i :: 0 <= i < 12 ==> SIGN_BEGINS[i] == LastDayOfOpeningSign(i + 1) + 1
  {
    assert SIGN_BEGINNING[0] == ZODIAC_SIGNS[1] && SIGN_BEGINNING[1] == ZODIAC_SIGNS[2];
    assert SIGN_BEGINNING[2] == ZODIAC_SIGNS[3] && SIGN_BEGINNING[3] == ZODIAC_SIGNS[4];
    assert SIGN_BEGINNING[4] == ZODIAC_SIGNS[5] && SIGN_BEGINNING[5] == ZODIAC_SIGNS[6];
    assert SIGN_BEGINNING[6] == ZODIAC_SIGNS[7] && SIGN_BEGINNING[7] == ZODIAC_SIGNS[8];
    assert SIGN_BEGINNING[8] == ZODIAC_SIGNS[9] && SIGN_BEGINNING[9] == ZODIAC_SIGNS[10];
    assert SIGN_BEGINNING[10] == ZODIAC_SIGNS[11] && SIGN_BEGINNING[11] == ZODIAC_SIGNS[0];
  }

  lemma StoredSignIsTheLastBegun(born: BirthdayInput, tz: string)
    requires ChronoYear(born.year) && RealBirthday(born.month, born.day, born.year)
    ensures var m := born.month - 1;
            SavedRow(born, tz).zodiac
            == if born.day >= SIGN_BEGINS[m] then SIGN_BEGINNING[m] else SIGN_BEGINNING[if m == 0 then 11 else m - 1]
  {
    SignsTurn();
    SignOfDate(born.month, born.day);
  }

  lemma SignOfDate(month: int, day: int)
    requires 1 <= month <= 12
    ensures Zodiac(month, day)
         == if day <= LastDayOfOpeningSign(month) then ZODIAC_SIGNS[month - 1] else ZODIAC_SIGNS[if month == 12 then 0 else month]
  {
    hide LastDayOfOpeningSign;
    assert month % 12 == if month == 12 then 0 else month;
  }
}
