/**
  migrations/005_birthday_functions.sql: the SQL twin of birthday.rs.

  Each function returns the value PostgreSQL computes, or `None` where
  PostgreSQL raises an error, which here can only come from `make_date`.
 */
module BirthdaySql {
  import opened Wrappers
  import opened Calendar
  import opened Birthday

  predicate BdayIsLeap(year: int) {
    year % 4 == 0 && (year % 100 != 0 || year % 400 == 0)
  }

  function BdayEffective(year: int, month: int, day: int): (d: Option<Date>)
    ensures d.Some? ==> RealDate(d.value)
  {
    if month == 2 && day == 29 && !BdayIsLeap(year) then MakeDate(year, 2, 28)
    else MakeDate(year, month, day)
  }

  /** SQL compares and subtracts dates by day number. */
  function BdayDaysUntil(month: int, day: int, local: Date): Option<int>
    requires RealDate(local)
  {
    match BdayEffective(local.year, month, day)
    case None => None
    case Some(thisYears) =>
      if DayNumber(thisYears) >= DayNumber(local) then
        Some(DayNumber(thisYears) - DayNumber(local))
      else
        match BdayEffective(local.year + 1, month, day)
        case None => None
        case Some(nextYears) => Some(DayNumber(nextYears) - DayNumber(local))
  }

  function BdayIsToday(month: int, day: int, local: Date): Option<bool>
    requires RealDate(local)
  {
    match BdayDaysUntil(month, day, local)
    case None => None
    case Some(n) => Some(n == 0)
  }

  /** The inner option is SQL's NULL. */
  function BdayAge(year: Option<int>, month: int, day: int, local: Date): Option<Option<int>>
    requires RealDate(local)
  {
    match year
    case None => Some(None)
    case Some(y) =>
      match BdayEffective(local.year, month, day)
      case None => None
      case Some(thisYears) =>
        Some(Some(local.year - y - if DayNumber(thisYears) > DayNumber(local) then 1 else 0))
  }

  function BdayAgeTurning(year: Option<int>, month: int, day: int, local: Date): Option<Option<int>>
    requires RealDate(local)
  {
    match year
    case None => Some(None)
    case Some(y) =>
      match BdayEffective(local.year, month, day)
      case None => None
      case Some(thisYears) =>
        Some(Some((if DayNumber(thisYears) >= DayNumber(local) then local.year else local.year + 1) - y))
  }

  // --- the twins agree -----------------------------------------------------------

  /**
    For a real birthday and any year both libraries hold, neither side leaves
    its intended branch: Rust does not clamp, `make_date` does not fail, and
    both name the same day, the birthday itself or 28 February.
   */
  lemma ObservedDateOfRealBirthday(year: int, month: int, day: int, birthYear: Option<int>)
    requires 1 <= year <= CHRONO_MAX_YEAR
    requires RealBirthday(month, day, birthYear)
    ensures var d := EffectiveBday(year, month, day);
            && BdayEffective(year, month, day) == Some(d)
            && d == Date(year, month, if month == 2 && day == 29 && !IsLeap(year) then 28 else day)
  {
  }

  /** Real birthdays are exactly those on which the twins agree: on others Rust clamps and SQL fails. */
  lemma TwinsAgreeExactlyOnRealBirthdays(year: int, month: int, day: int)
    requires 1 <= year <= CHRONO_MAX_YEAR
    ensures BdayEffective(year, month, day) == Some(EffectiveBday(year, month, day)) <==> RealBirthday(month, day, None)
    ensures !RealBirthday(month, day, None) ==> BdayEffective(year, month, day) == None
  {
  }

  /** For example on 31 April. */
  lemma TwinsPartOnImpossibleDay()
    ensures EffectiveBday(2023, 4, 31) == Date(2023, 4, 1)
    ensures BdayEffective(2023, 4, 31) == None
  {
    TwinsAgreeExactlyOnRealBirthdays(2023, 4, 31);
  }

  lemma DaysUntilAgrees(month: int, day: int, birthYear: Option<int>, today: Date)
    requires UsableToday(today) && RealBirthday(month, day, birthYear)
    ensures BdayDaysUntil(month, day, today) == Some(DaysUntil(month, day, today))
    ensures BdayIsToday(month, day, today) == Some(DaysUntil(month, day, today) == 0)
  {
    hide EffectiveBday, BdayEffective, DayNumber, Before;
    ObservedDateOfRealBirthday(today.year, month, day, birthYear);
    ObservedDateOfRealBirthday(today.year + 1, month, day, birthYear);
    DayNumberOrdersDates(EffectiveBday(today.year, month, day), today);
  }

  lemma AgeAgrees(month: int, day: int, birthYear: Option<int>, today: Date)
    requires UsableToday(today) && RealBirthday(month, day, birthYear)
    ensures BdayAge(birthYear, month, day, today)
         == Some(if birthYear.None? then None else Some(Age(birthYear.value, month, day, today)))
    ensures BdayAgeTurning(birthYear, month, day, today)
         == Some(if birthYear.None? then None else Some(AgeTurning(birthYear.value, month, day, today)))
  {
    hide EffectiveBday, BdayEffective, DayNumber, Before;
    var thisYears := EffectiveBday(today.year, month, day);
    ObservedDateOfRealBirthday(today.year, month, day, birthYear);
    DayNumberOrdersDates(thisYears, today);
    DayNumberOrdersDates(today, thisYears);
  }
}
