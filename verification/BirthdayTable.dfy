/**
  The `birthdays` table (migrations/002_birthdays.sql) and the two requests
  that change it: `verify_save` and `verify_unlink` of src/routes/verify.rs.
 */
module BirthdayTable {
  import opened Wrappers
  import opened Birthday
  import opened Calendar

  type UserId = string

  datatype Row = Row(
    birthMonth: int,
    birthDay: int,
    birthYear: Option<int>,
    tz: string,
    zodiac: string,
    chineseZodiac: Option<string>,
    season: string,
    birthstone: string,
    birthWeekday: Option<string>)
  {
    function Input(): BirthdayInput {
      BirthdayInput(birthMonth, birthDay, birthYear)
    }

    function StoredFacts(): Derived {
      Derived(zodiac, chineseZodiac, season, birthstone, birthWeekday)
    }
  }

  /** The row holds a real date, and the denormalised columns are those of that date. */
  predicate Sound(row: Row) {
    && RealBirthday(row.birthMonth, row.birthDay, row.birthYear)
    && (row.birthYear.Some? ==> 1900 <= row.birthYear.value <= 2100)
    && row.StoredFacts() == ComputeDerived(row.birthMonth, row.birthDay, row.birthYear)
  }

  predicate AllSound(rows: map<UserId, Row>) {
    forall u <- rows :: Sound(rows[u])
  }

  /** The body of a save request; `tz` is already a canonical name. */
  datatype SaveBody = SaveBody(month: int, day: int, year: Option<int>, tz: string)

  function RowOf(body: SaveBody): Row
    requires ChronoYear(body.year)
  {
    var d := ComputeDerived(body.month, body.day, body.year);
    Row(body.month, body.day, body.year, body.tz,
        d.zodiac, d.chineseZodiac, d.season, d.birthstone, d.birthWeekday)
  }

  /** The table's CHECK constraints. */
  predicate ChecksPass(row: Row) {
    && 1 <= row.birthMonth <= 12
    && 1 <= row.birthDay <= 31
    && (row.birthYear.Some? ==> 1900 <= row.birthYear.value <= 2100)
  }

  datatype RequestError = BadRequest(why: DateError) | NotFound | DatabaseError

  // --- the table as a value -----------------------------------------------------------

  /** A change of the table that some request asks for. */
  datatype Change = Upsert(user: UserId, body: SaveBody, thisYear: ChronoYearNumber) | Delete(user: UserId)

  function Apply(rows: map<UserId, Row>, c: Change): map<UserId, Row> {
    match c
    case Delete(user) => rows - {user}
    case Upsert(user, body, thisYear) =>
      if ValidateDate(body.month, body.day, body.year, thisYear).None? && ChecksPass(RowOf(body)) then
        rows[user := RowOf(body)]
      else rows
  }

  function Run(rows: map<UserId, Row>, changes: seq<Change>): map<UserId, Row>
    decreases |changes|
  {
    if changes == [] then rows else Run(Apply(rows, changes[0]), changes[1..])
  }

  /** `validate_date` accepts the real birthdays from 1900 to this year, and no others. */
  lemma AcceptedDates(month: int, day: int, year: Option<int>, thisYear: int)
    ensures ValidateDate(month, day, year, thisYear).None?
       <==> RealBirthday(month, day, year) && (year.Some? ==> 1900 <= year.value <= thisYear)
  {
  }

  /** A refusal names what is wrong, looking at the month, the year and the day in this order. */
  lemma DateErrorsHaveTheirCause(month: int, day: int, year: Option<int>, thisYear: int)
    ensures ValidateDate(month, day, year, thisYear) == Some(BadMonth) <==> !(1 <= month <= 12)
    ensures ValidateDate(month, day, year, thisYear) == Some(BadYear)
       <==> 1 <= month <= 12 && year.Some? && !(1900 <= year.value <= thisYear)
    ensures ValidateDate(month, day, year, thisYear) == Some(BadDay)
       <==> && 1 <= month <= 12
            && (year.Some? ==> 1900 <= year.value <= thisYear)
            && !RealBirthday(month, day, year)
  {
  }

  /** The CHECKs stop an accepted date only after the year 2100. */
  lemma AcceptedDatesPassChecks(body: SaveBody, thisYear: ChronoYearNumber)
    requires ValidateDate(body.month, body.day, body.year, thisYear).None?
    ensures ChecksPass(RowOf(body)) <==> (body.year.Some? ==> body.year.value <= 2100)
  {
    AcceptedDates(body.month, body.day, body.year, thisYear);
    MonthLengths(body.month);
  }

  /** The row holds what was submitted, and has the facts of a year exactly if it has a year. */
  lemma RowHoldsSubmission(body: SaveBody)
    requires ChronoYear(body.year)
    ensures var row := RowOf(body);
            && row.birthMonth == body.month && row.birthDay == body.day && row.birthYear == body.year && row.tz == body.tz
            && (row.birthWeekday.Some? <==> body.year.Some?)
            && (row.chineseZodiac.Some? <==> body.year.Some?)
  {
  }

  lemma AcceptedRowIsSound(body: SaveBody, thisYear: ChronoYearNumber)
    requires ValidateDate(body.month, body.day, body.year, thisYear).None?
    requires ChecksPass(RowOf(body))
    ensures Sound(RowOf(body))
  {
    AcceptedDates(body.month, body.day, body.year, thisYear);
  }

  lemma ChangeKeepsRowsSound(rows: map<UserId, Row>, c: Change)
    requires AllSound(rows)
    ensures AllSound(Apply(rows, c))
  {
    if c.Upsert? && ValidateDate(c.body.month, c.body.day, c.body.year, c.thisYear).None? && ChecksPass(RowOf(c.body)) {
      AcceptedRowIsSound(c.body, c.thisYear);
    }
  }

  /** Every row that any run of saves and unlinks leaves behind is sound. */
  lemma {:induction false} EveryReachableRowIsSound(rows: map<UserId, Row>, changes: seq<Change>)
    requires AllSound(rows)
    ensures AllSound(Run(rows, changes))
    decreases |changes|
  {
    if changes != [] {
      ChangeKeepsRowsSound(rows, changes[0]);
      EveryReachableRowIsSound(Apply(rows, changes[0]), changes[1..]);
    }
  }

  // --- the requests -------------------------------------------------------------------

  class Birthdays {
    var rows: map<UserId, Row>
    /** The members for whom a player sync has been queued, oldest first. */
    var playerSyncs: seq<UserId>

    ghost predicate Valid()
      reads this
    {
      AllSound(rows)
    }

    constructor ()
      ensures Valid() && rows == map[] && playerSyncs == []
    {
      rows, playerSyncs := map[], [];
    }

    /**
      Stores the birthday and queues a player sync. The flags say whether the
      database is out of order for the upsert and for the enqueue; in the
      second case the row has been written although the request fails.
     */
    method VerifySave(user: UserId, body: SaveBody, thisYear: ChronoYearNumber, upsertFails: bool, enqueueFails: bool)
      returns (r: Result<(), RequestError>)
      requires Valid()
      modifies this
      ensures Valid()
      ensures rows == if upsertFails then old(rows) else Apply(old(rows), Upsert(user, body, thisYear))
      ensures playerSyncs == old(playerSyncs) + if r.Ok? then [user] else []
      ensures r.Ok? <==> && !upsertFails && !enqueueFails
                         && RealBirthday(body.month, body.day, body.year)
                         && (body.year.Some? ==> 1900 <= body.year.value <= thisYear && body.year.value <= 2100)
      ensures r.Ok? ==>
                && user in rows
                && rows[user].Input() == BirthdayInput(body.month, body.day, body.year)
                && rows[user].tz == body.tz
      ensures r.Err? && r.error.BadRequest?
         <==> !(RealBirthday(body.month, body.day, body.year)
                && (body.year.Some? ==> 1900 <= body.year.value <= thisYear))
    {
      AcceptedDates(body.month, body.day, body.year, thisYear);
      var refused := ValidateDate(body.month, body.day, body.year, thisYear);
      if refused.Some? {
        return Err(BadRequest(refused.value));
      }
      AcceptedDatesPassChecks(body, thisYear);
      if upsertFails || !ChecksPass(RowOf(body)) {
        return Err(DatabaseError);
      }
      ChangeKeepsRowsSound(rows, Upsert(user, body, thisYear));
      rows := rows[user := RowOf(body)];
      if enqueueFails {
        return Err(DatabaseError);
      }
      playerSyncs := playerSyncs + [user];
      return Ok(());
    }

    method VerifyUnlink(user: UserId, deleteFails: bool, enqueueFails: bool)
      returns (r: Result<(), RequestError>)
      requires Valid()
      modifies this
      ensures Valid()
      ensures rows == if deleteFails then old(rows) else Apply(old(rows), Delete(user))
      ensures playerSyncs == old(playerSyncs) + if r.Ok? then [user] else []
      ensures r == Err(NotFound) <==> !deleteFails && user !in old(rows)
      ensures r.Ok? <==> !deleteFails && !enqueueFails && user in old(rows)
    {
      if deleteFails {
        return Err(DatabaseError);
      }
      var removed := user in rows;
      rows := rows - {user};
      if !removed {
        return Err(NotFound);
      }
      if enqueueFails {
        return Err(DatabaseError);
      }
      playerSyncs := playerSyncs + [user];
      return Ok(());
    }
  }
}
