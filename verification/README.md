# Birthday roles, modelled and proved

The plugin lets members of a Discord guild save a birthday and gives them roles
according to rules such as "birthday today, or a Leo born after 1990". Members
are put into a role's user set on RoleLogic by two procedures: a bulk sync of one
role link, which compiles the rule to SQL, and a sync of one member, which
evaluates the same rule in Rust. A durable job queue drives both.

This project models that core and proves what it promises:

1. **One rule, two meanings that agree.** The SQL text compiled from an accepted
   rule has exactly one reading, and on every row that can be stored it is TRUE
   exactly when the Rust evaluator accepts the member. This includes NULL years,
   LIKE escaping, three-valued logic and the leap-year arithmetic written twice.
2. **The calendar.** The countdown, the week flag and the ages mean what their
   names say, and the SQL twin computes the same values.
3. **The sync engine.** In every run the local mirror is exact, every entry into
   a role and every departure from it has its reason, a second bulk sync writes
   nothing, and the two procedures leave each other nothing to do.
4. **The job queue.** Ownership, finality, bounded attempts, backoff, no
   starvation, and exactly when a saved rule can be lost between queueing and
   de-duplication.

The validator, the upload protocol and the session token of the embedded page are
modelled as well, since the four parts rest on them or meet them.

## How it is laid out

| file | about |
|---|---|
| `Calendar`, `Birthday`, `BirthdaySql`, `BirthdayLaws`, `BirthdayTable` | dates, birthday.rs, its SQL twin, their laws, the `birthdays` table |
| `Condition`, `ConditionEval`, `RuleValidator`, `RuleValidatorLaws` | rules, the reference evaluator, the validator |
| `ValidatorValues`, `RuleScope` | what submitted values are saved as, which operators and values are offered, refusals |
| `SqlLike`, `SqlExpr`, `SqlSemantics`, `RuleSql`, `RuleBinds`, `RuleAgreement` | the SQL fragment, the compiler, the agreement of both paths |
| `SortedIds`, `SyncEngine`, `SyncLaws`, `SyncInterleaving` | the two sync procedures, whole runs of them, concurrent actions |
| `JobQueue`, `JobRuns`, `JobWorker`, `JobFairness` | the `jobs` table, many workers, one worker's loop, fairness |
| `ConfigQueue`, `ConfigPromises` | saving rules and the tick's fan-out, what becomes of a saved rule |
| `RoleLogic`, `IframeSession` | list uploads, session tokens |
| `Text`, `TextForms`, `Wrappers` | string operations, spaced and capitalised forms of a text, `Option` and `Result` |

Code that changes things step by step is a class or a method with loops, proved
against a function; the laws are then proved about those functions. The SQL
statements of the job queue are functions on the table; `JobRuns` takes one such
step at a time, in any order, for any number of workers.

## What the code does not keep

Four promises hold only under a condition. The model keeps the code as it is,
shows a failing case, and proves the exact condition:

- "Both must agree" (src/services/condition_eval.rs:5-6). A saved integer list
  with an entry outside 32 bits makes the query fail where the evaluator gives an
  answer (`OversizedListFails`). `CompiledClauseMeansRule`: an accepted rule is
  decided without error if and only if its lists fit, and then both paths agree.
- One owner for each job, and final outcomes. `complete`, `fail_retry` and
  `fail_dead` find their row by id alone, so a worker that outlives its 30-minute
  lock can reopen a completed job (`LateSettlementReopens`). Ownership holds
  throughout a run if and only if no reap takes a row that a live worker still
  holds (`OwnedExactlyInTimelyRuns`). With no assumption on time, a finished job
  stays finished if and only if nobody settles an old claim of it so as to send
  it back (`FinalExactlyIfNeverSentBack`).
- Every saved rule is synced. A worker that completes a job reaped from it can
  use up the job on which the tick relied (`LateCompletionLosesARule`).
  `KeptExactlyIfNeverBroken`: all promises are kept throughout a run if and only
  if no move finishes the last job a promise rests on for a claim that has read
  too old a version. Where workers settle only claims they still own, there is no
  such move (`NoSavedRuleIsLost`).
- A minted token verifies if and only if none of its ids contains a colon and it
  has not expired (`MintedTokenVerifies`).

Two limits of the agreement lie outside the inputs the code can receive. The
validator refuses a `not_in` list that is empty, on which SQL says TRUE and the
evaluator asks for the fact (`EmptyNotInPartsOnMissingFacts`). The save request
refuses dates that are not real, on which Rust clamps and SQL fails
(`TwinsAgreeExactlyOnRealBirthdays`).

## Assumptions

- The plugin is the only writer of the remote sets; a failing remote call has not
  been applied; syncs of one link do not overlap; a local write that follows a
  remote success succeeds. The source takes no lock that would ensure this.
- A new link's remote set is empty when it is registered. Registering a link that
  is still stored, with a new token, keeps its assignments
  (src/routes/plugin.rs:43-45); its remote set is taken to be unchanged too. The
  exactness of the mirror rests on both.
- A member's local date is an input of both paths, the same on both, in a year
  from 1 to 262141.
- The rule read back from `role_links` is the rule that was saved.

## Model

| member | source | states |
|---|---|---|
| Calendar.DayNumberOrdersDates | src/services/birthday.rs:269-279 | comparing dates field by field, as chrono does, and by day number, as PostgreSQL does, is one order, and equal numbers mean equal dates |
| Calendar.MonthLengths | src/services/birthday.rs:90-103 | the lengths of the twelve months, in common and in leap years |
| Calendar.NextDayAddsOne | src/services/birthday.rs:84-103 | with these month lengths and this leap rule the next calendar day has the next day number, across month and year ends |
| Birthday.EffectiveBday | src/services/birthday.rs:108-115 | for any month and day, possible or not, the result is a real date in the year asked for |
| BirthdaySql.ObservedDateOfRealBirthday | migrations/005_birthday_functions.sql:22-29 | for a real birthday Rust does not clamp, `make_date` does not fail, and both name the birthday itself, or 28 February for a leapling in a common year |
| BirthdaySql.TwinsAgreeExactlyOnRealBirthdays | src/services/birthday.rs:105-115 | in every year of the common era that both libraries hold, the two effective dates agree if and only if the birthday is real in its own or a leap year; on any other date SQL fails where Rust clamps |
| BirthdaySql.TwinsPartOnImpossibleDay | src/services/birthday.rs:112-114 | for example, on 31 April Rust clamps to the first of the month where SQL fails |
| BirthdaySql.DaysUntilAgrees | migrations/005_birthday_functions.sql:33-47 | `bday_days_until` and `bday_is_today` succeed and equal the Rust values for every real birthday and day |
| BirthdaySql.AgeAgrees | migrations/005_birthday_functions.sql:51-69 | `bday_age` and `bday_age_turning` succeed and equal the Rust values, NULL exactly when there is no birth year |
| BirthdayLaws.DaysUntilIsLeast | src/services/birthday.rs:268-274 | the countdown is the least k for which today + k is an observed birthday, and lies in 0..=365 |
| BirthdayLaws.ZeroOncePerYear | src/services/birthday.rs:293 | the countdown is zero on one day of each calendar year, the observed one |
| BirthdayLaws.CountdownDropsByOne | src/services/birthday.rs:268-274 | from each day to the next the countdown drops by exactly one until it is zero |
| BirthdayLaws.WeekFlagEndsOnBirthday | src/services/birthday.rs:294 | the week flag holds exactly on the seven days that end on an observed birthday |
| BirthdayLaws.SuccessiveObservances | src/services/birthday.rs:105-115 | two successive observances are 365 or 366 days apart, 29 February included |
| BirthdayLaws.NextBdayIsFirst | src/services/birthday.rs:268-273 | no observance on or after today comes before the one found |
| BirthdayLaws.NextBdayIsAhead | src/services/birthday.rs:268-274 | the date found is an observance, at most 365 days ahead |
| BirthdayLaws.AgeCountsBirthdays | src/services/birthday.rs:276-284 | from the day of birth on, the age is the number of observed birthdays since the birth year |
| BirthdayLaws.AgeRisesOnBirthdays | src/services/birthday.rs:276-284 | the age rises by one exactly on observed birthdays and changes on no other day |
| BirthdayLaws.AgeTurningIsNextAge | src/services/birthday.rs:282 | `age_turning` is the age on the day itself and the age plus one on every other day |
| BirthdayLaws.WeekdaysFollowOneAnother | src/services/birthday.rs:232-257 | the stored weekday names follow one another from day to day, through month ends and leap days, anchored at Saturday, 1 January 2000 |
| BirthdayLaws.StoredWeekdaysFollowOneAnother | src/services/birthday.rs:254-257 | the weekday a saved row stores is that of the date of birth: those born a day later get the next one, those born on 1 January 2000 a Saturday |
| BirthdayLaws.StoredAnimalIsOfYear | src/services/birthday.rs:198-201 | the animal stored goes through the twelve by the year, 2004 being one of the monkey |
| BirthdayLaws.StoredSeasonIsOfMonth | src/services/birthday.rs:204-211 | the season stored is that of the month, December being winter |
| BirthdayLaws.StoredBirthstoneIsOfMonth | src/services/birthday.rs:214-230 | the birthstone stored is that of the month |
| BirthdayLaws.StoredSignIsTheLastBegun | src/services/birthday.rs:165-193 | the sign stored is the last to begin on or before the day of the year, from each sign's first day |
| BirthdayTable.AcceptedDates | src/services/birthday.rs:118-144 | a date is accepted if and only if it is real in its own year, or in a leap year when none is given, and the year lies between 1900 and this year |
| BirthdayTable.DateErrorsHaveTheirCause | src/services/birthday.rs:118-144 | which of month, year and day a refusal names, as equivalences |
| BirthdayTable.AcceptedDatesPassChecks | migrations/002_birthdays.sql:24-26 | the CHECKs stop an accepted date if and only if its year is after 2100 |
| BirthdayTable.RowHoldsSubmission | src/routes/verify.rs:148-182 | the row holds the submitted date and time zone, and the facts of a year exactly if there is a year |
| BirthdayTable.AcceptedRowIsSound | src/routes/verify.rs:146-182 | the row written for an accepted request holds a real date and keeps the denormalised columns in step with it; what these are is stated by the `BirthdayLaws` rows |
| BirthdayTable.ChangeKeepsRowsSound | src/routes/verify.rs:146-209 | no save or removal leaves an unsound row |
| BirthdayTable.EveryReachableRowIsSound | src/routes/verify.rs:137-222 | after any run of saves and removals every row is sound |
| BirthdayTable.Birthdays.constructor | migrations/002_birthdays.sql:21-42 | the table starts empty and sound |
| BirthdayTable.Birthdays.VerifySave | src/routes/verify.rs:137-196 | the request succeeds exactly for real dates from 1900 to this year, at most 2100, when neither statement fails; exactly then the member's sync is queued; the row then holds what was submitted; it is refused as bad exactly for dates that are not real or out of range |
| BirthdayTable.Birthdays.VerifyUnlink | src/routes/verify.rs:198-222 | the row goes, the sync is queued exactly on success, and "not found" is reported exactly when there was no row |
| SqlLike.EscapeLikeIsPerCharacter | src/services/rule_sql.rs:225-229 | the three successive replacements amount to escaping each character once |
| SqlLike.EscapedTextIsClosed | src/services/rule_sql.rs:225-229 | an escaped text never ends in a dangling escape character |
| SqlLike.LikeOfEscapedIsContains | src/services/rule_sql.rs:154-159 | LIKE with the escaped pattern never fails and is substring search, for every text and fragment |
| SqlExpr.PrintedTextParsesBack | src/services/rule_sql.rs:33-57 | text printed from an expression that respects SQL precedence parses back to that expression and to nothing else |
| RuleSql.ClauseBuilder.constructor | src/services/rule_sql.rs:41 | a compilation starts with no binds, at the caller's offset |
| RuleSql.ClauseBuilder.BuildCondition | src/services/rule_sql.rs:90-205 | the text is that of the condition's intended expression at the next free placeholder, and exactly its binds are appended |
| RuleSql.ClauseBuilder.BuildComparison | src/services/rule_sql.rs:132-144 | a comparison takes one placeholder and one integer bind |
| RuleSql.ClauseBuilder.BuildIn | src/services/rule_sql.rs:166-184 | as for a condition; an empty list is FALSE and binds nothing |
| RuleSql.ClauseBuilder.BuildNotIn | src/services/rule_sql.rs:185-203 | as for a condition; an empty list is TRUE and binds nothing, any other list is guarded against NULL |
| RuleSql.ClauseBuilder.BuildConditions | src/services/rule_sql.rs:49-52 | the loop yields each condition's text, numbered onward through the shared bind list |
| RuleSql.ClauseBuilder.BuildGroup | src/services/rule_sql.rs:44-53 | a group is the parenthesised AND of its conditions, FALSE when empty |
| RuleSql.BuildGroups | src/services/rule_sql.rs:41-54 | the groups share one growing bind list |
| RuleSql.BuildRuleWhere | src/services/rule_sql.rs:33-57 | clause and binds are those of the rule's intended OR of ANDs, numbered from offset + 1 |
| RuleSql.ClauseReadsAsIntended | src/services/rule_sql.rs:33-57 | for every tree the generated text parses, under SQL precedence, to that OR of ANDs |
| RuleBinds.PlaceholdersAreConsecutive | src/services/rule_sql.rs:30-57 | the text uses the placeholders offset + 1 to offset + number of binds, each once and in order |
| RuleBinds.QueryReadsAsIntended | src/services/sync.rs:270-279 | inside the query the clause stays within its parentheses: the whole WHERE text is member test AND clause |
| RuleBinds.QueryUsesEveryParameterOnce | src/services/sync.rs:269-291 | with LIMIT's index the query uses `$1` to `$n` exactly once each for its n parameters, and LIMIT's index holds the limit |
| RuleValidator.ParseRuleTree | src/services/rule_validator.rs:43-85 | the loops return exactly what the specification of validation says, first refusal included; what that is the `ValidatorValues`, `RuleScope` and `RuleValidatorLaws` rows state |
| RuleValidator.ParseGroup | src/services/rule_validator.rs:59-75 | likewise for one group with its number |
| RuleValidator.NormalizeIntList | src/services/rule_validator.rs:203-241 | likewise for a list of numbers, whose specification `IntArrayIsSaved` and `CommaListIsSaved` pin down |
| RuleValidator.NormalizeTextList | src/services/rule_validator.rs:263-297 | likewise for a list of enum values, repetitions dropped |
| ValidatorValues.NumberTextExactly | src/services/rule_validator.rs:220 | a text counts as the number n if and only if it is white space around an optional sign, zeros and the digits of n, within 64 bits |
| ValidatorValues.NumberIsSaved | src/services/rule_validator.rs:242-262 | a number box is saved as n if and only if its text is a way to write n |
| ValidatorValues.JsonNumberIsSaved | src/services/rule_validator.rs:255 | a JSON number is saved as it is, one beyond 64 bits as the largest that fits |
| ValidatorValues.BetweenIsSaved | src/services/rule_validator.rs:110-121 | the two bounds of "between" are saved as the numbers written, each in its place |
| ValidatorValues.IntListExactly | src/services/rule_validator.rs:216-231 | a list is saved as the numbers ns if and only if its items, numbers or texts, stand for ns one by one |
| ValidatorValues.IntArrayIsSaved | src/services/rule_validator.rs:203-240 | likewise from the submitted array to the saved one |
| ValidatorValues.CommaListIsSaved | src/services/rule_validator.rs:206-211 | numbers written with commas between them are saved as those numbers |
| ValidatorValues.BlankFieldsArePassedOver | src/services/rule_validator.rs:206-211 | blank fields between commas are passed over wherever they stand, the others are trimmed |
| ValidatorValues.ListsOfOtherKinds | src/services/rule_validator.rs:212-214 | a single number is a list of one; null is no list; other kinds are refused |
| ValidatorValues.OtherValuesAreRefused | src/services/rule_validator.rs:190-262 | which values a number box and a yes-or-no box refuse, and with which reason |
| ValidatorValues.TruthTextExactly | src/services/rule_validator.rs:190-202 | the texts saved as yes and as no are exactly "true", "1", "yes" and "false", "0", "no", whatever the capitals and the white space around them |
| ValidatorValues.EnumValueExactly | src/services/rule_validator.rs:164-178 | a text is taken for a value if and only if it spells the value, or "fall" for autumn, whatever the capitals and the white space around it |
| ValidatorValues.NameIsSaved | src/services/rule_validator.rs:313 | a single name is saved as v if and only if it names v |
| ValidatorValues.NameListIsSaved | src/services/rule_validator.rs:284-296 | a list of names is accepted if and only if each item names a value, and keeps each value once, in the order in which they first occur |
| ValidatorValues.AcceptedItemNames | src/services/rule_validator.rs:286-291 | an accepted item is saved as the value it names |
| ValidatorValues.BlankNamesArePassedOver | src/services/rule_validator.rs:265-269 | nulls and blank texts in an array of names are passed over, and nothing else is |
| ValidatorValues.CommaNamesAreSaved | src/services/rule_validator.rs:270-275 | names written with commas between them are saved like an array of them |
| ValidatorValues.FragmentIsSaved | src/services/rule_validator.rs:312 | a fragment is saved as v if and only if v is its lower-case form without the white space around it |
| ValidatorValues.PatternIsSaved | src/services/rule_validator.rs:310 | a pattern that is not blank is saved exactly as typed |
| ValidatorValues.NumberAsText | src/services/rule_validator.rs:301 | a number given for a text is taken as it is written |
| RuleScope.ValidExactlyIfMeaningful | src/models/condition.rs:167-181 | an operator is offered for a kind of fact if and only if it can hold for some fact of that kind |
| RuleScope.ChoicesAreExactlyTheFacts | src/services/rule_validator.rs:145-158 | a value may be asked for if and only if some birthday that can be saved has it |
| RuleScope.ConditionRefusals | src/services/rule_validator.rs:94-135 | when a condition is refused for its target, its operator, a missing upper bound or its pattern |
| RuleScope.GroupRefusals | src/services/rule_validator.rs:61-70 | a group is refused as empty or too long exactly if it has no conditions or more than 12 |
| RuleScope.TreeRefusals | src/services/rule_validator.rs:44-55 | a rule is refused whole exactly if it has no groups or more than 8, else exactly if some group is; "anyone" drops its groups |
| RuleScope.FirstBadGroupIsNamed | src/services/rule_validator.rs:59-76 | a refusal names the first bad group |
| RuleValidatorLaws.TextsAreDistinctChoices | src/services/rule_validator.rs:284-296 | an accepted list of enum values holds distinct values in the fact's own range, and is not empty |
| RuleValidatorLaws.ContainsFragmentIsNormal | src/services/rule_validator.rs:298-313 | an accepted fragment is non-empty, trimmed and lower-case |
| RuleValidatorLaws.NormalizedIsWellTyped | src/services/rule_validator.rs:180-317 | every normalised value has the type its target and operator need |
| RuleValidatorLaws.AcceptedConditionIsWellTyped | src/services/rule_validator.rs:87-143 | an accepted condition is well-typed and keeps its target and operator |
| RuleValidatorLaws.AcceptedTreeIsWellFormed | src/services/rule_validator.rs:43-85 | an accepted tree is well-typed, non-empty, within 8 groups of 12 conditions, and no condition is dropped, added or moved |
| RuleValidatorLaws.WellFormedTreesAreTheFixedPoints | src/services/rule_validator.rs:43-143 | a tree comes back unchanged when it is validated again if and only if it is well-formed |
| RuleValidatorLaws.FirstBadConditionIsNamed | src/services/rule_validator.rs:71-74 | a refusal names the first bad condition of the group, with its own reason |
| RuleAgreement.TargetValue | src/services/rule_sql.rs:62-88 | on a sound row each target's SQL expression has the value of the fact of that name, NULL included |
| RuleAgreement.ConditionAgrees | src/services/rule_sql.rs:90-205 | a well-typed condition is decided alike on both paths, and fails in SQL exactly when its integer list does not fit `int[]` |
| RuleAgreement.TreeCorresponds | src/services/condition_eval.rs:22-32 | likewise for every well-formed tree: it fails exactly when some list does not fit, else it is TRUE exactly when the evaluator accepts |
| RuleAgreement.CompiledClauseMeansRule | src/services/condition_eval.rs:22-134 | for every accepted rule, every row that saves and removals can leave, every date and offset: the text parses, it evaluates without error if and only if the lists fit, and then is TRUE if and only if the evaluator accepts the member's facts |
| RuleAgreement.ShortcutsAgree | src/services/rule_sql.rs:34-48 | for any tree, validated or not, "anyone" holds on both paths, and no groups and an empty group hold on neither |
| RuleAgreement.IllTypedValues | src/services/condition_eval.rs:61-127 | an ill-typed value matches nobody in the evaluator, a missing text under `neq` aside, and is sent to SQL as 0, "" or false |
| RuleAgreement.OversizedListFails | src/services/rule_sql.rs:166-175 | the validator accepts "birth month in [2147483648]", whose query fails on every row |
| RuleAgreement.EmptyNotInPartsOnMissingFacts | src/services/rule_sql.rs:185-203 | for every `not_in` with an empty list, which the validator refuses, SQL says TRUE, while the evaluator says yes if and only if the fact is present and is a number or text |
| RuleAgreement.UnvalidatedEmptyListDiffers | src/services/rule_sql.rs:194-198 | for example, "Chinese zodiac not in []" for a member without a birth year |
| SortedIds.ListingIsUnique | src/services/sync.rs:294-309 | a set has one ordered listing, so comparing the two ordered lists compares the two sets |
| SortedIds.LeIsDictionaryOrder | src/services/sync.rs:262 | ids are in dictionary order: a prefix first, else by the first character that differs |
| SortedIds.Take | src/services/sync.rs:262 | LIMIT n keeps the first n rows, or all if there are fewer |
| SortedIds.TakeIsFirst | src/services/sync.rs:260-262 | ordered and limited, a set yields exactly those members that fewer than n others come before |
| SortedIds.ListInOrder | src/services/sync.rs:299-306 | the rows come back in order without repetition, in whatever order they are found |
| SyncEngine.QueryOnRow | src/services/sync.rs:268-292 | on a sound row the built query selects exactly the members the evaluator accepts, and fails exactly when a list does not fit |
| SyncEngine.Wanted | src/services/sync.rs:257-292 | the list is in order, no longer than the limit, and holds exactly the matching members that fewer than `user_limit` other matching ones come before |
| SyncEngine.Engine.constructor | src/services/sync.rs:207-225 | the engine starts from the stored links and birthdays |
| SyncEngine.Engine.RunQuery | src/services/sync.rs:273-291 | a WHERE text yields, in order, those rows on which it is TRUE that fewer than `limit` others come before, and fails when some row fails |
| SyncEngine.Engine.RemoteReplace | src/services/rolelogic.rs:266-347 | a list upload, in one request or through a session, replaces the remote set or changes nothing, and reports the first error |
| SyncEngine.Engine.UploadApplied | src/services/sync.rs:376-404 | which results are mirrored, skipped or retried; a link reported gone is deleted |
| SyncEngine.Engine.UploadAndMirror | src/services/sync.rs:311-335 | remote set and mirror change together, or neither does, or the link goes |
| SyncEngine.Engine.DrainToEmpty | src/services/sync.rs:339-371 | an empty mirror costs no upload; otherwise the set is emptied on both sides or left alone |
| SyncEngine.Engine.MembersWithBirthday | src/services/sync.rs:257-267 | under "anyone" the list is the first `user_limit` members with a birthday |
| SyncEngine.Engine.MatchingIds | src/services/sync.rs:268-292 | the compiled query returns the first `user_limit` members the evaluator accepts, or fails exactly when a list does not fit |
| SyncEngine.Engine.QualifyingIds | src/services/sync.rs:257-292 | likewise for every configured rule |
| SyncEngine.Engine.SyncForRoleLink | src/services/sync.rs:207-337 | the procedure has exactly the effect and the result that `BulkStep` and `BulkResult` define by the evaluator, though it goes through compiled SQL |
| SyncEngine.Engine.PlanActions | src/services/sync.rs:97-131 | one action per link, planned exactly where verdict and mirror differ |
| SyncEngine.Engine.PerformAction | src/services/sync.rs:143-195 | remote set and mirror change together, or neither does, or the link goes |
| SyncEngine.Engine.SyncForPlayer | src/services/sync.rs:53-201 | the procedure has exactly the effect `PlayerStep` defines for all links at once |
| SyncLaws.StepKeepsGood | src/services/sync.rs:53-404 | every sync, save, registration and removal keeps rules well-formed, rows sound and mirrors exact |
| SyncLaws.MirrorIsExactThroughout | src/services/sync.rs:207-404 | at every moment of every run, whatever the remote outcomes, the mirror of each live link equals its remote set |
| SyncLaws.EveryChangeIsJustified | src/services/sync.rs:53-404 | in every run a user enters a set only in a sync in which they are listed and qualify, and leaves only when the rule is unconfigured, a membership answer and the rule exclude them, or the limit cuts them; a link goes only when it is deregistered or reported gone |
| SyncLaws.BulkChangesExactly | src/services/sync.rs:230-335 | a bulk sync changes anything if and only if its upload succeeds or the link is reported gone; gateway errors, missing limits, refused queries and queries that fail on a cast upload nothing |
| SyncLaws.BulkReportsExactly | src/services/sync.rs:230-255 | a bulk sync reports a failure if and only if a call or query it needed failed and the reason is not gone, disabled or held, and then that failure |
| SyncLaws.FailedSyncsChangeNothing | src/services/sync.rs:230-255 | what goes wrong changes nothing: no gateway answer, no user limit, a refused or failing query, a failed upload, failed calls for single members |
| SyncLaws.PlayerChangesExactly | src/services/sync.rs:137-198 | a player sync changes anything if and only if some planned call succeeds or finds its link gone |
| SyncLaws.BulkLeavesIntended | src/services/sync.rs:207-337 | a bulk sync that runs through leaves, remotely and in the mirror, at most `user_limit` users: exactly the matching members that fewer than `user_limit` other matching ones come before; nobody when the rule is unconfigured or the guild empty; nothing else changes |
| SyncLaws.SecondBulkSyncWritesNothing | src/services/sync.rs:294-309 | an immediate second bulk sync, told the same, uploads nothing and changes nothing |
| SyncLaws.PlayersRestAfterBulk | src/services/sync.rs:102-131 | after a bulk sync whose limit did not bind, no member's own sync plans anything on the link |
| SyncLaws.PlayerSettles | src/services/sync.rs:117-131 | a successful player sync settles its player on a link and leaves every other player's plan as it was |
| SyncLaws.PlayersSettle | src/services/sync.rs:53-201 | after a successful sync of each of these members none has anything left to do, and nobody else has come to hold the role |
| SyncLaws.BulkRestsAfterPlayers | src/services/sync.rs:294-309 | once every member is synced and no outsider holds the role, the bulk sync uploads nothing |
| SyncInterleaving.AnyScheduleIsPlayerStep | src/services/sync.rs:137-198 | whatever the schedule of the concurrent actions, the result is that of the player sync, and until then mirror and remote set differ only in that player, on links whose call is done |
| JobQueue.BackoffRises | src/services/jobs.rs:183-189 | up to the eighth attempt a later delay is longer, whatever the jitter |
| JobQueue.BackoffSeconds | src/services/jobs.rs:181-189 | the delays are 2, 4, 8, ... to 256 seconds and the jitter, clamped to attempts 1 to 8 |
| JobQueue.ClaimsOldestDue | src/services/jobs.rs:94-105 | a row is claimed if and only if it is pending and due and fewer than a batch of such rows come before it; what a claim writes |
| JobQueue.ReapsOldLocks | src/services/jobs.rs:155-161 | a row is sent back if and only if it is in progress under a lock more than `max_lock` old |
| JobQueue.CollectsOldFinishedRows | src/services/jobs.rs:170-175 | completed rows are kept six hours, dead ones seven days, all others for good |
| JobQueue.DefaultRetriesTakeFourMinutes | src/services/jobs.rs:181-189 | the waits between eight attempts add up to at least 254 s and less than 261 s |
| JobQueue.JobTable.constructor | migrations/003_jobs.sql:14-29 | the table starts empty |
| JobQueue.JobTable.Enqueue | src/services/jobs.rs:63-87 | one new pending row under a fresh id, due after the delay; no other row changes |
| JobQueue.JobTable.EnqueueConfigSyncUnique | src/services/jobs.rs:223-247 | afterwards a sync of the link is pending, and a row was added only if none was |
| JobQueue.JobTable.ClaimBatch | src/services/jobs.rs:89-113 | the oldest due pending rows become the worker's, each with one more attempt, and exactly those are returned |
| JobQueue.JobTable.Complete | src/services/jobs.rs:115-124 | the row is finished and unlocked, found by id alone |
| JobQueue.JobTable.FailRetry | src/services/jobs.rs:126-140 | the row is pending again, due after its backoff, found by id alone |
| JobQueue.JobTable.FailDead | src/services/jobs.rs:142-153 | the row is dead and unlocked, found by id alone |
| JobQueue.JobTable.ReapStuck | src/services/jobs.rs:155-166 | a row changes if and only if it is in progress with a lock more than `max_lock` old, and is then pending and due now; the rows changed are counted |
| JobQueue.JobTable.GcOld | src/services/jobs.rs:170-179 | a row goes if and only if it is completed for more than six hours or dead for more than seven days |
| JobRuns.LocksMarkRowsInProgress | src/services/jobs.rs:89-166 | with no assumption: in every run lock fields are set exactly on rows in progress |
| JobRuns.AttemptsAreBounded | src/services/jobs.rs:89-166 | with no assumption: in every run, late settlements and crashes included, attempts never exceed the allowance plus the job's reaps and releases |
| JobRuns.NoTwoWorkersOwnAJob | src/services/jobs.rs:89-153 | in timely runs each claim held is the only one on its row, which is in progress and locked by the claimant, and `completed_at` is set exactly on finished rows |
| JobRuns.OwnershipNeedsTimeliness | src/services/jobs.rs:155-166 | of all steps, ownership is ended by exactly those reaps that take a row from a live worker |
| JobRuns.OwnedExactlyInTimelyRuns | src/services/jobs.rs:89-166 | ownership holds throughout a run if and only if no reap takes a row that a live worker still holds |
| JobRuns.ThirtyMinutesSuffice | src/tasks/job_worker.rs:19-41 | if reaps use a lock time of thirty minutes and none finds a claim older than that still held, no two workers own a job, in every run from an empty queue |
| JobRuns.FinishedJobsStayFinished | src/services/jobs.rs:115-153 | in timely runs a completed or dead row never changes again until it is collected |
| JobRuns.OnlySendingBackReopens | src/services/jobs.rs:126-140 | with no assumption on time: a step takes a finished row out of its final status if and only if it settles a claim of that row as a release, or as a retry with attempts left |
| JobRuns.FinalExactlyIfNeverSentBack | src/services/jobs.rs:115-153 | in every run a finished job stays finished if and only if no such settlement happens while its row exists |
| JobRuns.RemovedRowStaysAway | src/services/jobs.rs:170-179 | in every run a collected id does not come back |
| JobRuns.LateSettlementReopens | src/services/jobs.rs:126-140 | a reachable state in which a late retry makes a completed job pending again |
| JobRuns.JobsWaitUntilDue | src/services/jobs.rs:98-104 | in timely runs a pending row is left exactly as it is until a worker looks at or after its due time |
| JobRuns.RetriedJobWaits | src/services/jobs.rs:126-140 | a job sent back, to be retried or at a shutdown, is not dispatched again before its 2 to 256 seconds are over, whatever else happens |
| JobWorker.ConfigSyncDiesOnlyWhenAttemptsRunOut | src/tasks/job_worker.rs:79-128 | whatever the other systems answer, a config sync's job dies exactly when its sync fails and its attempts have run out |
| JobWorker.Dispatch | src/tasks/job_worker.rs:130-155 | a job runs the sync its payload asks for, of its own user or link, and ends in success exactly if the sync does; an unreadable one runs nothing and is terminal |
| JobWorker.SettledJobEnds | src/tasks/job_worker.rs:64-128 | for either kind of job: completed if and only if its sync succeeded; dead if and only if it cannot be read, its link is gone, the user limit was met, or an error was its last allowed; else pending; unlocked, and no other row changes |
| JobWorker.BatchIsRun | src/tasks/job_worker.rs:63-105 | settling held claims one by one is a possible run, after which none of them is held |
| JobWorker.BatchAmongOthers | src/tasks/job_worker.rs:63-105 | it still is a run when other workers take any steps before, between and after, as long as they leave this worker's claims to it |
| JobWorker.InAnyOrder | src/tasks/job_worker.rs:43 | a batch is handed over in some order, each claim once |
| JobWorker.OpeningIsRun | src/tasks/job_worker.rs:34-53 | a pass opens with a due reap and a claim, and nobody holds any of the new claims yet |
| JobWorker.Worker.constructor | src/tasks/job_worker.rs:23-27 | a worker starts as if it had just reaped |
| JobWorker.Worker.Settle | src/tasks/job_worker.rs:64-104 | success, terminal error, last attempt, retry and release each issue their own statement; a failing statement changes nothing |
| JobWorker.Worker.SettleBatch | src/tasks/job_worker.rs:63-105 | the loop does exactly that run, and each job whose statement went through has the status its report calls for |
| JobWorker.Worker.RunPass | src/tasks/job_worker.rs:29-106 | a pass reaps after two minutes, with a lock time of thirty, claims the eight oldest due jobs, gives each the status its report calls for, settles each exactly once, and leaves the worker holding nothing |
| JobFairness.BatchIsFull | src/services/jobs.rs:100-103 | LIMIT n takes n rows when there are that many |
| JobFairness.PassingOverCostsEight | src/services/jobs.rs:100-104 | each time a due job is passed over, older jobs use up eight attempts |
| JobFairness.NoStarvation | src/services/jobs.rs:89-113 | without reaps and releases a job is passed over at most an eighth as often as its elders had attempts left |
| ConfigQueue.RoleLinks.RoleConfigSave | src/routes/admin.rs:439-501 | the rule is stored exactly when it validates and the version still matches, its version rises by one, each of the three refusals has its exact cause, and a sync five seconds later is queued |
| ConfigQueue.RoleLinks.EnqueueResyncAll | src/services/sync.rs:409-420 | afterwards each link whose enqueue did not fail has a pending sync; no existing job changed, and a link gained at most one job, none if it already had one pending |
| ConfigPromises.PromiseLostExactly | src/services/jobs.rs:115-166 | with no assumption on time: of all saves, ticks, reads, enqueues of any kind, claims, settlements, reaps and removals, a promise is broken by exactly those settlements that finish the last job it rests on for a claim that has read too old a version |
| ConfigPromises.KeptExactlyIfNeverBroken | src/services/jobs.rs:223-247 | in every run all promises are kept throughout if and only if no move is such a settlement |
| ConfigPromises.TickKeepsPromise | src/services/jobs.rs:228-247 | skipping an enqueue because a sync is pending is safe |
| ConfigPromises.NoSavedRuleIsLost | src/routes/admin.rs:446-488 | with jobs of all kinds in the queue, once a sync was queued or found pending at version v, from there on a job is to read v or later, or has read it, or has died over it, in every run in which workers settle only claims they still own |
| ConfigPromises.TimelyRunsAreInTime | src/tasks/job_worker.rs:19-21 | if no reap takes a row from a live worker, workers settle only claims they still own |
| ConfigPromises.LateCompletionLosesARule | src/services/jobs.rs:115-124 | a reachable state in which a late completion has used up the job the tick relied on, and the saved rule is lost |
| ConfigPromises.RunningJobMayHaveReadTheOldRule | src/services/jobs.rs:232-236 | a reachable state in which the only sync of a link is in progress and has read the rule before it was saved, so a tick that counted it would lose the new one |
| RoleLogic.ChunksConcatenateToInput | src/services/rolelogic.rs:286-288 | the chunks make up the list again, in order |
| RoleLogic.Chunks | src/services/rolelogic.rs:286-288 | every chunk holds between one id and the chunk size |
| RoleLogic.RemoteLink.constructor | src/services/rolelogic.rs:261-272 | an upload meets the link's present users and no open session |
| RoleLogic.RemoteLink.ReplaceUsers | src/services/rolelogic.rs:215-259 | the set is replaced whole or not at all |
| RoleLogic.RemoteLink.StartUpload | src/services/rolelogic.rs:349-389 | a success opens one new empty session; a reply without its id is an error that leaves such a session open |
| RoleLogic.RemoteLink.UploadChunk | src/services/rolelogic.rs:391-424 | a success appends the chunk to its session |
| RoleLogic.RemoteLink.CommitUpload | src/services/rolelogic.rs:426-468 | a success swaps in the staged users and closes the session; a failure keeps both |
| RoleLogic.RemoteLink.CancelUpload | src/services/rolelogic.rs:470-500 | a success closes the session |
| RoleLogic.SendChunks | src/services/rolelogic.rs:288-314 | reports the first chunk's error, if any; otherwise the session holds the whole list |
| RoleLogic.FaultlessExactlyIfAllSucceed | src/services/rolelogic.rs:266-347 | an upload has no error to report if and only if every call it makes succeeds |
| RoleLogic.FirstErrorIsReported | src/services/rolelogic.rs:266-347 | the error reported is that of the first failing call in the order of the calls: the PUT, or start, chunks and commit |
| RoleLogic.UploadSizes | src/services/rolelogic.rs:273-288 | up to 100,000 ids take one request; longer lists go in chunks of 100,000, the last one shorter |
| RoleLogic.NoBadChunk | src/services/rolelogic.rs:288-314 | the chunk error reported is that of the first chunk that fails |
| RoleLogic.UploadUsers | src/services/rolelogic.rs:266-347 | all or nothing for any list and any failing calls, with the first error reported; a session stays open if and only if its id never arrived, or the upload failed and so did cancelling it |
| IframeSession.ConstantTimeEq | src/services/rl_token.rs:220-229 | the XOR and OR loop over all bytes is equality |
| IframeSession.VerifyIframeSession | src/services/rl_token.rs:179-218 | the checks return exactly what the specification of verification says |
| IframeSession.AcceptedTokensAreSigned | src/services/rl_token.rs:203-210 | whatever is accepted carries the hash of its own fields, the read-only flag included, and has not expired |
| IframeSession.MintedTokenVerifies | src/services/rl_token.rs:155-218 | a minted token verifies to the minted session exactly when no id holds a colon and it has not expired, and otherwise to nothing |
| IframeSession.MintedTokenLastsAnHour | src/services/rl_token.rs:155-201 | the text of a token; it is valid through its 3600th second and refused from the 3601st on |

## Left out

- Wire spelling: target and operator keys are decoded before the model begins (an unknown key is `None`), and error texts are reduced to their reasons.
- JSON numbers are the integers that serde_json keeps as integers; fractions and exponents, which a scalar number condition truncates, are not modelled.
- Lower-casing is ASCII; the source's Unicode case mapping differs only on texts that no enum value contains. `contains` fragments with other capitals are therefore not covered. Trimming uses the full Unicode white space.
- The regular-expression engine is one parameter shared by both paths. Rust's `regex` and PostgreSQL's `~` are different engines, and nothing here claims that they agree.
- The clause is modelled as tokens: how characters form tokens, and the text of the member's local date, which is one token here, are left out.
- SQL errors are strict: an expression with a failing operand fails, in whatever order the server evaluates. A server that skips the operand because the member test is already false would return a result where the model says that the query fails; this concerns only rules whose lists do not fit.
- Time zone databases and the clock: the local date is an input, the same on both paths; PostgreSQL's and chrono's zone tables are not compared. NUL characters, which PostgreSQL text cannot hold, are not excluded.
- `ORDER BY discord_id` is by character code; another database collation would order ids differently, though consistently on both sides of the comparison.
- Each sync is one step: the rows it reads do not change until it has written. Overlapping syncs of one link, responses lost after a remote commit, and local writes that fail after a remote success are excluded; the code does not keep the mirror exact there.
- Database reads other than the bulk query are taken to succeed; a failing one makes the sync return an error before it has changed anything.
- `link_state_error` and `shrink_held_error` read the body of an error response; their outcomes (gone, disabled, held) are what the model starts from.
- Uploads: a response lost after RoleLogic has applied the call is excluded, and sessions left open by earlier uploads are not carried from one sync to the next.
- Concurrent player actions are limited to ten at a time in the source; the model allows any schedule, which includes those.
- `FOR UPDATE SKIP LOCKED`: statements are atomic steps, so a claim never meets a locked row. NOTIFY wake-ups and polling only decide when a step is taken.
- Shutdown: only the release of claimed jobs is modelled. That no new job starts after shutdown is not something the code keeps, since reading the signal consumes it.
- JobWorker.Worker.RunPass: states what a pass does when no other worker's statement falls in between; that its settlements remain possible steps otherwise is `BatchAmongOthers`, and the laws of JobRuns hold for all interleavings.
- ConfigPromises.NoSavedRuleIsLost: a job that died stands for a promise as "reported dead"; a job in progress whose worker has crashed counts as waiting for the reap; a failed enqueue after a save promises nothing until the next tick, as in the source.
- The version number that `role_config_save` returns is read in a separate query and may be newer; the row's own version is used. Versions, attempts and ids do not overflow.
- HMAC and the encoding of text as bytes are parameters; the JWT half of rl_token.rs, cookies and base64 are left out.
- HTTP handlers, access checks, templates, rate limiting, logging, configuration and display columns such as `discord_name` and `show_year`.
