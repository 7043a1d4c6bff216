/**
  Which operators and values a rule may use: exactly those that can match a
  member, and what a refused rule is told.
 */
module RuleScope {
  import opened Wrappers
  import opened Calendar
  import opened Birthday
  import BL = BirthdayLaws
  import opened ConditionEval
  import opened RuleValidator
  import RuleValidatorLaws
  import Text
  import C = Condition

  // --- operators ------------------------------------------------------------------------

  /** Some condition with this operator holds for some fact of this kind. */
  ghost predicate CanHold(op: C.Operator, kind: C.TargetKind) {
    match kind
    case BoolKind => exists c: C.Condition, a :: c.operator == op && BoolMatch(c, a)
    case IntKind => exists c: C.Condition, a :: c.operator == op && IntMatch(c, Some(a))
    case StringKind => exists c: C.Condition, a, regex :: c.operator == op && StringMatch(c, Some(a), regex)
  }

  const SOME_NUMBER := C.JInt(1)
  const SOME_TEXT := C.JString("leo")
  const ANY_PATTERN := C.RegexEngine(_ => true, (_, _) => true)

  function Sample(op: C.Operator, value: C.Json): C.Condition {
    C.Condition(C.BirthMonth, op, value, Some(value))
  }

  /** An operator is offered for a kind of fact exactly if it can hold for some fact of that kind. */
  lemma ValidExactlyIfMeaningful(op: C.Operator, kind: C.TargetKind)
    ensures op.ValidFor(kind) <==> CanHold(op, kind)
  {
    match kind
    case BoolKind => MeaningfulForBools(op);
    case IntKind => MeaningfulForNumbers(op);
    case StringKind => MeaningfulForTexts(op);
  }

  lemma MeaningfulForBools(op: C.Operator)
    ensures op.ValidFor(C.BoolKind) <==> CanHold(op, C.BoolKind)
  {
    if op.Eq? {
      assert BoolMatch(Sample(op, C.JBool(true)), true);
    }
  }

  lemma MeaningfulForNumbers(op: C.Operator)
    ensures op.ValidFor(C.IntKind) <==> CanHold(op, C.IntKind)
  {
    if op.ValidFor(C.IntKind) {
      var one, list := Sample(op, SOME_NUMBER), Sample(op, C.JArray([SOME_NUMBER]));
      assert C.Ints([SOME_NUMBER]) == [1];
      match op
      case Eq => assert IntMatch(one, Some(1));
      case Neq => assert IntMatch(one, Some(2));
      case Gt => assert IntMatch(one, Some(2));
      case Gte => assert IntMatch(one, Some(1));
      case Lt => assert IntMatch(one, Some(0));
      case Lte => assert IntMatch(one, Some(1));
      case Between => assert IntMatch(one, Some(1));
      case In => assert IntMatch(list, Some(1));
      case NotIn => assert IntMatch(list, Some(2));
    }
  }

  lemma MeaningfulForTexts(op: C.Operator)
    ensures op.ValidFor(C.StringKind) <==> CanHold(op, C.StringKind)
  {
    if op.ValidFor(C.StringKind) {
      var one, list := Sample(op, SOME_TEXT), Sample(op, C.JArray([SOME_TEXT]));
      assert C.Strings([SOME_TEXT]) == ["leo"];
      assert Text.HasAt("leo", "leo", 0);
      match op
      case Eq => assert StringMatch(one, Some("leo"), ANY_PATTERN);
      case Neq => assert StringMatch(one, Some(""), ANY_PATTERN);
      case Contains => assert StringMatch(one, Some("leo"), ANY_PATTERN);
      case Regex => assert StringMatch(one, Some("leo"), ANY_PATTERN);
      case In => assert StringMatch(list, Some("leo"), ANY_PATTERN);
      case NotIn => assert StringMatch(list, Some(""), ANY_PATTERN);
    }
  }

  // --- values ---------------------------------------------------------------------------

  /** The text a target has for members born on a date. */
  function TextOf(target: C.Target, d: Derived): Option<string> {
    match target
    case ZodiacSign => Some(d.zodiac)
    case ChineseZodiac => d.chineseZodiac
    case BirthSeason => Some(d.season)
    case Birthstone => Some(d.birthstone)
    case BirthWeekday => d.birthWeekday
    case _ => None
  }

  /** A member born on this date, in a year that can be saved, has this text. */
  ghost predicate HasFact(target: C.Target, v: string, month: int, day: int, year: int) {
    && 1900 <= year <= 2100
    && RealBirthday(month, day, Some(year))
    && TextOf(target, ComputeDerived(month, day, Some(year))) == Some(v)
  }

  ghost predicate IsSomeonesFact(target: C.Target, v: string) {
    exists month, day, year :: HasFact(target, v, month, day, year)
  }

  lemma SomeoneBornOn(target: C.Target, v: string, month: int, day: int, year: int)
    requires HasFact(target, v, month, day, year)
    ensures IsSomeonesFact(target, v)
  {
  }

  lemma FactsAreChoices(target: C.Target, v: string)
    requires IsSomeonesFact(target, v)
    ensures v in Choices(target)
  {
    hide Zodiac, ChineseZodiac, Season, Birthstone, WeekdayName;
  }

  lemma ChoicesAreFacts(target: C.Target, v: string)
    requires v in Choices(target)
    ensures IsSomeonesFact(target, v)
  {
    hide IsSomeonesFact, HasFact;
    var i :| 0 <= i < |Choices(target)| && Choices(target)[i] == v;
    match target
    case ZodiacSign =>
      SignOpensMonth(i);
      SomeoneBornOn(target, v, i + 1, 1, 2000);
    case ChineseZodiac =>
      AnimalOfSomeYear(i);
      SomeoneBornOn(target, v, 1, 1, 1984 + i);
    case BirthSeason =>
      SeasonOfSomeMonth(i);
      SomeoneBornOn(target, v, 3 * i + 1, 1, 2000);
    case Birthstone =>
      StoneOfMonth(i);
      SomeoneBornOn(target, v, i + 1, 1, 2000);
    case BirthWeekday =>
      WeekdayOfJanuary2000(i);
      SomeoneBornOn(target, v, 1, 3 + i, 2000);
    case _ =>
  }

  /** How a fact is read off a date. */
  lemma FactOfDate(target: C.Target, v: string, month: int, day: int, year: int)
    requires 1900 <= year <= 2100 && RealBirthday(month, day, Some(year))
    requires target.ZodiacSign? ==> v == Zodiac(month, day)
    requires target.ChineseZodiac? ==> v == ChineseZodiac(year)
    requires target.BirthSeason? ==> v == Season(month)
    requires target.Birthstone? ==> v == Birthstone(month)
    requires target.BirthWeekday? ==> v == WeekdayName(Date(year, month, day))
    requires target.Kind().StringKind?
    ensures HasFact(target, v, month, day, year)
  {
    hide Zodiac, ChineseZodiac, Season, Birthstone, WeekdayName;
  }

  lemma SignOpensMonth(i: nat)
    requires i < |ZODIAC_SIGNS|
    ensures HasFact(C.ZodiacSign, ZODIAC_SIGNS[i], i + 1, 1, 2000)
  {
    hide Zodiac, RealBirthday, HasFact;
    FirstOfMonthIsReal(i + 1);
    SignOfFirst(i + 1);
    FactOfDate(C.ZodiacSign, ZODIAC_SIGNS[i], i + 1, 1, 2000);
  }

  lemma FirstOfMonthIsReal(month: int)
    requires 1 <= month <= 12
    ensures RealBirthday(month, 1, Some(2000))
  {
  }

  lemma SignOfFirst(month: int)
    requires 1 <= month <= 12
    ensures Zodiac(month, 1) == ZODIAC_SIGNS[month - 1]
  {
    hide Zodiac, LastDayOfOpeningSign;
    SignsOpenMonths(month);
    BL.SignOfDate(month, 1);
  }

  lemma SignsOpenMonths(month: int)
    requires 1 <= month <= 12
    ensures LastDayOfOpeningSign(month) >= 1
  {
  }

  lemma AnimalOfSomeYear(i: nat)
    requires i < |CHINESE_ZODIACS|
    ensures HasFact(C.ChineseZodiac, CHINESE_ZODIACS[i], 1, 1, 1984 + i)
  {
    hide HasFact;
    assert (1984 + i - 4) % 12 == i;
    FactOfDate(C.ChineseZodiac, CHINESE_ZODIACS[i], 1, 1, 1984 + i);
  }

  lemma SeasonOfSomeMonth(i: nat)
    requires i < |SEASONS|
    ensures HasFact(C.BirthSeason, SEASONS[i], 3 * i + 1, 1, 2000)
  {
    hide HasFact, RealBirthday;
    FirstOfMonthIsReal(3 * i + 1);
    FactOfDate(C.BirthSeason, SEASONS[i], 3 * i + 1, 1, 2000);
  }

  lemma StoneOfMonth(i: nat)
    requires i < |BIRTHSTONES|
    ensures HasFact(C.Birthstone, BIRTHSTONES[i], i + 1, 1, 2000)
  {
    hide HasFact, RealBirthday;
    FirstOfMonthIsReal(i + 1);
    FactOfDate(C.Birthstone, BIRTHSTONES[i], i + 1, 1, 2000);
  }

  lemma WeekdayOfJanuary2000(i: nat)
    requires i < |WEEKDAYS|
    ensures HasFact(C.BirthWeekday, WEEKDAYS[i], 1, 3 + i, 2000)
  {
    hide HasFact, WeekdayName;
    NamedInJanuary2000(i);
    FactOfDate(C.BirthWeekday, WEEKDAYS[i], 1, 3 + i, 2000);
  }

  lemma NamedInJanuary2000(i: nat)
    requires i < |WEEKDAYS|
    ensures var d := Date(2000, 1, 3 + i); RealDate(d) && WeekdayName(d) == WEEKDAYS[i]
  {
    NumberInJanuary2000(i);
    hide DayNumber, RealDate;
  }

  lemma NumberInJanuary2000(i: nat)
    requires i < |WEEKDAYS|
    ensures var d := Date(2000, 1, 3 + i); RealDate(d) && DayNumber(d) == 730122 + i && (730122 + i - 1) % 7 == i
  {
    assert DaysBeforeYear(2000) == 730119;
  }

  /** What a rule may ask of a text is exactly what somebody's birthday can give it. */
  lemma ChoicesAreExactlyTheFacts(target: C.Target, v: string)
    ensures v in Choices(target) <==> IsSomeonesFact(target, v)
  {
    hide IsSomeonesFact, Choices;
    if v in Choices(target) {
      ChoicesAreFacts(target, v);
    }
    if IsSomeonesFact(target, v) {
      FactsAreChoices(target, v);
    }
  }

  // --- refusals -------------------------------------------------------------------------

  /** Each reason to refuse a condition other than its value, and just when it is given. */
  lemma ConditionRefusals(raw: ConditionInput, regex: C.RegexEngine)
    ensures ValidatedCondition(raw, regex) == Err(UnknownTarget) <==> raw.target.None?
    ensures ValidatedCondition(raw, regex) == Err(UnknownOperator) <==> raw.target.Some? && raw.operator.None?
    ensures ValidatedCondition(raw, regex) == Err(OperatorNotValid)
       <==> raw.target.Some? && raw.operator.Some? && !raw.operator.value.ValidFor(raw.target.value.Kind())
    ensures raw.target.Some? && raw.operator == Some(C.Regex) && raw.target.value.Kind().StringKind? && raw.value.JString? ==>
              (ValidatedCondition(raw, regex) == Err(BadPattern)
               <==> Text.Trim(raw.value.s) != "" && !regex.compiles(raw.value.s))
    ensures ValidatedCondition(raw, regex) == Err(UpperBoundMissing)
       <==> && raw.target.Some? && raw.operator == Some(C.Between) && raw.target.value.Kind().IntKind?
            && NormalizedInt(raw.value).Ok? && raw.valueEnd.None?
  {
    hide Text.Trim, Text.Lower, Text.ParseI64, Text.PrintInt, Text.Split;
    if raw.target.Some? && raw.operator.Some? {
      ValueRefusals(raw.target.value, raw.operator.value, raw.value);
      if raw.valueEnd.Some? {
        ValueRefusals(raw.target.value, raw.operator.value, raw.valueEnd.value);
      }
    }
    hide NormalizedBool, NormalizedIntList, NormalizedTextList, NormalizedInt;
  }

  lemma ValueRefusals(target: C.Target, op: C.Operator, raw: C.Json)
    ensures NormalizedValue(target, op, raw).Err? ==>
              NormalizedValue(target, op, raw).error in
                {BooleanRequired, WholeNumbersRequired, NumberMissing, NumberRequired, NoValuePicked, TextsRequired,
                 NotAChoice, ValueRequired}
  {
    hide NormalizedBool, NormalizedIntList, NormalizedInt, NormalizedTextList, NormalizedText;
    NumberRefusals(raw);
    NameRefusals(target, op, raw);
  }

  lemma NumberRefusals(raw: C.Json)
    ensures NormalizedBool(raw).Err? ==> NormalizedBool(raw).error == BooleanRequired
    ensures NormalizedInt(raw).Err? ==> NormalizedInt(raw).error in {NumberMissing, NumberRequired}
    ensures NormalizedIntList(raw).Err? ==> NormalizedIntList(raw).error in {NumberMissing, WholeNumbersRequired}
  {
    hide Text.Trim, Text.Lower, IntItems, ScalarNumber, IsBlank, NormalizedInts;
    IntRefusals(IntItems(raw));
  }

  lemma NameRefusals(target: C.Target, op: C.Operator, raw: C.Json)
    ensures NormalizedTextList(target, raw).Err? ==>
              NormalizedTextList(target, raw).error in {NoValuePicked, TextsRequired, NotAChoice}
    ensures NormalizedText(target, op, raw).Err? ==>
              NormalizedText(target, op, raw).error in {ValueRequired, NotAChoice}
  {
    hide Text.Trim, Text.Lower, Text.PrintInt, TextItems, NormalizedTexts, EnumValue;
    TextRefusals(target, TextItems(raw));
    EnumRefusals(target);
  }

  lemma EnumRefusals(target: C.Target)
    ensures forall t :: EnumValue(target, t).Err? ==> EnumValue(target, t).error == NotAChoice
  {
    hide Text.Trim, Text.Lower, Choices;
  }

  lemma {:induction false} IntRefusals(items: seq<C.Json>)
    ensures NormalizedInts(items).Err? ==> NormalizedInts(items).error == WholeNumbersRequired
  {
    hide WholeNumber;
    if items != [] {
      IntRefusals(items[..|items| - 1]);
    }
  }

  lemma {:induction false} TextRefusals(target: C.Target, items: seq<C.Json>)
    ensures NormalizedTexts(target, items).Err? ==> NormalizedTexts(target, items).error in {TextsRequired, NotAChoice}
  {
    hide Text.Trim, Text.Lower, Choices;
    if items != [] {
      TextRefusals(target, items[..|items| - 1]);
    }
  }

  /** A refusal that names a group names the first bad one; one that names none says what is wrong with the whole. */
  lemma {:induction false} FirstBadGroupIsNamed(groups: seq<seq<ConditionInput>>, regex: C.RegexEngine)
    requires ValidatedGroups(groups, regex).Err?
    ensures var e := ValidatedGroups(groups, regex).error;
            && 1 <= e.group <= |groups|
            && ValidatedGroup(groups[e.group - 1], e.group, regex) == Err(e)
            && forall i :: 0 <= i < e.group - 1 ==> ValidatedGroup(groups[i], i + 1, regex).Ok?
  {
    hide ValidatedGroup;
    var n := |groups| - 1;
    GroupErrorsNameTheirGroup(groups[n], n + 1, regex);
    if ValidatedGroups(groups[..n], regex).Err? {
      FirstBadGroupIsNamed(groups[..n], regex);
    } else {
      NoBadGroup(groups[..n], regex);
    }
  }

  lemma {:induction false} NoBadGroup(groups: seq<seq<ConditionInput>>, regex: C.RegexEngine)
    requires ValidatedGroups(groups, regex).Ok?
    ensures forall i :: 0 <= i < |groups| ==> ValidatedGroup(groups[i], i + 1, regex).Ok?
  {
    hide ValidatedGroup;
    if groups != [] {
      NoBadGroup(groups[..|groups| - 1], regex);
    }
  }

  lemma GroupErrorsNameTheirGroup(inputs: seq<ConditionInput>, g: nat, regex: C.RegexEngine)
    ensures ValidatedGroup(inputs, g, regex).Err? ==> ValidatedGroup(inputs, g, regex).error.group == g
  {
    hide ValidatedCondition;
    if inputs != [] && ValidatedConditions(inputs, g, regex).Err? {
      RuleValidatorLaws.FirstBadConditionIsNamed(inputs, g, regex);
    }
  }

  /** The bounds: at most 8 groups, each of at most 12 conditions, and none of either missing. */
  lemma TreeRefusals(body: TreeBody, regex: C.RegexEngine)
    ensures ParsedTree(body, regex) == Err(TreeError(NoRule, 0, 0)) <==> !body.grantOnAnyBirthday && body.groups == []
    ensures ParsedTree(body, regex) == Err(TreeError(TooManyGroups, 0, 0)) <==> !body.grantOnAnyBirthday && |body.groups| > 8
    ensures !body.grantOnAnyBirthday && 1 <= |body.groups| <= 8 ==>
              (ParsedTree(body, regex).Err? <==> ValidatedGroups(body.groups, regex).Err?)
              && (ParsedTree(body, regex).Err? ==> ParsedTree(body, regex).error == ValidatedGroups(body.groups, regex).error)
    ensures body.grantOnAnyBirthday ==> ParsedTree(body, regex) == Ok(C.RuleTree(true, []))
  {
    hide ValidatedGroup;
    if ValidatedGroups(body.groups, regex).Err? {
      FirstBadGroupIsNamed(body.groups, regex);
    }
  }

  lemma GroupRefusals(inputs: seq<ConditionInput>, g: nat, regex: C.RegexEngine)
    ensures ValidatedGroup(inputs, g, regex) == Err(TreeError(EmptyGroup, g, 0)) <==> inputs == []
    ensures ValidatedGroup(inputs, g, regex) == Err(TreeError(TooManyConditions, g, 0)) <==> |inputs| > 12
  {
    hide ValidatedCondition;
    if inputs != [] && ValidatedConditions(inputs, g, regex).Err? {
      RuleValidatorLaws.FirstBadConditionIsNamed(inputs, g, regex);
    }
  }
}
