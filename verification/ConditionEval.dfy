/**
  src/services/condition_eval.rs: whether a member's facts satisfy a rule.
  This is the reference meaning of a rule; the compiled SQL must agree with it.
 */
module ConditionEval {
  import opened Wrappers
  import opened Text
  import opened Birthday
  import C = Condition

  predicate Evaluate(tree: C.RuleTree, facts: Facts, regex: C.RegexEngine) {
    tree.grantOnAnyBirthday || exists g <- tree.groups :: EvaluateGroup(g, facts, regex)
  }

  /** An empty group matches nobody. */
  predicate EvaluateGroup(group: C.Group, facts: Facts, regex: C.RegexEngine) {
    group != [] && forall c <- group :: EvaluateSingle(c, facts, regex)
  }

  predicate EvaluateSingle(c: C.Condition, f: Facts, regex: C.RegexEngine) {
    match c.target
    case HasBirthdaySet => BoolMatch(c, f.hasBirthday)
    case HasBirthYear => BoolMatch(c, f.hasYear)
    case IsBirthdayToday => BoolMatch(c, f.isToday)
    case IsBirthdayWeek => BoolMatch(c, f.isThisWeek)
    case IsBirthdayMonth => BoolMatch(c, f.isThisMonth)
    case DaysUntilBirthday => IntMatch(c, Some(f.daysUntil))
    case AgeYears => IntMatch(c, f.ageYears)
    case AgeTurningThisYear => IntMatch(c, f.ageTurning)
    case BirthMonth => IntMatch(c, Some(f.birthMonth))
    case BirthDay => IntMatch(c, Some(f.birthDay))
    case BirthYear => IntMatch(c, f.birthYear)
    case ZodiacSign => StringMatch(c, Some(f.zodiac), regex)
    case ChineseZodiac => StringMatch(c, f.chineseZodiac, regex)
    case BirthSeason => StringMatch(c, Some(f.season), regex)
    case Birthstone => StringMatch(c, Some(f.birthstone), regex)
    case BirthWeekday => StringMatch(c, f.weekday, regex)
  }

  predicate BoolMatch(c: C.Condition, actual: bool) {
    c.operator.Eq? && c.value.AsBool() == Some(actual)
  }

  /** A missing integer satisfies no operator. */
  predicate IntMatch(c: C.Condition, actual: Option<int>) {
    match actual
    case None => false
    case Some(a) =>
      var v := c.value.AsI64();
      match c.operator
      case Eq => v.Some? && a == v.value
      case Neq => v.Some? && a != v.value
      case Gt => v.Some? && a > v.value
      case Gte => v.Some? && a >= v.value
      case Lt => v.Some? && a < v.value
      case Lte => v.Some? && a <= v.value
      case Between =>
        var hi := if c.valueEnd.Some? then c.valueEnd.value.AsI64() else None;
        v.Some? && hi.Some? && v.value <= a <= hi.value
      case In => a in C.IntArray(c.value)
      case NotIn => a !in C.IntArray(c.value)
      case Contains => false
      case Regex => false
  }

  /** A missing text satisfies `neq` and nothing else. */
  predicate StringMatch(c: C.Condition, actual: Option<string>, regex: C.RegexEngine) {
    match actual
    case None => c.operator.Neq?
    case Some(a) =>
      var v := c.value.AsStr();
      match c.operator
      case Eq => v.Some? && a == v.value
      case Neq => v.Some? && a != v.value
      case Contains => v.Some? && Text.Contains(a, v.value)
      case Regex => v.Some? && regex.compiles(v.value) && regex.isMatch(v.value, a)
      case In => a in C.StrArray(c.value)
      case NotIn => a !in C.StrArray(c.value)
      case _ => false
  }
}
