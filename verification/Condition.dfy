/**
  src/models/condition.rs and src/models/rule.rs: JSON values, condition
  targets and operators, and the rule tree, an OR of AND-groups.
 */
module Condition {
  import opened Wrappers
  import opened Text

  /** The integers that serde_json keeps as integers. */
  type JsonInt = n: int | I64_MIN <= n <= 0xffff_ffff_ffff_ffff

  /** A `serde_json::Value`; an object's content is never looked at. */
  datatype Json =
    | JNull
    | JBool(b: bool)
    | JInt(n: JsonInt)
    | JString(s: string)
    | JArray(items: seq<Json>)
    | JObject
  {
    function AsBool(): Option<bool> {
      if JBool? then Some(b) else None
    }

    function AsI64(): Option<int> {
      if JInt? && IsI64(n) then Some(n) else None
    }

    function AsStr(): Option<string> {
      if JString? then Some(s) else None
    }
  }

  datatype TargetKind = BoolKind | IntKind | StringKind

  datatype Target =
    | HasBirthdaySet
    | HasBirthYear
    | IsBirthdayToday
    | IsBirthdayWeek
    | IsBirthdayMonth
    | DaysUntilBirthday
    | AgeYears
    | AgeTurningThisYear
    | BirthMonth
    | BirthDay
    | BirthYear
    | ZodiacSign
    | ChineseZodiac
    | BirthSeason
    | Birthstone
    | BirthWeekday
  {
    function Kind(): TargetKind {
      match this
      case HasBirthdaySet | HasBirthYear | IsBirthdayToday | IsBirthdayWeek | IsBirthdayMonth => BoolKind
      case DaysUntilBirthday | AgeYears | AgeTurningThisYear | BirthMonth | BirthDay | BirthYear => IntKind
      case ZodiacSign | ChineseZodiac | BirthSeason | Birthstone | BirthWeekday => StringKind
    }
  }

  datatype Operator = Eq | Neq | Gt | Gte | Lt | Lte | Between | Contains | Regex | In | NotIn {
    predicate ValidFor(kind: TargetKind) {
      match kind
      case BoolKind => Eq?
      case IntKind => !Contains? && !Regex?
      case StringKind => Eq? || Neq? || Contains? || Regex? || In? || NotIn?
    }
  }

  datatype Condition = Condition(target: Target, operator: Operator, value: Json, valueEnd: Option<Json>)

  type Group = seq<Condition>

  datatype RuleTree = RuleTree(grantOnAnyBirthday: bool, groups: seq<Group>)

  const MAX_GROUPS := 8
  const MAX_CONDITIONS_PER_GROUP := 12

  /** The rule of a link nobody has configured yet; it grants the role to nobody. */
  const UNCONFIGURED := RuleTree(false, [])

  /**
    The regular-expression engine, as a parameter: which patterns compile, and
    which texts they match. Both evaluation paths are given the same one.
   */
  datatype RegexEngine = RegexEngine(compiles: string -> bool, isMatch: (string, string) -> bool)

  /** The integers of an array; anything else in it is passed over. */
  function Ints(items: seq<Json>): seq<int> {
    if items == [] then []
    else
      match items[0].AsI64()
      case Some(n) => [n] + Ints(items[1..])
      case None => Ints(items[1..])
  }

  function Strings(items: seq<Json>): seq<string> {
    if items == [] then []
    else
      match items[0].AsStr()
      case Some(s) => [s] + Strings(items[1..])
      case None => Strings(items[1..])
  }

  /** `int_list` and `int_array`: empty when the value is not an array. */
  function IntArray(value: Json): seq<int> {
    if value.JArray? then Ints(value.items) else []
  }

  /** `str_array`. */
  function StrArray(value: Json): seq<string> {
    if value.JArray? then Strings(value.items) else []
  }

  lemma {:induction false} IntsOfIntItems(items: seq<Json>)
    requires forall v <- items :: v.AsI64().Some?
    ensures |Ints(items)| == |items|
    ensures forall i :: 0 <= i < |items| ==> items[i].AsI64() == Some(Ints(items)[i])
  {
    if items != [] {
      IntsOfIntItems(items[1..]);
    }
  }

  lemma {:induction false} StringsOfStringItems(items: seq<Json>)
    requires forall v <- items :: v.JString?
    ensures |Strings(items)| == |items|
    ensures forall i :: 0 <= i < |items| ==> items[i].s == Strings(items)[i]
  {
    if items != [] {
      StringsOfStringItems(items[1..]);
    }
  }
}
