/**
  src/services/rule_validator.rs: which submitted rules are saved, and how
  their values are normalised first.

  The functions say what each step yields; the methods are the source's loops.
  The wire spelling of targets and operators is decoded before this point:
  `None` is a key that names nothing.
 */
module RuleValidator {
  import opened Wrappers
  import opened Text
  import opened Birthday
  import C = Condition

  datatype ConditionInput = ConditionInput(
    target: Option<C.Target>,
    operator: Option<C.Operator>,
    value: C.Json,
    valueEnd: Option<C.Json>)

  datatype TreeBody = TreeBody(grantOnAnyBirthday: bool, groups: seq<seq<ConditionInput>>)

  datatype Refusal =
    | NoRule
    | TooManyGroups
    | EmptyGroup
    | TooManyConditions
    | UnknownTarget
    | UnknownOperator
    | OperatorNotValid
    | BooleanRequired
    | WholeNumbersRequired
    | NumberMissing
    | NumberRequired
    | NoValuePicked
    | TextsRequired
    | NotAChoice
    | ValueRequired
    | UpperBoundMissing
    | BadPattern

  /** Groups and conditions are counted from one; zero where the error names none. */
  datatype TreeError = TreeError(why: Refusal, group: nat, condition: nat)

  // --- values -------------------------------------------------------------------------

  /** `string_choices`: what an enum target can hold. */
  function Choices(target: C.Target): seq<string> {
    match target
    case ZodiacSign => ZODIAC_SIGNS
    case ChineseZodiac => CHINESE_ZODIACS
    case BirthSeason => SEASONS
    case Birthstone => BIRTHSTONES
    case BirthWeekday => WEEKDAYS
    case _ => []
  }

  /** `enum_value`. */
  function EnumValue(target: C.Target, raw: string): Result<string, Refusal> {
    var folded := Lower(Trim(raw));
    var v := if target.BirthSeason? && folded == "fall" then "autumn" else folded;
    if Choices(target) == [] || v in Choices(target) then Ok(v) else Err(NotAChoice)
  }

  /** A comma-separated list as an array of its non-blank fields. */
  function NonBlankFields(fields: seq<string>): seq<C.Json> {
    if fields == [] then []
    else (if Trim(fields[0]) == "" then [] else [C.JString(Trim(fields[0]))]) + NonBlankFields(fields[1..])
  }

  predicate IsBlank(v: C.Json) {
    v.JNull? || (v.JString? && Trim(v.s) == "")
  }

  function DropBlanks(items: seq<C.Json>): seq<C.Json> {
    if items == [] then []
    else (if IsBlank(items[0]) then [] else [items[0]]) + DropBlanks(items[1..])
  }

  function IntItems(raw: C.Json): seq<C.Json> {
    match raw
    case JArray(items) => items
    case JString(s) => NonBlankFields(Split(s, ','))
    case JNull => []
    case _ => [raw]
  }

  function TextItems(raw: C.Json): seq<C.Json> {
    match raw
    case JArray(items) => DropBlanks(items)
    case JString(s) => NonBlankFields(Split(s, ','))
    case JNull => []
    case _ => [raw]
  }

  function WholeNumber(v: C.Json): Option<int> {
    match v
    case JInt(_) => v.AsI64()
    case JString(s) => ParseI64(Trim(s))
    case _ => None
  }

  /** A single number may also be one that only fits a float, which saturates. */
  function ScalarNumber(v: C.Json): Option<int> {
    match v
    case JInt(n) => Some(if n > I64_MAX then I64_MAX else n)
    case _ => WholeNumber(v)
  }

  function NormalizedInts(items: seq<C.Json>): Result<seq<C.Json>, Refusal> {
    if items == [] then Ok([])
    else
      match NormalizedInts(items[..|items| - 1])
      case Err(e) => Err(e)
      case Ok(out) =>
        match WholeNumber(items[|items| - 1])
        case None => Err(WholeNumbersRequired)
        case Some(n) => if IsI64(n) then Ok(out + [C.JInt(n)]) else Err(WholeNumbersRequired)
  }

  function TextItem(target: C.Target, v: C.Json): Result<C.Json, Refusal> {
    if !v.JString? then Err(TextsRequired)
    else
      match EnumValue(target, v.s)
      case Err(e) => Err(e)
      case Ok(s) => Ok(C.JString(s))
  }

  /** Repeated values are kept once. */
  function NormalizedTexts(target: C.Target, items: seq<C.Json>): Result<seq<C.Json>, Refusal> {
    if items == [] then Ok([])
    else
      match NormalizedTexts(target, items[..|items| - 1])
      case Err(e) => Err(e)
      case Ok(out) =>
        match TextItem(target, items[|items| - 1])
        case Err(e) => Err(e)
        case Ok(v) => Ok(if v in out then out else out + [v])
  }

  function NormalizedBool(raw: C.Json): Result<C.Json, Refusal> {
    match raw
    case JBool(_) => Ok(raw)
    case JString(s) =>
      var word := Lower(Trim(s));
      if word in {"true", "1", "yes"} then Ok(C.JBool(true))
      else if word in {"false", "0", "no"} then Ok(C.JBool(false))
      else Err(BooleanRequired)
    case _ => Err(BooleanRequired)
  }

  function NormalizedIntList(raw: C.Json): Result<C.Json, Refusal> {
    match NormalizedInts(IntItems(raw))
    case Err(e) => Err(e)
    case Ok(out) => if out == [] then Err(NumberMissing) else Ok(C.JArray(out))
  }

  function NormalizedInt(raw: C.Json): Result<C.Json, Refusal> {
    if IsBlank(raw) then Err(NumberMissing)
    else
      match ScalarNumber(raw)
      case None => Err(NumberRequired)
      case Some(n) => if IsI64(n) then Ok(C.JInt(n)) else Err(NumberRequired)
  }

  function NormalizedTextList(target: C.Target, raw: C.Json): Result<C.Json, Refusal> {
    var items := TextItems(raw);
    if items == [] then Err(NoValuePicked)
    else
      match NormalizedTexts(target, items)
      case Err(e) => Err(e)
      case Ok(out) => Ok(C.JArray(out))
  }

  function NormalizedText(target: C.Target, op: C.Operator, raw: C.Json): Result<C.Json, Refusal> {
    var s :=
      match raw
      case JString(s) => s
      case JInt(n) => PrintInt(n)
      case JBool(b) => if b then "true" else "false"
      case _ => "";
    if Trim(s) == "" then Err(ValueRequired)
    else if op.Regex? then Ok(C.JString(s))
    else if op.Contains? then Ok(C.JString(Lower(Trim(s))))
    else
      match EnumValue(target, s)
      case Err(e) => Err(e)
      case Ok(v) => Ok(C.JString(v))
  }

  /** `normalize_value`. */
  function NormalizedValue(target: C.Target, op: C.Operator, raw: C.Json): Result<C.Json, Refusal> {
    match target.Kind()
    case BoolKind => NormalizedBool(raw)
    case IntKind => if op.In? || op.NotIn? then NormalizedIntList(raw) else NormalizedInt(raw)
    case StringKind => if op.In? || op.NotIn? then NormalizedTextList(target, raw) else NormalizedText(target, op, raw)
  }

  // --- conditions and trees -----------------------------------------------------------

  /** `validate_condition`. */
  function ValidatedCondition(raw: ConditionInput, regex: C.RegexEngine): Result<C.Condition, Refusal> {
    if raw.target.None? then Err(UnknownTarget)
    else if raw.operator.None? then Err(UnknownOperator)
    else
      var target, op := raw.target.value, raw.operator.value;
      if !op.ValidFor(target.Kind()) then Err(OperatorNotValid)
      else
        match NormalizedValue(target, op, raw.value)
        case Err(e) => Err(e)
        case Ok(value) =>
          if op.Between? then
            if raw.valueEnd.None? then Err(UpperBoundMissing)
            else
              match NormalizedValue(target, op, raw.valueEnd.value)
              case Err(e) => Err(e)
              case Ok(end) => Ok(C.Condition(target, op, value, Some(end)))
          else if op.Regex? && !regex.compiles(if value.JString? then value.s else "") then Err(BadPattern)
          else Ok(C.Condition(target, op, value, None))
  }

  /** The group numbered `g`, up to the first condition that is refused. */
  function ValidatedConditions(inputs: seq<ConditionInput>, g: nat, regex: C.RegexEngine): Result<C.Group, TreeError> {
    if inputs == [] then Ok([])
    else
      match ValidatedConditions(inputs[..|inputs| - 1], g, regex)
      case Err(e) => Err(e)
      case Ok(before) =>
        match ValidatedCondition(inputs[|inputs| - 1], regex)
        case Err(why) => Err(TreeError(why, g, |inputs|))
        case Ok(c) => Ok(before + [c])
  }

  function ValidatedGroup(inputs: seq<ConditionInput>, g: nat, regex: C.RegexEngine): Result<C.Group, TreeError> {
    if inputs == [] then Err(TreeError(EmptyGroup, g, 0))
    else if |inputs| > C.MAX_CONDITIONS_PER_GROUP then Err(TreeError(TooManyConditions, g, 0))
    else ValidatedConditions(inputs, g, regex)
  }

  function ValidatedGroups(groups: seq<seq<ConditionInput>>, regex: C.RegexEngine): Result<seq<C.Group>, TreeError> {
    if groups == [] then Ok([])
    else
      match ValidatedGroups(groups[..|groups| - 1], regex)
      case Err(e) => Err(e)
      case Ok(before) =>
        match ValidatedGroup(groups[|groups| - 1], |groups|, regex)
        case Err(e) => Err(e)
        case Ok(g) => Ok(before + [g])
  }

  /** `parse_rule_tree`. Groups sent along with "anyone" are dropped unseen. */
  function ParsedTree(body: TreeBody, regex: C.RegexEngine): Result<C.RuleTree, TreeError> {
    if body.grantOnAnyBirthday then Ok(C.RuleTree(true, []))
    else if body.groups == [] then Err(TreeError(NoRule, 0, 0))
    else if |body.groups| > C.MAX_GROUPS then Err(TreeError(TooManyGroups, 0, 0))
    else
      match ValidatedGroups(body.groups, regex)
      case Err(e) => Err(e)
      case Ok(groups) => Ok(C.RuleTree(false, groups))
  }

  // --- the loops ----------------------------------------------------------------------

  method NormalizeIntList(raw: C.Json) returns (r: Result<C.Json, Refusal>)
    ensures r == NormalizedIntList(raw)
  {
    hide WholeNumber, IntItems;
    var items := IntItems(raw);
    var out: seq<C.Json> := [];
    for k := 0 to |items|
      invariant NormalizedInts(items[..k]) == Ok(out)
    {
      assert items[..k + 1][..k] == items[..k];
      var n := WholeNumber(items[k]);
      if n.None? || !IsI64(n.value) {
        RefusedIntsStayRefused(items, k + 1);
        return Err(WholeNumbersRequired);
      }
      out := out + [C.JInt(n.value)];
    }
    assert items[..|items|] == items;
    return if out == [] then Err(NumberMissing) else Ok(C.JArray(out));
  }

  method NormalizeTextList(target: C.Target, raw: C.Json) returns (r: Result<C.Json, Refusal>)
    ensures r == NormalizedTextList(target, raw)
  {
    hide TextItem, TextItems;
    var items := TextItems(raw);
    if items == [] {
      return Err(NoValuePicked);
    }
    var out: seq<C.Json> := [];
    for k := 0 to |items|
      invariant NormalizedTexts(target, items[..k]) == Ok(out)
    {
      assert items[..k + 1][..k] == items[..k];
      var v := TextItem(target, items[k]);
      if v.Err? {
        RefusedTextsStayRefused(target, items, k + 1);
        return Err(v.error);
      }
      if v.value !in out {
        out := out + [v.value];
      }
    }
    assert items[..|items|] == items;
    return Ok(C.JArray(out));
  }

  method ParseRuleTree(body: TreeBody, regex: C.RegexEngine) returns (r: Result<C.RuleTree, TreeError>)
    ensures r == ParsedTree(body, regex)
  {
    if !body.grantOnAnyBirthday {
      if body.groups == [] {
        return Err(TreeError(NoRule, 0, 0));
      }
      if |body.groups| > C.MAX_GROUPS {
        return Err(TreeError(TooManyGroups, 0, 0));
      }
    }
    var groups: seq<C.Group> := [];
    if !body.grantOnAnyBirthday {
      for gi := 0 to |body.groups|
        invariant ValidatedGroups(body.groups[..gi], regex) == Ok(groups)
      {
        assert body.groups[..gi + 1][..gi] == body.groups[..gi];
        var group := ParseGroup(body.groups[gi], gi + 1, regex);
        if group.Err? {
          RefusedGroupsStayRefused(body.groups, gi + 1, regex);
          return Err(group.error);
        }
        groups := groups + [group.value];
      }
      assert body.groups[..|body.groups|] == body.groups;
    }
    return Ok(C.RuleTree(body.grantOnAnyBirthday, groups));
  }

  method ParseGroup(inputs: seq<ConditionInput>, g: nat, regex: C.RegexEngine) returns (r: Result<C.Group, TreeError>)
    ensures r == ValidatedGroup(inputs, g, regex)
  {
    if inputs == [] {
      return Err(TreeError(EmptyGroup, g, 0));
    }
    if |inputs| > C.MAX_CONDITIONS_PER_GROUP {
      return Err(TreeError(TooManyConditions, g, 0));
    }
    var conditions: C.Group := [];
    for ci := 0 to |inputs|
      invariant ValidatedConditions(inputs[..ci], g, regex) == Ok(conditions)
    {
      assert inputs[..ci + 1][..ci] == inputs[..ci];
      var c := ValidatedCondition(inputs[ci], regex);
      if c.Err? {
        RefusedConditionsStayRefused(inputs, ci + 1, g, regex);
        return Err(TreeError(c.error, g, ci + 1));
      }
      conditions := conditions + [c.value];
    }
    assert inputs[..|inputs|] == inputs;
    return Ok(conditions);
  }

  lemma {:induction false} RefusedIntsStayRefused(items: seq<C.Json>, k: nat)
    requires k <= |items| && NormalizedInts(items[..k]).Err?
    ensures NormalizedInts(items) == NormalizedInts(items[..k])
  {
    if k < |items| {
      assert items[..|items| - 1][..k] == items[..k];
      RefusedIntsStayRefused(items[..|items| - 1], k);
    } else {
      assert items[..k] == items;
    }
  }

  lemma {:induction false} RefusedTextsStayRefused(target: C.Target, items: seq<C.Json>, k: nat)
    requires k <= |items| && NormalizedTexts(target, items[..k]).Err?
    ensures NormalizedTexts(target, items) == NormalizedTexts(target, items[..k])
  {
    if k < |items| {
      assert items[..|items| - 1][..k] == items[..k];
      RefusedTextsStayRefused(target, items[..|items| - 1], k);
    } else {
      assert items[..k] == items;
    }
  }

  lemma {:induction false} RefusedConditionsStayRefused(inputs: seq<ConditionInput>, k: nat, g: nat, regex: C.RegexEngine)
    requires k <= |inputs| && ValidatedConditions(inputs[..k], g, regex).Err?
    ensures ValidatedConditions(inputs, g, regex) == ValidatedConditions(inputs[..k], g, regex)
  {
    if k < |inputs| {
      assert inputs[..|inputs| - 1][..k] == inputs[..k];
      RefusedConditionsStayRefused(inputs[..|inputs| - 1], k, g, regex);
    } else {
      assert inputs[..k] == inputs;
    }
  }

  lemma {:induction false} RefusedGroupsStayRefused(groups: seq<seq<ConditionInput>>, k: nat, regex: C.RegexEngine)
    requires k <= |groups| && ValidatedGroups(groups[..k], regex).Err?
    ensures ValidatedGroups(groups, regex) == ValidatedGroups(groups[..k], regex)
  {
    if k < |groups| {
      assert groups[..|groups| - 1][..k] == groups[..k];
      RefusedGroupsStayRefused(groups[..|groups| - 1], k, regex);
    } else {
      assert groups[..k] == groups;
    }
  }
}
