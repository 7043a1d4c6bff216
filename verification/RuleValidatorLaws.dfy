/**
  What the validator guarantees about a saved rule: the accepted trees are
  exactly the well-formed ones, and validating a well-formed tree again leaves
  it as it is. The SQL compiler and the evaluator agree on well-formed trees.
 */
module RuleValidatorLaws {
  import opened Wrappers
  import opened Text
  import opened Birthday
  import opened RuleValidator
  import C = Condition

  // --- well-formed rules --------------------------------------------------------------

  predicate IsI64Json(v: C.Json) {
    v.JInt? && IsI64(v.n)
  }

  predicate IsChoice(target: C.Target, v: C.Json) {
    v.JString? && v.s in Choices(target)
  }

  predicate Distinct(items: seq<C.Json>) {
    forall i, j :: 0 <= i < j < |items| ==> items[i] != items[j]
  }

  predicate WellTypedValue(c: C.Condition, regex: C.RegexEngine) {
    var op, v := c.operator, c.value;
    match c.target.Kind()
    case BoolKind => v.JBool?
    case IntKind =>
      if op.In? || op.NotIn? then v.JArray? && v.items != [] && forall x <- v.items :: IsI64Json(x)
      else IsI64Json(v)
    case StringKind =>
      if op.In? || op.NotIn? then
        v.JArray? && v.items != [] && Distinct(v.items) && forall x <- v.items :: IsChoice(c.target, x)
      else if op.Regex? then v.JString? && Trim(v.s) != "" && regex.compiles(v.s)
      else if op.Contains? then v.JString? && v.s != "" && Trimmed(v.s) && IsLower(v.s)
      else IsChoice(c.target, v)
  }

  predicate WellTyped(c: C.Condition, regex: C.RegexEngine) {
    && c.operator.ValidFor(c.target.Kind())
    && WellTypedValue(c, regex)
    && if c.operator.Between? then c.valueEnd.Some? && IsI64Json(c.valueEnd.value) else c.valueEnd.None?
  }

  predicate WellFormedGroup(g: C.Group, regex: C.RegexEngine) {
    1 <= |g| <= C.MAX_CONDITIONS_PER_GROUP && forall c <- g :: WellTyped(c, regex)
  }

  predicate WellFormed(tree: C.RuleTree, regex: C.RegexEngine) {
    if tree.grantOnAnyBirthday then tree.groups == []
    else 1 <= |tree.groups| <= C.MAX_GROUPS && forall g <- tree.groups :: WellFormedGroup(g, regex)
  }

  // --- what is accepted is well-formed ------------------------------------------------

  lemma {:induction false} IntsAreI64(items: seq<C.Json>)
    requires NormalizedInts(items).Ok?
    ensures |NormalizedInts(items).value| == |items|
    ensures forall x <- NormalizedInts(items).value :: IsI64Json(x)
  {
    if items != [] {
      IntsAreI64(items[..|items| - 1]);
    }
  }

  lemma TextItemIsChoice(target: C.Target, v: C.Json)
    requires target.Kind().StringKind? && TextItem(target, v).Ok?
    ensures IsChoice(target, TextItem(target, v).value)
  {
    hide Trim, Lower;
    HasChoices(target);
  }

  lemma HasChoices(target: C.Target)
    requires target.Kind().StringKind?
    ensures Choices(target) != []
  {
  }

  lemma {:induction false} TextsAreDistinctChoices(target: C.Target, items: seq<C.Json>)
    requires target.Kind().StringKind? && NormalizedTexts(target, items).Ok?
    ensures var out := NormalizedTexts(target, items).value;
            Distinct(out) && (forall x <- out :: IsChoice(target, x)) && (items != [] ==> out != [])
  {
    hide TextItem, IsChoice;
    if items != [] {
      TextsAreDistinctChoices(target, items[..|items| - 1]);
      TextItemIsChoice(target, items[|items| - 1]);
    }
  }

  lemma NormalizedIsWellTyped(target: C.Target, op: C.Operator, raw: C.Json, regex: C.RegexEngine)
    requires op.ValidFor(target.Kind())
    requires NormalizedValue(target, op, raw).Ok?
    requires op.Regex? ==> regex.compiles(NormalizedValue(target, op, raw).value.s)
    ensures WellTypedValue(C.Condition(target, op, NormalizedValue(target, op, raw).value, None), regex)
  {
    hide Trim, Lower, Trimmed, IsLower, PrintInt, Choices, IntItems, TextItems, ScalarNumber, WholeNumber;
    hide NormalizedInts, NormalizedTexts, NormalizedText, EnumValue;
    if op.In? || op.NotIn? {
      ListIsWellTyped(target, op, raw, regex);
    } else if op.Contains? {
      ContainsFragmentIsNormal(target, op, raw);
    } else if target.Kind().StringKind? {
      TextValueIsWellTyped(target, op, raw, regex);
    }
  }

  lemma ListIsWellTyped(target: C.Target, op: C.Operator, raw: C.Json, regex: C.RegexEngine)
    requires op.ValidFor(target.Kind()) && (op.In? || op.NotIn?)
    requires NormalizedValue(target, op, raw).Ok?
    ensures WellTypedValue(C.Condition(target, op, NormalizedValue(target, op, raw).value, None), regex)
  {
    hide Trim, Lower, Choices, IntItems, TextItems, IsChoice, IsI64Json;
    if target.Kind().IntKind? {
      IntsAreI64(IntItems(raw));
    } else {
      TextsAreDistinctChoices(target, TextItems(raw));
      ListIsNotEmpty(target, raw);
    }
  }

  lemma ListIsNotEmpty(target: C.Target, raw: C.Json)
    requires NormalizedTextList(target, raw).Ok?
    ensures TextItems(raw) != []
  {
  }

  lemma TextValueIsWellTyped(target: C.Target, op: C.Operator, raw: C.Json, regex: C.RegexEngine)
    requires target.Kind().StringKind? && (op.Eq? || op.Neq? || op.Regex?)
    requires NormalizedText(target, op, raw).Ok?
    ensures var v := NormalizedText(target, op, raw).value;
            v.JString? && if op.Regex? then Trim(v.s) != "" else IsChoice(target, v)
  {
    hide Trim, Lower, PrintInt;
    HasChoices(target);
  }

  lemma ContainsFragmentIsNormal(target: C.Target, op: C.Operator, raw: C.Json)
    requires target.Kind().StringKind? && op.Contains? && NormalizedText(target, op, raw).Ok?
    ensures var v := NormalizedText(target, op, raw).value;
            v.JString? && v.s != "" && Trimmed(v.s) && IsLower(v.s)
  {
    hide PrintInt, Trim, Lower, IsLower, Trimmed;
    var s := if raw.JInt? then PrintInt(raw.n)
             else if raw.JString? then raw.s
             else if raw.JBool? then (if raw.b then "true" else "false") else "";
    LoweredTrimIsNormal(s);
  }

  lemma LoweredTrimIsNormal(s: string)
    ensures var v := Lower(Trim(s)); Trimmed(v) && IsLower(v) && (v == "" <==> Trim(s) == "")
  {
    hide Trim;
    LowerIsLower(Trim(s));
  }

  lemma AcceptedConditionIsWellTyped(raw: ConditionInput, regex: C.RegexEngine)
    requires ValidatedCondition(raw, regex).Ok?
    ensures var c := ValidatedCondition(raw, regex).value;
            WellTyped(c, regex) && raw.target == Some(c.target) && raw.operator == Some(c.operator)
  {
    var target, op := raw.target.value, raw.operator.value;
    NormalizedIsWellTyped(target, op, raw.value, regex);
    if op.Between? {
      NormalizedIsWellTyped(target, op, raw.valueEnd.value, regex);
    }
  }

  /** The conditions kept are those submitted, in the same places. */
  predicate SameShape(c: C.Condition, raw: ConditionInput) {
    raw.target == Some(c.target) && raw.operator == Some(c.operator)
  }

  lemma ShapeOfAccepted(raw: ConditionInput, regex: C.RegexEngine)
    requires ValidatedCondition(raw, regex).Ok?
    ensures WellTyped(ValidatedCondition(raw, regex).value, regex)
    ensures SameShape(ValidatedCondition(raw, regex).value, raw)
  {
    AcceptedConditionIsWellTyped(raw, regex);
  }

  lemma {:induction false} AcceptedConditionsAreWellTyped(inputs: seq<ConditionInput>, g: nat, regex: C.RegexEngine)
    requires ValidatedConditions(inputs, g, regex).Ok?
    ensures var cs := ValidatedConditions(inputs, g, regex).value;
            && |cs| == |inputs|
            && forall i :: 0 <= i < |cs| ==> WellTyped(cs[i], regex) && SameShape(cs[i], inputs[i])
  {
    hide ValidatedCondition, WellTyped, SameShape;
    if inputs != [] {
      AcceptedConditionsAreWellTyped(inputs[..|inputs| - 1], g, regex);
      ShapeOfAccepted(inputs[|inputs| - 1], regex);
    }
  }

  predicate GroupKeepsShape(g: C.Group, inputs: seq<ConditionInput>) {
    |g| == |inputs| && forall i :: 0 <= i < |g| ==> SameShape(g[i], inputs[i])
  }

  lemma AcceptedGroupIsWellFormed(inputs: seq<ConditionInput>, g: nat, regex: C.RegexEngine)
    requires ValidatedGroup(inputs, g, regex).Ok?
    ensures WellFormedGroup(ValidatedGroup(inputs, g, regex).value, regex)
    ensures GroupKeepsShape(ValidatedGroup(inputs, g, regex).value, inputs)
  {
    hide WellTyped, SameShape, ValidatedConditions;
    AcceptedConditionsAreWellTyped(inputs, g, regex);
  }

  lemma {:induction false} AcceptedGroupsAreWellFormed(groups: seq<seq<ConditionInput>>, regex: C.RegexEngine)
    requires ValidatedGroups(groups, regex).Ok?
    ensures var gs := ValidatedGroups(groups, regex).value;
            && |gs| == |groups|
            && forall i :: 0 <= i < |gs| ==> WellFormedGroup(gs[i], regex) && GroupKeepsShape(gs[i], groups[i])
  {
    hide ValidatedGroup, WellFormedGroup, GroupKeepsShape;
    if groups != [] {
      AcceptedGroupsAreWellFormed(groups[..|groups| - 1], regex);
      AcceptedGroupIsWellFormed(groups[|groups| - 1], |groups|, regex);
    }
  }

  /** Everything accepted is well-formed, and no condition is dropped, added or moved. */
  lemma AcceptedTreeIsWellFormed(body: TreeBody, regex: C.RegexEngine)
    requires ParsedTree(body, regex).Ok?
    ensures var tree := ParsedTree(body, regex).value;
            && WellFormed(tree, regex)
            && tree.grantOnAnyBirthday == body.grantOnAnyBirthday
            && (!tree.grantOnAnyBirthday ==>
                  && |tree.groups| == |body.groups|
                  && forall i :: 0 <= i < |tree.groups| ==> GroupKeepsShape(tree.groups[i], body.groups[i]))
  {
    if !body.grantOnAnyBirthday {
      AcceptedGroupsAreWellFormed(body.groups, regex);
    }
  }

  // --- what is well-formed is accepted as it is ---------------------------------------

  /** A saved condition, submitted again. */
  function Resubmitted(c: C.Condition): ConditionInput {
    ConditionInput(Some(c.target), Some(c.operator), c.value, c.valueEnd)
  }

  function ResubmittedGroup(g: C.Group): (r: seq<ConditionInput>)
    ensures |r| == |g|
  {
    seq(|g|, i requires 0 <= i < |g| => Resubmitted(g[i]))
  }

  function ResubmittedTree(tree: C.RuleTree): (r: TreeBody)
    ensures |r.groups| == |tree.groups|
  {
    TreeBody(tree.grantOnAnyBirthday, seq(|tree.groups|, i requires 0 <= i < |tree.groups| => ResubmittedGroup(tree.groups[i])))
  }

  predicate IsWord(s: string) {
    s != "" && forall i :: 0 <= i < |s| ==> 'a' <= s[i] <= 'z'
  }

  lemma ChoicesAreWords(target: C.Target, s: string)
    requires s in Choices(target)
    ensures IsWord(s)
    ensures target.BirthSeason? ==> s != "fall"
  {
    hide IsWord;
    match target
    case ZodiacSign => ZodiacSignsAreWords();
    case ChineseZodiac => AnimalsAreWords();
    case BirthSeason => SeasonsAreWords();
    case Birthstone => BirthstonesAreWords();
    case BirthWeekday => WeekdaysAreWords();
    case _ =>
  }

  lemma AnimalsAreWords()
    ensures forall i :: 0 <= i < |CHINESE_ZODIACS| ==> IsWord(CHINESE_ZODIACS[i])
  {
  }

  lemma SeasonsAreWords()
    ensures forall i :: 0 <= i < |SEASONS| ==> IsWord(SEASONS[i]) && SEASONS[i] != "fall"
  {
    assert forall i :: 0 <= i < |SEASONS| ==> |SEASONS[i]| == 6;
  }

  lemma WeekdaysAreWords()
    ensures forall i :: 0 <= i < |WEEKDAYS| ==> IsWord(WEEKDAYS[i])
  {
  }

  lemma ZodiacSignsAreWords()
    ensures forall i :: 0 <= i < |ZODIAC_SIGNS| ==> IsWord(ZODIAC_SIGNS[i])
  {
    FirstZodiacSignsAreWords();
    LastZodiacSignsAreWords();
    hide IsWord;
  }

  lemma FirstZodiacSignsAreWords()
    ensures forall i :: 0 <= i < 6 ==> IsWord(ZODIAC_SIGNS[i])
  {
    assert IsWord(ZODIAC_SIGNS[0]) && IsWord(ZODIAC_SIGNS[1]) && IsWord(ZODIAC_SIGNS[2]);
    assert IsWord(ZODIAC_SIGNS[3]) && IsWord(ZODIAC_SIGNS[4]) && IsWord(ZODIAC_SIGNS[5]);
  }

  lemma LastZodiacSignsAreWords()
    ensures forall i :: 6 <= i < |ZODIAC_SIGNS| ==> IsWord(ZODIAC_SIGNS[i])
  {
    assert IsWord(ZODIAC_SIGNS[6]) && IsWord(ZODIAC_SIGNS[7]) && IsWord(ZODIAC_SIGNS[8]);
    assert IsWord(ZODIAC_SIGNS[9]) && IsWord(ZODIAC_SIGNS[10]) && IsWord(ZODIAC_SIGNS[11]);
  }

  lemma BirthstonesAreWords()
    ensures forall i :: 0 <= i < |BIRTHSTONES| ==> IsWord(BIRTHSTONES[i])
  {
    FirstBirthstonesAreWords();
    LastBirthstonesAreWords();
    hide IsWord;
  }

  lemma FirstBirthstonesAreWords()
    ensures forall i :: 0 <= i < 6 ==> IsWord(BIRTHSTONES[i])
  {
    assert IsWord(BIRTHSTONES[0]) && IsWord(BIRTHSTONES[1]) && IsWord(BIRTHSTONES[2]);
    assert IsWord(BIRTHSTONES[3]) && IsWord(BIRTHSTONES[4]) && IsWord(BIRTHSTONES[5]);
  }

  lemma LastBirthstonesAreWords()
    ensures forall i :: 6 <= i < |BIRTHSTONES| ==> IsWord(BIRTHSTONES[i])
  {
    assert IsWord(BIRTHSTONES[6]) && IsWord(BIRTHSTONES[7]) && IsWord(BIRTHSTONES[8]);
    assert IsWord(BIRTHSTONES[9]) && IsWord(BIRTHSTONES[10]) && IsWord(BIRTHSTONES[11]);
  }

  lemma WordIsNormal(s: string)
    requires IsWord(s)
    ensures Trim(s) == s && Lower(s) == s && s != ""
  {
    TrimKeepsTrimmed(s);
    LowerIsLower(s);
  }

  lemma ChoiceStays(target: C.Target, s: string)
    requires target.Kind().StringKind? && s in Choices(target)
    ensures EnumValue(target, s) == Ok(s) && Trim(s) != ""
  {
    hide Choices, Trim, Lower, IsWord;
    ChoicesAreWords(target, s);
    WordIsNormal(s);
  }

  lemma {:induction false} IntsStay(items: seq<C.Json>)
    requires forall x <- items :: IsI64Json(x)
    ensures NormalizedInts(items) == Ok(items)
  {
    if items != [] {
      var before, last := items[..|items| - 1], items[|items| - 1];
      IntsStay(before);
      assert last in items;
      assert items == before + [last];
    }
  }

  lemma TextItemStays(target: C.Target, v: C.Json)
    requires target.Kind().StringKind? && IsChoice(target, v)
    ensures TextItem(target, v) == Ok(v)
  {
    hide EnumValue, Choices;
    ChoiceStays(target, v.s);
  }

  lemma {:induction false} TextsStay(target: C.Target, items: seq<C.Json>)
    requires target.Kind().StringKind? && Distinct(items)
    requires forall x <- items :: IsChoice(target, x)
    ensures NormalizedTexts(target, items) == Ok(items)
  {
    hide TextItem, IsChoice;
    if items != [] {
      var before, last := items[..|items| - 1], items[|items| - 1];
      TextsStay(target, before);
      assert last in items;
      TextItemStays(target, last);
      assert items == before + [last];
    }
  }

  lemma {:induction false} NothingBlankIsDropped(target: C.Target, items: seq<C.Json>)
    requires target.Kind().StringKind?
    requires forall x <- items :: IsChoice(target, x)
    ensures DropBlanks(items) == items
  {
    hide EnumValue, Choices, Trim;
    if items != [] {
      assert items[0] in items;
      ChoiceStays(target, items[0].s);
      NothingBlankIsDropped(target, items[1..]);
    }
  }

  lemma WellTypedValueStays(c: C.Condition, regex: C.RegexEngine)
    requires c.operator.ValidFor(c.target.Kind()) && WellTypedValue(c, regex)
    ensures NormalizedValue(c.target, c.operator, c.value) == Ok(c.value)
  {
    var v := c.value;
    if c.target.Kind().IntKind? && v.JArray? {
      IntsStay(v.items);
    } else if c.target.Kind().StringKind? && v.JArray? {
      NothingBlankIsDropped(c.target, v.items);
      TextsStay(c.target, v.items);
    } else if c.operator.Contains? {
      TrimKeepsTrimmed(v.s);
      LowerIsLower(v.s);
    } else if c.target.Kind().StringKind? && !c.operator.Regex? {
      ChoiceStays(c.target, v.s);
    }
  }

  lemma WellTypedConditionStays(c: C.Condition, regex: C.RegexEngine)
    requires WellTyped(c, regex)
    ensures ValidatedCondition(Resubmitted(c), regex) == Ok(c)
  {
    WellTypedValueStays(c, regex);
    if c.operator.Between? {
      WellTypedValueStays(c.(value := c.valueEnd.value), regex);
    }
  }

  lemma {:induction false} WellTypedConditionsStay(cs: C.Group, g: nat, regex: C.RegexEngine)
    requires forall c <- cs :: WellTyped(c, regex)
    ensures ValidatedConditions(ResubmittedGroup(cs), g, regex) == Ok(cs)
  {
    hide ValidatedCondition, WellTyped;
    if cs != [] {
      var before, last := cs[..|cs| - 1], cs[|cs| - 1];
      WellTypedConditionsStay(before, g, regex);
      assert last in cs;
      WellTypedConditionStays(last, regex);
      assert ResubmittedGroup(cs)[..|cs| - 1] == ResubmittedGroup(before);
      assert cs == before + [last];
    }
  }

  lemma WellFormedGroupStays(group: C.Group, g: nat, regex: C.RegexEngine)
    requires WellFormedGroup(group, regex)
    ensures ValidatedGroup(ResubmittedGroup(group), g, regex) == Ok(group)
  {
    hide ValidatedConditions, WellTyped;
    WellTypedConditionsStay(group, g, regex);
  }

  lemma {:induction false} WellFormedGroupsStay(groups: seq<C.Group>, inputs: seq<seq<ConditionInput>>, regex: C.RegexEngine)
    requires |inputs| == |groups|
    requires forall i :: 0 <= i < |groups| ==> WellFormedGroup(groups[i], regex) && inputs[i] == ResubmittedGroup(groups[i])
    ensures ValidatedGroups(inputs, regex) == Ok(groups)
  {
    hide ValidatedGroup, WellFormedGroup, ResubmittedGroup;
    if groups != [] {
      var n := |groups| - 1;
      WellFormedGroupsStay(groups[..n], inputs[..n], regex);
      WellFormedGroupStays(groups[n], |groups|, regex);
      assert groups == groups[..n] + [groups[n]];
    }
  }

  /**
    The validator is a normaliser: its outputs are the well-formed trees, and it
    returns each of them unchanged when it is submitted again.
   */
  lemma WellFormedTreesAreTheFixedPoints(tree: C.RuleTree, regex: C.RegexEngine)
    ensures WellFormed(tree, regex) <==> ParsedTree(ResubmittedTree(tree), regex) == Ok(tree)
  {
    if WellFormed(tree, regex) {
      if !tree.grantOnAnyBirthday {
        WellFormedGroupsStay(tree.groups, ResubmittedTree(tree).groups, regex);
      }
    } else if ParsedTree(ResubmittedTree(tree), regex) == Ok(tree) {
      AcceptedTreeIsWellFormed(ResubmittedTree(tree), regex);
    }
  }

  // --- what is refused ----------------------------------------------------------------

  /** A refusal that names a condition names the first bad one, and its own reason. */
  lemma {:induction false} FirstBadConditionIsNamed(inputs: seq<ConditionInput>, g: nat, regex: C.RegexEngine)
    requires ValidatedConditions(inputs, g, regex).Err?
    ensures var e := ValidatedConditions(inputs, g, regex).error;
            && e.group == g
            && 1 <= e.condition <= |inputs|
            && ValidatedCondition(inputs[e.condition - 1], regex) == Err(e.why)
            && forall i :: 0 <= i < e.condition - 1 ==> ValidatedCondition(inputs[i], regex).Ok?
  {
    hide ValidatedCondition;
    var before := inputs[..|inputs| - 1];
    if ValidatedConditions(before, g, regex).Err? {
      FirstBadConditionIsNamed(before, g, regex);
    } else {
      NoBadCondition(before, g, regex);
    }
  }

  lemma {:induction false} NoBadCondition(inputs: seq<ConditionInput>, g: nat, regex: C.RegexEngine)
    requires ValidatedConditions(inputs, g, regex).Ok?
    ensures forall i :: 0 <= i < |inputs| ==> ValidatedCondition(inputs[i], regex).Ok?
  {
    hide ValidatedCondition;
    if inputs != [] {
      NoBadCondition(inputs[..|inputs| - 1], g, regex);
    }
  }
}
