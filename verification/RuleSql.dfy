/**
  src/services/rule_sql.rs: the compiler from rule trees to WHERE clauses.

  The source builds text. `ClauseBuilder` builds the same text, token by token,
  while `ConditionExpr`, `GroupExpr` and `TreeExpr` say which expression each
  piece of text is meant to be.
 */
module RuleSql {
  import opened Wrappers
  import opened SqlExpr
  import opened SqlLike
  import opened SqlSemantics
  import C = Condition

  // --- one condition ------------------------------------------------------------------

  const MONTH_DAY_LOCAL := [ColumnArg(BirthMonth), ColumnArg(BirthDay), LocalDate]
  const YEAR_MONTH_DAY_LOCAL := [ColumnArg(BirthYear)] + MONTH_DAY_LOCAL

  /** `target_expr`. */
  function TargetExpr(target: C.Target): Expr {
    match target
    case HasBirthdaySet => Bool(true)
    case HasBirthYear => Paren(IsNotNull(Col(BirthYear)))
    case IsBirthdayToday => Call(BdayIsToday, MONTH_DAY_LOCAL)
    case IsBirthdayWeek => Paren(Binary(LessEqual, Call(BdayDaysUntil, MONTH_DAY_LOCAL), Number(6)))
    case IsBirthdayMonth => Paren(Binary(Equal, Cast(MonthOfLocalDate, IntType), Col(BirthMonth)))
    case DaysUntilBirthday => Call(BdayDaysUntil, MONTH_DAY_LOCAL)
    case AgeYears => Call(BdayAge, YEAR_MONTH_DAY_LOCAL)
    case AgeTurningThisYear => Call(BdayAgeTurning, YEAR_MONTH_DAY_LOCAL)
    case BirthMonth => Col(BirthMonth)
    case BirthDay => Col(BirthDay)
    case BirthYear => Col(BirthYear)
    case ZodiacSign => Col(Zodiac)
    case ChineseZodiac => Col(ChineseZodiac)
    case BirthSeason => Col(Season)
    case Birthstone => Col(Birthstone)
    case BirthWeekday => Col(BirthWeekday)
  }

  /** `as_i64().unwrap_or(0)`. */
  function IntOrZero(v: C.Json): int {
    if v.AsI64().Some? then v.AsI64().value else 0
  }

  /** `as_str().unwrap_or("")`. */
  function StrOrEmpty(v: C.Json): string {
    if v.JString? then v.s else ""
  }

  /** The upper bound of `between`; the lower one when it is missing. */
  function UpperBound(c: C.Condition): int {
    if c.valueEnd.Some? && c.valueEnd.value.AsI64().Some? then c.valueEnd.value.AsI64().value
    else IntOrZero(c.value)
  }

  /** What one condition pushes onto the bind list. */
  function ConditionBinds(c: C.Condition): seq<Bind> {
    var kind := c.target.Kind();
    match c.operator
    case Eq =>
      [match kind
       case BoolKind => BindBool(c.value.JBool? && c.value.b)
       case IntKind => BindInt(IntOrZero(c.value))
       case StringKind => BindText(StrOrEmpty(c.value))]
    case Neq => [if kind.IntKind? then BindInt(IntOrZero(c.value)) else BindText(StrOrEmpty(c.value))]
    case Gt => [BindInt(IntOrZero(c.value))]
    case Gte => [BindInt(IntOrZero(c.value))]
    case Lt => [BindInt(IntOrZero(c.value))]
    case Lte => [BindInt(IntOrZero(c.value))]
    case Between => [BindInt(IntOrZero(c.value)), BindInt(UpperBound(c))]
    case Contains => [BindText("%" + EscapeLike(StrOrEmpty(c.value)) + "%")]
    case Regex => [BindText(StrOrEmpty(c.value))]
    case In => ListBinds(c)
    case NotIn => ListBinds(c)
  }

  function ListBinds(c: C.Condition): seq<Bind> {
    if c.target.Kind().IntKind? then
      var list := C.IntArray(c.value);
      if list == [] then [] else [BindIntArray(list)]
    else
      var list := C.StrArray(c.value);
      if list == [] then [] else [BindTextArray(list)]
  }

  /** The expression one condition compiles to; `i` is the number of its first placeholder. */
  function ConditionExpr(c: C.Condition, i: nat): Expr {
    var target := TargetExpr(c.target);
    var kind := c.target.Kind();
    match c.operator
    case Eq => Binary(Equal, if kind.StringKind? then target else Paren(target), Param(i))
    case Neq => if kind.IntKind? then Binary(NotEqual, Paren(target), Param(i)) else IsDistinctFrom(target, Param(i))
    case Gt => Binary(Greater, Paren(target), Param(i))
    case Gte => Binary(GreaterEqual, Paren(target), Param(i))
    case Lt => Binary(Less, Paren(target), Param(i))
    case Lte => Binary(LessEqual, Paren(target), Param(i))
    case Between =>
      Paren(And(Binary(GreaterEqual, Paren(target), Param(i)), Binary(LessEqual, Paren(target), Param(i + 1))))
    case Contains => Binary(Like, target, Param(i))
    case Regex => Binary(Matches, target, Param(i))
    case In =>
      if ListBinds(c) == [] then Bool(false)
      else if kind.IntKind? then Quantified(Equal, AnyOf, Paren(target), Cast(Param(i), IntArrayType))
      else Quantified(Equal, AnyOf, target, Cast(Param(i), TextArrayType))
    case NotIn =>
      if ListBinds(c) == [] then Bool(true)
      else if kind.IntKind? then
        Paren(And(IsNotNull(Paren(target)), Quantified(NotEqual, AllOf, Paren(target), Cast(Param(i), IntArrayType))))
      else
        Paren(And(IsNotNull(target), Quantified(NotEqual, AllOf, target, Cast(Param(i), TextArrayType))))
  }

  // --- groups and trees ---------------------------------------------------------------

  function ConditionsBinds(cs: seq<C.Condition>): seq<Bind> {
    if cs == [] then [] else ConditionsBinds(cs[..|cs| - 1]) + ConditionBinds(cs[|cs| - 1])
  }

  function ConditionExprs(cs: seq<C.Condition>, i: nat): (es: seq<Expr>)
    ensures |es| == |cs|
  {
    if cs == [] then []
    else
      var before := cs[..|cs| - 1];
      ConditionExprs(before, i) + [ConditionExpr(cs[|cs| - 1], i + |ConditionsBinds(before)|)]
  }

  /** e1 AND e2 AND ..., associated as SQL does. */
  function AndChain(es: seq<Expr>): Expr
    requires es != []
  {
    if |es| == 1 then es[0] else And(AndChain(es[..|es| - 1]), es[|es| - 1])
  }

  function OrChain(es: seq<Expr>): Expr
    requires es != []
  {
    if |es| == 1 then es[0] else Or(OrChain(es[..|es| - 1]), es[|es| - 1])
  }

  function GroupExpr(group: C.Group, i: nat): Expr {
    if group == [] then Bool(false) else Paren(AndChain(ConditionExprs(group, i)))
  }

  function GroupsBinds(groups: seq<C.Group>): seq<Bind> {
    if groups == [] then [] else GroupsBinds(groups[..|groups| - 1]) + ConditionsBinds(groups[|groups| - 1])
  }

  function GroupExprs(groups: seq<C.Group>, i: nat): (es: seq<Expr>)
    ensures |es| == |groups|
  {
    if groups == [] then []
    else
      var before := groups[..|groups| - 1];
      GroupExprs(before, i) + [GroupExpr(groups[|groups| - 1], i + |GroupsBinds(before)|)]
  }

  function TreeExpr(tree: C.RuleTree, i: nat): Expr {
    if tree.grantOnAnyBirthday then Bool(true)
    else if tree.groups == [] then Bool(false)
    else Paren(OrChain(GroupExprs(tree.groups, i)))
  }

  function TreeBinds(tree: C.RuleTree): seq<Bind> {
    if tree.grantOnAnyBirthday then [] else GroupsBinds(tree.groups)
  }

  // --- text ---------------------------------------------------------------------------

  function Texts(es: seq<Expr>): (ts: seq<SqlText>)
    ensures |ts| == |es|
  {
    seq(|es|, i requires 0 <= i < |es| => Print(es[i]))
  }

  /** `clauses.join(sep)`. */
  function Join(clauses: seq<SqlText>, sep: Token): SqlText {
    if clauses == [] then []
    else if |clauses| == 1 then clauses[0]
    else Join(clauses[..|clauses| - 1], sep) + [sep] + clauses[|clauses| - 1]
  }

  lemma {:induction false} JoinPrintsChain(es: seq<Expr>)
    requires es != []
    ensures Join(Texts(es), TAnd) == Print(AndChain(es))
    ensures Join(Texts(es), TOr) == Print(OrChain(es))
  {
    if |es| > 1 {
      var before := es[..|es| - 1];
      JoinPrintsChain(before);
      assert Texts(es)[..|es| - 1] == Texts(before);
    }
  }

  lemma TextsAppend(es: seq<Expr>, e: Expr)
    ensures Texts(es + [e]) == Texts(es) + [Print(e)]
  {
  }

  /** How the shapes that the builder writes out print. */
  lemma PrintedOperands(target: Expr, op: Operator, i: nat)
    ensures Print(Binary(op, Paren(target), Param(i)))
         == [TLParen] + Print(target) + [TRParen, TOperator(op), TParam(i)]
    ensures Print(Binary(op, target, Param(i))) == Print(target) + [TOperator(op), TParam(i)]
    ensures Print(IsDistinctFrom(target, Param(i))) == Print(target) + [TIs, TDistinct, TFrom, TParam(i)]
  {
    assert Print(Paren(target)) == [TLParen] + Print(target) + [TRParen];
    assert Print(Param(i)) == [TParam(i)];
  }

  lemma PrintedBetween(target: Expr, i: nat)
    ensures Print(Paren(And(Binary(GreaterEqual, Paren(target), Param(i)), Binary(LessEqual, Paren(target), Param(i + 1)))))
         == [TLParen, TLParen] + Print(target) + [TRParen, TOperator(GreaterEqual), TParam(i), TAnd, TLParen]
            + Print(target) + [TRParen, TOperator(LessEqual), TParam(i + 1), TRParen]
  {
    hide Print;
    var lower := Binary(GreaterEqual, Paren(target), Param(i));
    var upper := Binary(LessEqual, Paren(target), Param(i + 1));
    PrintedOperands(target, GreaterEqual, i);
    PrintedOperands(target, LessEqual, i + 1);
    PrintedParenAnd(lower, upper);
  }

  lemma PrintedParenAnd(l: Expr, r: Expr)
    ensures Print(Paren(And(l, r))) == [TLParen] + Print(l) + [TAnd] + Print(r) + [TRParen]
  {
    assert Print(And(l, r)) == Print(l) + [TAnd] + Print(r);
  }

  lemma PrintedList(target: Expr, op: Operator, q: Quantifier, i: nat, ty: SqlType)
    ensures Print(Quantified(op, q, target, Cast(Param(i), ty)))
         == Print(target) + [TOperator(op), TQuantifier(q), TLParen, TParam(i), TCast(ty), TRParen]
    ensures Print(Paren(target)) == [TLParen] + Print(target) + [TRParen]
  {
    assert Print(Cast(Param(i), ty)) == [TParam(i)] + [TCast(ty)];
  }

  lemma PrintedNotIn(target: Expr, i: nat, ty: SqlType)
    ensures Print(Paren(And(IsNotNull(target), Quantified(NotEqual, AllOf, target, Cast(Param(i), ty)))))
         == [TLParen] + Print(target) + [TIs, TNot, TNull, TAnd] + Print(target)
            + [TOperator(NotEqual), TQuantifier(AllOf), TLParen, TParam(i), TCast(ty), TRParen, TRParen]
  {
    hide Print;
    var list := Quantified(NotEqual, AllOf, target, Cast(Param(i), ty));
    PrintedList(target, NotEqual, AllOf, i, ty);
    PrintedNotNull(target);
    PrintedParenAnd(IsNotNull(target), list);
  }

  lemma PrintedNotNull(target: Expr)
    ensures Print(IsNotNull(target)) == Print(target) + [TIs, TNot, TNull]
  {
  }

  lemma NoConditions(i: nat)
    ensures Texts(ConditionExprs([], i)) == []
    ensures Texts(GroupExprs([], i)) == []
    ensures ConditionsBinds([]) == [] && GroupsBinds([]) == []
  {
  }

  lemma ConditionsStep(cs: seq<C.Condition>, k: nat, i: nat)
    requires k < |cs|
    ensures ConditionsBinds(cs[..k + 1]) == ConditionsBinds(cs[..k]) + ConditionBinds(cs[k])
    ensures Texts(ConditionExprs(cs[..k + 1], i))
         == Texts(ConditionExprs(cs[..k], i)) + [Print(ConditionExpr(cs[k], i + |ConditionsBinds(cs[..k])|))]
  {
    hide ConditionExpr, ConditionBinds, Print;
    assert cs[..k + 1][..k] == cs[..k];
    TextsAppend(ConditionExprs(cs[..k], i), ConditionExpr(cs[k], i + |ConditionsBinds(cs[..k])|));
  }

  lemma GroupsStep(groups: seq<C.Group>, k: nat, i: nat)
    requires k < |groups|
    ensures GroupsBinds(groups[..k + 1]) == GroupsBinds(groups[..k]) + ConditionsBinds(groups[k])
    ensures Texts(GroupExprs(groups[..k + 1], i))
         == Texts(GroupExprs(groups[..k], i)) + [Print(GroupExpr(groups[k], i + |GroupsBinds(groups[..k])|))]
  {
    hide GroupExpr, ConditionsBinds, Print;
    assert groups[..k + 1][..k] == groups[..k];
    TextsAppend(GroupExprs(groups[..k], i), GroupExpr(groups[k], i + |GroupsBinds(groups[..k])|));
  }

  lemma GroupText(group: C.Group, i: nat)
    requires group != []
    ensures [TLParen] + Join(Texts(ConditionExprs(group, i)), TAnd) + [TRParen] == Print(GroupExpr(group, i))
  {
    JoinPrintsChain(ConditionExprs(group, i));
  }

  lemma TreeText(tree: C.RuleTree, i: nat)
    requires !tree.grantOnAnyBirthday && tree.groups != []
    ensures [TLParen] + Join(Texts(GroupExprs(tree.groups, i)), TOr) + [TRParen] == Print(TreeExpr(tree, i))
  {
    JoinPrintsChain(GroupExprs(tree.groups, i));
  }

  lemma PrintedBool(b: bool)
    ensures Print(Bool(b)) == [TBool(b)]
  {
  }

  /** How a `not_in` condition prints: as TRUE for an empty list, else as a guarded `<> ALL`. */
  lemma NotInText(c: C.Condition, i: nat)
    requires c.operator.NotIn?
    ensures var expr := Print(TargetExpr(c.target));
            Print(ConditionExpr(c, i))
            == if ListBinds(c) == [] then [TBool(true)]
               else if c.target.Kind().IntKind? then
                 [TLParen, TLParen] + expr + [TRParen, TIs, TNot, TNull, TAnd, TLParen] + expr
                 + [TRParen, TOperator(NotEqual), TQuantifier(AllOf), TLParen, TParam(i), TCast(IntArrayType), TRParen, TRParen]
               else
                 [TLParen] + expr + [TIs, TNot, TNull, TAnd] + expr
                 + [TOperator(NotEqual), TQuantifier(AllOf), TLParen, TParam(i), TCast(TextArrayType), TRParen, TRParen]
  {
    hide Print, TargetExpr, ListBinds;
    var target := TargetExpr(c.target);
    PrintedBool(true);
    PrintedList(target, NotEqual, AllOf, i, IntArrayType);
    PrintedNotIn(Paren(target), i, IntArrayType);
    PrintedNotIn(target, i, TextArrayType);
  }

  /** The state of one compilation: the bind list grows as conditions are compiled. */
  class ClauseBuilder {
    const bindOffset: nat
    var binds: seq<Bind>

    constructor (bindOffset: nat)
      ensures this.bindOffset == bindOffset && binds == []
    {
      this.bindOffset := bindOffset;
      binds := [];
    }

    /** The number of the next placeholder. */
    function Next(): nat
      reads this
    {
      bindOffset + |binds| + 1
    }

    method BuildCondition(c: C.Condition) returns (clause: SqlText)
      modifies this`binds
      ensures clause == Print(ConditionExpr(c, old(Next())))
      ensures binds == old(binds) + ConditionBinds(c)
    {
      var target := TargetExpr(c.target);
      var expr := Print(target);
      var kind := c.target.Kind();
      var i := Next();
      match c.operator {
        case Eq =>
          match kind {
            case BoolKind =>
              PrintedOperands(target, Equal, i);
              binds := binds + [BindBool(c.value.JBool? && c.value.b)];
              clause := [TLParen] + expr + [TRParen, TOperator(Equal), TParam(i)];
            case IntKind =>
              PrintedOperands(target, Equal, i);
              binds := binds + [BindInt(IntOrZero(c.value))];
              clause := [TLParen] + expr + [TRParen, TOperator(Equal), TParam(i)];
            case StringKind =>
              PrintedOperands(target, Equal, i);
              binds := binds + [BindText(StrOrEmpty(c.value))];
              clause := expr + [TOperator(Equal), TParam(i)];
          }
        case Neq =>
          PrintedOperands(target, NotEqual, i);
          if kind.IntKind? {
            binds := binds + [BindInt(IntOrZero(c.value))];
            clause := [TLParen] + expr + [TRParen, TOperator(NotEqual), TParam(i)];
          } else {
            binds := binds + [BindText(StrOrEmpty(c.value))];
            clause := expr + [TIs, TDistinct, TFrom, TParam(i)];
          }
        case Gt =>
          PrintedOperands(target, Greater, i);
          clause := BuildComparison(c, expr, Greater);
        case Gte =>
          PrintedOperands(target, GreaterEqual, i);
          clause := BuildComparison(c, expr, GreaterEqual);
        case Lt =>
          PrintedOperands(target, Less, i);
          clause := BuildComparison(c, expr, Less);
        case Lte =>
          PrintedOperands(target, LessEqual, i);
          clause := BuildComparison(c, expr, LessEqual);
        case Between =>
          PrintedBetween(target, i);
          binds := binds + [BindInt(IntOrZero(c.value))];
          var j := Next();
          binds := binds + [BindInt(UpperBound(c))];
          clause := [TLParen, TLParen] + expr + [TRParen, TOperator(GreaterEqual), TParam(i), TAnd, TLParen]
                    + expr + [TRParen, TOperator(LessEqual), TParam(j), TRParen];
        case Contains =>
          PrintedOperands(target, Like, i);
          binds := binds + [BindText("%" + EscapeLike(StrOrEmpty(c.value)) + "%")];
          clause := expr + [TOperator(Like), TParam(i)];
        case Regex =>
          PrintedOperands(target, Matches, i);
          binds := binds + [BindText(StrOrEmpty(c.value))];
          clause := expr + [TOperator(Matches), TParam(i)];
        case In => clause := BuildIn(c, expr);
        case NotIn => clause := BuildNotIn(c, expr);
      }
    }

    method BuildComparison(c: C.Condition, expr: SqlText, op: Operator) returns (clause: SqlText)
      modifies this`binds
      ensures clause == [TLParen] + expr + [TRParen, TOperator(op), TParam(old(Next()))]
      ensures binds == old(binds) + [BindInt(IntOrZero(c.value))]
    {
      var i := Next();
      binds := binds + [BindInt(IntOrZero(c.value))];
      clause := [TLParen] + expr + [TRParen, TOperator(op), TParam(i)];
    }

    method BuildIn(c: C.Condition, expr: SqlText) returns (clause: SqlText)
      requires c.operator.In? && expr == Print(TargetExpr(c.target))
      modifies this`binds
      ensures clause == Print(ConditionExpr(c, old(Next())))
      ensures binds == old(binds) + ConditionBinds(c)
    {
      var i := Next();
      if c.target.Kind().IntKind? {
        var list := C.IntArray(c.value);
        if list == [] {
          return [TBool(false)];
        }
        PrintedList(TargetExpr(c.target), Equal, AnyOf, i, IntArrayType);
        PrintedList(Paren(TargetExpr(c.target)), Equal, AnyOf, i, IntArrayType);
        binds := binds + [BindIntArray(list)];
        clause := [TLParen] + expr
                  + [TRParen, TOperator(Equal), TQuantifier(AnyOf), TLParen, TParam(i), TCast(IntArrayType), TRParen];
      } else {
        var list := C.StrArray(c.value);
        if list == [] {
          return [TBool(false)];
        }
        PrintedList(TargetExpr(c.target), Equal, AnyOf, i, TextArrayType);
        binds := binds + [BindTextArray(list)];
        clause := expr
                  + [TOperator(Equal), TQuantifier(AnyOf), TLParen, TParam(i), TCast(TextArrayType), TRParen];
      }
    }

    method BuildNotIn(c: C.Condition, expr: SqlText) returns (clause: SqlText)
      requires c.operator.NotIn? && expr == Print(TargetExpr(c.target))
      modifies this`binds
      ensures clause == Print(ConditionExpr(c, old(Next())))
      ensures binds == old(binds) + ConditionBinds(c)
    {
      hide Print, ConditionExpr, TargetExpr, C.IntArray, C.StrArray;
      var i := Next();
      NotInText(c, i);
      if c.target.Kind().IntKind? {
        var list := C.IntArray(c.value);
        if list == [] {
          return [TBool(true)];
        }
        binds := binds + [BindIntArray(list)];
        clause := [TLParen, TLParen] + expr + [TRParen, TIs, TNot, TNull, TAnd, TLParen] + expr
                  + [TRParen, TOperator(NotEqual), TQuantifier(AllOf), TLParen, TParam(i), TCast(IntArrayType), TRParen,
                     TRParen];
      } else {
        var list := C.StrArray(c.value);
        if list == [] {
          return [TBool(true)];
        }
        binds := binds + [BindTextArray(list)];
        clause := [TLParen] + expr + [TIs, TNot, TNull, TAnd] + expr
                  + [TOperator(NotEqual), TQuantifier(AllOf), TLParen, TParam(i), TCast(TextArrayType), TRParen, TRParen];
      }
    }

    method BuildConditions(cs: seq<C.Condition>) returns (clauses: seq<SqlText>)
      modifies this`binds
      ensures clauses == Texts(ConditionExprs(cs, old(Next())))
      ensures binds == old(binds) + ConditionsBinds(cs)
    {
      hide ConditionBinds, ConditionsBinds, ConditionExpr, ConditionExprs, Texts, Print;
      ghost var first := Next();
      clauses := [];
      var k := 0;
      NoConditions(first);
      while k < |cs|
        invariant 0 <= k <= |cs|
        invariant clauses == Texts(ConditionExprs(cs[..k], first))
        invariant binds == old(binds) + ConditionsBinds(cs[..k])
      {
        ConditionsStep(cs, k, first);
        var clause := BuildCondition(cs[k]);
        clauses := clauses + [clause];
        k := k + 1;
      }
      assert cs[..k] == cs;
    }

    method BuildGroup(group: C.Group) returns (clause: SqlText)
      modifies this`binds
      ensures clause == Print(GroupExpr(group, old(Next())))
      ensures binds == old(binds) + ConditionsBinds(group)
    {
      if group == [] {
        return [TBool(false)];
      }
      GroupText(group, Next());
      var condClauses := BuildConditions(group);
      clause := [TLParen] + Join(condClauses, TAnd) + [TRParen];
    }
  }

  /** The clause and its binds; placeholders are numbered from `bindOffset + 1`. */
  method BuildRuleWhere(tree: C.RuleTree, bindOffset: nat) returns (clause: SqlText, binds: seq<Bind>)
    ensures clause == Print(TreeExpr(tree, bindOffset + 1))
    ensures binds == TreeBinds(tree)
  {
    if tree.grantOnAnyBirthday {
      return [TBool(true)], [];
    }
    if tree.groups == [] {
      return [TBool(false)], [];
    }
    TreeText(tree, bindOffset + 1);
    var groupClauses;
    groupClauses, binds := BuildGroups(tree.groups, bindOffset);
    clause := [TLParen] + Join(groupClauses, TOr) + [TRParen];
  }

  /** The loop over the groups; all of them share one bind list. */
  method BuildGroups(groups: seq<C.Group>, bindOffset: nat) returns (clauses: seq<SqlText>, binds: seq<Bind>)
    ensures clauses == Texts(GroupExprs(groups, bindOffset + 1))
    ensures binds == GroupsBinds(groups)
  {
    hide GroupsBinds, ConditionsBinds, GroupExpr, GroupExprs, Texts, Print;
    var builder := new ClauseBuilder(bindOffset);
    clauses := [];
    var k := 0;
    NoConditions(bindOffset + 1);
    while k < |groups|
      invariant 0 <= k <= |groups|
      invariant clauses == Texts(GroupExprs(groups[..k], bindOffset + 1))
      invariant builder.binds == GroupsBinds(groups[..k])
    {
      GroupsStep(groups, k, bindOffset + 1);
      var clause := builder.BuildGroup(groups[k]);
      clauses := clauses + [clause];
      k := k + 1;
    }
    assert groups[..k] == groups;
    binds := builder.binds;
  }

  // --- the text reads as intended -----------------------------------------------------

  lemma PrimaryFitsEveryLevel(e: Expr)
    requires Primary(e)
    ensures Predicate(e) && Conjunction(e) && Disjunction(e) && Primary(Paren(e))
  {
  }

  lemma LevelsNest(e: Expr)
    ensures Predicate(e) ==> Conjunction(e)
    ensures Conjunction(e) ==> Disjunction(e)
  {
    PredicateIsNoChain(e);
    ConjunctionIsNoOr(e);
  }

  lemma PredicateIsNoChain(e: Expr)
    ensures Predicate(e) ==> !e.And? && !e.Or?
  {
    assert e.And? || e.Or? ==> !Primary(e);
  }

  lemma ConjunctionIsNoOr(e: Expr)
    ensures Conjunction(e) ==> !e.Or?
  {
    PredicateIsNoChain(e);
  }

  lemma TargetIsPrimary(target: C.Target)
    ensures Primary(TargetExpr(target))
  {
  }

  lemma ConditionIsPredicate(c: C.Condition, i: nat)
    ensures Predicate(ConditionExpr(c, i))
  {
    hide TargetExpr, ListBinds;
    var target := TargetExpr(c.target);
    TargetIsPrimary(c.target);
    PrimaryFitsEveryLevel(target);
    PrimaryFitsEveryLevel(Paren(target));
    PrimaryFitsEveryLevel(Cast(Param(i), TextArrayType));
    PrimaryFitsEveryLevel(Cast(Param(i), IntArrayType));
    ParenthesisedAndIsPrimary(IsNotNull(target), Quantified(NotEqual, AllOf, target, Cast(Param(i), TextArrayType)));
    ParenthesisedAndIsPrimary(IsNotNull(Paren(target)), Quantified(NotEqual, AllOf, Paren(target), Cast(Param(i), IntArrayType)));
    ParenthesisedAndIsPrimary(Binary(GreaterEqual, Paren(target), Param(i)), Binary(LessEqual, Paren(target), Param(i + 1)));
  }

  lemma ParenthesisedAndIsPrimary(l: Expr, r: Expr)
    requires Predicate(l) && Predicate(r) && !l.And? && !l.Or?
    ensures Predicate(Paren(And(l, r)))
  {
    assert Conjunction(And(l, r));
    assert Disjunction(And(l, r));
    assert Primary(Paren(And(l, r)));
  }

  lemma {:induction false} AndChainIsConjunction(es: seq<Expr>)
    requires es != [] && forall e <- es :: Predicate(e)
    ensures Conjunction(AndChain(es))
  {
    LevelsNest(es[|es| - 1]);
    if |es| > 1 {
      AndChainIsConjunction(es[..|es| - 1]);
    }
  }

  lemma {:induction false} OrChainIsDisjunction(es: seq<Expr>)
    requires es != [] && forall e <- es :: Conjunction(e)
    ensures Disjunction(OrChain(es))
  {
    LevelsNest(es[|es| - 1]);
    if |es| > 1 {
      OrChainIsDisjunction(es[..|es| - 1]);
    }
  }

  lemma {:induction false} ConditionsArePredicates(cs: seq<C.Condition>, i: nat)
    ensures forall e <- ConditionExprs(cs, i) :: Predicate(e)
  {
    if cs != [] {
      var before := cs[..|cs| - 1];
      ConditionsArePredicates(before, i);
      ConditionIsPredicate(cs[|cs| - 1], i + |ConditionsBinds(before)|);
    }
  }

  lemma GroupIsPrimary(group: C.Group, i: nat)
    ensures Primary(GroupExpr(group, i))
  {
    if group != [] {
      ConditionsArePredicates(group, i);
      AndChainIsConjunction(ConditionExprs(group, i));
    }
  }

  lemma {:induction false} GroupsArePrimary(groups: seq<C.Group>, i: nat)
    ensures forall e <- GroupExprs(groups, i) :: Primary(e)
  {
    if groups != [] {
      var before := groups[..|groups| - 1];
      GroupsArePrimary(before, i);
      GroupIsPrimary(groups[|groups| - 1], i + |GroupsBinds(before)|);
    }
  }

  lemma TreeIsPrimary(tree: C.RuleTree, i: nat)
    ensures Primary(TreeExpr(tree, i))
  {
    if !tree.grantOnAnyBirthday && tree.groups != [] {
      GroupsArePrimary(tree.groups, i);
      OrChainIsDisjunction(GroupExprs(tree.groups, i));
    }
  }

  /** Under SQL's own precedence the generated text is the intended OR of ANDs, for every tree. */
  lemma ClauseReadsAsIntended(tree: C.RuleTree, i: nat)
    ensures Parse(Print(TreeExpr(tree, i))) == Some(TreeExpr(tree, i))
  {
    TreeIsPrimary(tree, i);
    PrintedTextParsesBack(TreeExpr(tree, i));
  }
}
