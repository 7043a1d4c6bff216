/**
  The compiled clause and the evaluator decide a rule alike.

  src/services/condition_eval.rs and src/services/rule_sql.rs promise to
  implement the same predicates. `CompiledClauseMeansRule` states that promise
  end to end, from the text of the generated clause to the facts computed from
  the member's row, and says exactly which accepted rules meet it.
 */
module RuleAgreement {
  import opened Wrappers
  import opened Calendar
  import opened Birthday
  import opened BirthdayTable
  import BL = BirthdayLaws
  import F = BirthdaySql
  import opened ConditionEval
  import opened RuleValidator
  import opened RuleValidatorLaws
  import opened SqlExpr
  import opened SqlSemantics
  import opened RuleSql
  import SqlLike
  import T = Text
  import C = Condition

  // --- targets ------------------------------------------------------------------------

  predicate Usable(env: Env) {
    UsableToday(env.local) && Sound(env.row)
  }

  function FactsOf(env: Env): Facts
    requires Usable(env)
  {
    ComputeFacts(env.row.Input(), env.local)
  }

  /** The fact a target names, as an SQL value. */
  function FactValue(target: C.Target, f: Facts): Value {
    match target
    case HasBirthdaySet => VBool(f.hasBirthday)
    case HasBirthYear => VBool(f.hasYear)
    case IsBirthdayToday => VBool(f.isToday)
    case IsBirthdayWeek => VBool(f.isThisWeek)
    case IsBirthdayMonth => VBool(f.isThisMonth)
    case DaysUntilBirthday => VInt(f.daysUntil)
    case AgeYears => IntOrNull(f.ageYears)
    case AgeTurningThisYear => IntOrNull(f.ageTurning)
    case BirthMonth => VInt(f.birthMonth)
    case BirthDay => VInt(f.birthDay)
    case BirthYear => IntOrNull(f.birthYear)
    case ZodiacSign => VText(f.zodiac)
    case ChineseZodiac => TextOrNull(f.chineseZodiac)
    case BirthSeason => VText(f.season)
    case Birthstone => VText(f.birthstone)
    case BirthWeekday => TextOrNull(f.weekday)
  }

  lemma CallsOnRow(env: Env)
    requires Usable(env)
    ensures var r := env.row;
            && CallValue(BdayIsToday, MONTH_DAY_LOCAL, env)
               == Some(VBool(DaysUntil(r.birthMonth, r.birthDay, env.local) == 0))
            && CallValue(BdayDaysUntil, MONTH_DAY_LOCAL, env)
               == Some(VInt(DaysUntil(r.birthMonth, r.birthDay, env.local)))
            && CallValue(BdayAge, YEAR_MONTH_DAY_LOCAL, env) == Some(IntOrNull(FactsOf(env).ageYears))
            && CallValue(BdayAgeTurning, YEAR_MONTH_DAY_LOCAL, env) == Some(IntOrNull(FactsOf(env).ageTurning))
  {
    hide DaysUntil, Age, AgeTurning, ComputeDerived, F.BdayDaysUntil, F.BdayIsToday, F.BdayAge, F.BdayAgeTurning;
    var r := env.row;
    F.DaysUntilAgrees(r.birthMonth, r.birthDay, r.birthYear, env.local);
    F.AgeAgrees(r.birthMonth, r.birthDay, r.birthYear, env.local);
    assert YEAR_MONTH_DAY_LOCAL[1..] == MONTH_DAY_LOCAL;
  }

  /** The SQL expression of a target has the value of the fact it names, NULL included. */
  lemma TargetValue(target: C.Target, env: Env)
    requires Usable(env)
    ensures Eval(TargetExpr(target), env) == Some(FactValue(target, FactsOf(env)))
  {
    hide DaysUntil, Age, AgeTurning, ComputeDerived, CallValue;
    CallsOnRow(env);
    WeekValue(env);
    MonthValue(env);
    assert Eval(IsNotNull(Col(BirthYear)), env) == Some(VBool(env.row.birthYear.Some?));
  }

  lemma WeekValue(env: Env)
    requires Usable(env)
    ensures Eval(TargetExpr(C.IsBirthdayWeek), env) == Some(VBool(FactsOf(env).isThisWeek))
  {
    hide DaysUntil, Age, AgeTurning, ComputeDerived, CallValue;
    var r := env.row;
    CallsOnRow(env);
    BL.NextBdayIsAhead(r.birthMonth, r.birthDay, r.birthYear, env.local);
    var days := Call(BdayDaysUntil, MONTH_DAY_LOCAL);
    assert Eval(Binary(LessEqual, days, Number(6)), env) == Some(VBool(DaysUntil(r.birthMonth, r.birthDay, env.local) <= 6));
  }

  lemma MonthValue(env: Env)
    requires Usable(env)
    ensures Eval(TargetExpr(C.IsBirthdayMonth), env) == Some(VBool(FactsOf(env).isThisMonth))
  {
    hide DaysUntil, Age, AgeTurning, ComputeDerived, CallValue;
    assert Eval(Cast(MonthOfLocalDate, IntType), env) == Some(VInt(env.local.month));
    assert Eval(Binary(Equal, Cast(MonthOfLocalDate, IntType), Col(BirthMonth)), env)
        == Some(VBool(env.local.month == env.row.birthMonth));
  }

  // --- one condition ------------------------------------------------------------------

  /** The integer list of a condition survives the cast to `int[]`. */
  predicate CastFits(c: C.Condition) {
    c.target.Kind().IntKind? && (c.operator.In? || c.operator.NotIn?)
    ==> forall n <- C.IntArray(c.value) :: IsInt4(n)
  }

  /** `params` holds the binds at `$i`, `$(i+1)`, ... */
  predicate BoundAt(params: seq<Bind>, i: nat, binds: seq<Bind>) {
    1 <= i && i - 1 + |binds| <= |params| && params[i - 1..i - 1 + |binds|] == binds
  }

  /** `v` is a truth value that is TRUE exactly when `b` holds. */
  predicate Decides(v: Option<Value>, b: bool) {
    v.Some? && IsLogical(v.value) && (IsTrue(v) <==> b)
  }

  lemma ParamAt(params: seq<Bind>, i: nat, binds: seq<Bind>, k: nat)
    requires BoundAt(params, i, binds) && k < |binds|
    ensures i + k <= |params| && params[i + k - 1] == binds[k]
  {
    assert params[i - 1..i - 1 + |binds|][k] == params[i - 1 + k];
  }

  predicate Logical(e: Expr, env: Env)
    requires RealDate(env.local)
  {
    Eval(e, env).Some? ==> IsLogical(Eval(e, env).value)
  }

  predicate Fails(e: Expr, env: Env)
    requires RealDate(env.local)
  {
    Eval(e, env).None?
  }

  predicate Holds(e: Expr, env: Env)
    requires RealDate(env.local)
  {
    IsTrue(Eval(e, env))
  }

  lemma AndOfTwo(l: Expr, r: Expr, env: Env)
    requires RealDate(env.local) && Logical(l, env) && Logical(r, env)
    ensures Logical(And(l, r), env)
    ensures Fails(And(l, r), env) <==> Fails(l, env) || Fails(r, env)
    ensures Holds(And(l, r), env) <==> Holds(l, env) && Holds(r, env)
  {
  }

  lemma ParenSame(e: Expr, env: Env)
    requires RealDate(env.local)
    ensures Eval(Paren(e), env) == Eval(e, env)
  {
  }

  lemma OperandValues(target: Expr, v: Value, op: Operator, i: nat, env: Env)
    requires RealDate(env.local) && Eval(target, env) == Some(v)
    requires 1 <= i <= |env.params|
    ensures Eval(Paren(target), env) == Some(v)
    ensures Eval(Binary(op, target, Param(i)), env) == BinaryValue(op, v, BindValue(env.params[i - 1]), env.regex)
    ensures Eval(Binary(op, Paren(target), Param(i)), env) == BinaryValue(op, v, BindValue(env.params[i - 1]), env.regex)
  {
    hide Eval;
    ParenSame(target, env);
    BinaryWithParam(target, v, op, i, env);
    BinaryWithParam(Paren(target), v, op, i, env);
  }

  lemma BinaryWithParam(target: Expr, v: Value, op: Operator, i: nat, env: Env)
    requires RealDate(env.local) && Eval(target, env) == Some(v)
    requires 1 <= i <= |env.params|
    ensures Eval(Binary(op, target, Param(i)), env) == BinaryValue(op, v, BindValue(env.params[i - 1]), env.regex)
  {
    hide BinaryValue, CallValue, CastValue, QuantifiedValue, BindValue, ColumnValue, AndValue, OrValue;
    assert Eval(Param(i), env) == Some(BindValue(env.params[i - 1]));
  }

  lemma BoolConditionAgrees(c: C.Condition, i: nat, env: Env, actual: bool)
    requires RealDate(env.local) && WellTyped(c, env.regex) && c.target.Kind().BoolKind?
    requires BoundAt(env.params, i, ConditionBinds(c))
    requires Eval(TargetExpr(c.target), env) == Some(VBool(actual))
    ensures Decides(Eval(ConditionExpr(c, i), env), BoolMatch(c, actual))
  {
    hide TargetExpr;
    ParamAt(env.params, i, ConditionBinds(c), 0);
    OperandValues(TargetExpr(c.target), VBool(actual), Equal, i, env);
  }

  /** The comparison that an integer operator other than the list operators stands for. */
  function ComparisonOf(op: C.Operator): Operator
    requires op.Eq? || op.Neq? || op.Gt? || op.Gte? || op.Lt? || op.Lte?
  {
    match op
    case Eq => Equal
    case Neq => NotEqual
    case Gt => Greater
    case Gte => GreaterEqual
    case Lt => Less
    case Lte => LessEqual
  }

  lemma IntComparisonAgrees(c: C.Condition, i: nat, env: Env, actual: Option<int>)
    requires RealDate(env.local) && WellTyped(c, env.regex) && c.target.Kind().IntKind?
    requires !c.operator.In? && !c.operator.NotIn? && !c.operator.Between?
    requires BoundAt(env.params, i, ConditionBinds(c))
    requires Eval(TargetExpr(c.target), env) == Some(IntOrNull(actual))
    ensures Decides(Eval(ConditionExpr(c, i), env), IntMatch(c, actual))
  {
    hide TargetExpr;
    ParamAt(env.params, i, ConditionBinds(c), 0);
    OperandValues(TargetExpr(c.target), IntOrNull(actual), ComparisonOf(c.operator), i, env);
  }

  lemma BetweenAgrees(c: C.Condition, i: nat, env: Env, actual: Option<int>)
    requires RealDate(env.local) && WellTyped(c, env.regex) && c.target.Kind().IntKind? && c.operator.Between?
    requires BoundAt(env.params, i, ConditionBinds(c))
    requires Eval(TargetExpr(c.target), env) == Some(IntOrNull(actual))
    ensures Decides(Eval(ConditionExpr(c, i), env), IntMatch(c, actual))
  {
    hide TargetExpr;
    var target := TargetExpr(c.target);
    ParamAt(env.params, i, ConditionBinds(c), 0);
    ParamAt(env.params, i, ConditionBinds(c), 1);
    OperandValues(target, IntOrNull(actual), GreaterEqual, i, env);
    OperandValues(target, IntOrNull(actual), LessEqual, i + 1, env);
    ParenthesisedAnd(Binary(GreaterEqual, Paren(target), Param(i)), Binary(LessEqual, Paren(target), Param(i + 1)), env);
  }

  lemma ParenthesisedAnd(l: Expr, r: Expr, env: Env)
    requires RealDate(env.local) && Logical(l, env) && Logical(r, env)
    ensures Logical(Paren(And(l, r)), env)
    ensures Fails(Paren(And(l, r)), env) <==> Fails(l, env) || Fails(r, env)
    ensures Holds(Paren(And(l, r)), env) <==> Holds(l, env) && Holds(r, env)
  {
    hide Eval;
    AndOfTwo(l, r, env);
    ParenSame(And(l, r), env);
  }

  lemma ListValues(target: Expr, v: Value, op: Operator, q: Quantifier, i: nat, ty: SqlType, env: Env)
    requires RealDate(env.local) && Eval(target, env) == Some(v)
    requires 1 <= i <= |env.params|
    ensures var list := CastValue(BindValue(env.params[i - 1]), ty);
            && Eval(Quantified(op, q, target, Cast(Param(i), ty)), env)
               == (if list.None? then None else QuantifiedValue(op, q, v, list.value))
            && Eval(IsNotNull(target), env) == Some(VBool(!v.Null?))
            && Eval(Paren(target), env) == Some(v)
  {
    assert Eval(Param(i), env) == Some(BindValue(env.params[i - 1]));
    assert Eval(Cast(Param(i), ty), env) == CastValue(BindValue(env.params[i - 1]), ty);
  }

  lemma IntListAgrees(c: C.Condition, i: nat, env: Env, actual: Option<int>)
    requires RealDate(env.local) && WellTyped(c, env.regex) && c.target.Kind().IntKind?
    requires c.operator.In? || c.operator.NotIn?
    requires BoundAt(env.params, i, ConditionBinds(c))
    requires Eval(TargetExpr(c.target), env) == Some(IntOrNull(actual))
    ensures CastFits(c) ==> Decides(Eval(ConditionExpr(c, i), env), IntMatch(c, actual))
    ensures !CastFits(c) ==> Eval(ConditionExpr(c, i), env) == None
  {
    hide TargetExpr;
    var target, v := TargetExpr(c.target), IntOrNull(actual);
    C.IntsOfIntItems(c.value.items);
    assert ConditionBinds(c) == [BindIntArray(C.IntArray(c.value))];
    ParamAt(env.params, i, ConditionBinds(c), 0);
    var op, q := if c.operator.In? then Equal else NotEqual, if c.operator.In? then AnyOf else AllOf;
    ListValues(target, v, op, q, i, IntArrayType, env);
    ListValues(Paren(target), v, op, q, i, IntArrayType, env);
    ParenthesisedAnd(IsNotNull(Paren(target)), Quantified(op, q, Paren(target), Cast(Param(i), IntArrayType)), env);
  }

  lemma TextListAgrees(c: C.Condition, i: nat, env: Env, actual: Option<string>)
    requires RealDate(env.local) && WellTyped(c, env.regex) && c.target.Kind().StringKind?
    requires c.operator.In? || c.operator.NotIn?
    requires BoundAt(env.params, i, ConditionBinds(c))
    requires Eval(TargetExpr(c.target), env) == Some(TextOrNull(actual))
    ensures Decides(Eval(ConditionExpr(c, i), env), StringMatch(c, actual, env.regex))
  {
    hide TargetExpr, Choices;
    var target, v := TargetExpr(c.target), TextOrNull(actual);
    C.StringsOfStringItems(c.value.items);
    assert ConditionBinds(c) == [BindTextArray(C.StrArray(c.value))];
    ParamAt(env.params, i, ConditionBinds(c), 0);
    var op, q := if c.operator.In? then Equal else NotEqual, if c.operator.In? then AnyOf else AllOf;
    ListValues(target, v, op, q, i, TextArrayType, env);
    ParenthesisedAnd(IsNotNull(target), Quantified(op, q, target, Cast(Param(i), TextArrayType)), env);
  }

  lemma ContainsAgrees(c: C.Condition, i: nat, env: Env, actual: Option<string>)
    requires RealDate(env.local) && WellTyped(c, env.regex) && c.target.Kind().StringKind? && c.operator.Contains?
    requires BoundAt(env.params, i, ConditionBinds(c))
    requires Eval(TargetExpr(c.target), env) == Some(TextOrNull(actual))
    ensures Decides(Eval(ConditionExpr(c, i), env), StringMatch(c, actual, env.regex))
  {
    hide TargetExpr, SqlLike.EscapeLike, SqlLike.Like, T.Contains, T.Trimmed, T.IsLower;
    ParamAt(env.params, i, ConditionBinds(c), 0);
    OperandValues(TargetExpr(c.target), TextOrNull(actual), Like, i, env);
    if actual.Some? {
      SqlLike.LikeOfEscapedIsContains(actual.value, c.value.s);
    }
  }

  lemma RegexAgrees(c: C.Condition, i: nat, env: Env, actual: Option<string>)
    requires RealDate(env.local) && WellTyped(c, env.regex) && c.target.Kind().StringKind? && c.operator.Regex?
    requires BoundAt(env.params, i, ConditionBinds(c))
    requires Eval(TargetExpr(c.target), env) == Some(TextOrNull(actual))
    ensures Decides(Eval(ConditionExpr(c, i), env), StringMatch(c, actual, env.regex))
  {
    hide TargetExpr, T.Trim;
    ParamAt(env.params, i, ConditionBinds(c), 0);
    OperandValues(TargetExpr(c.target), TextOrNull(actual), Matches, i, env);
  }

  lemma TextEqualityAgrees(c: C.Condition, i: nat, env: Env, actual: Option<string>)
    requires RealDate(env.local) && WellTyped(c, env.regex) && c.target.Kind().StringKind?
    requires c.operator.Eq? || c.operator.Neq?
    requires BoundAt(env.params, i, ConditionBinds(c))
    requires Eval(TargetExpr(c.target), env) == Some(TextOrNull(actual))
    ensures Decides(Eval(ConditionExpr(c, i), env), StringMatch(c, actual, env.regex))
  {
    hide TargetExpr, Choices;
    ParamAt(env.params, i, ConditionBinds(c), 0);
    OperandValues(TargetExpr(c.target), TextOrNull(actual), Equal, i, env);
    assert Eval(Param(i), env) == Some(VText(c.value.s));
  }

  /** A well-typed condition means the same on both paths, unless its list does not fit `int[]`. */
  lemma ConditionAgrees(c: C.Condition, i: nat, env: Env)
    requires Usable(env) && WellTyped(c, env.regex)
    requires BoundAt(env.params, i, ConditionBinds(c))
    ensures CastFits(c) ==> Decides(Eval(ConditionExpr(c, i), env), EvaluateSingle(c, FactsOf(env), env.regex))
    ensures !CastFits(c) ==> Eval(ConditionExpr(c, i), env) == None
  {
    hide ComputeFacts, ConditionExpr, ConditionBinds, TargetExpr, Eval, BoolMatch, IntMatch, StringMatch, WellTyped, Sound;
    var f := FactsOf(env);
    TargetValue(c.target, env);
    match c.target.Kind()
    case BoolKind => BoolConditionAgrees(c, i, env, FactValue(c.target, f).b);
    case IntKind =>
      var v := FactValue(c.target, f);
      var actual := if v.VInt? then Some(v.n) else None;
      IntConditionAgrees(c, i, env, actual);
    case StringKind =>
      var v := FactValue(c.target, f);
      var actual := if v.VText? then Some(v.s) else None;
      TextConditionAgrees(c, i, env, actual);
  }

  lemma TextConditionAgrees(c: C.Condition, i: nat, env: Env, actual: Option<string>)
    requires RealDate(env.local) && WellTyped(c, env.regex) && c.target.Kind().StringKind?
    requires BoundAt(env.params, i, ConditionBinds(c))
    requires Eval(TargetExpr(c.target), env) == Some(TextOrNull(actual))
    ensures Decides(Eval(ConditionExpr(c, i), env), StringMatch(c, actual, env.regex))
  {
    hide ConditionExpr, ConditionBinds, TargetExpr, Eval, StringMatch, WellTypedValue;
    match c.operator
    case In => TextListAgrees(c, i, env, actual);
    case NotIn => TextListAgrees(c, i, env, actual);
    case Contains => ContainsAgrees(c, i, env, actual);
    case Regex => RegexAgrees(c, i, env, actual);
    case Eq => TextEqualityAgrees(c, i, env, actual);
    case Neq => TextEqualityAgrees(c, i, env, actual);
  }

  lemma IntConditionAgrees(c: C.Condition, i: nat, env: Env, actual: Option<int>)
    requires RealDate(env.local) && WellTyped(c, env.regex) && c.target.Kind().IntKind?
    requires BoundAt(env.params, i, ConditionBinds(c))
    requires Eval(TargetExpr(c.target), env) == Some(IntOrNull(actual))
    ensures CastFits(c) ==> Decides(Eval(ConditionExpr(c, i), env), IntMatch(c, actual))
    ensures !CastFits(c) ==> Eval(ConditionExpr(c, i), env) == None
  {
    hide ConditionExpr, ConditionBinds, TargetExpr, Eval, IntMatch, WellTyped;
    if c.operator.In? || c.operator.NotIn? {
      IntListAgrees(c, i, env, actual);
    } else if c.operator.Between? {
      BetweenAgrees(c, i, env, actual);
    } else {
      IntComparisonAgrees(c, i, env, actual);
    }
  }

  // --- AND and OR ---------------------------------------------------------------------

  lemma {:induction false} AndChainValue(es: seq<Expr>, env: Env)
    requires RealDate(env.local)
    requires es != [] && forall i :: 0 <= i < |es| ==> Logical(es[i], env)
    ensures Logical(AndChain(es), env)
    ensures Fails(AndChain(es), env) <==> exists i :: 0 <= i < |es| && Fails(es[i], env)
    ensures !Fails(AndChain(es), env)
        ==> (Holds(AndChain(es), env) <==> forall i :: 0 <= i < |es| ==> Holds(es[i], env))
  {
    hide Eval;
    if |es| > 1 {
      var before, last := es[..|es| - 1], es[|es| - 1];
      AndChainValue(before, env);
      AndOfTwo(AndChain(before), last, env);
      assert forall i :: 0 <= i < |before| ==> before[i] == es[i];
      if Fails(AndChain(before), env) {
        var i :| 0 <= i < |before| && Fails(before[i], env);
        assert Fails(es[i], env);
      }
    }
  }

  lemma OrOfTwo(l: Expr, r: Expr, env: Env)
    requires RealDate(env.local) && Logical(l, env) && Logical(r, env)
    ensures Logical(Or(l, r), env)
    ensures Fails(Or(l, r), env) <==> Fails(l, env) || Fails(r, env)
    ensures !Fails(Or(l, r), env) ==> (Holds(Or(l, r), env) <==> Holds(l, env) || Holds(r, env))
  {
  }

  lemma {:induction false} OrChainValue(es: seq<Expr>, env: Env)
    requires RealDate(env.local)
    requires es != [] && forall i :: 0 <= i < |es| ==> Logical(es[i], env)
    ensures Logical(OrChain(es), env)
    ensures Fails(OrChain(es), env) <==> exists i :: 0 <= i < |es| && Fails(es[i], env)
    ensures !Fails(OrChain(es), env)
        ==> (Holds(OrChain(es), env) <==> exists i :: 0 <= i < |es| && Holds(es[i], env))
  {
    hide Eval;
    if |es| > 1 {
      var before, last := es[..|es| - 1], es[|es| - 1];
      OrChainValue(before, env);
      OrOfTwo(OrChain(before), last, env);
      assert forall i :: 0 <= i < |before| ==> before[i] == es[i];
      if i :| 0 <= i < |before| && Fails(before[i], env) {
        assert Fails(es[i], env);
      }
      if i :| 0 <= i < |before| && Holds(before[i], env) {
        assert Holds(es[i], env);
      }
    }
  }

  // --- groups and trees ---------------------------------------------------------------

  predicate CastsFit(tree: C.RuleTree) {
    forall g <- tree.groups :: GroupCastsFit(g)
  }

  predicate GroupCastsFit(g: C.Group) {
    forall c <- g :: CastFits(c)
  }

  lemma BoundPrefix(params: seq<Bind>, i: nat, first: seq<Bind>, second: seq<Bind>)
    requires BoundAt(params, i, first + second)
    ensures BoundAt(params, i, first) && BoundAt(params, i + |first|, second)
  {
    var all := params[i - 1..i - 1 + |first + second|];
    assert params[i - 1..i - 1 + |first|] == all[..|first|];
    assert params[i - 1 + |first|..i - 1 + |first| + |second|] == all[|first|..];
  }

  /** Each compiled condition fails or decides like its original. */
  predicate Corresponds(e: Expr, env: Env, fits: bool, holds: bool)
    requires RealDate(env.local)
  {
    && Logical(e, env)
    && (Fails(e, env) <==> !fits)
    && (fits ==> (Holds(e, env) <==> holds))
  }

  lemma ConditionCorresponds(c: C.Condition, i: nat, env: Env)
    requires Usable(env) && WellTyped(c, env.regex)
    requires BoundAt(env.params, i, ConditionBinds(c))
    ensures Corresponds(ConditionExpr(c, i), env, CastFits(c), EvaluateSingle(c, FactsOf(env), env.regex))
  {
    hide ConditionExpr, ConditionBinds, CastFits, EvaluateSingle, Eval, ComputeFacts, WellTyped, Sound;
    ConditionAgrees(c, i, env);
  }

  lemma {:induction false} ConditionsCorrespond(cs: seq<C.Condition>, i: nat, env: Env)
    requires Usable(env) && forall k :: 0 <= k < |cs| ==> WellTyped(cs[k], env.regex)
    requires BoundAt(env.params, i, ConditionsBinds(cs))
    ensures forall k :: 0 <= k < |cs| ==>
              Corresponds(ConditionExprs(cs, i)[k], env, CastFits(cs[k]), EvaluateSingle(cs[k], FactsOf(env), env.regex))
  {
    hide ConditionExpr, ConditionBinds, CastFits, EvaluateSingle, Corresponds, ComputeFacts, WellTyped, Sound;
    if cs != [] {
      var before, last := cs[..|cs| - 1], cs[|cs| - 1];
      BoundPrefix(env.params, i, ConditionsBinds(before), ConditionBinds(last));
      ConditionsCorrespond(before, i, env);
      ConditionCorresponds(last, i + |ConditionsBinds(before)|, env);
    }
  }

  lemma GroupCorresponds(group: C.Group, i: nat, env: Env)
    requires Usable(env) && WellFormedGroup(group, env.regex)
    requires BoundAt(env.params, i, ConditionsBinds(group))
    ensures Corresponds(GroupExpr(group, i), env, GroupCastsFit(group), EvaluateGroup(group, FactsOf(env), env.regex))
  {
    hide ConditionBinds, ConditionsBinds, ConditionExpr, ConditionExprs, CastFits, EvaluateSingle, ComputeFacts, WellTyped, Sound;
    var es := ConditionExprs(group, i);
    ConditionsCorrespond(group, i, env);
    AndChainValue(es, env);
    ParenSame(AndChain(es), env);
    if k :| 0 <= k < |group| && !CastFits(group[k]) {
      assert Fails(es[k], env);
    }
  }

  lemma {:induction false} GroupsCorrespond(groups: seq<C.Group>, i: nat, env: Env)
    requires Usable(env) && forall k :: 0 <= k < |groups| ==> WellFormedGroup(groups[k], env.regex)
    requires BoundAt(env.params, i, GroupsBinds(groups))
    ensures forall k :: 0 <= k < |groups| ==>
              Corresponds(GroupExprs(groups, i)[k], env, GroupCastsFit(groups[k]),
                          EvaluateGroup(groups[k], FactsOf(env), env.regex))
  {
    hide GroupExpr, ConditionsBinds, GroupCastsFit, EvaluateGroup, Corresponds, ComputeFacts, WellFormedGroup, Sound;
    if groups != [] {
      var before, last := groups[..|groups| - 1], groups[|groups| - 1];
      BoundPrefix(env.params, i, GroupsBinds(before), ConditionsBinds(last));
      GroupsCorrespond(before, i, env);
      GroupCorresponds(last, i + |GroupsBinds(before)|, env);
    }
  }

  lemma TreeCorresponds(tree: C.RuleTree, i: nat, env: Env)
    requires Usable(env) && WellFormed(tree, env.regex)
    requires BoundAt(env.params, i, TreeBinds(tree))
    ensures Corresponds(TreeExpr(tree, i), env, CastsFit(tree), Evaluate(tree, FactsOf(env), env.regex))
  {
    hide GroupsBinds, GroupExpr, GroupExprs, GroupCastsFit, EvaluateGroup, ComputeFacts, WellFormedGroup, Sound;
    if !tree.grantOnAnyBirthday {
      var es := GroupExprs(tree.groups, i);
      GroupsCorrespond(tree.groups, i, env);
      OrChainValue(es, env);
      ParenSame(OrChain(es), env);
      if k :| 0 <= k < |tree.groups| && !GroupCastsFit(tree.groups[k]) {
        assert Fails(es[k], env);
      }
      if k :| 0 <= k < |tree.groups| && EvaluateGroup(tree.groups[k], FactsOf(env), env.regex) {
        assert !Fails(OrChain(es), env) ==> Holds(es[k], env);
      }
    }
  }

  // --- the promise --------------------------------------------------------------------

  /**
    For every rule the validator accepts, every row that saves and unlinks can
    leave behind, every local date and every bind offset: the generated text has
    one reading, and on the member's row it is TRUE exactly when the evaluator
    accepts the member's facts, provided the integer lists fit the casts in the
    text. When some list does not fit, the query fails instead, so fitting lists
    are exactly what the agreement needs.
   */
  lemma CompiledClauseMeansRule(
    body: TreeBody, changes: seq<Change>, user: UserId, local: Date,
    before: seq<Bind>, after: seq<Bind>, regex: C.RegexEngine)
    requires ParsedTree(body, regex).Ok?
    requires user in Run(map[], changes)
    requires UsableToday(local)
    ensures var tree := ParsedTree(body, regex).value;
            var row := Run(map[], changes)[user];
            var env := Env(user, row, local, before + TreeBinds(tree) + after, regex);
            var clause := Parse(Print(TreeExpr(tree, |before| + 1)));
            && clause.Some?
            && ChronoYear(row.birthYear)
            && (Eval(clause.value, env).Some? <==> CastsFit(tree))
            && (CastsFit(tree) ==>
                  (IsTrue(Eval(clause.value, env)) <==> Evaluate(tree, ComputeFacts(row.Input(), local), regex)))
  {
    hide TreeExpr, TreeBinds, Evaluate, CastsFit, WellFormed, ComputeFacts, ParsedTree, Eval;
    var tree := ParsedTree(body, regex).value;
    var row := Run(map[], changes)[user];
    var env := Env(user, row, local, before + TreeBinds(tree) + after, regex);
    AcceptedTreeIsWellFormed(body, regex);
    EveryReachableRowIsSound(map[], changes);
    ClauseReadsAsIntended(tree, |before| + 1);
    assert env.params[|before|..|before| + |TreeBinds(tree)|] == TreeBinds(tree);
    TreeCorresponds(tree, |before| + 1, env);
  }

  // --- rules that never passed the validator ------------------------------------------

  /** The shortcuts agree even so: "anyone" holds, no groups and an empty group do not. */
  lemma ShortcutsAgree(tree: C.RuleTree, i: nat, env: Env)
    requires Usable(env)
    ensures tree.grantOnAnyBirthday ==>
              Evaluate(tree, FactsOf(env), env.regex) && Eval(TreeExpr(tree, i), env) == Some(VBool(true))
    ensures !tree.grantOnAnyBirthday && tree.groups == [] ==>
              !Evaluate(tree, FactsOf(env), env.regex) && Eval(TreeExpr(tree, i), env) == Some(VBool(false))
    ensures !EvaluateGroup([], FactsOf(env), env.regex) && Eval(GroupExpr([], i), env) == Some(VBool(false))
  {
    hide ComputeFacts;
  }

  /** An ill-typed value matches nobody in the evaluator, a missing text under `neq` aside; SQL is sent 0, "" or false. */
  lemma IllTypedValues(c: C.Condition, n: int, s: string, b: bool, regex: C.RegexEngine)
    ensures c.value.AsI64().None? && !c.operator.In? && !c.operator.NotIn? ==> !IntMatch(c, Some(n)) && IntOrZero(c.value) == 0
    ensures c.value.AsStr().None? && !c.operator.In? && !c.operator.NotIn? ==>
              !StringMatch(c, Some(s), regex) && StrOrEmpty(c.value) == ""
    ensures c.value.AsBool().None? ==> !BoolMatch(c, b)
    ensures c.operator.Between? && (c.valueEnd.None? || c.valueEnd.value.AsI64().None?) ==>
              !IntMatch(c, Some(n)) && UpperBound(c) == IntOrZero(c.value)
    ensures !IntMatch(c, None) && (StringMatch(c, None, regex) <==> c.operator.Neq?)
    ensures c.operator.Eq? && c.target.Kind().BoolKind? ==> ConditionBinds(c) == [BindBool(c.value == C.JBool(true))]
  {
  }

  // --- where the hypotheses are needed ------------------------------------------------

  /** An accepted rule, "birth month in [2147483648]", whose query fails on every row. */
  lemma OversizedListFails(user: UserId, row: Row, local: Date, regex: C.RegexEngine)
    requires Sound(row) && UsableToday(local)
    ensures var months := C.JArray([C.JInt(2147483648)]);
            var body := TreeBody(false, [[ConditionInput(Some(C.BirthMonth), Some(C.In), months, None)]]);
            var tree := C.RuleTree(false, [[C.Condition(C.BirthMonth, C.In, months, None)]]);
            && ParsedTree(body, regex) == Ok(tree)
            && !CastsFit(tree)
            && Eval(TreeExpr(tree, 1), Env(user, row, local, TreeBinds(tree), regex)) == None
  {
    hide TreeExpr, TreeBinds, Eval, ParsedTree, CastFits, WellTyped, Sound, Evaluate;
    var c := C.Condition(C.BirthMonth, C.In, C.JArray([C.JInt(2147483648)]), None);
    var tree := C.RuleTree(false, [[c]]);
    var env := Env(user, row, local, TreeBinds(tree), regex);
    OversizedListIsWellTyped(c, regex);
    assert c in [c] && [c] in tree.groups;
    assert WellFormedGroup([c], regex);
    WellFormedTreesAreTheFixedPoints(tree, regex);
    assert ResubmittedGroup([c]) == [Resubmitted(c)];
    assert ResubmittedTree(tree).groups == [[Resubmitted(c)]];
    TreeCorresponds(tree, 1, env);
  }

  lemma OversizedListIsWellTyped(c: C.Condition, regex: C.RegexEngine)
    requires c == C.Condition(C.BirthMonth, C.In, C.JArray([C.JInt(2147483648)]), None)
    ensures WellTyped(c, regex) && !CastFits(c)
  {
    assert C.Ints(c.value.items) == [2147483648];
    assert 2147483648 in C.IntArray(c.value);
  }

  /**
    Conditions nobody validated: on a `not_in` whose list is empty SQL says TRUE.
    The evaluator asks for the fact, so the two part exactly where the fact is
    missing, or is no number or text. The validator refuses such a list.
   */
  lemma EmptyNotInPartsOnMissingFacts(c: C.Condition, i: nat, env: Env)
    requires Usable(env) && c.operator.NotIn? && ListBinds(c) == []
    ensures !WellTyped(c, env.regex)
    ensures Eval(ConditionExpr(c, i), env) == Some(VBool(true))
    ensures EvaluateSingle(c, FactsOf(env), env.regex)
       <==> !FactValue(c.target, FactsOf(env)).Null? && !c.target.Kind().BoolKind?
  {
    hide DaysUntil, Age, AgeTurning, ComputeDerived, TargetExpr;
    if WellTyped(c, env.regex) {
      if c.target.Kind().IntKind? {
        C.IntsOfIntItems(c.value.items);
      } else {
        C.StringsOfStringItems(c.value.items);
      }
    }
  }

  /** For example "Chinese zodiac not in []", for a member without a birth year. */
  lemma UnvalidatedEmptyListDiffers(env: Env)
    requires Usable(env) && env.row.birthYear.None?
    ensures var c := C.Condition(C.ChineseZodiac, C.NotIn, C.JArray([]), None);
            && !WellTyped(c, env.regex)
            && Eval(ConditionExpr(c, 1), env) == Some(VBool(true))
            && !EvaluateSingle(c, FactsOf(env), env.regex)
  {
    hide DaysUntil, Age, AgeTurning, Eval, EvaluateSingle, WellTyped, ConditionExpr;
    var c := C.Condition(C.ChineseZodiac, C.NotIn, C.JArray([]), None);
    assert ListBinds(c) == [];
    EmptyNotInPartsOnMissingFacts(c, 1, env);
  }
}
