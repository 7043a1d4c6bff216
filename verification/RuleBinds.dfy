/**
  The numbering of placeholders, and the query that src/services/sync.rs builds
  around a compiled clause: `$1` is the member list, the clause's own binds
  follow, and the limit comes last.
 */
module RuleBinds {
  import opened Wrappers
  import opened SqlExpr
  import opened SqlSemantics
  import opened RuleSql
  import SqlLike
  import C = Condition

  /** The placeholders of a text, in the order they are written. */
  function Placeholders(ts: SqlText): seq<nat> {
    if ts == [] then [] else PlaceholderOf(ts[0]) + Placeholders(ts[1..])
  }

  function PlaceholderOf(t: Token): seq<nat> {
    if t.TParam? then [t.index] else []
  }

  function Numbers(first: nat, n: nat): seq<nat> {
    seq(n, k requires 0 <= k < n => first + k)
  }

  lemma NumbersConcat(first: nat, n: nat, m: nat)
    ensures Numbers(first, n) + Numbers(first + n, m) == Numbers(first, n + m)
  {
  }

  lemma {:induction false} PlaceholdersConcat(a: SqlText, b: SqlText)
    ensures Placeholders(a + b) == Placeholders(a) + Placeholders(b)
  {
    if a == [] {
      assert a + b == b;
    } else {
      hide PlaceholderOf;
      assert (a + b)[1..] == a[1..] + b;
      PlaceholdersConcat(a[1..], b);
      var first, middle, last := PlaceholderOf(a[0]), Placeholders(a[1..]), Placeholders(b);
      assert Placeholders(a + b) == first + (middle + last);
      assert first + (middle + last) == (first + middle) + last;
    }
  }

  /** The placeholders of an expression, left to right. */
  function ParamsOf(e: Expr): seq<nat> {
    match e
    case Param(i) => [i]
    case Paren(x) => ParamsOf(x)
    case Cast(x, _) => ParamsOf(x)
    case Binary(_, l, r) => ParamsOf(l) + ParamsOf(r)
    case Quantified(_, _, l, a) => ParamsOf(l) + ParamsOf(a)
    case IsNotNull(x) => ParamsOf(x)
    case IsDistinctFrom(l, r) => ParamsOf(l) + ParamsOf(r)
    case And(l, r) => ParamsOf(l) + ParamsOf(r)
    case Or(l, r) => ParamsOf(l) + ParamsOf(r)
    case _ => []
  }

  lemma {:induction false} NoParamTokens(ts: SqlText)
    requires forall t <- ts :: !t.TParam?
    ensures Placeholders(ts) == []
  {
    if ts != [] {
      NoParamTokens(ts[1..]);
    }
  }

  lemma {:induction false} ArgumentsHaveNoParams(args: seq<Argument>)
    ensures forall t <- PrintArguments(args) :: !t.TParam?
  {
    if |args| > 1 {
      ArgumentsHaveNoParams(args[1..]);
    }
  }

  lemma {:induction false} PlaceholdersOfText(e: Expr)
    ensures Placeholders(Print(e)) == ParamsOf(e)
  {
    hide Placeholders;
    match e
    case Call(f, args) =>
      ArgumentsHaveNoParams(args);
      NoParamTokens(Print(e));
    case Param(i) => SinglePlaceholder(i);
    case Paren(x) =>
      PlaceholdersOfText(x);
      Framed([TLParen], x, [TRParen]);
    case Cast(x, ty) =>
      PlaceholdersOfText(x);
      Framed([], x, [TCast(ty)]);
      assert [] + Print(x) + [TCast(ty)] == Print(e);
    case IsNotNull(x) =>
      PlaceholdersOfText(x);
      Framed([], x, [TIs, TNot, TNull]);
      assert [] + Print(x) + [TIs, TNot, TNull] == Print(e);
    case Binary(op, l, r) =>
      PlaceholdersOfText(l);
      PlaceholdersOfText(r);
      Joined(l, [TOperator(op)], r);
    case IsDistinctFrom(l, r) =>
      PlaceholdersOfText(l);
      PlaceholdersOfText(r);
      Joined(l, [TIs, TDistinct, TFrom], r);
    case And(l, r) =>
      PlaceholdersOfText(l);
      PlaceholdersOfText(r);
      Joined(l, [TAnd], r);
    case Or(l, r) =>
      PlaceholdersOfText(l);
      PlaceholdersOfText(r);
      Joined(l, [TOr], r);
    case Quantified(op, q, l, a) =>
      PlaceholdersOfText(l);
      PlaceholdersOfText(a);
      Joined(l, [TOperator(op), TQuantifier(q), TLParen], a);
      NoParamTokens([TRParen]);
      PlaceholdersConcat(Print(l) + [TOperator(op), TQuantifier(q), TLParen] + Print(a), [TRParen]);
    case _ => NoParamTokens(Print(e));
  }

  lemma SinglePlaceholder(i: nat)
    ensures Placeholders([TParam(i)]) == [i]
  {
  }

  lemma Framed(before: SqlText, e: Expr, after: SqlText)
    requires forall t <- before + after :: !t.TParam?
    ensures Placeholders(before + Print(e) + after) == Placeholders(Print(e))
  {
    assert (forall t <- before :: t in before + after) && forall t <- after :: t in before + after;
    NoParamTokens(before);
    NoParamTokens(after);
    PlaceholdersConcat(before, Print(e));
    PlaceholdersConcat(before + Print(e), after);
  }

  lemma Joined(l: Expr, op: SqlText, r: Expr)
    requires forall t <- op :: !t.TParam?
    ensures Placeholders(Print(l) + op + Print(r)) == Placeholders(Print(l)) + Placeholders(Print(r))
  {
    NoParamTokens(op);
    PlaceholdersConcat(Print(l), op);
    PlaceholdersConcat(Print(l) + op, Print(r));
  }

  // --- compiled clauses ---------------------------------------------------------------

  lemma TargetHasNoParams(target: C.Target)
    ensures ParamsOf(TargetExpr(target)) == []
  {
  }

  lemma BetweenNumbers(target: Expr, i: nat)
    requires ParamsOf(target) == []
    ensures ParamsOf(And(Binary(GreaterEqual, Paren(target), Param(i)), Binary(LessEqual, Paren(target), Param(i + 1))))
         == [i, i + 1]
  {
    assert ParamsOf(Binary(GreaterEqual, Paren(target), Param(i))) == [i];
    assert ParamsOf(Binary(LessEqual, Paren(target), Param(i + 1))) == [i + 1];
  }

  lemma ListNumbers(target: Expr, op: Operator, q: Quantifier, i: nat, ty: SqlType)
    requires ParamsOf(target) == []
    ensures ParamsOf(Quantified(op, q, target, Cast(Param(i), ty))) == [i]
    ensures ParamsOf(And(IsNotNull(target), Quantified(op, q, target, Cast(Param(i), ty)))) == [i]
  {
    assert ParamsOf(Cast(Param(i), ty)) == [i];
    assert ParamsOf(IsNotNull(target)) == [];
  }

  lemma ConditionNumbers(c: C.Condition, i: nat)
    ensures ParamsOf(ConditionExpr(c, i)) == Numbers(i, |ConditionBinds(c)|)
  {
    hide TargetExpr, IntOrZero, StrOrEmpty, UpperBound, C.IntArray, C.StrArray, SqlLike.EscapeLike;
    var target := TargetExpr(c.target);
    TargetHasNoParams(c.target);
    assert ParamsOf(Paren(target)) == [];
    if c.operator.Between? {
      BetweenNumbers(target, i);
    } else if c.operator.In? || c.operator.NotIn? {
      ListConditionNumbers(c, i);
    }
  }

  lemma ListConditionNumbers(c: C.Condition, i: nat)
    requires c.operator.In? || c.operator.NotIn?
    ensures ParamsOf(ConditionExpr(c, i)) == Numbers(i, |ConditionBinds(c)|)
  {
    hide TargetExpr, C.IntArray, C.StrArray;
    var target := TargetExpr(c.target);
    TargetHasNoParams(c.target);
    assert ParamsOf(Paren(target)) == [];
    ListNumbers(target, Equal, AnyOf, i, TextArrayType);
    ListNumbers(Paren(target), Equal, AnyOf, i, IntArrayType);
    ListNumbers(target, NotEqual, AllOf, i, TextArrayType);
    ListNumbers(Paren(target), NotEqual, AllOf, i, IntArrayType);
    hide ParamsOf;
    NoPlaceholders();
  }

  lemma NoPlaceholders()
    ensures ParamsOf(Bool(true)) == [] && ParamsOf(Bool(false)) == []
  {
  }

  lemma {:induction false} ConditionsNumbers(cs: seq<C.Condition>, i: nat)
    requires cs != []
    ensures ParamsOf(AndChain(ConditionExprs(cs, i))) == Numbers(i, |ConditionsBinds(cs)|)
  {
    hide ConditionExpr, ConditionBinds;
    var before, last := cs[..|cs| - 1], cs[|cs| - 1];
    var n := |ConditionsBinds(before)|;
    ConditionNumbers(last, i + n);
    if |cs| == 1 {
      assert ConditionExprs(cs, i) == [ConditionExpr(last, i)];
    } else {
      ConditionsNumbers(before, i);
      assert ConditionExprs(cs, i)[..|cs| - 1] == ConditionExprs(before, i);
      NumbersConcat(i, n, |ConditionBinds(last)|);
    }
  }

  lemma GroupNumbers(group: C.Group, i: nat)
    ensures ParamsOf(GroupExpr(group, i)) == Numbers(i, |ConditionsBinds(group)|)
  {
    if group != [] {
      ConditionsNumbers(group, i);
    }
  }

  lemma {:induction false} GroupsNumbers(groups: seq<C.Group>, i: nat)
    requires groups != []
    ensures ParamsOf(OrChain(GroupExprs(groups, i))) == Numbers(i, |GroupsBinds(groups)|)
  {
    hide GroupExpr, ConditionsBinds;
    var before, last := groups[..|groups| - 1], groups[|groups| - 1];
    var n := |GroupsBinds(before)|;
    GroupNumbers(last, i + n);
    if |groups| == 1 {
      assert GroupExprs(groups, i) == [GroupExpr(last, i)];
    } else {
      GroupsNumbers(before, i);
      assert GroupExprs(groups, i)[..|groups| - 1] == GroupExprs(before, i);
      NumbersConcat(i, n, |ConditionsBinds(last)|);
    }
  }

  /**
    The clause uses the placeholders offset+1, ..., offset+|binds|, each once and
    in this order, for every tree and offset.
   */
  lemma PlaceholdersAreConsecutive(tree: C.RuleTree, offset: nat)
    ensures Placeholders(Print(TreeExpr(tree, offset + 1))) == Numbers(offset + 1, |TreeBinds(tree)|)
  {
    PlaceholdersOfText(TreeExpr(tree, offset + 1));
    if !tree.grantOnAnyBirthday && tree.groups != [] {
      GroupsNumbers(tree.groups, offset + 1);
    }
  }

  // --- the query around the clause ----------------------------------------------------

  const MEMBER_TEST_TEXT: SqlText :=
    [TColumn(DiscordId), TOperator(Equal), TQuantifier(AnyOf), TLParen, TParam(1), TCast(TextArrayType), TRParen]

  /** `bt.discord_id = ANY($1::text[]) AND (clause)`. */
  function QueryWhere(clause: SqlText): SqlText {
    MEMBER_TEST_TEXT + [TAnd, TLParen] + clause + [TRParen]
  }

  const MEMBER_TEST_EXPR := Quantified(Equal, AnyOf, Col(DiscordId), Cast(Param(1), TextArrayType))

  function QueryExpr(tree: C.RuleTree): Expr {
    And(MEMBER_TEST_EXPR, Paren(TreeExpr(tree, 2)))
  }

  function QueryParams(members: seq<string>, tree: C.RuleTree, limit: nat): seq<Bind> {
    [BindTextArray(members)] + TreeBinds(tree) + [BindInt(limit)]
  }

  /** `limit_idx`. */
  function LimitIndex(binds: seq<Bind>): nat {
    1 + |binds| + 1
  }

  /** The clause keeps its meaning inside the query: nothing in it escapes the parentheses. */
  lemma QueryReadsAsIntended(tree: C.RuleTree)
    ensures Parse(QueryWhere(Print(TreeExpr(tree, 2)))) == Some(QueryExpr(tree))
  {
    hide TreeExpr, Parse, Print, Primary, Predicate, Conjunction, Disjunction;
    var clause := TreeExpr(tree, 2);
    TreeIsPrimary(tree, 2);
    PrimaryFitsEveryLevel(clause);
    PrimaryFitsEveryLevel(Paren(clause));
    AndIsDisjunction(MEMBER_TEST_EXPR, Paren(clause));
    PrintedTextParsesBack(QueryExpr(tree));
    PrintedList(Col(DiscordId), Equal, AnyOf, 1, TextArrayType);
    PrintedList(clause, Equal, AnyOf, 1, TextArrayType);
    PrintedAnd(MEMBER_TEST_EXPR, Paren(clause));
    PrintedColumn(DiscordId);
    assert Print(QueryExpr(tree)) == QueryWhere(Print(clause));
  }

  lemma PrintedAnd(l: Expr, r: Expr)
    ensures Print(And(l, r)) == Print(l) + [TAnd] + Print(r)
  {
  }

  lemma PrintedColumn(c: Column)
    ensures Print(Col(c)) == [TColumn(c)]
  {
  }

  lemma AndIsDisjunction(l: Expr, r: Expr)
    requires l == MEMBER_TEST_EXPR && Predicate(r)
    ensures Disjunction(And(l, r))
  {
    PrimaryFitsEveryLevel(Cast(Param(1), TextArrayType));
    assert Predicate(l);
    assert Conjunction(And(l, r));
  }

  /** With LIMIT's own placeholder the query uses exactly `$1` to `$n` for its n parameters. */
  lemma QueryUsesEveryParameterOnce(tree: C.RuleTree, members: seq<string>, limit: nat)
    ensures Placeholders(QueryWhere(Print(TreeExpr(tree, 2)))) + [LimitIndex(TreeBinds(tree))]
         == Numbers(1, |QueryParams(members, tree, limit)|)
    ensures QueryParams(members, tree, limit)[LimitIndex(TreeBinds(tree)) - 1] == BindInt(limit)
  {
    hide TreeExpr, Print, Placeholders, Numbers;
    var clause := Print(TreeExpr(tree, 2));
    PlaceholdersAreConsecutive(tree, 1);
    MemberTestPlaceholders();
    NoParamTokens([TRParen]);
    PlaceholdersConcat(MEMBER_TEST_TEXT + [TAnd, TLParen], clause);
    PlaceholdersConcat(MEMBER_TEST_TEXT + [TAnd, TLParen] + clause, [TRParen]);
    NumbersConcat(1, 1, |TreeBinds(tree)|);
    NumbersConcat(1, 1 + |TreeBinds(tree)|, 1);
    SingleNumber(1);
    SingleNumber(LimitIndex(TreeBinds(tree)));
  }

  lemma SingleNumber(n: nat)
    ensures Numbers(n, 1) == [n]
  {
  }

  lemma MemberTestPlaceholders()
    ensures Placeholders(MEMBER_TEST_TEXT + [TAnd, TLParen]) == [1]
  {
    var before: SqlText := [TColumn(DiscordId), TOperator(Equal), TQuantifier(AnyOf), TLParen];
    var after: SqlText := [TCast(TextArrayType), TRParen, TAnd, TLParen];
    assert MEMBER_TEST_TEXT + [TAnd, TLParen] == before + Print(Param(1)) + after;
    PlaceholdersOfText(Param(1));
    Framed(before, Param(1), after);
  }
}
