/**
  The fragment of SQL that generated WHERE clauses are written in: its
  expressions, their text as tokens, and a parser for that text.

  The precedence is PostgreSQL's (section 4.1.6): a cast binds tighter than
  any operator, comparisons, LIKE, ~ and IS bind tighter than AND, and AND
  tighter than OR. A predicate holds at most one operator between primary
  operands, so the relative strength of those operators never matters.

  Parentheses are part of an expression here. `PrintedTextParsesBack` shows
  for every expression whose parentheses respect the precedence that its text
  has no other reading.
 */
module SqlExpr {
  import opened Wrappers

  datatype Column =
    | DiscordId
    | BirthMonth
    | BirthDay
    | BirthYear
    | Zodiac
    | ChineseZodiac
    | Season
    | Birthstone
    | BirthWeekday

  datatype Function = BdayIsToday | BdayDaysUntil | BdayAge | BdayAgeTurning

  datatype Operator = Equal | NotEqual | Greater | GreaterEqual | Less | LessEqual | Like | Matches

  datatype Quantifier = AnyOf | AllOf

  datatype SqlType = IntType | IntArrayType | TextArrayType

  /** Arguments of the calendar functions: columns and the member's local date. */
  datatype Argument = ColumnArg(column: Column) | LocalDate

  datatype Expr =
    | Bool(b: bool)
    | Number(n: int)
    | Col(column: Column)
    | MonthOfLocalDate
    | Call(f: Function, args: seq<Argument>)
    | Param(index: nat)
    | Paren(e: Expr)
    | Cast(e: Expr, ty: SqlType)
    | Binary(op: Operator, l: Expr, r: Expr)
    | Quantified(op: Operator, q: Quantifier, l: Expr, list: Expr)
    | IsNotNull(e: Expr)
    | IsDistinctFrom(l: Expr, r: Expr)
    | And(l: Expr, r: Expr)
    | Or(l: Expr, r: Expr)

  /** `TLocal` is the parenthesised text of the member's local date. */
  datatype Token =
    | TLParen
    | TRParen
    | TComma
    | TAnd
    | TOr
    | TBool(b: bool)
    | TNumber(n: int)
    | TColumn(column: Column)
    | TLocal
    | TFunction(f: Function)
    | TExtractMonth
    | TParam(index: nat)
    | TCast(ty: SqlType)
    | TOperator(op: Operator)
    | TQuantifier(q: Quantifier)
    | TIs
    | TNot
    | TNull
    | TDistinct
    | TFrom

  type SqlText = seq<Token>

  // --- printing ---------------------------------------------------------------------

  function PrintArgument(a: Argument): Token {
    if a.LocalDate? then TLocal else TColumn(a.column)
  }

  function PrintArguments(args: seq<Argument>): SqlText {
    if args == [] then []
    else if |args| == 1 then [PrintArgument(args[0])]
    else [PrintArgument(args[0]), TComma] + PrintArguments(args[1..])
  }

  function Print(e: Expr): (ts: SqlText) {
    match e
    case Bool(b) => [TBool(b)]
    case Number(n) => [TNumber(n)]
    case Col(c) => [TColumn(c)]
    case MonthOfLocalDate => [TExtractMonth, TLParen, TLocal, TRParen]
    case Call(f, args) => [TFunction(f), TLParen] + PrintArguments(args) + [TRParen]
    case Param(i) => [TParam(i)]
    case Paren(x) => [TLParen] + Print(x) + [TRParen]
    case Cast(x, ty) => Print(x) + [TCast(ty)]
    case Binary(op, l, r) => Print(l) + [TOperator(op)] + Print(r)
    case Quantified(op, q, l, a) => Print(l) + [TOperator(op), TQuantifier(q), TLParen] + Print(a) + [TRParen]
    case IsNotNull(x) => Print(x) + [TIs, TNot, TNull]
    case IsDistinctFrom(l, r) => Print(l) + [TIs, TDistinct, TFrom] + Print(r)
    case And(l, r) => Print(l) + [TAnd] + Print(r)
    case Or(l, r) => Print(l) + [TOr] + Print(r)
  }

  // --- precedence levels ------------------------------------------------------------

  predicate Primary(e: Expr)
    decreases e, 0
  {
    match e
    case Bool(_) => true
    case Number(_) => true
    case Col(_) => true
    case MonthOfLocalDate => true
    case Call(_, args) => args != []
    case Param(_) => true
    case Paren(x) => Disjunction(x)
    case Cast(x, _) => Primary(x)
    case _ => false
  }

  predicate Predicate(e: Expr)
    decreases e, 1
  {
    match e
    case Binary(_, l, r) => Primary(l) && Primary(r)
    case Quantified(_, _, l, a) => Primary(l) && Disjunction(a)
    case IsNotNull(x) => Primary(x)
    case IsDistinctFrom(l, r) => Primary(l) && Primary(r)
    case _ => Primary(e)
  }

  predicate Conjunction(e: Expr)
    decreases e, 2
  {
    if e.And? then Conjunction(e.l) && Predicate(e.r) else Predicate(e)
  }

  predicate Disjunction(e: Expr)
    decreases e, 3
  {
    if e.Or? then Disjunction(e.l) && Conjunction(e.r) else Conjunction(e)
  }

  // --- parsing ----------------------------------------------------------------------

  type Parsed = Option<(Expr, SqlText)>

  predicate Starts(ts: SqlText, t: Token) {
    ts != [] && ts[0] == t
  }

  function ParseArguments(ts: SqlText): (r: Option<(seq<Argument>, SqlText)>)
    ensures r.Some? ==> |r.value.1| < |ts|
  {
    if ts == [] || !(ts[0].TColumn? || ts[0].TLocal?) then None
    else
      var a := if ts[0].TLocal? then LocalDate else ColumnArg(ts[0].column);
      if Starts(ts[1..], TRParen) then Some(([a], ts[2..]))
      else if Starts(ts[1..], TComma) then
        var (args, rest) :- ParseArguments(ts[2..]);
        Some(([a] + args, rest))
      else None
  }

  /** A cast may follow any primary expression, and another cast that. */
  function ParseCasts(e: Expr, ts: SqlText): (r: (Expr, SqlText))
    ensures |r.1| <= |ts|
    decreases |ts|
  {
    if ts != [] && ts[0].TCast? then ParseCasts(Cast(e, ts[0].ty), ts[1..]) else (e, ts)
  }

  function ParseAtom(ts: SqlText): (r: Parsed)
    ensures r.Some? ==> |r.value.1| < |ts|
    decreases |ts|, 0
  {
    if ts == [] then None
    else
      var rest := ts[1..];
      match ts[0]
      case TBool(b) => Some((Bool(b), rest))
      case TNumber(n) => Some((Number(n), rest))
      case TColumn(c) => Some((Col(c), rest))
      case TParam(i) => Some((Param(i), rest))
      case TExtractMonth =>
        if Starts(rest, TLParen) && Starts(rest[1..], TLocal) && Starts(rest[2..], TRParen) then
          Some((MonthOfLocalDate, rest[3..]))
        else None
      case TFunction(f) =>
        if Starts(rest, TLParen) then
          var (args, after) :- ParseArguments(rest[1..]);
          Some((Call(f, args), after))
        else None
      case TLParen =>
        var (e, after) :- ParseOr(rest);
        if Starts(after, TRParen) then Some((Paren(e), after[1..])) else None
      case _ => None
  }

  function ParsePrimary(ts: SqlText): (r: Parsed)
    ensures r.Some? ==> |r.value.1| < |ts|
    decreases |ts|, 1
  {
    var (e, rest) :- ParseAtom(ts);
    Some(ParseCasts(e, rest))
  }

  function ParsePredicate(ts: SqlText): (r: Parsed)
    ensures r.Some? ==> |r.value.1| < |ts|
    decreases |ts|, 2
  {
    var (l, rest) :- ParsePrimary(ts);
    ParseOperator(l, rest)
  }

  /** What may follow the first operand of a predicate. */
  function ParseOperator(l: Expr, ts: SqlText): (r: Parsed)
    ensures r.Some? ==> |r.value.1| <= |ts|
    decreases |ts|, 2
  {
    if ts == [] then Some((l, ts))
    else
      match ts[0]
      case TOperator(op) =>
        if |ts| >= 3 && ts[1].TQuantifier? && ts[2] == TLParen then
          var (a, after) :- ParseOr(ts[3..]);
          if Starts(after, TRParen) then Some((Quantified(op, ts[1].q, l, a), after[1..])) else None
        else
          var (r, after) :- ParsePrimary(ts[1..]);
          Some((Binary(op, l, r), after))
      case TIs =>
        if |ts| >= 3 && ts[1] == TNot && ts[2] == TNull then Some((IsNotNull(l), ts[3..]))
        else if |ts| >= 3 && ts[1] == TDistinct && ts[2] == TFrom then
          var (r, after) :- ParsePrimary(ts[3..]);
          Some((IsDistinctFrom(l, r), after))
        else None
      case _ => Some((l, ts))
  }

  function ParseAnd(ts: SqlText): (r: Parsed)
    ensures r.Some? ==> |r.value.1| < |ts|
    decreases |ts|, 3
  {
    var (e, rest) :- ParsePredicate(ts);
    ParseAndTail(e, rest)
  }

  /** AND and OR associate to the left. */
  function ParseAndTail(e: Expr, ts: SqlText): (r: Parsed)
    ensures r.Some? ==> |r.value.1| <= |ts|
    decreases |ts|, 4
  {
    if Starts(ts, TAnd) then
      var (r, rest) :- ParsePredicate(ts[1..]);
      ParseAndTail(And(e, r), rest)
    else Some((e, ts))
  }

  function ParseOr(ts: SqlText): (r: Parsed)
    ensures r.Some? ==> |r.value.1| < |ts|
    decreases |ts|, 4
  {
    var (e, rest) :- ParseAnd(ts);
    ParseOrTail(e, rest)
  }

  function ParseOrTail(e: Expr, ts: SqlText): (r: Parsed)
    ensures r.Some? ==> |r.value.1| <= |ts|
    decreases |ts|, 5
  {
    if Starts(ts, TOr) then
      var (r, rest) :- ParseAnd(ts[1..]);
      ParseOrTail(Or(e, r), rest)
    else Some((e, ts))
  }

  /** A whole clause; nothing may be left over. */
  function Parse(ts: SqlText): Option<Expr> {
    var (e, rest) :- ParseOr(ts);
    if rest == [] then Some(e) else None
  }

  // --- the text has one reading -----------------------------------------------------

  /** A predicate cannot go on with `ts`. */
  predicate EndsPredicate(ts: SqlText) {
    ts == [] || ts[0] in {TRParen, TAnd, TOr}
  }

  lemma LastArgumentParses(a: Argument, rest: SqlText)
    ensures ParseArguments([PrintArgument(a), TRParen] + rest) == Some(([a], rest))
  {
    var ts := [PrintArgument(a), TRParen] + rest;
    assert Starts(ts[1..], TRParen) && ts[2..] == rest;
  }

  lemma MoreArgumentsParse(a: Argument, args: seq<Argument>, more: SqlText, rest: SqlText)
    requires ParseArguments(more) == Some((args, rest))
    ensures ParseArguments([PrintArgument(a), TComma] + more) == Some(([a] + args, rest))
  {
    var ts := [PrintArgument(a), TComma] + more;
    assert Starts(ts[1..], TComma) && ts[2..] == more;
  }

  lemma {:induction false} ArgumentsParse(args: seq<Argument>, rest: SqlText)
    requires args != []
    ensures ParseArguments(PrintArguments(args) + [TRParen] + rest) == Some((args, rest))
  {
    hide ParseArguments;
    if |args| == 1 {
      LastArgumentParses(args[0], rest);
      assert PrintArguments(args) + [TRParen] + rest == [PrintArgument(args[0]), TRParen] + rest;
      assert args == [args[0]];
    } else {
      var more := PrintArguments(args[1..]) + [TRParen] + rest;
      ArgumentsParse(args[1..], rest);
      MoreArgumentsParse(args[0], args[1..], more, rest);
      assert PrintArguments(args) + [TRParen] + rest == [PrintArgument(args[0]), TComma] + more;
      assert [args[0]] + args[1..] == args;
    }
  }

  lemma ParenParses(x: Expr, rest: SqlText)
    requires ParseOr(Print(x) + ([TRParen] + rest)) == Some((x, [TRParen] + rest))
    ensures ParseAtom(Print(Paren(x)) + rest) == Some((Paren(x), rest))
  {
    var ts := Print(Paren(x)) + rest;
    assert ts[0] == TLParen && ts[1..] == Print(x) + ([TRParen] + rest);
    assert ([TRParen] + rest)[1..] == rest;
  }

  lemma CallParses(f: Function, args: seq<Argument>, rest: SqlText)
    requires args != []
    ensures ParseAtom(Print(Call(f, args)) + rest) == Some((Call(f, args), rest))
  {
    var ts := Print(Call(f, args)) + rest;
    ArgumentsParse(args, rest);
    assert ts[0] == TFunction(f) && Starts(ts[1..], TLParen);
    assert ts[1..][1..] == PrintArguments(args) + [TRParen] + rest;
  }

  lemma LeafParses(e: Expr, rest: SqlText)
    requires e.Bool? || e.Number? || e.Col? || e.Param? || e.MonthOfLocalDate?
    ensures ParseAtom(Print(e) + rest) == Some((e, rest))
  {
    var ts := Print(e) + rest;
    if e.MonthOfLocalDate? {
      assert ts[1..] == [TLParen, TLocal, TRParen] + rest;
      assert ts[1..][3..] == rest;
    } else {
      assert ts[1..] == rest;
    }
  }

  lemma {:induction false} PrimaryParses(e: Expr, rest: SqlText)
    requires Primary(e)
    ensures ParsePrimary(Print(e) + rest) == Some(ParseCasts(e, rest))
    decreases e, 0
  {
    match e
    case Cast(x, ty) =>
      var more := [TCast(ty)] + rest;
      PrimaryParses(x, more);
      assert Print(e) + rest == Print(x) + more && more[1..] == rest;
    case Paren(x) =>
      DisjunctionParses(x, [TRParen] + rest);
      ParenParses(x, rest);
    case Call(f, args) =>
      CallParses(f, args, rest);
    case _ =>
      LeafParses(e, rest);
  }

  lemma OperandParses(e: Expr, rest: SqlText)
    requires Primary(e) && !(rest != [] && rest[0].TCast?)
    ensures ParsePrimary(Print(e) + rest) == Some((e, rest))
    decreases e, 1
  {
    PrimaryParses(e, rest);
  }

  lemma {:induction false} PrimaryIsNoQuantifier(e: Expr)
    requires Primary(e)
    ensures Print(e) != [] && !Print(e)[0].TQuantifier?
  {
    if e.Cast? {
      PrimaryIsNoQuantifier(e.e);
    }
  }

  lemma OperatorStep(op: Operator, l: Expr, r: Expr, operand: SqlText, rest: SqlText)
    requires operand != [] && !operand[0].TQuantifier?
    requires ParsePrimary(operand) == Some((r, rest))
    ensures ParseOperator(l, [TOperator(op)] + operand) == Some((Binary(op, l, r), rest))
  {
    assert ([TOperator(op)] + operand)[1..] == operand;
  }

  lemma DistinctStep(l: Expr, r: Expr, operand: SqlText, rest: SqlText)
    requires ParsePrimary(operand) == Some((r, rest))
    ensures ParseOperator(l, [TIs, TDistinct, TFrom] + operand) == Some((IsDistinctFrom(l, r), rest))
  {
    assert ([TIs, TDistinct, TFrom] + operand)[3..] == operand;
  }

  lemma QuantifiedStep(op: Operator, q: Quantifier, l: Expr, a: Expr, inner: SqlText, rest: SqlText)
    requires ParseOr(inner) == Some((a, [TRParen] + rest))
    ensures ParseOperator(l, [TOperator(op), TQuantifier(q), TLParen] + inner) == Some((Quantified(op, q, l, a), rest))
  {
    assert ([TOperator(op), TQuantifier(q), TLParen] + inner)[3..] == inner;
    assert ([TRParen] + rest)[1..] == rest;
  }

  /** Text, operator and text, regrouped for the parser. */
  lemma Regroup(l: SqlText, op: SqlText, r: SqlText, rest: SqlText)
    ensures l + op + r + rest == l + (op + (r + rest))
    ensures l + op + rest == l + (op + rest)
    ensures l + op + r + [TRParen] + rest == l + (op + (r + ([TRParen] + rest)))
  {
  }

  lemma TextOfBinary(e: Expr, rest: SqlText)
    requires e.Binary?
    ensures Print(e) + rest == Print(e.l) + ([TOperator(e.op)] + (Print(e.r) + rest))
  {
    assert Print(e) == Print(e.l) + [TOperator(e.op)] + Print(e.r);
    Regroup(Print(e.l), [TOperator(e.op)], Print(e.r), rest);
  }

  lemma TextOfIsDistinctFrom(e: Expr, rest: SqlText)
    requires e.IsDistinctFrom?
    ensures Print(e) + rest == Print(e.l) + ([TIs, TDistinct, TFrom] + (Print(e.r) + rest))
  {
    assert Print(e) == Print(e.l) + [TIs, TDistinct, TFrom] + Print(e.r);
    Regroup(Print(e.l), [TIs, TDistinct, TFrom], Print(e.r), rest);
  }

  lemma TextOfIsNotNull(e: Expr, rest: SqlText)
    requires e.IsNotNull?
    ensures Print(e) + rest == Print(e.e) + ([TIs, TNot, TNull] + rest)
  {
    assert Print(e) == Print(e.e) + [TIs, TNot, TNull];
    Regroup(Print(e.e), [TIs, TNot, TNull], [], rest);
  }

  lemma TextOfQuantified(e: Expr, rest: SqlText)
    requires e.Quantified?
    ensures Print(e) + rest
         == Print(e.l) + ([TOperator(e.op), TQuantifier(e.q), TLParen] + (Print(e.list) + ([TRParen] + rest)))
  {
    var op := [TOperator(e.op), TQuantifier(e.q), TLParen];
    assert Print(e) == Print(e.l) + op + Print(e.list) + [TRParen];
    Regroup(Print(e.l), op, Print(e.list), rest);
  }

  lemma TextOfAnd(e: Expr, rest: SqlText)
    requires e.And?
    ensures Print(e) + rest == Print(e.l) + ([TAnd] + (Print(e.r) + rest))
  {
    assert Print(e) == Print(e.l) + [TAnd] + Print(e.r);
    Regroup(Print(e.l), [TAnd], Print(e.r), rest);
  }

  lemma TextOfOr(e: Expr, rest: SqlText)
    requires e.Or?
    ensures Print(e) + rest == Print(e.l) + ([TOr] + (Print(e.r) + rest))
  {
    assert Print(e) == Print(e.l) + [TOr] + Print(e.r);
    Regroup(Print(e.l), [TOr], Print(e.r), rest);
  }

  lemma PredicateHead(l: Expr, ts: SqlText, rest: SqlText)
    requires ParsePrimary(ts) == Some((l, rest))
    ensures ParsePredicate(ts) == ParseOperator(l, rest)
  {
  }

  lemma NoOperator(e: Expr, rest: SqlText)
    requires EndsPredicate(rest)
    ensures ParseOperator(e, rest) == Some((e, rest))
  {
  }

  lemma NotNullStep(e: Expr, rest: SqlText)
    ensures ParseOperator(e, [TIs, TNot, TNull] + rest) == Some((IsNotNull(e), rest))
  {
    assert ([TIs, TNot, TNull] + rest)[3..] == rest;
  }

  lemma {:induction false} PredicateParses(e: Expr, rest: SqlText)
    requires Predicate(e) && EndsPredicate(rest)
    ensures ParsePredicate(Print(e) + rest) == Some((e, rest))
    decreases e, 2
  {
    hide Print, ParsePredicate, ParsePrimary, ParseOperator, ParseOr;
    var ts := Print(e) + rest;
    if Primary(e) {
      OperandParses(e, rest);
      PredicateHead(e, ts, rest);
      NoOperator(e, rest);
    } else {
      match e
      case Binary(op, l, r) =>
        TextOfBinary(e, rest);
        OperandParses(l, [TOperator(op)] + (Print(r) + rest));
        OperandParses(r, rest);
        PrimaryIsNoQuantifier(r);
        PredicateHead(l, ts, [TOperator(op)] + (Print(r) + rest));
        OperatorStep(op, l, r, Print(r) + rest, rest);
      case IsDistinctFrom(l, r) =>
        TextOfIsDistinctFrom(e, rest);
        OperandParses(l, [TIs, TDistinct, TFrom] + (Print(r) + rest));
        OperandParses(r, rest);
        PredicateHead(l, ts, [TIs, TDistinct, TFrom] + (Print(r) + rest));
        DistinctStep(l, r, Print(r) + rest, rest);
      case Quantified(op, q, l, a) =>
        TextOfQuantified(e, rest);
        var more := [TOperator(op), TQuantifier(q), TLParen] + (Print(a) + ([TRParen] + rest));
        OperandParses(l, more);
        DisjunctionParses(a, [TRParen] + rest);
        PredicateHead(l, ts, more);
        NoOrTail(a, [TRParen] + rest);
        QuantifiedStep(op, q, l, a, Print(a) + ([TRParen] + rest), rest);
      case IsNotNull(x) =>
        TextOfIsNotNull(e, rest);
        OperandParses(x, [TIs, TNot, TNull] + rest);
        PredicateHead(x, ts, [TIs, TNot, TNull] + rest);
        NotNullStep(x, rest);
    }
  }

  lemma NoOrTail(e: Expr, ts: SqlText)
    requires !Starts(ts, TOr)
    ensures ParseOrTail(e, ts) == Some((e, ts))
  {
  }

  lemma NoAndTail(e: Expr, ts: SqlText)
    requires !Starts(ts, TAnd)
    ensures ParseAndTail(e, ts) == Some((e, ts))
  {
  }

  lemma AndHead(e: Expr, ts: SqlText, rest: SqlText)
    requires ParsePredicate(ts) == Some((e, rest))
    ensures ParseAnd(ts) == ParseAndTail(e, rest)
  {
  }

  lemma OrHead(e: Expr, ts: SqlText, rest: SqlText)
    requires ParseAnd(ts) == Some((e, rest))
    ensures ParseOr(ts) == ParseOrTail(e, rest)
  {
  }

  lemma AndTailStep(l: Expr, more: SqlText, r: Expr, rest: SqlText)
    requires Starts(more, TAnd) && ParsePredicate(more[1..]) == Some((r, rest))
    ensures ParseAndTail(l, more) == ParseAndTail(And(l, r), rest)
  {
  }

  lemma OrTailStep(l: Expr, more: SqlText, r: Expr, rest: SqlText)
    requires Starts(more, TOr) && ParseAnd(more[1..]) == Some((r, rest))
    ensures ParseOrTail(l, more) == ParseOrTail(Or(l, r), rest)
  {
  }

  lemma {:induction false} ConjunctionParses(e: Expr, rest: SqlText)
    requires Conjunction(e) && EndsPredicate(rest)
    ensures ParseAnd(Print(e) + rest) == ParseAndTail(e, rest)
    decreases e, 3
  {
    hide Print, ParsePredicate, ParseAnd, ParseAndTail;
    if e.And? {
      var more := [TAnd] + (Print(e.r) + rest);
      TextOfAnd(e, rest);
      ConjunctionParses(e.l, more);
      PredicateParses(e.r, rest);
      assert more[1..] == Print(e.r) + rest;
      AndTailStep(e.l, more, e.r, rest);
    } else {
      PredicateParses(e, rest);
      AndHead(e, Print(e) + rest, rest);
    }
  }

  lemma {:induction false} DisjunctionParses(e: Expr, rest: SqlText)
    requires Disjunction(e) && EndsPredicate(rest) && !Starts(rest, TAnd)
    ensures ParseOr(Print(e) + rest) == ParseOrTail(e, rest)
    decreases e, 4
  {
    hide Print, ParseAnd, ParseAndTail, ParseOr, ParseOrTail;
    if e.Or? {
      var more := [TOr] + (Print(e.r) + rest);
      TextOfOr(e, rest);
      DisjunctionParses(e.l, more);
      ConjunctionParses(e.r, rest);
      NoAndTail(e.r, rest);
      assert more[1..] == Print(e.r) + rest;
      OrTailStep(e.l, more, e.r, rest);
    } else {
      ConjunctionParses(e, rest);
      NoAndTail(e, rest);
      OrHead(e, Print(e) + rest, rest);
    }
  }

  /** Under SQL precedence the text of `e` reads as `e` and as nothing else. */
  lemma PrintedTextParsesBack(e: Expr)
    requires Disjunction(e)
    ensures Parse(Print(e)) == Some(e)
  {
    assert Print(e) + [] == Print(e);
    DisjunctionParses(e, []);
  }
}
