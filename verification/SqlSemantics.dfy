/**
  The value PostgreSQL 16 gives an expression of a generated clause on one row
  of `birthdays`: three-valued logic (section 9.1), comparison of NULLs (9.2),
  LIKE (9.7.1), ANY and ALL over arrays (9.24), and the calendar functions of
  migration 005.

  `Eval` is `None` where PostgreSQL raises an error. Errors are strict: an
  operand that fails makes the whole expression fail, since the server may
  evaluate the operands of AND and OR in any order.
 */
module SqlSemantics {
  import opened Wrappers
  import opened Calendar
  import F = BirthdaySql
  import opened BirthdayTable
  import opened SqlExpr
  import opened SqlLike
  import C = Condition

  /** A bound parameter. */
  datatype Bind =
    | BindBool(b: bool)
    | BindInt(n: int)
    | BindText(s: string)
    | BindIntArray(ints: seq<int>)
    | BindTextArray(texts: seq<string>)

  datatype Value =
    | Null
    | VBool(b: bool)
    | VInt(n: int)
    | VText(s: string)
    | VIntArray(ints: seq<int>)
    | VTextArray(texts: seq<string>)

  /** Where an expression is evaluated: the row, the member's local date, `$1`, `$2`, ... */
  datatype Env = Env(user: UserId, row: Row, local: Date, params: seq<Bind>, regex: C.RegexEngine)

  predicate IsInt4(n: int) {
    -0x8000_0000 <= n <= 0x7fff_ffff
  }

  function BindValue(b: Bind): Value {
    match b
    case BindBool(x) => VBool(x)
    case BindInt(n) => VInt(n)
    case BindText(s) => VText(s)
    case BindIntArray(ns) => VIntArray(ns)
    case BindTextArray(ts) => VTextArray(ts)
  }

  function IntOrNull(n: Option<int>): Value {
    if n.Some? then VInt(n.value) else Null
  }

  function TextOrNull(s: Option<string>): Value {
    if s.Some? then VText(s.value) else Null
  }

  function ColumnValue(c: Column, user: UserId, row: Row): Value {
    match c
    case DiscordId => VText(user)
    case BirthMonth => VInt(row.birthMonth)
    case BirthDay => VInt(row.birthDay)
    case BirthYear => IntOrNull(row.birthYear)
    case Zodiac => VText(row.zodiac)
    case ChineseZodiac => TextOrNull(row.chineseZodiac)
    case Season => VText(row.season)
    case Birthstone => VText(row.birthstone)
    case BirthWeekday => TextOrNull(row.birthWeekday)
  }

  // --- functions ----------------------------------------------------------------------

  /** An integer column as an argument. */
  function IntArgument(a: Argument, env: Env): Option<Value> {
    if a.LocalDate? then None
    else
      var v := ColumnValue(a.column, env.user, env.row);
      if v.VInt? || v.Null? then Some(v) else None
  }

  /** A non-NULL month and day, then the local date. */
  function MonthDayArguments(args: seq<Argument>, env: Env): Option<(int, int)> {
    if |args| != 3 || !args[2].LocalDate? then None
    else
      var m :- IntArgument(args[0], env);
      var d :- IntArgument(args[1], env);
      if m.VInt? && d.VInt? then Some((m.n, d.n)) else None
  }

  function CallValue(f: Function, args: seq<Argument>, env: Env): Option<Value>
    requires RealDate(env.local)
  {
    match f
    case BdayIsToday =>
      var (m, d) :- MonthDayArguments(args, env);
      var r :- F.BdayIsToday(m, d, env.local);
      Some(VBool(r))
    case BdayDaysUntil =>
      var (m, d) :- MonthDayArguments(args, env);
      var r :- F.BdayDaysUntil(m, d, env.local);
      Some(VInt(r))
    case BdayAge =>
      if args == [] then None
      else
        var y :- IntArgument(args[0], env);
        var (m, d) :- MonthDayArguments(args[1..], env);
        var r :- F.BdayAge(if y.VInt? then Some(y.n) else None, m, d, env.local);
        Some(IntOrNull(r))
    case BdayAgeTurning =>
      if args == [] then None
      else
        var y :- IntArgument(args[0], env);
        var (m, d) :- MonthDayArguments(args[1..], env);
        var r :- F.BdayAgeTurning(if y.VInt? then Some(y.n) else None, m, d, env.local);
        Some(IntOrNull(r))
  }

  // --- operators ----------------------------------------------------------------------

  /** On two values that are not NULL. */
  function Apply(op: Operator, l: Value, r: Value, regex: C.RegexEngine): Option<bool> {
    match op
    case Equal => if SameType(l, r) then Some(l == r) else None
    case NotEqual => if SameType(l, r) then Some(l != r) else None
    case Greater => if l.VInt? && r.VInt? then Some(l.n > r.n) else None
    case GreaterEqual => if l.VInt? && r.VInt? then Some(l.n >= r.n) else None
    case Less => if l.VInt? && r.VInt? then Some(l.n < r.n) else None
    case LessEqual => if l.VInt? && r.VInt? then Some(l.n <= r.n) else None
    case Like => if l.VText? && r.VText? then SqlLike.Like(l.s, r.s) else None
    case Matches =>
      if l.VText? && r.VText? && regex.compiles(r.s) then Some(regex.isMatch(r.s, l.s)) else None
  }

  predicate SameType(l: Value, r: Value) {
    || (l.VBool? && r.VBool?)
    || (l.VInt? && r.VInt?)
    || (l.VText? && r.VText?)
  }

  function BinaryValue(op: Operator, l: Value, r: Value, regex: C.RegexEngine): Option<Value> {
    if l.Null? || r.Null? then Some(Null)
    else
      var b :- Apply(op, l, r, regex);
      Some(VBool(b))
  }

  /** `l = ANY(list)` and `l <> ALL(list)`; an empty list decides before NULL does. */
  function QuantifiedValue(op: Operator, q: Quantifier, l: Value, list: Value): Option<Value> {
    match (op, q)
    case (Equal, AnyOf) =>
      var found :- ElementOf(l, list);
      Some(if IsEmptyArray(list) then VBool(false) else if l.Null? then Null else VBool(found))
    case (NotEqual, AllOf) =>
      var found :- ElementOf(l, list);
      Some(if IsEmptyArray(list) then VBool(true) else if l.Null? then Null else VBool(!found))
    case _ => None
  }

  predicate IsEmptyArray(list: Value) {
    list == VIntArray([]) || list == VTextArray([])
  }

  function ElementOf(l: Value, list: Value): Option<bool> {
    match list
    case VIntArray(ns) => if l.VInt? then Some(l.n in ns) else if l.Null? then Some(false) else None
    case VTextArray(ts) => if l.VText? then Some(l.s in ts) else if l.Null? then Some(false) else None
    case _ => None
  }

  /** Casting an array to `int[]` fails on an entry that does not fit in 32 bits. */
  function CastValue(v: Value, ty: SqlType): Option<Value> {
    match ty
    case IntType => if v.VInt? && IsInt4(v.n) then Some(v) else None
    case IntArrayType => if v.VIntArray? && (forall n <- v.ints :: IsInt4(n)) then Some(v) else None
    case TextArrayType => if v.VTextArray? then Some(v) else None
  }

  predicate IsLogical(v: Value) {
    v.VBool? || v.Null?
  }

  function AndValue(l: Value, r: Value): Option<Value> {
    if !IsLogical(l) || !IsLogical(r) then None
    else if l == VBool(false) || r == VBool(false) then Some(VBool(false))
    else if l.Null? || r.Null? then Some(Null)
    else Some(VBool(true))
  }

  function OrValue(l: Value, r: Value): Option<Value> {
    if !IsLogical(l) || !IsLogical(r) then None
    else if l == VBool(true) || r == VBool(true) then Some(VBool(true))
    else if l.Null? || r.Null? then Some(Null)
    else Some(VBool(false))
  }

  // --- expressions --------------------------------------------------------------------

  function Eval(e: Expr, env: Env): Option<Value>
    requires RealDate(env.local)
  {
    match e
    case Bool(b) => Some(VBool(b))
    case Number(n) => Some(VInt(n))
    case Col(c) => Some(ColumnValue(c, env.user, env.row))
    case MonthOfLocalDate => Some(VInt(env.local.month))
    case Call(f, args) => CallValue(f, args, env)
    case Param(i) => if 1 <= i <= |env.params| then Some(BindValue(env.params[i - 1])) else None
    case Paren(x) => Eval(x, env)
    case Cast(x, ty) =>
      var v :- Eval(x, env);
      CastValue(v, ty)
    case Binary(op, l, r) =>
      var lv :- Eval(l, env);
      var rv :- Eval(r, env);
      BinaryValue(op, lv, rv, env.regex)
    case Quantified(op, q, l, list) =>
      var lv :- Eval(l, env);
      var av :- Eval(list, env);
      QuantifiedValue(op, q, lv, av)
    case IsNotNull(x) =>
      var v :- Eval(x, env);
      Some(VBool(!v.Null?))
    case IsDistinctFrom(l, r) =>
      var lv :- Eval(l, env);
      var rv :- Eval(r, env);
      if lv.Null? || rv.Null? || SameType(lv, rv) then Some(VBool(lv != rv)) else None
    case And(l, r) =>
      var lv :- Eval(l, env);
      var rv :- Eval(r, env);
      AndValue(lv, rv)
    case Or(l, r) =>
      var lv :- Eval(l, env);
      var rv :- Eval(r, env);
      OrValue(lv, rv)
  }

  /** A WHERE clause keeps the row only on TRUE. */
  predicate IsTrue(v: Option<Value>) {
    v == Some(VBool(true))
  }
}
