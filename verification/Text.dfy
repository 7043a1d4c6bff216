/** The string operations of the Rust standard library that the model needs. */
module Text {
  import opened Wrappers

  // --- search and replace -----------------------------------------------------------

  predicate HasAt(s: string, v: string, i: int) {
    0 <= i <= |s| - |v| && s[i..i + |v|] == v
  }

  /** `s.contains(v)`. */
  predicate Contains(s: string, v: string) {
    exists i | 0 <= i <= |s| - |v| :: HasAt(s, v, i)
  }

  /** `s.replace(c, with)` for a one-character pattern. */
  function Replace(s: string, c: char, with: string): string {
    if s == [] then []
    else (if s[0] == c then with else [s[0]]) + Replace(s[1..], c, with)
  }

  // --- case and white space ---------------------------------------------------------

  /** `char::is_whitespace`. */
  predicate IsSpace(c: char) {
    || '\t' <= c <= '\r'
    || c in {' ', '\U{85}', '\U{A0}', '\U{1680}', '\U{2028}', '\U{2029}', '\U{202F}', '\U{205F}', '\U{3000}'}
    || '\U{2000}' <= c <= '\U{200A}'
  }

  function TrimStart(s: string): (r: string)
    ensures r == [] || !IsSpace(r[0])
    ensures |r| <= |s| && r == s[|s| - |r|..]
  {
    if s != [] && IsSpace(s[0]) then TrimStart(s[1..]) else s
  }

  function TrimEnd(s: string): (r: string)
    ensures r == [] || !IsSpace(r[|r| - 1])
    ensures |r| <= |s| && r == s[..|r|]
  {
    if s != [] && IsSpace(s[|s| - 1]) then TrimEnd(s[..|s| - 1]) else s
  }

  function Trim(s: string): (r: string)
    ensures Trimmed(r)
  {
    TrimEnd(TrimStart(s))
  }

  predicate Trimmed(s: string) {
    s == [] || (!IsSpace(s[0]) && !IsSpace(s[|s| - 1]))
  }

  lemma TrimKeepsTrimmed(s: string)
    requires Trimmed(s)
    ensures Trim(s) == s
  {
  }

  function LowerChar(c: char): char {
    if 'A' <= c <= 'Z' then c - 'A' + 'a' else c
  }

  /** ASCII lower-casing. */
  function Lower(s: string): (r: string)
    ensures |r| == |s|
    ensures forall i :: 0 <= i < |s| ==> r[i] == LowerChar(s[i])
  {
    seq(|s|, i requires 0 <= i < |s| => LowerChar(s[i]))
  }

  predicate IsLower(s: string) {
    forall i :: 0 <= i < |s| ==> !('A' <= s[i] <= 'Z')
  }

  lemma LowerIsLower(s: string)
    ensures IsLower(Lower(s))
    ensures Trimmed(s) ==> Trimmed(Lower(s))
    ensures IsLower(s) ==> Lower(s) == s
  {
    if IsLower(s) {
      assert forall i :: 0 <= i < |s| ==> Lower(s)[i] == s[i];
    }
  }

  // --- splitting --------------------------------------------------------------------

  /** `s.split(c)`: always at least one field. */
  function Split(s: string, c: char): (fields: seq<string>)
    ensures |fields| >= 1
  {
    if s == [] then [""]
    else
      var rest := Split(s[1..], c);
      if s[0] == c then [""] + rest else [[s[0]] + rest[0]] + rest[1..]
  }

  /** `s.splitn(n, c)`: at most n fields, the last one keeping the rest of the text. */
  function SplitN(s: string, n: nat, c: char): (fields: seq<string>)
    requires n >= 1
    ensures 1 <= |fields| <= n
  {
    if s == [] || n == 1 then [s]
    else if s[0] == c then [""] + SplitN(s[1..], n - 1, c)
    else
      var rest := SplitN(s[1..], n, c);
      [[s[0]] + rest[0]] + rest[1..]
  }

  /** The field before a separator is split off. */
  lemma {:induction false} SplitNTakesField(field: string, rest: string, n: nat, c: char)
    requires n >= 2 && c !in field
    ensures SplitN(field + [c] + rest, n, c) == [field] + SplitN(rest, n - 1, c)
  {
    var s := field + [c] + rest;
    if field == [] {
      assert s[1..] == rest;
    } else {
      assert s[1..] == field[1..] + [c] + rest;
      SplitNTakesField(field[1..], rest, n, c);
      assert [field[0]] + field[1..] == field;
    }
  }

  // --- decimal numbers --------------------------------------------------------------

  const I64_MIN := -0x8000_0000_0000_0000
  const I64_MAX := 0x7fff_ffff_ffff_ffff

  predicate IsI64(n: int) {
    I64_MIN <= n <= I64_MAX
  }

  function Digit(d: int): char
    requires 0 <= d < 10
  {
    '0' + d as char
  }

  function DigitValue(c: char): Option<int> {
    if '0' <= c <= '9' then Some((c - '0') as int) else None
  }

  function PrintNat(n: nat): (s: string)
    ensures s != []
  {
    if n < 10 then [Digit(n)] else PrintNat(n / 10) + [Digit(n % 10)]
  }

  /** `n.to_string()`. */
  function PrintInt(n: int): string {
    if n < 0 then "-" + PrintNat(-n) else PrintNat(n)
  }

  function ParseNat(s: string): Option<nat> {
    if s == [] then None
    else
      match DigitValue(s[|s| - 1])
      case None => None
      case Some(d) =>
        if |s| == 1 then Some(d)
        else
          match ParseNat(s[..|s| - 1])
          case None => None
          case Some(high) => Some(10 * high + d)
  }

  /** `s.parse::<i64>()`: an optional sign, then digits, in range. */
  function ParseI64(s: string): Option<int> {
    var magnitude := if s != [] && s[0] in {'-', '+'} then ParseNat(s[1..]) else ParseNat(s);
    match magnitude
    case None => None
    case Some(m) =>
      var digits: int := m;
      var n := if s != [] && s[0] == '-' then -digits else digits;
      if IsI64(n) then Some(n) else None
  }

  lemma {:induction false} ParsePrintNat(n: nat)
    ensures ParseNat(PrintNat(n)) == Some(n)
    ensures forall i :: 0 <= i < |PrintNat(n)| ==> '0' <= PrintNat(n)[i] <= '9'
  {
    if n >= 10 {
      ParsePrintNat(n / 10);
      var s := PrintNat(n);
      assert s[..|s| - 1] == PrintNat(n / 10);
    }
  }

  lemma ParseWithoutSign(digits: string, n: nat)
    requires digits != [] && digits[0] !in {'-', '+'} && ParseNat(digits) == Some(n)
    ensures IsI64(n) ==> ParseI64(digits) == Some(n)
  {
  }

  lemma ParseAfterMinus(digits: string, n: int)
    requires n >= 0 && ParseNat(digits) == Some(n)
    ensures IsI64(-n) ==> ParseI64("-" + digits) == Some(-n)
  {
    assert ("-" + digits)[1..] == digits;
  }

  lemma ParsePrintI64(n: int)
    requires IsI64(n)
    ensures ParseI64(PrintInt(n)) == Some(n)
    ensures ':' !in PrintInt(n)
  {
    ParsePrintNat(if n < 0 then -n else n);
    if n < 0 {
      ParseAfterMinus(PrintNat(-n), -n);
    } else {
      ParseWithoutSign(PrintNat(n), n);
    }
  }
}
