/**
  Which texts trimming, lower-casing and number parsing read alike: the spaced,
  capitalised and zero-padded forms of a word or a number.
 */
module TextForms {
  import opened Wrappers
  import opened Text

  // --- white space ----------------------------------------------------------------------

  predicate AllSpace(s: string) {
    forall c <- s :: IsSpace(c)
  }

  /** `t` is `core` with white space around it. */
  ghost predicate Spaced(t: string, core: string) {
    exists before, after :: AllSpace(before) && AllSpace(after) && t == before + core + after
  }

  lemma {:induction false} TrimStartDropsSpace(before: string, rest: string)
    requires AllSpace(before) && (rest == [] || !IsSpace(rest[0]))
    ensures TrimStart(before + rest) == rest
  {
    if before == [] {
      assert before + rest == rest;
    } else {
      assert (before + rest)[1..] == before[1..] + rest;
      TrimStartDropsSpace(before[1..], rest);
    }
  }

  lemma {:induction false} TrimEndDropsSpace(rest: string, after: string)
    requires AllSpace(after) && (rest == [] || !IsSpace(rest[|rest| - 1]))
    ensures TrimEnd(rest + after) == rest
  {
    if after == [] {
      assert rest + after == rest;
    } else {
      var s := rest + after;
      assert s[..|s| - 1] == rest + after[..|after| - 1];
      TrimEndDropsSpace(rest, after[..|after| - 1]);
    }
  }

  lemma {:induction false} TrimStartLeavesRest(s: string)
    ensures AllSpace(s[..|s| - |TrimStart(s)|])
  {
    if s != [] && IsSpace(s[0]) {
      TrimStartLeavesRest(s[1..]);
      var n := |s| - |TrimStart(s)|;
      assert s[..n] == [s[0]] + s[1..][..n - 1];
    }
  }

  lemma {:induction false} TrimEndLeavesRest(s: string)
    ensures AllSpace(s[|TrimEnd(s)|..])
  {
    if s != [] && IsSpace(s[|s| - 1]) {
      var front := s[..|s| - 1];
      TrimEndLeavesRest(front);
      var n := |TrimEnd(s)|;
      assert s[n..] == front[n..] + [s[|s| - 1]];
    }
  }

  lemma TrimmedIsSpaced(t: string)
    ensures Spaced(t, Trim(t))
  {
    hide TrimStart, TrimEnd, Trimmed, IsSpace;
    var inner := TrimStart(t);
    var core := TrimEnd(inner);
    TrimStartLeavesRest(t);
    TrimEndLeavesRest(inner);
    assert t == t[..|t| - |inner|] + core + inner[|core|..];
  }

  lemma SpacedIsTrimmed(t: string, core: string)
    requires core != "" && Trimmed(core) && Spaced(t, core)
    ensures Trim(t) == core
  {
    hide TrimStart, TrimEnd, IsSpace, AllSpace;
    var before, after :| AllSpace(before) && AllSpace(after) && t == before + core + after;
    assert t == before + (core + after);
    TrimStartDropsSpace(before, core + after);
    TrimEndDropsSpace(core, after);
  }

  /** Trimming removes the white space around a text and nothing else. */
  lemma TrimExactly(t: string, core: string)
    requires core != "" && Trimmed(core)
    ensures Trim(t) == core <==> Spaced(t, core)
  {
    hide Trim, Trimmed, Spaced;
    TrimmedIsSpaced(t);
    if Spaced(t, core) {
      SpacedIsTrimmed(t, core);
    }
  }

  lemma TrimOfSpace(t: string)
    ensures Trim(t) == "" <==> AllSpace(t)
  {
    if AllSpace(t) {
      TrimStartDropsSpace(t, "");
      assert t + "" == t;
    }
    if Trim(t) == "" {
      TrimmedIsSpaced(t);
      var before, after :| AllSpace(before) && AllSpace(after) && t == before + "" + after;
    }
  }

  // --- capitals -------------------------------------------------------------------------

  /** `s` is `word` with some of its letters possibly capital. */
  predicate SameLetters(s: string, word: string) {
    && |s| == |word|
    && forall i :: 0 <= i < |s| ==> s[i] == word[i] || ('a' <= word[i] <= 'z' && s[i] == word[i] - 'a' + 'A')
  }

  lemma LowerExactly(s: string, word: string)
    requires IsLower(word)
    ensures Lower(s) == word <==> SameLetters(s, word)
  {
    if SameLetters(s, word) {
      assert forall i :: 0 <= i < |s| ==> Lower(s)[i] == word[i];
    }
    if Lower(s) == word {
      assert forall i :: 0 <= i < |s| ==> word[i] == LowerChar(s[i]);
    }
  }

  /** `t` is `word`, whatever the capitals and the white space around it. */
  ghost predicate Spelled(t: string, word: string) {
    exists core :: Spaced(t, core) && SameLetters(core, word)
  }

  lemma SpellingIsExact(t: string, word: string)
    requires word != "" && Trimmed(word) && IsLower(word)
    ensures Lower(Trim(t)) == word <==> Spelled(t, word)
  {
    hide Trim, Spaced;
    if Lower(Trim(t)) == word {
      LowerExactly(Trim(t), word);
      TrimExactly(t, Trim(t));
    }
    if core :| Spaced(t, core) && SameLetters(core, word) {
      TrimExactly(t, core);
      LowerExactly(core, word);
    }
  }

  // --- numerals -------------------------------------------------------------------------

  function Zeros(n: nat): string {
    seq(n, _ => '0')
  }

  /** A decimal number: an optional sign, any number of zeros, then the digits `to_string` prints. */
  ghost predicate Numeral(core: string, n: int) {
    exists sign, z: nat ::
      && sign in {"", "+", "-"}
      && (n > 0 ==> sign != "-") && (n < 0 ==> sign == "-")
      && core == sign + Zeros(z) + PrintNat(if n < 0 then -n else n)
  }

  lemma {:induction false} DigitsParse(z: nat, n: nat)
    ensures ParseNat(Zeros(z) + PrintNat(n)) == Some(n)
    decreases z, n
  {
    var s := Zeros(z) + PrintNat(n);
    if n >= 10 {
      DigitsParse(z, n / 10);
      assert s[..|s| - 1] == Zeros(z) + PrintNat(n / 10);
    } else if z > 0 {
      DigitsParse(z - 1, 0);
      assert s[..|s| - 1] == Zeros(z - 1) + PrintNat(0);
    } else {
      assert s == PrintNat(n);
      ParsePrintNat(n);
    }
  }

  /** A text of digits is a printed number with zeros before it. */
  lemma {:induction false} ParsedDigits(s: string) returns (z: nat)
    requires ParseNat(s).Some?
    ensures s == Zeros(z) + PrintNat(ParseNat(s).value)
  {
    var d := DigitValue(s[|s| - 1]).value;
    if |s| == 1 {
      z := 0;
      assert s == PrintNat(d);
    } else {
      var front := s[..|s| - 1];
      var high := ParseNat(front).value;
      z := ParsedDigits(front);
      assert s == front + [Digit(d)];
      if high == 0 {
        assert front == Zeros(z + 1);
        z := z + 1;
      } else {
        assert (10 * high + d) / 10 == high && (10 * high + d) % 10 == d;
      }
    }
  }

  lemma DigitsAreDigits(z: nat, n: nat)
    ensures var s := Zeros(z) + PrintNat(n); s != "" && forall c <- s :: '0' <= c <= '9'
  {
    ParsePrintNat(n);
  }

  lemma DigitsAreNoSpace(c: char)
    requires '0' <= c <= '9' || c in {'+', '-'}
    ensures !IsSpace(c) && c != ','
  {
  }

  lemma ParsedIsNumeral(core: string)
    requires ParseI64(core).Some?
    ensures IsI64(ParseI64(core).value) && Numeral(core, ParseI64(core).value)
  {
    assert core != "" by { EmptyDoesNotParse(); }
    hide ParseNat, PrintNat, Zeros, Numeral;
    var n := ParseI64(core).value;
    var m := if n < 0 then -n else n;
    if core[0] in {'-', '+'} {
      var z := ParsedDigits(core[1..]);
      assert core == [core[0]] + (Zeros(z) + PrintNat(m));
      IsNumeral(core, [core[0]], z, n);
    } else {
      var z := ParsedDigits(core);
      assert core == "" + (Zeros(z) + PrintNat(m));
      IsNumeral(core, "", z, n);
    }
  }

  lemma IsNumeral(core: string, sign: string, z: nat, n: int)
    requires sign in {"", "+", "-"} && (n > 0 ==> sign != "-") && (n < 0 ==> sign == "-")
    requires core == sign + (Zeros(z) + PrintNat(if n < 0 then -n else n))
    ensures Numeral(core, n)
  {
    hide PrintNat, Zeros;
    assert core == sign + Zeros(z) + PrintNat(if n < 0 then -n else n);
  }

  lemma EmptyDoesNotParse()
    ensures ParseI64("") == None
  {
  }

  lemma NumeralParses(core: string, n: int)
    requires IsI64(n) && Numeral(core, n)
    ensures ParseI64(core) == Some(n)
  {
    hide ParseNat, PrintNat, Zeros, ParseI64;
    var m := if n < 0 then -n else n;
    var sign, z: nat :|
      && sign in {"", "+", "-"}
      && (n > 0 ==> sign != "-") && (n < 0 ==> sign == "-")
      && core == sign + Zeros(z) + PrintNat(m);
    var digits := Zeros(z) + PrintNat(m);
    DigitsParse(z, m);
    DigitsAreDigits(z, m);
    assert core == sign + digits;
    assert digits[0] in digits;
    SignedParses(sign, digits, n);
  }

  lemma SignedParses(sign: string, digits: string, n: int)
    requires sign in {"", "+", "-"} && (n > 0 ==> sign != "-") && (n < 0 ==> sign == "-") && IsI64(n)
    requires digits != "" && '0' <= digits[0] <= '9'
    requires ParseNat(digits) == Some(if n < 0 then -n else n)
    ensures ParseI64(sign + digits) == Some(n)
  {
    hide ParseNat;
    assert (sign + digits)[|sign|..] == digits;
  }

  /** `parse::<i64>` reads exactly the numerals of 64-bit numbers. */
  lemma ParseExactly(core: string, n: int)
    ensures ParseI64(core) == Some(n) <==> IsI64(n) && Numeral(core, n)
  {
    hide ParseI64, Numeral, IsI64;
    if ParseI64(core).Some? {
      ParsedIsNumeral(core);
    }
    if IsI64(n) && Numeral(core, n) {
      NumeralParses(core, n);
    }
  }

  lemma NumeralHasNoSpace(core: string, n: int)
    requires Numeral(core, n)
    ensures core != "" && forall c <- core :: !IsSpace(c) && c != ','
  {
    hide IsSpace, PrintNat, Zeros;
    var m := if n < 0 then -n else n;
    var sign, z: nat :| sign in {"", "+", "-"} && core == sign + Zeros(z) + PrintNat(m);
    var digits := Zeros(z) + PrintNat(m);
    DigitsAreDigits(z, m);
    assert core == sign + digits;
    forall c | c in core
      ensures !IsSpace(c) && c != ','
    {
      assert c in sign || c in digits;
      DigitsAreNoSpace(c);
    }
  }

  lemma NumeralIsTrimmed(core: string, n: int)
    requires Numeral(core, n)
    ensures core != "" && Trimmed(core) && ',' !in core
  {
    NumeralHasNoSpace(core, n);
    hide IsSpace, Numeral;
    assert core[0] in core && core[|core| - 1] in core;
  }

  // --- lists ----------------------------------------------------------------------------

  function JoinCommas(fields: seq<string>): string {
    if fields == [] then ""
    else if |fields| == 1 then fields[0]
    else fields[0] + "," + JoinCommas(fields[1..])
  }

  lemma {:induction false} SplitWithoutSeparator(s: string, c: char)
    requires c !in s
    ensures Split(s, c) == [s]
  {
    if s != [] {
      SplitWithoutSeparator(s[1..], c);
      assert [s[0]] + s[1..] == s;
    }
  }

  lemma {:induction false} SplitTakesField(field: string, rest: string, c: char)
    requires c !in field
    ensures Split(field + [c] + rest, c) == [field] + Split(rest, c)
  {
    var s := field + [c] + rest;
    if field == [] {
      assert s[1..] == rest;
    } else {
      assert s[1..] == field[1..] + [c] + rest;
      SplitTakesField(field[1..], rest, c);
      assert [field[0]] + field[1..] == field;
    }
  }

  /** Splitting at commas undoes joining with them. */
  lemma {:induction false} SplitUndoesJoin(fields: seq<string>)
    requires fields != [] && forall f <- fields :: ',' !in f
    ensures Split(JoinCommas(fields), ',') == fields
  {
    if |fields| == 1 {
      SplitWithoutSeparator(fields[0], ',');
    } else {
      SplitUndoesJoin(fields[1..]);
      SplitTakesField(fields[0], JoinCommas(fields[1..]), ',');
      assert [fields[0]] + fields[1..] == fields;
    }
  }
}
