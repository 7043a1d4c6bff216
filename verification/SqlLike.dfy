/**
  SQL's LIKE (PostgreSQL 16, section 9.7.1) and `escape_like` of
  src/services/rule_sql.rs.
 */
module SqlLike {
  import opened Wrappers
  import opened Text

  /** `escape_like`: three replacements, one after the other. */
  function EscapeLike(s: string): string {
    Replace(Replace(Replace(s, '\\', "\\\\"), '%', "\\%"), '_', "\\_")
  }

  function EscapeChar(c: char): string {
    if c in {'\\', '%', '_'} then ['\\', c] else [c]
  }

  /** What the three replacements amount to. */
  function EscapeEach(s: string): string {
    if s == [] then [] else EscapeChar(s[0]) + EscapeEach(s[1..])
  }

  /** `s LIKE pattern`; `None` where PostgreSQL rejects a trailing escape character. */
  function Like(s: string, pattern: string): Option<bool> {
    if EndsInEscape(pattern) then None else Some(LikeMatches(s, pattern))
  }

  /** The pattern ends in the middle of an escape sequence. */
  predicate EndsInEscape(pattern: string) {
    if pattern == [] then false
    else if pattern[0] != '\\' then EndsInEscape(pattern[1..])
    else |pattern| == 1 || EndsInEscape(pattern[2..])
  }

  predicate LikeMatches(s: string, pattern: string)
    decreases |pattern|, |s|
  {
    if pattern == [] then s == []
    else if pattern[0] == '%' then
      LikeMatches(s, pattern[1..]) || (s != [] && LikeMatches(s[1..], pattern))
    else if pattern[0] == '_' then
      s != [] && LikeMatches(s[1..], pattern[1..])
    else if pattern[0] == '\\' && |pattern| >= 2 then
      s != [] && s[0] == pattern[1] && LikeMatches(s[1..], pattern[2..])
    else
      s != [] && s[0] == pattern[0] && LikeMatches(s[1..], pattern[1..])
  }

  lemma {:induction false} ReplaceConcat(a: string, b: string, c: char, with: string)
    ensures Replace(a + b, c, with) == Replace(a, c, with) + Replace(b, c, with)
  {
    if a == [] {
      assert a + b == b;
    } else {
      assert (a + b)[1..] == a[1..] + b;
      ReplaceConcat(a[1..], b, c, with);
    }
  }

  lemma ReplaceInOneChar(x: char, c: char, with: string)
    ensures Replace([x], c, with) == if x == c then with else [x]
  {
    assert [x][1..] == [];
    assert with + [] == with && [x] + [] == [x];
  }

  lemma EscapeOneChar(c: char)
    ensures EscapeLike([c]) == EscapeChar(c)
  {
    ReplaceInOneChar(c, '\\', "\\\\");
    ReplaceInOneChar(c, '%', "\\%");
    ReplaceInOneChar(c, '_', "\\_");
    ReplaceInOneChar('\\', '%', "\\%");
    ReplaceInOneChar('\\', '_', "\\_");
    ReplaceConcat("\\", "\\", '%', "\\%");
    ReplaceConcat("\\", "\\", '_', "\\_");
    ReplaceConcat("\\", "%", '_', "\\_");
  }

  /** The replacements do not undo or redo one another: they escape each character once. */
  lemma {:induction false} EscapeLikeIsPerCharacter(s: string)
    ensures EscapeLike(s) == EscapeEach(s)
  {
    if s != [] {
      var head, tail := [s[0]], s[1..];
      assert s == head + tail;
      ReplaceConcat(head, tail, '\\', "\\\\");
      var head1, tail1 := Replace(head, '\\', "\\\\"), Replace(tail, '\\', "\\\\");
      ReplaceConcat(head1, tail1, '%', "\\%");
      ReplaceConcat(Replace(head1, '%', "\\%"), Replace(tail1, '%', "\\%"), '_', "\\_");
      EscapeOneChar(s[0]);
      EscapeLikeIsPerCharacter(tail);
    }
  }

  lemma {:induction false} EscapedTextIsClosed(v: string)
    ensures !EndsInEscape(EscapeEach(v) + "%")
  {
    if v == [] {
      assert EscapeEach(v) + "%" == "%";
    } else {
      var p := EscapeEach(v) + "%";
      var rest := EscapeEach(v[1..]) + "%";
      assert p == EscapeChar(v[0]) + rest;
      EscapedTextIsClosed(v[1..]);
      if |EscapeChar(v[0])| == 2 {
        assert p[2..] == rest;
      } else {
        assert p[1..] == rest;
      }
    }
  }

  lemma {:induction false} TrailingPercentMatchesAll(s: string)
    ensures LikeMatches(s, "%")
  {
    if s != [] {
      TrailingPercentMatchesAll(s[1..]);
    }
  }

  /** An escaped text followed by '%' matches what starts with that text. */
  lemma {:induction false} EscapedPrefix(s: string, v: string)
    ensures LikeMatches(s, EscapeEach(v) + "%") <==> v <= s
  {
    var p := EscapeEach(v) + "%";
    if v == [] {
      assert p == "%";
      TrailingPercentMatchesAll(s);
    } else {
      var rest := EscapeEach(v[1..]) + "%";
      assert p == EscapeChar(v[0]) + rest;
      if |EscapeChar(v[0])| == 2 {
        assert p[0] == '\\' && p[1] == v[0] && p[2..] == rest;
      } else {
        assert p[0] == v[0] && p[1..] == rest;
      }
      if s != [] {
        EscapedPrefix(s[1..], v[1..]);
        assert s == [s[0]] + s[1..] && v == [v[0]] + v[1..];
      }
    }
  }

  lemma {:induction false} LeadingPercent(s: string, v: string)
    ensures LikeMatches(s, "%" + EscapeEach(v) + "%") <==> Contains(s, v)
  {
    var tail := EscapeEach(v) + "%";
    var p := "%" + EscapeEach(v) + "%";
    assert p[0] == '%' && p[1..] == tail;
    EscapedPrefix(s, v);
    assert v <= s <==> HasAt(s, v, 0);
    if s == [] {
      assert Contains(s, v) <==> HasAt(s, v, 0);
    } else {
      LeadingPercent(s[1..], v);
      ContainsHereOrLater(s, v);
    }
  }

  lemma ContainsHereOrLater(s: string, v: string)
    requires s != []
    ensures Contains(s, v) <==> HasAt(s, v, 0) || Contains(s[1..], v)
  {
    hide HasAt;
    if i :| 0 <= i <= |s[1..]| - |v| && HasAt(s[1..], v, i) {
      Shifted(s, v, i);
      assert HasAt(s, v, i + 1);
    }
    if i :| 0 <= i <= |s| - |v| && HasAt(s, v, i) && i > 0 {
      Shifted(s, v, i - 1);
      assert HasAt(s[1..], v, i - 1);
    }
    FitsAtStart(s, v);
  }

  lemma Shifted(s: string, v: string, i: nat)
    requires s != []
    ensures HasAt(s[1..], v, i) <==> HasAt(s, v, i + 1)
  {
    if i <= |s[1..]| - |v| {
      assert s[1..][i..i + |v|] == s[i + 1..i + 1 + |v|];
    }
  }

  lemma FitsAtStart(s: string, v: string)
    ensures HasAt(s, v, 0) ==> |v| <= |s|
  {
  }

  /** `LIKE '%' || escape_like(v) || '%'` never fails and is substring search, for every v. */
  lemma LikeOfEscapedIsContains(s: string, v: string)
    ensures Like(s, "%" + EscapeLike(v) + "%") == Some(Contains(s, v))
  {
    EscapeLikeIsPerCharacter(v);
    EscapedTextIsClosed(v);
    var p := "%" + EscapeEach(v) + "%";
    assert p[1..] == EscapeEach(v) + "%";
    LeadingPercent(s, v);
  }
}
