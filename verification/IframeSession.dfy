/**
  src/services/rl_token.rs: the session token of the embedded role-config page,
  minted and verified with HMAC. The keyed hash and the encoding of text as
  bytes are parameters.
 */
module IframeSession {
  import opened Wrappers
  import opened Text

  /** `hmacHex(secret, payload)` is the hash in hexadecimal. */
  datatype Crypto = Crypto(hmacHex: (string, string) -> string, bytes: string -> seq<bv8>)

  /** Hexadecimal digits, and an encoding that can be undone. */
  ghost predicate Proper(c: Crypto) {
    && (forall k, m :: ':' !in c.hmacHex(k, m))
    && (forall a, b :: c.bytes(a) == c.bytes(b) ==> a == b)
  }

  datatype Session = Session(discordId: string, guildId: string, roleId: string, readOnly: bool)

  const PREFIX := "ifs:"
  const TTL_SECS := 3600

  // --- minting and verifying ----------------------------------------------------------

  function Flag(readOnly: bool): string {
    if readOnly then "1" else "0"
  }

  function Payload(discordId: string, guildId: string, roleId: string, flag: string, expiry: string): string {
    discordId + ":" + guildId + ":" + roleId + ":" + flag + ":" + expiry
  }

  /** `mint_iframe_session` at time `now`, in seconds. */
  function Mint(s: Session, secret: string, now: int, c: Crypto): string {
    var payload := Payload(s.discordId, s.guildId, s.roleId, Flag(s.readOnly), PrintInt(now + TTL_SECS));
    PREFIX + (payload + ":" + c.hmacHex(secret, payload))
  }

  /** `verify_iframe_session` at time `now`. */
  function Verified(token: string, secret: string, now: int, c: Crypto): Option<Session> {
    if !(PREFIX <= token) then None
    else
      var parts := SplitN(token[|PREFIX|..], 6, ':');
      if |parts| != 6 || parts[3] !in {"0", "1"} then None
      else
        var exp :- ParseI64(parts[4]);
        if now > exp then None
        else
          var expected := c.hmacHex(secret, Payload(parts[0], parts[1], parts[2], parts[3], parts[4]));
          if c.bytes(parts[5]) == c.bytes(expected) then Some(Session(parts[0], parts[1], parts[2], parts[3] == "1"))
          else None
  }

  method VerifyIframeSession(token: string, secret: string, now: int, c: Crypto) returns (r: Option<Session>)
    ensures r == Verified(token, secret, now, c)
  {
    if !(PREFIX <= token) {
      return None;
    }
    var parts := SplitN(token[|PREFIX|..], 6, ':');
    if |parts| != 6 || parts[3] !in {"0", "1"} {
      return None;
    }
    var exp := ParseI64(parts[4]);
    if exp.None? || now > exp.value {
      return None;
    }
    var expected := c.hmacHex(secret, Payload(parts[0], parts[1], parts[2], parts[3], parts[4]));
    var same := ConstantTimeEq(c.bytes(parts[5]), c.bytes(expected));
    if !same {
      return None;
    }
    return Some(Session(parts[0], parts[1], parts[2], parts[3] == "1"));
  }

  /** `constant_time_eq`: every byte is looked at, and the answer is equality. */
  method ConstantTimeEq(a: seq<bv8>, b: seq<bv8>) returns (r: bool)
    ensures r <==> a == b
  {
    if |a| != |b| {
      return false;
    }
    var diff: bv8 := 0;
    for k := 0 to |a|
      invariant diff == 0 <==> a[..k] == b[..k]
    {
      OrXorIsZero(diff, a[k], b[k]);
      assert a[..k + 1] == a[..k] + [a[k]] && b[..k + 1] == b[..k] + [b[k]];
      diff := diff | (a[k] ^ b[k]);
    }
    assert a[..|a|] == a && b[..|a|] == b;
    return diff == 0;
  }

  lemma OrXorIsZero(d: bv8, x: bv8, y: bv8)
    ensures d | (x ^ y) == 0 <==> d == 0 && x == y
  {
  }

  // --- fields -------------------------------------------------------------------------

  function JoinFields(fields: seq<string>): string {
    if fields == [] then []
    else if |fields| == 1 then fields[0]
    else fields[0] + ":" + JoinFields(fields[1..])
  }

  /** Splitting loses nothing, and only the last field can hold a separator. */
  lemma {:induction false} SplitNKeepsText(s: string, n: nat)
    requires n >= 1
    ensures JoinFields(SplitN(s, n, ':')) == s
    ensures forall i :: 0 <= i < |SplitN(s, n, ':')| - 1 ==> ':' !in SplitN(s, n, ':')[i]
  {
    if s != [] && n > 1 {
      if s[0] == ':' {
        SplitNKeepsText(s[1..], n - 1);
        FirstFieldEmpty(SplitN(s[1..], n - 1, ':'));
        assert s == ":" + s[1..];
      } else {
        SplitNKeepsText(s[1..], n);
        FirstFieldGrows(s[0], SplitN(s[1..], n, ':'));
        assert s == [s[0]] + s[1..];
      }
    }
  }

  lemma FirstFieldEmpty(rest: seq<string>)
    requires rest != []
    ensures JoinFields([""] + rest) == ":" + JoinFields(rest)
  {
    assert ([""] + rest)[1..] == rest;
    assert "" + ":" + JoinFields(rest) == ":" + JoinFields(rest);
  }

  lemma FirstFieldGrows(c: char, rest: seq<string>)
    requires rest != []
    ensures JoinFields([[c] + rest[0]] + rest[1..]) == [c] + JoinFields(rest)
  {
    var fields := [[c] + rest[0]] + rest[1..];
    assert fields[1..] == rest[1..];
    if |rest| > 1 {
      var first, later := rest[0], JoinFields(rest[1..]);
      assert JoinFields(rest) == first + ":" + later;
      assert JoinFields(fields) == [c] + first + ":" + later;
      hide JoinFields;
      Prepended(c, first, later);
    }
  }

  lemma Prepended(c: char, first: string, later: string)
    ensures [c] + first + ":" + later == [c] + (first + ":" + later)
  {
  }

  function Colons(s: string): nat {
    if s == [] then 0 else (if s[0] == ':' then 1 else 0) + Colons(s[1..])
  }

  lemma {:induction false} ColonsAdd(a: string, b: string)
    ensures Colons(a + b) == Colons(a) + Colons(b)
  {
    if a == [] {
      assert a + b == b;
    } else {
      assert (a + b)[1..] == a[1..] + b;
      ColonsAdd(a[1..], b);
    }
  }

  lemma {:induction false} NoColons(s: string)
    ensures Colons(s) == 0 <==> ':' !in s
  {
    if s != [] {
      NoColons(s[1..]);
    }
  }

  lemma {:induction false} ColonsOfFields(fields: seq<string>)
    requires fields != [] && forall i :: 0 <= i < |fields| - 1 ==> ':' !in fields[i]
    ensures Colons(JoinFields(fields)) == |fields| - 1 + Colons(fields[|fields| - 1])
  {
    if |fields| > 1 {
      var rest := fields[1..];
      ColonsOfFields(rest);
      NoColons(fields[0]);
      ColonsAdd(fields[0], ":");
      ColonsAdd(fields[0] + ":", JoinFields(rest));
      assert Colons(":") == 1;
    }
  }

  lemma JoinedPayload(parts: seq<string>)
    requires |parts| == 6
    ensures JoinFields(parts) == Payload(parts[0], parts[1], parts[2], parts[3], parts[4]) + ":" + parts[5]
  {
    assert JoinFields(parts[5..]) == parts[5];
    assert JoinFields(parts[4..]) == parts[4] + ":" + JoinFields(parts[4..][1..]) && parts[4..][1..] == parts[5..];
    assert JoinFields(parts[3..]) == parts[3] + ":" + JoinFields(parts[3..][1..]) && parts[3..][1..] == parts[4..];
    assert JoinFields(parts[2..]) == parts[2] + ":" + JoinFields(parts[2..][1..]) && parts[2..][1..] == parts[3..];
    assert JoinFields(parts[1..]) == parts[1] + ":" + JoinFields(parts[1..][1..]) && parts[1..][1..] == parts[2..];
  }

  // --- what verification accepts --------------------------------------------------------

  /** What is accepted carries the hash of its own fields, the read-only flag included, and has not expired. */
  lemma AcceptedTokensAreSigned(token: string, secret: string, now: int, c: Crypto)
    requires Proper(c) && Verified(token, secret, now, c).Some?
    ensures var s := Verified(token, secret, now, c).value;
            exists expiry :: ParseI64(expiry).Some? && now <= ParseI64(expiry).value
              && token == Signed(s, expiry, secret, c)
              && ':' !in s.discordId && ':' !in s.guildId && ':' !in s.roleId
  {
    var rest := token[|PREFIX|..];
    var parts := SplitN(rest, 6, ':');
    SplitNKeepsText(rest, 6);
    JoinedPayload(parts);
    assert token == PREFIX + rest;
    assert token == Signed(Verified(token, secret, now, c).value, parts[4], secret, c);
  }

  function Signed(s: Session, expiry: string, secret: string, c: Crypto): string {
    var payload := Payload(s.discordId, s.guildId, s.roleId, Flag(s.readOnly), expiry);
    PREFIX + (payload + ":" + c.hmacHex(secret, payload))
  }

  predicate ColonFree(s: Session) {
    ':' !in s.discordId && ':' !in s.guildId && ':' !in s.roleId
  }

  lemma SplitMinted(s: Session, expiry: string, sig: string)
    requires ColonFree(s) && ':' !in expiry
    ensures SplitN(Payload(s.discordId, s.guildId, s.roleId, Flag(s.readOnly), expiry) + ":" + sig, 6, ':')
         == [s.discordId, s.guildId, s.roleId, Flag(s.readOnly), expiry, sig]
  {
    hide SplitN;
    var flag := Flag(s.readOnly);
    var t4 := expiry + ":" + sig;
    var t3 := flag + ":" + t4;
    var t2 := s.roleId + ":" + t3;
    var t1 := s.guildId + ":" + t2;
    var t0 := s.discordId + ":" + t1;
    assert Payload(s.discordId, s.guildId, s.roleId, flag, expiry) + ":" + sig == t0;
    SplitNTakesField(s.discordId, t1, 6, ':');
    SplitNTakesField(s.guildId, t2, 5, ':');
    SplitNTakesField(s.roleId, t3, 4, ':');
    SplitNTakesField(flag, t4, 3, ':');
    SplitNTakesField(expiry, sig, 2, ':');
    LastField(sig);
  }

  lemma LastField(s: string)
    ensures SplitN(s, 1, ':') == [s]
  {
  }

  lemma MintedColons(s: Session, expiry: string, sig: string)
    requires !ColonFree(s)
    ensures Colons(Payload(s.discordId, s.guildId, s.roleId, Flag(s.readOnly), expiry) + ":" + sig) >= 6
  {
    var parts := [s.discordId, s.guildId, s.roleId, Flag(s.readOnly), expiry, sig];
    JoinedPayload(parts);
    AtLeastSeparators(parts);
    NoColons(s.discordId);
    NoColons(s.guildId);
    NoColons(s.roleId);
    assert TotalColons(parts) >= Colons(parts[0]) + Colons(parts[1]) + Colons(parts[2]) by {
      assert TotalColons(parts) == Colons(parts[0]) + TotalColons(parts[1..]);
      assert TotalColons(parts[1..]) == Colons(parts[1]) + TotalColons(parts[1..][1..]);
      assert TotalColons(parts[1..][1..]) == Colons(parts[2]) + TotalColons(parts[1..][1..][1..]);
    }
  }

  function TotalColons(fields: seq<string>): nat {
    if fields == [] then 0 else Colons(fields[0]) + TotalColons(fields[1..])
  }

  lemma {:induction false} AtLeastSeparators(fields: seq<string>)
    requires fields != []
    ensures Colons(JoinFields(fields)) == |fields| - 1 + TotalColons(fields)
  {
    if |fields| > 1 {
      AtLeastSeparators(fields[1..]);
      ColonsAdd(fields[0], ":");
      ColonsAdd(fields[0] + ":", JoinFields(fields[1..]));
      assert Colons(":") == 1;
    }
  }

  /**
    A minted token verifies under its own secret exactly until it expires and
    exactly when none of its ids contains a colon, and then yields the minted
    session. Otherwise it yields nothing; it is never taken for another session.
   */
  lemma MintedTokenVerifies(s: Session, secret: string, minted: int, now: int, c: Crypto)
    requires Proper(c) && IsI64(minted + TTL_SECS)
    ensures Verified(Mint(s, secret, minted, c), secret, now, c)
         == if ColonFree(s) && now <= minted + TTL_SECS then Some(s) else None
  {
    hide Payload, SplitN, ParseI64, PrintInt, Colons;
    var expiry := PrintInt(minted + TTL_SECS);
    var payload := Payload(s.discordId, s.guildId, s.roleId, Flag(s.readOnly), expiry);
    var sig := c.hmacHex(secret, payload);
    var token := Mint(s, secret, minted, c);
    var rest := payload + ":" + sig;
    assert token == PREFIX + rest && token[|PREFIX|..] == rest;
    ParsePrintI64(minted + TTL_SECS);
    if ColonFree(s) {
      SplitMinted(s, expiry, sig);
    } else {
      MintedColons(s, expiry, sig);
      ColonsLeaveNoHash(rest, secret, now, c);
    }
  }

  /** What a token looks like, and how long it lasts: an hour, to the second. */
  lemma MintedTokenLastsAnHour(s: Session, secret: string, minted: int, now: int, c: Crypto)
    requires Proper(c) && IsI64(minted + 3600)
    ensures var fields := s.discordId + ":" + s.guildId + ":" + s.roleId + ":" + (if s.readOnly then "1" else "0") + ":"
                          + PrintInt(minted + 3600);
            Mint(s, secret, minted, c) == "ifs:" + (fields + ":" + c.hmacHex(secret, fields))
    ensures now >= minted + 3601 ==> Verified(Mint(s, secret, minted, c), secret, now, c) == None
    ensures now <= minted + 3600 && ColonFree(s) ==> Verified(Mint(s, secret, minted, c), secret, now, c) == Some(s)
  {
    hide Verified, PrintInt, ColonFree;
    MintedTokenVerifies(s, secret, minted, now, c);
  }

  /** With six colons or more the last field holds one, and so is no hexadecimal hash. */
  lemma ColonsLeaveNoHash(rest: string, secret: string, now: int, c: Crypto)
    requires Proper(c) && Colons(rest) >= 6
    ensures Verified(PREFIX + rest, secret, now, c) == None
  {
    hide Payload, SplitN, ParseI64, Colons;
    assert (PREFIX + rest)[|PREFIX|..] == rest;
    var parts := SplitN(rest, 6, ':');
    SplitNKeepsText(rest, 6);
    ColonsOfFields(parts);
    NoColons(parts[|parts| - 1]);
  }
}
