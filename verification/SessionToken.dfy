/** Bearer tokens of the form id:expiry:jti:mac, their verification, and logout. */
module SessionToken {
  import opened Common
  import opened ReplayRegistry
  import EnvelopeCodec

  datatype Rejection = Missing | BadFormat | BadTimestamp | Expired | ServerError | BadSignature | Revoked

  datatype Session = Session(id: string, jti: string, expiresAt: int)

  // ---------- decimal numbers ----------

  function Digits(n: nat): string {
    (if n < 10 then "" else Digits(n / 10)) + [('0' as int + n % 10) as char]
  }

  function Decimal(n: int): string {
    if n < 0 then "-" + Digits(-n) else Digits(n)
  }

  function ParseDigits(s: string): Option<nat> {
    if s == "" then None else
      var c := s[|s| - 1];
      if !('0' <= c <= '9') then None
      else if |s| == 1 then Some(c as int - '0' as int)
      else
        var rest := ParseDigits(s[..|s| - 1]);
        if rest.None? then None else Some(10 * rest.value + (c as int - '0' as int))
  }

  function ParseInt(s: string): Option<int> {
    if s != "" && (s[0] == '-' || s[0] == '+') then
      var n := ParseDigits(s[1..]);
      if n.None? then None else if s[0] == '-' then Some(0 - n.value) else Some(n.value)
    else
      var n := ParseDigits(s);
      if n.None? then None else Some(n.value)
  }

  predicate LastDigit(c: char, n: nat) {
    c as int == '0' as int + n % 10
  }

  lemma {:induction false} ParseLast(s: string, n: nat)
    requires |s| > 1
    ensures ParseDigits(s) == Some(n) <==> LastDigit(s[|s| - 1], n) && ParseDigits(s[..|s| - 1]) == Some(n / 10)
  {
  }

  lemma {:induction false} DigitsReadBack(n: nat)
    ensures |Digits(n)| > 0 && ParseDigits(Digits(n)) == Some(n) && ':' !in Digits(n)
    ensures '0' <= Digits(n)[0] <= '9' && (Digits(n)[0] == '0' ==> Digits(n) == "0")
  {
    var s, front, last := Digits(n), Digits(n / 10), ('0' as int + n % 10) as char;
    assert '0' <= last <= '9';
    if n < 10 {
      assert s == [last];
    } else {
      DigitsReadBack(n / 10);
      assert s == front + [last] && s[..|s| - 1] == front && s[|s| - 1] == last;
      ParseLast(s, n);
    }
  }

  lemma {:induction false} SignedReadsBack(sign: string, digits: string, n: nat)
    requires sign == "" || sign == "-"
    requires digits != "" && digits[0] != '-' && digits[0] != '+' && ParseDigits(digits) == Some(n)
    ensures ParseInt(sign + digits) == Some(if sign == "" then n as int else 0 - n)
  {
    var s := sign + digits;
    if sign == "" {
      assert s == digits;
    } else {
      assert s[0] == '-' && s[1..] == digits;
    }
  }

  lemma {:induction false} DecimalReadsBack(n: int)
    ensures ParseInt(Decimal(n)) == Some(n) && ':' !in Decimal(n)
  {
    var size: nat := if n < 0 then -n else n;
    var sign := if n < 0 then "-" else "";
    DigitsReadBack(size);
    var digits := Digits(size);
    SignedReadsBack(sign, digits, size);
    assert Decimal(n) == sign + digits;
  }

  /** A numeral without the zeros it need not have. */
  function Stripped(s: string): string {
    if |s| > 1 && s[0] == '0' then Stripped(s[1..]) else s
  }

  lemma {:induction false} StrippedSnoc(s: string, c: char)
    requires s != ""
    ensures Stripped(s) != "" && Stripped(s + [c]) == if Stripped(s) == "0" then [c] else Stripped(s) + [c]
  {
    assert (s + [c])[1..] == s[1..] + [c];
    if |s| > 1 && s[0] == '0' {
      StrippedSnoc(s[1..], c);
    } else if s[0] == '0' {
      assert s == "0";
    }
  }

  lemma {:induction false} SameLast(s: string, c: char, t: string, d: char)
    ensures s + [c] == t + [d] <==> s == t && c == d
  {
    if s + [c] == t + [d] {
      assert s == (s + [c])[..|s|] == (t + [d])[..|t|] == t;
      assert c == (s + [c])[|s|];
    }
  }

  lemma {:induction false} DigitsLast(s: string, c: char, n: nat)
    requires s != ""
    ensures s + [c] == Digits(n) <==> n >= 10 && s == Digits(n / 10) && LastDigit(c, n)
    ensures [c] == Digits(n) <==> n < 10 && LastDigit(c, n)
  {
    var last := ('0' as int + n % 10) as char;
    if n >= 10 {
      DigitsReadBack(n / 10);
      SameLast(s, c, Digits(n / 10), last);
      SameLast("", c, Digits(n / 10), last);
      assert [c] == "" + [c];
    } else {
      SameLast(s, c, "", last);
      assert Digits(n) == "" + [last] == [last];
    }
  }

  /** A numeral is read as a number exactly when it is that number's decimal digits with any zeros before them. */
  lemma {:induction false} ParseDigitsIff(s: string, n: nat)
    ensures ParseDigits(s) == Some(n) <==> Stripped(s) == Digits(n)
  {
    DigitsReadBack(n);
    if |s| == 1 {
      DigitsLast("0", s[0], n);
    } else if |s| > 1 {
      var front, last := s[..|s| - 1], s[|s| - 1];
      ParseLast(s, n);
      ParseDigitsIff(front, n / 10);
      StrippedSnoc(front, last);
      assert s == front + [last];
      DigitsLast(Stripped(front), last, n);
      ZeroDigits(n / 10);
    }
  }

  lemma {:induction false} ZeroDigits(n: nat)
    ensures Digits(n) == "0" <==> n == 0
  {
    if n > 0 {
      DigitsReadBack(n);
    }
  }

  /** Integer text is an optional sign, any zeros, and the digits of the number's size. */
  lemma {:induction false} ParseIntIff(s: string, n: int)
    ensures var signed := s != "" && (s[0] == '-' || s[0] == '+');
            ParseInt(s) == Some(n) <==>
            && Stripped(if signed then s[1..] else s) == Digits(if n < 0 then -n else n)
            && (n < 0 ==> signed && s[0] == '-')
            && (n > 0 ==> signed ==> s[0] == '+')
  {
    var signed := s != "" && (s[0] == '-' || s[0] == '+');
    ParseDigitsIff(if signed then s[1..] else s, if n < 0 then -n else n);
  }

  // ---------- splitting at colons ----------

  function Split(s: string): (parts: seq<string>)
    ensures |parts| > 0
  {
    if s == "" then [""]
    else if s[0] == ':' then [""] + Split(s[1..])
    else
      var rest := Split(s[1..]);
      [[s[0]] + rest[0]] + rest[1..]
  }

  lemma {:induction false} SplitAtFirst(a: string, b: string)
    requires ':' !in a
    ensures Split(a + ":" + b) == [a] + Split(b)
  {
    var s := a + ":" + b;
    if a == "" {
      assert s[1..] == b;
    } else {
      assert s[1..] == a[1..] + ":" + b;
      SplitAtFirst(a[1..], b);
      assert a == [a[0]] + a[1..];
    }
  }

  lemma {:induction false} SplitWhole(a: string)
    requires ':' !in a
    ensures Split(a) == [a]
  {
    if a != "" {
      SplitWhole(a[1..]);
      assert a == [a[0]] + a[1..];
    }
  }

  lemma {:induction false} SplitCounts(a: string, b: string)
    ensures |Split(a + ":" + b)| == |Split(a)| + |Split(b)|
    ensures ':' in a ==> |Split(a)| > 1
  {
    var s := a + ":" + b;
    if a == "" {
      assert s[1..] == b;
    } else {
      assert s[1..] == a[1..] + ":" + b;
      SplitCounts(a[1..], b);
    }
  }

  // ---------- tokens ----------

  function Payload(id: string, expiresAt: int, jti: string): string {
    id + ":" + Decimal(expiresAt) + ":" + jti
  }

  function Generate(mac: string -> string, id: string, now: real, ttl: int, jti: string): string {
    var payload := Payload(id, now.Floor + ttl, jti);
    payload + ":" + mac(payload)
  }

  const BEARER := "Bearer "

  /** The checks that come before the revocation list; the clock is read once, for the expiry. */
  function Authenticate(mac: string -> string, authorization: Option<string>, expiryRead: real):
      Result<Session, Rejection> {
    if authorization.None? || |authorization.value| < |BEARER| ||
        authorization.value[..|BEARER|] != BEARER then Err(Missing) else
      var parts := Split(authorization.value[|BEARER|..]);
      if |parts| != 4 then Err(BadFormat) else
        var expiresAt := ParseInt(parts[1]);
        if expiresAt.None? then Err(BadTimestamp)
        else if expiryRead > expiresAt.value as real then Err(Expired)
        else if !EnvelopeCodec.IsAscii(parts[3]) then Err(ServerError)
        else if parts[3] != mac(Payload(parts[0], expiresAt.value, parts[2])) then Err(BadSignature)
        else Ok(Session(parts[0], parts[2], expiresAt.value))
  }

  /** Reads the clock once more, later, for the revocation list. */
  function ParseAndVerify(mac: string -> string, revoked: map<string, real>, authorization: Option<string>,
                          expiryRead: real, listRead: real): Result<Session, Rejection> {
    var r := Authenticate(mac, authorization, expiryRead);
    if r.Ok? && IsRevoked(revoked, r.value.jti, listRead) then Err(Revoked) else r
  }

  /** The header is the word Bearer, a space and four fields without colons between three colons. */
  ghost predicate Presents(header: Option<string>, id: string, text: string, jti: string, m: string) {
    && header == Some("Bearer " + (id + ":" + text + ":" + jti + ":" + m))
    && ':' !in id && ':' !in text && ':' !in jti && ':' !in m
  }

  lemma {:induction false} FourFields(a: string, b: string, c: string, d: string)
    requires ':' !in b && ':' !in c && ':' !in d
    ensures ':' !in a ==> Split(a + ":" + b + ":" + c + ":" + d) == [a, b, c, d]
    ensures ':' in a ==> |Split(a + ":" + b + ":" + c + ":" + d)| > 4
  {
    SplitWhole(d);
    SplitAtFirst(c, d);
    var cd := c + ":" + d;
    SplitAtFirst(b, cd);
    var bcd := b + ":" + cd;
    assert a + ":" + b + ":" + c + ":" + d == a + ":" + bcd;
    if ':' in a {
      SplitCounts(a, bcd);
    } else {
      SplitAtFirst(a, bcd);
    }
  }

  lemma {:induction false} SplitOff(s: string) returns (a: string, b: string)
    ensures ':' !in s ==> Split(s) == [s]
    ensures ':' in s ==> s == a + ":" + b && ':' !in a && Split(s) == [a] + Split(b)
  {
    if s == "" || s[0] == ':' {
      a, b := "", if s == "" then "" else s[1..];
    } else {
      var rest;
      rest, b := SplitOff(s[1..]);
      a := [s[0]] + rest;
      assert s == [s[0]] + s[1..];
      assert ':' in s ==> ':' in s[1..] && s == a + ":" + b;
    }
  }

  lemma {:induction false} OnePart(s: string)
    ensures |Split(s)| == 1 <==> ':' !in s
  {
    var a, b := SplitOff(s);
  }

  /** Puts a field before text that has a colon in it. */
  lemma {:induction false} FieldBefore(a: string, b: string, c: string)
    ensures a + ":" + (b + ":" + c) == a + ":" + b + ":" + c
  {
  }

  lemma {:induction false} ThreeParts(s: string) returns (text: string, jti: string, m: string)
    requires |Split(s)| == 3
    ensures s == text + ":" + jti + ":" + m && ':' !in text && ':' !in jti && ':' !in m
  {
    var c;
    text, c := SplitOff(s);
    OnePart(c);
    jti, m := SplitOff(c);
    OnePart(m);
    FieldBefore(text, jti, m);
  }

  lemma {:induction false} FourParts(s: string) returns (id: string, text: string, jti: string, m: string)
    requires |Split(s)| == 4
    ensures s == id + ":" + text + ":" + jti + ":" + m
    ensures ':' !in id && ':' !in text && ':' !in jti && ':' !in m
  {
    var b;
    id, b := SplitOff(s);
    text, jti, m := ThreeParts(b);
    FieldBefore(id, text + ":" + jti, m);
    FieldBefore(id, text, jti);
  }

  /** Whatever the header: it presents four fields, or it is refused before any of them is looked at. */
  lemma {:induction false} PresentsOrRefused(mac: string -> string, header: Option<string>, expiryRead: real)
      returns (id: string, text: string, jti: string, m: string)
    ensures Presents(header, id, text, jti, m) ||
            Authenticate(mac, header, expiryRead) == Err(Missing) ||
            Authenticate(mac, header, expiryRead) == Err(BadFormat)
  {
    id, text, jti, m := "", "", "", "";
    if header.Some? && |header.value| >= |BEARER| && header.value[..|BEARER|] == BEARER {
      var token := header.value[|BEARER|..];
      if |Split(token)| == 4 {
        id, text, jti, m := FourParts(token);
        assert header.value == BEARER + token;
      }
    }
  }

  lemma {:induction false} AsciiIff(m: string)
    ensures EnvelopeCodec.IsAscii(m) <==> forall c | c in m :: c as int < 128
  {
    if forall c | c in m :: c as int < 128 {
      forall i | 0 <= i < |m|
        ensures m[i] as int < 128
      {
        assert m[i] in m;
      }
    }
  }

  /** The answer to four fields, in terms of the fields and of a MAC of them. */
  lemma {:induction false} PresentedVerdict(mac: string -> string, revoked: map<string, real>, header: Option<string>,
                                            id: string, text: string, jti: string, m: string,
                                            expiryRead: real, listRead: real)
    requires Presents(header, id, text, jti, m)
    ensures var r, n := ParseAndVerify(mac, revoked, header, expiryRead, listRead), ParseInt(text);
            var intime := n.Some? && expiryRead <= n.value as real;
            var ascii := forall c | c in m :: c as int < 128;
            var signed := n.Some? && m == mac(id + ":" + Decimal(n.value) + ":" + jti);
            var listed := jti in revoked && listRead <= revoked[jti];
            && (r == Err(BadTimestamp) <==> n.None?)
            && (r == Err(Expired) <==> n.Some? && !intime)
            && (r == Err(ServerError) <==> intime && !ascii)
            && (r == Err(BadSignature) <==> intime && ascii && !signed)
            && (r == Err(Revoked) <==> intime && ascii && signed && listed)
            && (r.Ok? <==> intime && ascii && signed && !listed)
            && (r.Ok? ==> r == Ok(Session(id, jti, n.value)))
            && r != Err(Missing) && r != Err(BadFormat)
  {
    var token := id + ":" + text + ":" + jti + ":" + m;
    FourFields(id, text, jti, m);
    AsciiIff(m);
    assert header.value == BEARER + token;
    assert header.value[..|BEARER|] == BEARER && header.value[|BEARER|..] == token;
  }

  /** For any header whatever, forged ones included: the session let in is the one whose fields the header presents with
      a MAC of them, in time and not revoked. */
  lemma {:induction false} VerifiesIff(mac: string -> string, revoked: map<string, real>, header: Option<string>,
                                       id: string, jti: string, e: int, expiryRead: real, listRead: real)
    ensures ParseAndVerify(mac, revoked, header, expiryRead, listRead) == Ok(Session(id, jti, e)) <==>
            exists text :: Presents(header, id, text, jti, mac(id + ":" + Decimal(e) + ":" + jti)) &&
                           ParseInt(text) == Some(e) && expiryRead <= e as real &&
                           (forall c | c in mac(id + ":" + Decimal(e) + ":" + jti) :: c as int < 128) &&
                           !(jti in revoked && listRead <= revoked[jti])
  {
    var r := ParseAndVerify(mac, revoked, header, expiryRead, listRead);
    if r == Ok(Session(id, jti, e)) {
      var id0, text, jti0, m := PresentsOrRefused(mac, header, expiryRead);
      PresentedVerdict(mac, revoked, header, id0, text, jti0, m, expiryRead, listRead);
    }
    forall text | Presents(header, id, text, jti, mac(id + ":" + Decimal(e) + ":" + jti)) && ParseInt(text) == Some(e)
      ensures r.Ok? <==> expiryRead <= e as real &&
                         (forall c | c in mac(id + ":" + Decimal(e) + ":" + jti) :: c as int < 128) &&
                         !(jti in revoked && listRead <= revoked[jti])
      ensures r.Ok? ==> r == Ok(Session(id, jti, e))
    {
      PresentedVerdict(mac, revoked, header, id, text, jti, mac(id + ":" + Decimal(e) + ":" + jti), expiryRead,
                       listRead);
    }
  }

  /** Only headers that present four fields get as far as their contents; every other one is turned away for its form,
      for the missing word Bearer first. */
  lemma {:induction false} TurnedAwayIff(mac: string -> string, revoked: map<string, real>, header: Option<string>,
                                         expiryRead: real, listRead: real)
    ensures var r := ParseAndVerify(mac, revoked, header, expiryRead, listRead);
            && (r == Err(Missing) <==> !exists token :: header == Some("Bearer " + token))
            && (r == Err(Missing) || r == Err(BadFormat) <==>
                !exists id, text, jti, m :: Presents(header, id, text, jti, m))
  {
    var r := ParseAndVerify(mac, revoked, header, expiryRead, listRead);
    forall token | header == Some("Bearer " + token)
      ensures r != Err(Missing)
    {
      assert header.value[..|BEARER|] == BEARER;
    }
    if r != Err(Missing) {
      assert header.value == "Bearer " + header.value[|BEARER|..];
    }
    forall id, text, jti, m | Presents(header, id, text, jti, m)
      ensures r != Err(Missing) && r != Err(BadFormat)
    {
      PresentedVerdict(mac, revoked, header, id, text, jti, m, expiryRead, listRead);
    }
    var id, text, jti, m := PresentsOrRefused(mac, header, expiryRead);
  }

  /** Hexadecimal text: what the MAC and the identifier generator produce. */
  ghost predicate HexText(s: string) {
    EnvelopeCodec.IsAscii(s) && ':' !in s
  }

  ghost predicate Issued(mac: string -> string, jti: string) {
    HexText(jti) && forall p :: HexText(mac(p))
  }

  lemma {:induction false} TokenSplits(mac: string -> string, id: string, issuedAt: real, ttl: int, jti: string)
    requires Issued(mac, jti)
    ensures var e := issuedAt.Floor + ttl;
            ':' !in id ==>
              Split(Generate(mac, id, issuedAt, ttl, jti)) == [id, Decimal(e), jti, mac(Payload(id, e, jti))]
    ensures ':' in id ==> |Split(Generate(mac, id, issuedAt, ttl, jti))| > 4
  {
    var e := issuedAt.Floor + ttl;
    DecimalReadsBack(e);
    FourFields(id, Decimal(e), jti, mac(Payload(id, e, jti)));
  }

  function Header(mac: string -> string, id: string, issuedAt: real, ttl: int, jti: string): Option<string> {
    Some(BEARER + Generate(mac, id, issuedAt, ttl, jti))
  }

  /** What the checks before the revocation list say of an issued token. */
  lemma {:induction false} AuthenticIff(mac: string -> string, id: string, issuedAt: real, ttl: int, jti: string,
                                        expiryRead: real)
    requires Issued(mac, jti)
    ensures var expiresAt := issuedAt.Floor + ttl;
            Authenticate(mac, Header(mac, id, issuedAt, ttl, jti), expiryRead) ==
              if ':' in id then Err(BadFormat)
              else if expiryRead > expiresAt as real then Err(Expired)
              else Ok(Session(id, jti, expiresAt))
  {
    var token := Generate(mac, id, issuedAt, ttl, jti);
    TokenSplits(mac, id, issuedAt, ttl, jti);
    DecimalReadsBack(issuedAt.Floor + ttl);
    assert (BEARER + token)[..|BEARER|] == BEARER && (BEARER + token)[|BEARER|..] == token;
  }

  /** An issued token is accepted, and read back into its parts, exactly when its identifier has no colon, its expiry
      had not passed at the first reading and its jti is not on the revocation list at the second. */
  lemma {:induction false} AcceptedIff(mac: string -> string, id: string, issuedAt: real, ttl: int, jti: string,
                                       revoked: map<string, real>, expiryRead: real, listRead: real)
    requires Issued(mac, jti)
    ensures var expiresAt := issuedAt.Floor + ttl;
            var r := ParseAndVerify(mac, revoked, Header(mac, id, issuedAt, ttl, jti), expiryRead, listRead);
            && (r.Ok? <==> ':' !in id && expiryRead <= expiresAt as real && !IsRevoked(revoked, jti, listRead))
            && (r.Ok? ==> r.value == Session(id, jti, expiresAt))
  {
    AuthenticIff(mac, id, issuedAt, ttl, jti, expiryRead);
  }

  // ---------- logout ----------

  /** The whole seconds a token has left; a fraction is dropped. */
  function Remaining(expiresAt: int, now: real): nat {
    var left := expiresAt as real - now;
    if left < 0.0 then 0 else left.Floor
  }

  /** Reads the clock once for the remaining time and once more for the deadline of the revocation. */
  method Logout(registry: Registry, session: Session, readAt: real, revokedAt: real)
    modifies registry`revokedJtis
    ensures registry.revokedJtis == Revoke(old(registry.revokedJtis), session.jti,
            Remaining(session.expiresAt, readAt), revokedAt)
  {
    var left := session.expiresAt as real - readAt;
    var remaining := if left < 0.0 then 0 else left.Floor;
    registry.RevokeJti(session.jti, remaining, revokedAt);
  }

  function AfterLogout(revoked: map<string, real>, jti: string, expiresAt: int, readAt: real,
                       revokedAt: real): map<string, real> {
    Revoke(revoked, jti, Remaining(expiresAt, readAt), revokedAt)
  }

  /** The fraction of a second that truncation drops, together with the longest a verification may take between its
      two clock readings, is no longer than the time between the two readings of the logout. A logout after the expiry
      leaves nothing to drop, but then it is the verification under way that has to be covered. */
  predicate Covered(expiresAt: int, readAt: real, revokedAt: real, stall: real) {
    var left := expiresAt as real - readAt;
    if left < 0.0 then expiresAt as real + stall <= revokedAt
    else left - left.Floor as real + stall <= revokedAt - readAt
  }

  lemma {:induction false} RevocationReachesIff(revoked: map<string, real>, jti: string, expiresAt: int,
                                                readAt: real, revokedAt: real, stall: real)
    ensures AfterLogout(revoked, jti, expiresAt, readAt, revokedAt)[jti] >= expiresAt as real + stall
            <==> Covered(expiresAt, readAt, revokedAt, stall)
  {
  }

  /** A verification of the token that consults the revocation list at or after the logout is refused. */
  ghost predicate RefusedFrom(mac: string -> string, header: Option<string>, revoked: map<string, real>, from: real,
                              stall: real) {
    forall expiryRead: real, listRead: real | expiryRead <= listRead <= expiryRead + stall && from <= listRead ::
      ParseAndVerify(mac, revoked, header, expiryRead, listRead).Err?
  }

  /** A verification of the token that begins at or after the logout is refused. */
  ghost predicate RefusedToNewcomers(mac: string -> string, header: Option<string>, revoked: map<string, real>,
                                     from: real, stall: real) {
    forall expiryRead: real, listRead: real | from <= expiryRead <= listRead <= expiryRead + stall ::
      ParseAndVerify(mac, revoked, header, expiryRead, listRead).Err?
  }

  lemma {:induction false} RefusedIfDeadlineReaches(mac: string -> string, id: string, issuedAt: real, ttl: int,
                                                    jti: string,
                                                    revoked: map<string, real>, from: real, stall: real)
    requires Issued(mac, jti) && ':' !in id && jti in revoked
    ensures revoked[jti] >= (issuedAt.Floor + ttl) as real + stall ==>
              RefusedFrom(mac, Header(mac, id, issuedAt, ttl, jti), revoked, from, stall)
    ensures revoked[jti] >= (issuedAt.Floor + ttl) as real + stall || from > (issuedAt.Floor + ttl) as real ==>
              RefusedToNewcomers(mac, Header(mac, id, issuedAt, ttl, jti), revoked, from, stall)
  {
    forall expiryRead: real, listRead: real
      ensures var r := ParseAndVerify(mac, revoked, Header(mac, id, issuedAt, ttl, jti), expiryRead, listRead);
              r.Err? <==> expiryRead > (issuedAt.Floor + ttl) as real || listRead <= revoked[jti]
    {
      AcceptedIff(mac, id, issuedAt, ttl, jti, revoked, expiryRead, listRead);
    }
  }

  /** After a logout the token is refused by every verification that consults the list from then on exactly when the
      dropped fraction and the stall of a verification are covered; by every verification that begins from then on
      exactly when they are covered or the token had expired by then. */
  lemma {:induction false} LogoutFinalIff(mac: string -> string, id: string, issuedAt: real, ttl: int, jti: string,
                                          revoked: map<string, real>, readAt: real, revokedAt: real, stall: real)
    requires Issued(mac, jti) && ':' !in id && readAt <= revokedAt && stall >= 0.0
    ensures var expiresAt := issuedAt.Floor + ttl;
            var r, header := AfterLogout(revoked, jti, expiresAt, readAt, revokedAt),
                Header(mac, id, issuedAt, ttl, jti);
            && (RefusedFrom(mac, header, r, revokedAt, stall) <==> Covered(expiresAt, readAt, revokedAt, stall))
            && (RefusedToNewcomers(mac, header, r, revokedAt, stall) <==>
                Covered(expiresAt, readAt, revokedAt, stall) || revokedAt > expiresAt as real)
  {
    var expiresAt := issuedAt.Floor + ttl;
    var r, header := AfterLogout(revoked, jti, expiresAt, readAt, revokedAt), Header(mac, id, issuedAt, ttl, jti);
    RevocationReachesIff(revoked, jti, expiresAt, readAt, revokedAt, stall);
    RefusedIfDeadlineReaches(mac, id, issuedAt, ttl, jti, r, revokedAt, stall);
    if !Covered(expiresAt, readAt, revokedAt, stall) {
      var t1, t2 := expiresAt as real, expiresAt as real + stall;
      AcceptedIff(mac, id, issuedAt, ttl, jti, r, t1, t2);
      assert ParseAndVerify(mac, r, header, t1, t2).Ok?;
    }
  }

  /** Where it is not covered, a verification that accepts the token after the logout consulted the list less than a
      second before the expiry or later, by no more than its stall, and began no later than the expiry. */
  lemma {:induction false} LogoutGap(mac: string -> string, id: string, issuedAt: real, ttl: int, jti: string,
                                     revoked: map<string, real>,
                                     readAt: real, revokedAt: real, expiryRead: real, listRead: real, stall: real)
    requires Issued(mac, jti) && ':' !in id && readAt <= revokedAt <= listRead
    requires expiryRead <= listRead <= expiryRead + stall
    requires var r := AfterLogout(revoked, jti, issuedAt.Floor + ttl, readAt, revokedAt);
             ParseAndVerify(mac, r, Header(mac, id, issuedAt, ttl, jti), expiryRead, listRead).Ok?
    ensures var expiry := (issuedAt.Floor + ttl) as real;
            expiry - 1.0 < listRead <= expiry + stall && expiry - 1.0 - stall < expiryRead <= expiry
  {
    var r := AfterLogout(revoked, jti, issuedAt.Floor + ttl, readAt, revokedAt);
    AcceptedIff(mac, id, issuedAt, ttl, jti, r, expiryRead, listRead);
  }
}
