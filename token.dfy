/**
 * The mock API's session token: a user snapshot with an issue and an
 * expiry instant, encoded reversibly and not signed.
 *
 * The browser's `btoa(JSON.stringify(payload))` / `JSON.parse(atob(token))`
 * pair is stood in for by a concrete text codec (length-prefixed fields)
 * whose round trip is proved below; what the rest of the model relies on
 * is exactly that round trip, that text which is not an encoding does
 * not decode, and where `btoa` throws: `JSON.stringify` leaves characters
 * above U+007F unescaped, so a snapshot holding a character above U+00FF
 * (outside Latin-1) cannot be encoded at all.
 */
module Token {
  import opened Wrappers

  /** The user snapshot a token carries: `{ id, username, email, role }`. */
  datatype Identity = Identity(id: string, username: string, email: string, role: string)

  /** `{ user, iat, exp }`, instants in milliseconds since the epoch. */
  datatype Payload = Payload(user: Identity, iat: nat, exp: nat)

  /** `7 * 24 * 60 * 60 * 1000` milliseconds: seven days. */
  const Lifetime: nat := 7 * 24 * 60 * 60 * 1000

  // ---- a reversible text codec ----

  predicate IsDigit(c: char) {
    '0' <= c <= '9'
  }

  predicate AllDigits(d: string) {
    forall i :: 0 <= i < |d| ==> IsDigit(d[i])
  }

  function DigitChar(d: nat): (c: char)
    requires d < 10
    ensures IsDigit(c)
  {
    ('0' as int + d) as char
  }

  /** The decimal numeral of n. */
  function Digits(n: nat): (r: string)
    ensures |r| > 0 && AllDigits(r)
  {
    if n < 10 then [DigitChar(n)] else Digits(n / 10) + [DigitChar(n % 10)]
  }

  /** The value of a decimal numeral. */
  function DigitsValue(d: string): nat
    requires AllDigits(d)
  {
    if |d| == 0 then 0
    else DigitsValue(d[..|d| - 1]) * 10 + (d[|d| - 1] as int - '0' as int)
  }

  lemma {:induction false} DigitsRoundTrip(n: nat)
    ensures DigitsValue(Digits(n)) == n
  {
    if n >= 10 {
      var d := Digits(n);
      assert d[..|d| - 1] == Digits(n / 10);
      DigitsRoundTrip(n / 10);
    }
  }

  /** The length of the run of digits t starts with. */
  function DigitSpan(t: string): (k: nat)
    ensures k <= |t| && AllDigits(t[..k])
    ensures k < |t| ==> !IsDigit(t[k])
  {
    if |t| == 0 || !IsDigit(t[0]) then 0
    else
      var k := 1 + DigitSpan(t[1..]);
      assert t[..k] == [t[0]] + t[1..][..k - 1];
      k
  }

  lemma {:induction false} DigitSpanOf(d: string, rest: string)
    requires AllDigits(d)
    requires rest != [] && !IsDigit(rest[0])
    ensures DigitSpan(d + rest) == |d|
  {
    if |d| > 0 {
      assert (d + rest)[1..] == d[1..] + rest;
      DigitSpanOf(d[1..], rest);
    }
  }

  function EncodeNat(n: nat): string {
    Digits(n) + ":"
  }

  function EncodeStr(s: string): string {
    EncodeNat(|s|) + s
  }

  /** Reads a non-empty numeral closed by ':'; None if t does not start with one. */
  function ReadNat(t: string): Option<(nat, string)> {
    var k := DigitSpan(t);
    if 0 < k < |t| && t[k] == ':' then Some((DigitsValue(t[..k]), t[k + 1..])) else None
  }

  /** Reads a length and then that many characters. */
  function ReadStr(t: string): Option<(string, string)> {
    var (n, rest) :- ReadNat(t);
    if n <= |rest| then Some((rest[..n], rest[n..])) else None
  }

  lemma ReadNatEncode(n: nat, rest: string)
    ensures ReadNat(EncodeNat(n) + rest) == Some((n, rest))
  {
    var d := Digits(n);
    var t := EncodeNat(n) + rest;
    assert t == d + ([':'] + rest);
    DigitSpanOf(d, [':'] + rest);
    assert t[..|d|] == d;
    assert t[|d| + 1..] == rest;
    DigitsRoundTrip(n);
  }

  lemma ReadStrEncode(s: string, rest: string)
    ensures ReadStr(EncodeStr(s) + rest) == Some((s, rest))
  {
    assert EncodeStr(s) + rest == EncodeNat(|s|) + (s + rest);
    ReadNatEncode(|s|, s + rest);
    assert (s + rest)[..|s|] == s;
    assert (s + rest)[|s|..] == rest;
  }

  /** Text `btoa` accepts: every character is in the Latin-1 range. */
  predicate Latin1(s: string) {
    forall i :: 0 <= i < |s| ==> s[i] <= '\U{00FF}'
  }

  /**
   * The payload's JSON text is Latin-1 exactly when the snapshot's strings
   * are: the keys, punctuation, escapes and numbers are all ASCII.
   */
  predicate Encodable(u: Identity) {
    Latin1(u.id) && Latin1(u.username) && Latin1(u.email) && Latin1(u.role)
  }

  /** The stand-in for `btoa(JSON.stringify(payload))` on a payload `btoa` accepts. */
  function Encode(p: Payload): (t: string)
    ensures t != ""
  {
    EncodeStr(p.user.id) + (EncodeStr(p.user.username) + (EncodeStr(p.user.email) +
      (EncodeStr(p.user.role) + (EncodeNat(p.iat) + EncodeNat(p.exp)))))
  }

  /** The stand-in for `JSON.parse(atob(token))`: None where that throws. */
  function Decode(t: string): Option<Payload> {
    var (id, t1) :- ReadStr(t);
    var (username, t2) :- ReadStr(t1);
    var (email, t3) :- ReadStr(t2);
    var (role, t4) :- ReadStr(t3);
    var (iat, t5) :- ReadNat(t4);
    var (exp, t6) :- ReadNat(t5);
    if t6 == "" then Some(Payload(Identity(id, username, email, role), iat, exp)) else None
  }

  /** Decoding inverts encoding: anyone can read, and rebuild, a token's payload. */
  lemma DecodeEncode(p: Payload)
    ensures Decode(Encode(p)) == Some(p)
  {
    var u := p.user;
    var t5 := EncodeNat(p.exp);
    var t4 := EncodeNat(p.iat) + t5;
    var t3 := EncodeStr(u.role) + t4;
    var t2 := EncodeStr(u.email) + t3;
    var t1 := EncodeStr(u.username) + t2;
    ReadStrEncode(u.id, t1);
    ReadStrEncode(u.username, t2);
    ReadStrEncode(u.email, t3);
    ReadStrEncode(u.role, t4);
    ReadNatEncode(p.iat, t5);
    assert t5 == EncodeNat(p.exp) + "";
    ReadNatEncode(p.exp, "");
  }

  /** The text `atob` is handed when no token is stored, and the empty token, do not decode. */
  lemma DecodeRejectsNull()
    ensures Decode("null") == None
    ensures Decode("") == None
  {
    assert DigitSpan("null") == 0;
    assert DigitSpan("") == 0;
  }

  // ---- generateToken / verifyToken ----

  /** `generateToken(user)` at instant now; None where `btoa` throws. */
  function Generate(user: Identity, now: nat): (t: Option<string>)
    ensures t.Some? <==> Encodable(user)
  {
    if Encodable(user) then Some(Encode(Payload(user, now, now + Lifetime))) else None
  }

  /**
   * `verifyToken(token)` at instant now. Both ways it can throw, an
   * undecodable token and `payload.exp < Date.now()`, surface as the one
   * 'Invalid token' error, which None stands for.
   */
  function Verify(token: string, now: nat): (r: Option<Identity>)
    ensures r.Some? <==> Decode(token).Some? && now <= Decode(token).value.exp
    ensures r.Some? ==> r.value == Decode(token).value.user
  {
    match Decode(token)
    case None => None
    case Some(p) => if p.exp < now then None else Some(p.user)
  }

  /** A generated token carries `exp = iat + 604800000`. */
  lemma GeneratePayload(user: Identity, now: nat)
    ensures Generate(user, now).Some? ==>
              Decode(Generate(user, now).value) == Some(Payload(user, now, now + 604800000))
  {
    DecodeEncode(Payload(user, now, now + Lifetime));
  }

  /** A token verifies to the snapshot it was generated for until, and including, its expiry instant. */
  lemma VerifyGenerate(user: Identity, issued: nat, now: nat)
    ensures Generate(user, issued).Some? ==>
              Verify(Generate(user, issued).value, now) ==
              if now <= issued + Lifetime then Some(user) else None
  {
    GeneratePayload(user, issued);
  }

  /** A name such as "Łukasz" (U+0141 is outside Latin-1) gets no token. */
  lemma NonLatin1Refused(id: string, email: string, role: string, now: nat)
    ensures Generate(Identity(id, "\U{0141}ukasz", email, role), now) == None
  {
    assert !Latin1("\U{0141}ukasz") by {
      assert "\U{0141}ukasz"[0] == '\U{0141}';
    }
  }

  /** Nothing but the payload decides verification: a forged token verifies like a generated one. */
  lemma Forgeable(user: Identity, iat: nat, exp: nat, now: nat)
    requires now <= exp
    ensures Verify(Encode(Payload(user, iat, exp)), now) == Some(user)
  {
    DecodeEncode(Payload(user, iat, exp));
  }
}
