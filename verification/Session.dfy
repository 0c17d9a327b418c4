/**
 The session cookie: user and expiry, in base64url, with a signature. The message authentication code is
 any function `mac` of secret and payload (HMAC-SHA256, section 2 of RFC 2104, in the program).
 */
module Session {
  import opened Bytes
  import Base64Url
  import Decimal

  const SEPARATOR: byte := 124
  const DOT: byte := 46

  type Mac = (seq<byte>, seq<byte>) -> seq<byte>

  /** The position of the first c. */
  function IndexByte(s: seq<byte>, c: byte): (r: Option<nat>)
    ensures r.None? <==> c !in s
    ensures r.Some? ==> r.value < |s| && s[r.value] == c && c !in s[..r.value]
    decreases |s|
  {
    if s == [] then None
    else if s[0] == c then Some(0)
    else match IndexByte(s[1..], c)
      case None => None
      case Some(i) =>
        assert s[..i + 1] == [s[0]] + s[1..][..i];
        Some(i + 1)
  }

  function PayloadOf(user: seq<byte>, exp: Decimal.int64): seq<byte> {
    user + [SEPARATOR] + Decimal.Format(exp)
  }

  function SignSession(mac: Mac, user: seq<byte>, exp: Decimal.int64, secret: seq<byte>): seq<byte> {
    var payload := PayloadOf(user, exp);
    Base64Url.Encode(payload) + [DOT] + Base64Url.Encode(mac(secret, payload))
  }

  /** The user of the cookie at Unix time `now`, or nothing. */
  function VerifySession(mac: Mac, value: seq<byte>, secret: seq<byte>, now: int): seq<byte> {
    match IndexByte(value, DOT)
    case None => []
    case Some(dot) =>
      var payload := Base64Url.Decode(value[..dot]);
      var signature := Base64Url.Decode(value[dot + 1..]);
      if payload.None? || signature.None? then []
      else if signature.value != mac(secret, payload.value) then []
      else UserOf(payload.value, now)
  }

  /** The user named by a payload whose signature is right. */
  function UserOf(payload: seq<byte>, now: int): seq<byte> {
    match IndexByte(payload, SEPARATOR)
    case None => []
    case Some(sep) =>
      match Decimal.Parse(payload[sep + 1..])
      case None => []
      case Some(exp) => if now >= exp then [] else payload[..sep]
  }

  lemma {:induction false} FirstAt(s: seq<byte>, c: byte, t: seq<byte>)
    requires c !in s
    ensures IndexByte(s + [c] + t, c) == Some(|s|)
    decreases |s|
  {
    if s != [] {
      FirstAt(s[1..], c, t);
      assert (s + [c] + t)[1..] == s[1..] + [c] + t;
    }
  }

  lemma FirstIn(s: seq<byte>, n: nat, c: byte)
    requires n < |s| && s[n] == c && c !in s[..n]
    ensures IndexByte(s, c) == Some(n)
  {
    var i := IndexByte(s, c).value;
    assert forall j :: 0 <= j < i ==> s[j] == s[..i][j];
    assert forall j :: 0 <= j < n ==> s[j] == s[..n][j];
  }

  lemma DotFree(s: seq<byte>)
    ensures DOT !in Base64Url.Encode(s)
  {
    Base64Url.SymbolsInAlphabet(Base64Url.Sextets(s));
  }

  /** A user name with a separator is cut at it, and what follows is not a number. */
  lemma UserWithSeparator(user: seq<byte>, exp: Decimal.int64, now: int)
    requires SEPARATOR in user
    ensures UserOf(PayloadOf(user, exp), now) == []
  {
    hide Decimal.Parse, Decimal.Format;
    var first := IndexByte(user, SEPARATOR).value;
    var left, right := user[..first], user[first + 1..] + [SEPARATOR] + Decimal.Format(exp);
    assert user == left + [SEPARATOR] + user[first + 1..];
    assert PayloadOf(user, exp) == left + [SEPARATOR] + right;
    FirstAt(left, SEPARATOR, right);
    assert (left + [SEPARATOR] + right)[first + 1..] == right;
    assert right[|user| - first - 1] == SEPARATOR;
    if Decimal.Parse(right).Some? {
      Decimal.ParsesOnlyDigits(right);
    }
  }

  lemma UserWithoutSeparator(user: seq<byte>, exp: Decimal.int64, now: int)
    requires SEPARATOR !in user
    ensures UserOf(PayloadOf(user, exp), now) == if now < exp then user else []
  {
    FirstAt(user, SEPARATOR, Decimal.Format(exp));
    Decimal.RoundTrip(exp);
    assert PayloadOf(user, exp)[|user| + 1..] == Decimal.Format(exp);
    assert PayloadOf(user, exp)[..|user|] == user;
  }

  /** A signed cookie, checked under any secret, at any time: it names its user exactly if the two codes of
      its payload agree, the user name has no separator and the expiry is still ahead. */
  lemma SignedCookieVerifies(mac: Mac, user: seq<byte>, exp: Decimal.int64, secret: seq<byte>, other: seq<byte>, now: int)
    ensures VerifySession(mac, SignSession(mac, user, exp, secret), other, now)
         == if mac(other, PayloadOf(user, exp)) == mac(secret, PayloadOf(user, exp)) && SEPARATOR !in user && now < exp
            then user else []
  {
    var payload := PayloadOf(user, exp);
    var signature := mac(secret, payload);
    var value := SignSession(mac, user, exp, secret);
    var left, right := Base64Url.Encode(payload), Base64Url.Encode(signature);
    DotFree(payload);
    FirstAt(left, DOT, right);
    assert value[..|left|] == left && value[|left| + 1..] == right;
    Base64Url.RoundTrip(payload);
    Base64Url.RoundTrip(signature);
    if SEPARATOR in user {
      UserWithSeparator(user, exp, now);
    } else {
      UserWithoutSeparator(user, exp, now);
    }
  }

  /** Under the secret it was signed with. */
  lemma RoundTrip(mac: Mac, user: seq<byte>, exp: Decimal.int64, secret: seq<byte>, now: int)
    ensures VerifySession(mac, SignSession(mac, user, exp, secret), secret, now)
         == if SEPARATOR !in user && now < exp then user else []
  {
    SignedCookieVerifies(mac, user, exp, secret, secret, now);
  }

  /** The payload is the user, the first separator and a number, `exp`. */
  ghost predicate Names(payload: seq<byte>, user: seq<byte>, exp: Decimal.int64) {
    && |user| < |payload| && payload[..|user|] == user && SEPARATOR !in user
    && payload[|user|] == SEPARATOR
    && Decimal.Parse(payload[|user| + 1..]) == Some(exp)
  }

  lemma UserNamed(payload: seq<byte>, now: int, user: seq<byte>, exp: Decimal.int64)
    requires Names(payload, user, exp)
    ensures UserOf(payload, now) == if now < exp then user else []
  {
    FirstIn(payload, |user|, SEPARATOR);
  }

  lemma NameOfUser(payload: seq<byte>, now: int) returns (exp: Decimal.int64)
    requires UserOf(payload, now) != []
    ensures Names(payload, UserOf(payload, now), exp) && now < exp
  {
    hide Decimal.Parse, IndexByte;
    exp := Decimal.Parse(payload[IndexByte(payload, SEPARATOR).value + 1..]).value;
  }

  /** The text is two parts around its first dot, at `dot`: the payload and its code, both in base64url. */
  ghost predicate Signed(mac: Mac, value: seq<byte>, secret: seq<byte>, dot: nat, payload: seq<byte>) {
    && dot < |value| && value[dot] == DOT && DOT !in value[..dot]
    && Base64Url.Decode(value[..dot]) == Some(payload)
    && Base64Url.Decode(value[dot + 1..]) == Some(mac(secret, payload))
  }

  lemma AcceptedWhen(mac: Mac, value: seq<byte>, secret: seq<byte>, now: int, user: seq<byte>,
                     dot: nat, payload: seq<byte>, exp: Decimal.int64)
    requires Signed(mac, value, secret, dot, payload) && Names(payload, user, exp) && now < exp
    ensures VerifySession(mac, value, secret, now) == user
  {
    FirstIn(value, dot, DOT);
    UserNamed(payload, now, user, exp);
  }

  lemma AcceptedOnlyWhen(mac: Mac, value: seq<byte>, secret: seq<byte>, now: int, user: seq<byte>)
    returns (dot: nat, payload: seq<byte>, exp: Decimal.int64)
    requires user != [] && VerifySession(mac, value, secret, now) == user
    ensures Signed(mac, value, secret, dot, payload) && Names(payload, user, exp) && now < exp
  {
    dot := IndexByte(value, DOT).value;
    payload := Base64Url.Decode(value[..dot]).value;
    exp := NameOfUser(payload, now);
  }

  /** Whatever text is presented: a user is accepted exactly if the text is two base64url parts around its
      first dot, the second is the code of the first, and the first names the user with a later expiry. */
  lemma AcceptedExactly(mac: Mac, value: seq<byte>, secret: seq<byte>, now: int, user: seq<byte>)
    requires user != []
    ensures VerifySession(mac, value, secret, now) == user <==>
            exists dot, payload, exp ::
              Signed(mac, value, secret, dot, payload) && Names(payload, user, exp) && now < exp
  {
    if VerifySession(mac, value, secret, now) == user {
      var dot, payload, exp := AcceptedOnlyWhen(mac, value, secret, now, user);
    }
    forall dot, payload, exp | Signed(mac, value, secret, dot, payload) && Names(payload, user, exp) && now < exp
      ensures VerifySession(mac, value, secret, now) == user
    {
      AcceptedWhen(mac, value, secret, now, user, dot, payload, exp);
    }
  }
}
