// Subscription tokens (app/utils/jwt.py, app/dependencies.py): name and second in unpadded base64url,
// followed by ten characters of signature.

module SubscriptionTokens {
  import opened Wrappers
  import opened Decimals
  import opened Base64Url

  // ---- text ---------------------------------------------------------------------------------

  predicate Ascii(s: string) {
    forall i :: 0 <= i < |s| ==> s[i] < '\U{80}'
  }

  function Bytes(s: string): (bytes: seq<Byte>)
    requires Ascii(s)
    ensures |bytes| == |s| && forall i :: 0 <= i < |s| ==> bytes[i] == s[i] as nat
  {
    if s == [] then []
    else Bytes(s[..|s| - 1]) + [s[|s| - 1] as nat]
  }

  // UTF-8 below 128; longer sequences are left to decodeLong.
  function TextOf(bytes: seq<Byte>, decodeLong: seq<Byte> -> Option<string>): Option<string> {
    if forall b :: b in bytes ==> b < 128
    then Some(seq(|bytes|, i requires 0 <= i < |bytes| => assert bytes[i] in bytes; bytes[i] as char))
    else decodeLong(bytes)
  }

  lemma TextRoundTrip(s: string, decodeLong: seq<Byte> -> Option<string>)
    requires Ascii(s)
    ensures TextOf(Bytes(s), decodeLong) == Some(s)
  {
    var bytes := Bytes(s);
    forall b | b in bytes ensures b < 128 {
      var i :| 0 <= i < |bytes| && bytes[i] == b;
    }
    assert TextOf(bytes, decodeLong).value == s;
  }

  // str.split(',')
  function Split(s: string): (parts: seq<string>)
    ensures parts != []
  {
    if s == [] then [[]]
    else
      var rest := Split(s[1..]);
      if s[0] == ',' then [[]] + rest else [[s[0]] + rest[0]] + rest[1..]
  }

  lemma {:induction false} SplitPlain(s: string)
    requires ',' !in s
    ensures Split(s) == [s]
  {
    if s != [] {
      SplitPlain(s[1..]);
      assert [s[0]] + s[1..] == s;
    }
  }

  lemma {:induction false} SplitTwo(a: string, b: string)
    requires ',' !in a && ',' !in b
    ensures Split(a + "," + b) == [a, b]
  {
    var s := a + "," + b;
    if a == [] {
      assert s[1..] == b;
      SplitPlain(b);
    } else {
      assert s[1..] == a[1..] + "," + b;
      SplitTwo(a[1..], b);
      assert [a[0]] + a[1..] == a;
    }
  }

  // ---- tokens -------------------------------------------------------------------------------

  // The secret enters through the signature: the first ten characters of a digest in base64url.
  // JWTs and texts beyond ASCII are read by library functions.
  datatype Keys = Keys(
    sign: string -> string, readJwt: string -> Option<Payload>, decodeLong: seq<Byte> -> Option<string>)

  ghost predicate Signs(keys: Keys) {
    forall s :: |keys.sign(s)| == 10 && forall c :: c in keys.sign(s) ==> UrlSafe(c)
  }

  // createdAt in whole seconds
  datatype Payload = Payload(username: string, createdAt: int)

  // A crash is an exception that the parser lets through.
  datatype Parsed = Found(payload: Payload) | Nothing | Crash

  function Ceil(t: real): int {
    -(-t).Floor
  }

  // What USERNAME_REGEXP leaves: at least three characters of ASCII, no comma among them.
  predicate PlainName(username: string) {
    |username| >= 3 && Ascii(username) && ',' !in username
  }

  function TokenData(username: string, now: real): string
    requires now >= 0.0
  {
    username + "," + Decimal(Ceil(now))
  }

  lemma TokenDataIsAscii(username: string, now: real)
    requires now >= 0.0 && Ascii(username)
    ensures Ascii(TokenData(username, now))
  {
    var digits, text := Decimal(Ceil(now)), TokenData(username, now);
    DecimalRoundTrip(Ceil(now));
    forall i | |username| < i < |text| ensures text[i] < '\U{80}' {
      assert text[i] == digits[i - |username| - 1] && digits[i - |username| - 1] in digits;
    }
  }

  function CreateSubscriptionToken(keys: Keys, username: string, now: real): string
    requires now >= 0.0 && Ascii(username)
  {
    TokenDataIsAscii(username, now);
    var data := Unpadded(Bytes(TokenData(username, now)));
    data + keys.sign(data)
  }

  const JWT_PREFIX := "eyJhbGciOiJIUzI1NiIsInR5cCI6IkpXVCJ9."

  function GetSubscriptionPayload(keys: Keys, token: string): Parsed {
    if |token| < 15 then Nothing
    else if JWT_PREFIX <= token then
      match keys.readJwt(token)
      case Some(payload) => Found(payload)
      case None => Nothing
    else
      var data, signature := token[..|token| - 10], token[|token| - 10..];
      var bytes := Decode(Pad(data));
      if bytes.None? then Nothing
      else
        var text := TextOf(bytes.value, keys.decodeLong);
        if text.None? || signature != keys.sign(data) then Nothing
        else
          var parts := Split(text.value);
          if |parts| < 2 then Crash
          else
            match ReadDecimal(parts[1])
            case Some(second) => Found(Payload(parts[0], second))
            case None => Crash
  }

  lemma DotIsNotSafe(token: string)
    requires forall c :: c in token ==> UrlSafe(c)
    ensures !(JWT_PREFIX <= token)
  {
    var k := |JWT_PREFIX| - 1;
    if k < |token| {
      assert token[k] in token;
      assert JWT_PREFIX[k] != token[k];
    }
  }

  lemma SignedReads(keys: Keys, data: string, text: string, name: string, digits: string, second: nat)
    requires |keys.sign(data)| == 10 && |data| >= 5 && !(JWT_PREFIX <= data + keys.sign(data))
    requires Decode(Pad(data)).Some? && TextOf(Decode(Pad(data)).value, keys.decodeLong) == Some(text)
    requires Split(text) == [name, digits] && ReadDecimal(digits) == Some(second)
    ensures GetSubscriptionPayload(keys, data + keys.sign(data)) == Found(Payload(name, second))
  {
    var token := data + keys.sign(data);
    assert token[..|token| - 10] == data && token[|token| - 10..] == keys.sign(data);
  }

  lemma MintedIsNoJwt(keys: Keys, bytes: seq<Byte>)
    requires Signs(keys)
    ensures !(JWT_PREFIX <= Unpadded(bytes) + keys.sign(Unpadded(bytes)))
  {
    var data := Unpadded(bytes);
    UnpaddedRoundTrip(bytes);
    assert |keys.sign(data)| == 10;
    forall c | c in data + keys.sign(data) ensures UrlSafe(c) {
      assert c in data || c in keys.sign(data);
    }
    DotIsNotSafe(data + keys.sign(data));
  }

  // A minted token is read back as the name and the second it was minted in, rounded up, and never
  // taken for a JWT.
  lemma TokenRoundTrip(keys: Keys, username: string, now: real)
    requires Signs(keys) && PlainName(username) && now >= 0.0
    ensures
      var token := CreateSubscriptionToken(keys, username, now);
      GetSubscriptionPayload(keys, token) == Found(Payload(username, Ceil(now))) && !(JWT_PREFIX <= token)
  {
    var second: nat := Ceil(now);
    var text := TokenData(username, now);
    TokenDataIsAscii(username, now);
    var bytes := Bytes(text);
    DecimalRoundTrip(second);
    assert ',' !in Decimal(second);
    SplitTwo(username, Decimal(second));
    TextRoundTrip(text, keys.decodeLong);
    UnpaddedRoundTrip(bytes);
    MintedIsNoJwt(keys, bytes);
    assert |keys.sign(Unpadded(bytes))| == 10;
    SignedReads(keys, Unpadded(bytes), text, username, Decimal(second), second);
  }

  // ---- get_validated_sub --------------------------------------------------------------------

  // Times of the database in seconds.
  datatype Subscriber = Subscriber(createdAt: real, subRevokedAt: Option<real>)

  function GetValidatedSub(keys: Keys, users: map<string, Subscriber>, token: string): Option<string> {
    match GetSubscriptionPayload(keys, token)
    case Found(payload) =>
      if payload.username !in users then None
      else
        var user := users[payload.username];
        if user.createdAt > payload.createdAt as real then None
        else if user.subRevokedAt.Some? && user.subRevokedAt.value > payload.createdAt as real then None
        else Some(payload.username)
    case _ => None
  }

  // A minted token is accepted exactly when the user was neither created nor revoked after the
  // second of minting, rounded up; so one minted at or after both is always accepted.
  lemma AcceptedExactlyWhen(keys: Keys, users: map<string, Subscriber>, username: string, now: real)
    requires Signs(keys) && PlainName(username) && now >= 0.0 && username in users
    ensures
      var user := users[username];
      var accepted := GetValidatedSub(keys, users, CreateSubscriptionToken(keys, username, now)) == Some(username);
      && (accepted <==> user.createdAt <= Ceil(now) as real
                        && (user.subRevokedAt.Some? ==> user.subRevokedAt.value <= Ceil(now) as real))
      && (user.createdAt <= now && (user.subRevokedAt.Some? ==> user.subRevokedAt.value <= now) ==> accepted)
  {
    TokenRoundTrip(keys, username, now);
    assert now <= Ceil(now) as real;
  }
}
