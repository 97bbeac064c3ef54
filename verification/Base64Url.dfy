// Unpadded base64url (RFC 4648, sections 3.2, 4 and 5).

module Base64Url {
  import opened Wrappers

  type Byte = b: nat | b < 256

  function EncodeSextet(v: nat): char
    requires v < 64
  {
    if v < 26 then 'A' + v as char
    else if v < 52 then 'a' + (v - 26) as char
    else if v < 62 then '0' + (v - 52) as char
    else if v == 62 then '-'
    else '_'
  }

  // The decoder also takes the two characters of plain base64.
  function DecodeSextet(c: char): (v: Option<nat>)
    ensures v.Some? ==> v.value < 64
  {
    if 'A' <= c <= 'Z' then Some((c - 'A') as nat)
    else if 'a' <= c <= 'z' then Some((c - 'a') as nat + 26)
    else if '0' <= c <= '9' then Some((c - '0') as nat + 52)
    else if c == '-' || c == '+' then Some(62)
    else if c == '_' || c == '/' then Some(63)
    else None
  }

  predicate UrlSafe(c: char) {
    'A' <= c <= 'Z' || 'a' <= c <= 'z' || '0' <= c <= '9' || c == '-' || c == '_'
  }

  lemma SextetRoundTrip(v: nat)
    requires v < 64
    ensures DecodeSextet(EncodeSextet(v)) == Some(v) && UrlSafe(EncodeSextet(v))
  {
  }

  function Triple(a: Byte, b: Byte, c: Byte): string {
    [EncodeSextet(a / 4), EncodeSextet(a % 4 * 16 + b / 16), EncodeSextet(b % 16 * 4 + c / 64), EncodeSextet(c % 64)]
  }

  // b64encode, with its padding.
  function Encode(bytes: seq<Byte>): string {
    if bytes == [] then []
    else if |bytes| == 1 then Triple(bytes[0], 0, 0)[..2] + "=="
    else if |bytes| == 2 then Triple(bytes[0], bytes[1], 0)[..3] + "="
    else Triple(bytes[0], bytes[1], bytes[2]) + Encode(bytes[3..])
  }

  function StripPadding(s: string): string {
    if s != [] && s[|s| - 1] == '=' then StripPadding(s[..|s| - 1]) else s
  }

  // '=' * (-len(s) % 4)
  function Pad(s: string): string {
    s + match |s| % 4 {
      case 0 => ""
      case 1 => "==="
      case 2 => "=="
      case _ => "="
    }
  }

  function Quad(s: string): Option<seq<Byte>>
    requires |s| == 4
  {
    match (DecodeSextet(s[0]), DecodeSextet(s[1]), DecodeSextet(s[2]), DecodeSextet(s[3]))
    case (Some(p), Some(q), Some(r), Some(t)) => Some([p * 4 + q / 16, q % 16 * 16 + r / 4, r % 4 * 64 + t])
    case _ => None
  }

  // The group before the end may be padded.
  function LastQuad(s: string): Option<seq<Byte>>
    requires |s| == 4
  {
    if s[3] != '=' then Quad(s)
    else if s[2] != '=' then
      match (DecodeSextet(s[0]), DecodeSextet(s[1]), DecodeSextet(s[2]))
      case (Some(p), Some(q), Some(r)) => Some([p * 4 + q / 16, q % 16 * 16 + r / 4])
      case _ => None
    else
      match (DecodeSextet(s[0]), DecodeSextet(s[1]))
      case (Some(p), Some(q)) => Some([p * 4 + q / 16])
      case _ => None
  }

  // b64decode with validation.
  function Decode(s: string): Option<seq<Byte>> {
    if s == [] then Some([])
    else if |s| < 4 then None
    else if |s| == 4 then LastQuad(s)
    else
      match (Quad(s[..4]), Decode(s[4..]))
      case (Some(start), Some(rest)) => Some(start + rest)
      case _ => None
  }

  lemma FirstByte(a: Byte, b: Byte)
    ensures a / 4 * 4 + (a % 4 * 16 + b / 16) / 16 == a
  {
  }

  lemma SecondByte(a: Byte, b: Byte, c: Byte)
    ensures (a % 4 * 16 + b / 16) % 16 * 16 + (b % 16 * 4 + c / 64) / 4 == b
  {
    assert (a % 4 * 16 + b / 16) % 16 == b / 16;
    assert (b % 16 * 4 + c / 64) / 4 == b % 16;
  }

  lemma ThirdByte(b: Byte, c: Byte)
    ensures (b % 16 * 4 + c / 64) % 4 * 64 + c % 64 == c
  {
    assert (b % 16 * 4 + c / 64) % 4 == c / 64;
  }

  lemma QuadRoundTrip(a: Byte, b: Byte, c: Byte)
    ensures Quad(Triple(a, b, c)) == Some([a, b, c])
  {
    FirstByte(a, b);
    SecondByte(a, b, c);
    ThirdByte(b, c);
    SextetRoundTrip(a / 4);
    SextetRoundTrip(a % 4 * 16 + b / 16);
    SextetRoundTrip(b % 16 * 4 + c / 64);
    SextetRoundTrip(c % 64);
  }

  lemma TripleIsSafe(a: Byte, b: Byte, c: Byte)
    ensures forall x :: x in Triple(a, b, c) ==> UrlSafe(x) && x != '='
  {
    SextetRoundTrip(a / 4);
    SextetRoundTrip(a % 4 * 16 + b / 16);
    SextetRoundTrip(b % 16 * 4 + c / 64);
    SextetRoundTrip(c % 64);
  }

  lemma OneByteQuad(a: Byte)
    ensures LastQuad(Triple(a, 0, 0)[..2] + "==") == Some([a])
  {
    SextetRoundTrip(a / 4);
    SextetRoundTrip(a % 4 * 16);
    var s := Triple(a, 0, 0)[..2] + "==";
    assert s == [EncodeSextet(a / 4), EncodeSextet(a % 4 * 16), '=', '='];
  }

  lemma TwoByteQuad(a: Byte, b: Byte)
    ensures LastQuad(Triple(a, b, 0)[..3] + "=") == Some([a, b])
  {
    SextetRoundTrip(a / 4);
    SextetRoundTrip(a % 4 * 16 + b / 16);
    SextetRoundTrip(b % 16 * 4);
    FirstByte(a, b);
    SecondByte(a, b, 0);
    var s := Triple(a, b, 0)[..3] + "=";
    assert s == [EncodeSextet(a / 4), EncodeSextet(a % 4 * 16 + b / 16), EncodeSextet(b % 16 * 4), '='];
  }

  lemma LastOfTriple(a: Byte, b: Byte, c: Byte)
    ensures LastQuad(Triple(a, b, c)) == Some([a, b, c])
  {
    TripleIsSafe(a, b, c);
    assert Triple(a, b, c)[3] in Triple(a, b, c);
    QuadRoundTrip(a, b, c);
  }

  lemma ShortRoundTrip(bytes: seq<Byte>)
    requires |bytes| < 3
    ensures Decode(Encode(bytes)) == Some(bytes) && |Encode(bytes)| % 4 == 0
  {
    if |bytes| == 1 {
      assert bytes == [bytes[0]];
      OneByteQuad(bytes[0]);
    } else if |bytes| == 2 {
      assert bytes == [bytes[0], bytes[1]];
      TwoByteQuad(bytes[0], bytes[1]);
    }
  }

  lemma EncodeStep(bytes: seq<Byte>)
    requires |bytes| >= 3
    ensures Encode(bytes) == Triple(bytes[0], bytes[1], bytes[2]) + Encode(bytes[3..])
  {
  }

  lemma FirstThree(bytes: seq<Byte>)
    requires |bytes| >= 3
    ensures bytes == [bytes[0], bytes[1], bytes[2]] + bytes[3..]
  {
  }

  lemma {:induction false} PaddedRoundTrip(bytes: seq<Byte>)
    ensures Decode(Encode(bytes)) == Some(bytes) && |Encode(bytes)| % 4 == 0
  {
    if |bytes| < 3 {
      ShortRoundTrip(bytes);
    } else {
      PaddedRoundTrip(bytes[3..]);
      EncodeStep(bytes);
      FirstThree(bytes);
      DecodeAfter(bytes[0], bytes[1], bytes[2], Encode(bytes[3..]), bytes[3..]);
    }
  }

  lemma DecodeAfter(a: Byte, b: Byte, c: Byte, rest: string, tail: seq<Byte>)
    requires Decode(rest) == Some(tail) && |rest| % 4 == 0
    ensures Decode(Triple(a, b, c) + rest) == Some([a, b, c] + tail)
    ensures |Triple(a, b, c) + rest| % 4 == 0
  {
    var start := Triple(a, b, c);
    if rest == [] {
      assert start + rest == start && [a, b, c] + tail == [a, b, c];
      LastOfTriple(a, b, c);
    } else {
      assert (start + rest)[..4] == start && (start + rest)[4..] == rest;
      QuadRoundTrip(a, b, c);
    }
  }

  // The unpadded text: as many characters as the bytes need, all of the alphabet.
  function Unpadded(bytes: seq<Byte>): string {
    StripPadding(Encode(bytes))
  }

  lemma StripOne(s: string)
    ensures StripPadding(s + "=") == StripPadding(s)
  {
    assert (s + "=")[..|s|] == s;
  }

  lemma StripAppend(s: string, t: string)
    requires t == [] || t == "=" || t == "=="
    requires s != [] ==> s[|s| - 1] != '='
    ensures StripPadding(s + t) == s
  {
    StripOne(s);
    if t == [] {
      assert s + t == s;
    } else if t == "==" {
      StripOne(s + "=");
      assert s + t == s + "=" + "=";
    }
  }

  function Core(bytes: seq<Byte>): string {
    if bytes == [] then []
    else if |bytes| == 1 then Triple(bytes[0], 0, 0)[..2]
    else if |bytes| == 2 then Triple(bytes[0], bytes[1], 0)[..3]
    else Triple(bytes[0], bytes[1], bytes[2]) + Core(bytes[3..])
  }

  lemma {:induction false} CoreMeans(bytes: seq<Byte>)
    ensures Encode(bytes) == Pad(Core(bytes)) && |Pad(Core(bytes))| - |Core(bytes)| <= 2
    ensures forall c :: c in Core(bytes) ==> UrlSafe(c)
    ensures |Core(bytes)| >= |bytes| + |bytes| / 3
  {
    if |bytes| == 0 {
    } else if |bytes| == 1 {
      TripleIsSafe(bytes[0], 0, 0);
    } else if |bytes| == 2 {
      TripleIsSafe(bytes[0], bytes[1], 0);
    } else {
      CoreMeans(bytes[3..]);
      TripleIsSafe(bytes[0], bytes[1], bytes[2]);
      PadAfter(Triple(bytes[0], bytes[1], bytes[2]), Core(bytes[3..]));
    }
  }

  lemma PadAfter(start: string, rest: string)
    requires |start| == 4
    ensures Pad(start + rest) == start + Pad(rest)
  {
    assert |start + rest| % 4 == |rest| % 4;
  }

  lemma UnpaddedIsCore(bytes: seq<Byte>)
    ensures Unpadded(bytes) == Core(bytes)
  {
    CoreMeans(bytes);
    var core := Core(bytes);
    if core != [] {
      assert core[|core| - 1] in core;
    }
    var padding := Pad(core)[|core|..];
    assert Pad(core) == core + padding;
    StripAppend(core, padding);
  }

  // Padding by length and decoding gives the bytes back.
  lemma UnpaddedRoundTrip(bytes: seq<Byte>)
    ensures Decode(Pad(Unpadded(bytes))) == Some(bytes)
    ensures forall c :: c in Unpadded(bytes) ==> UrlSafe(c)
    ensures |Unpadded(bytes)| >= |bytes| + |bytes| / 3
  {
    UnpaddedIsCore(bytes);
    CoreMeans(bytes);
    PaddedRoundTrip(bytes);
  }
}
