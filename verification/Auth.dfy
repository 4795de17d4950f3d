/** The JWT expiry reader of `src/auth.rs`, with its hand-written base64 decoder.

    A Rust string is its sequence of UTF-8 bytes. The encoder below is section 5
    of RFC 4648 without padding, as section 2 of RFC 7515 asks for; the source
    has no encoder, and this one is the reference the decoder is proved against. */
module Auth {
  import opened Wrappers
  import opened Text

  const DOT: byte := 0x2E
  const PAD: byte := 0x3D

  datatype JwtError = JwtMissingExp | Json

  // ----- Segments -----

  /** The payload of a token: `split('.').nth(1)`. */
  function PayloadSegment(token: text): Option<text> {
    var segments := Split(DOT, token);
    if |segments| > 1 then Some(segments[1]) else None
  }

  /** For a dot-free header and a dot-free payload, the payload is selected,
      whatever follows it. */
  lemma SelectsPayload(h: text, p: text, s: text)
    requires 0x2E !in h && 0x2E !in p
    ensures PayloadSegment(h + [0x2E] + p + [0x2E] + s) == Some(p)
    ensures PayloadSegment(h + [0x2E] + p) == Some(p)
  {
    SplitWithoutSep(DOT, h);
    SplitWithoutSep(DOT, p);
    SplitConcat(DOT, h, p);
    SplitConcat(DOT, h + [DOT] + p, s);
  }

  /** There is a payload exactly when there is a dot. */
  lemma PayloadIffDot(token: text)
    ensures PayloadSegment(token).Some? <==> 0x2E in token
  {
    if DOT !in token {
      SplitWithoutSep(DOT, token);
    } else {
      SplitJoins(DOT, token);
    }
  }

  /** `p` stands between the first dot of the token and the second one, or the end. */
  ghost predicate IsPayload(token: text, p: text) {
    exists h: text, rest: text ::
      && 0x2E !in h && 0x2E !in p && (rest == [] || rest[0] == 0x2E)
      && token == h + [0x2E] + p + rest
  }

  /** Every token with a dot has a payload, and it is the one selected. */
  lemma HasPayload(token: text) returns (p: text)
    requires 0x2E in token
    ensures IsPayload(token, p) && PayloadSegment(token) == Some(p)
  {
    PayloadIffDot(token);
    var segments := Split(DOT, token);
    SplitJoins(DOT, token);
    p := segments[1];
    var rest := JoinTwo(DOT, segments);
    assert 0x2E !in segments[0] && 0x2E !in p && token == segments[0] + [0x2E] + p + rest;
  }

  lemma OnlyPayload(token: text, p: text)
    requires IsPayload(token, p)
    ensures PayloadSegment(token) == Some(p)
  {
    var h: text, rest: text :|
      && 0x2E !in h && 0x2E !in p && (rest == [] || rest[0] == 0x2E)
      && token == h + [0x2E] + p + rest;
    SelectsPayload(h, p, if rest == [] then [] else rest[1..]);
    if rest == [] {
      assert h + [0x2E] + p + rest == h + [0x2E] + p;
    } else {
      assert rest == [0x2E] + rest[1..];
      assert h + [0x2E] + p + rest == h + [0x2E] + p + [0x2E] + rest[1..];
    }
  }

  // ----- Base64 -----

  /** Position of a character in the table; 0 for `=` and for anything else. */
  function Val(c: byte): byte {
    if 0x41 <= c <= 0x5A then c - 0x41
    else if 0x61 <= c <= 0x7A then c - 0x61 + 26
    else if 0x30 <= c <= 0x39 then c - 0x30 + 52
    else if c == 0x2B then 62
    else if c == 0x2F then 63
    else 0
  }

  /** The character of a 6-bit value in the URL-safe alphabet. */
  function UrlChar(v: byte): byte {
    if v < 26 then v + 0x41
    else if v < 52 then v - 26 + 0x61
    else if v < 62 then v - 52 + 0x30
    else if v == 62 then 0x2D
    else 0x5F
  }

  /** `replace('-', "+").replace('_', "/")` on one character. */
  function NormalizeChar(c: byte): byte {
    if c == 0x2D then 0x2B else if c == 0x5F then 0x2F else c
  }

  function Normalize(s: text): (r: text)
    ensures |r| == |s|
  {
    seq(|s|, i requires 0 <= i < |s| => NormalizeChar(s[i]))
  }

  /** The URL-safe alphabet of section 5 of RFC 4648, from `A` to `Z`, `a` to `z`,
      `0` to `9`, then `-` and `_`. */
  lemma UrlAlphabet(v: byte)
    ensures UrlChar(0) == 0x41 && UrlChar(26) == 0x61 && UrlChar(52) == 0x30
    ensures UrlChar(62) == 0x2D && UrlChar(63) == 0x5F
    ensures v < 61 && v != 25 && v != 51 ==> UrlChar(v + 1) == UrlChar(v) + 1
  {
  }

  /** The table of the decoder: the same letters and digits, then `+` and `/`;
      any other character counts as 0. */
  lemma Table(c: byte)
    ensures Val(0x41) == 0 && Val(0x61) == 26 && Val(0x30) == 52 && Val(0x2B) == 62 && Val(0x2F) == 63
    ensures (0x41 <= c < 0x5A || 0x61 <= c < 0x7A || 0x30 <= c < 0x39) ==> Val(c + 1) == Val(c) + 1
    ensures Val(c) != 0 ==> 0x41 <= c <= 0x5A || 0x61 <= c <= 0x7A || 0x30 <= c <= 0x39 || c == 0x2B || c == 0x2F
  {
  }

  lemma ValOfChar(v: byte)
    requires v < 64
    ensures Val(NormalizeChar(UrlChar(v))) == v
    ensures NormalizeChar(UrlChar(v)) != PAD && UrlChar(v) != DOT
  {
  }

  function First(a: byte, b: byte): byte {
    (a << 2) | (b >> 4)
  }

  function Second(b: byte, c: byte): byte {
    (b << 4) | (c >> 2)
  }

  function Third(c: byte, d: byte): byte {
    (c << 6) | d
  }

  /** The bytes that four values stand for; padding drops the second or the third. */
  function Bytes(a: byte, b: byte, c: byte, d: byte, noSecond: bool, noThird: bool): text {
    [First(a, b)] + (if noSecond then [] else [Second(b, c)]) + (if noThird then [] else [Third(c, d)])
  }

  /** The bytes of one group of four characters, in 8-bit arithmetic. */
  function Group(g0: byte, g1: byte, g2: byte, g3: byte): text {
    Bytes(Val(g0), Val(g1), Val(g2), Val(g3), g2 == PAD, g3 == PAD)
  }

  /** The 24 bits of four values as three bytes. */
  lemma BytesAre(a: byte, b: byte, c: byte, d: byte, noSecond: bool, noThird: bool)
    ensures Bytes(a, b, c, d, noSecond, noThird)
         == [(a << 2) | (b >> 4)]
            + (if noSecond then [] else [(b << 4) | (c >> 2)]) + (if noThird then [] else [(c << 6) | d])
  {
  }

  /** The second byte is missing exactly when the third character is `=`, and the
      third one exactly when the fourth is. */
  lemma GroupIs(g0: byte, g1: byte, g2: byte, g3: byte)
    ensures Group(g0, g1, g2, g3) == Bytes(Val(g0), Val(g1), Val(g2), Val(g3), g2 == 0x3D, g3 == 0x3D)
  {
  }

  /** Whole groups are decoded in order; a rest of less than four is dropped. */
  function Decoded(s: text): text {
    if |s| < 4 then [] else Group(s[0], s[1], s[2], s[3]) + Decoded(s[4..])
  }

  /** Decoding distributes over concatenation at group boundaries. */
  lemma {:induction false} DecodedConcat(a: text, b: text)
    requires |a| % 4 == 0
    ensures Decoded(a + b) == Decoded(a) + Decoded(b)
  {
    if a == [] {
      assert a + b == b;
    } else {
      DecodedConcat(a[4..], b);
      assert (a + b)[4..] == a[4..] + b;
      Associate(Group(a[0], a[1], a[2], a[3]), Decoded(a[4..]), Decoded(b));
    }
  }

  /** The pushes of one round of the loop. */
  method PushGroup(out: text, g0: byte, g1: byte, g2: byte, g3: byte) returns (r: text)
    ensures r == out + Group(g0, g1, g2, g3)
  {
    var a, b, c, d := Val(g0), Val(g1), Val(g2), Val(g3);
    r := out + [First(a, b)];
    if g2 != PAD {
      r := r + [Second(b, c)];
    }
    if g3 != PAD {
      r := r + [Third(c, d)];
    }
  }

  /** `decode_b64` */
  method DecodeB64(bytes: text) returns (out: text)
    ensures out == Decoded(bytes)
  {
    out := [];
    var i := 0;
    while i + 3 < |bytes|
      invariant 0 <= i <= |bytes|
      invariant out + Decoded(bytes[i..]) == Decoded(bytes)
    {
      ghost var before := out;
      out := PushGroup(out, bytes[i], bytes[i + 1], bytes[i + 2], bytes[i + 3]);
      GroupAt(bytes, i);
      Associate(before, Group(bytes[i], bytes[i + 1], bytes[i + 2], bytes[i + 3]), Decoded(bytes[i + 4..]));
      i := i + 4;
    }
  }

  lemma GroupAt(bytes: text, i: nat)
    requires i + 4 <= |bytes|
    ensures Decoded(bytes[i..])
         == Group(bytes[i], bytes[i + 1], bytes[i + 2], bytes[i + 3]) + Decoded(bytes[i + 4..])
  {
    assert bytes[i..][4..] == bytes[i + 4..];
  }

  function Padding(n: nat): text {
    if n % 4 == 0 then [] else if n % 4 == 1 then [PAD, PAD, PAD] else if n % 4 == 2 then [PAD, PAD] else [PAD]
  }

  /** The first half of `parse_exp_from_payload`: normalise and pad. */
  method NormalizeAndPad(payload: text) returns (buf: text)
    ensures buf == Normalize(payload) + Padding(|payload|)
    ensures |buf| % 4 == 0 && |payload| <= |buf| < |payload| + 4
    ensures forall i :: 0 <= i < |payload| ==>
              buf[i] == if payload[i] == 0x2D then 0x2B else if payload[i] == 0x5F then 0x2F else payload[i]
    ensures forall i :: |payload| <= i < |buf| ==> buf[i] == 0x3D
  {
    buf := Normalize(payload);
    ghost var k := 0;
    while |buf| % 4 != 0
      invariant |buf| == |payload| + k && k <= |Padding(|payload|)|
      invariant buf == Normalize(payload) + Padding(|payload|)[..k]
      decreases |Padding(|payload|)| - k
    {
      buf := buf + [PAD];
      k := k + 1;
    }
  }

  /** The bytes that `parse_exp_from_payload` hands to the JSON parser. */
  function PayloadBytes(payload: text): text {
    Decoded(Normalize(payload) + Padding(|payload|))
  }

  // ----- Reference encoder and round trip -----

  function Sextet0(x: byte): byte {
    x >> 2
  }

  function Sextet1(x: byte, y: byte): byte {
    ((x & 3) << 4) | (y >> 4)
  }

  function Sextet2(y: byte, z: byte): byte {
    ((y & 15) << 2) | (z >> 6)
  }

  function Sextet3(z: byte): byte {
    z & 63
  }

  /** The four characters of three bytes. */
  function Quad(x: byte, y: byte, z: byte): text {
    [UrlChar(Sextet0(x)), UrlChar(Sextet1(x, y)), UrlChar(Sextet2(y, z)), UrlChar(Sextet3(z))]
  }

  /** Base64url without padding. */
  function Encode(b: text): text {
    if |b| == 0 then []
    else if |b| == 1 then Quad(b[0], 0, 0)[..2]
    else if |b| == 2 then Quad(b[0], b[1], 0)[..3]
    else Quad(b[0], b[1], b[2]) + Encode(b[3..])
  }

  lemma Reassemble(x: byte, y: byte, z: byte)
    ensures Sextet0(x) < 64 && Sextet1(x, y) < 64 && Sextet2(y, z) < 64 && Sextet3(z) < 64
    ensures First(Sextet0(x), Sextet1(x, y)) == x
    ensures Second(Sextet1(x, y), Sextet2(y, z)) == y
    ensures Third(Sextet2(y, z), Sextet3(z)) == z
  {
  }

  /** What `Quad` promises once the 8-bit arithmetic is done. */
  lemma QuadChars(x: byte, y: byte, z: byte)
    ensures
      var q := Normalize(Quad(x, y, z));
      && |q| == 4 && PAD !in q && DOT !in Quad(x, y, z)
      && First(Val(q[0]), Val(q[1])) == x && Second(Val(q[1]), Val(q[2])) == y && Third(Val(q[2]), Val(q[3])) == z
  {
    Reassemble(x, y, z);
    ValOfChar(Sextet0(x));
    ValOfChar(Sextet1(x, y));
    ValOfChar(Sextet2(y, z));
    ValOfChar(Sextet3(z));
  }

  lemma {:induction false} EncodeShape(b: text)
    ensures |Encode(b)| == |b| / 3 * 4 + (if |b| % 3 == 0 then 0 else |b| % 3 + 1)
    ensures DOT !in Encode(b)
  {
    if |b| == 1 {
      QuadChars(b[0], 0, 0);
    } else if |b| == 2 {
      QuadChars(b[0], b[1], 0);
    } else if |b| > 2 {
      QuadChars(b[0], b[1], b[2]);
      EncodeShape(b[3..]);
    }
  }

  lemma FullGroup(x: byte, y: byte, z: byte)
    ensures Decoded(Normalize(Quad(x, y, z))) == [x, y, z]
  {
    QuadChars(x, y, z);
    var q := Normalize(Quad(x, y, z));
    assert q[4..] == [];
  }

  lemma OneByte(x: byte)
    ensures PayloadBytes(Quad(x, 0, 0)[..2]) == [x]
  {
    QuadChars(x, 0, 0);
    var q := Normalize(Quad(x, 0, 0));
    var buf := Normalize(Quad(x, 0, 0)[..2]) + Padding(2);
    assert buf == [q[0], q[1], PAD, PAD];
    assert buf[4..] == [];
    assert Decoded(buf) == Group(q[0], q[1], PAD, PAD) + [];
  }

  lemma TwoBytes(x: byte, y: byte)
    ensures PayloadBytes(Quad(x, y, 0)[..3]) == [x, y]
  {
    QuadChars(x, y, 0);
    var q := Normalize(Quad(x, y, 0));
    var buf := Normalize(Quad(x, y, 0)[..3]) + Padding(3);
    assert buf == [q[0], q[1], q[2], PAD];
    assert buf[4..] == [];
    assert Decoded(buf) == Group(q[0], q[1], q[2], PAD) + [];
  }

  lemma ThreeBytes(x: byte, y: byte, z: byte, rest: text)
    ensures PayloadBytes(Quad(x, y, z) + rest) == [x, y, z] + PayloadBytes(rest)
  {
    var quad := Quad(x, y, z);
    var tail := Normalize(rest) + Padding(|rest|);
    assert Padding(|quad + rest|) == Padding(|rest|);
    assert Normalize(quad + rest) + Padding(|rest|) == Normalize(quad) + tail;
    DecodedConcat(Normalize(quad), tail);
    FullGroup(x, y, z);
  }

  lemma EncodeThree(x: byte, y: byte, z: byte, rest: text)
    ensures Encode([x, y, z] + rest) == Quad(x, y, z) + Encode(rest)
  {
    assert ([x, y, z] + rest)[3..] == rest;
  }

  lemma FirstThree(x: byte, y: byte, z: byte, rest: text)
    requires PayloadBytes(Encode(rest)) == rest
    ensures PayloadBytes(Encode([x, y, z] + rest)) == [x, y, z] + rest
  {
    EncodeThree(x, y, z, rest);
    ThreeBytes(x, y, z, Encode(rest));
  }

  /** Normalising, padding and decoding undoes the encoding, for all bytes. */
  lemma {:induction false} DecodesEncoding(b: text)
    ensures PayloadBytes(Encode(b)) == b
  {
    if |b| == 0 {
      assert Normalize([]) + Padding(0) == [];
    } else if |b| == 1 {
      OneByte(b[0]);
    } else if |b| == 2 {
      TwoBytes(b[0], b[1]);
    } else {
      DecodesEncoding(b[3..]);
      FirstThree(b[0], b[1], b[2], b[3..]);
      assert [b[0], b[1], b[2]] + b[3..] == b;
    }
  }

  function ExpiryOf(token: text, readExp: text -> Result<int, JwtError>): Result<int, JwtError> {
    match PayloadSegment(token)
    case None => Failure(JwtMissingExp)
    case Some(payload) => readExp(PayloadBytes(payload))
  }

  /** `jwt_expires_at`; `readExp` stands for the JSON parser and its `exp` claim. */
  method JwtExpiresAt(token: text, readExp: text -> Result<int, JwtError>) returns (r: Result<int, JwtError>)
    ensures r == ExpiryOf(token, readExp)
    ensures 0x2E !in token ==> r == Failure(JwtMissingExp)
    ensures forall p: text :: IsPayload(token, p) ==> r == readExp(PayloadBytes(p))
  {
    PayloadIffDot(token);
    forall p: text | IsPayload(token, p)
      ensures PayloadSegment(token) == Some(p)
    {
      OnlyPayload(token, p);
    }
    var segment := PayloadSegment(token);
    if segment.None? {
      return Failure(JwtMissingExp);
    }
    var buf := NormalizeAndPad(segment.value);
    var bytes := DecodeB64(buf);
    return readExp(bytes);
  }

  /** End to end: on a compact JWT (section 7.1 of RFC 7515) the expiry is read
      from exactly the claims bytes that were encoded into it. */
  lemma ReadsEncodedClaims(
      header: text, claims: text, signature: text, readExp: text -> Result<int, JwtError>)
    ensures ExpiryOf(Encode(header) + [0x2E] + Encode(claims) + [0x2E] + Encode(signature), readExp) == readExp(claims)
  {
    EncodeShape(header);
    EncodeShape(claims);
    SelectsPayload(Encode(header), Encode(claims), Encode(signature));
    DecodesEncoding(claims);
  }
}
