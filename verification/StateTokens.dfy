/** Signed state tokens: base64url without padding, a dot, and a signature over the first part. */
module StateTokens {
  import opened Collections
  import opened Text

  // ---- Base64 with the URL-safe alphabet (section 5 of RFC 4648) -----------------------------

  function Digit(v: int): char
    requires 0 <= v < 64
  {
    if v < 26 then 'A' + v as char
    else if v < 52 then 'a' + (v - 26) as char
    else if v < 62 then '0' + (v - 52) as char
    else if v == 62 then '-' else '_'
  }

  function Value(c: char): Option<Sextet> {
    if 'A' <= c <= 'Z' then Some((c - 'A') as int)
    else if 'a' <= c <= 'z' then Some((c - 'a') as int + 26)
    else if '0' <= c <= '9' then Some((c - '0') as int + 52)
    else if c == '-' then Some(62)
    else if c == '_' then Some(63)
    else None
  }

  lemma DigitValue(v: int)
    requires 0 <= v < 64
    ensures Value(Digit(v)) == Some(v) && Digit(v) != '=' && Digit(v) != '.' && Digit(v) < 128 as char
  {
  }

  function Group1(x: Byte): string {
    [Digit(x / 4), Digit(x % 4 * 16), '=', '=']
  }

  function Group2(x: Byte, y: Byte): string {
    [Digit(x / 4), Digit(x % 4 * 16 + y / 16), Digit(y % 16 * 4), '=']
  }

  function Group3(x: Byte, y: Byte, z: Byte): string {
    [Digit(x / 4), Digit(x % 4 * 16 + y / 16), Digit(y % 16 * 4 + z / 64), Digit(z % 64)]
  }

  /** Three bytes make four digits; a short last group is padded with '='. */
  function Encode(bs: seq<Byte>): string {
    if |bs| == 0 then ""
    else if |bs| == 1 then Group1(bs[0])
    else if |bs| == 2 then Group2(bs[0], bs[1])
    else Group3(bs[0], bs[1], bs[2]) + Encode(bs[3..])
  }

  type Sextet = v: int | 0 <= v < 64

  function Byte0(w: Sextet, x: Sextet): Byte {
    var hi: int, lo: int := w, x; hi * 4 + lo / 16
  }

  function Byte1(x: Sextet, y: Sextet): Byte {
    var hi: int, lo: int := x, y; hi % 16 * 16 + lo / 4
  }

  function Byte2(y: Sextet, z: Sextet): Byte {
    var hi: int, lo: int := y, z; hi % 4 * 64 + lo
  }

  /** The bytes of a group of four characters, of which at most the last two are '='. */
  function JoinGroup(a: Option<Sextet>, b: Option<Sextet>, c: Option<Sextet>, d: Option<Sextet>, cPad: bool, dPad: bool): Option<seq<Byte>> {
    match (a, b, c, d)
    case (Some(w), Some(x), Some(y), Some(z)) => Some([Byte0(w, x), Byte1(x, y), Byte2(y, z)])
    case (Some(w), Some(x), Some(y), None) => if dPad then Some([Byte0(w, x), Byte1(x, y)]) else None
    case (Some(w), Some(x), None, None) => if cPad && dPad then Some([Byte0(w, x)]) else None
    case _ => None
  }

  function DecodeGroup(s: string): Option<seq<Byte>>
    requires |s| == 4
  {
    JoinGroup(Value(s[0]), Value(s[1]), Value(s[2]), Value(s[3]), s[2] == '=', s[3] == '=')
  }

  function Decode(s: string): Option<seq<Byte>> {
    if s == "" then Some([])
    else if |s| < 4 then None
    else
      match (DecodeGroup(s[..4]), Decode(s[4..]))
      case (Some(group), Some(rest)) => Some(group + rest)
      case _ => None
  }

  lemma Carry16(high: int, low: int)
    requires 0 <= high && 0 <= low < 16
    ensures (high * 16 + low) / 16 == high && (high * 16 + low) % 16 == low
  {
  }

  lemma Carry4(high: int, low: int)
    requires 0 <= high && 0 <= low < 4
    ensures (high * 4 + low) / 4 == high && (high * 4 + low) % 4 == low
  {
  }

  lemma FirstByte(x: Byte, y: Byte)
    ensures Byte0(x / 4, x % 4 * 16 + y / 16) == x
  {
    Carry16(x % 4, y / 16);
  }

  lemma SecondByte(x: Byte, y: Byte, z: Byte)
    ensures Byte1(x % 4 * 16 + y / 16, y % 16 * 4 + z / 64) == y
  {
    Carry16(x % 4, y / 16);
    Carry4(y % 16, z / 64);
  }

  lemma ThirdByte(y: Byte, z: Byte)
    ensures Byte2(y % 16 * 4 + z / 64, z % 64) == z
  {
    Carry4(y % 16, z / 64);
  }

  lemma JoinThree(x: Byte, y: Byte, z: Byte)
    ensures JoinGroup(Some(x / 4), Some(x % 4 * 16 + y / 16), Some(y % 16 * 4 + z / 64), Some(z % 64), false, false) == Some([x, y, z])
  {
    FirstByte(x, y);
    SecondByte(x, y, z);
    ThirdByte(y, z);
  }

  lemma GroupOfThree(x: Byte, y: Byte, z: Byte)
    ensures DecodeGroup(Group3(x, y, z)) == Some([x, y, z]) && IsDigits(Group3(x, y, z))
  {
    DigitValue(x / 4);
    DigitValue(x % 4 * 16 + y / 16);
    DigitValue(y % 16 * 4 + z / 64);
    DigitValue(z % 64);
    JoinThree(x, y, z);
  }

  lemma GroupOfTwo(x: Byte, y: Byte)
    ensures DecodeGroup(Group2(x, y)) == Some([x, y])
    ensures IsDigits(Group2(x, y)[..3]) && Group2(x, y) == Group2(x, y)[..3] + Pad(1)
  {
    DigitValue(x / 4);
    DigitValue(x % 4 * 16 + y / 16);
    DigitValue(y % 16 * 4);
    FirstByte(x, y);
    SecondByte(x, y, 0);
  }

  lemma GroupOfOne(x: Byte)
    ensures DecodeGroup(Group1(x)) == Some([x])
    ensures IsDigits(Group1(x)[..2]) && Group1(x) == Group1(x)[..2] + Pad(2)
  {
    DigitValue(x / 4);
    DigitValue(x % 4 * 16);
  }

  lemma DecodeStep(group: string, tail: string, bytes: seq<Byte>, rest: seq<Byte>)
    requires |group| == 4 && DecodeGroup(group) == Some(bytes) && Decode(tail) == Some(rest)
    ensures Decode(group + tail) == Some(bytes + rest)
  {
    var s := group + tail;
    assert s[..4] == group && s[4..] == tail;
  }

  lemma DecodeGroupAlone(group: string, bytes: seq<Byte>)
    requires |group| == 4 && DecodeGroup(group) == Some(bytes)
    ensures Decode(group) == Some(bytes)
  {
    assert group[..4] == group && group[4..] == "" && bytes + [] == bytes;
  }

  lemma DecodeEncodeShort(bs: seq<Byte>)
    requires 1 <= |bs| <= 2
    ensures Decode(Encode(bs)) == Some(bs)
  {
    if |bs| == 1 {
      GroupOfOne(bs[0]);
      assert bs == [bs[0]];
      DecodeGroupAlone(Group1(bs[0]), bs);
    } else {
      GroupOfTwo(bs[0], bs[1]);
      assert bs == [bs[0], bs[1]];
      DecodeGroupAlone(Group2(bs[0], bs[1]), bs);
    }
  }

  lemma {:induction false} DecodeEncode(bs: seq<Byte>)
    ensures Decode(Encode(bs)) == Some(bs)
    decreases |bs|
  {
    if 1 <= |bs| <= 2 {
      DecodeEncodeShort(bs);
    } else if |bs| > 2 {
      DecodeEncode(bs[3..]);
      DecodeFull(bs, Encode(bs[3..]));
    }
  }

  lemma DecodeFull(bs: seq<Byte>, tail: string)
    requires |bs| > 2 && Decode(tail) == Some(bs[3..])
    ensures Decode(Group3(bs[0], bs[1], bs[2]) + tail) == Some(bs)
  {
    GroupOfThree(bs[0], bs[1], bs[2]);
    DecodeStep(Group3(bs[0], bs[1], bs[2]), tail, [bs[0], bs[1], bs[2]], bs[3..]);
    assert [bs[0], bs[1], bs[2]] + bs[3..] == bs;
  }

  // ---- Padding off and on --------------------------------------------------------------------

  function Pad(n: nat): string {
    seq(n, _ => '=')
  }

  function StripPad(s: string): string {
    if s != [] && Last(s) == '=' then StripPad(Init(s)) else s
  }

  function B64Encode(raw: seq<Byte>): string {
    StripPad(Encode(raw))
  }

  /** Pads to a multiple of four. */
  function Repad(s: string): string {
    s + Pad(-|s| % 4)
  }

  function B64Decode(s: string): Option<seq<Byte>> {
    Decode(Repad(s))
  }

  ghost predicate IsDigits(s: string) {
    forall i | 0 <= i < |s| :: Value(s[i]).Some? && s[i] != '.' && s[i] != '=' && s[i] < 128 as char
  }

  ghost predicate Padded(s: string, body: string, pads: nat) {
    s == body + Pad(pads) && pads <= 2 && (|body| + pads) % 4 == 0 && IsDigits(body)
  }

  lemma EncodeShapeShort(bs: seq<Byte>) returns (body: string, pads: nat)
    requires |bs| <= 2
    ensures Padded(Encode(bs), body, pads)
  {
    if |bs| == 0 {
      body, pads := "", 0;
    } else if |bs| == 1 {
      GroupOfOne(bs[0]);
      body, pads := Group1(bs[0])[..2], 2;
    } else {
      GroupOfTwo(bs[0], bs[1]);
      body, pads := Group2(bs[0], bs[1])[..3], 1;
    }
  }

  /** An encoding is digits followed by at most two pads, a multiple of four in all. */
  lemma {:induction false} EncodeShape(bs: seq<Byte>) returns (body: string, pads: nat)
    ensures Padded(Encode(bs), body, pads)
    decreases |bs|
  {
    if |bs| <= 2 {
      body, pads := EncodeShapeShort(bs);
    } else {
      GroupOfThree(bs[0], bs[1], bs[2]);
      var rest;
      rest, pads := EncodeShape(bs[3..]);
      GroupThenRest(Group3(bs[0], bs[1], bs[2]), rest, pads);
      body := Group3(bs[0], bs[1], bs[2]) + rest;
    }
  }

  lemma GroupThenRest(group: string, rest: string, pads: nat)
    requires |group| == 4 && IsDigits(group) && Padded(rest + Pad(pads), rest, pads)
    ensures Padded(group + (rest + Pad(pads)), group + rest, pads)
  {
  }

  lemma {:induction false} StripUndoesPad(body: string, pads: nat)
    requires IsDigits(body)
    ensures StripPad(body + Pad(pads)) == body
  {
    if pads == 0 {
      assert body + Pad(0) == body;
    } else {
      var s := body + Pad(pads);
      assert Last(s) == '=' && Init(s) == body + Pad(pads - 1);
      StripUndoesPad(body, pads - 1);
    }
  }

  /** Re-padding undoes padding removal, for every byte string. */
  lemma B64RoundTrip(raw: seq<Byte>)
    ensures B64Decode(B64Encode(raw)) == Some(raw)
    ensures IsDigits(B64Encode(raw))
  {
    var body, pads := EncodeShape(raw);
    StripUndoesPad(body, pads);
    Repads(body, pads);
    DecodeEncode(raw);
  }

  lemma Repads(body: string, pads: nat)
    requires pads <= 2 && (|body| + pads) % 4 == 0
    ensures Repad(body) == body + Pad(pads)
  {
    PadLength(|body|, pads);
  }

  lemma PadLength(n: int, pads: nat)
    requires n >= 0 && pads <= 2 && (n + pads) % 4 == 0
    ensures -n % 4 == pads
  {
  }

  // ---- Tokens ------------------------------------------------------------------------------------

  datatype Json = Int(value: int) | Str(text: string) | Other(json: string)

  type Claims = map<string, Json>

  /** JSON and the keyed hash, left abstract. */
  datatype Codec = Codec(
    dumps: Claims -> seq<Byte>,
    loads: seq<Byte> -> Option<Claims>,
    sign: (string, string) -> seq<Byte>)

  datatype TokenError = Malformed | NotAscii | BadSignature | NotJson | Expired

  /** The payload before signing: extra claims override the nonce and the expiry. */
  function Payload(nonce: string, now: real, lifetime: int, extra: Claims): Claims {
    map["nonce" := Str(nonce), "exp" := Int((now + lifetime as real).Floor)] + extra
  }

  function Envelope(codec: Codec, key: string, payload: string): string {
    payload + "." + B64Encode(codec.sign(key, payload))
  }

  function MakeToken(codec: Codec, key: string, claims: Claims): string {
    Envelope(codec, key, B64Encode(codec.dumps(claims)))
  }

  function FirstDot(s: string): nat {
    if s == [] || s[0] == '.' then 0 else 1 + FirstDot(s[1..])
  }

  predicate Ascii(s: string) {
    forall c | c in s :: c < 128 as char
  }

  /** The expiry claim is an integer no earlier than the current whole second. */
  predicate Fresh(claims: Claims, now: real) {
    "exp" in claims && claims["exp"].Int? && claims["exp"].value >= now.Floor
  }

  function VerifyToken(codec: Codec, key: string, token: string, now: real): Result<Claims, TokenError> {
    var dot := FirstDot(token);
    if dot >= |token| then Failure(Malformed)
    else
      var payload, signature := token[..dot], token[dot + 1..];
      if !Ascii(payload) || !Ascii(signature) then Failure(NotAscii)
      else if signature != B64Encode(codec.sign(key, payload)) then Failure(BadSignature)
      else
        match B64Decode(payload)
        case None => Failure(NotJson)
        case Some(raw) =>
          match codec.loads(raw)
          case None => Failure(NotJson)
          case Some(claims) => if Fresh(claims, now) then Success(claims) else Failure(Expired)
  }

  lemma {:induction false} FirstDotSplits(payload: string, rest: string)
    requires '.' !in payload
    ensures FirstDot(payload + "." + rest) == |payload|
  {
    var s := payload + "." + rest;
    if payload != [] {
      assert s[1..] == payload[1..] + "." + rest;
      FirstDotSplits(payload[1..], rest);
    }
  }

  lemma {:induction false} FirstDotIs(s: string)
    ensures FirstDot(s) <= |s| && '.' !in s[..FirstDot(s)]
    ensures FirstDot(s) < |s| ==> s[FirstDot(s)] == '.'
  {
    if s != [] && s[0] != '.' {
      FirstDotIs(s[1..]);
      assert s[..FirstDot(s)] == [s[0]] + s[1..][..FirstDot(s[1..])];
    }
  }

  lemma DigitsAreAscii(s: string)
    requires IsDigits(s)
    ensures Ascii(s) && '.' !in s
  {
  }

  /** The first dot of an envelope always splits payload from signature. */
  lemma EnvelopeSplits(codec: Codec, key: string, payload: string)
    requires '.' !in payload
    ensures
      var token := Envelope(codec, key, payload);
      && FirstDot(token) == |payload| < |token|
      && token[..|payload|] == payload
      && token[|payload| + 1..] == B64Encode(codec.sign(key, payload))
  {
    FirstDotSplits(payload, B64Encode(codec.sign(key, payload)));
  }

  /** Verifying a made token gives back its claims while they are fresh, and reports expiry after. */
  lemma TokenRoundTrip(codec: Codec, key: string, claims: Claims, now: real)
    requires codec.loads(codec.dumps(claims)) == Some(claims)
    ensures VerifyToken(codec, key, MakeToken(codec, key, claims), now) ==
            if Fresh(claims, now) then Success(claims) else Failure(Expired)
  {
    var payload := B64Encode(codec.dumps(claims));
    B64RoundTrip(codec.dumps(claims));
    B64RoundTrip(codec.sign(key, payload));
    DigitsAreAscii(payload);
    DigitsAreAscii(B64Encode(codec.sign(key, payload)));
    EnvelopeSplits(codec, key, payload);
  }

  lemma AsciiParts(a: string, b: string)
    ensures Ascii(a + "." + b) <==> Ascii(a) && Ascii(b)
  {
    assert forall c :: c in a + "." + b <==> c in a || c == '.' || c in b;
  }

  /** The error that is no state error arises exactly for a token with a dot and a character outside ASCII. */
  lemma NotAsciiIff(codec: Codec, key: string, token: string, now: real)
    ensures VerifyToken(codec, key, token, now) == Failure(NotAscii) <==> '.' in token && !Ascii(token)
  {
    var dot := FirstDot(token);
    FirstDotIs(token);
    if dot < |token| {
      assert token == token[..dot] + "." + token[dot + 1..];
      AsciiParts(token[..dot], token[dot + 1..]);
    } else {
      TakeAll(token, dot);
    }
  }

  lemma AcceptedIsSigned(codec: Codec, key: string, token: string, now: real, claims: Claims)
    requires VerifyToken(codec, key, token, now) == Success(claims)
    ensures Fresh(claims, now) && SignedPayload(codec, key, token, token[..FirstDot(token)], claims)
  {
    var dot := FirstDot(token);
    FirstDotIs(token);
    assert token == token[..dot] + "." + token[dot + 1..];
  }

  lemma SignedIsAccepted(codec: Codec, key: string, token: string, payload: string, now: real, claims: Claims)
    requires SignedPayload(codec, key, token, payload, claims) && Fresh(claims, now)
    ensures VerifyToken(codec, key, token, now) == Success(claims)
  {
    EnvelopeSplits(codec, key, payload);
    B64RoundTrip(codec.sign(key, payload));
    DigitsAreAscii(B64Encode(codec.sign(key, payload)));
  }

  /** A token is accepted exactly when it is the signed envelope of a payload with fresh claims. */
  lemma AcceptedIffSigned(codec: Codec, key: string, token: string, now: real, claims: Claims)
    ensures VerifyToken(codec, key, token, now) == Success(claims) <==>
            exists payload :: SignedPayload(codec, key, token, payload, claims) && Fresh(claims, now)
  {
    if VerifyToken(codec, key, token, now) == Success(claims) {
      AcceptedIsSigned(codec, key, token, now, claims);
    }
    if payload :| SignedPayload(codec, key, token, payload, claims) && Fresh(claims, now) {
      SignedIsAccepted(codec, key, token, payload, now, claims);
    }
  }

  ghost predicate SignedPayload(codec: Codec, key: string, token: string, payload: string, claims: Claims) {
    && '.' !in payload && Ascii(payload)
    && token == Envelope(codec, key, payload)
    && B64Decode(payload).Some? && codec.loads(B64Decode(payload).value) == Some(claims)
  }

  /** Without an overriding claim, a made token is accepted up to and including its expiry second. */
  lemma MadeTokenLives(codec: Codec, key: string, nonce: string, issued: real, lifetime: int, extra: Claims, now: real)
    requires "exp" !in extra
    requires var claims := Payload(nonce, issued, lifetime, extra); codec.loads(codec.dumps(claims)) == Some(claims)
    ensures
      var claims := Payload(nonce, issued, lifetime, extra);
      VerifyToken(codec, key, MakeToken(codec, key, claims), now) ==
      if now.Floor <= (issued + lifetime as real).Floor then Success(claims) else Failure(Expired)
  {
    TokenRoundTrip(codec, key, Payload(nonce, issued, lifetime, extra), now);
  }

  // ---- The exact spelling -----------------------------------------------------------------------------

  const ALPHABET := UPPERCASE + LOWERCASE + DIGITS + "-_"

  lemma DigitIs(v: int)
    requires 0 <= v < 64
    ensures |ALPHABET| == 64 && Digit(v) == ALPHABET[v]
  {
    LetterIs(if v < 26 then v else if v < 52 then v - 26 else 0);
    DecimalIs(if 52 <= v < 62 then v - 52 else 0);
  }

  ghost function NumberOf(a: Sextet, b: Sextet, c: Sextet, d: Sextet): int {
    var w: int, x: int, y: int, z: int := a, b, c, d;
    ((w * 64 + x) * 64 + y) * 64 + z
  }

  /** Four characters spell, in the URL-safe alphabet, the number that three bytes make. */
  lemma GroupSpells(x: Byte, y: Byte, z: Byte) returns (a: Sextet, b: Sextet, c: Sextet, d: Sextet)
    ensures Group3(x, y, z) == [ALPHABET[a], ALPHABET[b], ALPHABET[c], ALPHABET[d]]
    ensures NumberOf(a, b, c, d) == (x as int * 256 + y) * 256 + z
  {
    a, b, c, d := x / 4, x % 4 * 16 + y / 16, y % 16 * 4 + z / 64, z % 64;
    DigitIs(a);
    DigitIs(b);
    DigitIs(c);
    DigitIs(d);
  }

  /** Encoding goes group by group; a last group of one or two bytes keeps the characters that spell it and is filled with '='. */
  lemma EncodeSpells(x: Byte, y: Byte, z: Byte, rest: seq<Byte>)
    ensures Encode([]) == "" && Encode([x, y, z] + rest) == Group3(x, y, z) + Encode(rest)
    ensures Encode([x]) == Group3(x, 0, 0)[..2] + "==" && Encode([x, y]) == Group3(x, y, 0)[..3] + "="
  {
    assert ([x, y, z] + rest)[3..] == rest;
  }

  /** A made token carries its nonce and expiry, unless an extra claim overrides them, and every extra claim. */
  lemma PayloadHolds(nonce: string, issued: real, lifetime: int, extra: Claims)
    ensures
      var claims := Payload(nonce, issued, lifetime, extra);
      && claims.Keys == {"nonce", "exp"} + extra.Keys
      && (forall k | k in extra :: claims[k] == extra[k])
      && ("nonce" !in extra ==> claims["nonce"] == Str(nonce))
      && ("exp" !in extra ==> claims["exp"] == Int((issued + lifetime as real).Floor))
  {
  }

  /** Which error a refused token gets: no dot, then foreign characters, then the signature, then the payload, then the expiry. */
  lemma RefusalIs(codec: Codec, key: string, payload: string, signature: string, now: real)
    requires '.' !in payload
    ensures VerifyToken(codec, key, payload, now) == Failure(Malformed)
    ensures
      var r := VerifyToken(codec, key, payload + "." + signature, now);
      if !Ascii(payload) || !Ascii(signature) then r == Failure(NotAscii)
      else if signature != B64Encode(codec.sign(key, payload)) then r == Failure(BadSignature)
      else if B64Decode(payload).None? || codec.loads(B64Decode(payload).value).None? then r == Failure(NotJson)
      else
        var claims := codec.loads(B64Decode(payload).value).value;
        if "exp" in claims && claims["exp"].Int? && now.Floor <= claims["exp"].value then r == Success(claims) else r == Failure(Expired)
  {
    FirstDotIs(payload);
    FirstDotSplits(payload, signature);
    var token := payload + "." + signature;
    assert token[..|payload|] == payload && token[|payload| + 1..] == signature;
  }
}
