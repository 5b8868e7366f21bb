/** The base64url encoding of section 5 of RFC 4648, with and without padding, and the reading of the enterprise
    id out of a JSON web token. */
module Base64Url {
  import opened Common
  import Text

  type Byte = b: int | 0 <= b < 256
  type Sextet = x: int | 0 <= x < 64

  function Letter(x: Sextet): (c: char) {
    if x < 26 then 'A' + x as char
    else if x < 52 then 'a' + (x - 26) as char
    else if x < 62 then '0' + (x - 52) as char
    else if x == 62 then '-' else '_'
  }

  function Value(c: char): Option<Sextet> {
    if 'A' <= c <= 'Z' then Some((c - 'A') as int)
    else if 'a' <= c <= 'z' then Some((c - 'a') as int + 26)
    else if '0' <= c <= '9' then Some((c - '0') as int + 52)
    else if c == '-' then Some(62)
    else if c == '_' then Some(63)
    else None
  }

  /** The URL-safe alphabet, table 2 of RFC 4648. */
  lemma LettersAreTheAlphabet(x: Sextet)
    ensures Letter(0) == 'A' && Letter(25) == 'Z' && Letter(26) == 'a' && Letter(51) == 'z'
    ensures Letter(52) == '0' && Letter(61) == '9' && Letter(62) == '-' && Letter(63) == '_'
    ensures x !in {25, 51, 61, 62, 63} ==> Letter(x + 1) as int == Letter(x) as int + 1
  {}

  /** Four letters spell the 24 bits of three bytes, first bits first. */
  lemma QuadSpellsTheBits(x: Byte, y: Byte, z: Byte)
    ensures var q := Quad(x, y, z);
            && (forall i :: 0 <= i < 4 ==> Value(q[i]).Some?)
            && ((Value(q[0]).value * 64 + Value(q[1]).value) * 64 + Value(q[2]).value) * 64 + Value(q[3]).value
               == (x * 256 + y) * 256 + z
  {
    LetterRoundTrip(x / 4);
    LetterRoundTrip(x % 4 * 16 + y / 16);
    LetterRoundTrip(y % 16 * 4 + z / 64);
    LetterRoundTrip(z % 64);
    hide Letter, Value;
  }

  lemma LetterRoundTrip(x: Sextet)
    ensures Value(Letter(x)) == Some(x)
    ensures Letter(x) !in ['.', '=', '\n', '\r']
  {}

  /** The four letters that carry three bytes. */
  function Quad(x: Byte, y: Byte, z: Byte): string {
    [Letter(x / 4), Letter(x % 4 * 16 + y / 16), Letter(y % 16 * 4 + z / 64), Letter(z % 64)]
  }

  /** The three bytes that four letters carry. */
  function Triple(a: Sextet, b: Sextet, c: Sextet, d: Sextet): seq<Byte> {
    [a * 4 + b / 16, b % 16 * 16 + c / 4, c % 4 * 64 + d]
  }

  lemma Regroup(x: Byte, y: Byte, z: Byte)
    ensures Triple(x / 4, x % 4 * 16 + y / 16, y % 16 * 4 + z / 64, z % 64) == [x, y, z]
  {}

  lemma TripleOfQuad(x: Byte, y: Byte, z: Byte)
    ensures var q := Quad(x, y, z);
            && Value(q[0]).Some? && Value(q[1]).Some? && Value(q[2]).Some? && Value(q[3]).Some?
            && Triple(Value(q[0]).value, Value(q[1]).value, Value(q[2]).value, Value(q[3]).value) == [x, y, z]
  {
    hide Letter, Value, Triple;
    Regroup(x, y, z);
    LetterRoundTrip(x / 4);
    LetterRoundTrip(x % 4 * 16 + y / 16);
    LetterRoundTrip(y % 16 * 4 + z / 64);
    LetterRoundTrip(z % 64);
  }

  /** Encoding without padding (`base64.RawURLEncoding`). */
  function EncodeRaw(b: seq<Byte>): string {
    if |b| == 0 then ""
    else if |b| == 1 then Quad(b[0], 0, 0)[..2]
    else if |b| == 2 then Quad(b[0], b[1], 0)[..3]
    else
      Quad(b[0], b[1], b[2]) + EncodeRaw(b[3..])
  }

  /** Encoding with padding (`base64.URLEncoding`). */
  function EncodePadded(b: seq<Byte>): string {
    if |b| == 0 then ""
    else if |b| == 1 then Quad(b[0], 0, 0)[..2] + "=="
    else if |b| == 2 then Quad(b[0], b[1], 0)[..3] + "="
    else
      Quad(b[0], b[1], b[2]) + EncodePadded(b[3..])
  }

  function DropNewlines(s: string): string {
    if s == "" then ""
    else if s[0] == '\n' || s[0] == '\r' then DropNewlines(s[1..])
    else [s[0]] + DropNewlines(s[1..])
  }

  /** Decoding of padded text; padding may only close the text, and spare low bits are not checked. */
  function DecodeQuanta(s: string): Option<seq<Byte>> {
    if s == "" then Some([])
    else if |s| < 4 then None
    else
      match (Value(s[0]), Value(s[1]), Value(s[2]), Value(s[3]))
      case (Some(a), Some(b), Some(c), Some(d)) =>
        (match DecodeQuanta(s[4..])
         case Some(rest) => Some(Triple(a, b, c, d) + rest)
         case None => None)
      case (Some(a), Some(b), Some(c), None) =>
        if s[3] == '=' && |s| == 4 then Some(Triple(a, b, c, 0)[..2]) else None
      case (Some(a), Some(b), None, None) =>
        if s[2] == '=' && s[3] == '=' && |s| == 4 then Some(Triple(a, b, 0, 0)[..1]) else None
      case _ => None
  }

  /** `base64.URLEncoding.DecodeString`: line breaks are ignored. */
  function Decode(s: string): Option<seq<Byte>> {
    DecodeQuanta(DropNewlines(s))
  }

  /** The padding put back before decoding. */
  function Repad(payload: string): string {
    match |payload| % 4
    case 2 => payload + "=="
    case 3 => payload + "="
    case _ => payload
  }

  lemma {:induction false} EncodedLength(b: seq<Byte>)
    ensures |EncodeRaw(b)| == (4 * |b| + 2) / 3
    ensures |EncodeRaw(b)| % 4 != 1
  {
    hide Letter;
    if |b| >= 3 { EncodedLength(b[3..]); }
  }

  /** Putting the padding back onto the unpadded encoding gives exactly the padded encoding. */
  lemma {:induction false} RepadGivesPadded(b: seq<Byte>)
    ensures Repad(EncodeRaw(b)) == EncodePadded(b)
  {
    hide Letter;
    if |b| >= 3 {
      var head := EncodeRaw(b)[..4];
      RepadGivesPadded(b[3..]);
      assert EncodeRaw(b) == head + EncodeRaw(b[3..]);
      assert Repad(EncodeRaw(b)) == head + Repad(EncodeRaw(b[3..]));
    }
  }

  lemma {:induction false} EncodedLetters(b: seq<Byte>)
    ensures forall c :: c in EncodeRaw(b) ==> c !in ['.', '=', '\n', '\r']
  {
    if |b| >= 3 { EncodedLetters(b[3..]); }
  }

  lemma {:induction false} NoNewlines(s: string)
    requires '\n' !in s && '\r' !in s
    ensures DropNewlines(s) == s
  {
    if s != "" { NoNewlines(s[1..]); }
  }

  lemma DecodeQuad(x: Byte, y: Byte, z: Byte, s: string)
    ensures DecodeQuanta(Quad(x, y, z) + s)
         == match DecodeQuanta(s) { case Some(rest) => Some([x, y, z] + rest) case None => None }
  {
    TripleOfQuad(x, y, z);
    assert (Quad(x, y, z) + s)[4..] == s;
  }

  lemma DecodeTail(x: Byte, y: Byte)
    ensures DecodeQuanta(Quad(x, 0, 0)[..2] + "==") == Some([x])
    ensures DecodeQuanta(Quad(x, y, 0)[..3] + "=") == Some([x, y])
  {
    TripleOfQuad(x, 0, 0);
    TripleOfQuad(x, y, 0);
    var one, two := Quad(x, 0, 0)[..2] + "==", Quad(x, y, 0)[..3] + "=";
    assert one[2] == '=' && one[3] == '=' && two[3] == '=';
    assert Triple(Value(one[0]).value, Value(one[1]).value, 0, 0)[..1] == [x];
    assert Triple(Value(two[0]).value, Value(two[1]).value, Value(two[2]).value, 0)[..2] == [x, y];
  }

  lemma {:induction false} DecodeQuantaOfPadded(b: seq<Byte>)
    ensures DecodeQuanta(EncodePadded(b)) == Some(b)
  {
    hide Letter, Value, Triple, Quad;
    if |b| == 1 {
      DecodeTail(b[0], 0);
      assert b == [b[0]];
    } else if |b| == 2 {
      DecodeTail(b[0], b[1]);
      assert b == [b[0], b[1]];
    } else if |b| >= 3 {
      DecodeQuantaOfPadded(b[3..]);
      DecodeQuad(b[0], b[1], b[2], EncodePadded(b[3..]));
      assert b == [b[0], b[1], b[2]] + b[3..];
    }
  }

  /** Re-padding and decoding an unpadded encoding recovers the bytes. */
  lemma DecodeRecovers(b: seq<Byte>)
    ensures Decode(Repad(EncodeRaw(b))) == Some(b)
  {
    var padded := Repad(EncodeRaw(b));
    EncodedLetters(b);
    NoNewlines(padded);
    RepadGivesPadded(b);
    DecodeQuantaOfPadded(b);
  }

  lemma EncodeRawInjective(a: seq<Byte>, b: seq<Byte>)
    requires EncodeRaw(a) == EncodeRaw(b)
    ensures a == b
  {
    DecodeRecovers(a);
    DecodeRecovers(b);
  }

  /** `extractEnterpriseID`; `json` reads the enterprise id out of a decoded payload. */
  function ExtractEnterpriseId(token: string, json: seq<Byte> -> Option<string>): string {
    var parts := Text.Split(token, '.');
    if |parts| < 2 then ""
    else
      match Decode(Repad(parts[1]))
      case None => ""
      case Some(bytes) => json(bytes).GetOr("")
  }

  /** Without a second part, or with one that cannot be decoded, there is no id. */
  lemma ExtractFindsNothing(token: string, header: string, payload: string, json: seq<Byte> -> Option<string>)
    requires '.' !in header && '.' !in payload
    ensures ExtractEnterpriseId(header, json) == ""
    ensures Decode(Repad(payload)) == None ==> ExtractEnterpriseId(header + "." + payload, json) == ""
  {
    hide Decode, Repad;
    Text.SplitWhole(header, '.');
    Text.SplitWhole(payload, '.');
    Text.SplitHead(header, payload, '.');
    assert header + "." + payload == header + ['.'] + payload;
  }

  /** The id is read from exactly the payload bytes that the token's issuer encoded. */
  lemma ExtractReadsPayload(header: string, payload: seq<Byte>, signature: string, json: seq<Byte> -> Option<string>)
    requires '.' !in header
    ensures ExtractEnterpriseId(header + "." + EncodeRaw(payload) + "." + signature, json) == json(payload).GetOr("")
  {
    var token := header + "." + EncodeRaw(payload) + "." + signature;
    EncodedLetters(payload);
    Text.SplitHead(EncodeRaw(payload), signature, '.');
    Text.SplitHead(header, EncodeRaw(payload) + "." + signature, '.');
    assert token == header + "." + (EncodeRaw(payload) + "." + signature);
    DecodeRecovers(payload);
  }

  lemma {:induction false} DecodedLength(s: string)
    ensures DecodeQuanta(s).Some? ==> |s| % 4 == 0
  {
    hide Value, Triple;
    if |s| >= 4 {
      DecodedLength(s[4..]);
      FourMore(|s| - 4);
    }
  }

  lemma FourMore(n: nat)
    ensures (n + 4) % 4 == n % 4
  {}

  lemma {:induction false} DropConcat(a: string, b: string)
    ensures DropNewlines(a + b) == DropNewlines(a) + DropNewlines(b)
  {
    if a == "" {
      assert a + b == b;
    } else {
      assert (a + b)[1..] == a[1..] + b;
      DropConcat(a[1..], b);
    }
  }

  /** A payload whose letters, line breaks aside, number 1 modulo 4 is never decoded, re-padded or not. */
  lemma LengthOneModFourFails(s: string)
    requires |DropNewlines(s)| % 4 == 1
    ensures Decode(s) == None && Decode(Repad(s)) == None
  {
    hide DropNewlines, DecodeQuanta, Repad;
    RepadAdds(s);
    NoNewlines("=");
    NoNewlines("==");
    DropConcat(s, "=");
    DropConcat(s, "==");
    NotFour(|DropNewlines(s)|);
    DecodedLength(DropNewlines(s));
    DecodedLength(DropNewlines(Repad(s)));
  }

  lemma RepadAdds(s: string)
    ensures Repad(s) == s || Repad(s) == s + "=" || Repad(s) == s + "=="
  {}

  lemma NotFour(n: nat)
    requires n % 4 == 1
    ensures (n + 1) % 4 != 0 && (n + 2) % 4 != 0
  {}
}
