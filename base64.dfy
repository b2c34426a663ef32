/** Base64 with padding, as defined in section 4 of RFC 4648 (the encoding
    QByteArray::toBase64 produces by default). The decoder is the reference
    partner of the encoder: decoding an encoding gives the bytes back. */
module Base64 {
  import opened Text
  import opened Wrappers

  /** The 64-character alphabet of section 4 of RFC 4648. */
  predicate IsAlphabetChar(c: char) {
    'A' <= c <= 'Z' || 'a' <= c <= 'z' || '0' <= c <= '9' || c == '+' || c == '/'
  }

  /** The character for a 6-bit value (Table 1 of RFC 4648). */
  function SextetChar(v: int): (c: char)
    requires 0 <= v < 64
    ensures IsAlphabetChar(c)
  {
    if v < 26 then ('A' as int + v) as char
    else if v < 52 then ('a' as int + (v - 26)) as char
    else if v < 62 then ('0' as int + (v - 52)) as char
    else if v == 62 then '+'
    else '/'
  }

  /** The 6-bit value of an alphabet character. */
  function CharSextet(c: char): (v: int)
    requires IsAlphabetChar(c)
    ensures 0 <= v < 64
  {
    if 'A' <= c <= 'Z' then c as int - 'A' as int
    else if 'a' <= c <= 'z' then c as int - 'a' as int + 26
    else if '0' <= c <= '9' then c as int - '0' as int + 52
    else if c == '+' then 62
    else 63
  }

  lemma SextetRoundTrip(v: int)
    requires 0 <= v < 64
    ensures CharSextet(SextetChar(v)) == v
  {
  }

  /** Four characters for three whole input bytes. */
  function EncodeGroup(b0: Byte, b1: Byte, b2: Byte): (s: string)
    ensures |s| == 4
    ensures forall i | 0 <= i < 4 :: IsAlphabetChar(s[i])
  {
    [ SextetChar(b0 / 4),
      SextetChar((b0 % 4) * 16 + b1 / 16),
      SextetChar((b1 % 16) * 4 + b2 / 64),
      SextetChar(b2 % 64) ]
  }

  predicate IsEncodingChar(c: char) {
    IsAlphabetChar(c) || c == '='
  }

  /** The padded encoding, three input bytes to four characters; a final group
      of one or two bytes is completed with "==" or "=". */
  function Encode(b: Bytes): (s: string)
    ensures |s| == 4 * ((|b| + 2) / 3)
    ensures forall i | 0 <= i < |s| :: IsEncodingChar(s[i])
    decreases |b|
  {
    if |b| == 0 then ""
    else if |b| == 1 then
      [SextetChar(b[0] / 4), SextetChar((b[0] % 4) * 16), '=', '=']
    else if |b| == 2 then
      [SextetChar(b[0] / 4), SextetChar((b[0] % 4) * 16 + b[1] / 16), SextetChar((b[1] % 16) * 4), '=']
    else
      GroupCount(|b|);
      EncodeGroup(b[0], b[1], b[2]) + Encode(b[3..])
  }

  /** Three more bytes make one more group. */
  lemma GroupCount(n: int)
    requires n >= 3
    ensures (n + 2) / 3 == (n - 3 + 2) / 3 + 1
  {
  }

  /** Three bytes from four alphabet characters. */
  function DecodeGroup(s: string): (r: Option<Bytes>)
    requires |s| == 4
    ensures r.Some? ==> |r.value| == 3
  {
    if IsAlphabetChar(s[0]) && IsAlphabetChar(s[1]) && IsAlphabetChar(s[2]) && IsAlphabetChar(s[3]) then
      var v0, v1, v2, v3 := CharSextet(s[0]), CharSextet(s[1]), CharSextet(s[2]), CharSextet(s[3]);
      Some([v0 * 4 + v1 / 16, (v1 % 16) * 16 + v2 / 4, (v2 % 4) * 64 + v3])
    else None
  }

  /** The last four characters, which may end in "=" or "==". */
  function DecodeFinal(s: string): (r: Option<Bytes>)
    requires |s| == 4
    ensures r.Some? ==> 1 <= |r.value| <= 3
  {
    if s[2] == '=' && s[3] == '=' then
      if IsAlphabetChar(s[0]) && IsAlphabetChar(s[1]) then
        var v0, v1 := CharSextet(s[0]), CharSextet(s[1]);
        Some([v0 * 4 + v1 / 16])
      else None
    else if s[3] == '=' then
      if IsAlphabetChar(s[0]) && IsAlphabetChar(s[1]) && IsAlphabetChar(s[2]) then
        var v0, v1, v2 := CharSextet(s[0]), CharSextet(s[1]), CharSextet(s[2]);
        Some([v0 * 4 + v1 / 16, (v1 % 16) * 16 + v2 / 4])
      else None
    else DecodeGroup(s)
  }

  /** Decoding of a padded encoding; None for text that is not one. */
  function Decode(s: string): (r: Option<Bytes>)
    decreases |s|
  {
    if |s| == 0 then Some([])
    else if |s| < 4 then None
    else if |s| == 4 then DecodeFinal(s)
    else
      match DecodeGroup(s[..4])
      case None => None
      case Some(g) =>
        match Decode(s[4..])
        case None => None
        case Some(rest) => Some(g + rest)
  }

  /** A value made of a high part and a low part below the divisor splits
      back into those parts. */
  lemma SplitBy16(hi: int, lo: int)
    requires 0 <= lo < 16
    ensures (hi * 16 + lo) / 16 == hi && (hi * 16 + lo) % 16 == lo
  {
  }

  lemma SplitBy4(hi: int, lo: int)
    requires 0 <= lo < 4
    ensures (hi * 4 + lo) / 4 == hi && (hi * 4 + lo) % 4 == lo
  {
  }

  /** The first byte is recovered from the first two sextets. */
  lemma FirstByte(b0: Byte, b1: Byte)
    ensures var v1 := (b0 % 4) * 16 + b1 / 16;
      (b0 / 4) * 4 + v1 / 16 == b0 && v1 % 16 == b1 / 16
  {
    SplitBy16(b0 % 4, b1 / 16);
  }

  /** The second byte is recovered from the second and third sextets. */
  lemma SecondByte(b1: Byte, b2: Byte)
    ensures var v2 := (b1 % 16) * 4 + b2 / 64;
      (b1 / 16) * 16 + v2 / 4 == b1 && v2 % 4 == b2 / 64
  {
    SplitBy4(b1 % 16, b2 / 64);
  }

  lemma GroupRoundTrip(b0: Byte, b1: Byte, b2: Byte)
    ensures DecodeGroup(EncodeGroup(b0, b1, b2)) == Some([b0, b1, b2])
  {
    var v0, v1, v2, v3 := b0 / 4, (b0 % 4) * 16 + b1 / 16, (b1 % 16) * 4 + b2 / 64, b2 % 64;
    SextetRoundTrip(v0);
    SextetRoundTrip(v1);
    SextetRoundTrip(v2);
    SextetRoundTrip(v3);
    FirstByte(b0, b1);
    SecondByte(b1, b2);
    assert (v2 % 4) * 64 + v3 == b2;
  }

  /** A final group of one byte, padded with "==", decodes to that byte. */
  lemma OneByteRoundTrip(b0: Byte)
    ensures Decode(Encode([b0])) == Some([b0])
  {
    SextetRoundTrip(b0 / 4);
    SextetRoundTrip((b0 % 4) * 16);
    FirstByte(b0, 0);
  }

  /** A final group of two bytes, padded with "=", decodes to those bytes. */
  lemma TwoBytesRoundTrip(b0: Byte, b1: Byte)
    ensures Decode(Encode([b0, b1])) == Some([b0, b1])
  {
    SextetRoundTrip(b0 / 4);
    SextetRoundTrip((b0 % 4) * 16 + b1 / 16);
    SextetRoundTrip((b1 % 16) * 4);
    FirstByte(b0, b1);
    SecondByte(b1, 0);
  }

  /** A single whole group, with no padding, decodes to its three bytes. */
  lemma ThreeBytesRoundTrip(b: Bytes)
    requires |b| == 3
    ensures Decode(Encode(b)) == Some(b)
  {
    var s := Encode(b);
    assert b[3..] == [];
    assert s == EncodeGroup(b[0], b[1], b[2]);
    GroupRoundTrip(b[0], b[1], b[2]);
    assert s[3] != '=';
    assert b == [b[0], b[1], b[2]];
  }

  /** A whole group in front of a longer text decodes on its own. */
  lemma DecodeLeadingGroup(g: string, t: string)
    requires |g| == 4 && |t| >= 4 && DecodeGroup(g).Some? && Decode(t).Some?
    ensures Decode(g + t) == Some(DecodeGroup(g).value + Decode(t).value)
  {
    assert (g + t)[..4] == g && (g + t)[4..] == t;
  }

  /** A leading whole group decodes to its three bytes, in front of the rest. */
  lemma LeadingGroupRoundTrip(b: Bytes)
    requires |b| > 3 && Decode(Encode(b[3..])) == Some(b[3..])
    ensures Decode(Encode(b)) == Some(b)
  {
    var g := EncodeGroup(b[0], b[1], b[2]);
    var t := Encode(b[3..]);
    assert Encode(b) == g + t;
    assert |t| >= 4 by {
      assert (|b| - 3 + 2) / 3 >= 1;
    }
    GroupRoundTrip(b[0], b[1], b[2]);
    DecodeLeadingGroup(g, t);
    assert Decode(Encode(b)) == Some([b[0], b[1], b[2]] + b[3..]);
    SplitThree(b);
  }

  lemma SplitThree(b: Bytes)
    requires |b| >= 3
    ensures [b[0], b[1], b[2]] + b[3..] == b
  {
  }

  /** Decoding an encoding gives back exactly the encoded bytes. */
  lemma {:induction false} DecodeEncode(b: Bytes)
    ensures Decode(Encode(b)) == Some(b)
    decreases |b|
  {
    if |b| == 1 {
      assert b == [b[0]];
      OneByteRoundTrip(b[0]);
    } else if |b| == 2 {
      assert b == [b[0], b[1]];
      TwoBytesRoundTrip(b[0], b[1]);
    } else if |b| == 3 {
      ThreeBytesRoundTrip(b);
    } else if |b| > 3 {
      DecodeEncode(b[3..]);
      LeadingGroupRoundTrip(b);
    }
  }

  /** The test vectors of section 10 of RFC 4648 ("", "f", "fo", "foo",
      "foob", "fooba", "foobar"), which tie the alphabet and the bit layout to
      the standard's. */
  lemma StandardTestVectors()
    ensures Encode([]) == ""
    ensures Encode([102]) == "Zg=="
    ensures Encode([102, 111]) == "Zm8="
    ensures Encode([102, 111, 111]) == "Zm9v"
    ensures Encode([102, 111, 111, 98]) == "Zm9vYg=="
    ensures Encode([102, 111, 111, 98, 97]) == "Zm9vYmE="
    ensures Encode([102, 111, 111, 98, 97, 114]) == "Zm9vYmFy"
  {
  }

  /** Different bytes never share an encoding. */
  lemma EncodeInjective(a: Bytes, b: Bytes)
    requires Encode(a) == Encode(b)
    ensures a == b
  {
    DecodeEncode(a);
    DecodeEncode(b);
  }
}
