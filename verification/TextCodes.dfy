/** What the text kernels leave in memory, character by character: the alphabets as strings, the
    places as addresses. */
module TextCodes {
  import opened Simd
  import B = Base64
  import D = Base64Decode
  import H = Hex
  import U = Utf8Len

  const UPPER := "ABCDEFGHIJKLMNOPQRSTUVWXYZ"
  const LOWER := "abcdefghijklmnopqrstuvwxyz"
  const DECIMALS := "0123456789"

  lemma UpperAt(x: int)
    requires 0 <= x < 26
    ensures |UPPER| == 26 && UPPER[x] as int == 65 + x
  {
  }

  lemma LowerAt(x: int)
    requires 0 <= x < 26
    ensures |LOWER| == 26 && LOWER[x] as int == 97 + x
  {
  }

  lemma DecimalAt(x: int)
    requires 0 <= x < 10
    ensures |DECIMALS| == 10 && DECIMALS[x] as int == 48 + x
  {
  }

  lemma Joined2(a: string, b: string, x: int)
    requires 0 <= x < |a| + |b|
    ensures |a + b| == |a| + |b| && (a + b)[x] == if x < |a| then a[x] else b[x - |a|]
  {
  }

  // ------------------------------------------------------------ base64

  /** Table 1 of RFC 4648. */
  const BASE64 := UPPER + LOWER + DECIMALS + "+/"

  lemma CharIsLetter(x: int)
    requires 0 <= x < 64
    ensures |BASE64| == 64 && B.Char(x) == BASE64[x] as int
  {
    UpperAt(if x < 26 then x else 0);
    LowerAt(if 26 <= x < 52 then x - 26 else 0);
    DecimalAt(if 52 <= x < 62 then x - 52 else 0);
    Joined2(UPPER + LOWER + DECIMALS, "+/", x);
    if x < 62 {
      Joined2(UPPER + LOWER, DECIMALS, x);
    }
    if x < 52 {
      Joined2(UPPER, LOWER, x);
    }
  }

  /** Digit c of the four base-64 digits of three bytes, the first byte the highest. */
  function Digit64(b0: Byte, b1: Byte, b2: Byte, c: int): (x: int)
    ensures 0 <= x < 64
  {
    var v := 65536 * b0 + 256 * b1 + b2;
    (if c == 0 then v / 262144 else if c == 1 then v / 4096 else if c == 2 then v / 64 else v) % 64
  }

  lemma SextetIsDigit(b0: Byte, b1: Byte, b2: Byte, c: int)
    requires 0 <= c < 4
    ensures B.Sextet(b0, b1, b2, c) == Digit64(b0, b1, b2, c)
  {
    if c == 0 {
      assert (65536 * b0 + 256 * b1 + b2) / 262144 == b0 / 4;
    } else if c == 1 {
      assert (65536 * b0 + 256 * b1 + b2) / 4096 == 16 * b0 + b1 / 16;
      assert (16 * b0 + b1 / 16) % 64 == b0 % 4 * 16 + b1 / 16;
    } else if c == 2 {
      assert (65536 * b0 + 256 * b1 + b2) / 64 == 1024 * b0 + 4 * b1 + b2 / 64;
      assert (1024 * b0 + 4 * b1 + b2 / 64) % 64 == b1 % 16 * 4 + b2 / 64;
    } else {
      assert (65536 * b0 + 256 * b1 + b2) % 64 == b2 % 64;
    }
  }

  /** Character o of an encoding: the letter of digit o mod 4 of triplet o / 4. */
  lemma EncodedLetter(s: seq<Byte>, o: int)
    requires |s| % 3 == 0 && 0 <= o < |B.Encoded(s)|
    ensures |B.Encoded(s)| == |s| / 3 * 4 && 0 <= 3 * (o / 4) && 3 * (o / 4) + 2 < |s| && |BASE64| == 64
    ensures B.Encoded(s)[o] == BASE64[Digit64(s[3 * (o / 4)], s[3 * (o / 4) + 1], s[3 * (o / 4) + 2], o % 4)] as int
  {
    hide B.Char, B.Sextet, Digit64, BASE64;
    var t := o / 4;
    assert t < |s| / 3;
    SextetIsDigit(s[3 * t], s[3 * t + 1], s[3 * t + 2], o % 4);
    CharIsLetter(Digit64(s[3 * t], s[3 * t + 1], s[3 * t + 2], o % 4));
  }

  /** After base64_encode, every cell of the memory. */
  lemma EncodedMemory(before: seq<Byte>, after: seq<Byte>, src: nat, dst: nat, n: nat, p: nat)
    requires src + 12 * n <= |before| == |after| && dst + 16 * n <= |after| && B.Encodes(before, after, src, dst, n) && p < |after|
    ensures |BASE64| == 64
    ensures if dst <= p < dst + 16 * n then
              var g := src + 3 * ((p - dst) / 4);
              g + 2 < |before| && after[p] == BASE64[Digit64(before[g], before[g + 1], before[g + 2], (p - dst) % 4)] as int
            else after[p] == before[p]
  {
    hide Digit64, BASE64, B.Encoded;
    CharIsLetter(0);
    if dst <= p < dst + 16 * n {
      B.WholeTriplets(n);
      var s := Bytes(before, src, 12 * n);
      assert 12 * n / 3 * 4 == 16 * n;
      EncodedLetter(s, p - dst);
      assert after[p] == Bytes(after, dst, 16 * n)[p - dst];
    }
  }

  /** After base64_decode of the characters of some bytes, those bytes, and nothing changed but four
      cells past them. */
  lemma DecodedMemory(before: seq<Byte>, after: seq<Byte>, src: nat, dst: nat, n: nat, text: seq<Byte>, p: nat)
    requires src + 16 * n <= |before| == |after| && dst + 12 * n <= |after| && D.Decodes(before, after, src, dst, n) && p < |after|
    requires |text| == 12 * n && forall q :: src <= q < src + 16 * n ==> IsLetterOf(before[q], text, q - src)
    ensures if dst <= p < dst + 12 * n then after[p] == text[p - dst] else dst + 12 * n <= p < dst + 12 * n + 4 || after[p] == before[p]
  {
    hide B.Encoded, D.Decoded, IsLetterOf;
    B.WholeTriplets(n);
    D.WholeQuads(n);
    var s := Bytes(before, src, 16 * n);
    assert 12 * n / 3 * 4 == 16 * n;
    forall o | 0 <= o < 16 * n ensures s[o] == B.Encoded(text)[o] {
      assert s[o] == before[src + o] && IsLetterOf(before[src + o], text, src + o - src);
      LetterIsEncoded(before[src + o], text, o);
    }
    assert s == B.Encoded(text);
    D.DecodeEncode(text);
    if dst <= p < dst + 12 * n {
      assert after[p] == Bytes(after, dst, 12 * n)[p - dst];
    }
  }

  /** x is character o of the base64 of some bytes. */
  ghost predicate IsLetterOf(x: Byte, text: seq<Byte>, o: int) {
    0 <= o && 3 * (o / 4) + 2 < |text| && |BASE64| == 64 &&
    x == BASE64[Digit64(text[3 * (o / 4)], text[3 * (o / 4) + 1], text[3 * (o / 4) + 2], o % 4)] as int
  }

  lemma LetterIsEncoded(x: Byte, text: seq<Byte>, o: int)
    requires |text| % 3 == 0 && 0 <= o < |B.Encoded(text)| && IsLetterOf(x, text, o)
    ensures x == B.Encoded(text)[o]
  {
    hide Digit64, BASE64, B.Encoded;
    EncodedLetter(text, o);
  }

  // ------------------------------------------------------------ hexadecimal

  const HEX := DECIMALS + "abcdef"
  const HEX_CAPITALS := DECIMALS + "ABCDEF"

  lemma DigitIsLetter(x: int)
    requires 0 <= x < 16
    ensures |HEX| == |HEX_CAPITALS| == 16 && H.Digit(x) == HEX[x] as int && H.ToUpper(H.Digit(x)) == HEX_CAPITALS[x] as int
  {
    DecimalAt(if x < 10 then x else 0);
    Joined2(DECIMALS, "abcdef", x);
    Joined2(DECIMALS, "ABCDEF", x);
    if x >= 10 {
      assert x == 10 || x == 11 || x == 12 || x == 13 || x == 14 || x == 15;
    }
  }

  /** The high or the low half of a byte. */
  function HalfOf(b: Byte, low: int): (x: int)
    ensures 0 <= x < 16
  {
    if low == 0 then b / 16 else b % 16
  }

  /** After hex_encode, every cell of the memory. */
  lemma HexMemory(before: seq<Byte>, after: seq<Byte>, src: nat, dst: nat, n: nat, p: nat)
    requires src + 16 * n <= |before| == |after| && dst + 32 * n <= |after| && H.Encodes(before, after, src, dst, n) && p < |after|
    ensures |HEX| == 16
    ensures if dst <= p < dst + 32 * n then
              src + (p - dst) / 2 < |before| && after[p] == HEX[HalfOf(before[src + (p - dst) / 2], (p - dst) % 2)] as int
            else after[p] == before[p]
  {
    hide HEX, HEX_CAPITALS, H.Digit;
    DigitIsLetter(0);
    if dst <= p < dst + 32 * n {
      DigitIsLetter(HalfOf(before[src + (p - dst) / 2], (p - dst) % 2));
      assert after[p] == Bytes(after, dst, 32 * n)[p - dst];
    }
  }

  /** x is digit o of the hexadecimal of some bytes, a letter in either case. */
  ghost predicate IsHexOf(x: Byte, text: seq<Byte>, o: int) {
    && 0 <= o && o / 2 < |text| && |HEX| == |HEX_CAPITALS| == 16
    && (x == HEX[HalfOf(text[o / 2], o % 2)] as int || x == HEX_CAPITALS[HalfOf(text[o / 2], o % 2)] as int)
  }

  lemma HexIsSpelled(x: Byte, text: seq<Byte>, o: int)
    requires IsHexOf(x, text, o) && o < 2 * |text|
    ensures x == H.HexString(text)[o] || x == H.ToUpper(H.HexString(text)[o])
  {
    hide HEX, HEX_CAPITALS, H.Digit, H.ToUpper;
    DigitIsLetter(HalfOf(text[o / 2], o % 2));
  }

  /** After hex_decode of the digits of some bytes, those bytes, and nothing else changed. */
  lemma UnhexedMemory(before: seq<Byte>, after: seq<Byte>, src: nat, dst: nat, n: nat, text: seq<Byte>, p: nat)
    requires src + 16 * n <= |before| == |after| && dst + 8 * n <= |after| && H.Decodes(before, after, src, dst, n) && p < |after|
    requires |text| == 8 * n && forall q :: src <= q < src + 16 * n ==> IsHexOf(before[q], text, q - src)
    ensures after[p] == if dst <= p < dst + 8 * n then text[p - dst] else before[p]
  {
    hide H.HexString, H.HexDecoded, IsHexOf, H.ToUpper;
    H.WholePairs(n);
    var s := Bytes(before, src, 16 * n);
    forall o | 0 <= o < 16 * n ensures s[o] == H.HexString(text)[o] || s[o] == H.ToUpper(H.HexString(text)[o]) {
      assert s[o] == before[src + o] && IsHexOf(before[src + o], text, src + o - src);
      HexIsSpelled(before[src + o], text, o);
    }
    H.DecodeEncode(s, text);
    if dst <= p < dst + 8 * n {
      assert after[p] == Bytes(after, dst, 8 * n)[p - dst];
    }
  }

  // ------------------------------------------------------------ runes

  /** The places of the bytes that are not 10xxxxxx. */
  function NotContinuations(s: seq<Byte>): set<int> {
    set i | 0 <= i < |s| && s[i] / 64 != 2
  }

  lemma {:induction false} LeadersAreCounted(s: seq<Byte>)
    ensures U.Leaders(s) == |NotContinuations(s)|
  {
    if s == [] {
      assert NotContinuations(s) == {};
    } else {
      var k := |s| - 1;
      LeadersAreCounted(s[..k]);
      if s[k] / 64 != 2 {
        assert NotContinuations(s) == NotContinuations(s[..k]) + {k};
      } else {
        assert NotContinuations(s) == NotContinuations(s[..k]);
      }
    }
  }

  /** The bits of a rune's bytes past their prefixes, 0, 110, 1110, 11110 and 10. */
  function Payload(s: seq<int>): int
    requires 1 <= |s| <= 4
  {
    if |s| == 1 then s[0]
    else if |s| == 2 then (s[0] - 192) * 64 + (s[1] - 128)
    else if |s| == 3 then (s[0] - 224) * 4096 + (s[1] - 128) * 64 + (s[2] - 128)
    else (s[0] - 240) * 262144 + (s[1] - 128) * 4096 + (s[2] - 128) * 64 + (s[3] - 128)
  }

  lemma SixBits(c: int)
    requires 0 <= c
    ensures c == c / 64 * 64 + c % 64 && c / 4096 == c / 64 / 64 && c / 262144 == c / 64 / 64 / 64
  {
  }

  /** The bytes of a rune are the shortest that carry its number: the table of section 3 of RFC 3629. */
  lemma RuneIsCarried(c: int)
    requires U.IsRune(c)
    ensures var s := U.EncodeRune(c);
      && 1 <= |s| <= 4 && Payload(s) == c
      && (|s| == 1 <==> c < 128) && (|s| <= 2 <==> c < 2048) && (|s| <= 3 <==> c < 65536)
  {
    SixBits(c);
    SixBits(c / 64);
    SixBits(c / 4096);
  }
}
