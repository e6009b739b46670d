/** Lower-case hexadecimal, section 8 of RFC 4648: `hex::encode` and `decode_hex_like`. */
module HexCodec {
  import opened GridErrors
  import opened Text

  type Byte = b: nat | b < 256

  function HexDigit(d: nat): char
    requires d < 16
  {
    "0123456789abcdef"[d]
  }

  predicate IsHexDigit(c: char) {
    '0' <= c <= '9' || 'a' <= c <= 'f' || 'A' <= c <= 'F'
  }

  function HexValue(c: char): (v: nat)
    requires IsHexDigit(c)
    ensures v < 16
    ensures HexDigit(v) == LowerChar(c)
  {
    if c <= '9' then (c - '0') as nat
    else if c <= 'F' then 10 + (c - 'A') as nat
    else 10 + (c - 'a') as nat
  }

  function LowerChar(c: char): char {
    if 'A' <= c <= 'Z' then c - 'A' + 'a' else c
  }

  function Lower(s: string): string {
    seq(|s|, i requires 0 <= i < |s| => LowerChar(s[i]))
  }

  /** One hex digit of the encoding: the high half of a byte at even places, the low half at odd ones. */
  function Nibble(bytes: seq<Byte>, i: nat): nat
    requires i < 2 * |bytes|
  {
    if i % 2 == 0 then bytes[i / 2] / 16 else bytes[i / 2] % 16
  }

  function Encode(bytes: seq<Byte>): (s: string)
    ensures |s| == 2 * |bytes|
  {
    seq(2 * |bytes|, i requires 0 <= i < 2 * |bytes| => HexDigit(Nibble(bytes, i)))
  }

  /** Each byte is its high digit and then its low one, counted 0 to 9 and a to f. */
  lemma HighThenLow(bytes: seq<Byte>, i: nat)
    requires i < |bytes|
    ensures forall d: nat :: d < 16 ==>
              HexDigit(d) as int == if d < 10 then '0' as int + d else 'a' as int + d - 10
    ensures Encode(bytes)[2 * i] == HexDigit(bytes[i] / 16) && Encode(bytes)[2 * i + 1] == HexDigit(bytes[i] % 16)
  {
    assert (2 * i) / 2 == i && (2 * i + 1) / 2 == i && (2 * i) % 2 == 0 && (2 * i + 1) % 2 == 1;
    hide HexDigit;
  }

  predicate AllHex(s: string) {
    forall i :: 0 <= i < |s| ==> IsHexDigit(s[i])
  }

  function DecodePairs(s: string): seq<Byte>
    requires AllHex(s) && |s| % 2 == 0
  {
    seq(|s| / 2, i requires 0 <= i < |s| / 2 => 16 * HexValue(s[2 * i]) + HexValue(s[2 * i + 1]))
  }

  function DecodeHexLike(raw: string): Option<seq<Byte>> {
    var text := Trim(raw);
    if text == "" then Some([])
    else if |text| % 2 != 0 then None
    else if !AllHex(text) then None
    else Some(DecodePairs(text))
  }

  lemma HexDigitValue(d: nat)
    requires d < 16
    ensures IsHexDigit(HexDigit(d)) && HexValue(HexDigit(d)) == d
  {
  }

  lemma EncodeIsHex(bytes: seq<Byte>)
    ensures AllHex(Encode(bytes))
    ensures DecodePairs(Encode(bytes)) == bytes
  {
    hide HexDigit, HexValue, IsHexDigit;
    var s := Encode(bytes);
    forall i | 0 <= i < |s| ensures IsHexDigit(s[i]) && HexValue(s[i]) == Nibble(bytes, i) {
      HexDigitValue(Nibble(bytes, i));
    }
    forall i | 0 <= i < |bytes| ensures DecodePairs(s)[i] == bytes[i] {
      assert Nibble(bytes, 2 * i) == bytes[i] / 16 && Nibble(bytes, 2 * i + 1) == bytes[i] % 16;
    }
  }

  lemma DecodesHex(s: string)
    requires AllHex(s) && |s| % 2 == 0
    ensures DecodeHexLike(s) == Some(DecodePairs(s))
  {
    TrimTrims(s);
    if s == "" { assert DecodePairs(s) == []; }
  }

  /** Decoding the encoding of any byte list gives the list back. */
  lemma {:induction false} DecodeInvertsEncode(bytes: seq<Byte>)
    ensures DecodeHexLike(Encode(bytes)) == Some(bytes)
  {
    hide *;
    var s := Encode(bytes);
    assert AllHex(s) && |s| % 2 == 0 && DecodePairs(s) == bytes by { EncodeIsHex(bytes); }
    DecodesHex(s);
  }

  lemma EncodeInvertsPairs(s: string)
    requires AllHex(s) && |s| % 2 == 0
    ensures Encode(DecodePairs(s)) == Lower(s)
  {
    hide HexDigit, LowerChar, IsHexDigit;
    var bytes := DecodePairs(s);
    forall i | 0 <= i < |s| ensures Nibble(bytes, i) == HexValue(s[i]) {
      assert bytes[i / 2] == 16 * HexValue(s[2 * (i / 2)]) + HexValue(s[2 * (i / 2) + 1]);
    }
  }

  /** Decoding succeeds exactly on trimmed text that is hex digits of even length, and then
      re-encoding gives that text in lower case. */
  lemma EncodeNormalizesDecode(raw: string)
    ensures DecodeHexLike(raw).Some? <==> AllHex(Trim(raw)) && |Trim(raw)| % 2 == 0
    ensures DecodeHexLike(raw).Some? ==> Encode(DecodeHexLike(raw).value) == Lower(Trim(raw))
  {
    if DecodeHexLike(raw).Some? {
      EncodeInvertsPairs(Trim(raw));
    }
  }
}
