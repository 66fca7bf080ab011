/** Lower-case hexadecimal encoding of bytes, and the lenient decoding Node's
    `Buffer.from(text, "hex")` performs: it reads two digits at a time and stops
    at the first pair that is not two hex digits (a trailing odd digit is dropped). */
module Hex {

  import opened Wrappers

  type Byte = b: int | 0 <= b < 256

  const Digits: string := "0123456789abcdef"

  predicate IsDigit(c: char) {
    c in Digits
  }

  /** Value of one hex digit; both cases are accepted when decoding. */
  function DigitValue(c: char): (r: Option<nat>)
    ensures r.Some? ==> r.value < 16
  {
    if '0' <= c <= '9' then Some(c as int - '0' as int)
    else if 'a' <= c <= 'f' then Some(c as int - 'a' as int + 10)
    else if 'A' <= c <= 'F' then Some(c as int - 'A' as int + 10)
    else None
  }

  function EncodeByte(b: Byte): (s: string)
    ensures |s| == 2 && IsDigit(s[0]) && IsDigit(s[1])
  {
    [Digits[b / 16], Digits[b % 16]]
  }

  function Encode(bs: seq<Byte>): (s: string)
    ensures |s| == 2 * |bs|
    ensures forall i :: 0 <= i < |s| ==> IsDigit(s[i])
  {
    if bs == [] then [] else EncodeByte(bs[0]) + Encode(bs[1..])
  }

  function Decode(s: string): (bs: seq<Byte>)
    ensures 2 * |bs| <= |s|
  {
    if |s| < 2 then []
    else
      match (DigitValue(s[0]), DigitValue(s[1]))
      case (Some(hi), Some(lo)) => [hi * 16 + lo] + Decode(s[2..])
      case _ => []
  }

  lemma DigitValueOfDigit(n: nat)
    requires n < 16
    ensures DigitValue(Digits[n]) == Some(n)
  {
    if n < 10 {
      assert Digits[n] == "0123456789"[n];
    } else {
      assert Digits[n] == "abcdef"[n - 10];
    }
  }

  lemma DecodePair(x: char, y: char, hi: nat, lo: nat, rest: string)
    requires DigitValue(x) == Some(hi) && DigitValue(y) == Some(lo)
    ensures Decode([x, y] + rest) == [hi * 16 + lo] + Decode(rest)
  {
    assert ([x, y] + rest)[2..] == rest;
  }

  lemma DecodeEncodeByte(b: Byte, rest: string)
    ensures Decode(EncodeByte(b) + rest) == [b] + Decode(rest)
  {
    var hi, lo := b / 16, b % 16;
    assert hi * 16 + lo == b;
    assert EncodeByte(b) == [Digits[hi], Digits[lo]];
    DigitValueOfDigit(hi);
    DigitValueOfDigit(lo);
    DecodePair(Digits[hi], Digits[lo], hi, lo, rest);
  }

  lemma EncodeCons(bs: seq<Byte>, rest: string)
    requires bs != []
    ensures Encode(bs) + rest == EncodeByte(bs[0]) + (Encode(bs[1..]) + rest)
  {
    assert Encode(bs) == EncodeByte(bs[0]) + Encode(bs[1..]);
  }

  lemma ConsAppend(bs: seq<Byte>, d: seq<Byte>)
    requires bs != []
    ensures [bs[0]] + (bs[1..] + d) == bs + d
  {
    assert [bs[0]] + bs[1..] == bs;
  }

  /** Decoding reads back exactly the encoded bytes, whatever follows them. */
  lemma {:induction false} DecodeEncodeAppend(bs: seq<Byte>, rest: string)
    ensures Decode(Encode(bs) + rest) == bs + Decode(rest)
  {
    if bs == [] {
      assert Encode(bs) + rest == rest;
    } else {
      var tail := Encode(bs[1..]) + rest;
      EncodeCons(bs, rest);
      DecodeEncodeByte(bs[0], tail);
      DecodeEncodeAppend(bs[1..], rest);
      ConsAppend(bs, Decode(rest));
    }
  }

  lemma DecodeEncode(bs: seq<Byte>)
    ensures Decode(Encode(bs)) == bs
  {
    DecodeEncodeAppend(bs, "");
    assert Encode(bs) + "" == Encode(bs);
  }
}
