/** Lowercase hexadecimal text for byte strings, as produced by the `hex`
    crate's `encode`: two characters per byte, high nibble first, digits
    `0`-`9` and `a`-`f`. `Decode` is the model's reference inverse: it accepts
    exactly the strings `Encode` can produce. */
module Hex {
  import opened Results

  /** One octet (`u8`). */
  newtype byte = x: int | 0 <= x < 256

  /** The lowercase hex alphabet. */
  predicate IsHexDigit(c: char) {
    ('0' <= c <= '9') || ('a' <= c <= 'f')
  }

  predicate IsLowerHex(s: string) {
    forall i :: 0 <= i < |s| ==> IsHexDigit(s[i])
  }

  /** The value of one hex digit. */
  function DigitValue(c: char): (n: nat)
    requires IsHexDigit(c)
    ensures n < 16
  {
    if c <= '9' then c as int - '0' as int else c as int - 'a' as int + 10
  }

  /** The hex digit for a nibble; `DigitValue` undoes it. */
  function Digit(n: nat): (c: char)
    requires n < 16
    ensures IsHexDigit(c)
    ensures DigitValue(c) == n
  {
    if n < 10 then ('0' as int + n) as char else ('a' as int + n - 10) as char
  }

  /** Reading a digit and writing its value back gives the same digit. */
  lemma DigitOfValue(c: char)
    requires IsHexDigit(c)
    ensures Digit(DigitValue(c)) == c
  {
  }

  /** `hex::encode`: every byte becomes its high and low nibble digits. */
  function Encode(bs: seq<byte>): (s: string)
    ensures |s| == 2 * |bs|
    ensures IsLowerHex(s)
  {
    if bs == [] then ""
    else [Digit(bs[0] as int / 16), Digit(bs[0] as int % 16)] + Encode(bs[1..])
  }

  /** Reads hex text back into bytes; fails on odd length or on any
      character outside the lowercase alphabet. */
  function Decode(s: string): (r: Option<seq<byte>>)
    ensures r.Some? <==> |s| % 2 == 0 && IsLowerHex(s)
    ensures r.Some? ==> 2 * |r.value| == |s|
    decreases |s|
  {
    if |s| == 0 then Some([])
    else if |s| == 1 || !IsHexDigit(s[0]) || !IsHexDigit(s[1]) then None
    else
      match Decode(s[2..])
      case None => None
      case Some(rest) => Some([(DigitValue(s[0]) * 16 + DigitValue(s[1])) as byte] + rest)
  }

  /** Encoding loses nothing: decoding the text gives back the bytes. */
  lemma {:induction false} DecodeEncode(bs: seq<byte>)
    ensures Decode(Encode(bs)) == Some(bs)
  {
    if bs != [] {
      var s := Encode(bs);
      assert s[2..] == Encode(bs[1..]);
      DecodeEncode(bs[1..]);
      assert DigitValue(s[0]) * 16 + DigitValue(s[1]) == bs[0] as int;
      assert [bs[0]] + bs[1..] == bs;
    }
  }

  /** Every string the decoder accepts is the encoding of what it decodes to. */
  lemma {:induction false} EncodeDecode(s: string)
    requires Decode(s).Some?
    ensures Encode(Decode(s).value) == s
    decreases |s|
  {
    if |s| != 0 {
      var bs := Decode(s).value;
      EncodeDecode(s[2..]);
      assert bs[1..] == Decode(s[2..]).value;
      var hi, lo := DigitValue(s[0]), DigitValue(s[1]);
      assert bs[0] as int == hi * 16 + lo;
      assert (hi * 16 + lo) / 16 == hi && (hi * 16 + lo) % 16 == lo;
      DigitOfValue(s[0]);
      DigitOfValue(s[1]);
      assert Encode(bs) == [Digit(hi), Digit(lo)] + Encode(bs[1..]);
      assert s == [s[0], s[1]] + s[2..];
    }
  }

  /** The high nibble comes first: byte `i` is written as the digit of its
      high nibble at position `2 * i`, then the digit of its low nibble. */
  lemma {:induction false} EncodeHighNibbleFirst(bs: seq<byte>)
    ensures forall i :: 0 <= i < |bs| ==>
              DigitValue(Encode(bs)[2 * i]) == bs[i] as int / 16 && DigitValue(Encode(bs)[2 * i + 1]) == bs[i] as int % 16
    ensures Encode([171 as byte]) == "ab"
  {
    if bs != [] {
      EncodeHighNibbleFirst(bs[1..]);
      var s := Encode(bs);
      assert s[2..] == Encode(bs[1..]);
      forall i | 0 < i < |bs|
        ensures DigitValue(s[2 * i]) == bs[i] as int / 16 && DigitValue(s[2 * i + 1]) == bs[i] as int % 16
      {
        assert s[2 * i] == Encode(bs[1..])[2 * (i - 1)];
        assert s[2 * i + 1] == Encode(bs[1..])[2 * (i - 1) + 1];
        assert bs[i] == bs[1..][i - 1];
      }
    }
    assert Encode([171 as byte]) == [Digit(10), Digit(11)] + Encode([]);
  }

  /** Distinct byte strings have distinct encodings. */
  lemma EncodeInjective(a: seq<byte>, b: seq<byte>)
    ensures Encode(a) == Encode(b) <==> a == b
  {
    DecodeEncode(a);
    DecodeEncode(b);
  }
}
