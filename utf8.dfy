/** UTF-8 (RFC 3629), as used by `Buffer.byteLength` to measure the body. */
module Utf8 {

  newtype byte = x: int | 0 <= x < 256

  /** The bytes of one Unicode scalar value, in the shortest form the table
      of section 3 of RFC 3629 allows for its range. */
  function EncodeChar(c: char): (bs: seq<byte>)
    ensures 1 <= |bs| <= 4
    ensures |bs| == 1 <==> c as int < 0x80
    ensures |bs| == 2 <==> 0x80 <= c as int < 0x800
    ensures |bs| == 3 <==> 0x800 <= c as int < 0x1_0000
    ensures |bs| == 4 <==> 0x1_0000 <= c as int
  {
    var v := c as int;
    if v < 0x80 then
      [v as byte]
    else if v < 0x800 then
      [(0xC0 + v / 0x40) as byte, (0x80 + v % 0x40) as byte]
    else if v < 0x1_0000 then
      [(0xE0 + v / 0x1000) as byte, (0x80 + v / 0x40 % 0x40) as byte, (0x80 + v % 0x40) as byte]
    else
      [(0xF0 + v / 0x4_0000) as byte, (0x80 + v / 0x1000 % 0x40) as byte,
       (0x80 + v / 0x40 % 0x40) as byte, (0x80 + v % 0x40) as byte]
  }

  /** The length of a sequence announced by its first byte, as a decoder reads it. */
  function SequenceLength(lead: byte): nat {
    if lead < 0x80 then 1
    else if lead < 0xC0 then 0
    else if lead < 0xE0 then 2
    else if lead < 0xF0 then 3
    else if lead < 0xF8 then 4
    else 0
  }

  predicate IsContinuation(b: byte) {
    0x80 <= b < 0xC0
  }

  /** The scalar value a well-formed sequence stands for. */
  function DecodeSequence(bs: seq<byte>): int
    requires 1 <= |bs| <= 4
  {
    if |bs| == 1 then bs[0] as int
    else if |bs| == 2 then (bs[0] as int - 0xC0) * 0x40 + (bs[1] as int - 0x80)
    else if |bs| == 3 then
      (bs[0] as int - 0xE0) * 0x1000 + (bs[1] as int - 0x80) * 0x40 + (bs[2] as int - 0x80)
    else
      (bs[0] as int - 0xF0) * 0x4_0000 + (bs[1] as int - 0x80) * 0x1000
        + (bs[2] as int - 0x80) * 0x40 + (bs[3] as int - 0x80)
  }

  /** Splitting off six bits twice is splitting off twelve. */
  lemma ShiftTwice(v: nat)
    ensures v / 0x40 / 0x40 == v / 0x1000
  {
    var q, r := v / 0x40, v % 0x40;
    var q2, r2 := q / 0x40, q % 0x40;
    assert v == q2 * 0x1000 + (r2 * 0x40 + r);
  }

  /** Splitting off twelve bits, then six, is splitting off eighteen. */
  lemma ShiftThrice(v: nat)
    ensures v / 0x1000 / 0x40 == v / 0x4_0000
  {
    var q, r := v / 0x1000, v % 0x1000;
    var q2, r2 := q / 0x40, q % 0x40;
    assert v == q2 * 0x4_0000 + (r2 * 0x1000 + r);
  }

  /** Each character's bytes are a well-formed UTF-8 sequence: the lead byte
      announces the length, the rest are continuation bytes, and decoding
      gives the character back. */
  lemma EncodeCharWellFormed(c: char)
    ensures SequenceLength(EncodeChar(c)[0]) == |EncodeChar(c)|
    ensures forall k :: 1 <= k < |EncodeChar(c)| ==> IsContinuation(EncodeChar(c)[k])
    ensures DecodeSequence(EncodeChar(c)) == c as int
  {
    var v := c as int;
    var bs := EncodeChar(c);
    if v < 0x80 {
    } else if v < 0x800 {
      assert v == v / 0x40 * 0x40 + v % 0x40;
    } else if v < 0x1_0000 {
      ShiftTwice(v);
      var hi, mid, lo := v / 0x1000, v / 0x40 % 0x40, v % 0x40;
      assert v / 0x40 == hi * 0x40 + mid;
      assert v == (hi * 0x40 + mid) * 0x40 + lo;
      assert DecodeSequence(bs) == hi * 0x1000 + mid * 0x40 + lo;
    } else {
      ShiftTwice(v);
      ShiftThrice(v);
      var top, hi, mid, lo := v / 0x4_0000, v / 0x1000 % 0x40, v / 0x40 % 0x40, v % 0x40;
      assert v / 0x1000 == top * 0x40 + hi;
      assert v / 0x40 == (top * 0x40 + hi) * 0x40 + mid;
      assert v == ((top * 0x40 + hi) * 0x40 + mid) * 0x40 + lo;
      assert DecodeSequence(bs) == top * 0x4_0000 + hi * 0x1000 + mid * 0x40 + lo;
    }
  }

  function Encode(s: string): seq<byte>
    decreases |s|
  {
    if |s| == 0 then [] else EncodeChar(s[0]) + Encode(s[1..])
  }

  /** `Buffer.byteLength(s)` for a string of scalar values: the bytes of
      each character, counted one character at a time. */
  function ByteLength(s: string): (n: nat)
    ensures n == |Encode(s)|
    ensures |s| <= n <= 4 * |s|
    decreases |s|
  {
    if |s| == 0 then 0 else |EncodeChar(s[0])| + ByteLength(s[1..])
  }

  predicate IsAscii(s: string) {
    forall i :: 0 <= i < |s| ==> s[i] as int < 0x80
  }

  /** Characters outside ASCII take two, three and four bytes, one range each. */
  lemma ByteLengthExamples()
    ensures ByteLength("\U{E9}") == 2
    ensures ByteLength("\U{20AC}") == 3
    ensures ByteLength("\U{1F600}") == 4
    ensures ByteLength("caf\U{E9}") == 5
  {
    assert "caf\U{E9}"[1..][1..][1..] == "\U{E9}";
  }

  /** Every character takes between one and four bytes, and exactly one
      exactly when it is ASCII. */
  lemma {:induction false} ByteLengthBounds(s: string)
    ensures |s| <= ByteLength(s) <= 4 * |s|
    ensures ByteLength(s) == |s| <==> IsAscii(s)
    decreases |s|
  {
    if |s| > 0 {
      ByteLengthBounds(s[1..]);
      assert IsAscii(s) <==> s[0] as int < 0x80 && IsAscii(s[1..]) by {
        if s[0] as int < 0x80 && IsAscii(s[1..]) {
          forall i | 0 <= i < |s| ensures s[i] as int < 0x80 {
            if i > 0 { assert s[i] == s[1..][i - 1]; }
          }
        }
      }
    }
  }
}
