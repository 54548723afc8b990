/** UTF-8 encoding of text (`str.encode('utf-8')`), following section 3 of RFC 3629. */
module Utf8 {

  newtype byte = b: int | 0 <= b < 256

  /** The one to four bytes that encode one Unicode scalar value. */
  function EncodeChar(c: char): (bs: seq<byte>)
    ensures 1 <= |bs| <= 4
    ensures (c as int < 0x80) == (|bs| == 1)
    ensures |bs| == 1 ==> bs[0] as int == c as int
    ensures |bs| > 1 ==> 0xC0 <= bs[0] as int && forall k :: 1 <= k < |bs| ==> 0x80 <= bs[k] as int < 0xC0
  {
    var cp := c as int;
    if cp < 0x80 then
      [cp as byte]
    else if cp < 0x800 then
      [(0xC0 + cp / 64) as byte, (0x80 + cp % 64) as byte]
    else if cp < 0x10000 then
      [(0xE0 + cp / 4096) as byte, (0x80 + (cp / 64) % 64) as byte, (0x80 + cp % 64) as byte]
    else
      [(0xF0 + cp / 262144) as byte, (0x80 + (cp / 4096) % 64) as byte,
       (0x80 + (cp / 64) % 64) as byte, (0x80 + cp % 64) as byte]
  }

  /** The UTF-8 bytes of a whole string: each character's bytes, in order. */
  function Encode(s: string): (bs: seq<byte>)
    ensures |s| <= |bs| <= 4 * |s|
    ensures bs == [] <==> s == []
  {
    if s == [] then [] else EncodeChar(s[0]) + Encode(s[1..])
  }

  /** Text made of ASCII characters only is sent byte for byte. */
  lemma {:induction false} EncodeAscii(s: string)
    requires forall k :: 0 <= k < |s| ==> s[k] as int < 0x80
    ensures |Encode(s)| == |s|
    ensures forall k :: 0 <= k < |s| ==> Encode(s)[k] as int == s[k] as int
  {
    if s != [] {
      EncodeAscii(s[1..]);
    }
  }
}
