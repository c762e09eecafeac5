/**
 * UTF-8, the byte form of Go strings. Percent-encoding works on these bytes,
 * so a character outside ASCII becomes two to four `%XX` groups.
 */
module Utf8 {
  import opened Common

  /** A code point Dafny can hold in a `char`: not a surrogate, at most U+10FFFF. */
  predicate IsScalar(n: int)
  {
    (0 <= n < 0xD800) || (0xE000 <= n < 0x11_0000)
  }

  /** True of the bytes 0x80-0xBF that continue a multi-byte sequence. */
  predicate IsContinuation(b: byte)
  {
    0x80 <= b < 0xC0
  }

  /** The UTF-8 bytes of one character. */
  function EncodeChar(c: char): (bs: seq<byte>)
    ensures 1 <= |bs| <= 4
    ensures |bs| == 1 <==> c as int < 0x80
    ensures forall i :: 1 <= i < |bs| ==> IsContinuation(bs[i])
  {
    var n := c as int;
    if n < 0x80 then [n as byte]
    else if n < 0x800 then [(0xC0 + n / 64) as byte, (0x80 + n % 64) as byte]
    else if n < 0x1_0000 then
      [(0xE0 + n / 64 / 64) as byte, (0x80 + n / 64 % 64) as byte, (0x80 + n % 64) as byte]
    else
      [(0xF0 + n / 64 / 64 / 64) as byte, (0x80 + n / 64 / 64 % 64) as byte,
       (0x80 + n / 64 % 64) as byte, (0x80 + n % 64) as byte]
  }

  /** The UTF-8 bytes of a string. */
  function Encode(s: string): (bs: seq<byte>)
    ensures |bs| >= |s|
  {
    if s == [] then [] else EncodeChar(s[0]) + Encode(s[1..])
  }

  /** How many bytes a sequence starting with `b` has; 0 when `b` cannot start one. */
  function LeadLength(b: byte): (n: nat)
    ensures n <= 4
  {
    if b < 0x80 then 1
    else if 0xC0 <= b < 0xE0 then 2
    else if 0xE0 <= b < 0xF0 then 3
    else if 0xF0 <= b < 0xF8 then 4
    else 0
  }

  /** The code point a single well-formed sequence of one to four bytes encodes. */
  function DecodeChar(bs: seq<byte>): (r: Option<char>)
    requires 1 <= |bs| <= 4 && LeadLength(bs[0]) == |bs|
  {
    if |bs| == 1 then Some(bs[0] as int as char)
    else if exists i :: 1 <= i < |bs| && !IsContinuation(bs[i]) then None
    else
      var n :=
        if |bs| == 2 then (bs[0] as int - 0xC0) * 64 + (bs[1] as int - 0x80)
        else if |bs| == 3 then
          (bs[0] as int - 0xE0) * 4096 + (bs[1] as int - 0x80) * 64 + (bs[2] as int - 0x80)
        else
          (bs[0] as int - 0xF0) * 262144 + (bs[1] as int - 0x80) * 4096
          + (bs[2] as int - 0x80) * 64 + (bs[3] as int - 0x80);
      var least := if |bs| == 2 then 0x80 else if |bs| == 3 then 0x800 else 0x1_0000;
      if least <= n && IsScalar(n) then Some(n as char) else None
  }

  /** The string whose UTF-8 bytes are `bs`, if they are well-formed. */
  function Decode(bs: seq<byte>): (r: Option<string>)
    decreases |bs|
  {
    if bs == [] then Some([])
    else
      var n := LeadLength(bs[0]);
      if n == 0 || |bs| < n then None
      else match (DecodeChar(bs[..n]), Decode(bs[n..]))
        case (Some(c), Some(rest)) => Some([c] + rest)
        case _ => None
  }

  /** One character's bytes decode to that character, and say how long they are. */
  lemma DecodeEncodeChar(c: char)
    ensures LeadLength(EncodeChar(c)[0]) == |EncodeChar(c)|
    ensures DecodeChar(EncodeChar(c)) == Some(c)
  {
    var n := c as int;
    if 0x80 <= n < 0x800 {
      DecodeTwo(c);
    } else if 0x800 <= n < 0x1_0000 {
      DecodeThree(c);
    } else if 0x1_0000 <= n {
      DecodeFour(c);
    }
  }

  lemma DecodeTwo(c: char)
    requires 0x80 <= c as int < 0x800
    ensures LeadLength(EncodeChar(c)[0]) == 2
    ensures DecodeChar(EncodeChar(c)) == Some(c)
  {
    var n := c as int;
    var bs := EncodeChar(c);
    assert (bs[0] as int - 0xC0) * 64 + (bs[1] as int - 0x80) == n;
  }

  lemma DecodeThree(c: char)
    requires 0x800 <= c as int < 0x1_0000
    ensures LeadLength(EncodeChar(c)[0]) == 3
    ensures DecodeChar(EncodeChar(c)) == Some(c)
  {
    var n := c as int;
    var a, d := n / 64, n % 64;
    var b, e := a / 64, a % 64;
    assert n == b * 4096 + e * 64 + d;
    var bs := EncodeChar(c);
    assert bs == [(0xE0 + b) as byte, (0x80 + e) as byte, (0x80 + d) as byte];
    assert (bs[0] as int - 0xE0) * 4096 + (bs[1] as int - 0x80) * 64 + (bs[2] as int - 0x80) == n;
  }

  lemma DecodeFour(c: char)
    requires 0x1_0000 <= c as int
    ensures LeadLength(EncodeChar(c)[0]) == 4
    ensures DecodeChar(EncodeChar(c)) == Some(c)
  {
    var n := c as int;
    var a, d := n / 64, n % 64;
    var b, e := a / 64, a % 64;
    var f, g := b / 64, b % 64;
    assert n == f * 262144 + g * 4096 + e * 64 + d;
    var bs := EncodeChar(c);
    assert bs == [(0xF0 + f) as byte, (0x80 + g) as byte, (0x80 + e) as byte, (0x80 + d) as byte];
    assert (bs[0] as int - 0xF0) * 262144 + (bs[1] as int - 0x80) * 4096
      + (bs[2] as int - 0x80) * 64 + (bs[3] as int - 0x80) == n;
  }

  /** Decoding inverts encoding. */
  lemma {:induction false} DecodeEncode(s: string)
    ensures Decode(Encode(s)) == Some(s)
  {
    if s != [] {
      var head := EncodeChar(s[0]);
      var bs := Encode(s);
      DecodeEncodeChar(s[0]);
      DecodeEncode(s[1..]);
      assert bs[..|head|] == head;
      assert bs[|head|..] == Encode(s[1..]);
      assert s == [s[0]] + s[1..];
    }
  }
}
