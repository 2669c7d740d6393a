/**
 * UTF-8 (RFC 3629) encoding of Unicode scalar values, as used by
 * `TextEncoder.encode` and by `encodeURIComponent` for the characters it
 * escapes.  A Dafny `char` is a Unicode scalar value, so strings holding
 * lone surrogates (which make `encodeURIComponent` throw) are outside
 * this model.
 */
module Utf8 {
  import opened Js

  /** The shortest UTF-8 encoding of one scalar value: 1 to 4 bytes. */
  function EncodeChar(c: char): (bs: seq<byte>)
    ensures 1 <= |bs| <= 4
    ensures (|bs| == 1) == (c as int < 0x80)
    ensures |bs| == 1 ==> bs[0] == c as int
    ensures |bs| > 1 ==> LeadLength(bs[0]) == |bs| && forall k | 1 <= k < |bs| :: IsContinuation(bs[k])
  {
    var n := c as int;
    if n < 0x80 then [n]
    else if n < 0x800 then [0xC0 + n / 64, 0x80 + n % 64]
    else if n < 0x10000 then [0xE0 + n / 4096, 0x80 + (n / 64) % 64, 0x80 + n % 64]
    else [0xF0 + n / 262144, 0x80 + (n / 4096) % 64, 0x80 + (n / 64) % 64, 0x80 + n % 64]
  }

  /** `new TextEncoder().encode(s)`. */
  function Encode(s: string): (bs: seq<byte>)
    ensures |bs| >= |s|
  {
    if s == [] then [] else EncodeChar(s[0]) + Encode(s[1..])
  }

  /** A byte of the form 10xxxxxx. */
  predicate IsContinuation(b: byte) {
    0x80 <= b < 0xC0
  }

  /** The sequence length a leading byte announces: 2, 3 or 4; 0 for a byte that cannot lead a multi-byte sequence. */
  function LeadLength(b: byte): nat {
    if 0xC0 <= b < 0xE0 then 2
    else if 0xE0 <= b < 0xF0 then 3
    else if 0xF0 <= b < 0xF8 then 4
    else 0
  }

  /**
   * The scalar value of a multi-byte sequence (leading byte and its
   * continuation bytes), or None for an overlong form, a surrogate or a
   * value above U+10FFFF.
   */
  function DecodeSequence(lead: byte, rest: seq<byte>): (r: Option<char>)
    requires LeadLength(lead) == |rest| + 1 >= 2
    requires forall k | 0 <= k < |rest| :: IsContinuation(rest[k])
  {
    var v := SequenceValue(lead, rest);
    var least := if |rest| == 1 then 0x80 else if |rest| == 2 then 0x800 else 0x10000;
    if v < least || (0xD800 <= v < 0xE000) || v >= 0x110000 then None
    else Some(v as char)
  }

  /** The bits a multi-byte sequence carries, before the range checks. */
  function SequenceValue(lead: byte, rest: seq<byte>): int
    requires LeadLength(lead) == |rest| + 1 >= 2
  {
    var b0: int := lead;
    var b1: int := rest[0];
    if |rest| == 1 then (b0 - 0xC0) * 64 + (b1 - 0x80)
    else
      var b2: int := rest[1];
      if |rest| == 2 then (b0 - 0xE0) * 4096 + (b1 - 0x80) * 64 + (b2 - 0x80)
      else
        var b3: int := rest[2];
        (b0 - 0xF0) * 262144 + (b1 - 0x80) * 4096 + (b2 - 0x80) * 64 + (b3 - 0x80)
  }

  lemma DivMod64(n: int)
    requires n >= 0
    ensures n == (n / 64) * 64 + n % 64
    ensures n / 4096 == (n / 64) / 64
    ensures n / 262144 == (n / 4096) / 64
  {
  }

  /** Decoding the bytes of a multi-byte character gives the character back. */
  lemma DecodeEncodeChar(c: char)
    requires c as int >= 0x80
    ensures DecodeSequence(EncodeChar(c)[0], EncodeChar(c)[1..]) == Some(c)
  {
    var n := c as int;
    var bs := EncodeChar(c);
    DivMod64(n);
    DivMod64(n / 64);
    DivMod64(n / 4096);
    assert SequenceValue(bs[0], bs[1..]) == n;
  }
}
