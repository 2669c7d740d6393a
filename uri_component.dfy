/**
 * `encodeURIComponent` and `decodeURIComponent` of ECMA-262 (section
 * "URI Handling Functions"): characters of the unreserved set
 * `A-Z a-z 0-9 - _ . ! ~ * ' ( )` are kept, every other character is
 * written as the `%XY` escapes (upper-case hex, RFC 3986 section 2.1) of
 * its UTF-8 bytes.  Decoding turns every escape back, and fails (throws
 * URIError) on a broken escape or an invalid UTF-8 sequence.
 */
module UriComponent {
  import opened Js
  import Utf8

  /** The ECMA-262 set uriUnreserved: uriAlpha, DecimalDigit and uriMark. */
  predicate IsUnreserved(ch: char) {
    ('A' <= ch <= 'Z') || ('a' <= ch <= 'z') || ('0' <= ch <= '9')
    || ch == '-' || ch == '_' || ch == '.' || ch == '!' || ch == '~'
    || ch == '*' || ch == '\'' || ch == '(' || ch == ')'
  }

  /** Upper-case hexadecimal digit for 0..15. */
  function HexDigit(d: int): (ch: char)
    requires 0 <= d < 16
    ensures IsHexDigit(ch) && HexValue(ch) == d
  {
    if d < 10 then ('0' as int + d) as char else ('A' as int + d - 10) as char
  }

  predicate IsHexDigit(ch: char) {
    ('0' <= ch <= '9') || ('A' <= ch <= 'F') || ('a' <= ch <= 'f')
  }

  function HexValue(ch: char): (d: int)
    requires IsHexDigit(ch)
    ensures 0 <= d < 16
  {
    if '0' <= ch <= '9' then ch as int - '0' as int
    else if 'A' <= ch <= 'F' then ch as int - 'A' as int + 10
    else ch as int - 'a' as int + 10
  }

  /** `%XY` for one byte. */
  function Escape(b: byte): string {
    ['%', HexDigit(b / 16), HexDigit(b % 16)]
  }

  function EscapeAll(bs: seq<byte>): (r: string)
    ensures |r| == 3 * |bs|
  {
    if bs == [] then [] else Escape(bs[0]) + EscapeAll(bs[1..])
  }

  /** The characters `encodeURIComponent` can produce. */
  predicate IsEncodedChar(ch: char) {
    IsUnreserved(ch) || ch == '%' || ('A' <= ch <= 'F')
  }

  lemma {:induction false} EscapeAllChars(bs: seq<byte>)
    ensures forall i | 0 <= i < |EscapeAll(bs)| :: IsEncodedChar(EscapeAll(bs)[i])
  {
    if bs != [] {
      EscapeAllChars(bs[1..]);
    }
  }

  /** The encoding of one character. */
  function EncodeChar(c: char): (r: string)
    ensures r != []
    ensures forall i | 0 <= i < |r| :: IsEncodedChar(r[i])
  {
    if IsUnreserved(c) then [c]
    else
      EscapeAllChars(Utf8.EncodeChar(c));
      EscapeAll(Utf8.EncodeChar(c))
  }

  /** `encodeURIComponent(s)`: the result is ASCII from a fixed 70-character set, so it never holds `:` or `#`. */
  function Encode(s: string): (r: string)
    ensures forall i | 0 <= i < |r| :: IsEncodedChar(r[i])
    ensures ':' !in r && '#' !in r
  {
    if s == [] then [] else EncodeChar(s[0]) + Encode(s[1..])
  }

  /** The byte of a `%XY` escape at the start of `s`. */
  function EscapedByte(s: string): Option<byte> {
    if |s| >= 3 && s[0] == '%' && IsHexDigit(s[1]) && IsHexDigit(s[2])
    then Some(HexValue(s[1]) * 16 + HexValue(s[2]))
    else None
  }

  /** `count` escaped continuation bytes at the start of `s`. */
  function Continuations(s: string, count: nat): (r: Option<seq<byte>>)
    ensures r.Some? ==> |r.value| == count && |s| >= 3 * count
    ensures r.Some? ==> forall k | 0 <= k < count :: Utf8.IsContinuation(r.value[k])
  {
    if count == 0 then Some([])
    else match EscapedByte(s)
      case None => None
      case Some(b) =>
        if !Utf8.IsContinuation(b) then None
        else match Continuations(s[3..], count - 1)
          case None => None
          case Some(bs) => Some([b] + bs)
  }

  function Prepend(c: char, r: Option<string>): Option<string> {
    if r.Some? then Some([c] + r.value) else None
  }

  /** `decodeURIComponent(s)`; None stands for the URIError it throws. */
  function Decode(s: string): Option<string>
    decreases |s|
  {
    if s == [] then Some([])
    else if s[0] != '%' then Prepend(s[0], Decode(s[1..]))
    else match EscapedByte(s)
      case None => None
      case Some(b) =>
        if b < 0x80 then Prepend(b as char, Decode(s[3..]))
        else
          var n := Utf8.LeadLength(b);
          if n == 0 then None
          else match Continuations(s[3..], n - 1)
            case None => None
            case Some(rest) =>
              match Utf8.DecodeSequence(b, rest)
              case None => None
              case Some(c) => Prepend(c, Decode(s[3 * n..]))
  }

  lemma EscapedByteOfEscape(b: byte, tail: string)
    ensures EscapedByte(Escape(b) + tail) == Some(b)
  {
  }

  lemma {:induction false} ContinuationsOfEscapes(bs: seq<byte>, tail: string)
    requires forall k | 0 <= k < |bs| :: Utf8.IsContinuation(bs[k])
    ensures Continuations(EscapeAll(bs) + tail, |bs|) == Some(bs)
  {
    if bs != [] {
      var s := EscapeAll(bs) + tail;
      assert s == Escape(bs[0]) + (EscapeAll(bs[1..]) + tail);
      EscapedByteOfEscape(bs[0], EscapeAll(bs[1..]) + tail);
      assert s[3..] == EscapeAll(bs[1..]) + tail;
      ContinuationsOfEscapes(bs[1..], tail);
      assert [bs[0]] + bs[1..] == bs;
    }
  }

  /** An escaped byte below 0x80 decodes to the character of that code. */
  lemma DecodeEscapedAscii(b: byte, tail: string)
    requires b < 0x80
    ensures Decode(Escape(b) + tail) == Prepend(b as char, Decode(tail))
  {
    var s := Escape(b) + tail;
    EscapedByteOfEscape(b, tail);
    assert s[3..] == tail;
  }

  /** The escapes of a valid multi-byte UTF-8 sequence decode to the character it encodes. */
  lemma DecodeEscapedSequence(bs: seq<byte>, c: char, tail: string)
    requires 2 <= |bs| && Utf8.LeadLength(bs[0]) == |bs|
    requires forall k | 1 <= k < |bs| :: Utf8.IsContinuation(bs[k])
    requires Utf8.DecodeSequence(bs[0], bs[1..]) == Some(c)
    ensures Decode(EscapeAll(bs) + tail) == Prepend(c, Decode(tail))
  {
    var s := EscapeAll(bs) + tail;
    assert s == Escape(bs[0]) + (EscapeAll(bs[1..]) + tail);
    EscapedByteOfEscape(bs[0], EscapeAll(bs[1..]) + tail);
    assert s[3..] == EscapeAll(bs[1..]) + tail;
    ContinuationsOfEscapes(bs[1..], tail);
    assert s[3 * |bs|..] == tail;
  }

  /** Decoding the encoding of one character, followed by anything, yields that character first. */
  lemma DecodeEncodeChar(c: char, tail: string)
    ensures Decode(EncodeChar(c) + tail) == Prepend(c, Decode(tail))
  {
    if IsUnreserved(c) {
      assert (EncodeChar(c) + tail)[1..] == tail;
    } else {
      var bs := Utf8.EncodeChar(c);
      if |bs| == 1 {
        assert EscapeAll(bs) == Escape(bs[0]);
        DecodeEscapedAscii(bs[0], tail);
        assert bs[0] as char == c;
      } else {
        Utf8.DecodeEncodeChar(c);
        DecodeEscapedSequence(bs, c, tail);
      }
    }
  }

  /** `decodeURIComponent(encodeURIComponent(s)) == s`. */
  lemma {:induction false} DecodeEncode(s: string)
    ensures Decode(Encode(s)) == Some(s)
  {
    if s != [] {
      var rest := Encode(s[1..]);
      assert Encode(s) == EncodeChar(s[0]) + rest;
      DecodeEncodeChar(s[0], rest);
      DecodeEncode(s[1..]);
      assert [s[0]] + s[1..] == s;
    }
  }

  /** Distinct strings have distinct encodings. */
  lemma EncodeInjective(s: string, t: string)
    requires Encode(s) == Encode(t)
    ensures s == t
  {
    DecodeEncode(s);
    DecodeEncode(t);
  }
}
