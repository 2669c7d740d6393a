/**
 * base64.ts: conversions between bytes, base64 (RFC 4648 section 4) and
 * base64url (RFC 4648 section 5), over the platform's `btoa`/`atob`.
 * `btoa` is the RFC 4648 section 4 encoding, with padding, of a string
 * whose code points are all at most 0xFF; `atob` is the forgiving-base64
 * decode of the WHATWG HTML standard (white space ignored, padding
 * optional, leftover bits discarded), whose result is again a string of
 * such code points.
 */
module Base64 {
  import opened Js
  import opened Strings

  // ---------------------------------------------------------------------
  // The alphabet of RFC 4648 section 4, table 1
  // ---------------------------------------------------------------------

  predicate IsSymbol(c: char) {
    ('A' <= c <= 'Z') || ('a' <= c <= 'z') || ('0' <= c <= '9') || c == '+' || c == '/'
  }

  /** The character of a 6-bit value. */
  function Symbol(i: int): (c: char)
    requires 0 <= i < 64
    ensures IsSymbol(c) && SymbolIndex(c) == i
  {
    if i < 26 then ('A' as int + i) as char
    else if i < 52 then ('a' as int + i - 26) as char
    else if i < 62 then ('0' as int + i - 52) as char
    else if i == 62 then '+'
    else '/'
  }

  /** The 6-bit value of a character of the alphabet. */
  function SymbolIndex(c: char): (i: int)
    requires IsSymbol(c)
    ensures 0 <= i < 64
  {
    if 'A' <= c <= 'Z' then c as int - 'A' as int
    else if 'a' <= c <= 'z' then c as int - 'a' as int + 26
    else if '0' <= c <= '9' then c as int - '0' as int + 52
    else if c == '+' then 62
    else 63
  }

  /** Every character of the alphabet is the symbol of its own value. */
  lemma SymbolOfIndex(c: char)
    requires IsSymbol(c)
    ensures Symbol(SymbolIndex(c)) == c
  {
  }

  // ---------------------------------------------------------------------
  // Encoding (btoa)
  // ---------------------------------------------------------------------

  /**
   * The symbols of a group of 1 to 3 bytes: the 24 bits of a full group
   * give 4 symbols of 6 bits; a final group of 1 or 2 bytes gives 2 or 3
   * symbols whose unused low bits are zero.
   */
  function EncodeGroup(g: seq<byte>): (r: string)
    requires 1 <= |g| <= 3
    ensures |r| == |g| + 1
    ensures forall i | 0 <= i < |r| :: IsSymbol(r[i])
  {
    var x: int := g[0];
    var y: int := if |g| > 1 then g[1] else 0;
    var z: int := if |g| > 2 then g[2] else 0;
    var symbols := [Symbol(x / 4), Symbol(x % 4 * 16 + y / 16), Symbol(y % 16 * 4 + z / 64), Symbol(z % 64)];
    symbols[..|g| + 1]
  }

  /** The base64 characters of `b` without padding, group by group. */
  function EncodeUnpadded(b: seq<byte>): (r: string)
    ensures |r| == (4 * |b| + 2) / 3
    ensures forall i | 0 <= i < |r| :: IsSymbol(r[i])
  {
    if |b| == 0 then []
    else
      var n := if |b| < 3 then |b| else 3;
      EncodeGroup(b[..n]) + EncodeUnpadded(b[n..])
  }

  /** The `=` characters that complete the final group of `n` bytes. */
  function Padding(n: nat): string {
    if n % 3 == 1 then "==" else if n % 3 == 2 then "=" else ""
  }

  /** Padding is zero, one or two `=`. */
  lemma PaddingShape(n: nat)
    ensures |Padding(n)| == (if n % 3 == 1 then 2 else if n % 3 == 2 then 1 else 0)
    ensures forall i | 0 <= i < |Padding(n)| :: Padding(n)[i] == '='
  {
  }

  /** RFC 4648 section 4 encoding, padded to a multiple of 4 characters. */
  function EncodeBytes(b: seq<byte>): (r: string)
    ensures |r| % 4 == 0 && |r| == 4 * ((|b| + 2) / 3)
    ensures forall i | 0 <= i < |r| :: IsSymbol(r[i]) || r[i] == '='
  {
    PaddedLength(|b|);
    PaddingShape(|b|);
    EncodeUnpadded(b) + Padding(|b|)
  }

  lemma PaddedLength(n: nat)
    ensures (4 * n + 2) / 3 + |Padding(n)| == 4 * ((n + 2) / 3)
    ensures 4 * ((n + 2) / 3) % 4 == 0
  {
    var k := n / 3;
    assert n == 3 * k + n % 3;
    if n % 3 == 0 {
      assert (4 * n + 2) / 3 == 4 * k;
      assert (n + 2) / 3 == k;
    } else if n % 3 == 1 {
      assert (4 * n + 2) / 3 == 4 * k + 2;
      assert (n + 2) / 3 == k + 1;
    } else {
      assert (4 * n + 2) / 3 == 4 * k + 3;
      assert (n + 2) / 3 == k + 1;
    }
  }

  /** The code points of a string known to hold none above 0xFF. */
  function Latin1Codes(s: string): (b: seq<byte>)
    requires forall i | 0 <= i < |s| :: s[i] as int <= 0xFF
    ensures |b| == |s| && forall i | 0 <= i < |s| :: b[i] == s[i] as int
  {
    if s == [] then [] else [s[0] as int] + Latin1Codes(s[1..])
  }

  /** `btoa(s)`; None stands for the InvalidCharacterError thrown for a code point above 0xFF. */
  function Btoa(s: string): (r: Option<string>)
    ensures r.None? <==> exists i | 0 <= i < |s| :: s[i] as int > 0xFF
  {
    if forall i | 0 <= i < |s| :: s[i] as int <= 0xFF then Some(EncodeBytes(Latin1Codes(s)))
    else None
  }

  // ---------------------------------------------------------------------
  // Decoding (atob)
  // ---------------------------------------------------------------------

  /** ASCII white space as the WHATWG Infra standard defines it: TAB, LF, FF, CR and SPACE. */
  predicate IsAsciiWhitespace(c: char) {
    c == '\t' || c == '\n' || c == '\U{000C}' || c == '\r' || c == ' '
  }

  function RemoveWhitespace(s: string): (r: string)
    ensures |r| <= |s|
    ensures forall i | 0 <= i < |r| :: !IsAsciiWhitespace(r[i])
    ensures (forall i | 0 <= i < |s| :: !IsAsciiWhitespace(s[i])) ==> r == s
  {
    if s == [] then []
    else (if IsAsciiWhitespace(s[0]) then [] else [s[0]]) + RemoveWhitespace(s[1..])
  }

  /** When the length is a multiple of 4, one or two trailing `=` are removed. */
  function RemovePadding(data: string): (r: string)
    ensures StartsWith(data, r) && |data| - 2 <= |r|
  {
    if |data| % 4 != 0 then data
    else if |data| >= 2 && data[|data| - 2] == '=' && data[|data| - 1] == '=' then data[..|data| - 2]
    else if |data| >= 1 && data[|data| - 1] == '=' then data[..|data| - 1]
    else data
  }

  /** The bytes of a group of 2 to 4 symbols; the bits that do not fill a byte are dropped. */
  function DecodeGroup(q: string): (g: seq<byte>)
    requires 2 <= |q| <= 4
    requires forall i | 0 <= i < |q| :: IsSymbol(q[i])
    ensures |g| == |q| - 1
  {
    var v0 := SymbolIndex(q[0]);
    var v1 := SymbolIndex(q[1]);
    var v2 := if |q| > 2 then SymbolIndex(q[2]) else 0;
    var v3 := if |q| > 3 then SymbolIndex(q[3]) else 0;
    var bytes: seq<byte> := [v0 * 4 + v1 / 16, v1 % 16 * 16 + v2 / 4, v2 % 4 * 64 + v3];
    bytes[..|q| - 1]
  }

  /** Removing a group of 4 symbols keeps the length class and takes 3 bytes off the decoded length. */
  lemma DecodedLengthStep(m: nat)
    requires m >= 4
    ensures (m - 4) % 4 == m % 4
    ensures 3 + 3 * (m - 4) / 4 == 3 * m / 4
  {
  }

  /** The bytes of a sequence of symbols whose length is not 1 more than a multiple of 4. */
  function DecodeSymbols(s: string): (b: seq<byte>)
    requires forall i | 0 <= i < |s| :: IsSymbol(s[i])
    requires |s| % 4 != 1
    ensures |b| == 3 * |s| / 4
  {
    if |s| == 0 then []
    else if |s| < 4 then
      assert |s| == 2 || |s| == 3;
      DecodeGroup(s)
    else
      DecodedLengthStep(|s|);
      DecodeGroup(s[..4]) + DecodeSymbols(s[4..])
  }

  /** The forgiving-base64 decode of the WHATWG HTML standard; None stands for failure. */
  function ForgivingDecode(s: string): (r: Option<seq<byte>>)
    ensures r.Some? ==> |r.value| <= |s|
  {
    var data := RemovePadding(RemoveWhitespace(s));
    if |data| % 4 == 1 then None
    else if !(forall i | 0 <= i < |data| :: IsSymbol(data[i])) then None
    else Some(DecodeSymbols(data))
  }

  /** `String.fromCharCode(...bytes)`: one character per byte, in order. */
  function FromCharCodes(bytes: seq<byte>): (s: string)
    ensures |s| == |bytes| && forall i | 0 <= i < |s| :: s[i] as int == bytes[i]
  {
    seq(|bytes|, i requires 0 <= i < |bytes| => bytes[i] as char)
  }

  /** `atob(s)`; None stands for the InvalidCharacterError thrown when the decode fails. */
  function Atob(s: string): (r: Option<string>)
    ensures r.Some? ==> forall i | 0 <= i < |r.value| :: r.value[i] as int <= 0xFF
  {
    match ForgivingDecode(s)
    case None => None
    case Some(bytes) => Some(FromCharCodes(bytes))
  }

  // ---------------------------------------------------------------------
  // base64.ts
  // ---------------------------------------------------------------------

  /** `"".join` of a list of strings. */
  function Concat(parts: seq<string>): string {
    if parts == [] then [] else Concat(parts[..|parts| - 1]) + parts[|parts| - 1]
  }

  /** `Array.from(bytes, (byte) => String.fromCodePoint(byte)).join("")`. */
  function JoinCodePoints(bytes: seq<byte>): string {
    Concat(seq(|bytes|, i requires 0 <= i < |bytes| => [bytes[i] as char]))
  }

  /** Both ways the sources build a binary string give the same string. */
  lemma {:induction false} JoinCodePointsIsFromCharCodes(bytes: seq<byte>)
    ensures JoinCodePoints(bytes) == FromCharCodes(bytes)
  {
    if bytes != [] {
      var n := |bytes| - 1;
      var parts := seq(|bytes|, i requires 0 <= i < |bytes| => [bytes[i] as char]);
      assert parts[..n] == seq(n, i requires 0 <= i < n => [bytes[..n][i] as char]);
      JoinCodePointsIsFromCharCodes(bytes[..n]);
      assert FromCharCodes(bytes) == FromCharCodes(bytes[..n]) + [bytes[n] as char];
    }
  }

  lemma {:induction false} Latin1CodesOfFromCharCodes(bytes: seq<byte>)
    ensures forall i | 0 <= i < |FromCharCodes(bytes)| :: FromCharCodes(bytes)[i] as int <= 0xFF
    ensures Latin1Codes(FromCharCodes(bytes)) == bytes
  {
  }

  /** `bytesToBase64(bytes)`: `btoa` of the binary string never throws, and gives the RFC 4648 encoding of the bytes. */
  function BytesToBase64(bytes: seq<byte>): (r: string)
    ensures Btoa(JoinCodePoints(bytes)) == Some(r)
    ensures r == EncodeBytes(bytes)
  {
    JoinCodePointsIsFromCharCodes(bytes);
    Latin1CodesOfFromCharCodes(bytes);
    Btoa(JoinCodePoints(bytes)).value
  }

  /** `base64urlToBase64(s)`: every `-` becomes `+` and every `_` becomes `/`. */
  function Base64urlToBase64(base64UrlEncoded: string): (r: string)
    ensures |r| == |base64UrlEncoded|
    ensures forall i | 0 <= i < |r| :: r[i] == Base64Char(base64UrlEncoded[i])
  {
    ReplaceAll(ReplaceAll(base64UrlEncoded, '-', '+'), '_', '/')
  }

  /** The base64 character for a base64url character. */
  function Base64Char(c: char): char {
    if c == '-' then '+' else if c == '_' then '/' else c
  }

  /** The base64url character for a base64 character. */
  function UrlChar(c: char): char {
    if c == '+' then '-' else if c == '/' then '_' else c
  }

  /**
   * `base64ToBase64Url(s)`: `+` becomes `-`, `/` becomes `_`, and the
   * trailing run of `=` (only that one) is removed.
   */
  function Base64ToBase64Url(base64Encoded: string): (r: string)
    ensures '+' !in r && '/' !in r
    ensures r == [] || r[|r| - 1] != '='
    ensures |r| <= |base64Encoded|
    ensures forall i | 0 <= i < |r| :: r[i] == UrlChar(base64Encoded[i])
    ensures forall i | |r| <= i < |base64Encoded| :: base64Encoded[i] == '='
  {
    var url := ReplaceAll(ReplaceAll(base64Encoded, '+', '-'), '/', '_');
    var r := TrimTrailing(url, '=');
    assert forall i | 0 <= i < |r| :: r[i] == url[i];
    r
  }

  /** `base64urlEncode(data)`: the base64url form of the bytes, without padding. */
  function Base64urlEncode(data: seq<byte>): (r: string)
    ensures r == Base64ToBase64Url(BytesToBase64(data))
  {
    Latin1CodesOfFromCharCodes(data);
    JoinCodePointsIsFromCharCodes(data);
    var base64Encoded := Btoa(FromCharCodes(data)).value;
    TrimTrailing(ReplaceAll(ReplaceAll(base64Encoded, '+', '-'), '/', '_'), '=')
  }

  /** The value `bytes[i] = s.charCodeAt(i)` stores in a `Uint8Array` (ToUint8: modulo 256). */
  function ToUint8(s: string): (b: seq<byte>)
    ensures |b| == |s|
  {
    seq(|s|, i requires 0 <= i < |s| => (s[i] as int) % 256)
  }

  /** What `bytesFromBase64(s)` returns; None stands for the error `atob` throws. */
  function Base64Bytes(base64: string): Option<seq<byte>> {
    match Atob(base64)
    case None => None
    case Some(binaryString) => Some(ToUint8(binaryString))
  }

  /** `bytesFromBase64(base64)`: decodes, then copies the char codes into a fresh byte array. */
  method BytesFromBase64(base64: string) returns (r: Result<array<byte>, Error>)
    ensures r.Failure? <==> Atob(base64).None?
    ensures r.Failure? ==> r.error == InvalidCharacterError
    ensures r.Success? ==> fresh(r.value) && Base64Bytes(base64) == Some(r.value[..])
  {
    var decoded := Atob(base64);
    if decoded.None? {
      return Failure(InvalidCharacterError);
    }
    var binaryString := decoded.value;
    var bytes := new byte[|binaryString|];
    for i := 0 to |binaryString|
      invariant forall k | 0 <= k < i :: bytes[k] == (binaryString[k] as int) % 256
    {
      bytes[i] := (binaryString[i] as int) % 256;
    }
    assert bytes[..] == ToUint8(binaryString);
    return Success(bytes);
  }

  // ---------------------------------------------------------------------
  // Properties
  // ---------------------------------------------------------------------

  /** The bytes of a binary string are the char codes themselves: no truncation happens. */
  lemma ToUint8OfFromCharCodes(bytes: seq<byte>)
    ensures ToUint8(FromCharCodes(bytes)) == bytes
  {
  }

  /** The 6-bit values of a group of 3 bytes give the bytes back. */
  lemma GroupBits(x: int, y: int, z: int, v0: int, v1: int, v2: int, v3: int)
    requires 0 <= x < 256 && 0 <= y < 256 && 0 <= z < 256
    requires v0 == x / 4 && v1 == x % 4 * 16 + y / 16 && v2 == y % 16 * 4 + z / 64 && v3 == z % 64
    ensures [v0 * 4 + v1 / 16, v1 % 16 * 16 + v2 / 4, v2 % 4 * 64 + v3] == [x, y, z]
  {
  }

  /** Decoding symbols of known values. */
  lemma DecodeGroupOfSymbols(v0: int, v1: int, v2: int, v3: int, k: nat)
    requires 0 <= v0 < 64 && 0 <= v1 < 64 && 0 <= v2 < 64 && 0 <= v3 < 64
    requires 2 <= k <= 4
    ensures var bytes: seq<int> := [v0 * 4 + v1 / 16, v1 % 16 * 16 + v2 / 4, v2 % 4 * 64 + v3];
      DecodeGroup([Symbol(v0), Symbol(v1), Symbol(v2), Symbol(v3)][..k]) == bytes[..k - 1]
  {
    var q := [Symbol(v0), Symbol(v1), Symbol(v2), Symbol(v3)][..k];
    assert SymbolIndex(q[0]) == v0 && SymbolIndex(q[1]) == v1;
    assert k > 2 ==> SymbolIndex(q[2]) == v2;
    assert k > 3 ==> SymbolIndex(q[3]) == v3;
  }

  /** The first bytes of a group padded with zeros are the group. */
  lemma PaddedGroupPrefix(g: seq<byte>, x: int, y: int, z: int)
    requires 1 <= |g| <= 3
    requires x == g[0] && y == (if |g| > 1 then g[1] else 0) && z == (if |g| > 2 then g[2] else 0)
    ensures [x, y, z][..|g|] == g
  {
  }

  /** A group of 1 to 3 bytes is recovered from its symbols. */
  lemma DecodeEncodeGroup(g: seq<byte>)
    requires 1 <= |g| <= 3
    ensures DecodeGroup(EncodeGroup(g)) == g
  {
    var x: int := g[0];
    var y: int := if |g| > 1 then g[1] else 0;
    var z: int := if |g| > 2 then g[2] else 0;
    var v0, v1, v2, v3 := x / 4, x % 4 * 16 + y / 16, y % 16 * 4 + z / 64, z % 64;
    assert EncodeGroup(g) == [Symbol(v0), Symbol(v1), Symbol(v2), Symbol(v3)][..|g| + 1];
    DecodeGroupOfSymbols(v0, v1, v2, v3, |g| + 1);
    GroupBits(x, y, z, v0, v1, v2, v3);
    PaddedGroupPrefix(g, x, y, z);
  }

  /** Decoding a full group, or a last short one, in front of the rest. */
  lemma DecodeSymbolsCons(q: string, rest: string)
    requires 2 <= |q| <= 4 && (|q| == 4 || rest == [])
    requires forall i | 0 <= i < |q| :: IsSymbol(q[i])
    requires forall i | 0 <= i < |rest| :: IsSymbol(rest[i])
    requires |rest| % 4 != 1
    ensures |q + rest| % 4 != 1
    ensures DecodeSymbols(q + rest) == DecodeGroup(q) + DecodeSymbols(rest)
  {
    var s := q + rest;
    assert s[..|q|] == q && s[|q|..] == rest;
  }

  /** Each group of bytes is recovered from its symbols, so the whole byte string is. */
  lemma {:induction false} DecodeEncodeUnpadded(b: seq<byte>)
    ensures |EncodeUnpadded(b)| % 4 != 1
    ensures DecodeSymbols(EncodeUnpadded(b)) == b
    decreases |b|
  {
    EncodeUnpaddedDecodable(b);
    if b != [] {
      var n := if |b| < 3 then |b| else 3;
      var q := EncodeGroup(b[..n]);
      var rest := EncodeUnpadded(b[n..]);
      assert EncodeUnpadded(b) == q + rest;
      DecodeEncodeUnpadded(b[n..]);
      if n < 3 {
        assert b[n..] == [];
      }
      DecodeSymbolsCons(q, rest);
      DecodeEncodeGroup(b[..n]);
      assert b == b[..n] + b[n..];
    }
  }

  /** Removing the padding from symbols followed by at most two `=` leaves the symbols. */
  lemma RemovePaddingAfterSymbols(u: string, p: string)
    requires (|u| + |p|) % 4 == 0 && |p| <= 2
    requires u == [] || IsSymbol(u[|u| - 1])
    requires p != [] ==> u != []
    requires forall i | 0 <= i < |p| :: p[i] == '='
    ensures RemovePadding(u + p) == u
  {
    var e := u + p;
    if |p| == 2 {
      assert e[|e| - 2] == p[0] && e[|e| - 1] == p[1];
      assert e[..|e| - 2] == u;
    } else if |p| == 1 {
      assert e[|e| - 2] == u[|u| - 1];
      assert e[|e| - 1] == p[0];
      assert e[..|e| - 1] == u;
    } else {
      assert e == u;
    }
  }

  /** The padded encoding of a byte string, with its padding removed, is the unpadded encoding. */
  lemma RemovePaddingOfEncodeBytes(b: seq<byte>)
    ensures RemovePadding(EncodeBytes(b)) == EncodeUnpadded(b)
  {
    var u := EncodeUnpadded(b);
    PaddingShape(|b|);
    if u != [] {
      assert IsSymbol(u[|u| - 1]);
    }
    assert |b| % 3 != 0 ==> u != [];
    assert EncodeBytes(b) == u + Padding(|b|);
    RemovePaddingAfterSymbols(u, Padding(|b|));
  }

  /** The unpadded encoding never has a length 1 more than a multiple of 4. */
  lemma UnpaddedLength(n: nat)
    ensures (4 * n + 2) / 3 % 4 != 1
  {
    var k := n / 3;
    assert n == 3 * k + n % 3;
    assert (4 * n + 2) / 3 == 4 * k + (if n % 3 == 0 then 0 else n % 3 + 1);
  }

  /** A string of symbols has no white space to skip and no padding to remove. */
  lemma SymbolsNeedNoCleanup(data: string)
    requires forall i | 0 <= i < |data| :: IsSymbol(data[i])
    ensures RemoveWhitespace(data) == data && RemovePadding(data) == data
  {
    forall i | 0 <= i < |data| ensures !IsAsciiWhitespace(data[i]) {
      assert IsSymbol(data[i]);
    }
    if data != [] {
      assert IsSymbol(data[|data| - 1]);
    }
  }

  /** Symbols alone, of a length the decode accepts, are decoded as they stand. */
  lemma ForgivingDecodeOfSymbols(data: string)
    requires forall i | 0 <= i < |data| :: IsSymbol(data[i])
    requires |data| % 4 != 1
    ensures ForgivingDecode(data) == Some(DecodeSymbols(data))
  {
    SymbolsNeedNoCleanup(data);
    ForgivingDecodeOfPadded(data, data);
  }

  /** `atob` of the unpadded encoding (the form a base64url signature has once converted back) gives the bytes. */
  lemma ForgivingDecodeUnpadded(b: seq<byte>)
    ensures ForgivingDecode(EncodeUnpadded(b)) == Some(b)
  {
    EncodeUnpaddedDecodable(b);
    ForgivingDecodeOfSymbols(EncodeUnpadded(b));
    DecodeEncodeUnpadded(b);
  }

  /** Padded base64 holds no white space. */
  lemma EncodeBytesHasNoWhitespace(b: seq<byte>)
    ensures RemoveWhitespace(EncodeBytes(b)) == EncodeBytes(b)
  {
    var e := EncodeBytes(b);
    forall i | 0 <= i < |e| ensures !IsAsciiWhitespace(e[i]) {
      assert IsSymbol(e[i]) || e[i] == '=';
    }
  }

  /** Input without white space whose padding-free part is symbols of a decodable length decodes that part. */
  lemma ForgivingDecodeOfPadded(s: string, u: string)
    requires RemoveWhitespace(s) == s && RemovePadding(s) == u
    requires forall i | 0 <= i < |u| :: IsSymbol(u[i])
    requires |u| % 4 != 1
    ensures ForgivingDecode(s) == Some(DecodeSymbols(u))
  {
  }

  /** The unpadded encoding has a length the forgiving decode accepts. */
  lemma EncodeUnpaddedDecodable(b: seq<byte>)
    ensures |EncodeUnpadded(b)| % 4 != 1
  {
    UnpaddedLength(|b|);
  }

  /** `atob` of the padded encoding gives the bytes. */
  lemma ForgivingDecodePadded(b: seq<byte>)
    ensures ForgivingDecode(EncodeBytes(b)) == Some(b)
  {
    var e := EncodeBytes(b);
    var u := EncodeUnpadded(b);
    assert ForgivingDecode(e) == Some(DecodeSymbols(u)) by {
      EncodeBytesHasNoWhitespace(b);
      RemovePaddingOfEncodeBytes(b);
      EncodeUnpaddedDecodable(b);
      ForgivingDecodeOfPadded(e, u);
    }
    DecodeEncodeUnpadded(b);
  }

  /** `bytesFromBase64(bytesToBase64(b))` is `b`. */
  lemma BytesRoundTrip(b: seq<byte>)
    ensures Base64Bytes(BytesToBase64(b)) == Some(b)
  {
    ForgivingDecodePadded(b);
    ToUint8OfFromCharCodes(b);
  }

  /** Removing the trailing run of `=` from the padded encoding leaves the unpadded encoding. */
  lemma TrimPaddingOfEncodeBytes(b: seq<byte>)
    ensures TrimTrailing(EncodeBytes(b), '=') == EncodeUnpadded(b)
  {
    var u := EncodeUnpadded(b);
    var e := EncodeBytes(b);
    if u != [] {
      assert IsSymbol(e[|u| - 1]);
    }
    TrimTrailingUnique(e, '=', |u|);
    assert e[..|u|] == u;
  }

  /** For a string without `-` and `_`, converting to base64url and back only drops the trailing `=` run. */
  lemma UrlRoundTrip(s: string)
    requires '-' !in s && '_' !in s
    ensures Base64urlToBase64(Base64ToBase64Url(s)) == TrimTrailing(s, '=')
  {
    var r := Base64ToBase64Url(s);
    var n := |r|;
    if n > 0 {
      assert s[n - 1] != '=';
    }
    TrimTrailingUnique(s, '=', n);
    var back := Base64urlToBase64(r);
    forall i | 0 <= i < n ensures back[i] == s[i] {
      assert s[i] in s;
    }
    assert back == s[..n];
  }

  /** `base64ToBase64Url` is idempotent. */
  lemma UrlIdempotent(s: string)
    ensures Base64ToBase64Url(Base64ToBase64Url(s)) == Base64ToBase64Url(s)
  {
    var r := Base64ToBase64Url(s);
    var rr := Base64ToBase64Url(r);
    assert |rr| == |r| by {
      if r != [] {
        assert r[|r| - 1] != '=';
      }
    }
    forall i | 0 <= i < |r| ensures rr[i] == r[i] {
      assert r[i] in r;
    }
  }

  /** A signature written with `base64urlEncode` decodes back to its bytes through `base64urlToBase64` and `bytesFromBase64`. */
  lemma SignatureRoundTrip(b: seq<byte>)
    ensures Base64Bytes(Base64urlToBase64(Base64urlEncode(b))) == Some(b)
  {
    var e := EncodeBytes(b);
    assert '-' !in e && '_' !in e by {
      forall i | 0 <= i < |e| ensures e[i] != '-' && e[i] != '_' {
        assert IsSymbol(e[i]) || e[i] == '=';
      }
    }
    UrlRoundTrip(e);
    TrimPaddingOfEncodeBytes(b);
    ForgivingDecodeUnpadded(b);
    ToUint8OfFromCharCodes(b);
  }
}
