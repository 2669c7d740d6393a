/**
 * The JavaScript string operations the sources rely on: `startsWith`,
 * `split` with a one-character separator, `replace` with a global
 * one-character pattern, the trailing-run removal `replace(/c+$/, '')`,
 * and decimal `parseInt` / number-to-string.
 */
module Strings {
  import opened Js

  /** `s.startsWith(prefix)`. */
  predicate StartsWith(s: string, prefix: string) {
    |prefix| <= |s| && s[..|prefix|] == prefix
  }

  /** `s.split(sep)` for a one-character separator: every occurrence splits. */
  function Split(s: string, sep: char): (parts: seq<string>)
    ensures |parts| >= 1
    ensures forall k | 0 <= k < |parts| :: sep !in parts[k]
  {
    if s == [] then [""]
    else
      var rest := Split(s[1..], sep);
      if s[0] == sep then [""] + rest
      else [[s[0]] + rest[0]] + rest[1..]
  }

  /** `parts.join(sep)`. */
  function Join(parts: seq<string>, sep: char): string
    requires |parts| >= 1
  {
    if |parts| == 1 then parts[0] else parts[0] + [sep] + Join(parts[1..], sep)
  }

  /** Joining a piece in front of at least one more. */
  lemma JoinCons(head: string, tail: seq<string>, sep: char)
    requires |tail| >= 1
    ensures Join([head] + tail, sep) == head + [sep] + Join(tail, sep)
  {
    assert ([head] + tail)[1..] == tail;
  }

  /** Joining the pieces of a split gives back the string. */
  lemma {:induction false} JoinSplit(s: string, sep: char)
    ensures Join(Split(s, sep), sep) == s
  {
    if s != [] {
      JoinSplit(s[1..], sep);
      var rest := Split(s[1..], sep);
      if s[0] == sep {
        assert Split(s, sep) == [""] + rest;
        assert Join([""] + rest, sep) == "" + [sep] + Join(rest, sep) by {
          assert ([""] + rest)[1..] == rest;
        }
      } else if |rest| == 1 {
        assert Split(s, sep) == [[s[0]] + rest[0]];
      } else {
        var parts := [[s[0]] + rest[0]] + rest[1..];
        assert parts[1..] == rest[1..];
        assert Join(rest, sep) == rest[0] + [sep] + Join(rest[1..], sep);
      }
    }
  }

  /** Splitting a join of separator-free pieces gives back the pieces. */
  lemma {:induction false} SplitJoin(parts: seq<string>, sep: char)
    requires |parts| >= 1
    requires forall k | 0 <= k < |parts| :: sep !in parts[k]
    ensures Split(Join(parts, sep), sep) == parts
    decreases |parts|, |parts[0]|
  {
    if |parts| == 1 {
      SplitNoSeparator(parts[0], sep);
    } else if parts[0] == [] {
      var tail := Join(parts[1..], sep);
      assert Join(parts, sep) == [sep] + tail;
      assert ([sep] + tail)[1..] == tail;
      SplitJoin(parts[1..], sep);
      assert [""] + parts[1..] == parts;
    } else {
      var shorter := [parts[0][1..]] + parts[1..];
      assert shorter[1..] == parts[1..];
      SplitJoin(shorter, sep);
      assert Join(parts, sep) == [parts[0][0]] + Join(shorter, sep);
      assert (Join(parts, sep))[1..] == Join(shorter, sep);
      assert parts[0][0] != sep by { assert parts[0][0] in parts[0]; }
      assert [parts[0][0]] + parts[0][1..] == parts[0];
      assert [parts[0]] + parts[1..] == parts;
    }
  }

  /** A string without the separator splits into itself alone. */
  lemma {:induction false} SplitNoSeparator(s: string, sep: char)
    requires sep !in s
    ensures Split(s, sep) == [s]
  {
    if s != [] {
      assert s[0] != sep by { assert s[0] in s; }
      assert sep !in s[1..] by {
        forall ch | ch in s[1..] ensures ch != sep { assert ch in s; }
      }
      SplitNoSeparator(s[1..], sep);
      assert [s[0]] + s[1..] == s;
    }
  }

  /** The first piece of a split is the text before the first separator, or all of it. */
  lemma {:induction false} SplitFirst(s: string, sep: char)
    ensures StartsWith(s, Split(s, sep)[0])
    ensures |Split(s, sep)[0]| < |s| ==> s[|Split(s, sep)[0]|] == sep
    ensures sep !in s ==> Split(s, sep)[0] == s
  {
    if s != [] {
      SplitFirst(s[1..], sep);
    }
  }

  /** The first piece of `head + sep + rest` is `head` when `head` has no separator. */
  lemma {:induction false} SplitBeforeSeparator(head: string, sep: char, rest: string)
    requires sep !in head
    ensures Split(head + [sep] + rest, sep)[0] == head
  {
    var s := head + [sep] + rest;
    if head == [] {
      assert s[0] == sep;
    } else {
      assert head[0] != sep by { assert head[0] in head; }
      assert sep !in head[1..] by {
        forall ch | ch in head[1..] ensures ch != sep { assert ch in head; }
      }
      assert s[1..] == head[1..] + [sep] + rest;
      SplitBeforeSeparator(head[1..], sep, rest);
      assert [head[0]] + head[1..] == head;
    }
  }

  /** `s.replace(/from/g, to)` for single characters. */
  function ReplaceAll(s: string, from: char, to: char): (r: string)
    ensures |r| == |s|
    ensures forall i | 0 <= i < |s| :: r[i] == if s[i] == from then to else s[i]
  {
    if s == [] then []
    else [if s[0] == from then to else s[0]] + ReplaceAll(s[1..], from, to)
  }

  /** `s.replace(/c+$/g, '')`: removes the maximal trailing run of `c`. */
  function TrimTrailing(s: string, c: char): (r: string)
    ensures StartsWith(s, r)
    ensures r == [] || r[|r| - 1] != c
    ensures forall i | |r| <= i < |s| :: s[i] == c
  {
    if s == [] || s[|s| - 1] != c then s else TrimTrailing(s[..|s| - 1], c)
  }

  /** Any cut before a trailing run of `c`, not itself ending in `c`, is the one `TrimTrailing` makes. */
  lemma TrimTrailingUnique(s: string, c: char, n: nat)
    requires n <= |s| && (n == 0 || s[n - 1] != c)
    requires forall i | n <= i < |s| :: s[i] == c
    ensures TrimTrailing(s, c) == s[..n]
  {
  }

  predicate IsDigit(ch: char) {
    '0' <= ch <= '9'
  }

  /** The maximal prefix of decimal digits. */
  function LeadingDigits(s: string): (r: string)
    ensures StartsWith(s, r)
    ensures forall i | 0 <= i < |r| :: IsDigit(r[i])
    ensures |r| < |s| ==> !IsDigit(s[|r|])
  {
    if s != [] && IsDigit(s[0]) then [s[0]] + LeadingDigits(s[1..]) else []
  }

  /** The value of a string of decimal digits, most significant first. */
  function DecimalValue(digits: string): nat
    requires forall i | 0 <= i < |digits| :: IsDigit(digits[i])
  {
    if digits == [] then 0
    else
      assert IsDigit(digits[|digits| - 1]);
      DecimalValue(digits[..|digits| - 1]) * 10 + (digits[|digits| - 1] as int - '0' as int)
  }

  /** The decimal digits of a natural number, as `String(n)` writes them. */
  function NaturalDigits(n: nat): (r: string)
    ensures r != []
    ensures forall i | 0 <= i < |r| :: IsDigit(r[i])
  {
    if n < 10 then [('0' as int + n) as char]
    else NaturalDigits(n / 10) + [('0' as int + n % 10) as char]
  }

  /** `String(n)` for an integer `n`. */
  function ToDecimal(n: int): string {
    if n < 0 then "-" + NaturalDigits(-n) else NaturalDigits(n)
  }

  /**
   * `parseInt(s)`: an optional sign, then the longest run of decimal
   * digits; NaN when there is no digit.  Leading white space and the
   * `0x` prefix are not part of this model.
   */
  function ParseInt(s: string): Number {
    var negative := s != [] && s[0] == '-';
    var body := if s != [] && (s[0] == '-' || s[0] == '+') then s[1..] else s;
    var digits := LeadingDigits(body);
    if digits == [] then NaN
    else
      var value: int := DecimalValue(digits);
      Int(if negative then -value else value)
  }

  lemma {:induction false} DecimalValueOfNaturalDigits(n: nat)
    ensures DecimalValue(NaturalDigits(n)) == n
  {
    if n >= 10 {
      DecimalValueOfNaturalDigits(n / 10);
      var r := NaturalDigits(n);
      assert r[..|r| - 1] == NaturalDigits(n / 10);
    }
  }

  lemma {:induction false} LeadingDigitsOfDigits(s: string)
    requires forall i | 0 <= i < |s| :: IsDigit(s[i])
    ensures LeadingDigits(s) == s
  {
    if s != [] {
      LeadingDigitsOfDigits(s[1..]);
    }
  }

  /** `parseInt(String(n)) == n` for every integer `n`. */
  lemma ParseIntOfDecimal(n: int)
    ensures ParseInt(ToDecimal(n)) == Int(n)
  {
    var m := if n < 0 then -n else n;
    var digits := NaturalDigits(m);
    LeadingDigitsOfDigits(digits);
    DecimalValueOfNaturalDigits(m);
    if n < 0 {
      assert ToDecimal(n)[1..] == digits;
    } else {
      assert digits[0] != '-' && digits[0] != '+' by { assert IsDigit(digits[0]); }
    }
  }

  /** Without a sign, `parseInt` reads the leading digits. */
  lemma ParseIntUnsigned(s: string)
    requires s != [] && IsDigit(s[0])
    ensures LeadingDigits(s) != []
    ensures ParseInt(s) == Int(DecimalValue(LeadingDigits(s)))
  {
  }

  /** Digits followed by a non-digit parse as the digits alone: `parseInt("12a") == 12`. */
  lemma ParseIntStopsAtNonDigit(digits: string, tail: string)
    requires digits != [] && forall i | 0 <= i < |digits| :: IsDigit(digits[i])
    requires tail == [] || !IsDigit(tail[0])
    ensures ParseInt(digits + tail) == Int(DecimalValue(digits))
  {
    assert (digits + tail)[0] == digits[0];
    ParseIntUnsigned(digits + tail);
    LeadingDigitsAppend(digits, tail);
  }

  lemma {:induction false} LeadingDigitsAppend(digits: string, tail: string)
    requires forall i | 0 <= i < |digits| :: IsDigit(digits[i])
    requires tail == [] || !IsDigit(tail[0])
    ensures LeadingDigits(digits + tail) == digits
  {
    if digits != [] {
      assert (digits + tail)[1..] == digits[1..] + tail;
      LeadingDigitsAppend(digits[1..], tail);
    } else {
      assert digits + tail == tail;
    }
  }
}
