/** Text helpers the source gets from .NET: decimal formatting of integers,
    invariant lower-casing, `Split(c)[0]`, zero padding and `string.Join`. */
module Text {

  predicate IsDigit(c: char) {
    '0' <= c <= '9'
  }

  /** `char.IsWhiteSpace`: the Unicode separators and the control
      characters U+0009 to U+000D and U+0085. */
  predicate IsWhiteSpace(c: char) {
    || '\U{9}' <= c <= '\U{D}' || c == ' ' || c == '\U{85}' || c == '\U{A0}' || c == '\U{1680}'
    || '\U{2000}' <= c <= '\U{200A}' || c == '\U{2028}' || c == '\U{2029}' || c == '\U{202F}'
    || c == '\U{205F}' || c == '\U{3000}'
  }

  /** `string.IsNullOrWhiteSpace` for a non-null string: empty, or only
      white space. */
  predicate IsBlank(s: string) {
    forall i :: 0 <= i < |s| ==> IsWhiteSpace(s[i])
  }

  function DigitChar(d: nat): (c: char)
    requires d < 10
    ensures IsDigit(c)
  {
    ('0' as int + d) as char
  }

  function DigitValue(c: char): nat {
    if IsDigit(c) then c as int - '0' as int else 0
  }

  /** Decimal digits of `n`, most significant first, no leading zeros. */
  function NatToString(n: nat): (s: string)
    ensures |s| > 0
    ensures forall i :: 0 <= i < |s| ==> IsDigit(s[i])
    ensures n < 10 <==> |s| == 1
  {
    if n < 10 then [DigitChar(n)] else NatToString(n / 10) + [DigitChar(n % 10)]
  }

  /** `Int32.ToString()` under the invariant culture: a minus sign, then digits. */
  function IntToString(i: int): string {
    if i < 0 then "-" + NatToString(-i) else NatToString(i)
  }

  /** Reads a run of decimal digits back (the inverse of `NatToString`). */
  function ParseNat(s: string): nat {
    if s == [] then 0 else ParseNat(s[..|s| - 1]) * 10 + DigitValue(s[|s| - 1])
  }

  function ParseInt(s: string): int {
    if |s| > 0 && s[0] == '-' then -(ParseNat(s[1..]) as int) else ParseNat(s)
  }

  lemma {:induction false} ParseNatToString(n: nat)
    ensures ParseNat(NatToString(n)) == n
  {
    var s := NatToString(n);
    if n < 10 {
      assert s[..0] == [];
    } else {
      assert s[..|s| - 1] == NatToString(n / 10);
      ParseNatToString(n / 10);
    }
  }

  /** Formatting an integer loses nothing: the text reads back as the same integer. */
  lemma IntToStringRoundTrip(i: int)
    ensures ParseInt(IntToString(i)) == i
  {
    if i < 0 {
      var t := NatToString(-i);
      var s := "-" + t;
      assert s[0] == '-' && s[1..] == t;
      ParseNatToString(-i);
      assert ParseInt(s) == -(ParseNat(t) as int);
    } else {
      var t := NatToString(i);
      assert t[0] != '-';
      ParseNatToString(i);
    }
  }

  /** Distinct integers are rendered as distinct texts. */
  lemma IntToStringInjective(i: int, j: int)
    ensures IntToString(i) == IntToString(j) ==> i == j
  {
    IntToStringRoundTrip(i);
    IntToStringRoundTrip(j);
  }

  function LowerChar(c: char): char {
    if 'A' <= c <= 'Z' then (c as int + 32) as char else c
  }

  /** `ToLowerInvariant` restricted to ASCII letters. */
  function ToLowerAscii(s: string): (r: string)
    ensures |r| == |s|
    ensures forall i :: 0 <= i < |s| ==> r[i] == LowerChar(s[i])
  {
    seq(|s|, i requires 0 <= i < |s| => LowerChar(s[i]))
  }

  /** Equality under `StringComparer.OrdinalIgnoreCase`, as used for claim
      types, header names and cookie names (ASCII letters only here). */
  predicate EqualsIgnoreCase(a: string, b: string) {
    ToLowerAscii(a) == ToLowerAscii(b)
  }

  /** `s.Split(c)[0]`: the part of `s` before the first `c` (all of `s` if none). */
  function BeforeFirst(s: string, c: char): (r: string)
    ensures |r| <= |s| && r == s[..|r|]
    ensures c !in r
    ensures |r| < |s| ==> s[|r|] == c
  {
    if s == [] then []
    else if s[0] == c then []
    else [s[0]] + BeforeFirst(s[1..], c)
  }

  /** Left-pads `s` with `ch` up to `width` characters. */
  function PadLeft(s: string, width: nat, ch: char): (r: string)
    ensures |r| == if |s| >= width then |s| else width
    ensures r[|r| - |s|..] == s
    ensures forall i :: 0 <= i < |r| - |s| ==> r[i] == ch
  {
    if |s| >= width then s else seq(width - |s|, _ => ch) + s
  }

  /** `string.Join(sep, parts)`. */
  function Join(sep: string, parts: seq<string>): (r: string)
    ensures parts == [] ==> r == ""
    ensures |parts| == 1 ==> r == parts[0]
  {
    if |parts| == 0 then ""
    else if |parts| == 1 then parts[0]
    else parts[0] + sep + Join(sep, parts[1..])
  }

  /** Splitting stops at the first separator: the text before it comes back whole. */
  lemma {:induction false} BeforeFirstStops(x: string, c: char, rest: string)
    requires c !in x
    ensures BeforeFirst(x + [c] + rest, c) == x
  {
    if x != [] {
      assert (x + [c] + rest)[1..] == x[1..] + [c] + rest;
      BeforeFirstStops(x[1..], c, rest);
    }
  }

  /** A joined text of two or more parts starts with the first part and the separator. */
  lemma JoinStartsWith(sep: string, parts: seq<string>)
    requires |parts| >= 2
    ensures |Join(sep, parts)| >= |parts[0]| + |sep|
    ensures Join(sep, parts)[..|parts[0]| + |sep|] == parts[0] + sep
  {
    var r := Join(sep, parts);
    assert r == parts[0] + sep + Join(sep, parts[1..]);
  }

  /** A joined text of two or more parts ends with the separator and the last part. */
  lemma {:induction false} JoinEndsWith(sep: string, parts: seq<string>)
    requires |parts| >= 2
    ensures |Join(sep, parts)| >= |sep| + |parts[|parts| - 1]|
    ensures Join(sep, parts)[|Join(sep, parts)| - |sep| - |parts[|parts| - 1]|..] == sep + parts[|parts| - 1]
  {
    var last := parts[|parts| - 1];
    var tail := Join(sep, parts[1..]);
    assert Join(sep, parts) == parts[0] + sep + tail;
    if |parts| == 2 {
      assert tail == last;
    } else {
      JoinEndsWith(sep, parts[1..]);
      assert parts[1..][|parts[1..]| - 1] == last;
    }
  }

  /** Numbers below 100 have at most two digits, below 10000 at most four. */
  lemma {:induction false} NatToStringLength(n: nat)
    ensures n < 100 ==> |NatToString(n)| <= 2
    ensures n < 1000 ==> |NatToString(n)| <= 3
    ensures n < 10000 ==> |NatToString(n)| <= 4
  {
    if n >= 10 {
      assert |NatToString(n)| == |NatToString(n / 10)| + 1;
      NatToStringLength(n / 10);
    }
  }

  /** `n.ToString().PadLeft(width, '0')` for a number of at most `width` digits. */
  function ZeroPadded(n: nat, width: nat): (r: string)
    requires (width == 2 && n < 100) || (width == 4 && n < 10000)
    ensures |r| == width
  {
    NatToStringLength(n);
    PadLeft(NatToString(n), width, '0')
  }

  /** A zero-padded number is all digits and reads back as the number. */
  lemma ZeroPaddedRoundTrip(n: nat, width: nat)
    requires (width == 2 && n < 100) || (width == 4 && n < 10000)
    ensures forall i :: 0 <= i < width ==> IsDigit(ZeroPadded(n, width)[i])
    ensures ParseNat(ZeroPadded(n, width)) == n
  {
    PadDigits(NatToString(n), width);
    PaddedRoundTrip(n, width);
  }

  /** Zero padding keeps a text all digits. */
  lemma PadDigits(s: string, width: nat)
    requires forall i :: 0 <= i < |s| ==> IsDigit(s[i])
    ensures forall i :: 0 <= i < |PadLeft(s, width, '0')| ==> IsDigit(PadLeft(s, width, '0')[i])
  {
    var r := PadLeft(s, width, '0');
    forall i | 0 <= i < |r| ensures IsDigit(r[i]) {
      if i >= |r| - |s| {
        assert r[i] == r[|r| - |s|..][i - (|r| - |s|)];
      }
    }
  }

  lemma {:induction false} ZerosParseToZero(k: nat)
    ensures ParseNat(seq(k, _ => '0')) == 0
  {
    if k > 0 {
      assert seq(k, _ => '0')[..k - 1] == seq(k - 1, _ => '0');
      ZerosParseToZero(k - 1);
    }
  }

  /** Leading zeros do not change the value read back. */
  lemma {:induction false} ParseLeadingZeros(k: nat, s: string)
    ensures ParseNat(seq(k, _ => '0') + s) == ParseNat(s)
  {
    if s == [] {
      assert seq(k, _ => '0') + s == seq(k, _ => '0');
      ZerosParseToZero(k);
    } else {
      var pre := s[..|s| - 1];
      assert (seq(k, _ => '0') + s)[..|seq(k, _ => '0') + s| - 1] == seq(k, _ => '0') + pre;
      ParseLeadingZeros(k, pre);
    }
  }

  lemma PadLeftZeros(s: string, width: nat)
    ensures ParseNat(PadLeft(s, width, '0')) == ParseNat(s)
  {
    if |s| < width {
      var zeros := seq(width - |s|, _ => '0');
      assert PadLeft(s, width, '0') == zeros + s;
      ParseLeadingZeros(width - |s|, s);
    }
  }

  /** A zero-padded decimal reads back as the number. */
  lemma PaddedRoundTrip(n: nat, width: nat)
    ensures ParseNat(PadLeft(NatToString(n), width, '0')) == n
  {
    ParseNatToString(n);
    PadLeftZeros(NatToString(n), width);
  }
}
