/** The string primitives of the JavaScript host that the client and the schema
    rely on: `String.prototype.trim`, the UTF-16 `length`, the decimal
    `Number.prototype.toString` of an integer, `parseInt(s, 10)`, and the
    header-name folding of the Fetch standard's `Headers` object. Strings are
    sequences of Unicode scalar values. */
module Text {

  // ---------------------------------------------------------------------------
  // Whitespace and trimming
  // ---------------------------------------------------------------------------

  /** The WhiteSpace and LineTerminator code points of the ECMAScript grammar:
      the set `trim` strips and `parseInt` skips. */
  predicate IsJsWhitespace(c: char) {
    || c == '\t' || c == '\n' || c == '\U{000B}' || c == '\U{000C}' || c == '\r'
    || c == ' ' || c == '\U{00A0}' || c == '\U{1680}'
    || ('\U{2000}' <= c <= '\U{200A}')
    || c == '\U{2028}' || c == '\U{2029}' || c == '\U{202F}' || c == '\U{205F}'
    || c == '\U{3000}' || c == '\U{FEFF}'
  }

  /** The HTTP whitespace of the Fetch standard, which `Headers` strips from
      both ends of a value: tab, line feed, carriage return and space. */
  predicate IsHttpWhitespace(c: char) {
    c == '\t' || c == '\n' || c == '\r' || c == ' '
  }

  /** Which whitespace a trimming operation strips. */
  datatype Spaces = JsSpaces | HttpSpaces

  predicate IsSpace(kind: Spaces, c: char) {
    match kind
    case JsSpaces => IsJsWhitespace(c)
    case HttpSpaces => IsHttpWhitespace(c)
  }

  /** Nothing but whitespace of the given kind (this includes the empty string). */
  predicate AllSpace(kind: Spaces, s: string) {
    forall k :: 0 <= k < |s| ==> IsSpace(kind, s[k])
  }

  /** Nothing but JavaScript whitespace: what `trim` turns into "". */
  predicate IsBlank(s: string) {
    AllSpace(JsSpaces, s)
  }

  /** Length of the longest whitespace prefix. */
  function LeadingSpace(kind: Spaces, s: string): (n: nat)
    ensures n <= |s|
    ensures AllSpace(kind, s[..n])
    ensures n == |s| || !IsSpace(kind, s[n])
  {
    if |s| == 0 || !IsSpace(kind, s[0]) then 0
    else
      var n := 1 + LeadingSpace(kind, s[1..]);
      assert s[..n] == [s[0]] + s[1..][..n - 1];
      n
  }

  /** Where the longest whitespace run ending at `k` starts. */
  function TrailingStart(kind: Spaces, s: string, k: nat): (m: nat)
    requires k <= |s|
    ensures m <= k
    ensures forall p :: m <= p < k ==> IsSpace(kind, s[p])
    ensures m == 0 || !IsSpace(kind, s[m - 1])
    decreases k
  {
    if k == 0 || !IsSpace(kind, s[k - 1]) then k else TrailingStart(kind, s, k - 1)
  }

  /** Where the text left by stripping starts and ends. */
  lemma StripBounds(kind: Spaces, s: string, i: nat, j: nat)
    requires i == LeadingSpace(kind, s)
    requires j == if i == |s| then |s| else TrailingStart(kind, s, |s|)
    ensures i <= j <= |s|
    ensures AllSpace(kind, s[..i]) && AllSpace(kind, s[j..])
    ensures i == j <==> AllSpace(kind, s)
    ensures i < j ==> !IsSpace(kind, s[i]) && !IsSpace(kind, s[j - 1])
  {
    if i == |s| {
      assert s[..i] == s;
    } else {
      assert !IsSpace(kind, s[i]);
      assert i < j;
      assert !AllSpace(kind, s);
    }
    assert forall k :: 0 <= k < |s| - j ==> s[j..][k] == s[j + k];
  }

  /** The text with whitespace of the given kind removed at both ends. */
  function StripSpace(kind: Spaces, s: string): (r: string)
    ensures r == "" <==> AllSpace(kind, s)
    ensures r != "" ==> !IsSpace(kind, r[0]) && !IsSpace(kind, r[|r| - 1])
    ensures exists i, j :: 0 <= i <= j <= |s| && AllSpace(kind, s[..i]) && AllSpace(kind, s[j..]) && r == s[i..j]
  {
    var i := LeadingSpace(kind, s);
    var j := if i == |s| then |s| else TrailingStart(kind, s, |s|);
    StripBounds(kind, s, i, j);
    s[i..j]
  }

  /** Text with no whitespace at either end is kept as it is. */
  lemma StripKeepsTrimmed(kind: Spaces, s: string)
    requires s != "" && !IsSpace(kind, s[0]) && !IsSpace(kind, s[|s| - 1])
    ensures StripSpace(kind, s) == s
  {
    assert LeadingSpace(kind, s) == 0;
    assert TrailingStart(kind, s, |s|) == |s|;
    assert s[0..|s|] == s;
  }

  /** `String.prototype.trim`: the text with whitespace removed at both ends. */
  function Trim(s: string): (r: string)
    ensures r == "" <==> IsBlank(s)
    ensures r != "" ==> !IsJsWhitespace(r[0]) && !IsJsWhitespace(r[|r| - 1])
    ensures exists i, j :: 0 <= i <= j <= |s| && IsBlank(s[..i]) && IsBlank(s[j..]) && r == s[i..j]
  {
    var i := LeadingSpace(JsSpaces, s);
    var j := if i == |s| then |s| else TrailingStart(JsSpaces, s, |s|);
    StripBounds(JsSpaces, s, i, j);
    assert StripSpace(JsSpaces, s) == s[i..j];
    assert IsBlank(s[..i]) && IsBlank(s[j..]);
    StripSpace(JsSpaces, s)
  }

  /** Trimming twice is trimming once. */
  lemma TrimIdempotent(s: string)
    ensures Trim(Trim(s)) == Trim(s)
  {
    if Trim(s) != "" {
      StripKeepsTrimmed(JsSpaces, Trim(s));
    }
  }

  // ---------------------------------------------------------------------------
  // Lengths and case
  // ---------------------------------------------------------------------------

  /** UTF-16 code units needed for one code point. */
  function CodeUnits(c: char): nat {
    if c as int > 0xFFFF then 2 else 1
  }

  /** JavaScript's `length` of a string: its count of UTF-16 code units. */
  function Utf16Length(s: string): (n: nat)
    ensures |s| <= n <= 2 * |s|
    ensures (forall k :: 0 <= k < |s| ==> s[k] as int <= 0xFFFF) ==> n == |s|
  {
    if |s| == 0 then 0 else CodeUnits(s[0]) + Utf16Length(s[1..])
  }

  /** ASCII upper case to lower case, every other character unchanged. */
  function LowerChar(c: char): char {
    if 'A' <= c <= 'Z' then (c as int - 'A' as int + 'a' as int) as char else c
  }

  predicate IsAsciiUpper(c: char) {
    'A' <= c <= 'Z'
  }

  /** The byte-lowercasing `Headers` applies to header names: no capital
      letter is left, each capital becomes its small letter, and every other
      character stays as it was. */
  function AsciiLower(s: string): (r: string)
    ensures |r| == |s|
    ensures forall k :: 0 <= k < |r| ==> !IsAsciiUpper(r[k])
    ensures forall k :: 0 <= k < |s| && !IsAsciiUpper(s[k]) ==> r[k] == s[k]
    ensures forall k :: 0 <= k < |s| && IsAsciiUpper(s[k]) ==> r[k] as int == s[k] as int + 32
  {
    seq(|s|, k requires 0 <= k < |s| => LowerChar(s[k]))
  }

  /** Lower-casing a second time changes nothing. */
  lemma AsciiLowerIdempotent(s: string)
    ensures AsciiLower(AsciiLower(s)) == AsciiLower(s)
  {
    var r := AsciiLower(s);
    assert forall k :: 0 <= k < |r| ==> AsciiLower(r)[k] == r[k];
  }

  /** The two characters are equal, or one is an ASCII capital and the other
      its small letter. */
  predicate SameLetterIgnoringCase(x: char, y: char) {
    || x == y
    || (IsAsciiUpper(x) && y as int == x as int + 32)
    || (IsAsciiUpper(y) && x as int == y as int + 32)
  }

  /** Two names that differ only in the case of ASCII letters. */
  predicate SameIgnoringAsciiCase(a: string, b: string) {
    |a| == |b| && forall k :: 0 <= k < |a| ==> SameLetterIgnoringCase(a[k], b[k])
  }

  /** Names lower-case to the same text exactly when they differ only in the
      case of ASCII letters, so either spelling finds the same header. */
  lemma AsciiLowerIgnoresCase(a: string, b: string)
    ensures SameIgnoringAsciiCase(a, b) <==> AsciiLower(a) == AsciiLower(b)
  {
    if SameIgnoringAsciiCase(a, b) {
      assert forall k :: 0 <= k < |a| ==> AsciiLower(a)[k] == AsciiLower(b)[k];
    }
    if AsciiLower(a) == AsciiLower(b) {
      assert forall k :: 0 <= k < |a| ==> SameLetterIgnoringCase(a[k], b[k]) by {
        forall k | 0 <= k < |a|
          ensures SameLetterIgnoringCase(a[k], b[k])
        {
          assert AsciiLower(a)[k] == AsciiLower(b)[k];
        }
      }
    }
  }

  // ---------------------------------------------------------------------------
  // Decimal digits
  // ---------------------------------------------------------------------------

  predicate IsDigit(c: char) {
    '0' <= c <= '9'
  }

  predicate AllDigits(s: string) {
    forall k :: 0 <= k < |s| ==> IsDigit(s[k])
  }

  function DigitValue(c: char): nat
    requires IsDigit(c)
  {
    c as int - '0' as int
  }

  function DigitChar(d: nat): (c: char)
    requires d < 10
    ensures IsDigit(c) && DigitValue(c) == d
  {
    ('0' as int + d) as char
  }

  function Pow10(k: nat): nat {
    if k == 0 then 1 else 10 * Pow10(k - 1)
  }

  /** The number a string of decimal digits denotes, most significant first. */
  function DigitsValue(s: string): nat
    requires AllDigits(s)
  {
    if |s| == 0 then 0 else 10 * DigitsValue(s[..|s| - 1]) + DigitValue(s[|s| - 1])
  }

  /** Decimal text of a natural number, without leading zeros. */
  function NatToString(n: nat): (r: string)
    ensures 1 <= |r| && AllDigits(r)
    ensures DigitsValue(r) == n
    ensures |r| > 1 ==> r[0] != '0'
  {
    if n < 10 then [DigitChar(n)]
    else
      var high := NatToString(n / 10);
      var r := high + [DigitChar(n % 10)];
      assert r[..|r| - 1] == high;
      r
  }

  /** Exactly `width` decimal digits, zero-padded on the left. */
  function Pad(n: nat, width: nat): (r: string)
    requires n < Pow10(width)
    ensures |r| == width && AllDigits(r)
    ensures DigitsValue(r) == n
  {
    if width == 0 then ""
    else
      var high := Pad(n / 10, width - 1);
      var r := high + [DigitChar(n % 10)];
      assert r[..|r| - 1] == high;
      r
  }

  /** `Number.prototype.toString()` of an integer-valued number. */
  function IntToString(i: int): (r: string)
    ensures |r| >= 1 && IsDigit(r[|r| - 1])
    ensures r[0] == '-' <==> i < 0
    ensures i < 0 ==> AllDigits(r[1..]) && DigitsValue(r[1..]) == -i && (|r| > 2 ==> r[1] != '0')
    ensures i >= 0 ==> AllDigits(r) && DigitsValue(r) == i && (|r| > 1 ==> r[0] != '0')
  {
    if i < 0 then "-" + NatToString(-i) else NatToString(i)
  }

  /** A JavaScript number as far as this model needs it. */
  datatype Number = Finite(value: int) | NaN

  /** Length of the longest prefix of decimal digits. */
  function DigitPrefix(s: string): (n: nat)
    ensures n <= |s| && AllDigits(s[..n])
    ensures n == |s| || !IsDigit(s[n])
  {
    if |s| == 0 || !IsDigit(s[0]) then 0
    else
      var n := 1 + DigitPrefix(s[1..]);
      assert s[..n] == [s[0]] + s[1..][..n - 1];
      n
  }

  /** A first character that `parseInt` can neither skip nor read. */
  predicate NotNumeric(c: char) {
    !IsDigit(c) && !IsJsWhitespace(c) && c != '-' && c != '+'
  }

  /** `parseInt(s, 10)`: skip leading whitespace, take an optional sign, then
      the longest run of decimal digits; no digits at all gives NaN. */
  function ParseInt(s: string): (r: Number)
    ensures IsBlank(s) ==> r == NaN
    ensures s != "" && NotNumeric(s[0]) ==> r == NaN
    ensures s != "" && AllDigits(s) ==> r == Finite(DigitsValue(s))
  {
    WholeDigitPrefix(s);
    var i := LeadingSpace(JsSpaces, s);
    assert i == 0 ==> s[i..] == s;
    ParseSigned(s[i..])
  }

  /** What `parseInt` reads once the leading whitespace is skipped: an
      optional sign, then the longest run of digits. */
  function ParseSigned(t: string): Number {
    var negative := |t| > 0 && t[0] == '-';
    var u := if |t| > 0 && (t[0] == '-' || t[0] == '+') then t[1..] else t;
    var n := DigitPrefix(u);
    if n == 0 then NaN
    else
      var magnitude: int := DigitsValue(u[..n]);
      Finite(if negative then -magnitude else magnitude)
  }

  /** `parseInt` skips whitespace in front of the number. */
  lemma {:induction false} ParseIntSkipsWhitespace(w: string, s: string)
    ensures IsBlank(w) ==> ParseInt(w + s) == ParseInt(s)
  {
    if IsBlank(w) {
      var k := LeadingSpace(JsSpaces, s);
      LeadingSpaceAfterBlank(w, s);
      assert (w + s)[|w| + k..] == s[k..];
    }
  }

  lemma {:induction false} LeadingSpaceAfterBlank(w: string, s: string)
    requires IsBlank(w)
    ensures LeadingSpace(JsSpaces, w + s) == |w| + LeadingSpace(JsSpaces, s)
  {
    if w == [] {
      assert w + s == s;
    } else {
      assert (w + s)[0] == w[0];
      assert (w + s)[1..] == w[1..] + s;
      LeadingSpaceAfterBlank(w[1..], s);
    }
  }

  /** A sign in front of the digits: `+` changes nothing, and `-` negates. */
  lemma ParseIntSign(s: string)
    ensures s == "" || IsDigit(s[0]) ==> ParseInt("+" + s) == ParseInt(s)
    ensures s == "" || IsDigit(s[0]) ==>
      ParseInt("-" + s) == if ParseInt(s).NaN? then NaN else Finite(-ParseInt(s).value)
  {
    if s == "" || IsDigit(s[0]) {
      assert LeadingSpace(JsSpaces, s) == 0 && s[0..] == s;
      assert ParseInt(s) == ParseSigned(s);
      var plus, minus := "+" + s, "-" + s;
      assert LeadingSpace(JsSpaces, plus) == 0 && plus[0..] == plus && plus[1..] == s;
      assert ParseInt(plus) == ParseSigned(plus);
      assert LeadingSpace(JsSpaces, minus) == 0 && minus[0..] == minus && minus[1..] == s;
      assert ParseInt(minus) == ParseSigned(minus);
    }
  }

  /** A string of digits is its own digit prefix. */
  lemma WholeDigitPrefix(s: string)
    ensures AllDigits(s) ==> DigitPrefix(s) == |s| && s[..|s|] == s
  {
    if AllDigits(s) {
      DigitPrefixOfNumeral(s, "");
      assert s + "" == s;
    }
  }

  /** The digit prefix of a number's decimal text followed by a non-digit is
      that text. */
  lemma {:induction false} DigitPrefixOfNumeral(d: string, rest: string)
    requires AllDigits(d)
    requires rest == "" || !IsDigit(rest[0])
    ensures DigitPrefix(d + rest) == |d|
  {
    if |d| > 0 {
      assert (d + rest)[1..] == d[1..] + rest;
      DigitPrefixOfNumeral(d[1..], rest);
    }
  }

  /** `parseInt` reads back the decimal text `toString` wrote, ignoring
      whatever non-digit text follows it. */
  lemma ParseIntOfIntToString(i: int, rest: string)
    requires rest == "" || !IsDigit(rest[0])
    ensures ParseInt(IntToString(i) + rest) == Finite(i)
  {
    if i < 0 {
      ParseIntOfNegative(i, rest);
    } else {
      ParseIntOfNatural(i, rest);
    }
  }

  lemma ParseIntOfNatural(i: nat, rest: string)
    requires rest == "" || !IsDigit(rest[0])
    ensures ParseInt(IntToString(i) + rest) == Finite(i)
  {
    var d := NatToString(i);
    var s := d + rest;
    DigitPrefixOfNumeral(d, rest);
    assert s[..|d|] == d;
    assert IsDigit(s[0]);
    assert LeadingSpace(JsSpaces, s) == 0;
    assert s[0..] == s;
  }

  lemma ParseIntOfNegative(i: int, rest: string)
    requires i < 0
    requires rest == "" || !IsDigit(rest[0])
    ensures ParseInt(IntToString(i) + rest) == Finite(i)
  {
    var d := NatToString(-i);
    var u := d + rest;
    var s := "-" + u;
    assert IntToString(i) + rest == s;
    DigitPrefixOfNumeral(d, rest);
    assert u[..|d|] == d;
    assert s[0] == '-';
    assert LeadingSpace(JsSpaces, s) == 0;
    assert s[0..] == s;
    assert s[1..] == u;
  }

  // ---------------------------------------------------------------------------
  // UUID text (section 4 of RFC 9562)
  // ---------------------------------------------------------------------------

  predicate IsHexDigit(c: char) {
    IsDigit(c) || 'a' <= c <= 'f' || 'A' <= c <= 'F'
  }

  predicate AllHex(s: string) {
    forall k :: 0 <= k < |s| ==> IsHexDigit(s[k])
  }

  /** Offsets of the four hyphens in the 8-4-4-4-12 layout. */
  predicate IsUuidHyphenPosition(k: int) {
    k == 8 || k == 13 || k == 18 || k == 23
  }

  /** The textual UUID layout: 32 hex digits, either case, in groups 8-4-4-4-12
      separated by hyphens. */
  predicate IsUuid(s: string) {
    && |s| == 36
    && forall k :: 0 <= k < |s| ==> if IsUuidHyphenPosition(k) then s[k] == '-' else IsHexDigit(s[k])
  }

  /** Lays 32 hex digits out in the 8-4-4-4-12 groups. */
  function Hyphenate(h: string): string
    requires |h| == 32
  {
    h[..8] + "-" + h[8..12] + "-" + h[12..16] + "-" + h[16..20] + "-" + h[20..]
  }

  /** The 32 digits of a UUID text, hyphens dropped. */
  function Unhyphenate(s: string): string
    requires |s| == 36
  {
    s[..8] + s[9..13] + s[14..18] + s[19..23] + s[24..]
  }

  /** Every 32-digit hex string, hyphenated, is a UUID and gives back its digits. */
  lemma HyphenatedHexIsUuid(h: string)
    requires |h| == 32 && AllHex(h)
    ensures IsUuid(Hyphenate(h))
    ensures Unhyphenate(Hyphenate(h)) == h
  {
    var s := Hyphenate(h);
    forall k | 0 <= k < 36
      ensures if IsUuidHyphenPosition(k) then s[k] == '-' else IsHexDigit(s[k])
    {
      if k < 8 { assert s[k] == h[k]; }
      else if 8 < k < 13 { assert s[k] == h[k - 1]; }
      else if 13 < k < 18 { assert s[k] == h[k - 2]; }
      else if 18 < k < 23 { assert s[k] == h[k - 3]; }
      else if 23 < k { assert s[k] == h[k - 4]; }
    }
    assert s[..8] == h[..8];
    assert s[9..13] == h[8..12];
    assert s[14..18] == h[12..16];
    assert s[19..23] == h[16..20];
    assert s[24..] == h[20..];
    assert h == h[..8] + h[8..12] + h[12..16] + h[16..20] + h[20..];
  }

  /** Conversely, every UUID is a hyphenated 32-digit hex string: the UUID
      shape admits nothing else. */
  lemma UuidIsHyphenatedHex(s: string)
    requires IsUuid(s)
    ensures |Unhyphenate(s)| == 32 && AllHex(Unhyphenate(s))
    ensures Hyphenate(Unhyphenate(s)) == s
  {
    var h := Unhyphenate(s);
    forall k | 0 <= k < 32 ensures IsHexDigit(h[k]) {
      if k < 8 { assert h[k] == s[k]; }
      else if k < 12 { assert h[k] == s[k + 1]; }
      else if k < 16 { assert h[k] == s[k + 2]; }
      else if k < 20 { assert h[k] == s[k + 3]; }
      else { assert h[k] == s[k + 4]; }
    }
    var t := Hyphenate(h);
    forall k | 0 <= k < 36 ensures t[k] == s[k] {
      if k < 8 { assert t[k] == h[k]; }
      else if 8 < k < 13 { assert t[k] == h[k - 1]; }
      else if 13 < k < 18 { assert t[k] == h[k - 2]; }
      else if 18 < k < 23 { assert t[k] == h[k - 3]; }
      else if 23 < k { assert t[k] == h[k - 4]; }
    }
    assert t == s;
  }
}
