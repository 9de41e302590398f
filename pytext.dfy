/** The few Python string operations the handlers depend on: `str.strip()`,
    `str.lower()`, `int(str)`, the substring test `sub in s`, `str.startswith`
    and `str.replace(p, '')`. Strings are sequences of Unicode scalar values. */
module PyText {
  import opened Common

  // ---------------------------------------------------------------- strip

  /** The characters Python's `str.isspace()` accepts, which `str.strip()` and
      `int()` remove from both ends. */
  predicate IsSpace(c: char) {
    || c == ' '
    || '\t' <= c <= '\r'
    || '\U{001C}' <= c <= '\U{001F}'
    || c == '\U{0085}' || c == '\U{00A0}' || c == '\U{1680}'
    || '\U{2000}' <= c <= '\U{200A}'
    || c == '\U{2028}' || c == '\U{2029}' || c == '\U{202F}'
    || c == '\U{205F}' || c == '\U{3000}'
  }

  /** The two whitespace sets stripping uses: `str.isspace()` for
      `str.strip()`, and ASCII whitespace for `int()`. */
  datatype Whitespace = StrSpace | AsciiSpace

  predicate Blank(ws: Whitespace, c: char) {
    match ws
    case StrSpace => IsSpace(c)
    case AsciiSpace => IsAsciiSpace(c)
  }

  /** `s.lstrip()` with the whitespace set `ws`: the longest suffix of `s`
      that does not start with whitespace. */
  function TrimStart(s: string, ws: Whitespace): (r: string)
    ensures |r| <= |s| && r == s[|s| - |r|..]
    ensures |r| > 0 ==> !Blank(ws, r[0])
    ensures forall i :: 0 <= i < |s| - |r| ==> Blank(ws, s[i])
  {
    if |s| > 0 && Blank(ws, s[0]) then TrimStart(s[1..], ws) else s
  }

  /** `s.rstrip()` with the whitespace set `ws`: the longest prefix of `s`
      that does not end with whitespace. */
  function TrimEnd(s: string, ws: Whitespace): (r: string)
    ensures |r| <= |s| && r == s[..|r|]
    ensures |r| > 0 ==> !Blank(ws, r[|r| - 1])
    ensures forall i :: |r| <= i < |s| ==> Blank(ws, s[i])
  {
    if |s| > 0 && Blank(ws, s[|s| - 1]) then TrimEnd(s[..|s| - 1], ws) else s
  }

  /** Both ends of `s` cut free of the whitespace set `ws`. */
  function StripWith(s: string, ws: Whitespace): string {
    TrimEnd(TrimStart(s, ws), ws)
  }

  /** `s.strip()`. */
  function Strip(s: string): string {
    StripWith(s, StrSpace)
  }

  /** What `strip` promises: the result is a slice of `s`, everything cut off
      is whitespace, and the result neither starts nor ends with whitespace. */
  lemma StripIsTrimmedSlice(s: string)
    ensures exists lo, hi :: 0 <= lo <= hi <= |s| && Strip(s) == s[lo..hi]
              && (forall i :: 0 <= i < lo ==> IsSpace(s[i]))
              && (forall i :: hi <= i < |s| ==> IsSpace(s[i]))
    ensures |Strip(s)| > 0 ==> !IsSpace(Strip(s)[0]) && !IsSpace(Strip(s)[|Strip(s)| - 1])
  {
    var lo, hi := StripBounds(s, StrSpace);
  }

  /** Where stripping `ws` cuts `s`. */
  lemma StripBounds(s: string, ws: Whitespace) returns (lo: nat, hi: nat)
    ensures lo <= hi <= |s| && StripWith(s, ws) == s[lo..hi]
    ensures forall i :: 0 <= i < lo ==> Blank(ws, s[i])
    ensures forall i :: hi <= i < |s| ==> Blank(ws, s[i])
  {
    var t := TrimStart(s, ws);
    var r := TrimEnd(t, ws);
    lo := |s| - |t|;
    hi := lo + |r|;
    SliceOfSuffix(s, lo, |r|);
    SpacesAfter(s, ws, lo, |r|);
  }

  lemma SliceOfSuffix(s: string, lo: nat, n: nat)
    requires lo + n <= |s|
    ensures s[lo..][..n] == s[lo..lo + n]
  {
  }

  /** Whitespace that `rstrip` removes from a suffix of `s` is whitespace of `s`. */
  lemma SpacesAfter(s: string, ws: Whitespace, lo: nat, n: nat)
    requires lo <= |s| && n <= |s| - lo
    requires forall j :: n <= j < |s[lo..]| ==> Blank(ws, s[lo..][j])
    ensures forall i :: lo + n <= i < |s| ==> Blank(ws, s[i])
  {
    forall i | lo + n <= i < |s| ensures Blank(ws, s[i]) {
      assert s[i] == s[lo..][i - lo];
    }
  }

  /** A space on each side of a string does not change what stripping
      returns. */
  lemma {:induction false} StripIgnoresPadding(s: string, ws: Whitespace)
    requires Blank(ws, ' ')
    requires |s| == 0 || (!Blank(ws, s[0]) && !Blank(ws, s[|s| - 1]))
    ensures StripWith(" " + s + " ", ws) == s
  {
    var padded := " " + s + " ";
    assert padded[1..] == s + " ";
    assert TrimStart(padded, ws) == TrimStart(s + " ", ws);
    if |s| == 0 {
      assert s + " " == " ";
      assert TrimStart(" ", ws) == TrimStart(" "[1..], ws);
      assert " "[1..] == "";
    } else {
      assert (s + " ")[0] == s[0];
      assert TrimStart(s + " ", ws) == s + " ";
      assert (s + " ")[..|s|] == s;
    }
  }

  /** A string with no whitespace at its ends is its own stripped form. */
  lemma StripOfTrimmed(s: string, ws: Whitespace)
    requires |s| == 0 || (!Blank(ws, s[0]) && !Blank(ws, s[|s| - 1]))
    ensures StripWith(s, ws) == s
  {
  }

  /** A string that does not open with whitespace keeps its first character
      when stripped. */
  lemma StripKeepsFirst(s: string, ws: Whitespace)
    requires |s| > 0 && !Blank(ws, s[0])
    ensures |StripWith(s, ws)| > 0 && StripWith(s, ws)[0] == s[0]
  {
    assert TrimStart(s, ws) == s;
  }

  // ---------------------------------------------------------------- lower

  predicate IsUpper(c: char) {
    ('A' <= c <= 'Z') || ('\U{0400}' <= c <= '\U{042F}')
  }

  /** `c.lower()` for Latin and Russian Cyrillic letters (Ё and the other
      letters of U+0400..U+040F map 80 code points up, А..Я 32 up). */
  function LowerChar(c: char): (r: char)
    ensures IsUpper(c) <==> r != c
    ensures !IsUpper(r)
  {
    if 'A' <= c <= 'Z' then (c as int + 32) as char
    else if '\U{0410}' <= c <= '\U{042F}' then (c as int + 32) as char
    else if '\U{0400}' <= c <= '\U{040F}' then (c as int + 80) as char
    else c
  }

  /** `s.lower()`, character by character. */
  function Lower(s: string): (r: string)
    ensures |r| == |s|
    ensures forall i :: 0 <= i < |s| ==> r[i] == LowerChar(s[i])
  {
    if s == [] then [] else [LowerChar(s[0])] + Lower(s[1..])
  }

  /** Lower-casing twice is lower-casing once. */
  lemma LowerIdempotent(s: string)
    ensures Lower(Lower(s)) == Lower(s)
  {
    var once := Lower(s);
    assert forall i :: 0 <= i < |once| ==> LowerChar(once[i]) == once[i];
  }

  /** The capital of a lower-case letter that `LowerChar` maps back to it;
      other characters are returned as they are. */
  function UpperChar(c: char): char {
    if 'a' <= c <= 'z' then (c as int - 32) as char
    else if '\U{0430}' <= c <= '\U{044F}' then (c as int - 32) as char
    else if '\U{0450}' <= c <= '\U{045F}' then (c as int - 80) as char
    else c
  }

  /** Exactly two characters lower to a lower-case letter `t`: `t` itself
      and its capital (one, for a character that is no letter). So the
      words compared after `lower()` are matched by every capitalisation of
      them and by nothing else. */
  lemma LowerPreimage(c: char, t: char)
    requires !IsUpper(t)
    ensures LowerChar(c) == t <==> c == t || c == UpperChar(t)
  {
  }

  // ---------------------------------------------------------------- substrings

  /** `s.startswith(p)`. */
  predicate StartsWith(s: string, p: string) {
    |p| <= |s| && s[..|p|] == p
  }

  /** `sub` occurs in `s` at offset `k`. */
  predicate OccursAt(s: string, sub: string, k: int) {
    0 <= k <= |s| - |sub| && s[k..k + |sub|] == sub
  }

  /** `sub in s`, scanning `s` from the left. */
  predicate Contains(s: string, sub: string)
    decreases |s|
  {
    StartsWith(s, sub) || (|s| > 0 && Contains(s[1..], sub))
  }

  /** `sub in s` holds exactly when `sub` occurs at some offset of `s`. */
  lemma {:induction false} ContainsAtOffset(s: string, sub: string)
    ensures Contains(s, sub) <==> exists k :: OccursAt(s, sub, k)
    decreases |s|
  {
    if StartsWith(s, sub) {
      assert OccursAt(s, sub, 0);
    }
    if |s| > 0 {
      ContainsAtOffset(s[1..], sub);
      if Contains(s[1..], sub) {
        var k :| OccursAt(s[1..], sub, k);
        assert s[k + 1..k + 1 + |sub|] == s[1..][k..k + |sub|];
        assert OccursAt(s, sub, k + 1);
      }
      if exists k :: OccursAt(s, sub, k) {
        var k :| OccursAt(s, sub, k);
        if k > 0 {
          assert s[1..][k - 1..k - 1 + |sub|] == s[k..k + |sub|];
          assert OccursAt(s[1..], sub, k - 1);
        } else {
          assert StartsWith(s, sub);
        }
      }
    } else if exists k :: OccursAt(s, sub, k) {
      var k :| OccursAt(s, sub, k);
      assert StartsWith(s, sub);
    }
  }

  const SizePrefix: string := "size_"

  /** `data.replace('size_', '')`: every non-overlapping occurrence, scanned
      from the left, is removed. */
  function RemoveSizePrefixes(data: string): (r: string)
    ensures |r| <= |data|
    decreases |data|
  {
    if StartsWith(data, SizePrefix) then RemoveSizePrefixes(data[|SizePrefix|..])
    else if data == [] then []
    else [data[0]] + RemoveSizePrefixes(data[1..])
  }

  /** A string in which `size_` does not occur is left as it is. */
  lemma {:induction false} RemoveSizePrefixesKeeps(key: string)
    requires !Contains(key, SizePrefix)
    ensures RemoveSizePrefixes(key) == key
    decreases |key|
  {
    if key != [] {
      assert !StartsWith(key, SizePrefix);
      RemoveSizePrefixesKeeps(key[1..]);
      assert [key[0]] + key[1..] == key;
    }
  }

  /** The callback data of a size button, `size_<key>`, yields `<key>`. */
  lemma SizeCallbackKey(key: string)
    requires !Contains(key, SizePrefix)
    ensures RemoveSizePrefixes(SizePrefix + key) == key
  {
    var data := SizePrefix + key;
    assert StartsWith(data, SizePrefix);
    assert data[|SizePrefix|..] == key;
    RemoveSizePrefixesKeeps(key);
  }

  // ---------------------------------------------------------------- int()

  predicate IsDigit(c: char) { '0' <= c <= '9' }

  predicate AllDigits(s: string) { forall i :: 0 <= i < |s| ==> IsDigit(s[i]) }

  /** The code point of the digit zero of the decimal-digit block holding
      code point `n`, or -1. The blocks are the characters of Unicode general
      category Nd (Unicode 15.0 and 15.1), ten consecutive code points from
      zero to nine each. */
  function DecimalZero(n: int): (z: int)
    ensures z >= 0 ==> z <= n < z + 10
  {
    if 0x0030 <= n < 0x003A then 0x0030
    else if 0x0660 <= n < 0x066A then 0x0660
    else if 0x06F0 <= n < 0x06FA then 0x06F0
    else if 0x07C0 <= n < 0x07CA then 0x07C0
    else if 0x0966 <= n < 0x0970 then 0x0966
    else if 0x09E6 <= n < 0x09F0 then 0x09E6
    else if 0x0A66 <= n < 0x0A70 then 0x0A66
    else if 0x0AE6 <= n < 0x0AF0 then 0x0AE6
    else if 0x0B66 <= n < 0x0B70 then 0x0B66
    else if 0x0BE6 <= n < 0x0BF0 then 0x0BE6
    else if 0x0C66 <= n < 0x0C70 then 0x0C66
    else if 0x0CE6 <= n < 0x0CF0 then 0x0CE6
    else if 0x0D66 <= n < 0x0D70 then 0x0D66
    else if 0x0DE6 <= n < 0x0DF0 then 0x0DE6
    else if 0x0E50 <= n < 0x0E5A then 0x0E50
    else if 0x0ED0 <= n < 0x0EDA then 0x0ED0
    else if 0x0F20 <= n < 0x0F2A then 0x0F20
    else if 0x1040 <= n < 0x104A then 0x1040
    else if 0x1090 <= n < 0x109A then 0x1090
    else if 0x17E0 <= n < 0x17EA then 0x17E0
    else if 0x1810 <= n < 0x181A then 0x1810
    else if 0x1946 <= n < 0x1950 then 0x1946
    else if 0x19D0 <= n < 0x19DA then 0x19D0
    else if 0x1A80 <= n < 0x1A8A then 0x1A80
    else if 0x1A90 <= n < 0x1A9A then 0x1A90
    else if 0x1B50 <= n < 0x1B5A then 0x1B50
    else if 0x1BB0 <= n < 0x1BBA then 0x1BB0
    else if 0x1C40 <= n < 0x1C4A then 0x1C40
    else if 0x1C50 <= n < 0x1C5A then 0x1C50
    else if 0xA620 <= n < 0xA62A then 0xA620
    else if 0xA8D0 <= n < 0xA8DA then 0xA8D0
    else if 0xA900 <= n < 0xA90A then 0xA900
    else if 0xA9D0 <= n < 0xA9DA then 0xA9D0
    else if 0xA9F0 <= n < 0xA9FA then 0xA9F0
    else if 0xAA50 <= n < 0xAA5A then 0xAA50
    else if 0xABF0 <= n < 0xABFA then 0xABF0
    else if 0xFF10 <= n < 0xFF1A then 0xFF10
    else if 0x104A0 <= n < 0x104AA then 0x104A0
    else if 0x10D30 <= n < 0x10D3A then 0x10D30
    else if 0x11066 <= n < 0x11070 then 0x11066
    else if 0x110F0 <= n < 0x110FA then 0x110F0
    else if 0x11136 <= n < 0x11140 then 0x11136
    else if 0x111D0 <= n < 0x111DA then 0x111D0
    else if 0x112F0 <= n < 0x112FA then 0x112F0
    else if 0x11450 <= n < 0x1145A then 0x11450
    else if 0x114D0 <= n < 0x114DA then 0x114D0
    else if 0x11650 <= n < 0x1165A then 0x11650
    else if 0x116C0 <= n < 0x116CA then 0x116C0
    else if 0x11730 <= n < 0x1173A then 0x11730
    else if 0x118E0 <= n < 0x118EA then 0x118E0
    else if 0x11950 <= n < 0x1195A then 0x11950
    else if 0x11C50 <= n < 0x11C5A then 0x11C50
    else if 0x11D50 <= n < 0x11D5A then 0x11D50
    else if 0x11DA0 <= n < 0x11DAA then 0x11DA0
    else if 0x11F50 <= n < 0x11F5A then 0x11F50
    else if 0x16A60 <= n < 0x16A6A then 0x16A60
    else if 0x16AC0 <= n < 0x16ACA then 0x16AC0
    else if 0x16B50 <= n < 0x16B5A then 0x16B50
    else if 0x1D7CE <= n < 0x1D800 then n - (n - 0x1D7CE) % 10   // the five mathematical digit sets
    else if 0x1E140 <= n < 0x1E14A then 0x1E140
    else if 0x1E2F0 <= n < 0x1E2FA then 0x1E2F0
    else if 0x1E4F0 <= n < 0x1E4FA then 0x1E4F0
    else if 0x1E950 <= n < 0x1E95A then 0x1E950
    else if 0x1FBF0 <= n < 0x1FBFA then 0x1FBF0
    else -1
  }

  /** The value of `c` as a decimal digit (`unicodedata.decimal(c)`), or
      `None` for a character that is not one. */
  function DecimalDigit(c: char): (d: Option<nat>)
    ensures d.Some? ==> d.value < 10
    ensures c as int < 127 ==> (d.Some? <==> IsDigit(c))
  {
    var zero := DecimalZero(c as int);
    if zero < 0 then None else Some(c as int - zero)
  }

  /** ASCII whitespace (`Py_ISSPACE`): what `int()` skips around the number
      once the text has been rewritten to ASCII. */
  predicate IsAsciiSpace(c: char) { c == ' ' || '\t' <= c <= '\r' }

  /** How CPython rewrites one character before it reads an integer:
      ASCII stays, other whitespace becomes ' ', another script's decimal
      digit becomes the ASCII digit of the same value, and anything else
      becomes '?', which no integer literal contains. */
  function AsciiForm(c: char): (r: char)
    ensures r as int < 127
  {
    if c as int < 127 then c
    else if IsSpace(c) then ' '
    else
      match DecimalDigit(c)
      case Some(d) => DigitChar(d)
      case None => '?'
  }

  /** The rewritten text, character by character. */
  function ToAscii(s: string): (r: string)
    ensures |r| == |s|
    ensures forall i :: 0 <= i < |s| ==> r[i] == AsciiForm(s[i])
  {
    seq(|s|, i requires 0 <= i < |s| => AsciiForm(s[i]))
  }

  /** The digits of `int()`'s argument: a digit, then digits that may be
      separated by single underscores (`1_000`). */
  predicate DigitGroups(s: string) {
    && |s| > 0 && IsDigit(s[0]) && IsDigit(s[|s| - 1])
    && (forall i :: 0 <= i < |s| ==> DigitOrUnderscore(s[i]))
    && (forall i :: 0 <= i < |s| - 1 ==> DigitAfterUnderscore(s, i))
  }

  /** An underscore at `i` is followed by a digit. */
  predicate DigitAfterUnderscore(s: string, i: int)
    requires 0 <= i < |s| - 1
  {
    s[i] == '_' ==> IsDigit(s[i + 1])
  }

  predicate DigitOrUnderscore(c: char) { IsDigit(c) || c == '_' }

  function DropUnderscores(s: string): (r: string)
    requires forall i :: 0 <= i < |s| ==> DigitOrUnderscore(s[i])
    ensures AllDigits(r)
  {
    if s == [] then []
    else
      var rest := DropUnderscores(s[1..]);
      if s[0] == '_' then rest else assert DigitOrUnderscore(s[0]); [s[0]] + rest
  }

  function DigitValue(c: char): nat requires IsDigit(c) { c as int - '0' as int }

  /** The number a string of ASCII decimal digits denotes. */
  function DigitsValue(s: string): nat
    requires AllDigits(s)
  {
    if s == [] then 0 else DigitsValue(s[..|s| - 1]) * 10 + DigitValue(s[|s| - 1])
  }

  /** `int(s)` in base 10: `None` where Python raises `ValueError`. The text
      is rewritten to ASCII, stripped of ASCII whitespace, and read as an
      optional sign and digit groups. */
  function ParseInt(s: string): (r: Option<int>)
  {
    ParseSigned(StripWith(ToAscii(s), AsciiSpace))
  }

  /** An optional sign and digit groups, with the whitespace already removed. */
  function ParseSigned(t: string): Option<int> {
    var negative := |t| > 0 && t[0] == '-';
    var body := if |t| > 0 && (t[0] == '-' || t[0] == '+') then t[1..] else t;
    if DigitGroups(body) then
      var magnitude: int := Magnitude(body);
      Some(if negative then -magnitude else magnitude)
    else None
  }

  /** The value of digit groups, underscores ignored. */
  function Magnitude(body: string): nat
    requires DigitGroups(body)
  {
    DigitsValue(DropUnderscores(body))
  }

  /** A plain digit string is a digit group worth its digits' value. */
  lemma MagnitudeOfDigits(digits: string)
    requires |digits| > 0 && AllDigits(digits)
    ensures DigitGroups(digits) && Magnitude(digits) == DigitsValue(digits)
  {
    DropUnderscoresOfDigits(digits);
  }

  function DigitChar(d: nat): (c: char)
    requires d < 10
    ensures IsDigit(c) && DigitValue(c) == d
  {
    ('0' as int + d) as char
  }

  /** The decimal spelling of a natural number, without leading zeros. */
  function NatDecimal(n: nat): (s: string)
    ensures |s| > 0 && AllDigits(s)
  {
    if n < 10 then [DigitChar(n)] else NatDecimal(n / 10) + [DigitChar(n % 10)]
  }

  /** `str(n)`. */
  function Decimal(n: int): string {
    if n < 0 then "-" + NatDecimal(-n) else NatDecimal(n)
  }

  lemma {:induction false} NatDecimalValue(n: nat)
    ensures DigitsValue(NatDecimal(n)) == n
  {
    if n >= 10 {
      var s := NatDecimal(n);
      NatDecimalValue(n / 10);
      assert s[..|s| - 1] == NatDecimal(n / 10);
    }
  }

  lemma {:induction false} DropUnderscoresOfDigits(s: string)
    requires AllDigits(s)
    ensures DropUnderscores(s) == s
  {
    if s != [] {
      DropUnderscoresOfDigits(s[1..]);
      assert [s[0]] + s[1..] == s;
    }
  }

  /** A text that is already ASCII is not rewritten. */
  lemma AsciiKept(s: string)
    requires forall i :: 0 <= i < |s| ==> s[i] as int < 127
    ensures ToAscii(s) == s
  {
  }

  /** A digit string with nothing around it reads as the number it spells. */
  lemma ParseIntOfDigits(digits: string)
    requires |digits| > 0 && AllDigits(digits)
    ensures DigitGroups(digits) && ParseInt(digits) == Some(Magnitude(digits))
  {
    AsciiKept(digits);
    StripOfTrimmed(digits, AsciiSpace);
    MagnitudeOfDigits(digits);
    ParseUnsigned(digits);
  }

  /** A minus sign and a digit string read as the negated number. */
  lemma ParseIntOfNegatedDigits(digits: string)
    requires |digits| > 0 && AllDigits(digits)
    ensures DigitGroups(digits) && ParseInt("-" + digits) == Some(-(Magnitude(digits) as int))
  {
    var s := "-" + digits;
    assert s[0] == '-';
    assert forall i :: 1 <= i < |s| ==> s[i] == digits[i - 1];
    AsciiKept(s);
    assert s[|s| - 1] == digits[|digits| - 1];
    StripOfTrimmed(s, AsciiSpace);
    MagnitudeOfDigits(digits);
    ParseNegative(digits);
  }

  lemma ParseNegative(body: string)
    requires DigitGroups(body)
    ensures ParseSigned("-" + body) == Some(-(Magnitude(body) as int))
  {
    var t := "-" + body;
    assert t[0] == '-' && t[1..] == body;
  }

  lemma ParseUnsigned(body: string)
    requires DigitGroups(body)
    ensures ParseSigned(body) == Some(Magnitude(body))
  {
    assert body[0] != '-' && body[0] != '+';
  }

  /** `int(str(n)) == n`: the spelling `str` produces is one `int` accepts and
      reads back as the same number. */
  lemma ParseIntRoundTrip(n: int)
    ensures ParseInt(Decimal(n)) == Some(n)
  {
    var m: nat := if n < 0 then -n else n;
    var digits := NatDecimal(m);
    assert DigitGroups(digits) && Magnitude(digits) == m by {
      NatDecimalValue(m);
      MagnitudeOfDigits(digits);
    }
    if n < 0 {
      ParseIntOfNegatedDigits(digits);
    } else {
      ParseIntOfDigits(digits);
    }
  }

  /** `int()` tolerates whitespace around the number. */
  lemma ParseIntIgnoresPadding(n: int)
    ensures ParseInt(" " + Decimal(n) + " ") == Some(n)
  {
    var s := Decimal(n);
    DecimalShape(n);
    var padded := " " + s + " ";
    assert ToAscii(padded) == padded by { AsciiPadded(s); }
    StripIgnoresPadding(s, AsciiSpace);
    assert ToAscii(s) == s by { AsciiKept(s); }
    StripOfTrimmed(s, AsciiSpace);
    ParseIntRoundTrip(n);
  }

  /** `str(n)` is ASCII, opens with a sign or a digit and ends with a digit. */
  lemma DecimalShape(n: int)
    ensures var s := Decimal(n);
      && |s| > 0 && (s[0] == '-' || IsDigit(s[0])) && IsDigit(s[|s| - 1])
      && forall i :: 0 <= i < |s| ==> s[i] as int < 127
  {
    var s := Decimal(n);
    if n < 0 {
      var d := NatDecimal(-n);
      assert forall i :: 1 <= i < |s| ==> s[i] == d[i - 1];
    }
  }

  /** Spaces around an ASCII text leave it ASCII. */
  lemma AsciiPadded(s: string)
    requires forall i :: 0 <= i < |s| ==> s[i] as int < 127
    ensures ToAscii(" " + s + " ") == " " + s + " "
  {
    var padded := " " + s + " ";
    assert forall i :: 1 <= i < |padded| - 1 ==> padded[i] == s[i - 1];
    AsciiKept(padded);
  }

  /** The number a string of decimal digits of any script denotes. */
  function ScriptValue(s: string): nat
    requires forall i :: 0 <= i < |s| ==> DecimalDigit(s[i]).Some?
  {
    if s == [] then 0 else ScriptValue(s[..|s| - 1]) * 10 + DecimalDigit(s[|s| - 1]).value
  }

  /** A decimal digit of any script is rewritten to the ASCII digit of the
      same value. */
  lemma AsciiFormOfDigit(c: char)
    requires DecimalDigit(c).Some?
    ensures IsDigit(AsciiForm(c)) && DigitValue(AsciiForm(c)) == DecimalDigit(c).value
  {
    DigitIsNotSpace(c);
  }

  /** No decimal digit is a whitespace character. */
  lemma DigitIsNotSpace(c: char)
    ensures DecimalDigit(c).Some? ==> !IsSpace(c)
  {
  }

  /** The rewritten digits are worth what the original ones are. */
  lemma {:induction false} ToAsciiOfDigits(s: string)
    requires forall i :: 0 <= i < |s| ==> DecimalDigit(s[i]).Some?
    ensures AllDigits(ToAscii(s)) && DigitsValue(ToAscii(s)) == ScriptValue(s)
  {
    forall i | 0 <= i < |s| ensures IsDigit(ToAscii(s)[i]) {
      AsciiFormOfDigit(s[i]);
    }
    if s != [] {
      var front := s[..|s| - 1];
      ToAsciiOfDigits(front);
      assert ToAscii(s)[..|s| - 1] == ToAscii(front);
      AsciiFormOfDigit(s[|s| - 1]);
    }
  }

  /** `int()` reads the decimal digits of every script, not only ASCII
      ones: `int("５") == 5`, `int("٤٢") == 42`. */
  lemma ParseIntOfScriptDigits(s: string)
    requires |s| > 0 && forall i :: 0 <= i < |s| ==> DecimalDigit(s[i]).Some?
    ensures ParseInt(s) == Some(ScriptValue(s))
  {
    var t := ToAscii(s);
    ToAsciiOfDigits(s);
    ParseIntOfAsciiDigits(s, t);
  }

  /** Once rewritten to ASCII digits, the text reads as their value. */
  lemma ParseIntOfAsciiDigits(s: string, t: string)
    requires t == ToAscii(s) && |t| > 0 && AllDigits(t)
    ensures ParseInt(s) == Some(DigitsValue(t))
  {
    StripOfTrimmed(t, AsciiSpace);
    MagnitudeOfDigits(t);
    ParseUnsigned(t);
  }
}
