/** The string operations both proxies use: Python's `startswith`, `in`,
    `lstrip`, `split('?', 1)`, `lower()`/`upper()`, and the conversions
    `str(n)` and `int(s)` between integers and their decimal text. */
module Text {
  import opened Results

  predicate StartsWith(s: string, prefix: string) {
    |prefix| <= |s| && s[..|prefix|] == prefix
  }

  /** `s` is a run of `c` followed by `r`. */
  predicate RunThen(s: string, c: char, r: string) {
    && |r| <= |s| && s[|s| - |r|..] == r
    && forall i :: 0 <= i < |s| - |r| ==> s[i] == c
  }

  /** A run of `c` followed by a text that does not begin with `c`
      determines that text. */
  lemma RunThenUnique(s: string, c: char, r1: string, r2: string)
    requires RunThen(s, c, r1) && (r1 == [] || r1[0] != c)
    requires RunThen(s, c, r2) && (r2 == [] || r2[0] != c)
    ensures r1 == r2
  {
  }

  /** `s.lstrip(c)`: every leading `c` is removed, and nothing else. */
  function LStrip(s: string, c: char): (r: string)
    ensures RunThen(s, c, r)
    ensures r == [] || r[0] != c
  {
    if |s| > 0 && s[0] == c then
      var r := LStrip(s[1..], c);
      assert s[|s| - |r|..] == s[1..][|s| - 1 - |r|..];
      r
    else s
  }

  /** `sub in s` on Python strings: `sub` occurs somewhere in `s`. */
  predicate Contains(s: string, sub: string)
    decreases |s|
  {
    StartsWith(s, sub) || (|s| > 0 && Contains(s[1..], sub))
  }

  /** `sub` occurs in `s` starting at index `i`. */
  predicate OccursAt(s: string, sub: string, i: int) {
    0 <= i <= |s| - |sub| && s[i..i + |sub|] == sub
  }

  lemma {:induction false} ContainsAt(s: string, sub: string)
    ensures Contains(s, sub) <==> exists i :: OccursAt(s, sub, i)
    decreases |s|
  {
    if |s| == 0 {
      if sub == [] {
        assert OccursAt(s, sub, 0);
      }
    } else if StartsWith(s, sub) {
      assert OccursAt(s, sub, 0);
    } else {
      ContainsAt(s[1..], sub);
      if exists i :: OccursAt(s, sub, i) {
        var i :| OccursAt(s, sub, i);
        assert i != 0;
        assert OccursAt(s[1..], sub, i - 1);
      }
      if Contains(s[1..], sub) {
        var j :| OccursAt(s[1..], sub, j);
        assert s[j + 1..j + 1 + |sub|] == s[1..][j..j + |sub|];
        assert OccursAt(s, sub, j + 1);
      }
    }
  }

  /** Python's `s.split(c)[0]` and, when `c in s`, `s.split(c, 1)[1]`:
      the text before the first `c` and everything after it. */
  function SplitAtFirst(s: string, c: char): (r: (string, Option<string>))
    ensures c !in r.0
    ensures r.1.Some? <==> c in s
    ensures r.1.None? ==> r.0 == s
    ensures r.1.Some? ==> s == r.0 + [c] + r.1.value
  {
    if s == [] then ([], None)
    else if s[0] == c then ([], Some(s[1..]))
    else
      var rest := SplitAtFirst(s[1..], c);
      assert s == [s[0]] + s[1..];
      ([s[0]] + rest.0, rest.1)
  }

  /** Splitting `b + [c] + a` where `b` has no `c` gives back `b` and `a`. */
  lemma {:induction false} SplitAtFirstOf(b: string, c: char, a: string)
    requires c !in b
    ensures SplitAtFirst(b + [c] + a, c) == (b, Some(a))
  {
    var s := b + [c] + a;
    if b == [] {
      assert s[1..] == a;
    } else {
      SplitAtFirstOf(b[1..], c, a);
      assert s[1..] == b[1..] + [c] + a;
      assert [b[0]] + b[1..] == b;
    }
  }

  // ASCII case mapping; the library's full Unicode mapping is not modelled.

  function LowerChar(c: char): char {
    if 'A' <= c <= 'Z' then (c as int + 32) as char else c
  }

  function UpperChar(c: char): char {
    if 'a' <= c <= 'z' then (c as int - 32) as char else c
  }

  /** `s.lower()` on ASCII letters: no capital A-Z is left, each capital
      becomes its small letter, and every other character is kept. */
  function ToLower(s: string): (r: string)
    ensures |r| == |s| && IsLowerCase(r)
    ensures forall i :: 0 <= i < |s| && !('A' <= s[i] <= 'Z') ==> r[i] == s[i]
    ensures forall i :: 0 <= i < |s| && 'A' <= s[i] <= 'Z' ==> UpperChar(r[i]) == s[i]
  {
    seq(|s|, i requires 0 <= i < |s| => LowerChar(s[i]))
  }

  /** `s.upper()` on ASCII letters: no small a-z is left, each small letter
      becomes its capital, and every other character is kept. */
  function ToUpper(s: string): (r: string)
    ensures |r| == |s| && IsUpperCase(r)
    ensures forall i :: 0 <= i < |s| && !('a' <= s[i] <= 'z') ==> r[i] == s[i]
    ensures forall i :: 0 <= i < |s| && 'a' <= s[i] <= 'z' ==> LowerChar(r[i]) == s[i]
  {
    seq(|s|, i requires 0 <= i < |s| => UpperChar(s[i]))
  }

  /** No ASCII capital letter occurs in `s`. */
  predicate IsLowerCase(s: string) {
    forall i :: 0 <= i < |s| ==> !('A' <= s[i] <= 'Z')
  }

  /** No ASCII lower-case letter occurs in `s`. */
  predicate IsUpperCase(s: string) {
    forall i :: 0 <= i < |s| ==> !('a' <= s[i] <= 'z')
  }

  lemma ToUpperMeaning(s: string)
    ensures IsUpperCase(ToUpper(s)) && ToUpper(ToUpper(s)) == ToUpper(s)
    ensures ToUpper(ToLower(s)) == ToUpper(s)
  {
  }

  // Decimal text of integers: `str(n)` and `int(s)`.

  predicate IsDigit(c: char) {
    '0' <= c <= '9'
  }

  function DigitChar(d: nat): (c: char)
    requires d < 10
    ensures IsDigit(c) && c as int - '0' as int == d
  {
    ('0' as int + d) as char
  }

  /** `str(n)` for a non-negative integer: its decimal digits, without
      leading zeros. */
  function NatToString(n: nat): (r: string)
    ensures |r| > 0 && forall i :: 0 <= i < |r| ==> IsDigit(r[i])
    ensures n > 0 ==> r[0] != '0'
    decreases n
  {
    if n < 10 then [DigitChar(n)] else NatToString(n / 10) + [DigitChar(n % 10)]
  }

  /** The characters `int()` strips from both ends of its argument: ASCII
      white space (tab to carriage return, and space) and the characters
      beyond ASCII that `str.isspace()` accepts. The ASCII separators
      U+001C to U+001F count as space for `str.isspace()` but not here:
      `int()` rejects them. */
  predicate IsSpace(c: char) {
    || ('\t' <= c <= '\r') || c == ' '
    || c == '\U{85}' || c == '\U{A0}' || c == '\U{1680}'
    || ('\U{2000}' <= c <= '\U{200A}')
    || c == '\U{2028}' || c == '\U{2029}' || c == '\U{202F}' || c == '\U{205F}'
    || c == '\U{3000}'
  }

  function StripLeft(s: string): (r: string)
    ensures |r| <= |s| && r == s[|s| - |r|..]
    ensures forall i :: 0 <= i < |s| - |r| ==> IsSpace(s[i])
    ensures r == [] || !IsSpace(r[0])
  {
    if |s| > 0 && IsSpace(s[0]) then StripLeft(s[1..]) else s
  }

  function StripRight(s: string): (r: string)
    ensures |r| <= |s| && r == s[..|r|]
    ensures forall i :: |r| <= i < |s| ==> IsSpace(s[i])
    ensures r == [] || !IsSpace(r[|r| - 1])
  {
    if |s| > 0 && IsSpace(s[|s| - 1]) then StripRight(s[..|s| - 1]) else s
  }

  function Strip(s: string): string {
    StripRight(StripLeft(s))
  }

  /** The digit part `int()` accepts: digits, with single underscores allowed
      between two digits. */
  predicate WellFormedDigits(s: string) {
    && |s| > 0 && IsDigit(s[0]) && IsDigit(s[|s| - 1])
    && forall i :: 0 <= i < |s| - 1 ==> IsDigit(s[i]) || (s[i] == '_' && IsDigit(s[i + 1]))
  }

  /** The number the digits of `s` denote, underscores ignored. */
  function DigitsValue(s: string): nat {
    if s == [] then 0
    else if IsDigit(s[|s| - 1]) then DigitsValue(s[..|s| - 1]) * 10 + (s[|s| - 1] as int - '0' as int)
    else DigitsValue(s[..|s| - 1])
  }

  /** The number of digits in `s`; underscores and signs do not count. */
  function DigitCount(s: string): nat {
    if s == [] then 0 else (if IsDigit(s[0]) then 1 else 0) + DigitCount(s[1..])
  }

  /** The default of `sys.get_int_max_str_digits()`: `int()` refuses text with
      more digits than this, leading zeros included. */
  const MaxStrDigits := 4300

  /** Python's `int(s)` for a string argument, base 10: surrounding white space
      is ignored, one sign is allowed, and at most `MaxStrDigits` digits are
      read; `None` stands for the `ValueError`. */
  function ParseInt(s: string): (r: Option<int>)
    ensures r.Some? ==> |Strip(s)| > 0
    ensures DigitCount(Strip(s)) > MaxStrDigits ==> r.None?
  {
    var t := Strip(s);
    if |t| > 0 && (t[0] == '+' || t[0] == '-') then
      if WellFormedDigits(t[1..]) && DigitCount(t[1..]) <= MaxStrDigits then
        var magnitude: int := DigitsValue(t[1..]);
        Some(if t[0] == '-' then -magnitude else magnitude)
      else None
    else if WellFormedDigits(t) && DigitCount(t) <= MaxStrDigits then Some(DigitsValue(t))
    else None
  }

  /** Every character of an all-digit text counts as a digit. */
  lemma {:induction false} DigitCountOfDigits(s: string)
    requires forall i :: 0 <= i < |s| ==> IsDigit(s[i])
    ensures DigitCount(s) == |s|
  {
    if s != [] {
      DigitCountOfDigits(s[1..]);
    }
  }

  /** `s` is a decimal numeral, digits only, denoting `n`. */
  predicate IsNumeral(s: string, n: nat) {
    && |s| > 0 && (forall i :: 0 <= i < |s| ==> IsDigit(s[i]))
    && DigitsValue(s) == n
  }

  lemma {:induction false} NatToStringValue(n: nat)
    ensures WellFormedDigits(NatToString(n)) && DigitsValue(NatToString(n)) == n
    decreases n
  {
    if n >= 10 {
      NatToStringValue(n / 10);
      var p := NatToString(n / 10);
      var s := p + [DigitChar(n % 10)];
      assert s[..|s| - 1] == p;
    }
  }

  /** Text that begins and ends with a non-space character is left alone by `Strip`. */
  lemma StripUnspaced(s: string)
    requires |s| > 0 && !IsSpace(s[0]) && !IsSpace(s[|s| - 1])
    ensures Strip(s) == s
  {
    assert StripLeft(s) == s;
    assert StripRight(s) == s;
  }

  /** `int(str(n)) == n`: the decimal text of a length reads back as that
      length, for every `n` that `str` can write (it has the same digit
      limit). */
  lemma ParseIntOfNatToString(n: nat)
    requires |NatToString(n)| <= MaxStrDigits
    ensures ParseInt(NatToString(n)) == Some(n)
  {
    var s := NatToString(n);
    NatToStringValue(n);
    DigitCountOfDigits(s);
    assert IsDigit(s[0]) && IsDigit(s[|s| - 1]);
    StripUnspaced(s);
  }

  /** `int` of a stripped `-` followed by well-formed digits. */
  lemma ParseIntOfSigned(t: string)
    requires Strip(t) == t && |t| > 1 && t[0] == '-' && WellFormedDigits(t[1..])
    requires DigitCount(t[1..]) <= MaxStrDigits
    ensures ParseInt(t) == Some(-(DigitsValue(t[1..]) as int))
  {
  }

  /** `str(n)` is the numeral of `n`, and `int()` reads it back whenever it
      has no more than `MaxStrDigits` digits. */
  lemma NatToStringReadsBack(n: nat)
    ensures IsNumeral(NatToString(n), n)
    ensures |NatToString(n)| <= MaxStrDigits ==> ParseInt(NatToString(n)) == Some(n)
  {
    NatToStringValue(n);
    if |NatToString(n)| <= MaxStrDigits {
      ParseIntOfNatToString(n);
    }
  }

  /** `int('-' + d)` for a numeral `d` of `n` within the digit limit. */
  lemma ParseIntOfMinus(d: string, n: nat)
    requires IsNumeral(d, n) && |d| <= MaxStrDigits
    ensures ParseInt("-" + d) == Some(-(n as int))
  {
    DigitCountOfDigits(d);
    var s := "-" + d;
    assert s[0] == '-' && s[1..] == d;
    assert s[|s| - 1] == d[|d| - 1];
    StripUnspaced(s);
    ParseIntOfSigned(s);
  }

  /** `int('-' + str(n)) == -n`, for every `n` that `str` can write. */
  lemma ParseIntOfNegative(n: nat)
    requires |NatToString(n)| <= MaxStrDigits
    ensures ParseInt("-" + NatToString(n)) == Some(-(n as int))
  {
    NatToStringReadsBack(n);
    ParseIntOfMinus(NatToString(n), n);
  }

  /** An ASCII separator such as U+001C before the digits is not white space
      to `int()`: the text is refused. */
  lemma ParseIntRefusesSeparator(d: string)
    requires WellFormedDigits(d)
    ensures ParseInt("\U{1C}" + d) == None
  {
    var s := "\U{1C}" + d;
    assert s[0] == '\U{1C}' && s[|s| - 1] == d[|d| - 1];
    StripUnspaced(s);
  }

  /** `int` of text that strips down to well-formed digits, no more than
      `MaxStrDigits` of them. */
  lemma ParseIntOfDigits(s: string, d: string)
    requires Strip(s) == d && WellFormedDigits(d) && DigitCount(d) <= MaxStrDigits
    ensures ParseInt(s) == Some(DigitsValue(d))
  {
    assert IsDigit(d[0]);
  }

  /** Text of more than `MaxStrDigits` zeros is refused, although it denotes 0. */
  lemma ParseIntRefusesManyZeros(z: string)
    requires |z| > MaxStrDigits && forall i :: 0 <= i < |z| ==> z[i] == '0'
    ensures WellFormedDigits(z) && DigitsValue(z) == 0
    ensures ParseInt(z) == None
  {
    DigitCountOfDigits(z);
    StripUnspaced(z);
    ZerosValue(z);
  }

  lemma {:induction false} ZerosValue(z: string)
    requires forall i :: 0 <= i < |z| ==> z[i] == '0'
    ensures DigitsValue(z) == 0
  {
    if z != [] {
      ZerosValue(z[..|z| - 1]);
    }
  }

  /** A tab before the digits is stripped. */
  lemma ParseIntStripsTab(d: string)
    requires WellFormedDigits(d) && DigitCount(d) <= MaxStrDigits
    ensures ParseInt("\t" + d) == Some(DigitsValue(d))
  {
    var s := "\t" + d;
    assert s[1..] == d && IsSpace(s[0]);
    assert IsDigit(d[0]) && IsDigit(d[|d| - 1]);
    StripUnspaced(d);
    assert StripLeft(s) == StripLeft(d);
    ParseIntOfDigits(s, d);
  }
}
