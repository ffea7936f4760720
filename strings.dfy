/** The string operations of the JavaScript runtime that the tracker relies on:
    number-to-text conversion in template literals, `parseInt`, `endsWith`, and
    the ordering the document store uses to sort date strings. */
module Strings {
  import opened Optional

  /** The character of decimal digit `d`. */
  function DigitChar(d: nat): char
    requires d < 10
  {
    ('0' as int + d) as char
  }

  /** The value of `c` as a digit in radix 36 (`0`-`9`, then `a`-`z` or
      `A`-`Z`); 36 for any other character. */
  function DigitValue(c: char): nat
  {
    if '0' <= c <= '9' then c as int - '0' as int
    else if 'a' <= c <= 'z' then c as int - 'a' as int + 10
    else if 'A' <= c <= 'Z' then c as int - 'A' as int + 10
    else 36
  }

  predicate IsDecimalDigit(c: char)
  {
    '0' <= c <= '9'
  }

  /** Decimal text of a natural number, as a template literal renders it. */
  function NatToString(n: nat): (s: string)
    ensures |s| > 0
    ensures forall i :: 0 <= i < |s| ==> IsDecimalDigit(s[i])
    decreases n
  {
    if n < 10 then [DigitChar(n)] else NatToString(n / 10) + [DigitChar(n % 10)]
  }

  /** Decimal text of an integer, with a leading `-` when it is negative. */
  function IntToString(n: int): (s: string)
    ensures |s| > 0
    ensures n < 0 <==> s[0] == '-'
  {
    if n < 0 then "-" + NatToString(-n) else NatToString(n)
  }

  /** The characters `parseInt` skips before the number: ECMAScript's
      WhiteSpace and LineTerminator code points. */
  predicate IsJsWhitespace(c: char)
  {
    var code := c as int;
    code in {0x09, 0x0A, 0x0B, 0x0C, 0x0D, 0x20, 0xA0, 0x1680, 0x2028, 0x2029,
             0x202F, 0x205F, 0x3000, 0xFEFF}
    || 0x2000 <= code <= 0x200A
  }

  function TrimStart(s: string): (t: string)
    ensures |t| <= |s| && t == s[|s| - |t|..]
    ensures |t| > 0 ==> !IsJsWhitespace(t[0])
  {
    if |s| > 0 && IsJsWhitespace(s[0]) then TrimStart(s[1..]) else s
  }

  /** Length of the longest prefix of `s` made of digits of `radix`. */
  function DigitRun(s: string, radix: nat): (k: nat)
    ensures k <= |s|
    ensures forall i :: 0 <= i < k ==> DigitValue(s[i]) < radix
    ensures k < |s| ==> DigitValue(s[k]) >= radix
  {
    if |s| > 0 && DigitValue(s[0]) < radix then 1 + DigitRun(s[1..], radix) else 0
  }

  /** The value of a string of digits in `radix`, most significant first. */
  function DigitsValue(s: string, radix: nat): nat
  {
    if |s| == 0 then 0
    else DigitsValue(s[..|s| - 1], radix) * radix + DigitValue(s[|s| - 1])
  }

  /** The text after an optional leading sign. */
  function AfterSign(t: string): (u: string)
    ensures |u| <= |t| && u == t[|t| - |u|..]
  {
    if |t| > 0 && (t[0] == '-' || t[0] == '+') then t[1..] else t
  }

  /** The unsigned part of `parseInt`: a `0x`/`0X` prefix selects radix 16,
      else radix 10, then the longest run of digits. `None` when there is
      no digit. */
  function ParseUnsigned(u: string): (r: Option<nat>)
    ensures |u| == 0 || DigitValue(u[0]) >= 10 ==> r.None?
  {
    var hex := |u| >= 2 && u[0] == '0' && (u[1] == 'x' || u[1] == 'X');
    var radix := if hex then 16 else 10;
    var v := if hex then u[2..] else u;
    var k := DigitRun(v, radix);
    if k == 0 then None else Some(DigitsValue(v[..k], radix))
  }

  /** `parseInt(s)` with no radix argument: skip leading white space, read an
      optional sign, then the unsigned number. `None` stands for `NaN`. */
  function ParseInt(s: string): (r: Option<int>)
    ensures r.Some? ==> |TrimStart(s)| > 0
    ensures r.Some? && r.value != 0 ==> (r.value < 0 <==> TrimStart(s)[0] == '-')
  {
    var t := TrimStart(s);
    var u := AfterSign(t);
    var magnitude := ParseUnsigned(u);
    if magnitude.None? then None
    else
      assert |u| > 0;
      var value: int := magnitude.value;
      if t[0] == '-' then Some(-value) else Some(value)
  }

  lemma {:induction false} NatToStringValue(n: nat)
    ensures DigitsValue(NatToString(n), 10) == n
    decreases n
  {
    var s := NatToString(n);
    if n >= 10 {
      NatToStringValue(n / 10);
      assert s[..|s| - 1] == NatToString(n / 10);
    }
  }

  lemma {:induction false} DigitRunOfDigits(s: string)
    requires forall i :: 0 <= i < |s| ==> IsDecimalDigit(s[i])
    ensures DigitRun(s, 10) == |s|
  {
    if |s| > 0 {
      DigitRunOfDigits(s[1..]);
    }
  }

  /** `parseInt` reads back every integer a template literal writes. */
  lemma ParseIntOfIntToString(n: int)
    ensures ParseInt(IntToString(n)) == Some(n)
  {
    var s := IntToString(n);
    var m: nat := if n < 0 then -n else n;
    var digits := NatToString(m);
    assert !IsJsWhitespace(s[0]) by {
      if n >= 0 { assert IsDecimalDigit(s[0]); }
    }
    assert TrimStart(s) == s;
    if n < 0 {
      assert s == "-" + digits;
      assert AfterSign(s) == digits;
    } else {
      assert AfterSign(s) == digits by { assert IsDecimalDigit(s[0]); }
    }
    ParseDigits(digits);
    NatToStringValue(m);
    assert ParseUnsigned(AfterSign(TrimStart(s))) == Some(m);
  }

  /** A run of decimal digits parses as its decimal value. */
  lemma ParseDigits(digits: string)
    requires |digits| > 0 && forall i :: 0 <= i < |digits| ==> IsDecimalDigit(digits[i])
    ensures ParseUnsigned(digits) == Some(DigitsValue(digits, 10))
  {
    assert !(|digits| >= 2 && (digits[1] == 'x' || digits[1] == 'X')) by {
      if |digits| >= 2 { assert IsDecimalDigit(digits[1]); }
    }
    DigitRunOfDigits(digits);
    assert digits[..|digits|] == digits;
  }

  /** `parseInt` returns `NaN` when, after the leading white space and an
      optional sign, the text does not start with a decimal digit. */
  lemma ParseIntWithoutDigits(s: string)
    requires var u := AfterSign(TrimStart(s)); |u| == 0 || DigitValue(u[0]) >= 10
    ensures ParseInt(s) == None
  {
  }

  /** A word starting with a lower-case letter, such as "null", is NaN. */
  lemma WordIsNaN(s: string)
    requires |s| > 0 && 'a' <= s[0] <= 'z'
    ensures ParseInt(s) == None
  {
    assert !IsJsWhitespace(s[0]);
    assert TrimStart(s) == s;
    assert AfterSign(s) == s;
    ParseIntWithoutDigits(s);
  }

  /** `s.endsWith(suffix)`. */
  predicate EndsWith(s: string, suffix: string)
  {
    |suffix| <= |s| && s[|s| - |suffix|..] == suffix
  }

  /** Lexicographic order by character code, the order in which the store
      sorts `YYYY-MM-DD` date strings. */
  predicate StrLeq(a: string, b: string)
  {
    |a| == 0 || (|b| > 0 && (a[0] < b[0] || (a[0] == b[0] && StrLeq(a[1..], b[1..]))))
  }

  lemma {:induction false} StrLeqTotal(a: string, b: string)
    ensures StrLeq(a, b) || StrLeq(b, a)
  {
    if |a| > 0 && |b| > 0 && a[0] == b[0] {
      StrLeqTotal(a[1..], b[1..]);
    }
  }

  lemma {:induction false} StrLeqTransitive(a: string, b: string, c: string)
    requires StrLeq(a, b) && StrLeq(b, c)
    ensures StrLeq(a, c)
  {
    if |a| > 0 && a[0] == b[0] && b[0] == c[0] {
      StrLeqTransitive(a[1..], b[1..], c[1..]);
    }
  }
}
