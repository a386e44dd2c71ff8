/**
 * The two number conversions the wrapper relies on: `parseInt(s, 10)` (section 19.2.5 of
 * ECMA-262) when it reads integer settings from the environment, and `Number.prototype.toString()`
 * of an integer when a numeric substitution is written into a template.
 *
 * Numbers are modelled as mathematical integers: `NaN` is `None`, `-0` is `0`.
 */
module JsNumber {
  import opened Wrappers

  /**
   * The characters `parseInt` skips before the number: WhiteSpace (TAB, VT, FF, SP, NBSP,
   * ZWNBSP and the Unicode space separators) and LineTerminator (LF, CR, LS, PS).
   */
  predicate IsStrWhiteSpace(c: char)
  {
    || c == '\t' || c == '\n' || c == '\U{B}' || c == '\U{C}' || c == '\r' || c == ' '
    || c == '\U{A0}' || c == '\U{1680}' || ('\U{2000}' <= c <= '\U{200A}')
    || c == '\U{2028}' || c == '\U{2029}' || c == '\U{202F}' || c == '\U{205F}'
    || c == '\U{3000}' || c == '\U{FEFF}'
  }

  predicate IsDigit(c: char)
  {
    '0' <= c <= '9'
  }

  predicate AllDigits(d: string)
  {
    forall i :: 0 <= i < |d| ==> IsDigit(d[i])
  }

  /** The string with its leading white space removed. */
  function TrimStart(s: string): string
  {
    if s != [] && IsStrWhiteSpace(s[0]) then TrimStart(s[1..]) else s
  }

  /** The longest prefix of `s` made of decimal digits. */
  function LeadingDigits(s: string): string
  {
    if s != [] && IsDigit(s[0]) then [s[0]] + LeadingDigits(s[1..]) else []
  }

  /** The value of a decimal digit character. */
  function DigitValue(c: char): int
  {
    c as int - '0' as int
  }

  /** The value of a string of decimal digits, most significant first. */
  function DigitsValue(d: string): int
  {
    if d == [] then 0 else 10 * DigitsValue(d[..|d| - 1]) + DigitValue(d[|d| - 1])
  }

  /** An optional sign and the text that follows it. */
  function SplitSign(t: string): (int, string)
  {
    if t != [] && t[0] == '-' then (-1, t[1..])
    else if t != [] && t[0] == '+' then (1, t[1..])
    else (1, t)
  }

  /**
   * `parseInt(s, 10)`: white space, an optional sign, then as many decimal digits as there
   * are; `None` (NaN) when no digit follows the sign.
   */
  function ParseInt(s: string): Option<int>
  {
    var (sign, body) := SplitSign(TrimStart(s));
    var d := LeadingDigits(body);
    if d == [] then None else Some(sign * DigitsValue(d))
  }

  function DigitChar(n: nat): (c: char)
    requires n < 10
    ensures IsDigit(c) && DigitValue(c) == n
  {
    ('0' as int + n) as char
  }

  /** The decimal digits of `n`, most significant first, without leading zeros. */
  function NatToString(n: nat): string
  {
    if n < 10 then [DigitChar(n)] else NatToString(n / 10) + [DigitChar(n % 10)]
  }

  /** `n.toString()` for an integer `n` (below 1e21 in magnitude in the source). */
  function IntToString(n: int): string
  {
    if n < 0 then "-" + NatToString(-n) else NatToString(n)
  }

  /** Trimming removes exactly the leading white space: what is left starts with something else. */
  lemma {:induction false} TrimStartSpec(s: string)
    ensures |TrimStart(s)| <= |s| && TrimStart(s) == s[|s| - |TrimStart(s)|..]
    ensures forall i :: 0 <= i < |s| - |TrimStart(s)| ==> IsStrWhiteSpace(s[i])
    ensures TrimStart(s) == [] || !IsStrWhiteSpace(TrimStart(s)[0])
  {
    if s != [] && IsStrWhiteSpace(s[0]) {
      TrimStartSpec(s[1..]);
      assert forall i :: 1 <= i < |s| - |TrimStart(s)| ==> s[i] == s[1..][i - 1];
    }
  }

  /** The digit prefix is the longest one: the next character, if any, is not a digit. */
  lemma {:induction false} LeadingDigitsSpec(s: string)
    ensures |LeadingDigits(s)| <= |s| && LeadingDigits(s) == s[..|LeadingDigits(s)|]
    ensures AllDigits(LeadingDigits(s))
    ensures |LeadingDigits(s)| == |s| || !IsDigit(s[|LeadingDigits(s)|])
  {
    if s != [] && IsDigit(s[0]) {
      LeadingDigitsSpec(s[1..]);
    }
  }

  /** `toString` writes digits only, with no leading zero, that denote `n`. */
  lemma {:induction false} NatToStringSpec(n: nat)
    ensures NatToString(n) != [] && AllDigits(NatToString(n))
    ensures DigitsValue(NatToString(n)) == n
    ensures NatToString(n)[0] == '0' ==> n == 0
  {
    if n >= 10 {
      NatToStringSpec(n / 10);
      var s := NatToString(n);
      assert s[..|s| - 1] == NatToString(n / 10);
    }
  }

  lemma {:induction false} LeadingDigitsOf(d: string, tail: string)
    requires AllDigits(d)
    requires tail == [] || !IsDigit(tail[0])
    ensures LeadingDigits(d + tail) == d
    decreases |d|
  {
    if d != [] {
      assert (d + tail)[1..] == d[1..] + tail;
      LeadingDigitsOf(d[1..], tail);
      assert d == [d[0]] + d[1..];
    } else {
      assert d + tail == tail;
    }
  }

  lemma {:induction false} TrimStartOf(ws: string, t: string)
    requires forall i :: 0 <= i < |ws| ==> IsStrWhiteSpace(ws[i])
    requires t == [] || !IsStrWhiteSpace(t[0])
    ensures TrimStart(ws + t) == t
    decreases |ws|
  {
    if ws != [] {
      assert (ws + t)[1..] == ws[1..] + t;
      TrimStartOf(ws[1..], t);
    } else {
      assert ws + t == t;
    }
  }

  /** `parseInt` stops at the first character after the digits that follow the sign. */
  lemma ParseIntDigits(s: string, sign: int, digits: string, tail: string)
    requires AllDigits(digits) && digits != []
    requires tail == [] || !IsDigit(tail[0])
    requires SplitSign(TrimStart(s)) == (sign, digits + tail)
    ensures ParseInt(s) == Some(sign * DigitsValue(digits))
  {
    LeadingDigitsOf(digits, tail);
  }

  /** The sign `toString` writes for a negative number is the one `parseInt` takes off. */
  lemma SplitSignNegative(n: int, tail: string)
    requires n < 0
    ensures SplitSign(IntToString(n) + tail) == (-1, NatToString(-n) + tail)
  {
    assert IntToString(n) + tail == "-" + (NatToString(-n) + tail);
  }

  /** A non-negative number is written without a sign, starting with a digit. */
  lemma SplitSignNonNegative(n: int, tail: string)
    requires n >= 0
    ensures SplitSign(IntToString(n) + tail) == (1, NatToString(n) + tail)
  {
    NatToStringSpec(n);
    assert (IntToString(n) + tail)[0] == NatToString(n)[0];
  }

  lemma ParseIntTrimmed(s: string, n: int, tail: string)
    requires tail == [] || !IsDigit(tail[0])
    requires TrimStart(s) == IntToString(n) + tail
    ensures ParseInt(s) == Some(n)
  {
    if n < 0 {
      NatToStringSpec(-n);
      SplitSignNegative(n, tail);
      ParseIntDigits(s, -1, NatToString(-n), tail);
    } else {
      NatToStringSpec(n);
      SplitSignNonNegative(n, tail);
      ParseIntDigits(s, 1, NatToString(n), tail);
    }
  }

  /**
   * `parseInt` reads back what `toString` wrote, whatever white space precedes it and
   * whatever non-digit text follows it.
   */
  lemma ParseIntToString(ws: string, n: int, tail: string)
    requires forall i :: 0 <= i < |ws| ==> IsStrWhiteSpace(ws[i])
    requires tail == [] || !IsDigit(tail[0])
    ensures ParseInt(ws + IntToString(n) + tail) == Some(n)
  {
    var t := IntToString(n) + tail;
    assert ws + IntToString(n) + tail == ws + t;
    NatToStringSpec(if n < 0 then -n else n);
    assert t[0] == IntToString(n)[0];
    TrimStartOf(ws, t);
    ParseIntTrimmed(ws + t, n, tail);
  }

  /** A string holding no decimal digit at all never parses. */
  lemma ParseIntNoDigits(s: string)
    requires forall i :: 0 <= i < |s| ==> !IsDigit(s[i])
    ensures ParseInt(s) == None
  {
    var t := TrimStart(s);
    TrimStartSpec(s);
    var body := SplitSign(t).1;
    assert |body| <= |t| && body == t[|t| - |body|..];
    if body != [] {
      var k := |s| - |body|;
      assert body[0] == s[k];
      assert !IsDigit(body[0]);
    }
    assert LeadingDigits(body) == [];
  }

  /** Only the digits right after the optional sign count: `parseInt("12abc", 10)` is 12. */
  lemma ParseIntStopsAtLetter()
    ensures ParseInt("12abc") == Some(12)
  {
    assert NatToString(12) == "12" by {
      assert NatToString(1) == "1";
    }
    ParseIntToString("", 12, "abc");
    assert "" + "12" + "abc" == "12abc";
  }

  /** A fraction is cut at the decimal point. */
  lemma ParseIntStopsAtPoint()
    ensures ParseInt("3.9") == Some(3)
  {
    assert NatToString(3) == "3";
    ParseIntToString("", 3, ".9");
    assert "" + "3" + ".9" == "3.9";
  }

  lemma ParseIntSignAfterSpace()
    ensures ParseInt(" -7") == Some(-7)
  {
    assert IntToString(-7) == "-7" by {
      assert NatToString(7) == "7";
    }
    ParseIntToString(" ", -7, "");
    assert " " + "-7" + "" == " -7";
  }

  /** An empty string, or a sign not directly followed by a digit, is NaN. */
  lemma ParseIntNaN()
    ensures ParseInt("") == None
    ensures ParseInt("- 1") == None
    ensures ParseInt("  ") == None
  {
    assert TrimStart("  ") == "";
    assert TrimStart("- 1") == "- 1";
    assert SplitSign("- 1").1 == " 1";
  }
}
