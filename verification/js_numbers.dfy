/**
  JavaScript's `parseInt(text, 10)` on query-string values: leading white
  space is skipped, one sign is read, then the longest run of decimal
  digits; with no digit the result is NaN (None here).
*/
module JsNumbers {
  import opened Common

  /** ECMAScript white space and line terminators (StrWhiteSpaceChar). */
  predicate IsSpace(c: char)
  {
    || c == '\t' || c == '\n' || c == '\U{B}' || c == '\U{C}' || c == '\r' || c == ' '
    || c == '\U{A0}' || c == '\U{1680}' || ('\U{2000}' <= c <= '\U{200A}')
    || c == '\U{2028}' || c == '\U{2029}' || c == '\U{202F}' || c == '\U{205F}'
    || c == '\U{3000}' || c == '\U{FEFF}'
  }

  predicate IsDigit(c: char)
  {
    '0' <= c <= '9'
  }

  predicate AllDigits(d: string)
  {
    forall i :: 0 <= i < |d| ==> IsDigit(d[i])
  }

  /** `s` without its leading white space. */
  function TrimStart(s: string): (t: string)
    ensures |t| <= |s| && t == s[|s| - |t|..]
    ensures |t| > 0 ==> !IsSpace(t[0])
    ensures forall i :: 0 <= i < |s| - |t| ==> IsSpace(s[i])
  {
    if |s| > 0 && IsSpace(s[0]) then TrimStart(s[1..]) else s
  }

  /** The longest prefix of `s` made of decimal digits. */
  function DigitRun(s: string): (d: string)
    ensures |d| <= |s| && d == s[..|d|]
    ensures AllDigits(d)
    ensures |d| < |s| ==> !IsDigit(s[|d|])
  {
    if |s| > 0 && IsDigit(s[0]) then [s[0]] + DigitRun(s[1..]) else ""
  }

  /** The number a digit string denotes. */
  function DigitsValue(d: string): nat
    requires AllDigits(d)
  {
    if |d| == 0 then 0 else DigitsValue(d[..|d| - 1]) * 10 + (d[|d| - 1] - '0') as nat
  }

  function ParseInt(s: string): (n: Option<int>)
    ensures (forall i :: 0 <= i < |s| ==> !IsDigit(s[i])) ==> n.None?
    ensures n.Some? && n.value < 0 ==> '-' in s
  {
    ParseSigned(TrimStart(s))
  }

  /** The sign and digit run at the very start of `t`. */
  function ParseSigned(t: string): (n: Option<int>)
    ensures (forall i :: 0 <= i < |t| ==> !IsDigit(t[i])) ==> n.None?
    ensures n.Some? && n.value < 0 ==> |t| > 0 && t[0] == '-'
  {
    if |t| > 0 && t[0] == '-' then Signed(true, DigitRun(t[1..]))
    else if |t| > 0 && t[0] == '+' then Signed(false, DigitRun(t[1..]))
    else Signed(false, DigitRun(t))
  }

  /** The value of a digit run under a sign; an empty run is not a number. */
  function Signed(negative: bool, digits: string): (n: Option<int>)
    requires AllDigits(digits)
    ensures n.None? <==> |digits| == 0
    ensures n.Some? && n.value < 0 ==> negative
  {
    if |digits| == 0 then None
    else
      var v: int := DigitsValue(digits);
      Some(if negative then -v else v)
  }

  function DigitChar(n: nat): (c: char)
    requires n < 10
    ensures IsDigit(c) && (c - '0') as nat == n
  {
    ('0' as int + n) as char
  }

  /** The decimal numeral of `n`, without leading zeros. */
  function NatText(n: nat): (d: string)
    ensures |d| >= 1 && AllDigits(d)
    ensures |d| > 1 ==> d[0] != '0'
  {
    if n < 10 then [DigitChar(n)] else NatText(n / 10) + [DigitChar(n % 10)]
  }

  /** `String(n)` for an integer. */
  function IntText(n: int): string
  {
    if n < 0 then "-" + NatText(-n) else NatText(n)
  }

  lemma {:induction false} NatTextValue(n: nat)
    ensures DigitsValue(NatText(n)) == n
  {
    if n >= 10 {
      var d := NatText(n);
      assert d[..|d| - 1] == NatText(n / 10);
      NatTextValue(n / 10);
    }
  }

  lemma {:induction false} TrimStartAfterSpace(spaces: string, rest: string)
    requires forall i :: 0 <= i < |spaces| ==> IsSpace(spaces[i])
    requires |rest| > 0 && !IsSpace(rest[0])
    ensures TrimStart(spaces + rest) == rest
  {
    if |spaces| > 0 {
      assert (spaces + rest)[1..] == spaces[1..] + rest;
      TrimStartAfterSpace(spaces[1..], rest);
    } else {
      assert spaces + rest == rest;
    }
  }

  lemma {:induction false} DigitRunOfDigits(d: string, rest: string)
    requires AllDigits(d)
    requires |rest| == 0 || !IsDigit(rest[0])
    ensures DigitRun(d + rest) == d
  {
    if |d| > 0 {
      assert (d + rest)[1..] == d[1..] + rest;
      DigitRunOfDigits(d[1..], rest);
      assert [d[0]] + d[1..] == d;
    } else {
      assert d + rest == rest;
    }
  }

  lemma ParseSignedDigits(digits: string, rest: string)
    requires |digits| >= 1 && AllDigits(digits)
    requires |rest| == 0 || !IsDigit(rest[0])
    ensures ParseSigned(digits + rest) == Signed(false, digits)
  {
    var t := digits + rest;
    assert IsDigit(t[0]);
    DigitRunOfDigits(digits, rest);
  }

  lemma ParseSignedNegative(t: string, digits: string, rest: string)
    requires |digits| >= 1 && AllDigits(digits)
    requires |rest| == 0 || !IsDigit(rest[0])
    requires |t| > 0 && t[0] == '-' && t[1..] == digits + rest
    ensures ParseSigned(t) == Signed(true, digits)
  {
    DigitRunOfDigits(digits, rest);
  }

  /** The numeral of `m` under either sign denotes `m` or `-m`. */
  lemma SignedNatText(m: nat)
    ensures Signed(false, NatText(m)) == Some(m)
    ensures Signed(true, NatText(m)) == Some(-(m as int))
  {
    NatTextValue(m);
  }

  lemma ParseSignedText(n: int, rest: string)
    requires |rest| == 0 || !IsDigit(rest[0])
    ensures ParseSigned(IntText(n) + rest) == Some(n)
  {
    if n < 0 {
      ParseNegativeText(-n, rest);
    } else {
      ParseSignedDigits(NatText(n), rest);
      SignedNatText(n);
    }
  }

  lemma ParseNegativeText(m: nat, rest: string)
    requires m > 0
    requires |rest| == 0 || !IsDigit(rest[0])
    ensures ParseSigned(IntText(-(m as int)) + rest) == Some(-(m as int))
  {
    var digits := NatText(m);
    var t := IntText(-(m as int)) + rest;
    assert t == ['-'] + (digits + rest);
    assert t[1..] == digits + rest;
    ParseSignedNegative(t, digits, rest);
    SignedNatText(m);
  }

  /**
    Printing then parsing gives the integer back, whatever white space
    precedes the numeral and whatever non-digit text follows it.
  */
  lemma ParseIntText(spaces: string, n: int, rest: string)
    requires forall i :: 0 <= i < |spaces| ==> IsSpace(spaces[i])
    requires |rest| == 0 || !IsDigit(rest[0])
    ensures ParseInt(spaces + IntText(n) + rest) == Some(n)
  {
    var t := IntText(n) + rest;
    assert t[0] == '-' || IsDigit(t[0]);
    assert spaces + IntText(n) + rest == spaces + t;
    TrimStartAfterSpace(spaces, t);
    ParseSignedText(n, rest);
  }

  /** A bare numeral parses to its integer. */
  lemma ParseNumeral(n: int)
    ensures ParseInt(IntText(n)) == Some(n)
  {
    var text := IntText(n);
    assert text[0] == '-' || IsDigit(text[0]);
    SignNotSpace(text[0]);
    TrimStartKeeps(text);
    ParseSignedText(n, "");
    assert text + "" == text;
  }

  lemma SignNotSpace(c: char)
    requires c == '-' || IsDigit(c)
    ensures !IsSpace(c)
  {
  }

  lemma TrimStartKeeps(s: string)
    requires |s| > 0 && !IsSpace(s[0])
    ensures TrimStart(s) == s
  {
  }
}
