/** Decimal text and integers: Python's `int(text)` and `str(n)`, and the
    fixed-width zero-padded fields of `strptime`/`strftime`. */
module Numerals {
  import opened Wrappers

  predicate IsDigit(c: char) { '0' <= c <= '9' }

  predicate AllDigits(s: string) { forall i :: 0 <= i < |s| ==> IsDigit(s[i]) }

  function DigitValue(c: char): (d: nat)
    requires IsDigit(c)
    ensures d < 10
  {
    c as int - '0' as int
  }

  function DigitChar(d: nat): (c: char)
    requires d < 10
    ensures IsDigit(c) && DigitValue(c) == d
  {
    ('0' as int + d) as char
  }

  /** The value of a string of decimal digits, most significant digit first. */
  function DigitsValue(s: string): nat
    requires AllDigits(s)
  {
    if s == [] then 0 else DigitsValue(s[..|s| - 1]) * 10 + DigitValue(s[|s| - 1])
  }

  function Pow10(n: nat): (p: nat)
    ensures p >= 1
  {
    if n == 0 then 1 else 10 * Pow10(n - 1)
  }

  lemma {:induction false} DigitsValueBound(s: string)
    requires AllDigits(s)
    ensures DigitsValue(s) < Pow10(|s|)
  {
    if s != [] {
      DigitsValueBound(s[..|s| - 1]);
    }
  }

  /** `n` written in exactly `width` digits, zero-padded on the left (`%0<width>d`). */
  function Padded(n: nat, width: nat): (s: string)
    ensures |s| == width && AllDigits(s)
  {
    if width == 0 then [] else Padded(n / 10, width - 1) + [DigitChar(n % 10)]
  }

  /** Reading back a padded number gives the number, when it fits the width. */
  lemma {:induction false} PaddedValue(n: nat, width: nat)
    requires n < Pow10(width)
    ensures DigitsValue(Padded(n, width)) == n
  {
    if width > 0 {
      var s := Padded(n, width);
      assert s[..|s| - 1] == Padded(n / 10, width - 1);
      PaddedValue(n / 10, width - 1);
    }
  }

  /** Padding the value of a digit string to its own length gives the string back. */
  lemma {:induction false} PaddedOfDigits(s: string)
    requires AllDigits(s)
    ensures Padded(DigitsValue(s), |s|) == s
  {
    if s != [] {
      var init := s[..|s| - 1];
      PaddedOfDigits(init);
      assert DigitsValue(s) / 10 == DigitsValue(init);
      assert DigitChar(DigitsValue(s) % 10) == s[|s| - 1];
      assert s == init + [s[|s| - 1]];
    }
  }

  /** Python's `str(n)` for a non-negative int: the shortest decimal digits.
      The program never converts amounts to text; this and `IntToString` exist
      to state that `int()` inverts them (`ParseIntToString`). */
  function NatToString(n: nat): (s: string)
    ensures |s| > 0 && AllDigits(s)
  {
    if n < 10 then [DigitChar(n)] else NatToString(n / 10) + [DigitChar(n % 10)]
  }

  /** Python's `str(n)` for any int; the partner of `ParseInt` only. */
  function IntToString(n: int): (s: string)
  {
    if n < 0 then "-" + NatToString(-n) else NatToString(n)
  }

  lemma {:induction false} NatToStringValue(n: nat)
    ensures DigitsValue(NatToString(n)) == n
  {
    if n >= 10 {
      var s := NatToString(n);
      assert s[..|s| - 1] == NatToString(n / 10);
      NatToStringValue(n / 10);
    }
  }

  /** The ASCII characters `str.isspace` accepts, which `int()` strips from both ends. */
  predicate IsSpace(c: char)
  {
    c == ' ' || (9 <= c as int <= 13) || (28 <= c as int <= 31)
  }

  function StripLeft(s: string): string
  {
    if s != [] && IsSpace(s[0]) then StripLeft(s[1..]) else s
  }

  function StripRight(s: string): string
  {
    if s != [] && IsSpace(s[|s| - 1]) then StripRight(s[..|s| - 1]) else s
  }

  /** Python's `str.strip()` restricted to ASCII whitespace. */
  function Strip(s: string): string
  {
    StripRight(StripLeft(s))
  }

  /** The body of a Python decimal literal: digits, with single `_` allowed between two digits. */
  predicate IsDigitRun(s: string)
  {
    && |s| > 0
    && IsDigit(s[0])
    && IsDigit(s[|s| - 1])
    && (forall i :: 0 <= i < |s| ==> IsDigit(s[i]) || s[i] == '_')
    && NoDoubleUnderscore(s)
  }

  predicate NoDoubleUnderscore(s: string)
  {
    |s| < 2 || ((s[0] != '_' || s[1] != '_') && NoDoubleUnderscore(s[1..]))
  }

  function DropUnderscores(s: string): (r: string)
    requires forall i :: 0 <= i < |s| ==> IsDigit(s[i]) || s[i] == '_'
    ensures AllDigits(r)
  {
    if s == [] then []
    else if s[0] == '_' then DropUnderscores(s[1..])
    else [s[0]] + DropUnderscores(s[1..])
  }

  lemma {:induction false} DropUnderscoresOfDigits(s: string)
    requires AllDigits(s)
    ensures DropUnderscores(s) == s
  {
    if s != [] {
      DropUnderscoresOfDigits(s[1..]);
    }
  }

  /** The value of a digit run, or `None` when the text is not one. */
  function DigitRunValue(body: string): Option<int>
  {
    if IsDigitRun(body) then Some(DigitsValue(DropUnderscores(body)) as int) else None
  }

  /** Python's `int(text)` in base 10: surrounding whitespace, an optional sign,
      then a digit run; anything else is a ValueError (`None`). */
  function ParseInt(text: string): Option<int>
  {
    ParseTrimmed(Strip(text))
  }

  /** `int()` on text with no surrounding whitespace. */
  function ParseTrimmed(t: string): Option<int>
  {
    if t == [] then None
    else if t[0] == '-' then
      match DigitRunValue(t[1..])
      case Some(v) => Some(-v)
      case None => None
    else if t[0] == '+' then
      match DigitRunValue(t[1..])
      case Some(v) => Some(v)
      case None => None
    else
      match DigitRunValue(t)
      case Some(v) => Some(v)
      case None => None
  }

  lemma StripUnchanged(s: string)
    requires s != [] && !IsSpace(s[0]) && !IsSpace(s[|s| - 1])
    ensures Strip(s) == s
  {
  }

  lemma {:induction false} DigitsNoDoubleUnderscore(ds: string)
    requires AllDigits(ds)
    ensures NoDoubleUnderscore(ds)
  {
    if |ds| >= 2 {
      DigitsNoDoubleUnderscore(ds[1..]);
    }
  }

  lemma DigitRunOfDigits(ds: string)
    requires |ds| > 0 && AllDigits(ds)
    ensures DigitRunValue(ds) == Some(DigitsValue(ds))
  {
    DigitsNoDoubleUnderscore(ds);
    DropUnderscoresOfDigits(ds);
  }

  /** A digit string parses to its value. */
  lemma UnsignedDigitsParse(ds: string, k: int)
    requires |ds| > 0 && AllDigits(ds) && k == DigitsValue(ds)
    ensures ParseInt(ds) == Some(k)
  {
    assert IsDigit(ds[0]) && IsDigit(ds[|ds| - 1]);
    StripUnchanged(ds);
    DigitRunOfDigits(ds);
  }

  lemma SignedRunParse(sign: char, ds: string, k: int)
    requires sign == '-' || sign == '+'
    requires Strip([sign] + ds) == [sign] + ds && DigitRunValue(ds) == Some(k)
    ensures ParseInt([sign] + ds) == Some(if sign == '-' then -k else k)
  {
    assert ([sign] + ds)[1..] == ds;
  }

  /** A digit string after `-` parses to the negated value `k`, after `+` to `k`. */
  lemma SignedDigitsParse(sign: char, ds: string, k: int)
    requires sign == '-' || sign == '+'
    requires |ds| > 0 && AllDigits(ds) && k == DigitsValue(ds)
    ensures ParseInt([sign] + ds) == Some(if sign == '-' then -k else k)
  {
    var t := [sign] + ds;
    assert t[|t| - 1] == ds[|ds| - 1];
    StripUnchanged(t);
    DigitRunOfDigits(ds);
    SignedRunParse(sign, ds, k);
  }

  /** `int(str(n)) == n`: printing and parsing an integer are inverse. */
  lemma ParseIntToString(n: int)
    ensures ParseInt(IntToString(n)) == Some(n)
  {
    if n < 0 {
      assert IntToString(n) == ['-'] + NatToString(-n);
      NatToStringValue(-n);
      SignedDigitsParse('-', NatToString(-n), -n);
    } else {
      NatToStringValue(n);
      UnsignedDigitsParse(NatToString(n), n);
    }
  }

  /** An empty or all-blank text is not an integer literal. */
  lemma {:induction false} ParseIntBlank(text: string)
    requires forall i :: 0 <= i < |text| ==> IsSpace(text[i])
    ensures StripLeft(text) == [] && ParseInt(text) == None
  {
    if text != [] {
      ParseIntBlank(text[1..]);
    }
  }
}
