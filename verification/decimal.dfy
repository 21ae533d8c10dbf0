/** Decimal numerals: how the application turns numbers into text (template
    literals `${n}`) and text back into numbers (`Number(part)`, `parseInt`).
    Only non-negative integers below 2^53 are exact in JavaScript; the model
    uses unbounded naturals. */
module Decimal {
  import opened Wrappers
  import opened JsText

  function DigitValue(c: char): (d: nat)
    requires IsDigit(c)
    ensures d < 10
  {
    c as int - '0' as int
  }

  function DigitChar(d: nat): (c: char)
    requires d < 10
    ensures IsDigit(c) && DigitValue(c) == d
  {
    ('0' as int + d) as char
  }

  /** `${n}` for a non-negative integer: its decimal numeral. */
  function Show(n: nat): (s: string)
    ensures s != [] && AllDigits(s)
    ensures |s| > 1 ==> s[0] != '0'
    decreases n
  {
    if n < 10 then [DigitChar(n)] else Show(n / 10) + [DigitChar(n % 10)]
  }

  /** The number a run of decimal digits denotes; leading zeros are allowed
      and the empty run denotes 0 (as `Number('')` does). */
  function Value(s: string): nat
    requires AllDigits(s)
  {
    if s == [] then 0 else 10 * Value(s[..|s| - 1]) + DigitValue(s[|s| - 1])
  }

  /** Reading back what `Show` wrote gives the number. */
  lemma {:induction false} ValueOfShow(n: nat)
    ensures Value(Show(n)) == n
    decreases n
  {
    if n >= 10 {
      var s := Show(n / 10) + [DigitChar(n % 10)];
      assert s[..|s| - 1] == Show(n / 10);
      ValueOfShow(n / 10);
    }
  }

  /** Distinct numbers have distinct numerals. */
  lemma ShowInjective(m: nat, n: nat)
    ensures Show(m) == Show(n) ==> m == n
  {
    ValueOfShow(m);
    ValueOfShow(n);
  }

  /** The longest prefix of `s` made of digits. */
  function DigitPrefix(s: string): (p: string)
    ensures p <= s && AllDigits(p)
    ensures |p| < |s| ==> !IsDigit(s[|p|])
  {
    if s != [] && IsDigit(s[0]) then [s[0]] + DigitPrefix(s[1..]) else []
  }

  predicate IsSign(c: char) {
    c == '-' || c == '+'
  }

  /** `parseInt(s)` on text without leading white space and without a `0x`
      prefix: an optional sign followed by at least one digit gives a number,
      anything else `NaN` (`None`). The digits end at the first non-digit. */
  function ParseInt(s: string): (r: Option<int>)
    ensures r.Some? <==> DigitPrefix(if s != [] && IsSign(s[0]) then s[1..] else s) != []
  {
    if s != [] && s[0] == '-' then
      match ReadDigits(s[1..])
      case Some(n) => Some(-(n as int))
      case None => None
    else if s != [] && s[0] == '+' then ReadDigits(s[1..])
    else ReadDigits(s)
  }

  /** The number the leading digits of `u` denote, if there are any. */
  function ReadDigits(u: string): (r: Option<nat>)
    ensures r.Some? <==> DigitPrefix(u) != []
  {
    var digits := DigitPrefix(u);
    if digits == [] then None else Some(Value(digits))
  }

  /** A numeral `parseInt` reads back as the number it was written from. */
  lemma ParseIntOfShow(n: nat)
    ensures ParseInt(Show(n)) == Some(n)
  {
    var s := Show(n);
    assert IsDigit(s[0]) && s[0] != '+' && s[0] != '-';
    DigitPrefixOfDigits(s);
    ValueOfShow(n);
  }

  /** `parseInt` reads the numeral at the front, with its sign, and ignores
      whatever follows it once a non-digit comes: `"12abc"` is 12, `"-7.5"` is
      -7, `"+3e2"` is 3. */
  lemma ParseIntReadsLeadingNumber(n: nat, t: string)
    requires t == [] || !IsDigit(t[0])
    ensures ParseInt(Show(n) + t) == Some(n)
    ensures ParseInt(['-'] + (Show(n) + t)) == Some(-(n as int))
    ensures ParseInt(['+'] + (Show(n) + t)) == Some(n)
  {
    LeadingDigits(n, t);
    ReadsDigitPrefix(Show(n) + t, n);
  }

  /** Text starting with a digit, with or without a sign in front, is read as
      its digit prefix. */
  lemma ReadsDigitPrefix(u: string, n: nat)
    requires u != [] && IsDigit(u[0])
    requires Value(DigitPrefix(u)) == n
    ensures ParseInt(u) == Some(n)
    ensures ParseInt(['-'] + u) == Some(-(n as int))
    ensures ParseInt(['+'] + u) == Some(n)
  {
    UnsignedBody(u);
    NegativeBody(u);
    PositiveBody(u);
  }

  /** A numeral followed by a non-digit starts with a digit, and its digit
      prefix denotes the number. */
  lemma LeadingDigits(n: nat, t: string)
    requires t == [] || !IsDigit(t[0])
    ensures Show(n) + t != [] && IsDigit((Show(n) + t)[0])
    ensures Value(DigitPrefix(Show(n) + t)) == n
  {
    DigitPrefixStops(Show(n), t);
    ValueOfShow(n);
  }

  /** Text starting with a digit is read with no sign. */
  lemma UnsignedBody(u: string)
    requires u != [] && IsDigit(u[0])
    ensures ParseInt(u) == Some(Value(DigitPrefix(u)))
  {
    assert DigitPrefix(u) != [];
  }

  /** A minus sign in front of text starting with a digit negates its digits. */
  lemma NegativeBody(u: string)
    requires u != [] && IsDigit(u[0])
    ensures ParseInt(['-'] + u) == Some(-(Value(DigitPrefix(u)) as int))
  {
    assert (['-'] + u)[1..] == u;
    assert DigitPrefix(u) != [];
  }

  /** A plus sign in front of text starting with a digit changes nothing. */
  lemma PositiveBody(u: string)
    requires u != [] && IsDigit(u[0])
    ensures ParseInt(['+'] + u) == Some(Value(DigitPrefix(u)))
  {
    assert (['+'] + u)[1..] == u;
    assert DigitPrefix(u) != [];
  }

  /** The digit prefix of digits followed by a non-digit is those digits. */
  lemma {:induction false} DigitPrefixStops(s: string, t: string)
    requires AllDigits(s)
    requires t == [] || !IsDigit(t[0])
    ensures DigitPrefix(s + t) == s
  {
    if s == [] {
      assert s + t == t;
    } else {
      assert (s + t)[1..] == s[1..] + t;
      DigitPrefixStops(s[1..], t);
    }
  }

  lemma {:induction false} DigitPrefixOfDigits(s: string)
    requires AllDigits(s)
    ensures DigitPrefix(s) == s
  {
    if s != [] {
      DigitPrefixOfDigits(s[1..]);
    }
  }
}
