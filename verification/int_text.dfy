/** Decimal text for Java `int`s: `Integer.parseInt` and `Integer.toString`
    over ASCII digits. */
module IntText {
  import opened JavaInt
  import opened Optional

  predicate IsDigit(c: char) {
    '0' <= c <= '9'
  }

  predicate AllDigits(s: string) {
    forall j :: 0 <= j < |s| ==> IsDigit(s[j])
  }

  function DigitValue(c: char): (v: nat)
    requires IsDigit(c)
    ensures v < 10
  {
    (c as int) - ('0' as int)
  }

  function DigitChar(v: nat): (c: char)
    requires v < 10
    ensures IsDigit(c) && DigitValue(c) == v
  {
    ((v + '0' as int) as char)
  }

  /** The number a run of digits denotes, most significant first. */
  function DigitsValue(s: string): nat
    requires AllDigits(s)
    decreases |s|
  {
    if s == [] then 0
    else DigitsValue(s[..|s| - 1]) * 10 + DigitValue(s[|s| - 1])
  }

  /** The shortest decimal digits of `n`. */
  function FormatNat(n: nat): (s: string)
    ensures |s| > 0 && AllDigits(s)
    ensures |s| > 1 ==> s[0] != '0'
    decreases n
  {
    if n < 10 then [DigitChar(n)]
    else FormatNat(n / 10) + [DigitChar(n % 10)]
  }

  /** `Integer.toString`: a minus sign for negatives, then the digits. */
  function FormatInt(n: int): (s: string)
    ensures |s| > 0
    ensures n >= 0 ==> AllDigits(s)
    ensures n < 0 ==> s[0] == '-' && AllDigits(s[1..])
    ensures Canonical(if n < 0 then s[1..] else s)
    ensures n < 0 ==> s[1] != '0'
  {
    if n < 0 then FormatNatPositive(-n); "-" + FormatNat(-n)
    else FormatNat(n)
  }

  /** The digits of a positive number do not start with 0. */
  lemma FormatNatPositive(m: nat)
    requires m > 0
    ensures FormatNat(m)[0] != '0'
  {
    DigitsOfFormatNat(m);
  }

  /** `Integer.parseInt`: an optional sign, then at least one digit, and a
      value that fits in an `int`. Anything else is a NumberFormatException,
      here None. Leading zeros and a leading '+' are accepted. */
  function ParseInt(s: string): (r: Option<Int32>)
    ensures r.Some? ==>
              && |s| > 0
              && (IsDigit(s[0]) || s[0] == '+' || s[0] == '-')
              && (IsDigit(s[0]) || |s| > 1)
              && AllDigits(s[1..])
    ensures |s| > 0 && AllDigits(s) ==>
              r == (if DigitsValue(s) <= MaxInt then Some(DigitsValue(s)) else None)
    ensures |s| > 1 && s[0] == '+' && AllDigits(s[1..]) ==>
              r == (if DigitsValue(s[1..]) <= MaxInt then Some(DigitsValue(s[1..])) else None)
    ensures |s| > 1 && s[0] == '-' && AllDigits(s[1..]) ==>
              r == (if DigitsValue(s[1..]) <= -MinInt then Some(-(DigitsValue(s[1..]) as int)) else None)
  {
    if |s| == 0 then None
    else
      var neg := s[0] == '-';
      var digits := if s[0] == '-' || s[0] == '+' then s[1..] else s;
      if |digits| == 0 || !AllDigits(digits) then None
      else
        var magnitude: int := DigitsValue(digits);
        var v := if neg then -magnitude else magnitude;
        if InRange(v) then Some(v) else None
  }

  /** Formatting then reading digits gives the number back. */
  lemma {:induction false} DigitsOfFormatNat(n: nat)
    ensures DigitsValue(FormatNat(n)) == n
    decreases n
  {
    if n >= 10 {
      var s := FormatNat(n);
      DigitsOfFormatNat(n / 10);
      assert s[..|s| - 1] == FormatNat(n / 10);
    }
  }

  /** Every `int` survives `Integer.toString` then `Integer.parseInt`. */
  lemma ParseFormat(n: Int32)
    ensures ParseInt(FormatInt(n)) == Some(n)
  {
    var s := FormatInt(n);
    if n < 0 {
      var m: nat := -(n as int);
      DigitsOfFormatNat(m);
      assert s == "-" + FormatNat(m);
      assert s[1..] == FormatNat(m);
    } else {
      var m: nat := n;
      DigitsOfFormatNat(m);
      assert s == FormatNat(m);
      assert IsDigit(s[0]);
    }
  }

  /** Digits with no superfluous leading zero. */
  predicate Canonical(s: string) {
    |s| > 0 && AllDigits(s) && (|s| > 1 ==> s[0] != '0')
  }

  /** A canonical digit string with a non-zero first digit denotes a
      positive number. */
  lemma {:induction false} LeadingDigitPositive(s: string)
    requires |s| > 0 && AllDigits(s) && s[0] != '0'
    ensures DigitsValue(s) > 0
    decreases |s|
  {
    if |s| > 1 {
      LeadingDigitPositive(s[..|s| - 1]);
    }
  }

  /** Reading canonical digits then formatting gives the same text. */
  lemma {:induction false} FormatOfCanonical(s: string)
    requires Canonical(s)
    ensures FormatNat(DigitsValue(s)) == s
    decreases |s|
  {
    if |s| > 1 {
      var init := s[..|s| - 1];
      assert Canonical(init);
      LeadingDigitPositive(init);
      FormatOfCanonical(init);
      var v := DigitsValue(s);
      assert v / 10 == DigitsValue(init);
      assert v % 10 == DigitValue(s[|s| - 1]);
      assert DigitChar(DigitValue(s[|s| - 1])) == s[|s| - 1];
    } else {
      assert DigitChar(DigitValue(s[0])) == s[0];
    }
  }

  /** Whenever `Integer.parseInt` accepts a text, `Integer.toString` gives
      back its canonical form: the same value, and the same text when the
      input already was canonical. */
  lemma FormatParse(s: string)
    requires ParseInt(s).Some?
    ensures ParseInt(FormatInt(ParseInt(s).value)) == ParseInt(s)
    ensures Canonical(s) ==> FormatInt(ParseInt(s).value) == s
  {
    ParseFormat(ParseInt(s).value);
    if Canonical(s) {
      FormatOfCanonical(s);
    }
  }
}
