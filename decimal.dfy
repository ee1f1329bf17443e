/** Decimal text for unsigned numbers, as Rust's `str::parse::<u32>` reads it. */
module Decimal {
  import opened Wrappers

  predicate IsDigit(c: char) { '0' <= c <= '9' }

  predicate AllDigits(s: string) { forall i :: 0 <= i < |s| ==> IsDigit(s[i]) }

  function DigitValue(c: char): nat
    requires IsDigit(c)
  {
    c as int - '0' as int
  }

  function DigitChar(d: nat): (c: char)
    requires d < 10
    ensures IsDigit(c) && DigitValue(c) == d
  {
    ('0' as int + d) as char
  }

  /** The number a string of digits denotes, most significant digit first. */
  function Value(s: string): nat
    requires AllDigits(s)
  {
    if |s| == 0 then 0 else Value(s[..|s| - 1]) * 10 + DigitValue(s[|s| - 1])
  }

  /** The shortest decimal text of `n`, as `to_string` writes it. */
  function ToDecimal(n: nat): (s: string)
    ensures |s| > 0 && AllDigits(s)
    ensures |s| > 1 ==> s[0] != '0'
  {
    if n < 10 then [DigitChar(n)] else ToDecimal(n / 10) + [DigitChar(n % 10)]
  }

  /** `str::parse::<u32>`: an optional `+`, then at least one digit and nothing else, with
      a value that fits in 32 bits. */
  function ParseU32(s: string): (r: Option<u32>)
    ensures r.Some? <==> |s| > 0 && AllDigits(Digits(s)) && |Digits(s)| > 0 &&
                         Value(Digits(s)) <= U32_MAX
    ensures r.Some? ==> r.value as nat == Value(Digits(s))
  {
    var digits := Digits(s);
    if |s| == 0 || |digits| == 0 || !AllDigits(digits) then None
    else if Value(digits) > U32_MAX then None
    else Some(Value(digits) as u32)
  }

  /** The text after an optional leading `+`. */
  function Digits(s: string): string
  {
    if |s| > 0 && s[0] == '+' then s[1..] else s
  }

  lemma {:induction false} ValueOfToDecimal(n: nat)
    ensures Value(ToDecimal(n)) == n
  {
    if n >= 10 {
      var s := ToDecimal(n);
      assert s[..|s| - 1] == ToDecimal(n / 10);
      ValueOfToDecimal(n / 10);
    }
  }

  /** Parsing reads back every number that fits, written with or without a sign. */
  lemma ParsePrinted(n: u32)
    ensures ParseU32(ToDecimal(n as nat)) == Some(n)
    ensures ParseU32("+" + ToDecimal(n as nat)) == Some(n)
  {
    ValueOfToDecimal(n as nat);
    assert ("+" + ToDecimal(n as nat))[1..] == ToDecimal(n as nat);
  }

  /** A number above `u32::MAX` does not parse. */
  lemma ParseRejectsOverflow(n: nat)
    requires n > U32_MAX
    ensures ParseU32(ToDecimal(n)) == None
  {
    ValueOfToDecimal(n);
  }

  /** Leading zeros do not change the value. */
  lemma {:induction false} LeadingZero(s: string)
    requires AllDigits(s)
    ensures AllDigits("0" + s) && Value("0" + s) == Value(s)
    decreases |s|
  {
    if |s| > 0 {
      var z := "0" + s;
      assert z[..|z| - 1] == "0" + s[..|s| - 1];
      LeadingZero(s[..|s| - 1]);
    }
  }

  /** A text with any character other than a digit after the optional sign does not parse;
      neither does a lone sign. */
  lemma ParseRejects(s: string)
    requires (exists i :: 0 <= i < |Digits(s)| && !IsDigit(Digits(s)[i])) || s == "+" || s == ""
    ensures ParseU32(s) == None
  {
  }
}
