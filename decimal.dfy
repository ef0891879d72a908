/**
 Decimal spelling of non-negative integers, as `strconv.Itoa` produces it for the
 `Content-Length` header, and the matching parser a client applies to that header.
 */
module Decimal {

  /** True iff every character of `s` is an ASCII digit. */
  predicate IsDigits(s: string) {
    forall i :: 0 <= i < |s| ==> '0' <= s[i] <= '9'
  }

  /** The value of one ASCII digit. */
  function DigitValue(c: char): (d: nat)
    requires '0' <= c <= '9'
    ensures d < 10
  {
    (c as int) - ('0' as int)
  }

  /** The ASCII digit whose value is `d`. */
  function DigitChar(d: nat): (c: char)
    requires d < 10
    ensures '0' <= c <= '9' && DigitValue(c) == d
  {
    (('0' as int) + d) as char
  }

  /** `strconv.Itoa(n)` for `n >= 0`: the shortest decimal spelling, no sign, no leading zero. */
  function Itoa(n: nat): (s: string)
    ensures |s| >= 1 && IsDigits(s)
    ensures s[0] == '0' ==> n == 0 && s == "0"
    ensures n >= 10 ==> |s| >= 2
  {
    if n < 10 then [DigitChar(n)] else Itoa(n / 10) + [DigitChar(n % 10)]
  }

  /** The value of a digit string, most significant digit first (the empty string is 0). */
  function ParseDecimal(s: string): (n: nat)
    requires IsDigits(s)
  {
    if s == [] then 0 else 10 * ParseDecimal(s[..|s| - 1]) + DigitValue(s[|s| - 1])
  }

  /** A digit string reads as zero only when every digit is '0'. */
  lemma {:induction false} ParseDecimalZero(s: string)
    requires IsDigits(s) && |s| >= 1 && s[0] != '0'
    ensures ParseDecimal(s) >= 1
  {
    if |s| > 1 {
      ParseDecimalZero(s[..|s| - 1]);
    }
  }

  /** Parsing what `Itoa` writes gives back the number. */
  lemma {:induction false} ParseItoa(n: nat)
    ensures ParseDecimal(Itoa(n)) == n
  {
    if n >= 10 {
      var s := Itoa(n);
      assert s[..|s| - 1] == Itoa(n / 10);
      ParseItoa(n / 10);
    }
  }

  /** Conversely, every canonical digit string (no leading zero) is what `Itoa` writes for its value. */
  lemma {:induction false} ItoaParse(s: string)
    requires IsDigits(s) && |s| >= 1 && (s[0] == '0' ==> |s| == 1)
    ensures Itoa(ParseDecimal(s)) == s
  {
    var c := s[|s| - 1];
    assert DigitChar(DigitValue(c)) == c;
    if |s| > 1 {
      var p := s[..|s| - 1];
      ParseDecimalZero(p);
      ItoaParse(p);
      var n := ParseDecimal(s);
      assert n / 10 == ParseDecimal(p) && n % 10 == DigitValue(c);
      assert s == p + [c];
    }
  }
}
