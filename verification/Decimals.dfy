/** Decimal text as the formatter writes it and `str::parse` reads it. */
module Decimals {
  import opened Machine

  function DigitChar(d: nat): char
    requires d < 10
  {
    '0' + d as char
  }

  predicate IsDigit(c: char) {
    '0' <= c <= '9'
  }

  function DigitValue(c: char): nat
    requires IsDigit(c)
  {
    (c - '0') as nat
  }

  /** `{n}`. */
  function Decimal(n: nat): string {
    if n < 10 then [DigitChar(n)] else Decimal(n / 10) + [DigitChar(n % 10)]
  }

  function DecimalInt(n: int): string {
    if n < 0 then "-" + Decimal(-n) else Decimal(n)
  }

  /** `{n:02}`. */
  function Padded(n: nat): string {
    if n < 10 then "0" + Decimal(n) else Decimal(n)
  }

  predicate AllDigits(s: string) {
    forall i | 0 <= i < |s| :: IsDigit(s[i])
  }

  function Value(s: string): nat
    requires AllDigits(s)
  {
    if s == "" then 0 else 10 * Value(s[..|s| - 1]) + DigitValue(s[|s| - 1])
  }

  /** `str::parse` for an integer type with the given bounds; a minus sign only for signed types. */
  function ParseInt(s: string, lo: int, hi: int): Option<int> {
    var negative := s != "" && s[0] == '-' && lo < 0;
    var digits := if s != "" && (s[0] == '+' || negative) then s[1..] else s;
    if digits == "" || !AllDigits(digits) then None
    else
      var n := if negative then -(Value(digits) as int) else Value(digits);
      if lo <= n <= hi then Some(n) else None
  }

  lemma {:induction false} DecimalFacts(n: nat)
    ensures Decimal(n) != "" && AllDigits(Decimal(n)) && Value(Decimal(n)) == n
  {
    if n >= 10 {
      DecimalFacts(n / 10);
      var init := Decimal(n / 10);
      assert Decimal(n)[..|Decimal(n)| - 1] == init;
    } else {
      assert Decimal(n)[..0] == "";
    }
  }

  lemma PaddedFacts(n: nat)
    ensures Padded(n) != "" && AllDigits(Padded(n)) && Value(Padded(n)) == n
  {
    DecimalFacts(n);
    if n < 10 {
      assert Padded(n)[..1] == "0";
      assert "0"[..0] == "";
    }
  }
}
