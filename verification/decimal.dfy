/**
 * Decimal integers as Go's strconv.Atoi reads them: an optional sign
 * followed by at least one ASCII digit. Overflow of the 64-bit result is
 * not modelled: integers are unbounded here.
 */
module Decimal {
  import opened Results

  predicate IsDigit(c: char) {
    '0' <= c <= '9'
  }

  predicate AllDigits(s: string) {
    forall i :: 0 <= i < |s| ==> IsDigit(s[i])
  }

  /** The value of a string of digits, most significant first. */
  function DigitsValue(s: string): nat
    requires AllDigits(s)
  {
    if s == [] then 0
    else DigitsValue(s[..|s| - 1]) * 10 + (s[|s| - 1] as int - '0' as int)
  }

  /** The syntax Atoi accepts. */
  predicate IsDecimal(s: string) {
    if |s| > 0 && (s[0] == '+' || s[0] == '-') then |s| > 1 && AllDigits(s[1..])
    else |s| > 0 && AllDigits(s)
  }

  /** strconv.Atoi: `None` stands for the syntax error. */
  function Atoi(s: string): (r: Option<int>)
    ensures r.Some? <==> IsDecimal(s)
    ensures r.Some? && r.value < 0 ==> s[0] == '-'
    ensures r.Some? && |s| > 0 && s[0] != '-' ==> r.value >= 0
  {
    if |s| > 0 && (s[0] == '+' || s[0] == '-') then
      if |s| > 1 && AllDigits(s[1..]) then
        var magnitude: int := DigitsValue(s[1..]);
        Some(if s[0] == '-' then -magnitude else magnitude)
      else None
    else if |s| > 0 && AllDigits(s) then Some(DigitsValue(s))
    else None
  }

  /** The shortest digit string of a natural number. */
  function NatText(n: nat): (s: string)
    ensures |s| >= 1 && AllDigits(s)
    ensures DigitsValue(s) == n
  {
    var d := [('0' as int + n % 10) as char];
    if n < 10 then d
    else
      var prefix := NatText(n / 10);
      assert (prefix + d)[..|prefix + d| - 1] == prefix;
      prefix + d
  }

  /** Decimal rendering of an integer, with a leading '-' when negative. */
  function Itoa(n: int): (s: string)
  {
    if n < 0 then "-" + NatText(-n) else NatText(n)
  }

  /** Atoi reads back what Itoa writes. */
  lemma {:induction false} AtoiItoa(n: int)
    ensures Atoi(Itoa(n)) == Some(n)
  {
    var t := NatText(if n < 0 then -n else n);
    if n < 0 {
      assert Itoa(n)[1..] == t;
    }
  }

  /** A non-negative number renders as digits only. */
  lemma ItoaDigits(n: int)
    requires n >= 0
    ensures |Itoa(n)| >= 1 && AllDigits(Itoa(n))
  {
  }

  /** Itoa writes only digits and a leading '-'. */
  lemma ItoaAvoids(n: int, c: char)
    requires !IsDigit(c) && c != '-'
    ensures c !in Itoa(n)
  {
  }
}
