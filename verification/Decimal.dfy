/** Decimal printing, as by the "%d" verb, and its inverse. */
module Decimal {

  function DigitValue(c: char): nat {
    if '0' <= c <= '9' then c as int - '0' as int else 0
  }

  function Digit(d: nat): (c: char)
    requires d < 10
    ensures '0' <= c <= '9' && DigitValue(c) == d
  {
    ('0' as int + d) as char
  }

  function DecNat(n: nat): (s: string)
    ensures |s| > 0 && '0' <= s[0] <= '9'
  {
    if n < 10 then [Digit(n)] else DecNat(n / 10) + [Digit(n % 10)]
  }

  function Dec(n: int): string {
    if n < 0 then "-" + DecNat(-n) else DecNat(n)
  }

  function ParseNat(s: string): nat {
    if s == [] then 0 else 10 * ParseNat(s[..|s| - 1]) + DigitValue(s[|s| - 1])
  }

  function Parse(s: string): int {
    if s != [] && s[0] == '-' then 0 - ParseNat(s[1..]) else ParseNat(s)
  }

  lemma {:induction false} ParseNatDec(n: nat)
    ensures ParseNat(DecNat(n)) == n
  {
    if n >= 10 {
      ParseNatDec(n / 10);
      assert DecNat(n)[..|DecNat(n)| - 1] == DecNat(n / 10);
    } else {
      assert DecNat(n)[..0] == [];
    }
  }

  lemma ParseDec(n: int)
    ensures Parse(Dec(n)) == n
  {
    if n < 0 {
      assert Dec(n)[1..] == DecNat(-n);
      ParseNatDec(-n);
    } else {
      ParseNatDec(n);
    }
  }

  lemma DecInjective(m: int, n: int)
    ensures Dec(m) == Dec(n) ==> m == n
  {
    ParseDec(m);
    ParseDec(n);
  }

  lemma PrefixedDecInjective(prefix: string, m: int, n: int)
    ensures prefix + Dec(m) == prefix + Dec(n) ==> m == n
  {
    assert (prefix + Dec(m))[|prefix|..] == Dec(m) && (prefix + Dec(n))[|prefix|..] == Dec(n);
    DecInjective(m, n);
  }

  /** What "%d" prints: an optional sign and digits, with no zero in front of another digit. */
  predicate Numeral(s: string) {
    var digits := if s != "" && s[0] == '-' then s[1..] else s;
    && digits != "" && (forall i :: 0 <= i < |digits| ==> '0' <= digits[i] <= '9')
    && (digits[0] == '0' ==> s == "0")
  }

  lemma {:induction false} DecNatShape(n: nat)
    ensures forall i :: 0 <= i < |DecNat(n)| ==> '0' <= DecNat(n)[i] <= '9'
    ensures DecNat(n)[0] == '0' ==> n == 0 && DecNat(n) == "0"
  {
    if n >= 10 {
      DecNatShape(n / 10);
      assert DecNat(n)[0] == DecNat(n / 10)[0];
    }
  }

  lemma DecIsNumeral(n: int)
    ensures Numeral(Dec(n))
  {
    if n < 0 {
      DecNatShape(-n);
      assert Dec(n)[1..] == DecNat(-n);
    } else {
      DecNatShape(n);
    }
  }
}
