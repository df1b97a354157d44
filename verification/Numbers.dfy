/** Machine integers and their decimal text. */
module Numbers {
  const INTMAX_MAX: int := 0x7fff_ffff_ffff_ffff
  const INTMAX_MIN: int := -0x8000_0000_0000_0000

  predicate IsIntmax(n: int) { INTMAX_MIN <= n <= INTMAX_MAX }

  type Intmax = n: int | IsIntmax(n)

  function Abs(n: int): nat { if n < 0 then -n else n }

  /** `itos`: decimal digits, most significant first, after an optional sign. */
  function Digits(n: nat): string {
    if n < 10 then [DigitChar(n)] else Digits(n / 10) + [DigitChar(n % 10)]
  }

  function DigitChar(d: nat): char
    requires d < 10
  {
    ('0' as int + d) as char
  }

  function Itos(n: int): string {
    if n < 0 then "-" + Digits(-n) else Digits(n)
  }

  /** The number a string of digits denotes. */
  function NatValue(s: string): int {
    if s == "" then 0 else 10 * NatValue(s[..|s| - 1]) + (s[|s| - 1] as int - '0' as int)
  }

  function IntValue(s: string): int {
    if s != "" && s[0] == '-' then -NatValue(s[1..]) else NatValue(s)
  }

  lemma {:induction false} DigitsValue(n: nat)
    ensures Digits(n) != "" && NatValue(Digits(n)) == n && '-' !in Digits(n)
  {
    if n < 10 {
      assert Digits(n)[..0] == "";
    } else {
      DigitsValue(n / 10);
      assert Digits(n)[..|Digits(n)| - 1] == Digits(n / 10);
    }
  }
}
