/** Number literals of the evaluator: `strlong`. */
module ExprLiterals {
  import opened Chars
  import opened Numbers
  import opened ExprErrors
  import opened ExprNumbers

  predicate ValidNumchar(c: char) { IsDigit(c) || IsAlpha(c) || c == '_' || c == '@' }

  /** What a digit character is worth; up to base 36 the case of a letter does not matter. */
  function DigitWorth(c: char, base: int): (d: nat)
    requires ValidNumchar(c)
    ensures d < 64
  {
    if IsDigit(c) then c as int - '0' as int
    else if 'a' <= c <= 'z' then c as int - 'a' as int + 10
    else if 'A' <= c <= 'Z' then c as int - 'A' as int + if base <= 36 then 10 else 36
    else if c == '@' then 62
    else 63
  }

  /** The loop of `strlong` from a place in the literal on. */
  function Scan(t: string, base: int, found: bool, val: Intmax): Checked<Intmax> {
    if t == "" then Ok(val)
    else if t[0] == '#' then
      if found then Err(InvalidNumber)
      else if val < 2 || val > 64 then Err(InvalidBase)
      else if |t| == 1 || !ValidNumchar(t[1]) then Err(InvalidConstant)
      else Scan(t[1..], val, true, 0)
    else if ValidNumchar(t[0]) then
      if DigitWorth(t[0], base) >= base then Err(ValueTooGreat)
      else Scan(t[1..], base, found, Wrap(val * base + DigitWorth(t[0], base)))
    else Ok(val)
  }

  function LiteralValue(num: string): Checked<Intmax> {
    if num != "" && num[0] == '0' then
      if |num| == 1 then Ok(0)
      else if num[1] == 'x' || num[1] == 'X' then Scan(num[2..], 16, true, 0)
      else Scan(num[1..], 8, true, 0)
    else Scan(num, 10, false, 0)
  }

  /** `strlong`: no overflow check, so long literals wrap. */
  method Strlong(num: string) returns (r: Checked<Intmax>)
    ensures r == LiteralValue(num)
  {
    hide Scan, DigitWorth, Wrap;
    var base, foundbase, s := 10, false, 0;
    if num != "" && num[0] == '0' {
      s := 1;
      if s == |num| {
        return Ok(0);
      }
      if num[s] == 'x' || num[s] == 'X' {
        base := 16;
        s := s + 1;
      } else {
        base := 8;
      }
      foundbase := true;
    }
    var val: Intmax := 0;
    assert num[0..] == num;
    while s < |num|
      invariant s <= |num| && Scan(num[s..], base, foundbase, val) == LiteralValue(num)
    {
      ScanStep(num, s, base, foundbase, val);
      var c := num[s];
      s := s + 1;
      if c == '#' {
        if foundbase {
          return Err(InvalidNumber);
        }
        if val < 2 || val > 64 {
          return Err(InvalidBase);
        }
        base := val;
        val := 0;
        foundbase := true;
        if s == |num| || !ValidNumchar(num[s]) {
          return Err(InvalidConstant);
        }
      } else if ValidNumchar(c) {
        var d := DigitWorth(c, base);
        if d >= base {
          return Err(ValueTooGreat);
        }
        val := Wrap(val * base + d);
      } else {
        break;
      }
    }
    ScanEnd(num, s, base, foundbase, val);
    return Ok(val);
  }

  lemma ScanStep(num: string, s: nat, base: int, found: bool, val: Intmax)
    requires s < |num|
    ensures Scan(num[s..], base, found, val) ==
      if num[s] == '#' then
        if found then Err(InvalidNumber)
        else if val < 2 || val > 64 then Err(InvalidBase)
        else if |num| == s + 1 || !ValidNumchar(num[s + 1]) then Err(InvalidConstant)
        else Scan(num[s + 1..], val, true, 0)
      else if ValidNumchar(num[s]) then
        if DigitWorth(num[s], base) >= base then Err(ValueTooGreat)
        else Scan(num[s + 1..], base, found, Wrap(val * base + DigitWorth(num[s], base)))
      else Ok(val)
  {
    assert num[s..][1..] == num[s + 1..];
  }

  lemma ScanEnd(num: string, s: nat, base: int, found: bool, val: Intmax)
    requires s <= |num|
    ensures s == |num| ==> Scan(num[s..], base, found, val) == Ok(val)
  {
  }

  /** The digit alphabet the documentation gives. */
  function DigitSign(d: nat): (c: char)
    requires d < 64
    ensures ValidNumchar(c) && c != '#'
    ensures d < 10 <==> IsDigit(c)
  {
    if d < 10 then ('0' as int + d) as char
    else if d < 36 then ('a' as int + d - 10) as char
    else if d < 62 then ('A' as int + d - 36) as char
    else if d == 62 then '@'
    else '_'
  }

  lemma SignWorth(d: nat, base: int)
    requires d < base <= 64
    ensures DigitWorth(DigitSign(d), base) == d
  {
  }

  lemma Quotient(n: nat, base: nat)
    requires 2 <= base <= n
    ensures 0 < n / base < n && n == n / base * base + n % base
  {
    var q, d := n / base, n % base;
    assert n == q * base + d;
    NonPositive(q, base);
    if q > 0 {
      assert q * base >= q * 2;
    }
  }

  lemma NonPositive(q: int, base: nat)
    ensures q <= 0 ==> q * base <= 0
  {
  }

  /** n written in a base, most significant digit first. */
  function InBase(n: nat, base: nat): (t: string)
    requires 2 <= base <= 64
    ensures t != ""
  {
    if n < base then [DigitSign(n)]
    else
      Quotient(n, base);
      InBase(n / base, base) + [DigitSign(n % base)]
  }

  lemma ScanDigit(d: nat, base: int, found: bool, val: Intmax, rest: string)
    requires d < base <= 64
    ensures Scan([DigitSign(d)] + rest, base, found, val) == Scan(rest, base, found, Wrap(val * base + d))
  {
    SignWorth(d, base);
    assert ([DigitSign(d)] + rest)[1..] == rest;
  }

  /** All but the last digit, and the last digit. */
  lemma InBaseStep(n: nat, base: nat) returns (q: nat, d: nat)
    requires 2 <= base <= 64 && n >= base
    ensures 0 < q < n && d < base && n == q * base + d
    ensures InBase(n, base) == InBase(q, base) + [DigitSign(d)]
  {
    Quotient(n, base);
    q, d := n / base, n % base;
  }

  /** Reading the digits of n gives n, modulo 2^64. */
  lemma {:induction false} ScanInBase(n: nat, base: nat, found: bool, rest: string)
    requires 2 <= base <= 64
    ensures Scan(InBase(n, base) + rest, base, found, 0) == Scan(rest, base, found, Wrap(n))
  {
    hide Wrap, Scan, DigitSign;
    if n < base {
      ScanDigit(n, base, found, 0, rest);
    } else {
      hide InBase;
      var q, d := InBaseStep(n, base);
      ScanInBase(q, base, found, [DigitSign(d)] + rest);
      assert InBase(n, base) + rest == InBase(q, base) + ([DigitSign(d)] + rest);
      ScanDigit(d, base, found, Wrap(q), rest);
      WrapMulAdd(q, base, d);
    }
  }

  /** The first digit is a zero only if the number is; in a base up to ten all digits are 0 to 9. */
  lemma {:induction false} FirstSign(n: nat, base: nat)
    requires 2 <= base <= 64
    ensures InBase(n, base)[0] == '0' <==> n == 0
    ensures ValidNumchar(InBase(n, base)[0]) && (base <= 10 ==> IsDigit(InBase(n, base)[0]))
  {
    if n >= base {
      hide InBase;
      var q, d := InBaseStep(n, base);
      FirstSign(q, base);
    }
  }

  lemma {:induction false} DigitsInBase(n: nat)
    ensures Digits(n) == InBase(n, 10)
  {
    if n >= 10 {
      DigitsInBase(n / 10);
    }
  }

  /** The base in front of the digits. */
  lemma ReadBase(base: nat, t: string)
    requires 2 <= base <= 64
    ensures LiteralValue(Digits(base) + "#" + t) ==
      if t == "" || !ValidNumchar(t[0]) then Err(InvalidConstant) else Scan(t, base, true, 0)
  {
    var tail := "#" + t;
    assert Digits(base) + "#" + t == Digits(base) + tail;
    assert tail[1..] == t;
    DigitsInBase(base);
    FirstSign(base, 10);
    hide InBase, Digits;
    ScanInBase(base, 10, false, tail);
  }

  /** Base notation round trip: every number of 0..INTMAX_MAX, in every base from 2 to 64. */
  lemma BaseRoundTrip(n: nat, base: nat)
    requires 2 <= base <= 64
    ensures n <= INTMAX_MAX ==> LiteralValue(Digits(base) + "#" + InBase(n, base)) == Ok(n)
    ensures LiteralValue(Digits(base) + "#" + InBase(n, base)) == Ok(Wrap(n))
  {
    var digits := InBase(n, base);
    FirstSign(n, base);
    ReadBase(base, digits);
    ScanInBase(n, base, true, "");
    assert digits + "" == digits;
  }

  /** Decimal round trip; 2^63 and beyond wrap. */
  lemma DecimalRoundTrip(n: nat)
    ensures LiteralValue(Digits(n)) == Ok(Wrap(n))
  {
    DigitsInBase(n);
    FirstSign(n, 10);
    ScanInBase(n, 10, false, "");
    assert Digits(n) + "" == Digits(n);
    if n == 0 {
      assert Digits(0) == "0";
    }
  }

  function Upper(c: char): char {
    if 'a' <= c <= 'z' then (c as int - 'a' as int + 'A' as int) as char else c
  }

  function UpperCase(t: string): string {
    seq(|t|, (k: int) requires 0 <= k < |t| => Upper(t[k]))
  }

  /** Up to base 36 the case of the digits does not matter. */
  lemma {:induction false} CaseBlind(t: string, base: int, val: Intmax)
    requires base <= 36
    ensures Scan(UpperCase(t), base, true, val) == Scan(t, base, true, val)
  {
    if t != "" {
      assert UpperCase(t)[1..] == UpperCase(t[1..]);
      if ValidNumchar(t[0]) && t[0] != '#' && DigitWorth(t[0], base) < base {
        CaseBlind(t[1..], base, Wrap(val * base + DigitWorth(t[0], base)));
      }
    }
  }

  lemma BaseCaseBlind(t: string, base: nat)
    requires 2 <= base <= 36
    ensures LiteralValue(Digits(base) + "#" + UpperCase(t)) == LiteralValue(Digits(base) + "#" + t)
  {
    hide LiteralValue, Scan, Digits;
    ReadBase(base, t);
    ReadBase(base, UpperCase(t));
    CaseBlind(t, base, 0);
  }

  /** A literal that begins with 0 is octal, one that begins with 0x or 0X hexadecimal: n behind the prefix
      reads as n. */
  lemma OctalRoundTrip(n: nat)
    ensures LiteralValue("0" + InBase(n, 8)) == Ok(Wrap(n))
    ensures n <= INTMAX_MAX ==> LiteralValue("0" + InBase(n, 8)) == Ok(n)
  {
    var t := "0" + InBase(n, 8);
    FirstSign(n, 8);
    assert t[1] == InBase(n, 8)[0] && t[1..] == InBase(n, 8) == InBase(n, 8) + "";
    hide InBase;
    ScanInBase(n, 8, true, "");
  }

  lemma HexRoundTrip(n: nat, x: char)
    requires x == 'x' || x == 'X'
    ensures LiteralValue("0" + [x] + InBase(n, 16)) == Ok(Wrap(n))
    ensures n <= INTMAX_MAX ==> LiteralValue("0" + [x] + InBase(n, 16)) == Ok(n)
    ensures LiteralValue("0" + [x] + UpperCase(InBase(n, 16))) == Ok(Wrap(n))
  {
    var t := "0" + [x] + InBase(n, 16);
    var u := "0" + [x] + UpperCase(InBase(n, 16));
    assert t[2..] == InBase(n, 16) == InBase(n, 16) + "" && u[2..] == UpperCase(InBase(n, 16));
    hide InBase;
    ScanInBase(n, 16, true, "");
    CaseBlind(InBase(n, 16), 16, 0);
  }

  const NUMERALS := "0123456789"
  const LOWER := "abcdefghijklmnopqrstuvwxyz"
  const UPPER := "ABCDEFGHIJKLMNOPQRSTUVWXYZ"

  /** The digits in their order; up to base 36 the capital letters are worth what the small ones are. */
  lemma DigitSigns(d: nat)
    ensures d < 10 ==> DigitSign(d) == NUMERALS[d]
    ensures d < 26 ==> DigitSign(10 + d) == LOWER[d] && DigitSign(36 + d) == UPPER[d] && Upper(LOWER[d]) == UPPER[d]
    ensures DigitSign(62) == '@' && DigitSign(63) == '_'
  {
  }

  /** The errors: a base other than 2 to 64, a second `#`, and a digit that the base does not have. */
  lemma BadBase(base: nat, t: string)
    requires base == 1 || 64 < base <= INTMAX_MAX
    ensures LiteralValue(Digits(base) + "#" + t) == Err(InvalidBase)
  {
    var tail := "#" + t;
    assert Digits(base) + "#" + t == Digits(base) + tail;
    DigitsInBase(base);
    FirstSign(base, 10);
    hide InBase, Digits;
    ScanInBase(base, 10, false, tail);
  }

  lemma SecondSign(base: nat, n: nat, t: string)
    requires 2 <= base <= 64
    ensures LiteralValue(Digits(base) + "#" + (InBase(n, base) + ("#" + t))) == Err(InvalidNumber)
    ensures LiteralValue("0" + (InBase(n, 8) + ("#" + t))) == Err(InvalidNumber)
  {
    FirstSign(n, base);
    FirstSign(n, 8);
    hide InBase, Digits;
    ReadBase(base, InBase(n, base) + ("#" + t));
    ScanInBase(n, base, true, "#" + t);
    ScanInBase(n, 8, true, "#" + t);
    var u := "0" + (InBase(n, 8) + ("#" + t));
    assert u[1] == InBase(n, 8)[0] && u[1..] == InBase(n, 8) + ("#" + t);
  }

  lemma DigitTooGreat(base: nat, n: nat, d: nat, t: string)
    requires 2 <= base <= 64 && base <= d < 64 && (d < 36 || 36 < base)
    ensures LiteralValue(Digits(base) + "#" + (InBase(n, base) + ([DigitSign(d)] + t))) == Err(ValueTooGreat)
    ensures base == 8 ==> LiteralValue("0" + (InBase(n, 8) + ([DigitSign(d)] + t))) == Err(ValueTooGreat)
  {
    FirstSign(n, base);
    FirstSign(n, 8);
    hide InBase, Digits;
    var rest := [DigitSign(d)] + t;
    ReadBase(base, InBase(n, base) + rest);
    ScanInBase(n, base, true, rest);
    var u := "0" + (InBase(n, 8) + rest);
    assert u[1] == InBase(n, 8)[0] && u[1..] == InBase(n, 8) + rest;
  }
}
