/** The generator behind `{x..y..incr}`: `mkseq`, in 64-bit arithmetic with checked operations. */
module BraceSequence {
  import opened Numbers
  import opened Wrappers

  const SIZE_MAX: int := 0xffff_ffff_ffff_ffff

  /** `ckd_sub` on `intmax_t`: the difference, unless it does not fit. */
  function CkdSub(a: int, b: int): Option<int> {
    if IsIntmax(a - b) then Some(a - b) else None
  }

  datatype TermType = StInt | StChar | StZint

  function Zeros(n: nat): (r: string)
    ensures |r| == n && forall k | 0 <= k < n :: r[k] == '0'
  {
    seq(n, _ => '0')
  }

  lemma {:induction false} LeadingZeros(k: nat, s: string)
    ensures NatValue(Zeros(k) + s) == NatValue(s)
  {
    if s != "" {
      LeadingZeros(k, s[..|s| - 1]);
      assert (Zeros(k) + s)[..|Zeros(k) + s| - 1] == Zeros(k) + s[..|s| - 1];
    } else if k > 0 {
      LeadingZeros(k - 1, "");
      assert (Zeros(k) + "")[..k - 1] == Zeros(k - 1) + "";
    }
  }

  /** One element of the sequence as text: zeros go between the sign and the digits; a letter is one
      byte, the number truncated to it. */
  function Term(n: int, kind: TermType, width: nat): string {
    match kind
    case StInt => Itos(n)
    case StChar => [(n % 256) as char]
    case StZint =>
      var t := Itos(n);
      if |t| >= width then t
      else if n < 0 then "-" + (Zeros(width - |t|) + Digits(-n))
      else Zeros(width - |t|) + Digits(n)
  }

  /** Numeric terms denote their number; padded ones are as wide as asked unless naturally wider,
      and keep their sign in front. */
  lemma TermValue(n: int, kind: TermType, width: nat)
    requires kind != StChar
    ensures IntValue(Term(n, kind, width)) == n
    ensures kind == StZint ==>
      |Term(n, kind, width)| == (if |Itos(n)| < width then width else |Itos(n)|)
    ensures n < 0 <==> Term(n, kind, width)[0] == '-'
  {
    DigitsValue(Abs(n));
    var digits, t := Digits(Abs(n)), Term(n, kind, width);
    if kind == StZint && |Itos(n)| < width {
      LeadingZeros(width - |Itos(n)|, digits);
    }
    if n < 0 {
      assert t[1..] == digits || t[1..] == Zeros(width - |Itos(n)|) + digits;
    }
  }

  /** Decimal digits, at least one of them. */
  predicate Numeral(t: string) {
    t != "" && forall k | 0 <= k < |t| :: '0' <= t[k] <= '9'
  }

  /** t denotes n in decimal: digits behind a minus sign if n is negative, and no sign otherwise. */
  predicate Denotes(t: string, n: int) {
    IntValue(t) == n && if n < 0 then t != "" && t[0] == '-' && Numeral(t[1..]) else Numeral(t)
  }

  /** No digit could be left out at the front. */
  predicate NoLeadingZero(t: string, n: int)
    requires Denotes(t, n)
  {
    if n == 0 then t == "0" else if n > 0 then t[0] != '0' else t[1] != '0'
  }

  /** What a term has to be: a letter is the one byte of that number; a number is in decimal, without
      leading zeros, or with as many as the width needs. */
  predicate IsTerm(t: string, n: int, kind: TermType, width: nat) {
    match kind
    case StChar => |t| == 1 && t[0] as int == n % 256
    case StInt => Denotes(t, n) && NoLeadingZero(t, n)
    case StZint => Denotes(t, n) && |t| >= width && (NoLeadingZero(t, n) || |t| == width)
  }

  lemma {:induction false} DigitsNumeral(n: nat)
    ensures Numeral(Digits(n)) && NatValue(Digits(n)) == n
    ensures if n == 0 then Digits(n) == "0" else Digits(n)[0] != '0'
  {
    DigitsValue(n);
    if n >= 10 {
      DigitsNumeral(n / 10);
    }
  }

  lemma TermIs(n: int, kind: TermType, width: nat)
    ensures IsTerm(Term(n, kind, width), n, kind, width)
  {
    DigitsNumeral(Abs(n));
    if kind == StInt || (kind == StZint && |Itos(n)| >= width) {
      NaturalTerm(n);
    } else if kind == StZint {
      PaddedTerm(n, width);
    }
    hide Digits, NatValue, Denotes, NoLeadingZero, Numeral;
  }

  lemma NaturalTerm(n: int)
    ensures Denotes(Itos(n), n) && NoLeadingZero(Itos(n), n)
  {
    DigitsNumeral(Abs(n));
    hide Digits, NatValue;
    assert n < 0 ==> Itos(n)[1..] == Digits(-n);
    var digits := Digits(Abs(n));
    assert n >= 0 ==> digits[0] != '-';
  }

  lemma PaddedTerm(n: int, width: nat)
    requires |Itos(n)| < width
    ensures Denotes(Term(n, StZint, width), n) && |Term(n, StZint, width)| == width
  {
    DigitsNumeral(Abs(n));
    var digits := Zeros(width - |Itos(n)|) + Digits(Abs(n));
    LeadingZeros(width - |Itos(n)|, Digits(Abs(n)));
    hide Digits, NatValue;
    assert Numeral(digits) && digits[0] != '-';
    assert n < 0 ==> Term(n, StZint, width)[1..] == digits;
  }

  /** The terms of a kind for a number are one and the same text. */
  lemma TermUnique(t: string, u: string, n: int, kind: TermType, width: nat)
    requires IsTerm(t, n, kind, width) && IsTerm(u, n, kind, width)
    ensures t == u
  {
    if kind != StChar {
      var a := if n < 0 then t[1..] else t;
      var b := if n < 0 then u[1..] else u;
      Value(t, n);
      Value(u, n);
      hide NatValue, IntValue;
      NumeralUnique(a, b);
      assert n < 0 ==> t == [t[0]] + a && u == [u[0]] + b;
    }
  }

  lemma Value(t: string, n: int)
    requires Denotes(t, n)
    ensures NatValue(if n < 0 then t[1..] else t) == Abs(n)
  {
    hide NatValue;
  }

  /** Without a leading zero, as far as there is a choice. */
  predicate Bare(a: string) {
    a == "0" || (a != "" && a[0] != '0')
  }

  lemma NumeralUnique(a: string, b: string)
    requires Numeral(a) && Numeral(b) && NatValue(a) == NatValue(b)
    requires (Bare(a) || |a| <= |b|) && (Bare(b) || |b| <= |a|)
    ensures a == b
  {
    hide NatValue, Digits;
    NotNegative(a);
    Shortest(a);
    Shortest(b);
    if Bare(a) {
      ZeroValue(a);
      Canonical(a);
    }
    if Bare(b) {
      ZeroValue(b);
      Canonical(b);
    }
    SameLength(a, b);
  }

  lemma ZeroValue(a: string)
    requires Numeral(a) && Bare(a)
    ensures NatValue(a) == 0 <==> a == "0"
  {
    NotNegative(a);
    assert "0"[..0] == "";
  }

  lemma LastDigit(a: string)
    requires Numeral(a)
    ensures var d := a[|a| - 1] as int - '0' as int;
      0 <= d <= 9 && NatValue(a) == 10 * NatValue(a[..|a| - 1]) + d
    ensures |a| > 1 ==> Numeral(a[..|a| - 1])
    ensures NatValue(a) >= 0
  {
    NotNegative(a);
  }

  lemma {:induction false} NotNegative(a: string)
    requires forall k | 0 <= k < |a| :: '0' <= a[k] <= '9'
    ensures NatValue(a) >= 0 && (a != "" && a[0] != '0' ==> NatValue(a) > 0)
  {
    if a != "" {
      NotNegative(a[..|a| - 1]);
    }
  }

  lemma {:induction false} SameLength(a: string, b: string)
    requires Numeral(a) && Numeral(b) && |a| == |b| && NatValue(a) == NatValue(b)
    ensures a == b
  {
    LastDigit(a);
    LastDigit(b);
    var n := |a| - 1;
    assert a == a[..n] + [a[n]] && b == b[..n] + [b[n]];
    if n > 0 {
      SameLength(a[..n], b[..n]);
    }
  }

  /** A numeral without leading zeros is the decimal of its value ... */
  lemma {:induction false} Canonical(a: string)
    requires Numeral(a) && (NatValue(a) == 0 ==> a == "0") && (NatValue(a) != 0 ==> a[0] != '0')
    ensures NatValue(a) >= 0 && a == Digits(NatValue(a))
  {
    LastDigit(a);
    var n := |a| - 1;
    var v, d := NatValue(a[..n]), a[n] as int - '0' as int;
    assert a == a[..n] + [a[n]];
    if n > 0 {
      NotNegative(a[..n]);
      assert a[..n][0] == a[0];
      NotNegative(a);
      Canonical(a[..n]);
      TenTimes(v, d);
      hide NatValue, Digits;
    } else {
      assert a[..0] == "";
    }
  }

  lemma TenTimes(v: int, d: int)
    requires v > 0 && 0 <= d <= 9
    ensures Digits(10 * v + d) == Digits(v) + [('0' as int + d) as char]
  {
    assert (10 * v + d) / 10 == v && (10 * v + d) % 10 == d;
  }

  /** ... and every other one is longer. */
  lemma {:induction false} Shortest(a: string)
    requires Numeral(a)
    ensures NatValue(a) >= 0 && |Digits(NatValue(a))| <= |a|
  {
    LastDigit(a);
    if |a| > 1 {
      Shortest(a[..|a| - 1]);
    }
  }

  /** The k-th number of a sequence from start towards end in steps of |incr| (0 counts as 1). */
  function Element(start: int, end: int, incr: int, k: nat): int {
    if start < end then start + k * Stride(incr) else start - k * Stride(incr)
  }

  function Stride(incr: int): (r: int)
    ensures r > 0
  {
    if incr == 0 then 1 else Abs(incr)
  }

  function Count(start: int, end: int, incr: int): (r: nat)
    ensures r > 0
  {
    Abs(end - start) / Stride(incr) + 1
  }

  lemma Multiples(d: nat, s: nat, k: nat)
    requires s > 0 && k <= d / s
    ensures k * s <= d
    ensures k == d / s <==> d - k * s < s
  {
    var q := d / s;
    assert d == q * s + d % s;
    Split(q, k, s);
  }

  lemma Split(q: nat, k: nat, s: nat)
    requires k <= q && s > 0
    ensures q * s == k * s + (q - k) * s && (q - k) * s >= if k < q then s else 0
  {
    if k < q {
      assert (q - k) * s == s + (q - k - 1) * s;
    }
  }

  /** Every element lies between the ends, and only after the last one would a step pass the end. */
  lemma ElementsBetween(start: int, end: int, incr: int, k: nat)
    requires k < Count(start, end, incr)
    ensures start <= Element(start, end, incr, k) <= end || end <= Element(start, end, incr, k) <= start
    ensures k + 1 == Count(start, end, incr) <==> Abs(end - Element(start, end, incr, k)) < Stride(incr)
  {
    Multiples(Abs(end - start), Stride(incr), k);
  }

  lemma ElementStep(start: int, end: int, incr: int, k: nat)
    ensures Element(start, end, incr, 0) == start
    ensures Element(start, end, incr, k + 1)
         == if start < end then Element(start, end, incr, k) + Stride(incr)
            else Element(start, end, incr, k) - Stride(incr)
  {
    assert (k + 1) * Stride(incr) == k * Stride(incr) + Stride(incr);
  }

  /** The k-th of a sequence of terms: it stands for the number k steps from the start towards the end, and
      between two bytes it is a byte. */
  predicate TermAt(t: string, start: int, end: int, step: int, k: nat, kind: TermType, width: nat) {
    var n := if start < end then start + k * step else start - k * step;
    && IsIntmax(n) && IsTerm(t, n, kind, width)
    && (kind == StChar && 0 <= start <= 255 && 0 <= end <= 255 ==> |t| == 1 && t[0] as int == n)
  }

  /** `mkseq`.  It fails exactly when |increment| or the distance does not fit 64 bits; otherwise no
      number of the loop leaves the range. */
  method Mkseq(start: int, end: int, increment: int, kind: TermType, width: nat) returns (r: Option<seq<string>>)
    requires IsIntmax(start) && IsIntmax(end) && IsIntmax(increment)
    ensures r.Some? <==> IsIntmax(-increment) && Abs(end - start) <= INTMAX_MAX
    ensures r.Some? ==>
      var step := if increment == 0 then 1 else Abs(increment);
      |r.value| == Abs(end - start) / step + 1 &&
      forall k | 0 <= k < |r.value| :: TermAt(r.value[k], start, end, step, k, kind, width)
  {
    hide Term, TermAt, Element;
    var incr := if increment == 0 then 1 else increment;
    var absIncr := incr;
    if incr < 0 {
      var v := CkdSub(0, incr);
      if v.None? {
        return None;
      }
      absIncr := v.value;
    }
    if (start < end) == (incr < 0) {
      var v := CkdSub(0, incr);
      if v.None? {
        return None;
      }
      incr := v.value;
    }
    var prevn := if start < end then CkdSub(end, start) else CkdSub(start, end);
    if prevn.None? {
      return None;
    }
    assert absIncr == Stride(increment) && incr == if start < end then absIncr else -absIncr;
    var nelem := prevn.value / absIncr + 2;
    Quotient(prevn.value, absIncr);
    assert nelem <= SIZE_MAX;
    var result := FillSequence(start, end, increment, incr, nelem, kind, width);
    Explicit(start, end, increment, kind, width, result);
    return Some(result);
  }

  lemma Explicit(start: int, end: int, increment: int, kind: TermType, width: nat, r: seq<string>)
    requires |r| == Count(start, end, increment)
    requires forall k | 0 <= k < |r| ::
      IsIntmax(Element(start, end, increment, k)) && IsTerm(r[k], Element(start, end, increment, k), kind, width)
    ensures forall k | 0 <= k < |r| :: TermAt(r[k], start, end, Stride(increment), k, kind, width)
  {
    forall k | 0 <= k < |r| ensures TermAt(r[k], start, end, Stride(increment), k, kind, width) {
      ElementsBetween(start, end, increment, k);
    }
  }

  lemma Quotient(d: nat, s: nat)
    requires s > 0
    ensures 0 <= d / s <= d
  {
    Multiples(d, s, d / s);
  }

  /** The loop of `mkseq`; it runs at least once. */
  method FillSequence(start: int, end: int, increment: int, incr: int, nelem: nat, kind: TermType, width: nat)
    returns (r: seq<string>)
    requires IsIntmax(start) && IsIntmax(end)
    requires nelem == Count(start, end, increment) + 1
    requires if start < end then incr == Stride(increment) else incr == -Stride(increment)
    ensures |r| == Count(start, end, increment)
    ensures forall k | 0 <= k < |r| ::
      IsIntmax(Element(start, end, increment, k)) && IsTerm(r[k], Element(start, end, increment, k), kind, width)
  {
    hide Element, Term, IsTerm, Count, Stride;
    var result := new string[nelem - 1];
    ElementStep(start, end, increment, 0);
    var i, n := 0, start;
    while true
      invariant i < nelem - 1 && n == Element(start, end, increment, i)
      invariant IsIntmax(n)
      invariant forall k | 0 <= k < i ::
        IsIntmax(Element(start, end, increment, k)) && IsTerm(result[k], Element(start, end, increment, k), kind, width)
      decreases nelem - i
    {
      TermIs(n, kind, width);
      result[i] := Term(n, kind, width);
      i := i + 1;
      if i >= nelem - 1 {
        break;
      }
      ElementStep(start, end, increment, i - 1);
      ElementsBetween(start, end, increment, i);
      n := n + incr;
    }
    return result[..];
  }
}
