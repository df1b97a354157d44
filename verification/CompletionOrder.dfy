/** The order in which brace completion sorts names, and what sorting in it gives. */
module CompletionOrder {
  import opened Chars
  import opened Text
  import opened BraceMunge

  /** A byte as a signed `char`, in which `_strcompare` subtracts the first bytes. */
  function Signed(c: char): int {
    if c as int < 128 then c as int else c as int - 256
  }

  /** Does a come no later than b for `_strcompare`?  First bytes are compared as signed numbers, the
      rest by `strcmp`, whose answer is decided at the first difference. */
  predicate NoLater(a: string, b: string) {
    var m := Lcp(a, b);
    if At(a, 0) != At(b, 0) then Signed(At(a, 0)) < Signed(At(b, 0))
    else At(a, m) as int <= At(b, m) as int
  }

  /** So a name comes before another if it is a proper prefix of it, or has the smaller byte where they first
      differ; only if that is the first byte, bytes from 128 on are taken as negative. */
  lemma ComparedAt(a: string, b: string, m: nat)
    requires IsCString(a) && IsCString(b) && m <= |a| && m <= |b| && a[..m] == b[..m]
    ensures 0 < m == |a| ==> NoLater(a, b)
    ensures 0 < m == |a| < |b| ==> !NoLater(b, a)
    ensures 0 < m < |a| && m < |b| && a[m] != b[m] ==> (NoLater(a, b) <==> a[m] < b[m])
    ensures 0 == m < |a| && m < |b| && a[0] != b[0] ==>
      (NoLater(a, b) <==>
        if a[0] as int < 128 <==> b[0] as int < 128 then a[0] < b[0] else b[0] as int < 128)
  {
    var n := Lcp(a, b);
    assert forall k | 0 <= k < m :: a[..m][k] == b[..m][k];
    LcpAtLeast(a, b, m);
    assert m > 0 ==> a[0] == b[0];
    if m < |a| && m < |b| && a[m] != b[m] {
      LcpIs(a, b, m);
      LcpIs(b, a, m);
    }
    if m == |a| {
      LcpAtLeast(b, a, m);
    }
    hide Lcp;
  }

  /** Each name comes no later than all behind it. */
  ghost predicate InOrder(names: seq<string>) {
    forall i, j | 0 <= i < j < |names| :: NoLater(names[i], names[j])
  }

  ghost predicate AllCStrings(names: seq<string>) {
    forall k | 0 <= k < |names| :: IsCString(names[k])
  }

  /** Three names in order: the first shares no more with the last than with the middle one. */
  lemma SortedTriple(a: string, b: string, c: string)
    requires IsCString(a) && IsCString(b) && IsCString(c)
    requires NoLater(a, b) && NoLater(b, c)
    ensures Lcp(a, c) <= Lcp(a, b)
  {
    hide Lcp;
    Departure(a, b, c);
  }

  /** Where b departs from both a and c. */
  lemma Departure(a: string, b: string, c: string)
    ensures var m := Lcp(a, b);
      Lcp(a, c) > m && m < |b| ==> a[m] == c[m] && Lcp(b, c) == m
  {
    hide Lcp;
    var m := Lcp(a, b);
    if Lcp(a, c) > m && m < |b| {
      LcpIs(b, c, m);
    }
  }

  lemma LcpIs(a: string, b: string, m: nat)
    requires m < |a| && m < |b| && a[m] != b[m] && forall k | 0 <= k < m :: a[k] == b[k]
    ensures Lcp(a, b) == m
  {
    hide Lcp;
    LcpAtLeast(a, b, m);
  }

  /** Where two different strings part, one of them may be at its end. */
  lemma Parting(a: string, b: string)
    requires IsCString(a) && IsCString(b)
    ensures Lcp(a, b) == Lcp(b, a)
    ensures At(a, Lcp(a, b)) == At(b, Lcp(a, b)) ==> a == b
  {
    hide Lcp;
    var m := Lcp(a, b);
    LcpAtLeast(b, a, m);
    LcpAtLeast(a, b, Lcp(b, a));
    if At(a, m) == At(b, m) {
      assert |a| == m && |b| == m;
    }
  }

  lemma Total(a: string, b: string)
    requires IsCString(a) && IsCString(b)
    ensures NoLater(a, b) || NoLater(b, a)
    ensures NoLater(a, b) && NoLater(b, a) ==> a == b
    ensures NoLater(a, a)
  {
    hide Lcp;
    Parting(a, b);
    Parting(a, a);
  }

  /** Strings that agree up to n agree with a third one up to the same place below n. */
  lemma Agree(a: string, b: string, c: string)
    requires Lcp(a, b) > Lcp(b, c)
    ensures Lcp(a, c) == Lcp(b, c) && At(a, Lcp(b, c)) == At(b, Lcp(b, c))
  {
    hide Lcp;
    var m := Lcp(b, c);
    LcpAtLeast(a, c, m);
  }

  lemma Transitive(a: string, b: string, c: string)
    requires IsCString(a) && IsCString(b) && IsCString(c)
    requires NoLater(a, b) && NoLater(b, c)
    ensures NoLater(a, c)
  {
    if At(a, 0) == At(b, 0) == At(c, 0) {
      TransitiveRest(a, b, c);
    }
  }

  /** The same for `strcmp`. */
  lemma TransitiveRest(a: string, b: string, c: string)
    requires IsCString(a) && IsCString(b) && IsCString(c)
    requires At(a, Lcp(a, b)) as int <= At(b, Lcp(a, b)) as int
    requires At(b, Lcp(b, c)) as int <= At(c, Lcp(b, c)) as int
    ensures At(a, Lcp(a, c)) as int <= At(c, Lcp(a, c)) as int
  {
    hide Lcp;
    Parting(a, b);
    Parting(b, c);
    Parting(a, c);
    if Lcp(a, b) > Lcp(b, c) {
      Agree(a, b, c);
    } else if Lcp(a, b) < Lcp(b, c) {
      Agree(c, b, a);
    } else if a != b && b != c {
      var m := Lcp(a, b);
      LcpAtLeast(a, c, m);
    }
  }

  /** Puts a name in front of the first one it comes no later than. */
  function Inserted(x: string, names: seq<string>): (r: seq<string>)
    ensures multiset(r) == multiset([x]) + multiset(names)
  {
    if names == [] || NoLater(x, names[0]) then [x] + names
    else
      assert names == [names[0]] + names[1..];
      [names[0]] + Inserted(x, names[1..])
  }

  /** What `qsort` makes of the names. */
  function Qsorted(names: seq<string>): (r: seq<string>)
    ensures multiset(r) == multiset(names)
  {
    if names == [] then []
    else
      assert names == [names[0]] + names[1..];
      Inserted(names[0], Qsorted(names[1..]))
  }

  lemma InOrderCons(x: string, names: seq<string>)
    requires InOrder(names) && (forall y | y in names :: NoLater(x, y))
    ensures InOrder([x] + names)
  {
  }

  lemma InOrderTail(names: seq<string>)
    requires InOrder(names) && names != []
    ensures InOrder(names[1..]) && forall y | y in names[1..] :: NoLater(names[0], y)
  {
  }

  lemma {:induction false} InsertedInOrder(x: string, names: seq<string>)
    requires InOrder(names) && IsCString(x) && forall y | y in names :: IsCString(y)
    ensures InOrder(Inserted(x, names))
  {
    hide NoLater, InOrder, IsCString;
    if names == [] {
      InOrderCons(x, []);
    } else if NoLater(x, names[0]) {
      InOrderTail(names);
      forall y | y in names ensures NoLater(x, y) {
        if y in names[1..] {
          Transitive(x, names[0], y);
        }
      }
      InOrderCons(x, names);
    } else {
      InOrderTail(names);
      Total(x, names[0]);
      InsertedInOrder(x, names[1..]);
      var rest := Inserted(x, names[1..]);
      forall y | y in rest ensures NoLater(names[0], y) {
        assert y in multiset(rest);
      }
      InOrderCons(names[0], rest);
    }
  }

  lemma {:induction false} QsortedInOrder(names: seq<string>)
    requires forall y | y in names :: IsCString(y)
    ensures InOrder(Qsorted(names)) && forall y | y in Qsorted(names) :: IsCString(y)
  {
    hide NoLater, IsCString;
    if names != [] {
      QsortedInOrder(names[1..]);
      InsertedInOrder(names[0], Qsorted(names[1..]));
      forall y | y in Qsorted(names) ensures IsCString(y) {
        assert y in multiset(Qsorted(names));
      }
    }
  }

  lemma FirstOf(names: seq<string>, x: string)
    requires InOrder(names) && names != [] && x in multiset(names) && IsCString(x)
    ensures NoLater(names[0], x) && x in names
  {
    InOrderTail(names);
    Total(x, x);
  }

  /** There is only one way to sort names: the result does not depend on how `qsort` works. */
  lemma {:induction false} SortedOnce(xs: seq<string>, ys: seq<string>)
    requires InOrder(xs) && InOrder(ys) && multiset(xs) == multiset(ys)
    requires forall y | y in xs :: IsCString(y)
    ensures xs == ys
  {
    hide NoLater, InOrder, IsCString;
    if xs != [] {
      assert xs == [xs[0]] + xs[1..];
      assert ys != [] by {
        assert xs[0] in multiset(ys);
      }
      assert ys == [ys[0]] + ys[1..];
      InOrderTail(xs);
      InOrderTail(ys);
      FirstOf(ys, xs[0]);
      FirstOf(xs, ys[0]);
      Total(xs[0], ys[0]);
      assert multiset(xs[1..]) == multiset(xs) - multiset{xs[0]};
      assert multiset(ys[1..]) == multiset(ys) - multiset{ys[0]};
      SortedOnce(xs[1..], ys[1..]);
    } else {
      assert |ys| == |multiset(ys)| == 0;
    }
  }
}
