/** Shell arrays as finite maps from indices to strings, and their entries as a sorted list. */
module ArraySpec {

  import opened Wrappers

  datatype Pair = Pair(ind: int, value: string)

  /** Indices are non-negative and strictly increasing. */
  ghost predicate Sorted(ps: seq<Pair>) {
    (forall k | 0 <= k < |ps| :: 0 <= ps[k].ind) &&
    forall j, k | 0 <= j < k < |ps| :: ps[j].ind < ps[k].ind
  }

  /** Later entries win; in a sorted list there is nothing to win. */
  ghost function ToMap(ps: seq<Pair>): map<int, string> {
    if ps == [] then map[] else ToMap(ps[..|ps| - 1])[ps[|ps| - 1].ind := ps[|ps| - 1].value]
  }

  lemma {:induction false} ToMapAppend(ps: seq<Pair>, qs: seq<Pair>)
    ensures ToMap(ps + qs) == ToMap(ps) + ToMap(qs)
  {
    if qs == [] {
      assert ps + qs == ps;
    } else {
      assert (ps + qs)[..|ps + qs| - 1] == ps + qs[..|qs| - 1];
      ToMapAppend(ps, qs[..|qs| - 1]);
    }
  }

  lemma ToMapSingle(p: Pair)
    ensures ToMap([p]) == map[p.ind := p.value]
  {
    assert [p][..0] == [];
  }

  ghost predicate AllBelow(ps: seq<Pair>, i: int) {
    forall k | 0 <= k < |ps| :: ps[k].ind < i
  }

  ghost predicate AllAbove(ps: seq<Pair>, i: int) {
    forall k | 0 <= k < |ps| :: i < ps[k].ind
  }

  lemma {:induction false} KeysBelow(ps: seq<Pair>, i: int)
    requires AllBelow(ps, i)
    ensures forall k | k in ToMap(ps) :: k < i
  {
    if ps != [] {
      KeysBelow(ps[..|ps| - 1], i);
    }
  }

  lemma {:induction false} KeysAbove(ps: seq<Pair>, i: int)
    requires AllAbove(ps, i)
    ensures forall k | k in ToMap(ps) :: i < k
  {
    if ps != [] {
      KeysAbove(ps[..|ps| - 1], i);
    }
  }

  ghost function Lookup(m: map<int, string>, i: int): Option<string> {
    if i in m then Some(m[i]) else None
  }

  /** The last index of a list of entries. */
  ghost function LastIndex(ps: seq<Pair>): int {
    if ps == [] then -1 else ps[|ps| - 1].ind
  }

  /** Is p in its place between a and b? */
  ghost predicate Between(a: seq<Pair>, i: int, b: seq<Pair>) {
    Sorted(a) && Sorted(b) && 0 <= i && AllBelow(a, i) && AllAbove(b, i)
  }

  lemma BetweenSorted(a: seq<Pair>, p: Pair, b: seq<Pair>)
    requires Between(a, p.ind, b)
    ensures Sorted(a + [p] + b) && Sorted(a + b)
  {
  }

  lemma SortedBetween(ps: seq<Pair>, k: nat)
    requires Sorted(ps) && k < |ps|
    ensures Between(ps[..k], ps[k].ind, ps[k + 1..])
    ensures ps == ps[..k] + [ps[k]] + ps[k + 1..]
  {
  }

  /** The map of a sorted list taken apart at an entry. */
  lemma MapBetween(a: seq<Pair>, p: Pair, b: seq<Pair>)
    requires Between(a, p.ind, b)
    ensures ToMap(a + [p] + b) == ToMap(a + b)[p.ind := p.value]
    ensures ToMap(a + b) == ToMap(a) + ToMap(b)
    ensures p.ind !in ToMap(a) && p.ind !in ToMap(b)
  {
    hide ToMap;
    KeysBelow(a, p.ind);
    KeysAbove(b, p.ind);
    ToMapAppend(a, b);
    ToMapAppend(a + [p], b);
    ToMapAppend(a, [p]);
    ToMapSingle(p);
  }

  /** An index that no entry has, with the place where its entry would go. */
  ghost predicate Gap(ps: seq<Pair>, k: int, i: int) {
    0 <= k <= |ps| && 0 <= i && (k > 0 ==> ps[k - 1].ind < i) && (k < |ps| ==> i < ps[k].ind)
  }

  lemma GapBetween(ps: seq<Pair>, k: nat, i: int)
    requires Sorted(ps) && Gap(ps, k, i)
    ensures Between(ps[..k], i, ps[k..])
  {
  }

  lemma InsertAt(ps: seq<Pair>, k: nat, p: Pair)
    requires Sorted(ps) && Gap(ps, k, p.ind)
    ensures Sorted(ps[..k] + [p] + ps[k..])
    ensures ToMap(ps[..k] + [p] + ps[k..]) == ToMap(ps)[p.ind := p.value]
    ensures p.ind !in ToMap(ps)
  {
    hide ToMap, Sorted, Between;
    GapBetween(ps, k, p.ind);
    BetweenSorted(ps[..k], p, ps[k..]);
    MapBetween(ps[..k], p, ps[k..]);
    assert ps[..k] + ps[k..] == ps;
  }

  lemma RemoveAt(ps: seq<Pair>, k: nat)
    requires Sorted(ps) && k < |ps|
    ensures ps[k].ind in ToMap(ps) && ToMap(ps)[ps[k].ind] == ps[k].value
    ensures Sorted(ps[..k] + ps[k + 1..])
    ensures ToMap(ps[..k] + ps[k + 1..]) == ToMap(ps) - {ps[k].ind}
  {
    hide ToMap, Sorted, Between;
    SortedBetween(ps, k);
    BetweenSorted(ps[..k], ps[k], ps[k + 1..]);
    MapBetween(ps[..k], ps[k], ps[k + 1..]);
  }

  lemma ReplaceAt(ps: seq<Pair>, k: nat, v: string)
    requires Sorted(ps) && k < |ps|
    ensures Sorted(ps[k := Pair(ps[k].ind, v)])
    ensures ToMap(ps[k := Pair(ps[k].ind, v)]) == ToMap(ps)[ps[k].ind := v]
  {
    hide ToMap;
    SortedBetween(ps, k);
    MapBetween(ps[..k], ps[k], ps[k + 1..]);
    MapBetween(ps[..k], Pair(ps[k].ind, v), ps[k + 1..]);
    assert ps[k := Pair(ps[k].ind, v)] == ps[..k] + [Pair(ps[k].ind, v)] + ps[k + 1..];
  }

  lemma DropTop(m: map<int, string>, i: int, v: string)
    requires forall k | k in m :: k < i
    ensures m[i := v] - {i} == m && |m[i := v]| == |m| + 1
  {
    assert m[i := v].Keys == m.Keys + {i};
    assert m[i := v] - {i} == m;
  }

  lemma ToMapUnfold(ps: seq<Pair>)
    requires ps != []
    ensures ToMap(ps) == ToMap(ps[..|ps| - 1])[ps[|ps| - 1].ind := ps[|ps| - 1].value]
  {
  }

  lemma WithoutLast(ps: seq<Pair>)
    requires Sorted(ps) && ps != []
    ensures var last := ps[|ps| - 1];
      last.ind in ToMap(ps) && ToMap(ps)[last.ind] == last.value
      && ToMap(ps[..|ps| - 1]) == ToMap(ps) - {last.ind}
    ensures Sorted(ps[..|ps| - 1])
    ensures |ToMap(ps)| == |ToMap(ps[..|ps| - 1])| + 1
    ensures forall i | i in ToMap(ps) :: i <= LastIndex(ps)
  {
    hide ToMap;
    ToMapUnfold(ps);
    KeysBelow(ps[..|ps| - 1], ps[|ps| - 1].ind);
    DropTop(ToMap(ps[..|ps| - 1]), ps[|ps| - 1].ind, ps[|ps| - 1].value);
  }

  /** The number of entries and the last index can be read off the map. */
  lemma {:induction false} MapMeasures(ps: seq<Pair>)
    requires Sorted(ps)
    ensures |ToMap(ps)| == |ps|
    ensures ps != [] ==> LastIndex(ps) in ToMap(ps)
    ensures forall i | i in ToMap(ps) :: 0 <= i <= LastIndex(ps)
  {
    if ps != [] {
      hide ToMap;
      WithoutLast(ps);
      KeysAbove(ps, -1);
      MapMeasures(ps[..|ps| - 1]);
    }
  }

  lemma SameLast(ps: seq<Pair>, qs: seq<Pair>)
    requires Sorted(ps) && Sorted(qs) && ToMap(ps) == ToMap(qs) && ps != [] && qs != []
    ensures ps[|ps| - 1] == qs[|qs| - 1]
    ensures Sorted(ps[..|ps| - 1]) && Sorted(qs[..|qs| - 1])
    ensures ToMap(ps[..|ps| - 1]) == ToMap(qs[..|qs| - 1])
  {
    hide ToMap, Sorted;
    WithoutLast(ps);
    WithoutLast(qs);
    assert ps[|ps| - 1].ind == qs[|qs| - 1].ind;
  }

  /** The list is determined by the map: sorting leaves no choice. */
  lemma {:induction false} ToMapInjective(ps: seq<Pair>, qs: seq<Pair>)
    requires Sorted(ps) && Sorted(qs) && ToMap(ps) == ToMap(qs)
    ensures ps == qs
  {
    hide ToMap, Sorted;
    MapMeasures(ps);
    MapMeasures(qs);
    if ps != [] {
      SameLast(ps, qs);
      ToMapInjective(ps[..|ps| - 1], qs[..|qs| - 1]);
      assert ps == ps[..|ps| - 1] + [ps[|ps| - 1]];
      assert qs == qs[..|qs| - 1] + [qs[|qs| - 1]];
    }
  }

  /** Entries with n subtracted from their indices. */
  ghost function Lowered(ps: seq<Pair>, n: int): (r: seq<Pair>)
    ensures |r| == |ps| && forall k | 0 <= k < |r| :: r[k] == Pair(ps[k].ind - n, ps[k].value)
  {
    seq(|ps|, (k: int) requires 0 <= k < |ps| => Pair(ps[k].ind - n, ps[k].value))
  }

  /** Entries with d added to the indices from the k-th on. */
  ghost function Raised(ps: seq<Pair>, k: nat, d: int): (r: seq<Pair>)
    requires k <= |ps|
    ensures |r| == |ps|
  {
    ps[..k] + Lowered(ps[k..], 0 - d)
  }

  lemma RaisedAll(ps: seq<Pair>, d: int)
    ensures Raised(ps, 0, d) == Lowered(ps, 0 - d)
  {
    assert ps[0..] == ps;
  }

  /** What `array_shift` leaves: the entries behind the first n, lowered by n. */
  ghost function Shifted(ps: seq<Pair>, n: nat): seq<Pair> {
    if n >= |ps| then [] else Lowered(ps[n..], n)
  }

  /** What `array_rshift` leaves: the entries raised by n, behind an optional new entry 0. */
  ghost function RShifted(ps: seq<Pair>, n: nat, s: Option<string>): seq<Pair> {
    (if s.Some? then [Pair(0, s.value)] else []) + Lowered(ps, 0 - n)
  }

  /** The k-th index is at least k... */
  lemma {:induction false} IndexAtLeast(ps: seq<Pair>, k: nat)
    requires Sorted(ps) && k < |ps|
    ensures ps[k].ind >= k
  {
    if k > 0 {
      IndexAtLeast(ps, k - 1);
    }
  }

  /** ... so shifting left never makes an index negative. */
  lemma ShiftedSorted(ps: seq<Pair>, n: nat)
    requires Sorted(ps)
    ensures Sorted(Shifted(ps, n))
  {
    if n < |ps| {
      forall k | n <= k < |ps| ensures ps[k].ind >= n {
        IndexAtLeast(ps, k);
      }
    }
  }

  lemma RaisedRShifted(ps: seq<Pair>, n: nat, s: Option<string>)
    ensures s.Some? ==> Raised([Pair(0, s.value)] + ps, 1, n) == RShifted(ps, n, s)
    ensures s.None? ==> Raised(ps, 0, n) == RShifted(ps, n, s)
  {
    if s.Some? {
      assert ([Pair(0, s.value)] + ps)[1..] == ps;
    } else {
      assert ps[0..] == ps;
    }
  }

  lemma RShiftedSorted(ps: seq<Pair>, n: nat, s: Option<string>)
    requires Sorted(ps) && n > 0
    ensures Sorted(RShifted(ps, n, s))
  {
  }

  lemma {:induction false} LoweredMap(ps: seq<Pair>, n: int, i: int)
    ensures Lookup(ToMap(Lowered(ps, n)), i) == Lookup(ToMap(ps), i + n)
  {
    if ps != [] {
      var k := |ps| - 1;
      LoweredMap(ps[..k], n, i);
      assert Lowered(ps, n)[..k] == Lowered(ps[..k], n);
      ToMapUnfold(ps);
      ToMapUnfold(Lowered(ps, n));
    }
    hide ToMap;
  }

  /** After a left shift an index has the value that the index n above had, unless that was one of the first
      n elements; ... */
  lemma ShiftedMap(ps: seq<Pair>, n: nat, i: int)
    requires Sorted(ps)
    ensures Lookup(ToMap(Shifted(ps, n)), i)
         == if n < |ps| && i + n >= ps[n].ind then Lookup(ToMap(ps), i + n) else None
  {
    hide ToMap;
    if n < |ps| {
      LoweredMap(ps[n..], n, i);
      UpperMap(ps, n, i + n);
    } else {
      NoPairs();
    }
  }

  lemma UpperMap(ps: seq<Pair>, n: nat, j: int)
    requires Sorted(ps) && n < |ps|
    ensures Lookup(ToMap(ps[n..]), j) == if j >= ps[n].ind then Lookup(ToMap(ps), j) else None
  {
    hide *;
    var a, b := ps[..n], ps[n..];
    assert ps == a + b;
    Halves(ps, n);
    ToMapAppend(a, b);
    KeysBelow(a, ps[n].ind);
    KeysAbove(b, ps[n].ind - 1);
    UpperLookup(ToMap(a), ToMap(b), ps[n].ind, j);
  }

  lemma Halves(ps: seq<Pair>, n: nat)
    requires Sorted(ps) && n < |ps|
    ensures AllBelow(ps[..n], ps[n].ind) && AllAbove(ps[n..], ps[n].ind - 1)
  {
  }

  lemma UpperLookup(a: map<int, string>, b: map<int, string>, pivot: int, j: int)
    requires (forall k | k in a :: k < pivot) && forall k | k in b :: pivot - 1 < k
    ensures Lookup(b, j) == if j >= pivot then Lookup(a + b, j) else None
  {
  }

  lemma NoPairs()
    ensures ToMap([]) == map[]
  {
  }

  /** ... after a right shift it has the value that the index n below had, and index 0 the new one. */
  lemma RShiftedMap(ps: seq<Pair>, n: nat, s: Option<string>, i: int)
    requires Sorted(ps) && n > 0
    ensures Lookup(ToMap(RShifted(ps, n, s)), i) == if i == 0 && s.Some? then s else Lookup(ToMap(ps), i - n)
  {
    hide ToMap;
    LoweredMap(ps, 0 - n, i);
    KeysAbove(ps, -1);
    if s.Some? {
      ToMapAppend([Pair(0, s.value)], Lowered(ps, 0 - n));
      ToMapSingle(Pair(0, s.value));
    } else {
      assert RShifted(ps, n, s) == Lowered(ps, 0 - n);
    }
  }

  /** Pop undoes push, whatever the array holds. */
  lemma PopPush(ps: seq<Pair>, v: string)
    ensures Shifted(RShifted(ps, 1, Some(v)), 1) == ps
  {
    var qs := RShifted(ps, 1, Some(v));
    if ps != [] {
      assert qs[1..] == Lowered(ps, -1);
      assert forall k | 0 <= k < |ps| :: Lowered(qs[1..], 1)[k] == ps[k];
    }
  }

  /** The entries of an array assigned from a list, from index 0 up. */
  ghost function Indexed(list: seq<string>): (r: seq<Pair>)
    ensures |r| == |list| && forall k | 0 <= k < |r| :: r[k] == Pair(k, list[k])
  {
    seq(|list|, (k: int) requires 0 <= k < |list| => Pair(k, list[k]))
  }

  ghost function Values(ps: seq<Pair>): (r: seq<string>)
    ensures |r| == |ps| && forall k | 0 <= k < |r| :: r[k] == ps[k].value
  {
    seq(|ps|, (k: int) requires 0 <= k < |ps| => ps[k].value)
  }

  lemma IndexedNothing()
    ensures ToMap(Indexed([])) == map[]
  {
  }

  lemma IndexedStep(list: seq<string>, k: nat)
    requires k < |list|
    ensures ToMap(Indexed(list[..k + 1])) == ToMap(Indexed(list[..k]))[k := list[k]]
  {
    var ps := Indexed(list[..k + 1]);
    assert ps[..k] == Indexed(list[..k]);
    hide ToMap;
    ToMapUnfold(ps);
  }

  /** Only the list itself has this map, and its values are the list. */
  lemma IndexedOnly(list: seq<string>, ps: seq<Pair>)
    requires Sorted(ps) && ToMap(ps) == ToMap(Indexed(list))
    ensures ps == Indexed(list) && Values(ps) == list
  {
    hide ToMap;
    assert Sorted(Indexed(list));
    ToMapInjective(ps, Indexed(list));
    assert Values(ps) == list;
  }
}
