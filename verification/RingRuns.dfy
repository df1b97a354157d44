/** Runs of the ring with all its operations, shifts and copies included, against a list of entries. */
module RingRuns {
  import opened ArraySpec
  import opened Wrappers
  import RingArray

  /** The operations of `array.c` that a run is made of.  After a copy the run goes on with the copy. */
  datatype Op =
    | Insert(at: nat, v: string) | Remove(i: int) | Reference(i: int) | Flush
    | Shift(n: int) | RShift(n: int, s: Option<string>) | Copy

  /** What a caller sees of one operation: a value or a count, `num_elements` and `max_index`. */
  datatype Observation = Observation(answer: Option<string>, count: int, max: int)

  /** The entries with the value at index i set. */
  ghost function Put(ps: seq<Pair>, i: int, v: string): seq<Pair> {
    if ps == [] || i < ps[0].ind then [Pair(i, v)] + ps
    else if i == ps[0].ind then [Pair(i, v)] + ps[1..]
    else [ps[0]] + Put(ps[1..], i, v)
  }

  /** The entries without index i. */
  ghost function Without(ps: seq<Pair>, i: int): seq<Pair> {
    if ps == [] then []
    else if i == ps[0].ind then ps[1..]
    else [ps[0]] + Without(ps[1..], i)
  }

  /** The value at index i. */
  ghost function ValueAt(ps: seq<Pair>, i: int): Option<string> {
    if ps == [] then None else if i == ps[0].ind then Some(ps[0].value) else ValueAt(ps[1..], i)
  }

  ghost function After(ps: seq<Pair>, op: Op): seq<Pair> {
    match op
    case Insert(i, v) => Put(ps, i, v)
    case Remove(i) => Without(ps, i)
    case Reference(_) => ps
    case Flush => []
    case Shift(n) => if n > 0 then Shifted(ps, n) else ps
    case RShift(n, s) => if n > 0 then RShifted(ps, n, s) else ps
    case Copy => ps
  }

  ghost function Answer(ps: seq<Pair>, op: Op): Option<string> {
    match op
    case Remove(i) => ValueAt(ps, i)
    case Reference(i) => ValueAt(ps, i)
    case _ => None
  }

  ghost predicate Sees(ps: seq<Pair>, op: Op, o: Observation) {
    o == Observation(Answer(ps, op), |After(ps, op)|, LastIndex(After(ps, op)))
  }

  /** The entries after a run, and what is seen on the way. */
  ghost function Final(ps: seq<Pair>, ops: seq<Op>): seq<Pair>
    decreases ops
  {
    if ops == [] then ps else Final(After(ps, ops[0]), ops[1..])
  }

  ghost predicate Shows(ps: seq<Pair>, ops: seq<Op>, obs: seq<Observation>)
    decreases ops
  {
    && |obs| == |ops|
    && (ops != [] ==> Sees(ps, ops[0], obs[0]) && Shows(After(ps, ops[0]), ops[1..], obs[1..]))
  }

  lemma SortedRest(ps: seq<Pair>)
    requires Sorted(ps) && ps != []
    ensures Sorted(ps[1..]) && AllAbove(ps[1..], ps[0].ind) && 0 <= ps[0].ind
    ensures |ps| > 1 ==> ps[0].ind < ps[1].ind
  {
  }

  /** The first entry and the rest of a sorted list. */
  lemma HeadRest(p: Pair, rest: seq<Pair>)
    requires Sorted([p] + rest)
    ensures Sorted(rest) && ToMap([p] + rest) == map[p.ind := p.value] + ToMap(rest)
    ensures forall k | k in ToMap(rest) :: p.ind < k
  {
    hide ToMap, Sorted, AllAbove;
    SortedRest([p] + rest);
    assert ([p] + rest)[1..] == rest && ([p] + rest)[0] == p;
    KeysAbove(rest, p.ind);
    ToMapAppend([p], rest);
    ToMapSingle(p);
  }

  /** An entry in front of larger ones. */
  lemma InFront(p: Pair, rest: seq<Pair>)
    requires Sorted(rest) && 0 <= p.ind && (rest != [] ==> p.ind < rest[0].ind)
    ensures Sorted([p] + rest)
  {
  }

  lemma {:induction false} PutMap(ps: seq<Pair>, i: nat, v: string)
    requires Sorted(ps)
    ensures Sorted(Put(ps, i, v)) && ToMap(Put(ps, i, v)) == ToMap(ps)[i := v]
    ensures Put(ps, i, v)[0].ind == i || (ps != [] && Put(ps, i, v)[0].ind == ps[0].ind)
  {
    hide ToMap, Sorted;
    if ps == [] || i < ps[0].ind {
      InsertAt(ps, 0, Pair(i, v));
      assert ps[..0] + [Pair(i, v)] + ps[0..] == [Pair(i, v)] + ps;
    } else {
      assert ps == [ps[0]] + ps[1..];
      HeadRest(ps[0], ps[1..]);
      SortedRest(ps);
      if i == ps[0].ind {
        ReplaceAt(ps, 0, v);
        assert ps[0 := Pair(i, v)] == [Pair(i, v)] + ps[1..];
      } else {
        PutMap(ps[1..], i, v);
        InFront(ps[0], Put(ps[1..], i, v));
        HeadRest(ps[0], Put(ps[1..], i, v));
      }
    }
  }

  /** What removing an index does to the map of an entry and larger ones. */
  lemma MapWithout(p: Pair, m: map<int, string>, i: int)
    requires forall k | k in m :: p.ind < k
    ensures var all := map[p.ind := p.value] + m;
      && all - {i} == (if i == p.ind then m else map[p.ind := p.value] + (m - {i}))
      && Lookup(all, i) == if i == p.ind then Some(p.value) else Lookup(m, i)
  {
  }

  lemma {:induction false} WithoutMap(ps: seq<Pair>, i: int)
    requires Sorted(ps)
    ensures Sorted(Without(ps, i)) && ToMap(Without(ps, i)) == ToMap(ps) - {i}
    ensures Without(ps, i) != [] ==> ps != [] && ps[0].ind <= Without(ps, i)[0].ind
    ensures ValueAt(ps, i) == Lookup(ToMap(ps), i)
  {
    if ps != [] {
      hide ToMap, Sorted, AllAbove, Lookup;
      var p, rest := ps[0], ps[1..];
      assert ps == [p] + rest;
      HeadRest(p, rest);
      SortedRest(ps);
      MapWithout(p, ToMap(rest), i);
      WithoutMap(rest, i);
      if i != p.ind {
        InFront(p, Without(rest, i));
        HeadRest(p, Without(rest, i));
      }
    } else {
      hide Sorted;
    }
  }

  /** A ring holds the entries whose map it has. */
  lemma Holds(a: RingArray.Ring, ps: seq<Pair>)
    requires a.Valid() && Sorted(ps) && a.Map() == ToMap(ps)
    ensures a.Contents() == ps
  {
    RingArray.RisingSorted(a.chain);
    hide ToMap, Sorted;
    ToMapInjective(a.Contents(), ps);
  }

  /** What a valid ring shows of itself. */
  lemma Facts(a: RingArray.Ring)
    requires a.Valid()
    ensures Sorted(a.Contents()) && a.Map() == ToMap(a.Contents())
    ensures a.numElements == |a.Contents()| && a.maxIndex == LastIndex(a.Contents())
  {
    hide ToMap, Sorted;
    RingArray.RisingSorted(a.chain);
    a.Limits(0);
    RingArray.LastEntry(a.chain);
  }

  method Step(a: RingArray.Ring, op: Op) returns (b: RingArray.Ring, o: Observation)
    requires a.Valid()
    modifies a, a.nodes
    ensures b.Valid() && b.Contents() == After(old(a.Contents()), op) && Sees(old(a.Contents()), op, o)
    ensures (b == a || fresh(b)) && fresh(b.nodes - old(a.nodes))
  {
    hide RingArray.Ring.Valid, RingArray.Ring.Contents, RingArray.Ring.Map, ToMap, Sorted, Put, Without, ValueAt;
    hide Shifted, RShifted, LastIndex;
    Facts(a);
    ghost var ps := a.Contents();
    var answer := None;
    b := a;
    match op {
      case Insert(i, v) =>
        var _ := a.Insert(i, v);
        PutMap(ps, i, v);
        Holds(a, Put(ps, i, v));
      case Remove(i) =>
        var e := a.Remove(i);
        answer := if e != null then Some(e.value) else None;
        WithoutMap(ps, i);
        Holds(a, Without(ps, i));
      case Reference(i) =>
        answer := a.Reference(i);
        WithoutMap(ps, i);
        Holds(a, ps);
      case Flush =>
        a.Flush();
      case Shift(n) =>
        var _ := a.Shift(n, true);
      case RShift(n, s) =>
        var _ := a.RShift(n, s);
      case Copy =>
        b := a.Copy();
    }
    Facts(b);
    return b, Observation(answer, b.numElements, b.maxIndex);
  }

  /** Every run of the operations leaves a valid ring with the entries of the list, and shows what the
      list shows. */
  method Run(a: RingArray.Ring, ops: seq<Op>) returns (b: RingArray.Ring, obs: seq<Observation>)
    requires a.Valid()
    modifies a, a.nodes
    ensures b.Valid() && b.Contents() == Final(old(a.Contents()), ops) && Shows(old(a.Contents()), ops, obs)
    decreases ops
  {
    hide RingArray.Ring.Valid, RingArray.Ring.Contents, Sees, After;
    b, obs := a, [];
    if ops != [] {
      var c, o := Step(a, ops[0]);
      var rest;
      b, rest := Run(c, ops[1..]);
      obs := [o] + rest;
      assert obs[1..] == rest;
    }
  }
}
