/** The two array implementations give the same answers on every run. */
module ArrayRuns {
  import opened ArraySpec
  import opened Wrappers
  import RingArray
  import TableArray

  datatype Op = Insert(at: nat, v: string) | Remove(i: int) | Reference(i: int) | Flush

  /** What a caller sees of one operation: its answer, `num_elements` and `max_index`. */
  datatype Observation = Observation(answer: Option<string>, count: int, max: int)

  ghost function After(m: map<int, string>, op: Op): map<int, string> {
    match op
    case Insert(i, v) => m[i := v]
    case Remove(i) => m - {i}
    case Reference(_) => m
    case Flush => map[]
  }

  ghost function Answer(m: map<int, string>, op: Op): Option<string> {
    match op
    case Insert(_, _) => None
    case Remove(i) => Lookup(m, i)
    case Reference(i) => Lookup(m, i)
    case Flush => None
  }

  /** The largest index, or -1. */
  ghost predicate IsTop(m: map<int, string>, t: int) {
    (m == map[] ==> t == -1) && (m != map[] ==> t in m) && forall i | i in m :: i <= t
  }

  ghost predicate Sees(m: map<int, string>, op: Op, o: Observation) {
    o.answer == Answer(m, op) && o.count == |After(m, op)| && IsTop(After(m, op), o.max)
  }

  /** obs is what a finite map shows when ops are run on it. */
  ghost predicate Shows(m: map<int, string>, ops: seq<Op>, obs: seq<Observation>)
    decreases ops
  {
    && |obs| == |ops|
    && (ops != [] ==> Sees(m, ops[0], obs[0]) && Shows(After(m, ops[0]), ops[1..], obs[1..]))
  }

  /** A run of the map leaves no choice about what is seen. */
  lemma {:induction false} ShowsOnce(m: map<int, string>, ops: seq<Op>, x: seq<Observation>, y: seq<Observation>)
    requires Shows(m, ops, x) && Shows(m, ops, y)
    ensures x == y
    decreases ops
  {
    if ops != [] {
      assert x[0] == y[0];
      ShowsOnce(After(m, ops[0]), ops[1..], x[1..], y[1..]);
      assert x == [x[0]] + x[1..] && y == [y[0]] + y[1..];
    }
  }

  lemma ShowsStep(m: map<int, string>, ops: seq<Op>, o: Observation, obs: seq<Observation>)
    requires ops != [] && Sees(m, ops[0], o) && Shows(After(m, ops[0]), ops[1..], obs)
    ensures Shows(m, ops, [o] + obs)
  {
  }

  lemma RingTop(a: RingArray.Ring)
    requires a.Valid()
    ensures a.numElements == |a.Map()| && IsTop(a.Map(), a.maxIndex)
  {
    RingArray.RisingSorted(a.chain);
    MapMeasures(a.Contents());
    RingArray.LastEntry(a.chain);
    if a.Map() == map[] {
      assert a.Contents() == [];
    }
  }

  lemma TableTop(a: TableArray.Table)
    requires a.Valid()
    ensures a.numElements == |a.Map()| && IsTop(a.Map(), a.maxIndex)
  {
    TableArray.SlotsEmpty(a.elements[..]);
    if a.maxIndex >= 0 {
      assert a.elements[..][a.maxIndex].Some?;
      assert a.maxIndex in a.Map();
    }
    forall i | i in a.Map() ensures i <= a.maxIndex {
      assert a.elements[..][i].Some?;
    }
  }

  method RingStep(a: RingArray.Ring, op: Op) returns (o: Observation)
    requires a.Valid()
    modifies a, a.nodes
    ensures a.Valid() && fresh(a.nodes - old(a.nodes))
    ensures a.Map() == After(old(a.Map()), op) && Sees(old(a.Map()), op, o)
  {
    hide RingArray.Ring.Valid, RingArray.Ring.Map, IsTop;
    var answer := None;
    match op {
      case Insert(i, v) =>
        var _ := a.Insert(i, v);
      case Remove(i) =>
        var e := a.Remove(i);
        answer := if e != null then Some(e.value) else None;
      case Reference(i) =>
        answer := a.Reference(i);
      case Flush =>
        a.Flush();
        a.FlushedMap();
    }
    RingTop(a);
    return Observation(answer, a.numElements, a.maxIndex);
  }

  method TableStep(a: TableArray.Table, op: Op) returns (o: Observation)
    requires a.Valid()
    modifies a, a.elements
    ensures a.Valid() && (a.elements == old(a.elements) || fresh(a.elements))
    ensures a.Map() == After(old(a.Map()), op) && Sees(old(a.Map()), op, o)
  {
    hide TableArray.Table.Valid, TableArray.Table.Map, IsTop;
    var answer := None;
    match op {
      case Insert(i, v) =>
        var _ := a.Insert(i, v);
      case Remove(i) =>
        var e := a.Remove(i);
        answer := if e.Some? then Some(e.value.value) else None;
      case Reference(i) =>
        answer := a.Reference(i);
      case Flush =>
        a.Flush();
    }
    TableTop(a);
    return Observation(answer, a.numElements, a.maxIndex);
  }

  method RunRing(a: RingArray.Ring, ops: seq<Op>) returns (obs: seq<Observation>)
    requires a.Valid()
    modifies a, a.nodes
    ensures Shows(old(a.Map()), ops, obs)
    decreases ops
  {
    hide RingArray.Ring.Valid, RingArray.Ring.Map, Shows, Sees, After;
    if ops == [] {
      ShowsNothing(a.Map());
      return [];
    }
    var o := RingStep(a, ops[0]);
    var rest := RunRing(a, ops[1..]);
    ShowsStep(old(a.Map()), ops, o, rest);
    return [o] + rest;
  }

  method RunTable(a: TableArray.Table, ops: seq<Op>) returns (obs: seq<Observation>)
    requires a.Valid()
    modifies a, a.elements
    ensures Shows(old(a.Map()), ops, obs)
    decreases ops
  {
    hide TableArray.Table.Valid, TableArray.Table.Map, Shows, Sees, After;
    if ops == [] {
      ShowsNothing(a.Map());
      return [];
    }
    var o := TableStep(a, ops[0]);
    var rest := RunTable(a, ops[1..]);
    ShowsStep(old(a.Map()), ops, o, rest);
    return [o] + rest;
  }

  lemma ShowsNothing(m: map<int, string>)
    ensures Shows(m, [], [])
  {
  }

  /** Starting empty, no sequence of operations tells the two implementations apart. */
  method RunBoth(ops: seq<Op>) returns (ring: seq<Observation>, table: seq<Observation>)
    ensures ring == table && Shows(map[], ops, ring)
  {
    var a := new RingArray.Ring();
    a.FlushedMap();
    var b := new TableArray.Table();
    ring := RunRing(a, ops);
    table := RunTable(b, ops);
    ShowsOnce(map[], ops, ring, table);
  }
}
