/** Sparse arrays as a circular doubly linked list with a dummy head and a roving pointer. */
module RingArray {
  import opened ArraySpec
  import opened Wrappers

  ghost function Min(a: int, b: int): int {
    if a < b then a else b
  }

  class Element {
    var ind: int
    var value: string
    var next: Element?
    var prev: Element?

    constructor (ind: int, value: string)
      ensures this.ind == ind && this.value == value && next == null && prev == null
    {
      this.ind, this.value := ind, value;
      next, prev := null, null;
    }
  }

  /** c goes once round the ring, with the dummy head at both ends. */
  ghost predicate Circle(c: seq<Element>)
    reads c`next, c`prev
  {
    && |c| >= 2 && c[0] == c[|c| - 1]
    && (forall j, k | 0 <= j < k < |c| - 1 :: c[j] != c[k])
    && (forall k {:trigger c[k].next} | 0 <= k < |c| - 1 :: c[k].next == c[k + 1])
    && (forall k {:trigger c[k].prev} | 0 < k < |c| :: c[k].prev == c[k - 1])
  }

  /** Indices rise from the dummy head's -1. */
  ghost predicate Rising(c: seq<Element>)
    reads c`ind
  {
    && |c| >= 2 && c[0].ind == -1
    && forall j, k | 0 <= j < k < |c| - 1 :: c[j].ind < c[k].ind
  }

  ghost function Entries(c: seq<Element>): (r: seq<Pair>)
    requires |c| >= 2
    reads c
    ensures |r| == |c| - 2
    ensures forall k | 0 <= k < |c| - 2 :: r[k] == Pair(c[k + 1].ind, c[k + 1].value)
  {
    seq(|c| - 2, (k: int) requires 0 <= k < |c| - 2 reads c => Pair(c[k + 1].ind, c[k + 1].value))
  }

  lemma Rises(c: seq<Element>, k: nat)
    requires Rising(c) && k < |c| - 1
    ensures k < |c| - 2 ==> c[k].ind < c[|c| - 2].ind
  {
  }

  lemma RisingSorted(c: seq<Element>)
    requires Rising(c)
    ensures Sorted(Entries(c))
  {
  }

  ghost function Splice(c: seq<Element>, k: nat, e: Element): (r: seq<Element>)
    requires k <= |c|
    ensures |r| == |c| + 1
  {
    c[..k] + [e] + c[k..]
  }

  ghost function Cut(c: seq<Element>, k: nat): (r: seq<Element>)
    requires k < |c|
    ensures |r| == |c| - 1
  {
    c[..k] + c[k + 1..]
  }

  lemma SplicedRising(c: seq<Element>, k: nat, e: Element)
    requires Rising(c) && 0 < k < |c| && c[k - 1].ind < e.ind && (k < |c| - 1 ==> e.ind < c[k].ind)
    ensures Rising(Splice(c, k, e))
    ensures Entries(Splice(c, k, e)) == Entries(c)[..k - 1] + [Pair(e.ind, e.value)] + Entries(c)[k - 1..]
    ensures Gap(Entries(c), k - 1, e.ind)
  {
  }

  lemma Spliced(c: seq<Element>, k: nat, e: Element)
    requires Rising(c) && 0 < k < |c| && c[k - 1].ind < e.ind && (k < |c| - 1 ==> e.ind < c[k].ind)
    ensures Rising(Splice(c, k, e))
    ensures ToMap(Entries(Splice(c, k, e))) == ToMap(Entries(c))[e.ind := e.value]
    ensures e.ind !in ToMap(Entries(c))
  {
    hide ToMap, Sorted, Rising, Entries, Splice, Gap;
    RisingSorted(c);
    SplicedRising(c, k, e);
    InsertAt(Entries(c), k - 1, Pair(e.ind, e.value));
  }

  lemma CutFacts(c: seq<Element>, k: nat)
    requires Circle(c) && 0 < k < |c| - 1
    ensures Cut(c, k)[0] == c[0] && Cut(c, k)[|c| - 2] == c[0]
    ensures Cut(c, k)[k] == c[k + 1] && Cut(c, k)[k - 1] == c[k - 1]
    ensures Cut(c, k)[|c| - 3] == if k < |c| - 2 then c[|c| - 2] else c[k - 1]
    ensures c[k] !in Cut(c, k) && forall j | 0 <= j < |c| - 1 :: Cut(c, k)[j] in c
  {
  }

  lemma WasCut(c: seq<Element>, k: nat)
    requires Rising(c) && 0 < k < |c| - 1
    ensures Rising(Cut(c, k))
    ensures ToMap(Entries(Cut(c, k))) == ToMap(Entries(c)) - {c[k].ind}
    ensures c[k].ind in ToMap(Entries(c)) && ToMap(Entries(c))[c[k].ind] == c[k].value
  {
    hide ToMap;
    RisingSorted(c);
    RemoveAt(Entries(c), k - 1);
    assert Entries(Cut(c, k)) == Entries(c)[..k - 1] + Entries(c)[k..];
  }

  lemma NotFound(c: seq<Element>, k: nat, i: int)
    requires Rising(c) && 0 < k < |c| && c[k - 1].ind < i && (k < |c| - 1 ==> i < c[k].ind)
    ensures i !in ToMap(Entries(c))
  {
    hide ToMap;
    RisingSorted(c);
    InsertAt(Entries(c), k - 1, Pair(i, ""));
  }

  lemma Around(c: seq<Element>, k: nat)
    requires Circle(c) && k < |c|
    ensures |c| >= 2 && c[0] == c[|c| - 1]
    ensures k > 0 ==> c[k].prev == c[k - 1]
    ensures k < |c| - 1 ==> c[k].next == c[k + 1]
    ensures 0 < k < |c| - 1 <==> c[k] != c[0]
  {
  }

  twostate lemma Relinked(c: seq<Element>)
    requires |c| >= 2
    requires forall k | 0 <= k < |c| :: c[k].ind == old(c[k].ind) && c[k].value == old(c[k].value)
    ensures Rising(c) == old(Rising(c)) && Entries(c) == old(Entries(c))
  {
  }

  /** Links e in front of ae. */
  method AddBefore(ae: Element, e: Element, ghost c: seq<Element>, ghost k: nat)
    requires Circle(c) && 0 < k < |c| && c[k] == ae && e !in c
    modifies ae.prev`next, ae`prev, e`next, e`prev
    ensures Circle(Splice(c, k, e))
  {
    assert ae.prev == c[k - 1];
    ae.prev.next := e;
    e.prev := ae.prev;
    ae.prev := e;
    e.next := ae;
  }

  /** Links e behind ae. */
  method AddAfter(ae: Element, e: Element, ghost c: seq<Element>, ghost k: nat)
    requires Circle(c) && 0 <= k < |c| - 1 && c[k] == ae && e !in c
    modifies ae.next`prev, ae`next, e`next, e`prev
    ensures Circle(Splice(c, k + 1, e))
  {
    assert ae.next == c[k + 1];
    ae.next.prev := e;
    e.next := ae.next;
    e.prev := ae;
    ae.next := e;
  }

  lemma Appended(c: seq<Element>, d: seq<Element>, e: Element)
    requires |c| >= 2 && d == Splice(c, |c| - 1, e)
    ensures Entries(d) == Entries(c) + [Pair(e.ind, e.value)]
    ensures d[0] == c[0] && d[|c| - 1] == e
    ensures forall k | 0 <= k < |c| - 1 :: d[k] == c[k]
    ensures forall k | 0 <= k <= |c| :: d[k] in c || d[k] == e
  {
  }

  ghost function Firsts(ps: seq<Pair>, n: nat): seq<Pair> {
    if n <= |ps| then ps[..n] else ps
  }

  lemma LastEntry(c: seq<Element>)
    requires |c| >= 2 && c[0].ind == -1
    ensures c[|c| - 2].ind == LastIndex(Entries(c))
  {
  }

  /** Takes ae out of the ring; its own links stay. */
  method Unlink(ae: Element, ghost c: seq<Element>, ghost k: nat)
    requires Circle(c) && 0 < k < |c| - 1 && c[k] == ae
    modifies ae.next`prev, ae.prev`next
    ensures Circle(Cut(c, k))
    ensures ae.next == c[k + 1] && ae.prev == c[k - 1]
  {
    ae.next.prev := ae.prev;
    ae.prev.next := ae.next;
  }

  ghost predicate LiveIn(c: seq<Element>, e: Element) {
    exists k | 0 < k < |c| - 1 :: c[k] == e
  }

  lemma LiveAt(c: seq<Element>, k: nat)
    requires 0 < k < |c| - 1
    ensures LiveIn(c, c[k])
  {
  }

  ghost predicate Owns(c: seq<Element>, s: set<Element>) {
    forall k | 0 <= k < |c| :: c[k] in s
  }

  lemma SpliceOwns(c: seq<Element>, s: set<Element>, k: nat, e: Element)
    requires Owns(c, s) && k <= |c|
    ensures Owns(Splice(c, k, e), s + {e})
  {
  }

  lemma CutOwns(c: seq<Element>, s: set<Element>, k: nat)
    requires Owns(c, s) && k < |c|
    ensures Owns(Cut(c, k), s)
  {
  }

  lemma KeepOwns(c: seq<Element>, s: set<Element>, n: nat)
    requires Owns(c, s) && n + 1 < |c|
    ensures Owns(Keep(c, n), s)
  {
  }

  /** A null-terminated list of elements. */
  ghost predicate Line(s: seq<Element>, first: Element?)
    reads s`next
  {
    && s != [] && first == s[0] && s[|s| - 1].next == null
    && forall k {:trigger s[k].next} | 0 <= k < |s| - 1 :: s[k].next == s[k + 1]
  }

  lemma SortedRising(c: seq<Element>)
    requires |c| >= 2 && c[0].ind == -1 && Sorted(Entries(c))
    ensures Rising(c)
  {
    assert forall k | 0 < k < |c| - 1 :: Entries(c)[k - 1].ind == c[k].ind;
  }

  /** Adds delta to the indices from ae round to the dummy head. */
  method RenumberLoop(start: Element, head: Element, delta: int, ghost c: seq<Element>, ghost k: nat,
                      ghost s: set<Element>)
    requires Circle(c) && 0 < k < |c| && start == c[k] && head == c[0] && Owns(c, s)
    modifies s`ind
    ensures Circle(c)
    ensures forall j | 0 <= j < |c| - 1 :: c[j].ind == old(c[j].ind) + if j < k then 0 else delta
  {
    var ae := start;
    ghost var i := k;
    while ae != head
      invariant k <= i < |c| && ae == c[i]
      invariant forall j | 0 <= j < |c| - 1 :: c[j].ind == old(c[j].ind) + if k <= j < i then delta else 0
      decreases |c| - i
    {
      ae.ind := ae.ind + delta;
      ae, i := ae.next, i + 1;
    }
  }

  lemma Recounted(c: seq<Element>, ps: seq<Pair>, k: nat, delta: int)
    requires 0 < k < |c| && |c| - 2 == |ps|
    requires forall j | 0 < j < |c| - 1 :: ps[j - 1] == Pair(c[j].ind - (if j < k then 0 else delta), c[j].value)
    ensures Entries(c) == Raised(ps, k - 1, delta)
  {
  }

  method Renumber(start: Element, head: Element, delta: int, ghost c: seq<Element>, ghost k: nat,
                      ghost s: set<Element>)
    requires Circle(c) && 0 < k < |c| && start == c[k] && head == c[0] && Owns(c, s)
    modifies s`ind
    ensures Circle(c) && head.ind == old(head.ind)
    ensures Entries(c) == Raised(old(Entries(c)), k - 1, delta)
  {
    ghost var ps := Entries(c);
    RenumberLoop(start, head, delta, c, k, s);
    Recounted(c, ps, k, delta);
  }

  /** The ring without its first n elements, and those elements. */
  ghost function Keep(c: seq<Element>, n: nat): (r: seq<Element>)
    requires n + 1 < |c|
    ensures |r| == |c| - n && r[0] == c[0] && r[1] == c[n + 1]
  {
    [c[0]] + c[n + 1..]
  }

  ghost function Gone(c: seq<Element>, n: nat): (r: seq<Element>)
    requires n + 1 < |c|
    ensures |r| == n
  {
    c[1..n + 1]
  }

  lemma Apart(c: seq<Element>, n: nat)
    requires Circle(c) && 0 < n < |c| - 2
    ensures forall j | 0 <= j < |c| - n :: Keep(c, n)[j] in c
    ensures Lowered(Entries(Keep(c, n)), n) == Shifted(Entries(c), n)
  {
    hide Circle, Lowered;
    var k := Keep(c, n);
    assert forall j | 0 < j < |k| :: k[j] == c[n + j];
    forall j | 0 <= j < |k| ensures k[j] in c {
      assert k[j] == c[0] || k[j] == c[n + j];
    }
    assert Entries(k) == Entries(c)[n..] by {
      hide Keep;
    }
  }

  /** Slices the first n elements out of the ring, leaving them as a null-terminated list. */
  method Detach(ae: Element, head: Element, ghost c: seq<Element>, ghost n: nat)
    requires Circle(c) && 0 < n < |c| - 2 && c[n + 1] == ae && head == c[0]
    modifies ae.prev`next, head`next, ae`prev
    ensures Circle(Keep(c, n)) && Line(Gone(c, n), old(head.next))
    ensures Entries(Keep(c, n)) == old(Entries(Keep(c, n)))
    ensures head.ind == old(head.ind)
  {
    Apart(c, n);
    assert ae.prev == c[n];
    ae.prev.next := null;
    head.next := ae;
    ae.prev := head;
  }

  /** The function calls a body makes: none, or a call with the calls its own body makes, and then more. */
  datatype Calls = Done | Call(name: string, inner: Calls, next: Calls)

  class Ring {
    var maxIndex: int
    var numElements: int
    var head: Element
    var lastref: Element?
    ghost var chain: seq<Element>
    ghost var nodes: set<Element>

    /** The roving pointer is null or at a live element, never at the dummy head. */
    ghost predicate Live(e: Element)
      reads this`chain
    {
      LiveIn(chain, e)
    }

    ghost predicate Linked()
      reads this, nodes
    {
      && Owns(chain, nodes) && |chain| >= 2 && Circle(chain) && chain[0] == head && Rising(chain)
      && numElements == |chain| - 2
      && (lastref != null ==> Live(lastref))
    }

    ghost predicate Valid()
      reads this, nodes
    {
      Linked() && maxIndex == chain[|chain| - 2].ind
    }

    ghost function Contents(): seq<Pair>
      reads this`chain, chain
    {
      if |chain| >= 2 then Entries(chain) else []
    }

    ghost function Map(): map<int, string>
      reads this`chain, chain
    {
      if |chain| >= 2 then ToMap(Entries(chain)) else map[]
    }

    constructor ()
      ensures Valid() && fresh(nodes) && Contents() == []
    {
      maxIndex, numElements, lastref := -1, 0, null;
      var dummy := new Element(-1, "");
      head := dummy;
      chain, nodes := [dummy, dummy], {dummy};
      new;
      head.prev := head;
      head.next := head;
    }

    method Flush()
      requires Valid()
      modifies this, nodes
      ensures Valid() && Contents() == [] && nodes == old(nodes)
    {
      head.next, head.prev := head, head;
      maxIndex, numElements, lastref := -1, 0, null;
      chain := [head, head];
    }

    ghost predicate Here(k: nat, e: Element)
      reads this`chain
    {
      0 < k < |chain| - 1 && chain[k] == e
    }

    /** A search for i going in the given direction from ae has not passed the place of i. */
    ghost predicate Seeking(i: int, ae: Element, direction: int, k: nat)
      reads this, nodes
    {
      && Valid() && Here(k, ae) && chain[1].ind <= i <= maxIndex
      && (direction == 1 || direction == -1)
      && (direction == 1 ==> chain[k - 1].ind < i)
      && (direction == -1 && k < |chain| - 2 ==> i < chain[k + 1].ind)
    }

    lemma Facts(i: int, ae: Element, direction: int, k: nat)
      requires Seeking(i, ae, direction, k)
      ensures Valid() && Here(k, ae) && ae != head && ae in nodes && (direction == 1 || direction == -1)
      ensures ae.ind == i ==> i in Map() && Map()[i] == ae.value
      ensures direction == 1 && ae.ind > i ==> i !in Map()
      ensures direction == -1 && ae.ind < i ==> i !in Map()
    {
      hide ToMap, Entries;
      if ae.ind == i {
        WasCut(chain, k);
      } else if direction == 1 && ae.ind > i {
        NotFound(chain, k, i);
      } else if direction == -1 && ae.ind < i {
        NotFound(chain, k + 1, i);
      }
    }

    /** Since i lies between the first and the last index, a search never runs into the dummy head. */
    lemma Onward(i: int, ae: Element, direction: int, k: nat)
      requires Seeking(i, ae, direction, k)
      ensures direction == 1 && ae.ind < i ==> ae.next != null && k + 1 < |chain| && Seeking(i, ae.next, 1, k + 1)
      ensures direction == -1 && ae.ind > i ==> ae.prev != null && k > 1 && Seeking(i, ae.prev, -1, k - 1)
    {
    }

    /** Where a search starts and which way it goes: a guess that never matters. */
    method StartSearch(i: int) returns (start: Element, direction: int, ghost k: nat)
      requires Valid() && |chain| > 2 && chain[1].ind <= i <= maxIndex
      ensures Seeking(i, start, direction, k)
      ensures direction == 1 ==> start.ind <= i
      ensures direction == -1 ==> i < start.ind
    {
      start := if lastref != null then lastref else head.next;
      k := if lastref != null then var j :| 0 < j < |chain| - 1 && chain[j] == lastref; j else 1;
      var startind := start.ind;
      if i < startind / 2 {
        start := head.next;
        k := 1;
        startind := start.ind;
        direction := 1;
      } else if i >= startind {
        direction := 1;
      } else {
        direction := -1;
      }
    }

    /** Swaps a new value into an element. */
    method Replace(ghost k: nat, ae: Element, v: string)
      requires Valid() && Here(k, ae)
      modifies ae`value
      ensures Valid() && Map() == old(Map())[ae.ind := v]
    {
      hide ToMap, Sorted;
      ghost var ps := Entries(chain);
      RisingSorted(chain);
      ReplaceAt(ps, k - 1, v);
      ae.value := v;
      assert Entries(chain) == ps[k - 1 := Pair(ae.ind, v)];
    }

    /** Links a new element in front of ae and counts it. */
    method HookBefore(ghost k: nat, ae: Element, e: Element)
      requires Linked() && 0 < k < |chain| && chain[k] == ae && e !in chain
      requires chain[k - 1].ind < e.ind && (k < |chain| - 1 ==> e.ind < chain[k].ind)
      modifies this`numElements, this`lastref, this`chain, this`nodes, ae.prev`next, ae`prev, e`next, e`prev
      ensures Linked() && chain == Splice(old(chain), k, e)
      ensures chain[|chain| - 2] == if k < |chain| - 2 then old(chain[|chain| - 2]) else e
      ensures nodes == old(nodes) + {e}
      ensures Map() == old(Map())[e.ind := e.value]
    {
      hide ToMap, Circle, Rising, Entries, Owns;
      AddBefore(ae, e, chain, k);
      Relinked(chain);
      Spliced(chain, k, e);
      SpliceOwns(chain, nodes, k, e);
      chain, nodes := Splice(chain, k, e), nodes + {e};
      numElements := numElements + 1;
      lastref := e;
      assert chain[k] == e;
    }

    /** Links a new element behind ae and counts it. */
    method HookAfter(ghost k: nat, ae: Element, e: Element)
      requires Linked() && 0 <= k < |chain| - 1 && chain[k] == ae && e !in chain
      requires chain[k].ind < e.ind && (k < |chain| - 2 ==> e.ind < chain[k + 1].ind)
      modifies this`numElements, this`lastref, this`chain, this`nodes, ae.next`prev, ae`next, e`next, e`prev
      ensures Linked() && chain == Splice(old(chain), k + 1, e)
      ensures chain[|chain| - 2] == if k < |chain| - 3 then old(chain[|chain| - 2]) else e
      ensures nodes == old(nodes) + {e}
      ensures Map() == old(Map())[e.ind := e.value]
    {
      hide ToMap, Circle, Rising, Entries, Owns;
      AddAfter(ae, e, chain, k);
      Relinked(chain);
      Spliced(chain, k + 1, e);
      SpliceOwns(chain, nodes, k + 1, e);
      chain, nodes := Splice(chain, k + 1, e), nodes + {e};
      numElements := numElements + 1;
      lastref := e;
      assert chain[k + 1] == e;
    }

    method Insert(i: int, v: string) returns (r: int)
      requires Valid() && i >= 0
      modifies this, nodes
      ensures Valid() && r == 0
      ensures Map() == old(Map())[i := v]
      ensures fresh(nodes - old(nodes))
    {
      hide ToMap, Entries, Circle, Rising, Splice, LiveIn;
      Limits(i);
      var e := new Element(i, v);
      Around(chain, 0);
      Around(chain, |chain| - 1);
      if i > maxIndex {
        HookBefore(|chain| - 1, head, e);
        maxIndex := i;
        return 0;
      } else if i < head.next.ind {
        HookAfter(0, head, e);
        return 0;
      }
      r := InsertWithin(i, v, e);
    }

    /** The search of array_insert. Its "problem" exit is never reached. */
    method InsertWithin(i: int, v: string, e: Element) returns (r: int)
      requires Valid() && |chain| > 2 && chain[1].ind <= i <= maxIndex
      requires e !in chain && e.ind == i && e.value == v
      modifies this, nodes, e
      ensures Valid() && r == 0
      ensures Map() == old(Map())[i := v]
      ensures nodes <= old(nodes) + {e}
    {
      hide Valid, Map, Seeking;
      var start, direction, k := StartSearch(i);
      Facts(i, start, direction, k);
      var ae: Element := start;
      while ae != head
        invariant Seeking(i, ae, direction, k) && ae != head && (direction == 1 || direction == -1)
        invariant chain == old(chain) && nodes == old(nodes) && Map() == old(Map()) && e.ind == i && e.value == v
        decreases if direction == 1 then |chain| - k else k
      {
        Facts(i, ae, direction, k);
        if ae.ind == i {
          Replace(k, ae, v);
          Rove(k, ae);
          return 0;
        } else if direction == 1 && ae.ind > i {
          PutBefore(i, k, ae, e);
          return 0;
        } else if direction == -1 && ae.ind < i {
          PutAfter(i, k, ae, e);
          return 0;
        }
        Onward(i, ae, direction, k);
        ae, k := if direction == 1 then ae.next else ae.prev, if direction == 1 then k + 1 else k - 1;
        Facts(i, ae, direction, k);
      }
      assert false;
    }

    method PutBefore(i: int, ghost k: nat, ae: Element, e: Element)
      requires Seeking(i, ae, 1, k) && ae.ind > i && e !in chain && e.ind == i
      modifies this, nodes, e
      ensures Valid() && Map() == old(Map())[i := old(e.value)] && nodes == old(nodes) + {e}
    {
      hide Map, Entries, Circle, Rising;
      Around(chain, k);
      HookBefore(k, ae, e);
    }

    method PutAfter(i: int, ghost k: nat, ae: Element, e: Element)
      requires Seeking(i, ae, -1, k) && ae.ind < i && e !in chain && e.ind == i
      modifies this, nodes, e
      ensures Valid() && Map() == old(Map())[i := old(e.value)] && nodes == old(nodes) + {e}
    {
      hide Map, Entries, Circle;
      Around(chain, k);
      Rises(chain, k);
      HookAfter(k, ae, e);
    }

    method Remove(i: int) returns (r: Element?)
      requires Valid()
      modifies this, nodes
      ensures Valid() && Map() == old(Map()) - {i}
      ensures (r == null) == (i !in old(Map()))
      ensures r != null ==> r.ind == i && r.value == old(Map())[i] && r in old(chain) && r !in chain
      ensures nodes == old(nodes)
    {
      hide Valid, Map, Seeking;
      Limits(i);
      AtStart();
      if numElements == 0 {
        return null;
      }
      if i > maxIndex || i < head.next.ind {
        return null;
      }
      var start, direction, k := StartSearch(i);
      Facts(i, start, direction, k);
      var ae: Element := start;
      while ae != head
        invariant Seeking(i, ae, direction, k) && Valid() && ae != head && (direction == 1 || direction == -1)
        invariant direction == 1 ==> ae.ind <= i
        invariant direction == -1 ==> i <= ae.ind
        invariant chain == old(chain) && nodes == old(nodes) && Map() == old(Map())
        decreases if direction == 1 then |chain| - k else k
      {
        Facts(i, ae, direction, k);
        if ae.ind == i {
          r := Take(k, ae);
          return;
        }
        Onward(i, ae, direction, k);
        ae, k := if direction == 1 then ae.next else ae.prev, if direction == 1 then k + 1 else k - 1;
        Facts(i, ae, direction, k);
        if direction == 1 && ae.ind > i {
          break;
        } else if direction == -1 && ae.ind < i {
          break;
        }
      }
      return null;
    }

    method Rove(ghost k: nat, e: Element)
      requires Valid() && Here(k, e)
      modifies this`lastref
      ensures Valid() && Map() == old(Map()) && lastref == e
    {
      hide ToMap, Entries, Circle, Rising;
      lastref := e;
    }

    /** A failed reference still moves the roving pointer, but never to the dummy head. */
    method Reference(i: int) returns (r: Option<string>)
      requires Valid()
      modifies this`lastref
      ensures Valid() && Map() == old(Map())
      ensures r == Lookup(Map(), i)
    {
      hide Valid, Map, Seeking;
      Limits(i);
      AtStart();
      if numElements == 0 {
        return None;
      }
      if i > maxIndex || i < head.next.ind {
        return None;
      }
      var start, direction, k := StartSearch(i);
      Facts(i, start, direction, k);
      var ae: Element := start;
      ghost var s := k;
      while ae != head
        invariant Seeking(i, ae, direction, k) && Valid() && ae != head && (direction == 1 || direction == -1)
        invariant Here(s, start) && lastref == old(lastref)
        invariant direction == 1 ==> ae.ind <= i
        invariant direction == -1 ==> i <= ae.ind
        decreases if direction == 1 then |chain| - k else k
      {
        Facts(i, ae, direction, k);
        if ae.ind == i {
          Rove(k, ae);
          return Some(ae.value);
        }
        Onward(i, ae, direction, k);
        ae, k := if direction == 1 then ae.next else ae.prev, if direction == 1 then k + 1 else k - 1;
        Facts(i, ae, direction, k);
        if direction == 1 && ae.ind > i {
          start, s := ae, k;
          break;
        } else if direction == -1 && ae.ind < i {
          start, s := ae, k;
          break;
        }
      }
      Rove(s, start);
      return None;
    }

    /** Indices outside the first and the last are not there. */
    lemma Limits(i: int)
      requires Valid()
      ensures i > maxIndex || i < chain[1].ind ==> i !in Map()
      ensures numElements == 0 ==> Map() == map[]
      ensures numElements != 0 ==> |chain| > 2 && 0 <= chain[1].ind <= maxIndex
      ensures head.ind == -1
    {
      if i > maxIndex {
        NotFound(chain, |chain| - 1, i);
      } else if 0 <= i < chain[1].ind {
        NotFound(chain, 1, i);
      } else if i < 0 {
        RisingSorted(chain);
        MapMeasures(Entries(chain));
      }
    }

    /** What a valid ring consists of, ... */
    lemma InRing()
      requires Valid()
      ensures Circle(chain) && Owns(chain, nodes) && chain[0] == head && head.ind == -1
      ensures |chain| == numElements + 2 && Rising(chain) && maxIndex == chain[|chain| - 2].ind
      ensures Map() == ToMap(Entries(chain)) && Contents() == Entries(chain)
    {
    }

    /** ... and what makes one. */
    lemma Assembled()
      requires Owns(chain, nodes) && |chain| >= 2 && Circle(chain) && chain[0] == head && Rising(chain)
      requires numElements == |chain| - 2 && (lastref != null ==> LiveIn(chain, lastref))
      requires maxIndex == chain[|chain| - 2].ind
      ensures Valid() && Map() == ToMap(Entries(chain)) && Contents() == Entries(chain)
    {
    }

    lemma HereIs(k: nat, e: Element)
      requires Here(k, e)
      ensures 0 < k < |chain| - 1 && chain[k] == e
    {
    }

    /** What array_remove does with the element once it is found: unlinks it, ... */
    method Take(ghost k: nat, ae: Element) returns (r: Element)
      requires Valid() && Here(k, ae)
      modifies this, nodes
      ensures Valid() && r == ae && r !in chain && chain == Cut(old(chain), k)
      ensures ae.ind == old(ae.ind) && ae.value == old(ae.value)
      ensures ae.ind in old(Map()) && old(Map())[ae.ind] == ae.value
      ensures Map() == old(Map()) - {ae.ind}
      ensures nodes == old(nodes)
    {
      hide *;
      InRing();
      HereIs(k, ae);
      CutFacts(chain, k);
      WasCut(chain, k);
      Around(chain, k);
      TakeOut(k, ae);
      SettleTaken(k, ae);
      Assembled();
      return ae;
    }

    /** ... counts it out, ... */
    method TakeOut(ghost k: nat, ae: Element)
      requires Circle(chain) && Rising(chain) && Owns(chain, nodes)
      requires 0 < k < |chain| - 1 && chain[k] == ae && numElements == |chain| - 2
      modifies this`chain, this`numElements, ae.next`prev, ae.prev`next
      ensures chain == Cut(old(chain), k) && Circle(chain) && Rising(chain) && Owns(chain, nodes)
      ensures numElements == |chain| - 2
      ensures ae.next == old(chain[k + 1]) && ae.prev == old(chain[k - 1])
      ensures ToMap(Entries(chain)) == old(ToMap(Entries(chain))) - {ae.ind}
    {
      hide *;
      Around(chain, k - 1);
      Around(chain, k);
      Around(chain, k + 1);
      Unlink(ae, chain, k);
      Relinked(chain);
      WasCut(chain, k);
      CutOwns(chain, nodes, k);
      chain := Cut(chain, k);
      numElements := numElements - 1;
    }

    /** ... and brings the greatest index and the roving pointer up to date. */
    method SettleTaken(ghost k: nat, ae: Element)
      requires |chain| >= 2 && chain[0] == head && chain[|chain| - 1] == head && 0 < k < |chain|
      requires ae.next == chain[k] && ae.prev == chain[k - 1] && (k == |chain| - 1 <==> ae.next == head)
      requires k - 1 == 0 <==> ae.prev == head
      requires if k == |chain| - 1 then maxIndex == ae.ind else maxIndex == chain[|chain| - 2].ind && ae.ind != maxIndex
      modifies this`maxIndex, this`lastref
      ensures maxIndex == chain[|chain| - 2].ind && (lastref != null ==> LiveIn(chain, lastref))
    {
      hide *;
      if ae.ind == maxIndex {
        maxIndex := ae.prev.ind;
      }
      if ae.next != head {
        lastref := ae.next;
        LiveAt(chain, k);
      } else if ae.prev != head {
        lastref := ae.prev;
        LiveAt(chain, k - 1);
      } else {
        lastref := null;
      }
    }

    /** Walks over n elements, or all of them if there are fewer. */
    method Skip(n: nat) returns (ae: Element, ghost i: nat)
      requires Valid()
      ensures i == Min(n, numElements) && ae == chain[i + 1]
      ensures ae == head <==> n >= numElements
    {
      ae := head.next;
      var count := 0;
      while ae != head && count < n
        invariant 0 <= count <= n && count <= numElements && ae == chain[count + 1]
      {
        ae := ae.next;
        count := count + 1;
      }
      i := count;
    }

    /** Null-terminates the whole list and empties the ring. */
    method DropAll(ret: Element)
      requires Valid() && numElements > 0 && ret == chain[1]
      modifies this, nodes
      ensures Valid() && Contents() == [] && nodes == old(nodes)
      ensures Line(Gone(old(chain), old(numElements)), ret)
    {
      var ae := ret;
      ghost var i := 0;
      while ae.next != head
        invariant 0 <= i < numElements && ae == chain[i + 1]
        invariant Valid() && chain == old(chain) && head == old(head)
        decreases numElements - i
      {
        ae := ae.next;
        i := i + 1;
      }
      ae.next := null;
      head.next, head.prev := head, head;
      maxIndex, numElements, lastref := -1, 0, null;
      chain := [head, head];
    }

    method Shift(n: int, dispose: bool) returns (ret: Element?)
      requires Valid()
      modifies this, nodes
      ensures Valid() && Contents() == if n > 0 then Shifted(old(Contents()), n) else old(Contents())
      ensures ret != null <==> !dispose && n > 0 && old(numElements) > 0
      ensures ret != null ==> Line(Gone(old(chain), Min(n, old(numElements))), ret)
      ensures nodes == old(nodes)
    {
      hide Sorted, Circle, Rising, Line, Gone;
      if numElements == 0 || n <= 0 {
        return null;
      }
      Around(chain, 0);
      Invalidate();
      ret := head.next;
      var ae, i := Skip(n);
      if ae == head {
        if dispose {
          Flush();
          return null;
        }
        DropAll(ret);
        return;
      }
      ShiftPart(n, ae);
      if dispose {
        return null;
      }
    }

    method Invalidate()
      requires Valid()
      modifies this`lastref
      ensures Valid() && lastref == null && Contents() == old(Contents()) && chain == old(chain)
    {
      hide Circle, Rising, Entries;
      lastref := null;
    }

    /** array_shift when some elements are retained. */
    method ShiftPart(n: nat, ae: Element)
      requires Valid() && 0 < n < numElements && chain[n + 1] == ae && lastref == null
      modifies this, nodes
      ensures Valid() && Contents() == Shifted(old(Contents()), n)
      ensures Line(Gone(old(chain), n), old(head.next))
      ensures nodes == old(nodes)
    {
      RisingSorted(chain);
      ShiftedSorted(Entries(chain), n);
      hide Sorted, Lowered, Raised, Shifted, Circle, Rising, Line, Entries, Gone, Keep;
      ghost var gone := Gone(chain, n);
      CutFront(n, ae);
      RaisedAll(Entries(chain), 0 - n);
      Recount(n, 0 - n, ae, 1, gone, old(head.next));
    }

    /** Takes the first n elements out. */
    method CutFront(ghost n: nat, ae: Element)
      requires Valid() && 0 < n < numElements && chain[n + 1] == ae
      modifies this`chain, nodes
      ensures Owns(chain, nodes)
      ensures chain == Keep(old(chain), n) && Circle(chain) && Line(Gone(old(chain), n), old(head.next))
      ensures Lowered(Entries(chain), n) == Shifted(old(Entries(chain)), n)
      ensures head.ind == -1
    {
      hide Lowered, Shifted, Circle, Rising, Line, Entries, Gone, Keep;
      InRing();
      Apart(chain, n);
      Unravel(n);
      KeepOwns(chain, nodes, n);
      Detach(ae, head, chain, n);
      chain := Keep(chain, n);
    }

    lemma Unravel(n: nat)
      requires Valid() && 0 < n < numElements
      ensures chain[n + 1].prev == chain[n]
    {
    }

    /** Renumbers the elements from ae on and brings the counters up to date. */
    method Recount(dropped: nat, delta: int, ae: Element, ghost k: nat, ghost gone: seq<Element>, ghost first: Element?)
      requires |chain| >= 2 && Circle(chain) && chain[0] == head && head.ind == -1 && lastref == null
      requires Owns(chain, nodes)
      requires 0 < k < |chain| && chain[k] == ae && numElements - dropped == |chain| - 2
      requires Sorted(Raised(Entries(chain), k - 1, delta))
      requires gone != [] ==> Line(gone, first)
      modifies this`numElements, this`maxIndex, nodes`ind
      ensures Valid() && Contents() == Raised(old(Contents()), k - 1, delta)
      ensures gone != [] ==> Line(gone, first)
    {
      hide Sorted, Circle, Rising, Entries, Raised, Line;
      Renumber(ae, head, delta, chain, k, nodes);
      SortedRising(chain);
      assert Contents() == Raised(old(Contents()), k - 1, delta);
      Settle(dropped);
    }

    method Settle(n: nat)
      requires |chain| >= 2 && Circle(chain) && chain[0] == head && Rising(chain) && lastref == null
      requires Owns(chain, nodes)
      requires numElements - n == |chain| - 2
      modifies this`numElements, this`maxIndex
      ensures Valid() && Contents() == old(Contents())
    {
      hide Circle, Rising, Entries;
      Around(chain, |chain| - 1);
      numElements := numElements - n;
      maxIndex := head.prev.ind;
    }

    /** Puts a new element 0 in front; the old indices are still to be raised. */
    method PutFirst(ae: Element, e: Element)
      requires Linked() && chain[1] == ae && e !in chain && e.ind == 0
      modifies this`numElements, this`chain, this`nodes, ae.prev`next, ae`prev, e`next, e`prev
      ensures |chain| == old(|chain|) + 1 && numElements == |chain| - 2
      ensures Circle(chain) && chain[0] == head && chain[1] == e && chain[2] == ae && head.ind == -1
      ensures Entries(chain) == [Pair(0, e.value)] + old(Entries(chain))
      ensures Owns(chain, nodes) && nodes == old(nodes) + {e}
    {
      ghost var d := Splice(chain, 1, e);
      ghost var p := Pair(0, e.value);
      SpliceOwns(chain, nodes, 1, e);
      assert Entries(d) == [p] + Entries(chain);
      hide Circle;
      Around(chain, 1);
      AddBefore(ae, e, chain, 1);
      numElements := numElements + 1;
      chain, nodes := d, nodes + {e};
    }

    /** The new element is the only one. */
    method SettleFirst(e: Element)
      requires |chain| == 3 && Circle(chain) && chain[0] == head && head.ind == -1 && chain[1] == e && e.ind == 0
      requires numElements == 1 && lastref == null && Owns(chain, nodes)
      modifies this`maxIndex
      ensures Valid() && Contents() == [Pair(0, e.value)]
    {
      maxIndex := 0;
    }

    method RShift(n: int, s: Option<string>) returns (r: int)
      requires Valid()
      modifies this, nodes
      ensures Valid() && r == numElements
      ensures Contents() == if n > 0 then RShifted(old(Contents()), n, s) else old(Contents())
      ensures fresh(nodes - old(nodes))
    {
      hide *;
      if numElements == 0 && s.None? {
        NothingToShift(n);
        return 0;
      } else if n <= 0 {
        return numElements;
      }
      AtStart();
      Invalidate();
      RShiftFacts(n, s);
      if s.Some? {
        var e := new Element(0, s.value);
        r := RShiftWith(n, head.next, e);
      } else {
        r := RShiftAll(n, head.next);
      }
    }

    lemma NothingToShift(n: int)
      requires Valid() && numElements == 0
      ensures Contents() == [] && (n > 0 ==> RShifted([], n, None) == [])
    {
    }

    lemma RShiftFacts(n: nat, s: Option<string>)
      requires Valid() && n > 0
      ensures Sorted(RShifted(Contents(), n, s))
      ensures s.Some? ==> Raised([Pair(0, s.value)] + Contents(), 1, n) == RShifted(Contents(), n, s)
      ensures s.None? ==> Raised(Contents(), 0, n) == RShifted(Contents(), n, s)
    {
      RisingSorted(chain);
      RShiftedSorted(Contents(), n, s);
      RaisedRShifted(Contents(), n, s);
    }

    /** array_rshift without a new element. */
    method RShiftAll(n: nat, ae: Element) returns (r: int)
      requires Valid() && n > 0 && lastref == null && chain[1] == ae
      requires Sorted(Raised(Contents(), 0, n))
      modifies this, nodes
      ensures Valid() && r == numElements && nodes == old(nodes)
      ensures Contents() == Raised(old(Contents()), 0, n)
    {
      hide Sorted, Circle, Rising, Entries, Raised;
      Limits(0);
      Recount(0, n, ae, 1, [], null);
      r := numElements;
    }

    /** array_rshift with a new element 0. */
    method RShiftWith(n: int, ae: Element, e: Element) returns (r: int)
      requires Valid() && n > 0 && lastref == null && chain[1] == ae && e !in chain && e.ind == 0
      requires Raised([Pair(0, e.value)] + Contents(), 1, n) == RShifted(Contents(), n, Some(e.value))
      requires Sorted(RShifted(Contents(), n, Some(e.value)))
      modifies this, nodes, e
      ensures Valid() && r == numElements
      ensures Contents() == RShifted(old(Contents()), n, Some(old(e.value)))
      ensures nodes == old(nodes) + {e}
    {
      if numElements == 0 {
        assert RShifted(Contents(), n, Some(e.value)) == [Pair(0, e.value)];
      }
      hide Sorted, Circle, Rising, Entries, RShifted, Raised;
      PutFirst(ae, e);
      if numElements == 1 {
        SettleFirst(e);
        return 1;
      }
      Recount(0, n, ae, 2, [], null);
      r := numElements;
    }

    /** Function calls push on entry and pop on return.  Whatever calls a body makes, one after the other
        and inside one another, the array is afterwards as it was. */
    method NestedCalls(calls: Calls)
      requires Valid()
      modifies this, nodes
      ensures Valid() && Contents() == old(Contents())
      ensures fresh(nodes - old(nodes))
      decreases calls
    {
      hide Valid, Contents, RShifted, Shifted;
      if calls.Call? {
        PopPush(Contents(), calls.name);
        var _ := RShift(1, Some(calls.name));
        NestedCalls(calls.inner);
        var _ := Shift(1, true);
        NestedCalls(calls.next);
      }
    }

    /** What holds of a copy in the making, whose counters are already those of the original. */
    ghost predicate Loose()
      reads this, nodes
    {
      && Owns(chain, nodes) && |chain| >= 2 && Circle(chain) && chain[0] == head && head.ind == -1
      && (lastref != null ==> Live(lastref))
    }

    lemma LooseValid()
      requires Loose() && Sorted(Contents()) && numElements == |Contents()| && maxIndex == LastIndex(Contents())
      ensures Valid()
    {
      SortedRising(chain);
      LastEntry(chain);
    }

    lemma LastOwned()
      requires Owns(chain, nodes) && |chain| >= 2 && Circle(chain) && chain[0] == head
      ensures head.prev == chain[|chain| - 2] && head.prev in nodes && head == chain[|chain| - 1] && head in nodes
      ensures forall e | e !in nodes :: e !in chain
    {
    }

    method LinkLast(e: Element)
      requires Loose() && e !in nodes
      modifies this`chain, this`nodes, head.prev`next, head`prev, e`next, e`prev
      ensures Loose() && nodes == old(nodes) + {e} && LiveIn(chain, e)
      ensures Contents() == old(Contents()) + [Pair(e.ind, e.value)]
    {
      hide Circle, Entries, Splice, LiveIn, Owns;
      LastOwned();
      AddBefore(head, e, chain, |chain| - 1);
      Relinked(chain);
      ghost var d := Splice(chain, |chain| - 1, e);
      Appended(chain, d, e);
      SpliceOwns(chain, nodes, |chain| - 1, e);
      StillLive(chain, d);
      chain, nodes := d, nodes + {e};
    }

    /** Links a copied element in at the end. */
    method Append(ind: int, value: string, cached: bool)
      requires Loose()
      modifies this`chain, this`nodes, this`lastref, nodes
      ensures Loose() && fresh(nodes - old(nodes))
      ensures Contents() == old(Contents()) + [Pair(ind, value)]
    {
      hide Circle, Entries, LiveIn, Owns;
      LastOwned();
      var e := new Element(ind, value);
      LinkLast(e);
      if cached {
        lastref := e;
      }
    }

    lemma StillLive(c: seq<Element>, d: seq<Element>)
      requires |d| == |c| + 1 && forall k | 0 <= k < |c| - 1 :: d[k] == c[k]
      ensures forall e | LiveIn(c, e) :: LiveIn(d, e)
      ensures |d| > 2 ==> LiveIn(d, d[|d| - 2])
    {
    }

    method StartCopy() returns (a: Ring)
      ensures fresh(a) && fresh(a.nodes) && a.Loose() && a.Contents() == []
      ensures a.maxIndex == maxIndex && a.numElements == numElements
    {
      a := new Ring();
      a.maxIndex := maxIndex;
      a.numElements := numElements;
    }

    lemma FlushedMap()
      requires Valid() && Contents() == []
      ensures Map() == map[]
    {
    }

    lemma AtElement(k: nat)
      requires Valid() && 0 < k < |chain| && chain[k] != head
      ensures k < |chain| - 1 && chain[k].next == chain[k + 1]
      ensures Firsts(Contents(), k) == Firsts(Contents(), k - 1) + [Pair(chain[k].ind, chain[k].value)]
    {
    }

    lemma AtEnd(k: nat)
      requires Valid() && 0 < k < |chain| && chain[k] == head
      ensures Firsts(Contents(), k - 1) == Contents()
      ensures Sorted(Contents()) && numElements == |Contents()| && maxIndex == LastIndex(Contents())
    {
    }

    lemma AtStart()
      requires Valid()
      ensures |chain| >= 2 && head.next == chain[1] && Firsts(Contents(), 0) == []
    {
    }

    method Copy() returns (a: Ring)
      requires Valid()
      ensures a.Valid() && fresh(a) && fresh(a.nodes) && a.Contents() == Contents()
    {
      hide Valid, Contents, Loose, Firsts, Sorted;
      AtStart();
      a := StartCopy();
      var ae := head.next;
      ghost var k := 1;
      while ae != head
        invariant 0 < k < |chain| && chain[k] == ae
        invariant fresh(a.nodes) && a.Loose() && a.Contents() == Firsts(Contents(), k - 1)
        invariant a.maxIndex == maxIndex && a.numElements == numElements
        decreases |chain| - k
      {
        AtElement(k);
        a.Append(ae.ind, ae.value, ae == if lastref != null then lastref else head.next);
        ae, k := ae.next, k + 1;
      }
      AtEnd(k);
      a.LooseValid();
    }

    /** Assigns a list to the indices from 0 up; other indices keep their values. */
    method AssignList(list: seq<string>)
      requires Valid()
      modifies this, nodes
      ensures Valid() && Map() == old(Map()) + ToMap(Indexed(list))
      ensures old(Contents()) == [] ==> Contents() == Indexed(list)
      ensures fresh(nodes - old(nodes))
    {
      hide ToMap, Valid, Map, Indexed;
      if Contents() == [] {
        FlushedMap();
      }
      var i := 0;
      assert list[..0] == [];
      IndexedNothing();
      while i < |list|
        invariant Valid() && 0 <= i <= |list|
        invariant Map() == old(Map()) + ToMap(Indexed(list[..i]))
        invariant fresh(nodes - old(nodes))
      {
        IndexedStep(list, i);
        var _ := Insert(i, list[i]);
        i := i + 1;
      }
      assert list[..i] == list;
      OnlyList(list, old(Map()));
    }

    /** An array whose map is that of a list holds just the list. */
    lemma OnlyList(list: seq<string>, m: map<int, string>)
      requires Valid() && Map() == m + ToMap(Indexed(list))
      ensures m == map[] ==> Contents() == Indexed(list)
    {
      hide ToMap, Circle, Rising, Entries, Indexed;
      RisingSorted(chain);
      if m == map[] {
        IndexedOnly(list, Contents());
      }
    }

    /** The values in index order. */
    method ToWordList() returns (list: seq<string>)
      requires Valid()
      ensures list == Values(Contents())
    {
      list := [];
      var ae := head.next;
      ghost var k := 1;
      while ae != head
        invariant 0 < k < |chain| && chain[k] == ae
        invariant list == Values(Contents()[..k - 1])
        decreases |chain| - k
      {
        assert Contents()[..k] == Contents()[..k - 1] + [Pair(ae.ind, ae.value)];
        list := list + [ae.value];
        ae, k := ae.next, k + 1;
      }
      assert Contents()[..k - 1] == Contents();
    }
  }
}
