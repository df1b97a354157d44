/** Sparse arrays as a table of slots that grows by doubling: the alternative implementation. */
module TableArray {
  import opened ArraySpec
  import opened Wrappers

  const DEFAULT_SIZE := 1024
  const MAX_DOUBLE := 16777216

  type Slot = Option<Pair>

  ghost function SlotMap(s: seq<Slot>): map<int, string> {
    map k | 0 <= k < |s| && s[k].Some? :: s[k].value.value
  }

  lemma SlotSet(s: seq<Slot>, i: nat, p: Pair)
    requires i < |s|
    ensures SlotMap(s[i := Some(p)]) == SlotMap(s)[i := p.value]
    ensures |SlotMap(s[i := Some(p)])| == |SlotMap(s)| + if s[i].Some? then 0 else 1
  {
    var m, m' := SlotMap(s), SlotMap(s[i := Some(p)]);
    assert m' == m[i := p.value];
    assert m'.Keys == m.Keys + {i};
  }

  lemma SlotFilled(s: seq<Slot>, i: nat)
    requires i < |s|
    ensures s[i].Some? <==> i in SlotMap(s)
  {
  }

  lemma SlotCleared(s: seq<Slot>, i: nat)
    requires i < |s|
    ensures SlotMap(s[i := None]) == SlotMap(s) - {i}
    ensures |SlotMap(s[i := None])| == |SlotMap(s)| - if s[i].Some? then 1 else 0
  {
    var m, m' := SlotMap(s), SlotMap(s[i := None]);
    assert m' == m - {i};
    assert m'.Keys == m.Keys - {i};
  }

  lemma SlotsEmpty(s: seq<Slot>)
    ensures (forall k | 0 <= k < |s| :: s[k].None?) <==> SlotMap(s) == map[]
    ensures |SlotMap(s)| == 0 <==> SlotMap(s) == map[]
  {
    if k :| 0 <= k < |s| && s[k].Some? {
      assert k in SlotMap(s);
    }
  }

  lemma SlotsGrown(s: seq<Slot>, t: seq<Slot>)
    requires |s| <= |t| && t[..|s|] == s && forall k | |s| <= k < |t| :: t[k].None?
    ensures SlotMap(t) == SlotMap(s)
  {
    assert forall k | 0 <= k < |s| :: t[k] == t[..|s|][k];
  }

  /** Doubling from size until n fits. */
  function Doubled(size: nat, n: nat): nat
    requires size > 0
    decreases n - size
  {
    if n < size then size else Doubled(2 * size, n)
  }

  /** Doubling always covers n and at most doubles it. */
  lemma {:induction false} DoubledBounds(size: nat, n: nat)
    requires size > 0
    ensures n < Doubled(size, n)
    ensures Doubled(size, n) == size || Doubled(size, n) <= 2 * n
    decreases n - size
  {
    if n >= size {
      DoubledBounds(2 * size, n);
    }
  }

  function Min(a: nat, b: nat): nat {
    if a < b then a else b
  }

  class Table {
    var maxIndex: int
    var firstIndex: int
    var numElements: int
    var allocSize: nat
    var elements: array<Slot>

    /** Every filled slot knows its index and lies between the bounds; the upper bound is exact, the
        lower one need not be. */
    ghost predicate Filled(s: seq<Slot>)
      reads `maxIndex, `firstIndex, `numElements
    {
      && (forall k | 0 <= k < |s| && s[k].Some? :: s[k].value.ind == k && 0 <= firstIndex <= k <= maxIndex)
      && -1 <= maxIndex < |s| && -1 <= firstIndex
      && (maxIndex >= 0 ==> s[maxIndex].Some?)
      && numElements == |SlotMap(s)|
    }

    ghost predicate Valid()
      reads this, elements
    {
      allocSize == elements.Length && Filled(elements[..])
    }

    ghost function Map(): map<int, string>
      reads this, elements
    {
      SlotMap(elements[..])
    }

    constructor ()
      ensures Valid() && fresh(elements) && Map() == map[]
    {
      maxIndex, firstIndex, numElements, allocSize := -1, -1, 0, 0;
      elements := new Slot[0];
      new;
      SlotsEmpty(elements[..]);
    }

    /** Reallocates and clears the new slots.  Nothing is lost exactly when n reaches the greatest index;
        below it the slots from n on are cut off and the bounds no longer hold. */
    method Resize(n: nat)
      requires Valid()
      modifies this`elements, this`allocSize
      ensures allocSize == elements.Length && (elements == old(elements) || fresh(elements))
      ensures n >= maxIndex ==> Valid() && Map() == old(Map()) && allocSize >= n
      ensures n < maxIndex ==> !Valid() && elements[..] == old(elements[..])[..n]
      ensures old(allocSize) > 0 && maxIndex <= n <= old(allocSize) ==> elements == old(elements)
      ensures n > old(allocSize) ==> allocSize == n
    {
      hide Filled, SlotMap;
      if allocSize > 0 && n >= maxIndex && n <= allocSize {
        return;
      }
      var e := Realloc(n);
      ghost var s := elements[..];
      var i := allocSize;
      while i < n
        modifies e
        invariant allocSize <= i && (i <= n || i == allocSize)
        invariant e[..Min(n, allocSize)] == s[..Min(n, allocSize)]
        invariant forall k | allocSize <= k < i && k < n :: e[k].None?
      {
        e[i] := None;
        i := i + 1;
      }
      TooShort(s, e[..]);
      if n >= allocSize {
        assert s[..allocSize] == s;
        StillFilled(s, e[..]);
      }
      elements := e;
      allocSize := n;
    }

    /** Further empty slots change nothing; fewer slots than the greatest index needs are too few. */
    lemma StillFilled(s: seq<Slot>, t: seq<Slot>)
      requires Filled(s) && |s| <= |t| && t[..|s|] == s && forall k | |s| <= k < |t| :: t[k].None?
      ensures Filled(t) && SlotMap(t) == SlotMap(s)
    {
      SlotsGrown(s, t);
      hide SlotMap;
      assert forall k | 0 <= k < |s| :: t[k] == s[k];
    }

    lemma TooShort(s: seq<Slot>, t: seq<Slot>)
      requires Filled(s)
      ensures maxIndex < |s| && (|t| <= maxIndex ==> !Filled(t))
    {
    }

    /** `xrealloc`: the first slots are kept. */
    method Realloc(n: nat) returns (e: array<Slot>)
      requires Valid()
      ensures fresh(e) && e.Length == n && e[..Min(n, allocSize)] == elements[..Min(n, allocSize)]
    {
      e := new Slot[n];
      var i := 0;
      while i < n && i < allocSize
        invariant 0 <= i <= Min(n, allocSize) && e[..i] == elements[..i]
      {
        e[i] := elements[i];
        i := i + 1;
      }
    }

    method Expand(n: nat)
      requires Valid()
      modifies this`elements, this`allocSize
      ensures Valid() && Map() == old(Map()) && n < allocSize == elements.Length
      ensures n < old(allocSize) ==> elements == old(elements)
      ensures n >= old(allocSize) ==>
        var size := Doubled(if old(allocSize) > 0 then old(allocSize) else DEFAULT_SIZE, n);
        allocSize == if size > MAX_DOUBLE then n + DEFAULT_SIZE else size
      ensures elements == old(elements) || fresh(elements)
    {
      if n >= allocSize {
        var nsize := if allocSize > 0 then allocSize else DEFAULT_SIZE;
        ghost var size := nsize;
        DoubledBounds(size, n);
        while n >= nsize
          modifies {}
          invariant nsize > 0 && Doubled(nsize, n) == Doubled(size, n)
          decreases n - nsize
        {
          nsize := 2 * nsize;
        }
        if nsize > MAX_DOUBLE {
          nsize := n + DEFAULT_SIZE;
        }
        Resize(nsize);
      }
    }

    /** Returns 0 for a replacement and, unlike the ring, -1 for a new element. */
    method Insert(i: nat, v: string) returns (r: int)
      requires Valid()
      modifies this, elements
      ensures Valid() && Map() == old(Map())[i := v]
      ensures r == if i in old(Map()) then 0 else -1
      ensures elements == old(elements) || fresh(elements)
    {
      if i >= allocSize {
        Expand(i);
      }
      r := Place(i, v);
    }

    method Place(i: nat, v: string) returns (r: int)
      requires Valid() && i < allocSize
      modifies this`maxIndex, this`firstIndex, this`numElements, elements
      ensures Valid() && Map() == old(Map())[i := v]
      ensures r == if i in old(Map()) then 0 else -1
    {
      hide SlotMap;
      SlotSet(elements[..], i, Pair(i, v));
      SlotFilled(elements[..], i);
      ghost var s := elements[..];
      var slot := elements[i];
      elements[i] := Some(Pair(i, v));
      assert elements[..] == s[i := Some(Pair(i, v))];
      if i > maxIndex {
        maxIndex := i;
      }
      if firstIndex < 0 || i < firstIndex {
        firstIndex := i;
      }
      if slot.Some? {
        return 0;
      }
      numElements := numElements + 1;
      return -1;
    }

    method Reference(i: int) returns (r: Option<string>)
      requires Valid()
      ensures r == Lookup(Map(), i)
    {
      if numElements == 0 {
        return None;
      }
      if i > maxIndex || i < firstIndex {
        return None;
      }
      return if elements[i].Some? then Some(elements[i].value.value) else None;
    }

    method Flush()
      requires Valid()
      modifies this, elements
      ensures Valid() && Map() == map[] && elements == old(elements)
    {
      SlotsEmpty(elements[..]);
      if numElements == 0 {
        maxIndex, firstIndex := -1, -1;
        return;
      }
      var r := firstIndex;
      while r <= maxIndex
        modifies elements
        invariant firstIndex <= r <= maxIndex + 1
        invariant forall k | 0 <= k < elements.Length && (k < r || k > maxIndex) :: elements[k].None?
      {
        elements[r] := None;
        r := r + 1;
      }
      SlotsEmpty(elements[..]);
      maxIndex, firstIndex, numElements := -1, -1, 0;
    }

    method Remove(i: int) returns (r: Option<Pair>)
      requires Valid()
      modifies this, elements
      ensures Valid() && Map() == old(Map()) - {i} && elements == old(elements)
      ensures r == if i in old(Map()) then Some(Pair(i, old(Map())[i])) else None
    {
      if numElements == 0 {
        return None;
      }
      if i > maxIndex || i < firstIndex {
        return None;
      }
      SlotCleared(elements[..], i);
      assert elements[i].Some? <==> i in Map();
      hide SlotMap;
      r := elements[i];
      ghost var s := elements[..];
      elements[i] := None;
      assert elements[..] == s[i := None];
      if r.Some? {
        numElements := numElements - 1;
        Rebound(i);
      }
    }

    /** Brings the bounds up to date once slot i is empty. After the last removal the lower bound is 0,
        not the -1 of a new array. */
    method Rebound(i: nat)
      requires allocSize == elements.Length && 0 <= firstIndex <= i <= maxIndex < elements.Length && elements[i].None?
      requires forall k | 0 <= k < elements.Length && elements[k].Some? ::
          elements[k].value.ind == k && firstIndex <= k <= maxIndex
      requires i < maxIndex ==> elements[maxIndex].Some?
      requires numElements == |SlotMap(elements[..])|
      modifies this`firstIndex, this`maxIndex
      ensures Valid() && (numElements == 0 ==> firstIndex == 0 && maxIndex == -1)
    {
      SlotsEmpty(elements[..]);
      hide SlotMap;
      if numElements == 0 {
        firstIndex := if maxIndex == -1 then 1 else 0;
      }
      if i == maxIndex {
        maxIndex := ScanDown(i);
      }
      if i == firstIndex {
        firstIndex := ScanUp(i);
      }
    }

    method ScanDown(i: nat) returns (ind: int)
      requires 0 <= firstIndex <= i < elements.Length
      ensures firstIndex - 1 <= ind <= i && forall k | ind < k <= i :: elements[k].None?
      ensures ind >= firstIndex ==> elements[ind].Some?
    {
      ind := i;
      while ind >= firstIndex && elements[ind].None?
        invariant firstIndex - 1 <= ind <= i
        invariant forall k | ind < k <= i :: elements[k].None?
      {
        ind := ind - 1;
      }
    }

    method ScanUp(i: nat) returns (ind: nat)
      requires maxIndex < elements.Length
      ensures i <= ind && forall k | i <= k < ind :: k < elements.Length && elements[k].None?
      ensures ind <= maxIndex ==> elements[ind].Some?
      ensures ind == i || ind <= maxIndex + 1
    {
      ind := i;
      while ind <= maxIndex && elements[ind].None?
        invariant ind == i || i <= ind <= maxIndex + 1
        invariant forall k | i <= k < ind :: k < elements.Length && elements[k].None?
      {
        ind := ind + 1;
      }
    }
  }
}
