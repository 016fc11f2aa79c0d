/**
 The binary heap behind std::priority_queue, as an array. `lower(x, y)` is the comparator: x ranks
 below y. Pop moves the hole from the root to a leaf before it sifts the last element in, so it
 never compares the element it removes.
 */
module Heap {

  type Order = (int, int) -> bool
  type Key = int -> int

  // ---------- the operations ----------

  /** Moves the hole towards the root until v may stand there. */
  function SiftUp(a: seq<int>, hole: nat, v: int, lower: Order): (r: seq<int>)
    requires hole < |a|
    ensures |r| == |a|
    decreases hole
  {
    var parent := (hole - 1) / 2;
    if hole > 0 && lower(a[parent], v) then SiftUp(a[hole := a[parent]], parent, v, lower)
    else a[hole := v]
  }

  function BetterChild(a: seq<int>, hole: nat, lower: Order): (child: nat)
    requires 2 * hole + 1 < |a|
    ensures 2 * hole + 1 <= child <= 2 * hole + 2 && child < |a|
  {
    var right := 2 * hole + 2;
    if right < |a| && !lower(a[right], a[right - 1]) then right else right - 1
  }

  /** Where the hole ends, and the array with the elements it passed moved up. */
  function SinkHole(a: seq<int>, hole: nat, lower: Order): (r: (seq<int>, nat))
    requires hole < |a|
    ensures |r.0| == |a| && r.1 < |a|
    decreases |a| - hole
  {
    if 2 * hole + 1 < |a| then
      var child := BetterChild(a, hole, lower);
      SinkHole(a[hole := a[child]], child, lower)
    else (a, hole)
  }

  function Push(a: seq<int>, x: int, lower: Order): (r: seq<int>)
    ensures |r| == |a| + 1
  {
    SiftUp(a + [x], |a|, x, lower)
  }

  function Pop(a: seq<int>, lower: Order): (r: seq<int>)
    requires a != []
    ensures |r| == |a| - 1
  {
    if |a| == 1 then []
    else
      var last := a[|a| - 1];
      var sunk := SinkHole(a[..|a| - 1], 0, lower);
      SiftUp(sunk.0, sunk.1, last, lower)
  }

  function PushAll(a: seq<int>, xs: seq<int>, lower: Order): (r: seq<int>)
    ensures |r| == |a| + |xs|
    decreases |xs|
  {
    if xs == [] then a else PushAll(Push(a, xs[0], lower), xs[1..], lower)
  }

  method PushHeap(a: seq<int>, x: int, lower: Order) returns (r: seq<int>)
    ensures r == Push(a, x, lower)
  {
    r := a + [x];
    var hole := |a|;
    while hole > 0 && lower(r[(hole - 1) / 2], x)
      invariant 0 <= hole < |r| == |a| + 1
      invariant SiftUp(r, hole, x, lower) == Push(a, x, lower)
    {
      r := r[hole := r[(hole - 1) / 2]];
      hole := (hole - 1) / 2;
    }
    r := r[hole := x];
  }

  method PopHeap(a: seq<int>, lower: Order) returns (r: seq<int>)
    requires a != []
    ensures r == Pop(a, lower)
  {
    if |a| == 1 {
      return [];
    }
    var last := a[|a| - 1];
    r := a[..|a| - 1];
    var hole := 0;
    while 2 * hole + 1 < |r|
      invariant hole < |r| == |a| - 1
      invariant SinkHole(r, hole, lower) == SinkHole(a[..|a| - 1], 0, lower)
      decreases |r| - hole
    {
      var child := BetterChild(r, hole, lower);
      r := r[hole := r[child]];
      hole := child;
    }
    ghost var sunk := r;
    ghost var start := hole;
    while hole > 0 && lower(r[(hole - 1) / 2], last)
      invariant 0 <= hole < |r|
      invariant SiftUp(r, hole, last, lower) == SiftUp(sunk, start, last, lower)
    {
      r := r[hole := r[(hole - 1) / 2]];
      hole := (hole - 1) / 2;
    }
    r := r[hole := last];
  }

  // ---------- contents: any comparator ----------

  lemma MoveInto(a: seq<int>, i: nat, j: nat, v: int)
    requires i < |a| && j < |a|
    ensures multiset(a[i := a[j]][j := v]) == multiset(a[i := v])
  {
  }

  lemma {:induction false} SiftUpContents(a: seq<int>, hole: nat, v: int, lower: Order)
    requires hole < |a|
    ensures multiset(SiftUp(a, hole, v, lower)) == multiset(a[hole := v])
    decreases hole
  {
    var parent := (hole - 1) / 2;
    if hole > 0 && lower(a[parent], v) {
      SiftUpContents(a[hole := a[parent]], parent, v, lower);
      MoveInto(a, hole, parent, v);
    }
  }

  lemma {:induction false} SinkHoleContents(a: seq<int>, hole: nat, v: int, lower: Order)
    requires hole < |a|
    ensures var s := SinkHole(a, hole, lower); multiset(s.0[s.1 := v]) == multiset(a[hole := v])
    decreases |a| - hole
  {
    if 2 * hole + 1 < |a| {
      var child := BetterChild(a, hole, lower);
      SinkHoleContents(a[hole := a[child]], child, v, lower);
      MoveInto(a, hole, child, v);
    }
  }

  lemma PushContents(a: seq<int>, x: int, lower: Order)
    ensures multiset(Push(a, x, lower)) == multiset(a) + multiset{x}
  {
    SiftUpContents(a + [x], |a|, x, lower);
    assert (a + [x])[|a| := x] == a + [x];
  }

  lemma ReplaceFirst(a: seq<int>, v: int)
    requires a != []
    ensures multiset(a[0 := v]) + multiset{a[0]} == multiset(a) + multiset{v}
  {
  }

  /** Whatever the comparator, pop takes out the first element of the array and nothing else. */
  lemma PopContents(a: seq<int>, lower: Order)
    requires a != []
    ensures multiset(Pop(a, lower)) + multiset{a[0]} == multiset(a)
  {
    if |a| == 1 {
      assert a == [a[0]];
    } else {
      var init, last := a[..|a| - 1], a[|a| - 1];
      var s := SinkHole(init, 0, lower);
      SinkHoleContents(init, 0, last, lower);
      SiftUpContents(s.0, s.1, last, lower);
      ReplaceFirst(init, last);
      assert a == init + [last];
    }
  }

  lemma {:induction false} PushAllContents(a: seq<int>, xs: seq<int>, lower: Order)
    ensures multiset(PushAll(a, xs, lower)) == multiset(a) + multiset(xs)
    decreases |xs|
  {
    if xs != [] {
      PushContents(a, xs[0], lower);
      PushAllContents(Push(a, xs[0], lower), xs[1..], lower);
      assert xs == [xs[0]] + xs[1..];
    }
  }

  // ---------- members: any comparator ----------

  lemma SameMembers(a: seq<int>, m: multiset<int>)
    requires multiset(a) == m
    ensures forall x :: x in a <==> x in m
  {
  }

  lemma PushMembers(a: seq<int>, x: int, lower: Order)
    ensures forall y :: y in Push(a, x, lower) <==> y == x || y in a
  {
    PushContents(a, x, lower);
    SameMembers(Push(a, x, lower), multiset(a) + multiset{x});
  }

  lemma PopMembers(a: seq<int>, lower: Order)
    requires a != []
    ensures forall y :: y in Pop(a, lower) ==> y in a
    ensures forall y :: y in a && y != a[0] ==> y in Pop(a, lower)
  {
    PopContents(a, lower);
    forall y
      ensures y in a <==> y in Pop(a, lower) || y == a[0]
    {
      assert y in a <==> y in multiset(a);
      assert y in Pop(a, lower) <==> y in multiset(Pop(a, lower));
    }
  }

  lemma {:induction false} PushAllMembers(a: seq<int>, xs: seq<int>, lower: Order)
    ensures forall y :: y in PushAll(a, xs, lower) <==> y in a || y in xs
    decreases |xs|
  {
    if xs != [] {
      PushMembers(a, xs[0], lower);
      PushAllMembers(Push(a, xs[0], lower), xs[1..], lower);
      assert xs == [xs[0]] + xs[1..];
    }
  }

  /** The root leaves and x comes in. */
  function Requeue(a: seq<int>, x: int, lower: Order): (r: seq<int>)
    requires a != []
    ensures |r| == |a|
  {
    Push(Pop(a, lower), x, lower)
  }

  lemma RequeueContents(a: seq<int>, x: int, lower: Order)
    requires a != []
    ensures multiset(Requeue(a, x, lower)) + multiset{a[0]} == multiset(a) + multiset{x}
    ensures forall y :: y in Requeue(a, x, lower) ==> y == x || y in a
  {
    PopContents(a, lower);
    PushContents(Pop(a, lower), x, lower);
    PopMembers(a, lower);
    PushMembers(Pop(a, lower), x, lower);
  }

  /** Requeueing keeps the contents exactly when what comes in is what stood at the root. */
  lemma RequeueKeepsIff(a: seq<int>, x: int, lower: Order)
    requires a != []
    ensures multiset(Requeue(a, x, lower)) == multiset(a) <==> x == a[0]
  {
    RequeueContents(a, x, lower);
    SwapKeeps(multiset(a), a[0], x, multiset(Requeue(a, x, lower)));
  }

  lemma SwapKeeps(m: multiset<int>, gone: int, come: int, m': multiset<int>)
    requires m' + multiset{gone} == m + multiset{come}
    ensures m' == m <==> gone == come
  {
    if m' == m {
      assert (m + multiset{gone})[gone] == (m + multiset{come})[gone];
    } else if gone == come {
      assert forall x :: m'[x] == (m' + multiset{gone})[x] - multiset{gone}[x];
      assert forall x :: m[x] == (m + multiset{gone})[x] - multiset{gone}[x];
    }
  }

  // ---------- order: comparators that compare a key ----------

  ghost predicate ByKey(lower: Order, key: Key)
  {
    forall x, y :: lower(x, y) <==> key(x) > key(y)
  }

  lemma ByKeyAt(lower: Order, key: Key, x: int, y: int)
    requires ByKey(lower, key)
    ensures lower(x, y) <==> key(x) > key(y)
  {
  }

  predicate Child(parent: nat, child: nat)
  {
    child == 2 * parent + 1 || child == 2 * parent + 2
  }

  /** Every element ranks at least as high as its children. */
  ghost predicate Heaped(a: seq<int>, key: Key)
  {
    forall p: nat, c: nat :: Child(p, c) && c < |a| ==> key(a[p]) <= key(a[c])
  }

  /** Heap order everywhere except between the root and its children. */
  ghost predicate HeapedBelowRoot(a: seq<int>, key: Key)
  {
    forall p: nat, c: nat :: Child(p, c) && 0 < p && c < |a| ==> key(a[p]) <= key(a[c])
  }

  lemma {:induction false} RootLeast(a: seq<int>, key: Key, i: nat)
    requires Heaped(a, key) && i < |a|
    ensures key(a[0]) <= key(a[i])
    decreases i
  {
    if i > 0 {
      RootLeast(a, key, (i - 1) / 2);
      assert Child((i - 1) / 2, i);
    }
  }

  /** Heap order among the elements other than the hole, and across it. */
  ghost predicate HeapedAround(a: seq<int>, hole: nat, key: Key)
  {
    && (forall p: nat, c: nat :: Child(p, c) && c < |a| && p != hole && c != hole ==> key(a[p]) <= key(a[c]))
    && (forall p: nat, c: nat :: Child(p, hole) && Child(hole, c) && c < |a| ==> key(a[p]) <= key(a[c]))
  }

  lemma {:induction false} SiftUpOrder(a: seq<int>, hole: nat, v: int, lower: Order, key: Key)
    requires hole < |a| && ByKey(lower, key) && HeapedAround(a, hole, key)
    requires forall c: nat :: Child(hole, c) && c < |a| ==> key(v) <= key(a[c])
    ensures Heaped(SiftUp(a, hole, v, lower), key)
    decreases hole
  {
    if hole > 0 && lower(a[(hole - 1) / 2], v) {
      var parent: nat := (hole - 1) / 2;
      assert Child(parent, hole);
      RaiseHole(a, hole, parent, key);
      var b := a[hole := a[parent]];
      ByKeyAt(lower, key, a[parent], v);
      forall c: nat | Child(parent, c) && c < |b|
        ensures key(v) <= key(b[c])
      {
        assert c == hole || key(a[parent]) <= key(a[c]);
      }
      SiftUpOrder(b, parent, v, lower, key);
    } else {
      var b := a[hole := v];
      if hole > 0 {
        ByKeyAt(lower, key, a[(hole - 1) / 2], v);
      }
      forall p: nat, c: nat | Child(p, c) && c < |b|
        ensures key(b[p]) <= key(b[c])
      {
        if c == hole {
          assert p == (hole - 1) / 2;
        }
      }
    }
  }

  /** The hole goes up: the parent drops into it. */
  lemma RaiseHole(a: seq<int>, hole: nat, parent: nat, key: Key)
    requires hole < |a| && Child(parent, hole) && HeapedAround(a, hole, key)
    ensures HeapedAround(a[hole := a[parent]], parent, key)
  {
  }

  /** The hole goes down: the better child rises into it. */
  lemma LowerHole(a: seq<int>, hole: nat, child: nat, key: Key)
    requires child < |a| && Child(hole, child) && HeapedAround(a, hole, key)
    requires forall c: nat :: Child(hole, c) && c < |a| ==> key(a[child]) <= key(a[c])
    ensures HeapedAround(a[hole := a[child]], child, key)
  {
  }

  lemma {:induction false} SinkHoleOrder(a: seq<int>, hole: nat, lower: Order, key: Key)
    requires hole < |a| && ByKey(lower, key) && HeapedAround(a, hole, key)
    ensures var s := SinkHole(a, hole, lower);
            HeapedAround(s.0, s.1, key) && 2 * s.1 + 1 >= |a|
    decreases |a| - hole
  {
    if 2 * hole + 1 < |a| {
      var child := BetterChild(a, hole, lower);
      forall c: nat | Child(hole, c) && c < |a|
        ensures key(a[child]) <= key(a[c])
      {
        var right := 2 * hole + 2;
        if right < |a| {
          ByKeyAt(lower, key, a[right], a[right - 1]);
        }
      }
      LowerHole(a, hole, child, key);
      SinkHoleOrder(a[hole := a[child]], child, lower, key);
    }
  }

  lemma PushOrder(a: seq<int>, x: int, lower: Order, key: Key)
    requires ByKey(lower, key) && Heaped(a, key)
    ensures Heaped(Push(a, x, lower), key)
  {
    SiftUpOrder(a + [x], |a|, x, lower, key);
  }

  /** Pop restores heap order even when the root's own key was changed just before. */
  lemma PopOrder(a: seq<int>, lower: Order, key: Key)
    requires a != [] && ByKey(lower, key) && HeapedBelowRoot(a, key)
    ensures Heaped(Pop(a, lower), key)
  {
    if |a| > 1 {
      var init := a[..|a| - 1];
      SinkHoleOrder(init, 0, lower, key);
      var s := SinkHole(init, 0, lower);
      SiftUpOrder(s.0, s.1, a[|a| - 1], lower, key);
    }
  }

  lemma {:induction false} PushAllOrder(a: seq<int>, xs: seq<int>, lower: Order, key: Key)
    requires ByKey(lower, key) && Heaped(a, key)
    ensures Heaped(PushAll(a, xs, lower), key)
    decreases |xs|
  {
    if xs != [] {
      PushOrder(a, xs[0], lower, key);
      PushAllOrder(Push(a, xs[0], lower), xs[1..], lower, key);
    }
  }

  // ---------- what stands at the root after pushes ----------

  /** An element that does not outrank the root does not take its place. */
  lemma {:induction false} SiftUpKeepsRoot(a: seq<int>, hole: nat, v: int, lower: Order)
    requires 0 < hole < |a| && !lower(a[0], v)
    ensures SiftUp(a, hole, v, lower)[0] == a[0]
    decreases hole
  {
    var parent := (hole - 1) / 2;
    if lower(a[parent], v) {
      SiftUpKeepsRoot(a[hole := a[parent]], parent, v, lower);
    }
  }

  /** An element that outranks all others goes to the root. */
  lemma {:induction false} SiftUpToRoot(a: seq<int>, hole: nat, v: int, lower: Order)
    requires hole < |a| && forall i: nat | i < hole :: lower(a[i], v)
    ensures SiftUp(a, hole, v, lower)[0] == v
    decreases hole
  {
    if hole > 0 {
      var parent := (hole - 1) / 2;
      SiftUpToRoot(a[hole := a[parent]], parent, v, lower);
    }
  }

  lemma PushToRoot(a: seq<int>, v: int, lower: Order)
    requires forall x :: x in a ==> lower(x, v)
    ensures Push(a, v, lower)[0] == v
  {
    forall i: nat | i < |a| ensures lower((a + [v])[i], v) {
      var x := a[i];
      assert x in a;
    }
    SiftUpToRoot(a + [v], |a|, v, lower);
  }

  lemma {:induction false} PushAllKeepsRoot(a: seq<int>, xs: seq<int>, lower: Order)
    requires a != [] && forall x :: x in xs ==> !lower(a[0], x)
    ensures PushAll(a, xs, lower)[0] == a[0]
    decreases |xs|
  {
    if xs != [] {
      SiftUpKeepsRoot(a + [xs[0]], |a|, xs[0], lower);
      PushAllKeepsRoot(Push(a, xs[0], lower), xs[1..], lower);
    }
  }
}
