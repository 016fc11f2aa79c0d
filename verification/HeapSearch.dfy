/** Searching a heap: elements that will not do are popped aside and pushed back later. */
module HeapSearch {
  import opened Heap

  datatype Search = Search(rest: seq<int>, skipped: seq<int>)

  /** Pops elements aside while the root is full. */
  function SkipFull(heap: seq<int>, full: int -> bool, lower: Order): (s: Search)
    ensures |s.rest| + |s.skipped| == |heap|
    ensures s.rest != [] ==> !full(s.rest[0])
    ensures s.rest == heap <==> s.skipped == []
    decreases |heap|
  {
    if heap != [] && full(heap[0]) then
      var s := SkipFull(Pop(heap, lower), full, lower);
      Search(s.rest, [heap[0]] + s.skipped)
    else Search(heap, [])
  }

  lemma {:induction false} SkipFullContents(heap: seq<int>, full: int -> bool, lower: Order)
    ensures var s := SkipFull(heap, full, lower);
            multiset(s.rest) + multiset(s.skipped) == multiset(heap)
    decreases |heap|
  {
    if heap != [] && full(heap[0]) {
      PopContents(heap, lower);
      SkipFullContents(Pop(heap, lower), full, lower);
    }
  }

  lemma {:induction false} SkipFullMembers(heap: seq<int>, full: int -> bool, lower: Order)
    ensures var s := SkipFull(heap, full, lower);
            && (forall x :: x in heap <==> x in s.rest || x in s.skipped)
            && (forall x :: x in s.skipped ==> full(x))
    decreases |heap|
  {
    if heap != [] && full(heap[0]) {
      PopMembers(heap, lower);
      SkipFullMembers(Pop(heap, lower), full, lower);
    }
  }

  /** Elements are popped aside in key order: none of them outranks what is left. */
  lemma {:induction false} SkipFullOrder(heap: seq<int>, full: int -> bool, lower: Order, key: Key)
    requires ByKey(lower, key) && Heaped(heap, key)
    ensures var s := SkipFull(heap, full, lower);
            && Heaped(s.rest, key)
            && forall x, y :: x in s.skipped && y in s.rest ==> key(x) <= key(y)
    decreases |heap|
  {
    if heap != [] && full(heap[0]) {
      PopOrder(heap, lower, key);
      SkipFullOrder(Pop(heap, lower), full, lower, key);
      var s := SkipFull(Pop(heap, lower), full, lower);
      PopMembers(heap, lower);
      SkipFullMembers(Pop(heap, lower), full, lower);
      forall y | y in s.rest
        ensures key(heap[0]) <= key(y)
      {
        var i :| 0 <= i < |heap| && heap[i] == y;
        RootLeast(heap, key, i);
      }
    }
  }

  lemma RestoredContents(heap: seq<int>, full: int -> bool, lower: Order)
    ensures var s := SkipFull(heap, full, lower);
            multiset(PushAll(s.rest, s.skipped, lower)) == multiset(heap)
  {
    var s := SkipFull(heap, full, lower);
    SkipFullContents(heap, full, lower);
    PushAllContents(s.rest, s.skipped, lower);
  }

  /** After the skipped elements are back, the found one is still at the root iff it ties with them all. */
  lemma RestoredRoot(heap: seq<int>, full: int -> bool, lower: Order, key: Key)
    requires ByKey(lower, key) && Heaped(heap, key) && SkipFull(heap, full, lower).rest != []
    ensures var s := SkipFull(heap, full, lower);
            PushAll(s.rest, s.skipped, lower)[0] == s.rest[0]
            <==> forall x :: x in s.skipped ==> key(x) == key(s.rest[0])
  {
    var s := SkipFull(heap, full, lower);
    var restored := PushAll(s.rest, s.skipped, lower);
    SkipFullOrder(heap, full, lower, key);
    if forall x :: x in s.skipped ==> key(x) == key(s.rest[0]) {
      forall x | x in s.skipped
        ensures !lower(s.rest[0], x)
      {
        ByKeyAt(lower, key, s.rest[0], x);
      }
      PushAllKeepsRoot(s.rest, s.skipped, lower);
    } else {
      var x :| x in s.skipped && key(x) != key(s.rest[0]);
      PushAllOrder(s.rest, s.skipped, lower, key);
      PushAllMembers(s.rest, s.skipped, lower);
      var i :| 0 <= i < |restored| && restored[i] == x;
      RootLeast(restored, key, i);
    }
  }

  // ---------- the loops ----------

  method Restore(a: seq<int>, xs: seq<int>, lower: Order) returns (r: seq<int>)
    ensures r == PushAll(a, xs, lower)
  {
    r := a;
    for i := 0 to |xs|
      invariant PushAll(r, xs[i..], lower) == PushAll(a, xs, lower)
    {
      assert xs[i..][1..] == xs[i + 1..];
      r := PushHeap(r, xs[i], lower);
    }
  }

  /** The search of `heap` has put `skipped` aside and goes on with `rest`. */
  ghost predicate Skipping(heap: seq<int>, rest: seq<int>, skipped: seq<int>, full: int -> bool, lower: Order)
  {
    var s := SkipFull(rest, full, lower);
    SkipFull(heap, full, lower) == Search(s.rest, skipped + s.skipped)
  }

  lemma SkipOne(heap: seq<int>, rest: seq<int>, skipped: seq<int>, full: int -> bool, lower: Order)
    requires rest != [] && full(rest[0]) && Skipping(heap, rest, skipped, full, lower)
    ensures Skipping(heap, Pop(rest, lower), skipped + [rest[0]], full, lower)
  {
  }

  lemma SkipDone(heap: seq<int>, rest: seq<int>, skipped: seq<int>, full: int -> bool, lower: Order)
    requires Skipping(heap, rest, skipped, full, lower) && (rest == [] || !full(rest[0]))
    ensures SkipFull(heap, full, lower) == Search(rest, skipped)
  {
  }
}
