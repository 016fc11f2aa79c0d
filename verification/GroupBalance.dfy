/** From freshly built heaps, while no group is near-full, every run of allocations stays balanced. */
module GroupBalance {
  import Words
  import opened Heap
  import opened HeapSearch
  import opened Groups
  import opened GroupAccounting
  import opened Common

  /** None of the groups is full. */
  ghost predicate Roomy(order: seq<int>, full: int -> bool)
  {
    forall x :: x in order ==> !full(x)
  }

  // ---------- distinct elements ----------

  lemma DistinctMultiset(a: seq<int>)
    requires Distinct(a)
    ensures forall x :: multiset(a)[x] <= 1
  {
    forall x
      ensures multiset(a)[x] <= 1
    {
      DistinctCount(a, x);
    }
  }

  lemma {:induction false} DistinctCount(a: seq<int>, x: int)
    requires Distinct(a)
    ensures multiset(a)[x] == if x in a then 1 else 0
  {
    if a != [] {
      var n := |a| - 1;
      assert a == a[..n] + [a[n]];
      DistinctCount(a[..n], x);
    }
  }

  lemma MultisetDistinct(a: seq<int>)
    requires forall x :: multiset(a)[x] <= 1
    ensures Distinct(a)
  {
    forall i, j | 0 <= i < j < |a|
      ensures a[i] != a[j]
    {
      assert a == a[..j] + [a[j]] + a[j + 1..];
      assert a[i] in a[..j];
      assert a[i] in multiset(a[..j]);
      assert multiset(a)[a[j]] >= multiset(a[..j])[a[j]] + 1;
    }
  }

  lemma SameContentsDistinct(a: seq<int>, b: seq<int>)
    requires Distinct(a) && multiset(a) == multiset(b)
    ensures Distinct(b)
    ensures forall x :: x in a <==> x in b
  {
    DistinctMultiset(a);
    MultisetDistinct(b);
    SameMembers(a, multiset(b));
  }

  // ---------- a heap whose root was raised ----------

  lemma RequeueOrder(a: seq<int>, lower: Order, key: Key)
    requires a != [] && ByKey(lower, key) && HeapedBelowRoot(a, key)
    ensures Heaped(Requeue(a, a[0], lower), key)
  {
    PopOrder(a, lower, key);
    PushOrder(Pop(a, lower), a[0], lower, key);
  }

  /** The root of an ordered heap was raised; re-queueing it restores order and keeps every member. */
  lemma RaisedRoot(a: seq<int>, lower: Order, key: Key, before: Key)
    requires a != [] && Distinct(a) && Heaped(a, before) && ByKey(lower, key)
    requires forall x :: x in a && x != a[0] ==> key(x) == before(x)
    ensures Heaped(Requeue(a, a[0], lower), key)
    ensures multiset(Requeue(a, a[0], lower)) == multiset(a)
  {
    forall p: nat, c: nat | Child(p, c) && 0 < p && c < |a|
      ensures key(a[p]) <= key(a[c])
    {
      assert a[p] != a[0] && a[c] != a[0];
    }
    RequeueOrder(a, lower, key);
    RequeueKeepsIff(a, a[0], lower);
  }

  // ---------- the balanced states ----------

  /** Counts within one of each other. */
  ghost predicate Level(heap: seq<int>, counts: map<int, nat>)
  {
    forall x, y :: x in heap && y in heap ==> Count(counts, x) <= Count(counts, y) + 1
  }

  ghost predicate GroupsBalanced(e: EsRg, counts: map<int, nat>)
  {
    e.weight > 0 && e.heap != [] && Distinct(e.heap) && Heaped(e.heap, CountKey(counts)) && Level(e.heap, counts)
  }

  /** The load a primary had before its last extent, if it has any. */
  function LoadBefore(esRgs: map<int, EsRg>, p: int): nat
  {
    if p in esRgs && esRgs[p].weight > 0 && esRgs[p].count > 0
    then 10000 * (esRgs[p].count - 1) / esRgs[p].weight else 0
  }

  /** No primary has run ahead: before its last extent none was more loaded than any other now. */
  ghost predicate Fair(esRgs: map<int, EsRg>)
  {
    forall i, j :: i in esRgs && j in esRgs && esRgs[i].count > 0 ==> LoadBefore(esRgs, i) <= Load(esRgs, j)
  }

  ghost predicate Balanced(st: State)
  {
    Consistent(st) && Even(st)
  }

  ghost predicate Even(st: State)
  {
    && st.esHeap != []
    && Distinct(st.esHeap)
    && (forall p :: p in st.esRgs <==> p in st.esHeap)
    && Heaped(st.esHeap, LoadKey(st.esRgs))
    && Fair(st.esRgs)
    && forall p :: p in st.esRgs ==> GroupsBalanced(st.esRgs[p], st.counts)
  }

  /** The two levels of heaps hold what they held. */
  ghost predicate SameHeapMembers(a: State, b: State)
  {
    && multiset(a.esHeap) == multiset(b.esHeap)
    && a.esRgs.Keys == b.esRgs.Keys
    && forall p :: p in a.esRgs ==> multiset(a.esRgs[p].heap) == multiset(b.esRgs[p].heap)
  }

  // ---------- one allocation ----------

  /** What a search does when the root group is not full. */
  lemma TakeRoot(heap: seq<int>, counts: map<int, nat>, full: int -> bool)
    requires heap != [] && !full(heap[0])
    ensures var counts' := counts[heap[0] := Count(counts, heap[0]) + 1];
            TakeGroup(heap, counts, full)
            == Taken(Requeue(heap, heap[0], MoreExtents(counts')), counts', Some(heap[0]))
  {
    assert SkipFull(heap, full, MoreExtents(counts)) == Search(heap, []);
  }

  ghost predicate TakenBalanced(e: EsRg, counts: map<int, nat>, t: Taken)
  {
    && e.heap != []
    && t.chosen == Some(e.heap[0])
    && t.counts == counts[e.heap[0] := Count(counts, e.heap[0]) + 1]
    && multiset(t.heap) == multiset(e.heap)
    && GroupsBalanced(EsRg(e.weight, e.count + 1, t.heap), t.counts)
  }

  lemma TakeFromBalanced(e: EsRg, counts: map<int, nat>, full: int -> bool)
    requires GroupsBalanced(e, counts) && !full(e.heap[0])
    ensures TakenBalanced(e, counts, TakeGroup(e.heap, counts, full))
  {
    TakeRoot(e.heap, counts, full);
    RequeuedBalanced(e, counts);
  }

  lemma RequeuedBalanced(e: EsRg, counts: map<int, nat>)
    requires GroupsBalanced(e, counts)
    ensures var counts' := counts[e.heap[0] := Count(counts, e.heap[0]) + 1];
            TakenBalanced(e, counts, Taken(Requeue(e.heap, e.heap[0], MoreExtents(counts')), counts', Some(e.heap[0])))
  {
    var counts' := counts[e.heap[0] := Count(counts, e.heap[0]) + 1];
    RaisedRoot(e.heap, MoreExtents(counts'), CountKey(counts'), CountKey(counts));
    TakenBalancedWith(e, counts, Requeue(e.heap, e.heap[0], MoreExtents(counts')));
  }

  lemma TakenBalancedWith(e: EsRg, counts: map<int, nat>, heap': seq<int>)
    requires GroupsBalanced(e, counts) && multiset(heap') == multiset(e.heap)
    requires Heaped(heap', CountKey(counts[e.heap[0] := Count(counts, e.heap[0]) + 1]))
    ensures TakenBalanced(e, counts, Taken(heap', counts[e.heap[0] := Count(counts, e.heap[0]) + 1], Some(e.heap[0])))
  {
    SameContentsDistinct(e.heap, heap');
    LevelAfter(e.heap, heap', counts);
    assert e.heap[0] in heap';
  }

  lemma LevelAfter(heap: seq<int>, heap': seq<int>, counts: map<int, nat>)
    requires heap != [] && Heaped(heap, CountKey(counts)) && Level(heap, counts)
    requires forall x :: x in heap' ==> x in heap
    ensures Level(heap', counts[heap[0] := Count(counts, heap[0]) + 1])
  {
    forall y | y in heap
      ensures Count(counts, heap[0]) <= Count(counts, y)
    {
      var i :| 0 <= i < |heap| && heap[i] == y;
      RootLeast(heap, CountKey(counts), i);
    }
  }

  /** The least loaded primary gains one extent. */
  lemma FairAfter(esRgs: map<int, EsRg>, p: int, heap: seq<int>)
    requires p in esRgs && Fair(esRgs)
    requires forall q :: q in esRgs ==> esRgs[q].weight > 0 && Load(esRgs, p) <= Load(esRgs, q)
    ensures Fair(esRgs[p := EsRg(esRgs[p].weight, esRgs[p].count + 1, heap)])
  {
    var e := esRgs[p];
    var after := esRgs[p := EsRg(e.weight, e.count + 1, heap)];
    Words.DivMonotone(10000 * e.count, 10000 * (e.count + 1), e.weight);
    forall i, j | i in after && j in after && after[i].count > 0
      ensures LoadBefore(after, i) <= Load(after, j)
    {
      assert Load(after, j) >= Load(esRgs, j);
      if i == p {
        assert LoadBefore(after, i) == Load(esRgs, p);
      } else {
        assert LoadBefore(after, i) == LoadBefore(esRgs, i);
      }
    }
  }

  lemma RootLeastLoaded(st: State)
    requires Even(st)
    ensures forall q :: q in st.esRgs ==>
              st.esRgs[q].weight > 0 && Load(st.esRgs, st.esHeap[0]) <= Load(st.esRgs, q)
  {
    forall q | q in st.esRgs
      ensures Load(st.esRgs, st.esHeap[0]) <= Load(st.esRgs, q)
    {
      var i :| 0 <= i < |st.esHeap| && st.esHeap[i] == q;
      RootLeast(st.esHeap, LoadKey(st.esRgs), i);
    }
  }

  /** Other primaries' groups do not see the count that changed. */
  lemma OthersBalanced(st: State, p: int, t: Taken)
    requires Balanced(st) && p in st.esRgs && TakenBalanced(st.esRgs[p], st.counts, t)
    ensures forall q :: q in Raised(st, p, t) ==> GroupsBalanced(Raised(st, p, t)[q], t.counts)
  {
    var x := st.esRgs[p].heap[0];
    assert EsRgOk(st, p) && Placed(st, p, x);
    forall q | q in st.esRgs && q != p
      ensures GroupsBalanced(st.esRgs[q], t.counts)
    {
      assert EsRgOk(st, q) && GroupsBalanced(st.esRgs[q], st.counts);
      assert forall y :: y in st.esRgs[q].heap ==> Placed(st, q, y) && Count(t.counts, y) == Count(st.counts, y);
    }
  }

  /** The state after the root primary gave a group: balanced, with the same members. */
  lemma FoundBalances(st: State, t: Taken, heap': seq<int>)
    requires Balanced(st) && st.esHeap[0] in st.esRgs && TakenBalanced(st.esRgs[st.esHeap[0]], st.counts, t)
    requires heap' == Requeue(st.esHeap, st.esHeap[0], MoreLoaded(Raised(st, st.esHeap[0], t)))
    ensures Even(Found(st, st.esHeap[0], t, heap').st) && SameHeapMembers(st, Found(st, st.esHeap[0], t, heap').st)
  {
    var p := st.esHeap[0];
    var esRgs := Raised(st, p, t);
    RaisedRoot(st.esHeap, MoreLoaded(esRgs), LoadKey(esRgs), LoadKey(st.esRgs));
    OthersBalanced(st, p, t);
    FoundEven(st, p, t, heap');
    FoundSameMembers(st, p, t, heap');
  }

  /** A search under the root primary finds its first group. */
  lemma RootGives(st: State, full: int -> bool)
    requires Balanced(st) && Roomy(st.order, full)
    ensures st.esHeap[0] in st.esRgs
    ensures var e := st.esRgs[st.esHeap[0]]; TakenBalanced(e, st.counts, TakeGroup(e.heap, st.counts, full))
  {
    var p := st.esHeap[0];
    assert p in st.esHeap;
    var e := st.esRgs[p];
    assert GroupsBalanced(e, st.counts);
    assert EsRgOk(st, p) && Placed(st, p, e.heap[0]);
    TakeFromBalanced(e, st.counts, full);
  }

  /** One allocation with no near-full group keeps the balance and every member of both heaps. */
  lemma AllocateBalances(st: State, full: int -> bool)
    requires Balanced(st) && Roomy(st.order, full)
    ensures Allocate(st, full).id.Some?
    ensures Balanced(Allocate(st, full).st)
    ensures SameHeapMembers(st, Allocate(st, full).st) && Allocate(st, full).st.order == st.order
  {
    var p := st.esHeap[0];
    RootGives(st, full);
    var t := TakeGroup(st.esRgs[p].heap, st.counts, full);
    AllocateAtRoot(st, t, full);
    FoundBalances(st, t, Requeue(st.esHeap, p, MoreLoaded(Raised(st, p, t))));
    AllocateAccounts(st, full);
  }

  lemma AllocateAtRoot(st: State, t: Taken, full: int -> bool)
    requires st.esHeap != [] && (forall p :: p in st.esHeap ==> p in st.esRgs) && st.esHeap[0] in st.esRgs
    requires t == TakeGroup(st.esRgs[st.esHeap[0]].heap, st.counts, full) && t.chosen.Some?
    ensures var p := st.esHeap[0];
            Allocate(st, full) == Found(st, p, t, Requeue(st.esHeap, p, MoreLoaded(Raised(st, p, t))))
  {
  }

  lemma FoundEven(st: State, p: int, t: Taken, heap': seq<int>)
    requires Even(st) && p == st.esHeap[0] && p in st.esRgs
    requires multiset(heap') == multiset(st.esHeap) && Heaped(heap', LoadKey(Raised(st, p, t)))
    requires forall q :: q in Raised(st, p, t) ==> GroupsBalanced(Raised(st, p, t)[q], t.counts)
    ensures Even(Found(st, p, t, heap').st)
  {
    SameContentsDistinct(st.esHeap, heap');
    RaisedFair(st, p, t);
  }

  lemma RaisedFair(st: State, p: int, t: Taken)
    requires Even(st) && p == st.esHeap[0] && p in st.esRgs
    ensures Fair(Raised(st, p, t))
    ensures forall q :: q in Raised(st, p, t) <==> q in st.esHeap
  {
    RootLeastLoaded(st);
    FairAfter(st.esRgs, p, t.heap);
  }

  lemma FoundSameMembers(st: State, p: int, t: Taken, heap': seq<int>)
    requires p in st.esRgs
    requires multiset(t.heap) == multiset(st.esRgs[p].heap) && multiset(heap') == multiset(st.esHeap)
    ensures SameHeapMembers(st, Found(st, p, t, heap').st)
  {
  }

  ghost predicate StaysBalanced(st: State, b: Batch)
  {
    b.ok && Balanced(b.st) && SameHeapMembers(st, b.st) && b.st.order == st.order
  }

  lemma RunStep(st: State, n: nat, step: State -> Allocation)
    requires n > 0 && StaysBalanced(st, Repeat(st, n - 1, step))
    requires var s := Repeat(st, n - 1, step).st;
             step(s).id.Some? && Balanced(step(s).st) && SameHeapMembers(s, step(s).st) && step(s).st.order == s.order
    ensures StaysBalanced(st, Repeat(st, n, step))
  {
  }

  lemma RunGoesOn(st: State, n: nat, full: int -> bool)
    requires Roomy(st.order, full) && StaysBalanced(st, AllocateMany(st, n, full))
    ensures StaysBalanced(st, AllocateMany(st, n + 1, full))
  {
    AllocatorBalances(Repeat(st, n, Allocator(full)).st, full);
    RunStep(st, n + 1, Allocator(full));
  }

  lemma {:induction false} StepByStep(holds: nat -> bool, n: nat)
    requires holds(0) && forall i: nat :: holds(i) ==> holds(i + 1)
    ensures holds(n)
  {
    if n > 0 {
      StepByStep(holds, n - 1);
    }
  }

  /** A run of n allocations: every one succeeds, and the balance and the members are kept. */
  lemma RunBalances(st: State, n: nat, full: int -> bool)
    requires Balanced(st) && Roomy(st.order, full)
    ensures StaysBalanced(st, AllocateMany(st, n, full))
  {
    var holds := (i: nat) => StaysBalanced(st, AllocateMany(st, i, full));
    forall i: nat | holds(i) ensures holds(i + 1) {
      RunGoesOn(st, i, full);
    }
    StepByStep(holds, n);
  }

  lemma AllocatorBalances(st: State, full: int -> bool)
    requires Balanced(st) && Roomy(st.order, full)
    ensures Allocator(full)(st).id.Some?
    ensures Balanced(Allocator(full)(st).st)
    ensures SameHeapMembers(st, Allocator(full)(st).st) && Allocator(full)(st).st.order == st.order
  {
    AllocateBalances(st, full);
  }
}
