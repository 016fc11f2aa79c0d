/**
 Which group an allocation chooses when some groups are near-full: with both levels of heaps in order, a
 group with the fewest extents under a primary with the least load, among those that have room.
 */
module GroupChoice {
  import opened Common
  import opened Heap
  import opened HeapSearch
  import opened Groups
  import opened GroupAccounting
  import opened GroupBalance

  /** The primary has a group that is not near-full. */
  ghost predicate HasRoomFor(esRgs: map<int, EsRg>, p: int, full: int -> bool)
  {
    p in esRgs && exists x :: x in esRgs[p].heap && !full(x)
  }

  /** The group is the least filled one with room under the primary. */
  ghost predicate LeastFilled(heap: seq<int>, counts: map<int, nat>, full: int -> bool, x: int)
  {
    x in heap && !full(x) && forall y :: y in heap && !full(y) ==> Count(counts, x) <= Count(counts, y)
  }

  /** No primary with room among these is less loaded. */
  ghost predicate LeastLoaded(esRgs: map<int, EsRg>, heap: seq<int>, full: int -> bool, p: int)
  {
    p in heap && forall q :: q in heap && HasRoomFor(esRgs, q, full) ==> Load(esRgs, p) <= Load(esRgs, q)
  }

  lemma TakesLeast(heap: seq<int>, counts: map<int, nat>, full: int -> bool)
    requires Heaped(heap, CountKey(counts))
    ensures var t := TakeGroup(heap, counts, full);
            t.chosen.Some? ==> LeastFilled(heap, counts, full, t.chosen.value)
  {
    var lower, key := MoreExtents(counts), CountKey(counts);
    var s := SkipFull(heap, full, lower);
    SkipFullOrder(heap, full, lower, key);
    SkipFullMembers(heap, full, lower);
    if s.rest != [] {
      forall y | y in heap && !full(y) ensures Count(counts, s.rest[0]) <= Count(counts, y) {
        assert y in s.rest;
        var i :| 0 <= i < |s.rest| && s.rest[i] == y;
        RootLeast(s.rest, key, i);
      }
      assert s.rest[0] in s.rest;
    }
  }

  /** Both levels of heaps are in order. */
  ghost predicate Orderly(st: State, heap: seq<int>)
  {
    && (forall p :: p in heap ==> p in st.esRgs && Heaped(st.esRgs[p].heap, CountKey(st.counts)))
    && Heaped(heap, LoadKey(st.esRgs))
  }

  lemma PopDistinct(heap: seq<int>, lower: Order)
    requires heap != [] && Distinct(heap)
    ensures Distinct(Pop(heap, lower)) && forall q :: q in Pop(heap, lower) <==> q in heap && q != heap[0]
  {
    var rest := Pop(heap, lower);
    PopContents(heap, lower);
    PopMembers(heap, lower);
    DistinctMultiset(heap);
    forall x ensures multiset(rest)[x] <= 1 {
      assert (multiset(rest) + multiset{heap[0]})[x] == multiset(heap)[x] <= 1;
    }
    MultisetDistinct(rest);
    assert multiset(heap)[heap[0]] <= 1;
    assert heap[0] !in multiset(rest);
  }

  lemma SameLoads(st: State, p: int, groups: seq<int>, key: Key)
    requires p in st.esRgs && forall q :: Load(st.esRgs, q) == key(q)
    ensures var st' := WithGroups(st, p, groups);
            ByKey(MoreLoaded(st'.esRgs), key) && forall q :: Load(st'.esRgs, q) == key(q)
  {
  }

  /** The group is the least filled one with room under some primary that is least loaded among those with room. */
  ghost predicate LeastChosen(st: State, heap: seq<int>, full: int -> bool, x: int)
  {
    exists p :: p in heap && LeastLoaded(st.esRgs, heap, full, p) && p in st.esRgs
                && LeastFilled(st.esRgs[p].heap, st.counts, full, x)
  }

  /** The search over the primaries, with `key` their loads. */
  lemma {:induction false} ChoosesLeastFrom(st: State, heap: seq<int>, skipped: seq<int>, full: int -> bool, key: Key)
    requires Distinct(heap) && Heaped(heap, key) && forall q :: Load(st.esRgs, q) == key(q)
    requires forall p :: p in heap ==> p in st.esRgs && Heaped(st.esRgs[p].heap, CountKey(st.counts))
    ensures var r := AllocateFrom(st, heap, skipped, full); r.id.Some? ==> LeastChosen(st, heap, full, r.id.value)
    decreases |heap|
  {
    if heap != [] {
      var p := heap[0];
      assert p in heap;
      var t := TakeGroup(st.esRgs[p].heap, st.counts, full);
      TakeGroupChoice(st.esRgs[p].heap, st.counts, full);
      if t.chosen.Some? {
        TakesLeast(st.esRgs[p].heap, st.counts, full);
        RootIsLeast(heap, key);
        assert LeastLoaded(st.esRgs, heap, full, p);
      } else {
        var st' := WithGroups(st, p, t.heap);
        var lower := MoreLoaded(st'.esRgs);
        SameLoads(st, p, t.heap, key);
        PopOrder(heap, lower, key);
        PopDistinct(heap, lower);
        ChoosesLeastFrom(st', Pop(heap, lower), skipped + [p], full, key);
        var r := AllocateFrom(st', Pop(heap, lower), skipped + [p], full);
        if r.id.Some? {
          LeastAfterSkip(st, st', heap, Pop(heap, lower), full, r.id.value);
        }
      }
    }
  }

  lemma RootIsLeast(heap: seq<int>, key: Key)
    requires heap != [] && Heaped(heap, key)
    ensures forall q :: q in heap ==> key(heap[0]) <= key(q)
  {
    forall q | q in heap ensures key(heap[0]) <= key(q) {
      var i :| 0 <= i < |heap| && heap[i] == q;
      RootLeast(heap, key, i);
    }
  }

  lemma LeastAfterSkip(st: State, st': State, heap: seq<int>, rest: seq<int>, full: int -> bool, x: int)
    requires heap != [] && heap[0] in st.esRgs && !HasRoomFor(st.esRgs, heap[0], full)
    requires st'.counts == st.counts && forall q :: Load(st'.esRgs, q) == Load(st.esRgs, q)
    requires forall q :: q in rest <==> q in heap && q != heap[0]
    requires forall q :: q in rest ==> q in st.esRgs && q in st'.esRgs && st'.esRgs[q] == st.esRgs[q]
    requires LeastChosen(st', rest, full, x)
    ensures LeastChosen(st, heap, full, x)
  {
    var p :| p in rest && LeastLoaded(st'.esRgs, rest, full, p) && p in st'.esRgs
             && LeastFilled(st'.esRgs[p].heap, st'.counts, full, x);
    forall q | q in heap && HasRoomFor(st.esRgs, q, full) ensures Load(st.esRgs, p) <= Load(st.esRgs, q) {
      assert q in rest && HasRoomFor(st'.esRgs, q, full);
    }
    assert LeastLoaded(st.esRgs, heap, full, p);
  }

  /**
   With both levels of heaps in order, an allocation takes the group with the fewest extents under the
   least loaded primary, among the groups and primaries with room.
   */
  lemma ChoosesLeast(st: State, full: int -> bool)
    requires Orderly(st, st.esHeap) && Distinct(st.esHeap)
    ensures var r := Allocate(st, full); r.id.Some? ==> LeastChosen(st, st.esHeap, full, r.id.value)
  {
    ChoosesLeastFrom(st, st.esHeap, [], full, LoadKey(st.esRgs));
  }

  // ---------- batches ----------

  /** The i-th id of a batch is the one that the i-th allocation gives. */
  lemma {:induction false} IthId(st: State, n: nat, step: State -> Allocation, i: nat)
    requires i < |Repeat(st, n, step).ids|
    ensures i < n && Repeat(st, i, step).ok && |Repeat(st, i, step).ids| == i
    ensures step(Repeat(st, i, step).st).id == Some(Repeat(st, n, step).ids[i])
  {
    OneIdEach(st, n - 1, step);
    if i < |Repeat(st, n - 1, step).ids| {
      IthId(st, n - 1, step, i);
    }
  }

  lemma {:induction false} OneIdEach(st: State, n: nat, step: State -> Allocation)
    ensures var b := Repeat(st, n, step); |b.ids| <= n && (b.ok ==> |b.ids| == n)
  {
    if n > 0 {
      OneIdEach(st, n - 1, step);
    }
  }
}
