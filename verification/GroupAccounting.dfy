/** What any allocation counts, near-full groups included, and when the heaps keep their members. */
module GroupAccounting {
  import opened Heap
  import opened HeapSearch
  import opened Groups
  import opened Common

  /** Extents of the groups whose primary is p. */
  function TotalOf(order: seq<int>, primary: map<int, int>, counts: map<int, nat>, p: int): nat
  {
    if order == [] then 0
    else
      var x := order[|order| - 1];
      TotalOf(order[..|order| - 1], primary, counts, p)
      + if x in primary && primary[x] == p then Count(counts, x) else 0
  }

  /** The group stands under its own primary. */
  predicate Placed(st: State, p: int, x: int)
  {
    x in st.primary && st.primary[x] == p && x in st.order && x in st.counts
  }

  /** One primary's record: groups of its own, and the total of all its groups. */
  ghost predicate EsRgOk(st: State, p: int)
    requires p in st.esRgs
  {
    && st.esRgs[p].heap != []
    && (forall x :: x in st.esRgs[p].heap ==> Placed(st, p, x))
    && st.esRgs[p].count == TotalOf(st.order, st.primary, st.counts, p)
  }

  ghost predicate Grounded(st: State)
  {
    && Distinct(st.order)
    && forall p :: p in st.esRgs ==> EsRgOk(st, p)
  }

  ghost predicate Consistent(st: State)
  {
    && Grounded(st)
    && st.esHeap != []
    && forall p :: p in st.esHeap ==> p in st.esRgs
  }

  /** The group can be found by a search. */
  ghost predicate Offered(st: State, heap: seq<int>, x: int)
  {
    exists p :: p in heap && p in st.esRgs && x in st.esRgs[p].heap
  }

  // ---------- searching ----------

  /** A search fails exactly when every group is full, and otherwise takes one that is not. */
  lemma TakeGroupChoice(heap: seq<int>, counts: map<int, nat>, full: int -> bool)
    ensures TakeGroup(heap, counts, full).chosen.None? <==> forall x :: x in heap ==> full(x)
    ensures TakeGroup(heap, counts, full).chosen.Some? ==>
              TakeGroup(heap, counts, full).chosen.value in heap
              && !full(TakeGroup(heap, counts, full).chosen.value)
  {
    SkipFullMembers(heap, full, MoreExtents(counts));
  }

  lemma TakeGroupMembers(heap: seq<int>, counts: map<int, nat>, full: int -> bool)
    ensures forall x :: x in TakeGroup(heap, counts, full).heap ==> x in heap
  {
    var lower := MoreExtents(counts);
    var s := SkipFull(heap, full, lower);
    SkipFullMembers(heap, full, lower);
    PushAllMembers(s.rest, s.skipped, lower);
    if s.rest != [] {
      var x := s.rest[0];
      RequeueContents(PushAll(s.rest, s.skipped, lower), x, MoreExtents(counts[x := Count(counts, x) + 1]));
    }
  }

  // ---------- totals ----------

  lemma {:induction false} TotalAfterCount(order: seq<int>, primary: map<int, int>, counts: map<int, nat>,
                                           x: int, p: int)
    requires Distinct(order) && x in primary
    ensures TotalOf(order, primary, counts[x := Count(counts, x) + 1], p)
            == TotalOf(order, primary, counts, p) + if primary[x] == p && x in order then 1 else 0
  {
    if order != [] {
      var n := |order| - 1;
      assert order == order[..n] + [order[n]];
      TotalAfterCount(order[..n], primary, counts, x, p);
    }
  }

  // ---------- one allocation ----------

  /** What an allocation may change, and what it answers. */
  ghost predicate Accounted(st: State, heap: seq<int>, full: int -> bool, r: Allocation)
  {
    && Consistent(r.st)
    && r.st.order == st.order && r.st.primary == st.primary && r.st.esRgs.Keys == st.esRgs.Keys
    && (r.id.None? ==> r.st.counts == st.counts && forall x :: Offered(st, heap, x) ==> full(x))
    && (r.id.Some? ==>
          && Offered(st, heap, r.id.value) && !full(r.id.value)
          && r.st.counts == st.counts[r.id.value := Count(st.counts, r.id.value) + 1])
  }

  lemma SkippedStateGrounded(st: State, p: int, heap: seq<int>)
    requires Grounded(st) && p in st.esRgs && heap != []
    requires forall x :: x in heap ==> x in st.esRgs[p].heap
    ensures Grounded(WithGroups(st, p, heap))
  {
  }

  lemma CountedStateGrounded(st: State, p: int, heap: seq<int>, x: int)
    requires Grounded(st) && p in st.esRgs && heap != [] && x in st.esRgs[p].heap
    requires forall y :: y in heap ==> y in st.esRgs[p].heap
    ensures Grounded(st.(counts := st.counts[x := Count(st.counts, x) + 1],
                         esRgs := st.esRgs[p := EsRg(st.esRgs[p].weight, st.esRgs[p].count + 1, heap)]))
  {
    var st' := st.(counts := st.counts[x := Count(st.counts, x) + 1],
                   esRgs := st.esRgs[p := EsRg(st.esRgs[p].weight, st.esRgs[p].count + 1, heap)]);
    assert EsRgOk(st, p) && Placed(st, p, x);
    forall q | q in st'.esRgs
      ensures EsRgOk(st', q)
    {
      assert q in st.esRgs && EsRgOk(st, q);
      TotalAfterCount(st.order, st.primary, st.counts, x, q);
      forall y | y in st'.esRgs[q].heap
        ensures Placed(st', q, y)
      {
        assert Placed(st, q, y);
      }
    }
  }

  lemma {:induction false} AllocateFromAccounts(st: State, heap: seq<int>, skipped: seq<int>, full: int -> bool)
    requires Grounded(st) && heap + skipped != []
    requires forall p :: p in heap || p in skipped ==> p in st.esRgs
    ensures Accounted(st, heap, full, AllocateFrom(st, heap, skipped, full))
    decreases |heap|
  {
    if heap == [] {
      PushAllMembers([], skipped, MoreLoaded(st.esRgs));
      SameButHeap(st, PushAll([], skipped, MoreLoaded(st.esRgs)));
    } else {
      var p := heap[0];
      var t := TakeGroup(st.esRgs[p].heap, st.counts, full);
      TakeKeepsGrounded(st, p, full);
      if t.chosen.Some? {
        FoundHeap(heap, skipped, Raised(st, p, t));
        AccountedFound(st, heap, full, t, RequeuedHeap(heap, skipped, Raised(st, p, t)));
      } else {
        var st' := WithGroups(st, p, t.heap);
        var rest := Pop(heap, MoreLoaded(st'.esRgs));
        PopMembers(heap, MoreLoaded(st'.esRgs));
        AllocateFromAccounts(st', rest, skipped + [p], full);
        AccountedAfterSkip(st, heap, rest, t.heap, full, AllocateFrom(st', rest, skipped + [p], full));
      }
    }
  }

  /** What a search among one primary's groups did, without how. */
  ghost predicate TakenOk(st: State, p: int, full: int -> bool, t: Taken)
    requires p in st.esRgs
  {
    && t.heap != []
    && (forall x :: x in t.heap ==> x in st.esRgs[p].heap)
    && (t.chosen.None? ==> t.counts == st.counts && forall x :: x in st.esRgs[p].heap ==> full(x))
    && (t.chosen.Some? ==>
          && t.chosen.value in st.esRgs[p].heap && !full(t.chosen.value)
          && t.counts == st.counts[t.chosen.value := Count(st.counts, t.chosen.value) + 1])
  }

  lemma TakeKeepsGrounded(st: State, p: int, full: int -> bool)
    requires Grounded(st) && p in st.esRgs
    ensures TakenOk(st, p, full, TakeGroup(st.esRgs[p].heap, st.counts, full))
    ensures Grounded(WithGroups(st, p, TakeGroup(st.esRgs[p].heap, st.counts, full).heap))
  {
    assert EsRgOk(st, p);
    TakeGroupChoice(st.esRgs[p].heap, st.counts, full);
    TakeGroupMembers(st.esRgs[p].heap, st.counts, full);
    SkippedStateGrounded(st, p, TakeGroup(st.esRgs[p].heap, st.counts, full).heap);
  }

  /** What holds of the search among the remaining primaries holds of the whole search. */
  lemma AccountedAfterSkip(st: State, heap: seq<int>, rest: seq<int>, groups: seq<int>, full: int -> bool,
                           r: Allocation)
    requires heap != [] && heap[0] in st.esRgs
    requires forall q :: q in rest ==> q in heap
    requires forall q :: q in heap && q != heap[0] ==> q in rest
    requires forall x :: x in st.esRgs[heap[0]].heap ==> full(x)
    requires forall x :: x in groups ==> x in st.esRgs[heap[0]].heap
    requires Accounted(WithGroups(st, heap[0], groups), rest, full, r)
    ensures Accounted(st, heap, full, r)
  {
  }

  lemma AccountedFound(st: State, heap: seq<int>, full: int -> bool, t: Taken, heap': seq<int>)
    requires Grounded(st) && heap != [] && heap[0] in st.esRgs
    requires TakenOk(st, heap[0], full, t) && t.chosen.Some?
    requires heap' != [] && forall p :: p in heap' ==> p in Raised(st, heap[0], t)
    ensures Accounted(st, heap, full, Found(st, heap[0], t, heap'))
  {
    CountedStateGrounded(st, heap[0], t.heap, t.chosen.value);
    SameButHeap(st.(counts := t.counts, esRgs := Raised(st, heap[0], t)), heap');
    assert Offered(st, heap, t.chosen.value);
    assert Raised(st, heap[0], t).Keys == st.esRgs.Keys;
  }

  lemma SameButHeap(st: State, heap: seq<int>)
    requires Grounded(st)
    ensures Grounded(st.(esHeap := heap))
  {
  }

  /** The primaries that a found path leaves in the heap were there before. */
  lemma FoundHeap(heap: seq<int>, skipped: seq<int>, esRgs: map<int, EsRg>)
    requires heap != []
    requires forall p :: p in heap || p in skipped ==> p in esRgs
    ensures RequeuedHeap(heap, skipped, esRgs) != []
    ensures forall p :: p in RequeuedHeap(heap, skipped, esRgs) ==> p in esRgs
  {
    PushAllMembers(heap, skipped, MoreLoaded(esRgs));
    RequeueContents(PushAll(heap, skipped, MoreLoaded(esRgs)), heap[0], MoreLoaded(esRgs));
  }

  /**
   One allocation, near-full groups or not: it fails exactly when every group on offer is full, the
   group it returns was not full and gains one extent, and the primaries' totals stay true.
   */
  lemma AllocateAccounts(st: State, full: int -> bool)
    requires Consistent(st)
    ensures Accounted(st, st.esHeap, full, Allocate(st, full))
  {
    AllocateFromAccounts(st, st.esHeap, [], full);
  }

  // ---------- many allocations ----------

  /** The counts are the old ones plus one for each time an id was handed out. */
  ghost predicate CountsIds(before: map<int, nat>, after: map<int, nat>, ids: seq<int>)
  {
    forall x :: Count(after, x) == Count(before, x) + multiset(ids)[x]
  }

  lemma CountOneMore(before: map<int, nat>, counts: map<int, nat>, ids: seq<int>, x: int)
    requires CountsIds(before, counts, ids)
    ensures CountsIds(before, counts[x := Count(counts, x) + 1], ids + [x])
  {
  }

  ghost predicate BatchOk(st: State, n: nat, full: int -> bool, b: Batch)
  {
    && Consistent(b.st)
    && CountsIds(st.counts, b.st.counts, b.ids)
    && (forall x :: x in b.ids ==> !full(x))
    && (b.ok <==> |b.ids| == n)
    && |b.ids| <= n
  }

  lemma BatchStep(st: State, n: nat, full: int -> bool, b: Batch, r: Allocation)
    requires n > 0 && BatchOk(st, n - 1, full, b) && b.ok && Accounted(b.st, b.st.esHeap, full, r)
    ensures BatchOk(st, n, full, Noted(b.ids, r))
  {
    if r.id.Some? {
      CountOneMore(st.counts, b.st.counts, b.ids, r.id.value);
    }
  }

  lemma RepeatStep(st: State, n: nat, full: int -> bool, step: State -> Allocation)
    requires n > 0 && BatchOk(st, n - 1, full, Repeat(st, n - 1, step))
    requires var s := Repeat(st, n - 1, step).st; Accounted(s, s.esHeap, full, step(s))
    ensures BatchOk(st, n, full, Repeat(st, n, step))
  {
    var b := Repeat(st, n - 1, step);
    if b.ok {
      BatchStep(st, n, full, b, step(b.st));
    }
  }

  /** Every group's count grows by the number of times its id was handed out, failed batches included. */
  lemma {:induction false} BatchCountsItsIds(st: State, n: nat, full: int -> bool)
    requires Consistent(st)
    ensures BatchOk(st, n, full, AllocateMany(st, n, full))
  {
    if n > 0 {
      BatchCountsItsIds(st, n - 1, full);
      AllocatorAccounts(Repeat(st, n - 1, Allocator(full)).st, full);
      RepeatStep(st, n, full, Allocator(full));
    }
  }

  lemma AllocatorAccounts(st: State, full: int -> bool)
    requires Consistent(st)
    ensures Accounted(st, st.esHeap, full, Allocator(full)(st))
  {
    AllocateAccounts(st, full);
  }
}
