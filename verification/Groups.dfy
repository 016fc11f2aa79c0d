/**
 Allocation of extents to replication groups: a heap of primaries by load, and under each primary a
 heap of its groups by extent count. Keys change while the elements stand in the heaps.
 */
module Groups {
  import opened Heap
  import opened HeapSearch
  import opened Common

  /** The groups of one primary server: how many there are, their extents, and their heap. */
  datatype EsRg = EsRg(weight: nat, count: nat, heap: seq<int>)

  /** `order` lists the group ids in the iteration order of the group map. */
  datatype State = State(order: seq<int>, primary: map<int, int>, counts: map<int, nat>,
                         esRgs: map<int, EsRg>, esHeap: seq<int>)

  function Count(counts: map<int, nat>, x: int): nat
  {
    if x in counts then counts[x] else 0
  }

  function CountKey(counts: map<int, nat>): Key
  {
    x => Count(counts, x)
  }

  function MoreExtents(counts: map<int, nat>): Order
  {
    (x, y) => Count(counts, x) > Count(counts, y)
  }

  /** Extents per group of a primary, scaled and rounded down. */
  function Load(esRgs: map<int, EsRg>, p: int): nat
  {
    if p in esRgs && esRgs[p].weight > 0 then 10000 * esRgs[p].count / esRgs[p].weight else 0
  }

  function LoadKey(esRgs: map<int, EsRg>): Key
  {
    p => Load(esRgs, p)
  }

  function MoreLoaded(esRgs: map<int, EsRg>): Order
  {
    (p, q) => Load(esRgs, p) > Load(esRgs, q)
  }

  datatype Taken = Taken(heap: seq<int>, counts: map<int, nat>, chosen: Option<int>)

  /** One pass over the groups of a primary: skip, put back, count, then pop and push again. */
  function TakeGroup(heap: seq<int>, counts: map<int, nat>, full: int -> bool): (r: Taken)
    ensures |r.heap| == |heap|
  {
    var s := SkipFull(heap, full, MoreExtents(counts));
    var restored := PushAll(s.rest, s.skipped, MoreExtents(counts));
    if s.rest == [] then Taken(restored, counts, None)
    else
      var x := s.rest[0];
      var counts' := counts[x := Count(counts, x) + 1];
      Taken(Requeue(restored, x, MoreExtents(counts')), counts', Some(x))
  }

  datatype Allocation = Allocation(st: State, id: Option<int>)

  /** The primary's groups after a search among them. */
  function WithGroups(st: State, p: int, groups: seq<int>): State
    requires p in st.esRgs
  {
    st.(esRgs := st.esRgs[p := st.esRgs[p].(heap := groups)])
  }

  /** The primaries after a search that succeeded at the root of `heap`. */
  function RequeuedHeap(heap: seq<int>, skipped: seq<int>, esRgs: map<int, EsRg>): seq<int>
    requires heap != []
  {
    Requeue(PushAll(heap, skipped, MoreLoaded(esRgs)), heap[0], MoreLoaded(esRgs))
  }

  /** The primary's record after one of its groups was chosen. */
  function Raised(st: State, p: int, t: Taken): map<int, EsRg>
    requires p in st.esRgs
  {
    st.esRgs[p := EsRg(st.esRgs[p].weight, st.esRgs[p].count + 1, t.heap)]
  }

  function Found(st: State, p: int, t: Taken, heap: seq<int>): Allocation
    requires p in st.esRgs
  {
    Allocation(st.(counts := t.counts, esRgs := Raised(st, p, t), esHeap := heap), t.chosen)
  }

  /** The pass over the primaries: `heap` is what is left of it, `skipped` what was popped aside. */
  function AllocateFrom(st: State, heap: seq<int>, skipped: seq<int>, full: int -> bool): (r: Allocation)
    requires forall p :: p in heap ==> p in st.esRgs
    decreases |heap|
  {
    if heap == [] then
      Allocation(st.(esHeap := PushAll([], skipped, MoreLoaded(st.esRgs))), None)
    else
      var p := heap[0];
      var t := TakeGroup(st.esRgs[p].heap, st.counts, full);
      if t.chosen.Some? then Found(st, p, t, RequeuedHeap(heap, skipped, Raised(st, p, t)))
      else
        var st' := WithGroups(st, p, t.heap);
        PopMembers(heap, MoreLoaded(st'.esRgs));
        AllocateFrom(st', Pop(heap, MoreLoaded(st'.esRgs)), skipped + [p], full)
  }

  function Allocate(st: State, full: int -> bool): Allocation
    requires forall p :: p in st.esHeap ==> p in st.esRgs
  {
    AllocateFrom(st, st.esHeap, [], full)
  }

  /** allocate_rg as a step from any state. */
  function Allocator(full: int -> bool): State -> Allocation
  {
    (st: State) => if forall p :: p in st.esHeap ==> p in st.esRgs then Allocate(st, full) else Allocation(st, None)
  }

  datatype Batch = Batch(st: State, ids: seq<int>, ok: bool)

  /** allocate_rgs: up to n steps, stopping at the first that finds no group. */
  function Repeat(st: State, n: nat, step: State -> Allocation): Batch
  {
    if n == 0 then Batch(st, [], true)
    else
      var b := Repeat(st, n - 1, step);
      if b.ok then Noted(b.ids, step(b.st)) else b
  }

  function Noted(ids: seq<int>, r: Allocation): Batch
  {
    if r.id.None? then Batch(r.st, ids, false) else Batch(r.st, ids + [r.id.value], true)
  }

  function AllocateMany(st: State, n: nat, full: int -> bool): Batch
  {
    Repeat(st, n, Allocator(full))
  }

  // ---------- building the heaps ----------

  /** One group of the map: pushed to its primary's heap, which is pushed on its first group. */
  function AddGroup(st: State, x: int): State
    requires x in st.primary
  {
    var p, n := st.primary[x], Count(st.counts, x);
    if p in st.esRgs then
      var e := st.esRgs[p];
      st.(esRgs := st.esRgs[p := EsRg(e.weight + 1, e.count + n, Push(e.heap, x, MoreExtents(st.counts)))])
    else
      var esRgs := st.esRgs[p := EsRg(1, n, Push([], x, MoreExtents(st.counts)))];
      st.(esRgs := esRgs, esHeap := Push(st.esHeap, p, MoreLoaded(esRgs)))
  }

  function BuildTo(order: seq<int>, primary: map<int, int>, counts: map<int, nat>, n: nat): (st: State)
    requires n <= |order| && forall x :: x in order ==> x in primary
    ensures st.order == order && st.primary == primary && st.counts == counts
  {
    if n == 0 then State(order, primary, counts, map[], [])
    else AddGroup(BuildTo(order, primary, counts, n - 1), order[n - 1])
  }

  function Build(order: seq<int>, primary: map<int, int>, counts: map<int, nat>): State
    requires forall x :: x in order ==> x in primary
  {
    BuildTo(order, primary, counts, |order|)
  }
}
