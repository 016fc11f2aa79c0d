/** The replication group manager of a pool: its group map and its two levels of heaps, in place. */
module RgManagers {
  import Pools
  import opened Heap
  import opened HeapSearch
  import opened Groups
  import opened GroupAccounting
  import opened GroupBalance
  import opened GroupBuild
  import opened Placement
  import opened Selection
  import opened Common

  /** What the extent servers report. */
  datatype Usage = Usage(used: map<int, nat>, capacity: map<int, nat>) {
    predicate Knows(v: int)
    {
      v in used && v in capacity && capacity[v] > 0
    }
  }

  /** Some server of the group is used up. */
  predicate UsedUp(group: seq<int>, u: Usage)
  {
    exists v :: v in group && u.Knows(v) && u.used[v] >= u.capacity[v]
  }

  function FullOf(servers: map<int, seq<int>>, u: Usage): int -> bool
  {
    x => x in servers && UsedUp(servers[x], u)
  }

  /** The first server of each group. */
  function PrimaryOf(servers: map<int, seq<int>>): map<int, int>
  {
    map x | x in servers && servers[x] != [] :: servers[x][0]
  }

  /**
   nearfull: the ratio it compares with 0.85 is an integer quotient, so a group is near-full exactly
   when one of its servers is used up.
   */
  method Nearfull(group: seq<int>, u: Usage) returns (r: bool)
    requires forall v :: v in group ==> u.Knows(v)
    ensures r <==> UsedUp(group, u)
  {
    var ratio: real := 0.0;
    for i := 0 to |group|
      invariant ratio > 0.85 <==> UsedUp(group[..i], u)
    {
      var v := group[i];
      assert v in group;
      assert group[..i + 1] == group[..i] + [v];
      QuotientAboveRatio(u.used[v], u.capacity[v]);
      UsedUpOneMore(group[..i], v, u);
      var tmp := (u.used[v] / u.capacity[v]) as real;
      if tmp > ratio {
        ratio := tmp;
      }
    }
    assert group[..|group|] == group;
    r := ratio > 0.85;
  }

  lemma UsedUpOneMore(group: seq<int>, v: int, u: Usage)
    requires u.Knows(v)
    ensures UsedUp(group + [v], u) <==> UsedUp(group, u) || u.used[v] >= u.capacity[v]
  {
  }

  lemma QuotientAboveRatio(used: nat, capacity: nat)
    requires capacity > 0
    ensures (used / capacity) as real > 0.85 <==> used >= capacity
  {
  }

  /** A server at 99 percent does not make its group near-full. */
  lemma NotEightyFivePercent()
    ensures !UsedUp([7], Usage(map[7 := 99], map[7 := 100]))
  {
  }

  /** Pops the groups of a primary aside while they are near-full. */
  method SkipNearfull(heap: seq<int>, counts: map<int, nat>, servers: map<int, seq<int>>, u: Usage)
    returns (rest: seq<int>, skipped: seq<int>)
    requires forall x :: x in heap ==> x in servers
    requires forall x, v :: x in servers && v in servers[x] ==> u.Knows(v)
    ensures SkipFull(heap, FullOf(servers, u), MoreExtents(counts)) == Search(rest, skipped)
  {
    ghost var full := FullOf(servers, u);
    var lower := MoreExtents(counts);
    rest, skipped := heap, [];
    var near := true;
    while near && rest != []
      invariant forall x :: x in rest ==> x in servers
      invariant Skipping(heap, rest, skipped, full, lower)
      invariant near || (rest != [] && !full(rest[0]))
      decreases near, |rest|
    {
      var x := rest[0];
      near := Nearfull(servers[x], u);
      if near {
        SkipOne(heap, rest, skipped, full, lower);
        PopMembers(rest, lower);
        skipped := skipped + [x];
        rest := PopHeap(rest, lower);
      }
    }
    SkipDone(heap, rest, skipped, full, lower);
  }

  /** One primary's groups: a search, with the skipped ones put back before the chosen one is popped. */
  method Take(heap: seq<int>, counts: map<int, nat>, servers: map<int, seq<int>>, u: Usage) returns (t: Taken)
    requires forall x :: x in heap ==> x in servers
    requires forall x, v :: x in servers && v in servers[x] ==> u.Knows(v)
    ensures t == TakeGroup(heap, counts, FullOf(servers, u))
  {
    var rest, skipped := SkipNearfull(heap, counts, servers, u);
    var restored := Restore(rest, skipped, MoreExtents(counts));
    if rest == [] {
      return Taken(restored, counts, None);
    }
    var x := rest[0];
    var counts' := counts[x := Count(counts, x) + 1];
    var requeued := PopAndPush(restored, x, MoreExtents(counts'));
    t := Taken(requeued, counts', Some(x));
  }

  method PopAndPush(heap: seq<int>, x: int, lower: (int, int) -> bool) returns (r: seq<int>)
    requires heap != []
    ensures r == Requeue(heap, x, lower)
  {
    r := PopHeap(heap, lower);
    r := PushHeap(r, x, lower);
  }

  /** Every primary in `heap` has a record, and the groups on record are in the group map. */
  ghost predicate Ready(esRgs: map<int, EsRg>, heap: seq<int>, servers: map<int, seq<int>>)
  {
    && (forall p :: p in heap ==> p in esRgs)
    && (forall p, x :: p in esRgs && x in esRgs[p].heap ==> x in servers)
  }

  /** A search in progress whose result will be `goal`. */
  ghost predicate Pending(st: State, servers: map<int, seq<int>>, heap: seq<int>, skipped: seq<int>,
                          full: int -> bool, goal: Allocation)
  {
    && Ready(st.esRgs, heap + skipped, servers)
    && (forall p :: p in heap ==> p in st.esRgs)
    && AllocateFrom(st, heap, skipped, full) == goal
  }

  lemma ReadyAfterTake(esRgs: map<int, EsRg>, heap: seq<int>, servers: map<int, seq<int>>, p: int, e: EsRg,
                       counts: map<int, nat>, full: int -> bool)
    requires Ready(esRgs, heap, servers) && p in esRgs
    requires e.heap == TakeGroup(esRgs[p].heap, counts, full).heap
    ensures Ready(esRgs[p := e], heap, servers)
  {
    TakeGroupMembers(esRgs[p].heap, counts, full);
  }

  lemma RootOnRecord(st: State, servers: map<int, seq<int>>, heap: seq<int>, skipped: seq<int>)
    requires heap != [] && Ready(st.esRgs, heap + skipped, servers)
    ensures heap[0] in st.esRgs && forall x :: x in st.esRgs[heap[0]].heap ==> x in servers
  {
    assert (heap + skipped)[0] == heap[0];
    assert heap[0] in heap + skipped;
  }

  /** The state after a search among the groups of primary p that came to t. */
  ghost function Recorded(st: State, p: int, t: Taken): State
    requires p in st.esRgs
  {
    var e := st.esRgs[p];
    st.(counts := t.counts, esRgs := st.esRgs[p := EsRg(e.weight, e.count + (if t.chosen.Some? then 1 else 0), t.heap)])
  }

  /** A search among the groups of primary p took the state from `st` to `st'`. */
  ghost predicate Took(st: State, st': State, p: int, full: int -> bool, id: Option<int>)
  {
    && p in st.esRgs
    && var t := TakeGroup(st.esRgs[p].heap, st.counts, full);
    id == t.chosen && st' == Recorded(st, p, t)
  }

  /** The search is over, and putting the skipped primaries back will give `goal`. */
  ghost predicate Ended(st: State, servers: map<int, seq<int>>, heap: seq<int>, skipped: seq<int>,
                        id: Option<int>, goal: Allocation)
  {
    && heap != []
    && Ready(st.esRgs, heap + skipped, servers)
    && goal == Allocation(st.(esHeap := RequeuedHeap(heap, skipped, st.esRgs)), id)
  }

  lemma RoundFinds(st: State, st': State, servers: map<int, seq<int>>, heap: seq<int>, skipped: seq<int>,
                   full: int -> bool, id: Option<int>, goal: Allocation)
    requires heap != [] && Pending(st, servers, heap, skipped, full, goal)
    requires Took(st, st', heap[0], full, id) && id.Some?
    ensures Ended(st', servers, heap, skipped, id, goal)
  {
    ReadyAfterTake(st.esRgs, heap + skipped, servers, heap[0], st'.esRgs[heap[0]], st.counts, full);
  }

  lemma RoundSkips(st: State, st': State, servers: map<int, seq<int>>, heap: seq<int>, skipped: seq<int>,
                   full: int -> bool, id: Option<int>, goal: Allocation)
    requires heap != [] && Pending(st, servers, heap, skipped, full, goal)
    requires Took(st, st', heap[0], full, id) && id.None?
    ensures Pending(st', servers, Pop(heap, MoreLoaded(st'.esRgs)), skipped + [heap[0]], full, goal)
  {
    ReadyAfterTake(st.esRgs, heap + skipped, servers, heap[0], st'.esRgs[heap[0]], st.counts, full);
    assert st' == WithGroups(st, heap[0], TakeGroup(st.esRgs[heap[0]].heap, st.counts, full).heap);
    PopMembers(heap, MoreLoaded(st'.esRgs));
  }

  /** The extent counts after groups were made anew. */
  function Recounted(counts: map<int, nat>, made: set<int>, keys: seq<int>): map<int, nat>
  {
    map x | x in keys :: if x in made then 0 else Count(counts, x)
  }

  lemma RecountedAt(counts: map<int, nat>, made: set<int>, keys: seq<int>)
    ensures var r := Recounted(counts, made, keys);
            && r.Keys == Elements(keys)
            && forall x :: x in keys ==> x in r && r[x] == if x in made then 0 else Count(counts, x)
  {
  }

  /** No group has a server that is used up. */
  ghost predicate NoneUsedUp(order: seq<int>, servers: map<int, seq<int>>, u: Usage)
  {
    forall x :: x in order && x in servers ==> !UsedUp(servers[x], u)
  }

  /** Every group stands in the heap of its first server, and in no other. */
  ghost predicate UnderFirst(esRgs: map<int, EsRg>, servers: map<int, seq<int>>, order: seq<int>)
  {
    forall x, p :: x in order && p in esRgs ==>
                     (x in esRgs[p].heap <==> x in servers && servers[x] != [] && servers[x][0] == p)
  }

  lemma BuiltIsReady(order: seq<int>, servers: map<int, seq<int>>, counts: map<int, nat>)
    requires order != [] && Distinct(order)
    requires forall x :: x in order ==> x in servers && servers[x] != [] && x in counts
    ensures var st := Build(order, PrimaryOf(servers), counts);
            && Ready(st.esRgs, st.esHeap, servers) && UnderFirst(st.esRgs, servers, order)
            && ((forall x :: x in order ==> counts[x] == 0) ==> Balanced(st))
  {
    var st := Build(order, PrimaryOf(servers), counts);
    BuildIsConsistent(order, PrimaryOf(servers), counts);
    forall p, x | p in st.esRgs && x in st.esRgs[p].heap ensures x in servers {
      assert EsRgOk(st, p) && Placed(st, p, x);
    }
    forall x, p | x in order && p in st.esRgs ensures x in st.esRgs[p].heap <==> servers[x][0] == p {
      assert Covers(PrimaryOf(servers), counts, order, p, st.esRgs[p]);
    }
    if forall x :: x in order ==> counts[x] == 0 {
      FreshBuildBalanced(order, PrimaryOf(servers), counts);
    }
  }

  /**
   What a set-up from scratch and any number of allocations come to, while no server is used up: all of
   them succeed, the counts under one primary differ by at most one, and no primary runs ahead.
   */
  lemma SetUpStaysBalanced(order: seq<int>, servers: map<int, seq<int>>, counts: map<int, nat>, u: Usage, n: nat)
    requires order != [] && Distinct(order) && NoneUsedUp(order, servers, u)
    requires forall x :: x in order ==> x in servers && servers[x] != [] && x in counts && counts[x] == 0
    ensures var b := AllocateMany(Build(order, PrimaryOf(servers), counts), n, FullOf(servers, u));
            && b.ok && |b.ids| == n
            && (forall p, x, y :: p in b.st.esRgs && x in b.st.esRgs[p].heap && y in b.st.esRgs[p].heap ==>
                  Count(b.st.counts, x) <= Count(b.st.counts, y) + 1)
            && (forall i, j :: i in b.st.esRgs && j in b.st.esRgs && b.st.esRgs[i].count > 0 ==>
                  NotAhead(b.st.esRgs[i], b.st.esRgs[j]))
  {
    var st, full := Build(order, PrimaryOf(servers), counts), FullOf(servers, u);
    FreshRunStaysBalanced(order, PrimaryOf(servers), counts, n, full);
    FreshBuildBalanced(order, PrimaryOf(servers), counts);
    RunBalances(st, n, full);
    BatchCountsItsIds(st, n, full);
  }

  /** When the usage is that of a pool's servers, every server reports exactly if the groups hold no others. */
  lemma ReportsIff(servers: map<int, seq<int>>, ess: set<int>, u: Usage)
    requires forall v :: u.Knows(v) <==> v in ess
    ensures (forall x, v :: x in servers && v in servers[x] ==> u.Knows(v))
            <==> forall x | x in servers :: Pools.Within(servers[x], ess)
  {
    if forall x, v :: x in servers && v in servers[x] ==> u.Knows(v) {
      forall x, i | x in servers && 0 <= i < |servers[x]| ensures servers[x][i] in ess {
        var v := servers[x][i];
        assert v in servers[x];
        assert u.Knows(v);
      }
    }
    if forall x | x in servers :: Pools.Within(servers[x], ess) {
      forall x, v | x in servers && v in servers[x] ensures u.Knows(v) {
        assert Pools.Within(servers[x], ess);
        var i :| 0 <= i < |servers[x]| && servers[x][i] == v;
      }
    }
  }

  class RgManager {
    var order: seq<int>
    var servers: map<int, seq<int>>
    var counts: map<int, nat>
    var esRgs: map<int, EsRg>
    var esHeap: seq<int>

    ghost function Value(): State
      reads this
    {
      State(order, PrimaryOf(servers), counts, esRgs, esHeap)
    }

    /** Every server of every group reports its usage. */
    ghost predicate Reports(u: Usage)
      reads this
    {
      forall x, v :: x in servers && v in servers[x] ==> u.Knows(v)
    }

    constructor ()
      ensures servers == map[] && order == [] && esHeap == [] && esRgs == map[] && counts == map[]
    {
      order, servers, counts, esRgs, esHeap := [], map[], map[], map[], [];
    }

    method BuildHeap()
      requires esRgs == map[] && esHeap == []
      requires forall x :: x in order ==> x in servers && servers[x] != []
      modifies this`esRgs, this`esHeap
      ensures Value() == Build(order, PrimaryOf(servers), counts)
    {
      for i := 0 to |order|
        invariant Value() == BuildTo(order, PrimaryOf(servers), counts, i)
      {
        AddToHeaps(order[i]);
      }
    }

    /**
     init: the groups `made` start anew, and every group of the map, listed by `keys`, gets servers. It
     succeeds exactly when every group has room for the replicas and the groups can be stored; then the
     heaps are built over all of them.
     */
    method Init(rank: Rank, ess: seq<int>, replicas: nat, made: set<int>, keys: seq<int>, persists: bool)
      returns (ok: bool)
      requires esRgs == map[] && esHeap == []
      requires Distinct(keys) && (forall x :: x in keys <==> x in servers || x in made) && (keys != [] ==> ess != [])
      modifies this
      ensures var r := FillMap(rank, ess, old(servers), made, keys, replicas);
              servers == r.groups && (ok <==> r.ok && persists)
      ensures ok <==> HasRoom(rank, ess, BeforeAll(old(servers), made, keys), Copies(replicas)) && persists
      ensures MapFilled(ess, old(servers), made, keys, Copies(replicas), FilledMap(servers, ok))
      ensures order == keys && counts.Keys == Elements(keys)
      ensures forall x :: x in keys ==> counts[x] == if x in made then 0 else Count(old(counts), x)
      ensures ok ==> (forall x :: x in order ==> x in PrimaryOf(servers))
                     && Value() == Build(order, PrimaryOf(servers), counts)
      ensures ok && keys != [] ==> Ready(esRgs, esHeap, servers) && UnderFirst(esRgs, servers, keys)
      ensures ok && keys != [] && (forall x :: x in keys ==> counts[x] == 0) ==> Balanced(Value())
    {
      var placed;
      order, counts := keys, Recounted(counts, made, keys);
      servers, placed := PlaceMap(rank, ess, servers, made, keys, replicas);
      ok := placed && persists;
      RecountedAt(old(counts), made, keys);
      if ok {
        BuildReady();
      }
    }

    /** The heaps over all groups, with what a build gives. */
    method BuildReady()
      requires esRgs == map[] && esHeap == [] && Distinct(order)
      requires forall x :: x in order ==> x in servers && servers[x] != [] && x in counts
      modifies this`esRgs, this`esHeap
      ensures Value() == Build(order, PrimaryOf(servers), counts)
      ensures order != [] ==> Ready(esRgs, esHeap, servers) && UnderFirst(esRgs, servers, order)
      ensures order != [] && (forall x :: x in order ==> counts[x] == 0) ==> Balanced(Value())
    {
      BuildHeap();
      if order != [] {
        BuiltIsReady(order, servers, counts);
      }
    }

    method AddToHeaps(x: int)
      requires x in servers && servers[x] != []
      modifies this`esRgs, this`esHeap
      ensures Value() == AddGroup(old(Value()), x)
    {
      var primary := servers[x][0];
      if primary in esRgs {
        var e := esRgs[primary];
        var heap := PushHeap(e.heap, x, MoreExtents(counts));
        esRgs := esRgs[primary := EsRg(e.weight + 1, e.count + Count(counts, x), heap)];
      } else {
        var heap := PushHeap([], x, MoreExtents(counts));
        esRgs := esRgs[primary := EsRg(1, Count(counts, x), heap)];
        esHeap := PushHeap(esHeap, primary, MoreLoaded(esRgs));
      }
    }

    /** A search among the groups of one primary. */
    method TakeFrom(p: int, u: Usage) returns (id: Option<int>)
      requires p in esRgs && Reports(u) && forall x :: x in esRgs[p].heap ==> x in servers
      modifies this`counts, this`esRgs
      ensures Took(old(Value()), Value(), p, FullOf(servers, u), id)
    {
      var t := Take(esRgs[p].heap, counts, servers, u);
      id := t.chosen;
      Record(p, t);
    }

    method Record(p: int, t: Taken)
      requires p in esRgs
      modifies this`counts, this`esRgs
      ensures Value() == Recorded(old(Value()), p, t)
    {
      var e := esRgs[p];
      counts := t.counts;
      esRgs := esRgs[p := EsRg(e.weight, e.count + if t.chosen.Some? then 1 else 0, t.heap)];
    }

    /** The search over the primaries, up to the point where the skipped ones are put back. */
    method FindPrimary(u: Usage, ghost goal: Allocation) returns (heap: seq<int>, skipped: seq<int>, id: Option<int>)
      requires Reports(u) && Pending(Value(), servers, esHeap, [], FullOf(servers, u), goal)
      modifies this`counts, this`esRgs
      ensures if id.Some? then Ended(Value(), servers, heap, skipped, id, goal)
              else heap == [] && Pending(Value(), servers, heap, skipped, FullOf(servers, u), goal)
    {
      heap, skipped, id := esHeap, [], None;
      while heap != []
        invariant id.None? && Pending(Value(), servers, heap, skipped, FullOf(servers, u), goal)
        decreases |heap|
      {
        RootOnRecord(Value(), servers, heap, skipped);
        ghost var before := Value();
        id := TakeFrom(heap[0], u);
        if id.Some? {
          RoundFinds(before, Value(), servers, heap, skipped, FullOf(servers, u), id, goal);
          return;
        }
        RoundSkips(before, Value(), servers, heap, skipped, FullOf(servers, u), id, goal);
        skipped := skipped + [heap[0]];
        heap := PopHeap(heap, MoreLoaded(esRgs));
      }
    }

    method AllocateRg(u: Usage) returns (id: Option<int>)
      requires Ready(esRgs, esHeap, servers) && Reports(u)
      modifies this`counts, this`esRgs, this`esHeap
      ensures Allocation(Value(), id) == Allocate(old(Value()), FullOf(servers, u))
      ensures Ready(esRgs, esHeap, servers)
    {
      ghost var goal := Allocate(Value(), FullOf(servers, u));
      assert esHeap + [] == esHeap;
      var heap, skipped;
      heap, skipped, id := FindPrimary(u, goal);
      if id.Some? {
        esHeap := Requeued(heap, skipped, esRgs);
      } else {
        PushAllMembers([], skipped, MoreLoaded(esRgs));
        esHeap := Restore([], skipped, MoreLoaded(esRgs));
      }
    }

    /** The loop of allocate_rgs. */
    method AllocateEach(n: nat, u: Usage) returns (ids: seq<int>, ok: bool)
      requires Ready(esRgs, esHeap, servers) && Reports(u)
      modifies this`counts, this`esRgs, this`esHeap
      ensures Batch(Value(), ids, ok) == AllocateMany(old(Value()), n, FullOf(servers, u))
      ensures Ready(esRgs, esHeap, servers)
    {
      ids, ok := [], true;
      ghost var start, full := Value(), FullOf(servers, u);
      for i := 0 to n
        invariant Ready(esRgs, esHeap, servers) && ok
        invariant Batch(Value(), ids, ok) == AllocateMany(start, i, full)
      {
        AllocatorHere(Value(), full);
        var id := AllocateRg(u);
        if id.None? {
          ok := false;
          FailedStays(start, i + 1, n, full);
          return;
        }
        ids := ids + [id.value];
      }
    }

    /** While no server is used up, allocations from a balanced state all succeed and keep the balance. */
    method AllocateRgs(n: nat, u: Usage) returns (ids: seq<int>, ok: bool)
      requires Ready(esRgs, esHeap, servers) && Reports(u)
      modifies this`counts, this`esRgs, this`esHeap
      ensures Batch(Value(), ids, ok) == AllocateMany(old(Value()), n, FullOf(servers, u))
      ensures Ready(esRgs, esHeap, servers)
      ensures old(Balanced(Value())) && NoneUsedUp(order, servers, u) ==>
                StaysBalanced(old(Value()), Batch(Value(), ids, ok))
    {
      ghost var st, full := Value(), FullOf(servers, u);
      ids, ok := AllocateEach(n, u);
      if Balanced(st) && NoneUsedUp(order, servers, u) {
        RunBalances(st, n, full);
      }
    }
  }

  /** The primaries' heap after a search that succeeded at the root of `heap`. */
  method Requeued(heap: seq<int>, skipped: seq<int>, esRgs: map<int, EsRg>) returns (r: seq<int>)
    requires heap != []
    ensures r == RequeuedHeap(heap, skipped, esRgs)
    ensures forall p :: p in r ==> p in heap + skipped
  {
    var restored := Restore(heap, skipped, MoreLoaded(esRgs));
    PushAllMembers(heap, skipped, MoreLoaded(esRgs));
    RequeueContents(restored, heap[0], MoreLoaded(esRgs));
    r := PopHeap(restored, MoreLoaded(esRgs));
    r := PushHeap(r, heap[0], MoreLoaded(esRgs));
  }

  lemma AllocatorHere(st: State, full: int -> bool)
    requires forall p :: p in st.esHeap ==> p in st.esRgs
    ensures Allocator(full)(st) == Allocate(st, full)
  {
  }

  lemma {:induction false} FailedStays(st: State, i: nat, n: nat, full: int -> bool)
    requires i <= n && !AllocateMany(st, i, full).ok
    ensures AllocateMany(st, n, full) == AllocateMany(st, i, full)
  {
    if i < n {
      FailedStays(st, i, n - 1, full);
    }
  }
}
