/**
 Which primaries the upper heap keeps when those without room are put aside and pushed back before the
 pop, while the load of the one that was found has just been raised.
 */
module PrimaryMembers {
  import Words
  import opened Common
  import opened Heap
  import opened HeapSearch
  import opened HeapTies
  import opened Groups
  import opened GroupAccounting
  import opened GroupBalance

  // ---------- the search over the primaries ----------

  /** All groups of the primary are full. */
  ghost function NoRoom(st: State, full: int -> bool): int -> bool
  {
    p => p in st.esRgs && forall x :: x in st.esRgs[p].heap ==> full(x)
  }

  /** What the search puts aside, and what is left when it ends. */
  ghost function Aside(st: State, full: int -> bool): Search
  {
    SkipFull(st.esHeap, NoRoom(st, full), MoreLoaded(st.esRgs))
  }

  /** The load of p with one more extent. */
  function LoadAfter(esRgs: map<int, EsRg>, p: int): nat
  {
    if p in esRgs && esRgs[p].weight > 0 then 10000 * (esRgs[p].count + 1) / esRgs[p].weight else 0
  }

  ghost predicate SameTotals(a: map<int, EsRg>, b: map<int, EsRg>)
  {
    a.Keys == b.Keys && forall q :: q in a ==> a[q].weight == b[q].weight && a[q].count == b[q].count
  }

  /** The same, except that p has one more extent. */
  ghost predicate OneMore(a: map<int, EsRg>, b: map<int, EsRg>, p: int)
  {
    && a.Keys == b.Keys && p in a && b[p].weight == a[p].weight && b[p].count == a[p].count + 1
    && forall q :: q in a && q != p ==> a[q].weight == b[q].weight && a[q].count == b[q].count
  }

  lemma SameTotalsSameOrder(a: map<int, EsRg>, b: map<int, EsRg>)
    requires SameTotals(a, b)
    ensures SameOrder(MoreLoaded(a), MoreLoaded(b)) && forall q :: Load(a, q) == Load(b, q)
  {
  }

  ghost predicate KnowsRoom(st: State, full: int -> bool, noRoom: int -> bool)
  {
    forall p :: p in st.esRgs ==> (noRoom(p) <==> forall x :: x in st.esRgs[p].heap ==> full(x))
  }

  /** What the primaries' heap becomes, given what the search puts aside and what is left. */
  ghost predicate Settled(before: map<int, EsRg>, s: Search, r: Allocation)
  {
    if s.rest == [] then
      && r.id.None? && SameTotals(before, r.st.esRgs)
      && r.st.esHeap == PushAll([], s.skipped, MoreLoaded(r.st.esRgs))
    else
      && r.id.Some? && OneMore(before, r.st.esRgs, s.rest[0])
      && r.st.esHeap == RequeuedHeap(s.rest, s.skipped, r.st.esRgs)
  }

  lemma SearchEnds(before: map<int, EsRg>, st: State, skipped: seq<int>, full: int -> bool)
    requires SameTotals(before, st.esRgs)
    ensures Settled(before, Search([], skipped), AllocateFrom(st, [], skipped, full))
  {
  }

  lemma SearchFinds(before: map<int, EsRg>, st: State, heap: seq<int>, skipped: seq<int>, full: int -> bool,
                    noRoom: int -> bool)
    requires SameTotals(before, st.esRgs) && (forall p :: p in heap ==> p in st.esRgs) && KnowsRoom(st, full, noRoom)
    requires heap != [] && heap[0] in st.esRgs && !noRoom(heap[0])
    ensures Settled(before, Search(heap, skipped), AllocateFrom(st, heap, skipped, full))
  {
    TakeGroupChoice(st.esRgs[heap[0]].heap, st.counts, full);
  }

  /** The function value `settled` stands for Settled, for proofs that need not look inside it. */
  ghost predicate StandsFor(before: map<int, EsRg>, settled: (Search, Allocation) -> bool)
  {
    forall s: Search, r: Allocation {:trigger Settled(before, s, r)} :: settled(s, r) <==> Settled(before, s, r)
  }

  lemma {:induction false} SearchSettles(before: map<int, EsRg>, st: State, heap: seq<int>, skipped: seq<int>,
                                         full: int -> bool, noRoom: int -> bool, lower: Order,
                                         settled: (Search, Allocation) -> bool)
    requires SameTotals(before, st.esRgs) && (forall p :: p in heap ==> p in st.esRgs) && StandsFor(before, settled)
    requires KnowsRoom(st, full, noRoom) && SameOrder(lower, MoreLoaded(st.esRgs))
    ensures var s := SkipFull(heap, noRoom, lower);
            settled(Search(s.rest, skipped + s.skipped), AllocateFrom(st, heap, skipped, full))
    decreases |heap|
  {
    if heap == [] || !noRoom(heap[0]) {
      assert skipped + [] == skipped;
      if heap == [] {
        SearchEnds(before, st, skipped, full);
      } else {
        assert heap[0] in heap;
        SearchFinds(before, st, heap, skipped, full, noRoom);
      }
    } else {
      var st', rest := SearchOn(st, heap, skipped, full, noRoom, lower);
      SearchSettles(before, st', rest, skipped + [heap[0]], full, noRoom, lower, settled);
      AsideStep(heap, skipped, noRoom, lower, rest);
    }
  }

  lemma AsideStep(heap: seq<int>, skipped: seq<int>, noRoom: int -> bool, lower: Order, rest: seq<int>)
    requires heap != [] && noRoom(heap[0]) && rest == Pop(heap, lower)
    ensures var s, s' := SkipFull(heap, noRoom, lower), SkipFull(rest, noRoom, lower);
            Search(s.rest, skipped + s.skipped) == Search(s'.rest, skipped + [heap[0]] + s'.skipped)
  {
    var s' := SkipFull(rest, noRoom, lower);
    assert skipped + [heap[0]] + s'.skipped == skipped + ([heap[0]] + s'.skipped);
  }

  /** The first primary has no room: the search goes on with the others. */
  lemma SearchOn(st: State, heap: seq<int>, skipped: seq<int>, full: int -> bool, noRoom: int -> bool, lower: Order)
    returns (st': State, rest: seq<int>)
    requires heap != [] && noRoom(heap[0]) && (forall p :: p in heap ==> p in st.esRgs)
    requires KnowsRoom(st, full, noRoom) && SameOrder(lower, MoreLoaded(st.esRgs))
    ensures rest == Pop(heap, lower) && (forall p :: p in rest ==> p in st'.esRgs)
    ensures KnowsRoom(st', full, noRoom) && SameOrder(lower, MoreLoaded(st'.esRgs)) && SameTotals(st.esRgs, st'.esRgs)
    ensures AllocateFrom(st, heap, skipped, full) == AllocateFrom(st', rest, skipped + [heap[0]], full)
  {
    var p := heap[0];
    assert p in heap;
    TakeGroupChoice(st.esRgs[p].heap, st.counts, full);
    var t := TakeGroup(st.esRgs[p].heap, st.counts, full);
    SearchGoesOn(st, p, full, noRoom, lower, t);
    st', rest := WithGroups(st, p, t.heap), Pop(heap, lower);
    PopSame(heap, lower, MoreLoaded(st'.esRgs));
    SkipsOne(st, heap, skipped, full, rest, t);
  }

  lemma SearchGoesOn(st: State, p: int, full: int -> bool, noRoom: int -> bool, lower: Order, t: Taken)
    requires p in st.esRgs && KnowsRoom(st, full, noRoom) && SameOrder(lower, MoreLoaded(st.esRgs))
    requires t == TakeGroup(st.esRgs[p].heap, st.counts, full) && t.chosen.None?
    ensures var st' := WithGroups(st, p, t.heap);
            KnowsRoom(st', full, noRoom) && SameOrder(lower, MoreLoaded(st'.esRgs)) && SameTotals(st.esRgs, st'.esRgs)
  {
    TakeGroupChoice(st.esRgs[p].heap, st.counts, full);
    TakeGroupMembers(st.esRgs[p].heap, st.counts, full);
    SameTotalsSameOrder(st.esRgs, WithGroups(st, p, t.heap).esRgs);
    forall x, y ensures lower(x, y) <==> MoreLoaded(WithGroups(st, p, t.heap).esRgs)(x, y) {
      SameAt(lower, MoreLoaded(st.esRgs), x, y);
    }
  }

  lemma SkipsOne(st: State, heap: seq<int>, skipped: seq<int>, full: int -> bool, rest: seq<int>, t: Taken)
    requires (forall p :: p in heap ==> p in st.esRgs) && heap != [] && heap[0] in st.esRgs
    requires t == TakeGroup(st.esRgs[heap[0]].heap, st.counts, full) && t.chosen.None?
    requires rest == Pop(heap, MoreLoaded(WithGroups(st, heap[0], t.heap).esRgs))
    ensures forall p :: p in rest ==> p in heap
    ensures AllocateFrom(st, heap, skipped, full)
            == AllocateFrom(WithGroups(st, heap[0], t.heap), rest, skipped + [heap[0]], full)
  {
    PopMembers(heap, MoreLoaded(WithGroups(st, heap[0], t.heap).esRgs));
  }

  lemma AllocateSettles(st: State, full: int -> bool)
    requires forall p :: p in st.esHeap ==> p in st.esRgs
    ensures Settled(st.esRgs, Aside(st, full), Allocate(st, full))
  {
    var settled := (s: Search, r: Allocation) => Settled(st.esRgs, s, r);
    SearchSettles(st.esRgs, st, st.esHeap, [], full, NoRoom(st, full), MoreLoaded(st.esRgs), settled);
    assert [] + Aside(st, full).skipped == Aside(st, full).skipped;
  }

  // ---------- the root after the put-back ----------

  /** What a search of an ordered heap puts aside and finds. */
  ghost predicate Gathered(heap: seq<int>, s: Search, key: Key)
  {
    && s.rest != [] && heap != [] && Heaped(s.rest, key) && OnlyRoot(s.rest, s.rest[0]) && s.rest[0] !in s.skipped
    && (s.skipped != [] ==> s.skipped[0] == heap[0])
    && (forall x :: x in s.skipped ==> key(heap[0]) <= key(x) <= key(s.rest[0]))
    && forall y :: y in s.rest ==> key(s.rest[0]) <= key(y)
  }

  lemma SearchGathers(heap: seq<int>, noRoom: int -> bool, lower: Order, key: Key)
    requires Heaped(heap, key) && Distinct(heap) && ByKey(lower, key) && SkipFull(heap, noRoom, lower).rest != []
    ensures Gathered(heap, SkipFull(heap, noRoom, lower), key)
  {
    var s := SkipFull(heap, noRoom, lower);
    var p := s.rest[0];
    assert p in s.rest;
    SkipFullOrder(heap, noRoom, lower, key);
    SkipFullMembers(heap, noRoom, lower);
    SkipFullContents(heap, noRoom, lower);
    DistinctCount(heap, p);
    assert multiset(s.rest)[p] == 1;
    forall x | x in s.skipped ensures key(heap[0]) <= key(x) <= key(p) {
      var i :| 0 <= i < |heap| && heap[i] == x;
      RootLeast(heap, key, i);
    }
    forall y | y in s.rest ensures key(p) <= key(y) {
      var i :| 0 <= i < |s.rest| && s.rest[i] == y;
      RootLeast(s.rest, key, i);
    }
  }

  /** Only the key of p may differ, and it has not gone down. */
  ghost predicate RaisedAt(key: Key, key': Key, p: int)
  {
    key'(p) >= key(p) && forall x :: x != p ==> key'(x) == key(x)
  }

  /**
   The element found still stands at the root after the put-back: nothing was put aside, or what was
   ties with it and either its key did not really go up or all of them are sheltered.
   */
  predicate Safe(s: Search, key: Key, after: int)
  {
    || s.rest == [] || s.skipped == []
    || (key(s.skipped[0]) == key(s.rest[0]) && (after == key(s.rest[0]) || Sheltered(s.rest, |s.skipped|, key)))
  }

  ghost predicate RootStays(s: Search, lower: Order)
  {
    s.rest != [] && PushAll(s.rest, s.skipped, lower)[0] == s.rest[0]
  }

  /** What was put aside first ranks above all that is left: it takes the root. */
  lemma PassedOver(heap: seq<int>, s: Search, lower': Order, key: Key, key': Key)
    requires Gathered(heap, s, key) && ByKey(lower', key') && RaisedAt(key, key', s.rest[0])
    requires s.skipped != [] && key(heap[0]) < key(s.rest[0])
    ensures !RootStays(s, lower')
  {
    var r := s.skipped[0];
    assert r in s.skipped;
    forall x | x in s.rest ensures lower'(x, r) {
      ByKeyAt(lower', key', x, r);
    }
    PushToRoot(s.rest, r, lower');
    forall x | x in s.skipped[1..] ensures !lower'(r, x) {
      assert x in s.skipped;
      ByKeyAt(lower', key', r, x);
    }
    PushAllKeepsRoot(Push(s.rest, r, lower'), s.skipped[1..], lower');
  }

  lemma AllTie(heap: seq<int>, s: Search, key: Key, x: int)
    requires Gathered(heap, s, key) && s.skipped != [] && key(heap[0]) == key(s.rest[0]) && x in s.skipped
    ensures x != s.rest[0] && key(x) == key(s.rest[0])
  {
  }

  /** A tie with a root whose key did not go up leaves it where it is. */
  lemma NotRaised(heap: seq<int>, s: Search, lower: Order, lower': Order, key: Key, key': Key)
    requires Gathered(heap, s, key) && ByKey(lower, key) && ByKey(lower', key')
    requires RaisedAt(key, key', s.rest[0]) && key'(s.rest[0]) == key(s.rest[0])
    requires s.skipped != [] && key(heap[0]) == key(s.rest[0])
    ensures RootStays(s, lower') && Heaped(PushAll(s.rest, s.skipped, lower'), key)
  {
    forall x | x in s.skipped ensures !lower'(s.rest[0], x) {
      AllTie(heap, s, key, x);
      ByKeyAt(lower', key', s.rest[0], x);
    }
    PushAllKeepsRoot(s.rest, s.skipped, lower');
    forall x, y ensures lower'(x, y) <==> key(x) > key(y) {
      ByKeyAt(lower', key', x, y);
    }
    PushAllOrder(s.rest, s.skipped, lower', key);
  }

  lemma RaisedTie(heap: seq<int>, s: Search, lower: Order, lower': Order, key: Key, key': Key)
    requires Gathered(heap, s, key) && ByKey(lower, key) && ByKey(lower', key')
    requires RaisedAt(key, key', s.rest[0]) && key'(s.rest[0]) > key(s.rest[0])
    requires s.skipped != [] && key(heap[0]) == key(s.rest[0])
    ensures RootStays(s, lower') <==> Sheltered(s.rest, |s.skipped|, key)
    ensures RootStays(s, lower') ==> Heaped(PushAll(s.rest, s.skipped, lower'), key)
  {
    forall x | x in s.skipped ensures x != s.rest[0] && key(x) == key(s.rest[0]) {
      AllTie(heap, s, key, x);
    }
    PushAllTie(s.rest, s.skipped, lower, lower', key, key', s.rest[0]);
    PushAllOrder(s.rest, s.skipped, lower, key);
  }

  lemma RootStaysIff(heap: seq<int>, s: Search, lower: Order, lower': Order, key: Key, key': Key)
    requires Gathered(heap, s, key) && ByKey(lower, key) && ByKey(lower', key') && RaisedAt(key, key', s.rest[0])
    ensures RootStays(s, lower') <==> Safe(s, key, key'(s.rest[0]))
    ensures RootStays(s, lower') ==> Heaped(PushAll(s.rest, s.skipped, lower'), key)
  {
    if s.skipped != [] {
      if key(heap[0]) < key(s.rest[0]) {
        PassedOver(heap, s, lower', key, key');
      } else {
        assert s.skipped[0] in s.skipped;
        if key'(s.rest[0]) == key(s.rest[0]) {
          NotRaised(heap, s, lower, lower', key, key');
        } else {
          RaisedTie(heap, s, lower, lower', key, key');
        }
      }
    }
  }

  // ---------- one allocation ----------

  /** The primaries stand in the heap once each, in the order of their loads. */
  ghost predicate Orderly(st: State)
  {
    Distinct(st.esHeap) && Heaped(st.esHeap, LoadKey(st.esRgs))
  }

  /** The primaries' heap holds what it held. */
  ghost predicate KeptBy(st: State, st': State)
  {
    multiset(st'.esHeap) == multiset(st.esHeap)
  }

  ghost predicate SafeStep(st: State, full: int -> bool)
  {
    var s := Aside(st, full);
    Safe(s, LoadKey(st.esRgs), if s.rest == [] then 0 else LoadAfter(st.esRgs, s.rest[0]))
  }

  lemma LoadsOrder(esRgs: map<int, EsRg>)
    ensures ByKey(MoreLoaded(esRgs), LoadKey(esRgs))
  {
  }

  lemma OneMoreRaises(a: map<int, EsRg>, b: map<int, EsRg>, p: int)
    requires OneMore(a, b, p)
    ensures RaisedAt(LoadKey(a), LoadKey(b), p) && LoadKey(b)(p) == LoadAfter(a, p)
  {
    if a[p].weight > 0 {
      Words.DivMonotone(10000 * a[p].count, 10000 * (a[p].count + 1), a[p].weight);
    }
  }

  /** In any heap whatever: the primaries are kept exactly when the one found is at the root for the pop. */
  lemma KeptIffRoot(st: State, full: int -> bool)
    requires forall p :: p in st.esHeap ==> p in st.esRgs
    ensures var s, st' := Aside(st, full), Allocate(st, full).st;
            KeptBy(st, st') <==> s.rest == [] || RootStays(s, MoreLoaded(st'.esRgs))
  {
    var s, st' := Aside(st, full), Allocate(st, full).st;
    var lower := MoreLoaded(st'.esRgs);
    AllocateSettles(st, full);
    SkipFullContents(st.esHeap, NoRoom(st, full), MoreLoaded(st.esRgs));
    PushAllContents(s.rest, s.skipped, lower);
    if s.rest != [] {
      RequeueKeepsIff(PushAll(s.rest, s.skipped, lower), s.rest[0], lower);
    }
  }

  /** In a heap that is in order: exactly when the step is safe, and then the heap is in order again. */
  lemma PrimariesKeptIff(st: State, full: int -> bool)
    requires (forall p :: p in st.esHeap ==> p in st.esRgs) && Orderly(st)
    ensures KeptBy(st, Allocate(st, full).st) <==> SafeStep(st, full)
    ensures KeptBy(st, Allocate(st, full).st) ==> Orderly(Allocate(st, full).st)
  {
    var s, st' := Aside(st, full), Allocate(st, full).st;
    AllocateSettles(st, full);
    KeptIffRoot(st, full);
    LoadsOrder(st.esRgs);
    LoadsOrder(st'.esRgs);
    if s.rest == [] {
      NothingFound(st, s, st');
    } else {
      SearchGathers(st.esHeap, NoRoom(st, full), MoreLoaded(st.esRgs), LoadKey(st.esRgs));
      OneMoreRaises(st.esRgs, st'.esRgs, s.rest[0]);
      RootStaysIff(st.esHeap, s, MoreLoaded(st.esRgs), MoreLoaded(st'.esRgs), LoadKey(st.esRgs), LoadKey(st'.esRgs));
      if KeptBy(st, st') {
        OrderlyAgain(st, s, st');
      }
    }
  }

  lemma NothingFound(st: State, s: Search, st': State)
    requires Distinct(st.esHeap) && KeptBy(st, st') && st'.esHeap == PushAll([], s.skipped, MoreLoaded(st'.esRgs))
    ensures Orderly(st')
  {
    LoadsOrder(st'.esRgs);
    PushAllOrder([], s.skipped, MoreLoaded(st'.esRgs), LoadKey(st'.esRgs));
    SameContentsDistinct(st.esHeap, st'.esHeap);
  }

  lemma OrderlyAgain(st: State, s: Search, st': State)
    requires Distinct(st.esHeap) && KeptBy(st, st') && s.rest != [] && OneMore(st.esRgs, st'.esRgs, s.rest[0])
    requires st'.esHeap == RequeuedHeap(s.rest, s.skipped, st'.esRgs) && RootStays(s, MoreLoaded(st'.esRgs))
    requires Heaped(PushAll(s.rest, s.skipped, MoreLoaded(st'.esRgs)), LoadKey(st.esRgs))
    ensures Orderly(st')
  {
    var restored, lower := PushAll(s.rest, s.skipped, MoreLoaded(st'.esRgs)), MoreLoaded(st'.esRgs);
    RequeueKeepsIff(restored, s.rest[0], lower);
    SameContentsDistinct(st.esHeap, st'.esHeap);
    SameContentsDistinct(st'.esHeap, restored);
    LoadsOrder(st'.esRgs);
    OneMoreRaises(st.esRgs, st'.esRgs, s.rest[0]);
    RaisedRoot(restored, lower, LoadKey(st'.esRgs), LoadKey(st.esRgs));
  }

  // ---------- equal loads ----------

  ghost predicate EquallyLoaded(st: State)
  {
    forall p, q :: p in st.esHeap && q in st.esHeap ==> Load(st.esRgs, p) == Load(st.esRgs, q)
  }

  /**
   With equal loads, as after every fresh set-up, and an extent that counts: the primaries are kept exactly
   when none or the root has room, or at least three are left in the heap when one with room is found.
   */
  lemma TiedKeptIff(st: State, full: int -> bool)
    requires (forall p :: p in st.esHeap ==> p in st.esRgs) && Distinct(st.esHeap) && EquallyLoaded(st)
    requires forall p :: p in st.esHeap ==> LoadAfter(st.esRgs, p) > Load(st.esRgs, p)
    ensures var s := Aside(st, full);
            KeptBy(st, Allocate(st, full).st) <==> s.rest == [] || s.skipped == [] || |s.rest| > 2
  {
    var s := Aside(st, full);
    TiedIsOrderly(st);
    PrimariesKeptIff(st, full);
    SkipFullMembers(st.esHeap, NoRoom(st, full), MoreLoaded(st.esRgs));
    if s.rest != [] && s.skipped != [] {
      assert s.rest[0] in s.rest && s.skipped[0] in s.skipped;
      TiedShelter(s.rest, |s.skipped|, st);
    }
  }

  lemma TiedIsOrderly(st: State)
    requires Distinct(st.esHeap) && EquallyLoaded(st)
    ensures Orderly(st)
  {
    forall p: nat, c: nat | Child(p, c) && c < |st.esHeap|
      ensures LoadKey(st.esRgs)(st.esHeap[p]) <= LoadKey(st.esRgs)(st.esHeap[c])
    {
      var x, y := st.esHeap[p], st.esHeap[c];
      assert x in st.esHeap && y in st.esHeap;
    }
  }

  lemma TiedShelter(rest: seq<int>, n: nat, st: State)
    requires rest != [] && n > 0 && EquallyLoaded(st) && forall q :: q in rest ==> q in st.esHeap
    ensures Sheltered(rest, n, LoadKey(st.esRgs)) <==> |rest| > 2
  {
    if |rest| > 2 {
      forall j | |rest| <= j < |rest| + n ensures LoadKey(st.esRgs)(rest[Top(j)]) == LoadKey(st.esRgs)(rest[0]) {
        var q, r := rest[Top(j)], rest[0];
        assert q in rest && r in rest;
      }
    }
  }

  // ---------- many allocations ----------

  ghost predicate KeptTo(st: State, n: nat, full: int -> bool)
  {
    KeptBy(st, AllocateMany(st, n, full).st)
  }

  ghost predicate SafeAt(st: State, n: nat, full: int -> bool)
  {
    AllocateMany(st, n, full).ok ==> SafeStep(AllocateMany(st, n, full).st, full)
  }

  lemma RunStands(st: State, n: nat, full: int -> bool)
    requires Consistent(st)
    ensures Consistent(AllocateMany(st, n, full).st)
  {
    BatchCountsItsIds(st, n, full);
  }

  lemma OneMoreStep(st: State, n: nat, full: int -> bool)
    requires Consistent(AllocateMany(st, n, full).st)
    ensures var b, b' := AllocateMany(st, n, full), AllocateMany(st, n + 1, full);
            b'.st == if b.ok then Allocate(b.st, full).st else b.st
  {
  }

  lemma StepAlong(st: State, n: nat, full: int -> bool)
    requires Consistent(st) && Orderly(AllocateMany(st, n, full).st) && KeptTo(st, n, full)
    ensures KeptTo(st, n + 1, full) <==> SafeAt(st, n, full)
    ensures KeptTo(st, n + 1, full) ==> Orderly(AllocateMany(st, n + 1, full).st)
  {
    RunStands(st, n, full);
    OneMoreStep(st, n, full);
    if AllocateMany(st, n, full).ok {
      PrimariesKeptIff(AllocateMany(st, n, full).st, full);
    }
  }

  /** From a good point that is kept, the next one is kept exactly when the step is safe, and is good if kept. */
  ghost predicate Stepwise(kept: nat -> bool, safe: nat -> bool, good: nat -> bool, i: nat)
  {
    good(i) && kept(i) ==> (kept(i + 1) <==> safe(i)) && (kept(i + 1) ==> good(i + 1))
  }

  lemma {:induction false} KeptStepByStep(kept: nat -> bool, safe: nat -> bool, good: nat -> bool, n: nat)
    requires good(0) && kept(0) && forall i: nat :: Stepwise(kept, safe, good, i)
    ensures (forall i: nat | i <= n :: kept(i)) <==> (forall i: nat | i < n :: safe(i))
    ensures (forall i: nat | i <= n :: kept(i)) ==> good(n)
  {
    if n > 0 {
      KeptStepByStep(kept, safe, good, n - 1);
      assert Stepwise(kept, safe, good, n - 1);
    }
  }

  /** A run of allocations, near-full groups or not, keeps all primaries all along exactly when each step is safe. */
  lemma RunKeepsPrimariesIff(st: State, n: nat, full: int -> bool)
    requires Consistent(st) && Orderly(st)
    ensures (forall i: nat | i <= n :: KeptTo(st, i, full)) <==> (forall i: nat | i < n :: SafeAt(st, i, full))
  {
    var kept, safe := (i: nat) => KeptTo(st, i, full), (i: nat) => SafeAt(st, i, full);
    var good := (i: nat) => Orderly(AllocateMany(st, i, full).st);
    forall i: nat ensures Stepwise(kept, safe, good, i) {
      if good(i) && kept(i) {
        StepAlong(st, i, full);
      }
    }
    assert AllocateMany(st, 0, full).st == st;
    KeptStepByStep(kept, safe, good, n);
    assert forall i: nat :: kept(i) <==> KeptTo(st, i, full);
    assert forall i: nat :: safe(i) <==> SafeAt(st, i, full);
  }

  // ---------- two cases ----------

  /** A primary with no room is lost: it is put back before the pop, and the pop takes it. */
  lemma LostPrimary()
    ensures var esRgs := map[1 := EsRg(1, 0, [10]), 2 := EsRg(1, 0, [20])];
            var st := State([10, 20], map[10 := 1, 20 := 2], map[10 := 0, 20 := 0], esRgs, [1, 2]);
            Allocate(st, x => x == 10).st.esHeap == [2, 2]
  {
    var counts: map<int, nat> := map[10 := 0, 20 := 0];
    var full := (x: int) => x == 10;
    var esRgs := map[1 := EsRg(1, 0, [10]), 2 := EsRg(1, 0, [20])];
    var st := State([10, 20], map[10 := 1, 20 := 2], counts, esRgs, [1, 2]);
    assert SkipFull([10], full, MoreExtents(counts)) == Search([], [10]) by {
      assert Pop([10], MoreExtents(counts)) == [];
      assert SkipFull([], full, MoreExtents(counts)) == Search([], []);
    }
    assert PushAll([], [10], MoreExtents(counts)) == [10] by {
      assert Push([], 10, MoreExtents(counts)) == [10];
      assert PushAll([10], [], MoreExtents(counts)) == [10];
    }
    assert TakeGroup([10], counts, full) == Taken([10], counts, None);
    var st' := WithGroups(st, 1, [10]);
    assert st' == st;
    assert Pop([1, 2], MoreLoaded(esRgs)) == [2];
    assert SkipFull([20], full, MoreExtents(counts)) == Search([20], []);
    var t := TakeGroup([20], counts, full);
    assert t.chosen == Some(20);
    var raised := Raised(st, 2, t);
    assert Load(raised, 2) == 10000 && Load(raised, 1) == 0;
    assert Push([2], 1, MoreLoaded(raised)) == [1, 2] by {
      assert SiftUp([2, 2], 0, 1, MoreLoaded(raised)) == [1, 2];
    }
    assert PushAll([1, 2], [], MoreLoaded(raised)) == [1, 2];
    assert PushAll([2], [1], MoreLoaded(raised)) == [1, 2];
    assert Pop([1, 2], MoreLoaded(raised)) == [2];
    assert Push([2], 2, MoreLoaded(raised)) == [2, 2];
    assert AllocateFrom(st, [2], [1], full).st.esHeap == [2, 2];
    assert AllocateFrom(st, [1, 2], [], full) == AllocateFrom(st, [2], [] + [1], full);
  }

  function FourPrimaries(): State
  {
    var esRgs := map[1 := EsRg(1, 0, [10]), 2 := EsRg(1, 0, [20]), 3 := EsRg(1, 0, [30]), 4 := EsRg(1, 0, [40])];
    State([10, 20, 30, 40], map[10 := 1, 20 := 2, 30 := 3, 40 := 4], map[10 := 0, 20 := 0, 30 := 0, 40 := 0], esRgs,
          [1, 3, 2, 4])
  }

  lemma PopOfTies(lower: Order)
    requires !lower(2, 3) && !lower(2, 4)
    ensures Pop([1, 3, 2, 4], lower) == [2, 3, 4]
  {
    assert [1, 3, 2, 4][..3] == [1, 3, 2];
    assert BetterChild([1, 3, 2], 0, lower) == 2;
    assert [1, 3, 2][0 := 2] == [2, 3, 2];
    assert SinkHole([2, 3, 2], 2, lower) == ([2, 3, 2], 2);
    assert SinkHole([1, 3, 2], 0, lower) == ([2, 3, 2], 2);
    assert SiftUp([2, 3, 2], 2, 4, lower) == [2, 3, 4];
  }

  lemma FourAside(st: State, full: int -> bool)
    requires st == FourPrimaries() && full(10) && !full(20)
    ensures Aside(st, full) == Search([2, 3, 4], [1])
  {
    var noRoom, lower := NoRoom(st, full), MoreLoaded(st.esRgs);
    assert noRoom(1);
    assert 20 in st.esRgs[2].heap;
    PopOfTies(lower);
    assert SkipFull([2, 3, 4], noRoom, lower) == Search([2, 3, 4], []);
    assert [1] + [] == [1];
  }

  lemma FourEqual(st: State, p: int)
    requires st == FourPrimaries() && p in st.esHeap
    ensures p in st.esRgs && Load(st.esRgs, p) == 0 && LoadAfter(st.esRgs, p) == 10000
  {
  }

  /** With ties a primary without room can stay: it does not pass the equally loaded ones on its way up. */
  lemma TiedPrimaryKept(st: State, full: int -> bool)
    requires st == FourPrimaries() && full(10) && !full(20)
    ensures multiset(Allocate(st, full).st.esHeap) == multiset(st.esHeap)
  {
    forall p | p in st.esHeap ensures p in st.esRgs && Load(st.esRgs, p) == 0 && LoadAfter(st.esRgs, p) == 10000 {
      FourEqual(st, p);
    }
    FourAside(st, full);
    TiedKeptIff(st, full);
  }
}
