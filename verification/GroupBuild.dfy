/** Building the two levels of heaps from the group map, and balance from a fresh build. */
module GroupBuild {
  import opened Common
  import opened Heap
  import opened Groups
  import opened GroupAccounting
  import opened GroupBalance

  lemma PushDistinct(a: seq<int>, x: int, lower: Order)
    requires Distinct(a) && x !in a
    ensures Distinct(Push(a, x, lower))
  {
    DistinctMultiset(a);
    PushContents(a, x, lower);
    assert multiset(a)[x] == 0;
    MultisetDistinct(Push(a, x, lower));
  }

  /** A primary's record covers exactly its groups among those handled so far. */
  ghost predicate Covers(primary: map<int, int>, counts: map<int, nat>, done: seq<int>, p: int, e: EsRg)
  {
    && e.heap != [] && Distinct(e.heap) && Heaped(e.heap, CountKey(counts))
    && (forall x :: x in e.heap <==> x in done && x in primary && primary[x] == p)
    && e.weight == |e.heap|
    && e.count == TotalOf(done, primary, counts, p)
  }

  ghost predicate Built(st: State, done: seq<int>)
  {
    && (forall p :: p in st.esRgs ==> Covers(st.primary, st.counts, done, p, st.esRgs[p]))
    && Distinct(st.esHeap)
    && (forall p :: p in st.esHeap <==> p in st.esRgs)
    && (forall x :: x in done ==> x in st.primary && st.primary[x] in st.esRgs)
  }

  lemma TotalOneMore(done: seq<int>, primary: map<int, int>, counts: map<int, nat>, x: int, p: int)
    ensures TotalOf(done + [x], primary, counts, p)
            == TotalOf(done, primary, counts, p) + if x in primary && primary[x] == p then Count(counts, x) else 0
  {
  }

  lemma {:induction false} TotalOfNone(done: seq<int>, primary: map<int, int>, counts: map<int, nat>, p: int)
    requires forall x :: x in done && x in primary ==> primary[x] != p
    ensures TotalOf(done, primary, counts, p) == 0
  {
    if done != [] {
      TotalOfNone(done[..|done| - 1], primary, counts, p);
    }
  }

  lemma CoversPushed(primary: map<int, int>, counts: map<int, nat>, done: seq<int>, p: int, e: EsRg, x: int)
    requires x in primary && primary[x] == p && x !in done && Covers(primary, counts, done, p, e)
    ensures Covers(primary, counts, done + [x], p,
                   EsRg(e.weight + 1, e.count + Count(counts, x), Push(e.heap, x, MoreExtents(counts))))
  {
    PushDistinct(e.heap, x, MoreExtents(counts));
    PushMembers(e.heap, x, MoreExtents(counts));
    PushOrder(e.heap, x, MoreExtents(counts), CountKey(counts));
    TotalOneMore(done, primary, counts, x, p);
  }

  lemma CoversFirst(primary: map<int, int>, counts: map<int, nat>, done: seq<int>, p: int, x: int)
    requires x in primary && primary[x] == p && x !in done
    requires forall y :: y in done && y in primary ==> primary[y] != p
    ensures Covers(primary, counts, done + [x], p, EsRg(1, Count(counts, x), Push([], x, MoreExtents(counts))))
  {
    PushDistinct([], x, MoreExtents(counts));
    PushMembers([], x, MoreExtents(counts));
    TotalOneMore(done, primary, counts, x, p);
    TotalOfNone(done, primary, counts, p);
  }

  lemma CoversOther(primary: map<int, int>, counts: map<int, nat>, done: seq<int>, p: int, e: EsRg, x: int)
    requires x in primary && primary[x] != p && Covers(primary, counts, done, p, e)
    ensures Covers(primary, counts, done + [x], p, e)
  {
  }

  lemma AddGroupBuilds(st: State, done: seq<int>, x: int)
    requires Built(st, done) && x in st.primary && x !in done
    ensures Built(AddGroup(st, x), done + [x])
  {
    var p := st.primary[x];
    var st' := AddGroup(st, x);
    forall q | q in st'.esRgs
      ensures Covers(st.primary, st.counts, done + [x], q, st'.esRgs[q])
    {
      if q != p {
        CoversOther(st.primary, st.counts, done, q, st.esRgs[q], x);
      } else if p in st.esRgs {
        CoversPushed(st.primary, st.counts, done, p, st.esRgs[p], x);
      } else {
        CoversFirst(st.primary, st.counts, done, p, x);
      }
    }
    if p !in st.esRgs {
      PushDistinct(st.esHeap, p, MoreLoaded(st'.esRgs));
      PushMembers(st.esHeap, p, MoreLoaded(st'.esRgs));
    }
  }

  lemma LastIsNew(order: seq<int>, n: nat)
    requires 0 < n <= |order| && Distinct(order)
    ensures order[n - 1] !in order[..n - 1] && order[n - 1] in order && order[..n] == order[..n - 1] + [order[n - 1]]
  {
  }

  lemma {:induction false} BuildToBuilds(order: seq<int>, primary: map<int, int>, counts: map<int, nat>, n: nat)
    requires n <= |order| && Distinct(order) && forall x :: x in order ==> x in primary
    ensures Built(BuildTo(order, primary, counts, n), order[..n])
  {
    if n > 0 {
      BuildToBuilds(order, primary, counts, n - 1);
      OneMoreBuilds(order, BuildTo(order, primary, counts, n - 1), n);
    }
  }

  lemma OneMoreBuilds(order: seq<int>, st: State, n: nat)
    requires 0 < n <= |order| && Distinct(order) && order[n - 1] in st.primary && Built(st, order[..n - 1])
    ensures Built(AddGroup(st, order[n - 1]), order[..n])
  {
    LastIsNew(order, n);
    AddGroupBuilds(st, order[..n - 1], order[n - 1]);
  }

  /** Whatever the counts, building gives true totals and groups under their own primaries. */
  lemma BuildIsConsistent(order: seq<int>, primary: map<int, int>, counts: map<int, nat>)
    requires order != [] && Distinct(order)
    requires forall x :: x in order ==> x in primary && x in counts
    ensures Built(Build(order, primary, counts), order)
    ensures Consistent(Build(order, primary, counts))
  {
    BuildToBuilds(order, primary, counts, |order|);
    assert order[..|order|] == order;
    var st := Build(order, primary, counts);
    forall p | p in st.esRgs
      ensures EsRgOk(st, p)
    {
      assert Covers(primary, counts, order, p, st.esRgs[p]);
    }
    assert order[0] in order;
    assert primary[order[0]] in st.esHeap;
  }

  lemma {:induction false} TotalOfZeros(order: seq<int>, primary: map<int, int>, counts: map<int, nat>, p: int)
    requires forall x :: x in order ==> Count(counts, x) == 0
    ensures TotalOf(order, primary, counts, p) == 0
  {
    if order != [] {
      assert order[|order| - 1] in order;
      TotalOfZeros(order[..|order| - 1], primary, counts, p);
    }
  }

  /** With no extents counted yet, the build is balanced. */
  lemma FreshBuildBalanced(order: seq<int>, primary: map<int, int>, counts: map<int, nat>)
    requires order != [] && Distinct(order)
    requires forall x :: x in order ==> x in primary && x in counts && counts[x] == 0
    ensures Balanced(Build(order, primary, counts))
  {
    BuildIsConsistent(order, primary, counts);
    var st := Build(order, primary, counts);
    forall p | p in st.esRgs
      ensures GroupsBalanced(st.esRgs[p], counts) && st.esRgs[p].count == 0 && Load(st.esRgs, p) == 0
    {
      assert Covers(primary, counts, order, p, st.esRgs[p]);
      TotalOfZeros(order, primary, counts, p);
      assert 0 / st.esRgs[p].weight == 0;
    }
    forall i | 0 <= i < |st.esHeap| ensures st.esHeap[i] in st.esRgs {
      var p := st.esHeap[i];
      assert p in st.esHeap;
    }
  }

  /**
   After a fresh build, any number of allocations with no near-full group: counts under one primary
   differ by at most one, no primary ran ahead of another, and both heaps keep order and members.
   */
  lemma FreshRunStaysBalanced(order: seq<int>, primary: map<int, int>, counts: map<int, nat>, n: nat,
                              full: int -> bool)
    requires order != [] && Distinct(order) && Roomy(order, full)
    requires forall x :: x in order ==> x in primary && x in counts && counts[x] == 0
    ensures var st := AllocateMany(Build(order, primary, counts), n, full).st;
            && (forall p, x, y :: p in st.esRgs && x in st.esRgs[p].heap && y in st.esRgs[p].heap ==>
                  Count(st.counts, x) <= Count(st.counts, y) + 1)
            && (forall i, j :: i in st.esRgs && j in st.esRgs && st.esRgs[i].count > 0 ==>
                  NotAhead(st.esRgs[i], st.esRgs[j]))
    ensures Balanced(AllocateMany(Build(order, primary, counts), n, full).st)
    ensures SameHeapMembers(Build(order, primary, counts),
                            AllocateMany(Build(order, primary, counts), n, full).st)
  {
    FreshBuildBalanced(order, primary, counts);
    RunBalances(Build(order, primary, counts), n, full);
    SpelledOut(AllocateMany(Build(order, primary, counts), n, full).st);
  }

  /** Before its last extent the one primary had no more extents per group, scaled and rounded down, than the other. */
  predicate NotAhead(e: EsRg, other: EsRg)
  {
    e.weight > 0 && other.weight > 0 && 10000 * (e.count - 1) / e.weight <= 10000 * other.count / other.weight
  }

  lemma SpelledOut(st: State)
    requires Balanced(st)
    ensures forall p, x, y :: p in st.esRgs && x in st.esRgs[p].heap && y in st.esRgs[p].heap ==>
              Count(st.counts, x) <= Count(st.counts, y) + 1
    ensures forall i, j :: i in st.esRgs && j in st.esRgs && st.esRgs[i].count > 0 ==>
              NotAhead(st.esRgs[i], st.esRgs[j])
  {
    forall i, j | i in st.esRgs && j in st.esRgs && st.esRgs[i].count > 0 ensures NotAhead(st.esRgs[i], st.esRgs[j]) {
      assert LoadBefore(st.esRgs, i) <= Load(st.esRgs, j);
      assert GroupsBalanced(st.esRgs[i], st.counts) && GroupsBalanced(st.esRgs[j], st.counts);
    }
  }

  // ---------- order after a build ----------

  /** Every group of a primary p has u(p) extents. */
  ghost predicate Uniform(order: seq<int>, primary: map<int, int>, counts: map<int, nat>, u: int -> nat)
  {
    forall x :: x in order ==> x in primary && Count(counts, x) == u(primary[x])
  }

  /** Both levels are in heap order, and a primary's load is that of each of its groups. */
  ghost predicate InOrder(st: State, u: int -> nat)
  {
    && (forall p :: p in st.esHeap ==> p in st.esRgs)
    && Heaped(st.esHeap, LoadKey(st.esRgs))
    && (forall p :: p in st.esRgs ==> InOrderUnder(st.esRgs[p], st.counts, u(p)))
  }

  ghost predicate InOrderUnder(e: EsRg, counts: map<int, nat>, k: nat)
  {
    e.weight > 0 && e.count == e.weight * k && Heaped(e.heap, CountKey(counts))
  }

  lemma SteadyLoad(esRgs: map<int, EsRg>, p: int, k: nat)
    requires p in esRgs && esRgs[p].weight > 0 && esRgs[p].count == esRgs[p].weight * k
    ensures Load(esRgs, p) == 10000 * k
  {
    var w := esRgs[p].weight;
    Words.DivModUnique(10000 * (w * k), w, 10000 * k, 0);
  }

  /** Keys that are the same give the same order. */
  lemma SameKeys(a: seq<int>, key: Key, key': Key)
    requires Heaped(a, key) && forall x :: x in a ==> key(x) == key'(x)
    ensures Heaped(a, key')
  {
    forall p: nat, c: nat | Child(p, c) && c < |a| ensures key'(a[p]) <= key'(a[c]) {
      assert key(a[p]) <= key(a[c]);
      var x, y := a[p], a[c];
      assert x in a && y in a;
      assert key(x) == key'(x) && key(y) == key'(y);
    }
  }

  lemma OneMoreGroup(e: EsRg, counts: map<int, nat>, x: int, k: nat)
    requires InOrderUnder(e, counts, k) && Count(counts, x) == k
    ensures InOrderUnder(EsRg(e.weight + 1, e.count + k, Push(e.heap, x, MoreExtents(counts))), counts, k)
  {
    PushOrder(e.heap, x, MoreExtents(counts), CountKey(counts));
    assert (e.weight + 1) * k == e.weight * k + k;
  }

  lemma FirstGroup(counts: map<int, nat>, x: int, k: nat)
    requires Count(counts, x) == k
    ensures InOrderUnder(EsRg(1, k, Push([], x, MoreExtents(counts))), counts, k)
  {
    PushOrder([], x, MoreExtents(counts), CountKey(counts));
  }

  lemma AddGroupInOrder(st: State, x: int, u: int -> nat)
    requires InOrder(st, u) && x in st.primary && Count(st.counts, x) == u(st.primary[x])
    ensures InOrder(AddGroup(st, x), u)
  {
    var p, st' := st.primary[x], AddGroup(st, x);
    if p in st.esRgs {
      OneMoreGroup(st.esRgs[p], st.counts, x, u(p));
    } else {
      FirstGroup(st.counts, x, u(p));
    }
    forall q | q in st.esHeap ensures LoadKey(st'.esRgs)(q) == LoadKey(st.esRgs)(q) {
      SteadyLoad(st.esRgs, q, u(q));
      SteadyLoad(st'.esRgs, q, u(q));
    }
    SameKeys(st.esHeap, LoadKey(st.esRgs), LoadKey(st'.esRgs));
    if p !in st.esRgs {
      PushOrder(st.esHeap, p, MoreLoaded(st'.esRgs), LoadKey(st'.esRgs));
      PushMembers(st.esHeap, p, MoreLoaded(st'.esRgs));
    }
  }

  /** With equal counts within each primary, as after a fresh set-up, building leaves both levels in heap order. */
  lemma {:induction false} UniformBuildInOrder(order: seq<int>, primary: map<int, int>, counts: map<int, nat>,
                                               u: int -> nat, n: nat)
    requires n <= |order| && Uniform(order, primary, counts, u)
    ensures InOrder(BuildTo(order, primary, counts, n), u)
  {
    if n > 0 {
      UniformBuildInOrder(order, primary, counts, u, n - 1);
      assert order[n - 1] in order;
      AddGroupInOrder(BuildTo(order, primary, counts, n - 1), order[n - 1], u);
    }
  }

  /** After recovery the primaries may be out of order: keys change after their element was pushed. */
  lemma RecoveredHeapOutOfOrder()
    ensures var st := Build([0, 1, 2], map[0 := 1, 1 := 2, 2 := 1], map[0 := 0, 1 := 1, 2 := 10]);
            && st.esHeap == [1, 2]
            && Load(st.esRgs, 1) == 50000 && Load(st.esRgs, 2) == 10000
            && !Heaped(st.esHeap, LoadKey(st.esRgs))
  {
    var order, primary := [0, 1, 2], map[0 := 1, 1 := 2, 2 := 1];
    var counts: map<int, nat> := map[0 := 0, 1 := 1, 2 := 10];
    var s1, s2, s3 := BuildTo(order, primary, counts, 1), BuildTo(order, primary, counts, 2),
      BuildTo(order, primary, counts, 3);
    assert s1.esHeap == [1] && s1.esRgs[1].weight == 1 && s1.esRgs[1].count == 0;
    assert s2.esRgs[2].weight == 1 && s2.esRgs[2].count == 1;
    assert !MoreLoaded(s2.esRgs)(1, 2);
    assert s2.esHeap == [1, 2];
    assert s3.esHeap == [1, 2] && s3.esRgs[1].weight == 2 && s3.esRgs[1].count == 10;
    assert Child(0, 1);
  }
}
