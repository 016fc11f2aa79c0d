/**
 How evenly the allocator spreads the groups: the comparator of its heap weighs the groups a server
 follows and leads by the server's weight. While primaries are chosen it is an order, and no server gets
 to lead more than its share; once servers follow groups it need not be one any more.
 */
module PrimarySpread {
  import opened Common
  import opened Heap
  import opened HeapSearch
  import opened Selection
  import opened GroupBalance
  import Words

  /** A server's weight: its capacity in extents, over what all capacities have in common. */
  type Weights = int -> nat

  /** What the comparator compares: groups per weight, scaled and rounded down. */
  function Share(n: nat, weight: nat): nat
  {
    if weight == 0 then 0 else 1000000 * n / weight
  }

  /** The comparator: x comes after y if it follows more than its share, or leads more. */
  function EsRank(weights: Weights): Rank
  {
    (c: Counters, x: int, y: int) =>
      || Share(At(c.sec, x), weights(x)) > Share(At(c.sec, y), weights(y))
      || Share(At(c.pri, x), weights(x)) > Share(At(c.pri, y), weights(y))
  }

  /** Two servers each come after the other exactly when one follows more and the other leads more. */
  lemma ClashesIff(weights: Weights, c: Counters, x: int, y: int)
    ensures EsRank(weights)(c, x, y) && EsRank(weights)(c, y, x)
            <==> var sec := (v: int) => Share(At(c.sec, v), weights(v));
                 var pri := (v: int) => Share(At(c.pri, v), weights(v));
                 (sec(x) > sec(y) && pri(y) > pri(x)) || (sec(y) > sec(x) && pri(x) > pri(y))
  {
  }

  // ---------- what a heap in order gives ----------

  /** A primary is one that no other server comes before. */
  lemma PrimaryLeast(rank: Rank, a: Alloc, key: Key)
    requires a.ess != [] && Heaped(a.ess, key)
    ensures var p := PickPrimary(rank, a); p.es.Some? && forall v :: v in a.ess ==> key(p.es.value) <= key(v)
  {
    forall v | v in a.ess ensures key(a.ess[0]) <= key(v) {
      var i :| 0 <= i < |a.ess| && a.ess[i] == v;
      RootLeast(a.ess, key, i);
    }
  }

  /** A secondary is one that no other server outside the group comes before. */
  lemma SecondaryLeast(rank: Rank, a: Alloc, group: seq<int>, key: Key)
    requires ByKey(Lower(rank, a.counters), key) && Heaped(a.ess, key)
    ensures var p := PickSecondary(rank, a, group);
            p.es.Some? ==> forall v :: v in a.ess && v !in group ==> key(p.es.value) <= key(v)
  {
    var lower := Lower(rank, a.counters);
    var s := SkipFull(a.ess, In(group), lower);
    SkipFullOrder(a.ess, In(group), lower, key);
    SkipFullMembers(a.ess, In(group), lower);
    if s.rest != [] {
      forall v | v in a.ess && v !in group ensures key(s.rest[0]) <= key(v) {
        assert v in s.rest;
        var i :| 0 <= i < |s.rest| && s.rest[i] == v;
        RootLeast(s.rest, key, i);
      }
    }
  }

  /** With a comparator that stays an order, the heap is in order again after a secondary was chosen and counted. */
  lemma SecondaryKeepsOrder(rank: Rank, a: Alloc, group: seq<int>, key: Key, key': Key)
    requires Distinct(a.ess) && ByKey(Lower(rank, a.counters), key) && Heaped(a.ess, key)
    requires var p := PickSecondary(rank, a, group);
             && p.es.Some? && ByKey(Lower(rank, p.alloc.counters), key')
             && forall v :: v in a.ess && v != p.es.value ==> key'(v) == key(v)
    ensures Heaped(PickSecondary(rank, a, group).alloc.ess, key')
  {
    var lower := Lower(rank, a.counters);
    var s := SkipFull(a.ess, In(group), lower);
    var lower' := Lower(rank, PickSecondary(rank, a, group).alloc.counters);
    SkipFullOrder(a.ess, In(group), lower, key);
    SkipFullMembers(a.ess, In(group), lower);
    RestDistinct(a.ess, In(group), lower);
    RaisedRoot(s.rest, lower', key', key);
    PushAllOrder(Requeue(s.rest, s.rest[0], lower'), s.skipped, lower', key');
  }

  lemma RestDistinct(heap: seq<int>, full: int -> bool, lower: Order)
    requires Distinct(heap)
    ensures Distinct(SkipFull(heap, full, lower).rest)
  {
    var s := SkipFull(heap, full, lower);
    SkipFullContents(heap, full, lower);
    DistinctMultiset(heap);
    forall x ensures multiset(s.rest)[x] <= 1 {
      assert (multiset(s.rest) + multiset(s.skipped))[x] == multiset(heap)[x] <= 1;
    }
    MultisetDistinct(s.rest);
  }

  // ---------- primaries ----------

  function LeadKey(weights: Weights, c: Counters): Key
  {
    v => Share(At(c.pri, v), weights(v))
  }

  /** As long as no server follows a group the comparator is an order. */
  lemma ByLeads(weights: Weights, c: Counters)
    requires c.sec == map[]
    ensures ByKey(Lower(EsRank(weights), c), LeadKey(weights, c))
  {
    forall v ensures Share(At(c.sec, v), weights(v)) == 0 {
      NoShare(weights(v));
    }
  }

  lemma NoShare(weight: nat)
    ensures Share(0, weight) == 0
  {
    if weight > 0 {
      Words.DivModUnique(0, weight, 0, 0);
    }
  }

  /** Before its last group no server led more than the share of any other now. */
  ghost predicate Fair(weights: Weights, ess: seq<int>, leads: int -> nat)
  {
    forall i, j :: i in ess && j in ess && leads(i) > 0 ==>
                     Share(leads(i) - 1, weights(i)) <= Share(leads(j), weights(j))
  }

  function LeadsIn(c: Counters): int -> nat
  {
    v => At(c.pri, v)
  }

  ghost predicate Even(weights: Weights, a: Alloc, ess: seq<int>)
  {
    && Keeps(a, ess) && Distinct(a.ess) && a.counters.sec == map[]
    && Heaped(a.ess, LeadKey(weights, a.counters)) && Fair(weights, ess, LeadsIn(a.counters))
  }

  lemma ShareGrows(n: nat, weight: nat)
    ensures Share(n, weight) <= Share(n + 1, weight)
  {
    if weight > 0 {
      Words.DivMonotone(1000000 * n, 1000000 * (n + 1), weight);
    }
  }

  lemma FairAfterLead(weights: Weights, ess: seq<int>, c: Counters, es: int)
    requires es in ess && Fair(weights, ess, LeadsIn(c))
    requires forall v :: v in ess ==> LeadKey(weights, c)(es) <= LeadKey(weights, c)(v)
    ensures Fair(weights, ess, LeadsIn(Leading(c, es)))
  {
    var leads, leads' := LeadsIn(c), LeadsIn(Leading(c, es));
    forall i, j | i in ess && j in ess && leads'(i) > 0
      ensures Share(leads'(i) - 1, weights(i)) <= Share(leads'(j), weights(j))
    {
      ShareGrows(leads(j), weights(j));
      assert Share(leads(j), weights(j)) <= Share(leads'(j), weights(j));
      if i == es {
        assert LeadKey(weights, c)(es) <= LeadKey(weights, c)(j);
      } else {
        assert leads'(i) == leads(i);
      }
    }
  }

  lemma PickStaysEven(weights: Weights, a: Alloc, ess: seq<int>)
    requires Even(weights, a, ess) && ess != []
    ensures Even(weights, PickPrimary(EsRank(weights), a).alloc, ess)
  {
    var rank := EsRank(weights);
    PrimaryPicked(rank, a, ess);
    PrimaryLeast(rank, a, LeadKey(weights, a.counters));
    SameMembers(a.ess, multiset(ess));
    SameMembers(ess, multiset(ess));
    var c := Leading(a.counters, a.ess[0]);
    ByLeads(weights, c);
    RaisedRoot(a.ess, Lower(rank, c), LeadKey(weights, c), LeadKey(weights, a.counters));
    FairAfterLead(weights, ess, a.counters, a.ess[0]);
    SameContentsDistinct(a.ess, Requeue(a.ess, a.ess[0], Lower(rank, c)));
  }

  lemma {:induction false} PrimariesStayEven(weights: Weights, a: Alloc, ess: seq<int>, added: seq<seq<int>>, i: nat)
    requires Even(weights, a, ess) && ess != []
    ensures Even(weights, Primaries(EsRank(weights), a, added, i).alloc, ess)
    decreases |added| - i
  {
    if i < |added| {
      PickStaysEven(weights, a, ess);
      var p := PickPrimary(EsRank(weights), a);
      if p.es.Some? {
        PrimariesStayEven(weights, p.alloc, ess, Join(added, i, p.es.value), i + 1);
      }
    }
  }

  lemma NewAllocEven(weights: Weights, ess: seq<int>)
    requires Distinct(ess)
    ensures Even(weights, NewAlloc(EsRank(weights), ess), ess)
  {
    var c := Counters(map[], map[]);
    ByLeads(weights, c);
    NewAllocKeeps(EsRank(weights), ess);
    PushAllOrder([], ess, Lower(EsRank(weights), c), LeadKey(weights, c));
    SameContentsDistinct(ess, NewAlloc(EsRank(weights), ess).ess);
  }

  // ---------- what the groups show of it ----------

  lemma {:induction false} SameLeads(a: seq<seq<int>>, b: seq<seq<int>>, v: int)
    requires SameFirsts(a, b) && forall j | 0 <= j < |a| :: a[j] != []
    ensures Leads(a, v) == Leads(b, v)
  {
    if a != [] {
      var n := |a| - 1;
      assert a[n] != [] && b[n] != [] && b[n][0] == a[n][0];
      SameLeads(a[..n], b[..n], v);
    }
  }

  function LedBy(groups: seq<seq<int>>): int -> nat
  {
    v => Leads(groups, v)
  }

  /**
   However many groups are filled with however many replicas, and whether that succeeds or not: no server
   was made to lead more groups than its share. With equal weights the numbers differ by at most one.
   */
  lemma FillSpreads(weights: Weights, ess: seq<int>, was: seq<seq<int>>, replicas: nat)
    requires Distinct(ess) && (was != [] ==> ess != [])
    ensures Fair(weights, ess, LedBy(Fill(EsRank(weights), ess, was, replicas).added))
  {
    var rank := EsRank(weights);
    var f := Primaries(rank, NewAlloc(rank, ess), Blank(|was|), 0);
    var added := Fill(rank, ess, was, replicas).added;
    FillStarts(rank, ess, was);
    FillKeepsFirsts(rank, ess, was, replicas);
    NewAllocEven(weights, ess);
    if ess != [] {
      PrimariesStayEven(weights, NewAlloc(rank, ess), ess, Blank(|was|), 0);
      forall v ensures LedBy(added)(v) == LeadsIn(f.alloc.counters)(v) {
        SameLeads(f.added, added, v);
      }
    }
  }

  lemma EqualWeightsLevel(w: nat, ess: seq<int>, leads: int -> nat, i: int, j: int)
    requires 0 < w <= 1000000 && Fair(_ => w, ess, leads) && i in ess && j in ess
    ensures leads(i) <= leads(j) + 1
  {
    if leads(i) > leads(j) + 1 {
      var a, b := leads(i) - 1, leads(j);
      assert Share(a, w) <= Share(b, w);
      ShareApart(a, b, w);
    }
  }

  lemma ShareApart(a: nat, b: nat, w: nat)
    requires b < a && 0 < w <= 1000000
    ensures Share(b, w) < Share(a, w)
  {
    Words.DivMonotone(1000000 * b + w, 1000000 * a, w);
    var q, r := 1000000 * b / w, 1000000 * b % w;
    assert 1000000 * b + w == w * (q + 1) + r;
    Words.DivModUnique(1000000 * b + w, w, q + 1, r);
  }
}
