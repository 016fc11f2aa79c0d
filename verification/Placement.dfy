/** The allocator of servers as an object, and the loops that fill the replication groups with it. */
module Placement {
  import opened Common
  import opened Heap
  import opened HeapSearch
  import opened Selection

  class EsAllocator {
    const rank: Rank
    var ess: seq<int>
    var counters: Counters

    ghost function Value(): Alloc
      reads this
    {
      Alloc(ess, counters)
    }

    constructor (rank: Rank, servers: seq<int>)
      ensures this.rank == rank && Value() == NewAlloc(rank, servers)
    {
      var c := Counters(map[], map[]);
      this.rank, counters := rank, c;
      var heap := Restore([], servers, Lower(rank, c));
      ess := heap;
    }

    /** Pops the root and pushes it again, under the counters as they are now. */
    method RequeueRoot()
      requires ess != []
      modifies this`ess
      ensures ess == Requeue(old(ess), old(ess[0]), Lower(rank, counters))
    {
      var es := ess[0];
      ess := PopHeap(ess, Lower(rank, counters));
      ess := PushHeap(ess, es, Lower(rank, counters));
    }

    method TakePrimary() returns (es: int)
      requires ess != []
      modifies this
      ensures Picked(Value(), Some(es)) == PickPrimary(rank, old(Value()))
    {
      es := ess[0];
      counters := counters.(pri := counters.pri[es := At(counters.pri, es) + 1]);
      RequeueRoot();
    }

    method SelectPrimary() returns (es: int)
      requires ess != []
      modifies this
      ensures Picked(Value(), Some(es)) == PickPrimary(rank, old(Value()))
      ensures es in old(ess) && multiset(ess) == old(multiset(ess))
    {
      PrimaryPicked(rank, Value(), ess);
      es := TakePrimary();
    }

    /** Pops servers aside while the group has them. */
    method SkipMembers(group: seq<int>) returns (skipped: seq<int>)
      modifies this`ess
      ensures SkipFull(old(ess), In(group), Lower(rank, counters)) == Search(ess, skipped)
    {
      skipped := [];
      ghost var heap, lower := ess, Lower(rank, counters);
      while ess != [] && ess[0] in group
        invariant Skipping(heap, ess, skipped, In(group), lower)
        decreases |ess|
      {
        SkipOne(heap, ess, skipped, In(group), lower);
        skipped := skipped + [ess[0]];
        ess := PopHeap(ess, Lower(rank, counters));
      }
      SkipDone(heap, ess, skipped, In(group), lower);
    }

    /** Skips the group's servers, takes the one then at the root, and puts the skipped ones back. */
    method TakeSecondary(group: seq<int>) returns (r: Option<int>, emptied: bool)
      modifies this
      ensures Picked(Value(), r) == PickSecondary(rank, old(Value()), group)
      ensures emptied <==> r.None?
    {
      var skipped := SkipMembers(group);
      emptied := ess == [];
      r := None;
      if !emptied {
        var es := ess[0];
        counters := counters.(sec := counters.sec[es := At(counters.sec, es) + 1]);
        RequeueRoot();
        r := Some(es);
      }
      ess := Restore(ess, skipped, Lower(rank, counters));
    }

    /**
     A server the group does not have: there is none exactly when the group has them all, which is
     also the one case in which the heap is read while empty. Either way the heap is whole again.
     */
    method SelectSecondary(group: seq<int>) returns (r: Option<int>, emptied: bool)
      requires ess != []
      modifies this
      ensures Picked(Value(), r) == PickSecondary(rank, old(Value()), group)
      ensures multiset(ess) == old(multiset(ess))
      ensures r.None? <==> forall v :: v in old(ess) ==> v in group
      ensures emptied <==> r.None?
      ensures r.Some? ==> r.value in old(ess) && r.value !in group
    {
      SecondaryPicked(rank, Value(), ess, group);
      r, emptied := TakeSecondary(group);
    }
  }

  method PlacePrimaries(alloc: EsAllocator, total: nat, ghost ess: seq<int>) returns (added: seq<seq<int>>)
    requires Keeps(alloc.Value(), ess) && (total > 0 ==> ess != [])
    modifies alloc
    ensures Filling(alloc.Value(), added, true) == Primaries(alloc.rank, old(alloc.Value()), Blank(total), 0)
    ensures Keeps(alloc.Value(), ess)
  {
    added := Blank(total);
    ghost var goal := Primaries(alloc.rank, alloc.Value(), added, 0);
    for i := 0 to total
      invariant |added| == total && Keeps(alloc.Value(), ess)
      invariant Primaries(alloc.rank, alloc.Value(), added, i) == goal
    {
      PrimaryPicked(alloc.rank, alloc.Value(), ess);
      var es := alloc.SelectPrimary();
      added := added[i := added[i] + [es]];
    }
  }

  method PlaceRound(alloc: EsAllocator, was: seq<seq<int>>, added: seq<seq<int>>, ghost ess: seq<int>)
    returns (grown: seq<seq<int>>, ok: bool)
    requires |was| == |added| && Keeps(alloc.Value(), ess) && (was != [] ==> ess != [])
    modifies alloc
    ensures Filling(alloc.Value(), grown, ok) == Secondaries(alloc.rank, old(alloc.Value()), was, added, 0)
    ensures Keeps(alloc.Value(), ess)
  {
    grown, ok := added, true;
    ghost var goal := Secondaries(alloc.rank, alloc.Value(), was, added, 0);
    for i := 0 to |was|
      invariant ok && |grown| == |was| && Keeps(alloc.Value(), ess)
      invariant Secondaries(alloc.rank, alloc.Value(), was, grown, i) == goal
    {
      assert |multiset(alloc.ess)| == |multiset(ess)|;
      SecondaryPicked(alloc.rank, alloc.Value(), ess, was[i] + grown[i]);
      var r, emptied := alloc.SelectSecondary(was[i] + grown[i]);
      if r.None? {
        ok := false;
        return;
      }
      grown := grown[i := grown[i] + [r.value]];
    }
  }

  /** The function value `rounds` stands for Rounds, for proofs that need not look inside it. */
  ghost predicate StandsFor(rank: Rank, was: seq<seq<int>>, rounds: (Alloc, seq<seq<int>>, nat) -> Filling)
  {
    forall a: Alloc, added: seq<seq<int>>, n: nat {:trigger Rounds(rank, a, was, added, n)} ::
      |added| == |was| ==> rounds(a, added, n) == Rounds(rank, a, was, added, n)
  }

  lemma OneRound(rank: Rank, was: seq<seq<int>>, rounds: (Alloc, seq<seq<int>>, nat) -> Filling, a: Alloc,
                 added: seq<seq<int>>, n: nat, f: Filling)
    requires StandsFor(rank, was, rounds) && |added| == |was| && n > 0 && f == Secondaries(rank, a, was, added, 0)
    ensures |f.added| == |was| && rounds(a, added, n) == if f.ok then rounds(f.alloc, f.added, n - 1) else f
  {
    RoundsStep(rank, a, was, added, n, f);
    assert rounds(a, added, n) == Rounds(rank, a, was, added, n);
    assert rounds(f.alloc, f.added, n - 1) == Rounds(rank, f.alloc, was, f.added, n - 1);
  }

  method PlaceNext(alloc: EsAllocator, was: seq<seq<int>>, added: seq<seq<int>>, ghost n: nat, ghost ess: seq<int>,
                   ghost rounds: (Alloc, seq<seq<int>>, nat) -> Filling) returns (grown: seq<seq<int>>, ok: bool)
    requires |was| == |added| && Keeps(alloc.Value(), ess) && (was != [] ==> ess != [])
    requires StandsFor(alloc.rank, was, rounds) && n > 0
    modifies alloc
    ensures |grown| == |was| && Keeps(alloc.Value(), ess)
    ensures rounds(old(alloc.Value()), added, n)
            == if ok then rounds(alloc.Value(), grown, n - 1) else Filling(alloc.Value(), grown, false)
  {
    ghost var before := alloc.Value();
    grown, ok := PlaceRound(alloc, was, added, ess);
    OneRound(alloc.rank, was, rounds, before, added, n, Filling(alloc.Value(), grown, ok));
  }

  method PlaceAll(alloc: EsAllocator, was: seq<seq<int>>, first: seq<seq<int>>, total: nat, ghost ess: seq<int>,
                  ghost rounds: (Alloc, seq<seq<int>>, nat) -> Filling) returns (added: seq<seq<int>>, ok: bool)
    requires |was| == |first| && Keeps(alloc.Value(), ess) && (was != [] ==> ess != [])
    requires StandsFor(alloc.rank, was, rounds)
    modifies alloc
    ensures |added| == |was| && rounds(old(alloc.Value()), first, total)
                                == if ok then rounds(alloc.Value(), added, 0) else Filling(alloc.Value(), added, false)
  {
    added, ok := first, true;
    for i := 0 to total
      invariant ok && |added| == |was| && Keeps(alloc.Value(), ess)
      invariant rounds(alloc.Value(), added, total - i) == rounds(old(alloc.Value()), first, total)
    {
      added, ok := PlaceNext(alloc, was, added, total - i, ess, rounds);
      if !ok {
        return;
      }
    }
  }

  method PlaceRounds(alloc: EsAllocator, was: seq<seq<int>>, first: seq<seq<int>>, rounds: nat, ghost ess: seq<int>)
    returns (added: seq<seq<int>>, ok: bool)
    requires |was| == |first| && Keeps(alloc.Value(), ess) && (was != [] ==> ess != [])
    modifies alloc
    ensures Filling(alloc.Value(), added, ok) == Rounds(alloc.rank, old(alloc.Value()), was, first, rounds)
  {
    ghost var rank := alloc.rank;
    ghost var all := (a: Alloc, g: seq<seq<int>>, n: nat) =>
        if |g| == |was| then Rounds(rank, a, was, g, n) else Filling(a, g, false);
    added, ok := PlaceAll(alloc, was, first, rounds, ess, all);
  }

  /**
   Fills the groups, which had `was` before. It succeeds exactly when every group has room for the
   copies asked for; then every group has got that many different servers of the pool.
   */
  method Place(alloc: EsAllocator, was: seq<seq<int>>, replicas: nat, ghost ess: seq<int>)
    returns (added: seq<seq<int>>, ok: bool)
    requires alloc.Value() == NewAlloc(alloc.rank, ess) && (was != [] ==> ess != [])
    modifies alloc
    ensures Filling(alloc.Value(), added, ok) == Fill(alloc.rank, ess, was, replicas)
    ensures Outcome(ess, was, Filling(alloc.Value(), added, ok), Copies(replicas))
    ensures ok <==> HasRoom(alloc.rank, ess, was, Copies(replicas))
  {
    FillGives(alloc.rank, ess, was, replicas);
    NewAllocKeeps(alloc.rank, ess);
    PrimariesCount(alloc.rank, NewAlloc(alloc.rank, ess), Blank(|was|), 0);
    added := PlacePrimaries(alloc, |was|, ess);
    added, ok := PlaceRounds(alloc, was, added, Copies(replicas) - 1, ess);
  }

  /** Fills a group map: the groups `made` start anew, the others keep what they have. */
  method PlaceMap<K(==, !new)>(rank: Rank, ess: seq<int>, groups: map<K, seq<int>>, made: set<K>, keys: seq<K>,
                               replicas: nat) returns (now: map<K, seq<int>>, ok: bool)
    requires Distinct(keys) && (keys != [] ==> ess != [])
    ensures FilledMap(now, ok) == FillMap(rank, ess, groups, made, keys, replicas)
    ensures MapFilled(ess, groups, made, keys, Copies(replicas), FilledMap(now, ok))
    ensures ok <==> HasRoom(rank, ess, BeforeAll(groups, made, keys), Copies(replicas))
  {
    FillMapGives(rank, ess, groups, made, keys, replicas);
    var was := BeforeAll(groups, made, keys);
    var alloc := new EsAllocator(rank, ess);
    FillCount(rank, ess, was, replicas);
    var added;
    added, ok := Place(alloc, was, replicas, ess);
    now := Served(keys, was, added);
  }
}
