/** Which groups a primary's heap keeps when near-full ones are put aside and pushed back before the pop. */
module GroupMembers {
  import opened Heap
  import opened HeapSearch
  import opened Groups
  import opened GroupAccounting

  /**
   Putting the skipped groups back before the pop makes the pop take the wrong element. The members of
   the heap survive exactly when no full group has fewer extents than every group that is not full.
   */
  lemma MembersKeptIff(heap: seq<int>, counts: map<int, nat>, full: int -> bool)
    requires Heaped(heap, CountKey(counts))
    requires exists x :: x in heap && !full(x)
    ensures multiset(TakeGroup(heap, counts, full).heap) == multiset(heap)
            <==> forall x :: x in heap && full(x) ==> Rivalled(heap, counts, full, x)
  {
    TakeGroupChoice(heap, counts, full);
    TakeGroupKeepsIff(heap, counts, full);
    RestoredRoot(heap, full, MoreExtents(counts), CountKey(counts));
    TiesIff(heap, counts, full);
  }

  /** Some group that is not full has no more extents than x. */
  ghost predicate Rivalled(heap: seq<int>, counts: map<int, nat>, full: int -> bool, x: int)
  {
    exists y :: y in heap && !full(y) && Count(counts, y) <= Count(counts, x)
  }

  /** The first group found has the fewest extents of those that are not full. */
  lemma FoundIsLeast(heap: seq<int>, counts: map<int, nat>, full: int -> bool)
    requires Heaped(heap, CountKey(counts)) && SkipFull(heap, full, MoreExtents(counts)).rest != []
    ensures var s := SkipFull(heap, full, MoreExtents(counts));
            && s.rest[0] in heap && !full(s.rest[0])
            && (forall x :: x in s.skipped ==> Count(counts, x) <= Count(counts, s.rest[0]))
            && (forall x :: x in s.rest ==> Count(counts, s.rest[0]) <= Count(counts, x))
  {
    var s := SkipFull(heap, full, MoreExtents(counts));
    SkipFullMembers(heap, full, MoreExtents(counts));
    SkipFullOrder(heap, full, MoreExtents(counts), CountKey(counts));
    var c := s.rest[0];
    assert c in s.rest;
    forall x | x in s.rest ensures Count(counts, c) <= Count(counts, x) {
      var i :| 0 <= i < |s.rest| && s.rest[i] == x;
      RootLeast(s.rest, CountKey(counts), i);
    }
    forall x | x in s.skipped ensures Count(counts, x) <= Count(counts, c) {
      assert CountKey(counts)(x) <= CountKey(counts)(c);
    }
  }

  lemma TiesIff(heap: seq<int>, counts: map<int, nat>, full: int -> bool)
    requires Heaped(heap, CountKey(counts)) && SkipFull(heap, full, MoreExtents(counts)).rest != []
    ensures var s := SkipFull(heap, full, MoreExtents(counts));
            (forall x :: x in s.skipped ==> CountKey(counts)(x) == CountKey(counts)(s.rest[0]))
            <==> forall x :: x in heap && full(x) ==> Rivalled(heap, counts, full, x)
  {
    var s := SkipFull(heap, full, MoreExtents(counts));
    var c := s.rest[0];
    FoundIsLeast(heap, counts, full);
    SkipFullMembers(heap, full, MoreExtents(counts));
    if forall x :: x in heap && full(x) ==> Rivalled(heap, counts, full, x) {
      forall x | x in s.skipped ensures CountKey(counts)(x) == CountKey(counts)(c) {
        assert Rivalled(heap, counts, full, x);
        var y :| y in heap && !full(y) && Count(counts, y) <= Count(counts, x);
        assert y in s.rest;
      }
    }
    if forall x :: x in s.skipped ==> CountKey(counts)(x) == CountKey(counts)(c) {
      forall x | x in heap && full(x) ensures Rivalled(heap, counts, full, x) {
        assert x in s.rest || x in s.skipped;
        assert Count(counts, c) <= Count(counts, x);
      }
    }
  }

  lemma TakenHeap(heap: seq<int>, counts: map<int, nat>, full: int -> bool, s: Search, t: Taken)
    requires t == TakeGroup(heap, counts, full) && s == SkipFull(heap, full, MoreExtents(counts)) && s.rest != []
    ensures t.heap == Requeue(PushAll(s.rest, s.skipped, MoreExtents(counts)), s.rest[0], MoreExtents(t.counts))
  {
  }

  /** The heap after a requeue against the heap before, with everything that was computed as a given. */
  lemma RequeuedKeepsIff(held: multiset<int>, restored: seq<int>, x: int, lower: Order, taken: seq<int>)
    requires restored != [] && multiset(restored) == held && taken == Requeue(restored, x, lower)
    ensures multiset(taken) == held <==> restored[0] == x
  {
    RequeueKeepsIff(restored, x, lower);
  }

  lemma TakenKeepsIff(heap: seq<int>, counts: map<int, nat>, full: int -> bool, s: Search, restored: seq<int>, t: Taken)
    requires t == TakeGroup(heap, counts, full) && s == SkipFull(heap, full, MoreExtents(counts)) && s.rest != []
    requires restored == PushAll(s.rest, s.skipped, MoreExtents(counts))
    ensures multiset(t.heap) == multiset(heap) <==> restored[0] == s.rest[0]
  {
    RestoredContents(heap, full, MoreExtents(counts));
    TakenHeap(heap, counts, full, s, t);
    RequeuedKeepsIff(multiset(heap), restored, s.rest[0], MoreExtents(t.counts), t.heap);
  }

  lemma TakeGroupKeepsIff(heap: seq<int>, counts: map<int, nat>, full: int -> bool)
    requires TakeGroup(heap, counts, full).chosen.Some?
    ensures var s := SkipFull(heap, full, MoreExtents(counts));
            multiset(TakeGroup(heap, counts, full).heap) == multiset(heap)
            <==> PushAll(s.rest, s.skipped, MoreExtents(counts))[0] == s.rest[0]
  {
    var s := SkipFull(heap, full, MoreExtents(counts));
    TakenKeepsIff(heap, counts, full, s, PushAll(s.rest, s.skipped, MoreExtents(counts)),
                  TakeGroup(heap, counts, full));
  }

  /** A near-full group with fewer extents is lost: its place is taken by a second copy of the chosen one. */
  lemma LostGroup()
    ensures TakeGroup([0, 1], map[0 := 0, 1 := 1], x => x == 0).heap == [1, 1]
  {
    var counts: map<int, nat> := map[0 := 0, 1 := 1];
    var full := (x: int) => x == 0;
    assert Pop([0, 1], MoreExtents(counts)) == [1];
    assert SkipFull([1], full, MoreExtents(counts)) == Search([1], []);
    assert SkipFull([0, 1], full, MoreExtents(counts)) == Search([1], [0]);
    assert Push([1], 0, MoreExtents(counts)) == [0, 1] by {
      assert SiftUp([1, 1], 0, 0, MoreExtents(counts)) == [0, 1];
    }
    assert PushAll([0, 1], [], MoreExtents(counts)) == [0, 1];
    assert PushAll([1], [0], MoreExtents(counts)) == [0, 1];
    var counts' := counts[1 := 2];
    assert Pop([0, 1], MoreExtents(counts')) == [1];
    assert Push([1], 1, MoreExtents(counts')) == [1, 1];
  }
}
