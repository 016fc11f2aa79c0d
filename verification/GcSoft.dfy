/**
 Collection of the soft deleted blobs of the pools in use, with their remote space: exactly which blobs
 and which routers are gone after a run, whatever sub-steps fail in it.
 */
module GcSoft {
  import opened Common
  import opened Gc

  /** The blob is reached before the pass over the blobs runs out of time. */
  predicate InTime(blobs: seq<string>, blob: string, f: Faults)
    decreases blobs
  {
    blobs != [] && !f.late(blobs[0]) && (blob == blobs[0] || InTime(blobs[1..], blob, f))
  }

  /** That is: it is in the list, and there is time for it and for all before it. */
  lemma {:induction false} InTimeIff(blobs: seq<string>, blob: string, f: Faults)
    ensures InTime(blobs, blob, f)
            <==> exists i :: 0 <= i < |blobs| && blobs[i] == blob && forall j | 0 <= j <= i :: !f.late(blobs[j])
    decreases blobs
  {
    if blobs != [] {
      InTimeIff(blobs[1..], blob, f);
      if i :| 0 <= i < |blobs| && blobs[i] == blob && forall j | 0 <= j <= i :: !f.late(blobs[j]) {
        assert !f.late(blobs[0]);
        if i > 0 {
          assert blobs[1..][i - 1] == blob;
          forall j | 0 <= j <= i - 1 ensures !f.late(blobs[1..][j]) {
            assert blobs[1..][j] == blobs[j + 1];
          }
        }
      }
      if InTime(blobs, blob, f) && blob != blobs[0] {
        var i :| 0 <= i < |blobs[1..]| && blobs[1..][i] == blob && forall j | 0 <= j <= i :: !f.late(blobs[1..][j]);
        forall j | 0 <= j <= i + 1 ensures !f.late(blobs[j]) {
          assert j > 0 ==> blobs[j] == blobs[1..][j - 1];
        }
        assert blobs[i + 1] == blob;
      }
    }
  }

  // ---------- one blob ----------

  /** Nothing keeps the extents i..k of the blob: all routers are stored, and neither step on them fails. */
  ghost predicate Released(w: World, blob: string, i: nat, k: nat, f: Faults)
  {
    forall j: nat | i <= j <= k :: Releasable(w, Extent(blob, j), f)
  }

  predicate Releasable(w: World, e: Extent, f: Faults)
  {
    e in w.routers && !f.remote(e) && !f.router(e)
  }

  lemma ReleasedSplits(w: World, blob: string, i: nat, k: nat, f: Faults)
    requires i <= k
    ensures Released(w, blob, i, k, f) <==> Releasable(w, Extent(blob, i), f) && Released(w, blob, i + 1, k, f)
  {
  }

  lemma ReleasedAlike(w: World, w': World, blob: string, i: nat, k: nat, f: Faults)
    requires forall j: nat | i <= j <= k :: Extent(blob, j) in w.routers <==> Extent(blob, j) in w'.routers
    ensures Released(w, blob, i, k, f) <==> Released(w', blob, i, k, f)
  {
    if Released(w, blob, i, k, f) {
      forall j: nat | i <= j <= k ensures Releasable(w', Extent(blob, j), f) {
        assert Releasable(w, Extent(blob, j), f);
      }
    }
    if Released(w', blob, i, k, f) {
      forall j: nat | i <= j <= k ensures Releasable(w, Extent(blob, j), f) {
        assert Releasable(w', Extent(blob, j), f);
      }
    }
  }

  /** The router is one of the extents i..n of the blob, and nothing keeps it or those before it. */
  ghost predicate Goes(w: World, e: Extent, blob: string, i: nat, n: nat, f: Faults)
  {
    e.blob == blob && i <= e.index <= n && Released(w, blob, i, e.index, f)
  }

  lemma GoesOn(w: World, e: Extent, blob: string, i: nat, n: nat, f: Faults)
    requires Releasable(w, Extent(blob, i), f) && i <= n && e != Extent(blob, i)
    ensures Goes(w, e, blob, i, n, f) <==> Goes(WithoutRouter(w, Extent(blob, i)), e, blob, i + 1, n, f)
  {
    if e.blob == blob && i <= e.index <= n {
      assert e == Extent(e.blob, e.index);
      ReleasedSplits(w, blob, i, e.index, f);
      ReleasedAlike(w, WithoutRouter(w, Extent(blob, i)), blob, i + 1, e.index, f);
    }
  }

  lemma GoesFirst(w: World, blob: string, i: nat, n: nat, f: Faults)
    requires i <= n
    ensures Goes(w, Extent(blob, i), blob, i, n, f) <==> Releasable(w, Extent(blob, i), f)
  {
  }

  /** Extents go in order up to the first that something keeps; all go exactly when nothing keeps one. */
  lemma {:induction false} ExtentsExact(w: World, blob: string, i: nat, n: nat, f: Faults)
    ensures var r := DeleteExtents(w, blob, i, n, true, f);
            && (r.ok <==> Released(w, blob, i, n, f))
            && (forall e :: e in r.world.routers <==> e in w.routers && !Goes(w, e, blob, i, n, f))
    decreases n + 1 - i
  {
    if i <= n {
      var first := Extent(blob, i);
      ReleasedSplits(w, blob, i, n, f);
      GoesFirst(w, blob, i, n, f);
      if Releasable(w, first, f) {
        var w' := WithoutRouter(w, first);
        ExtentsExact(w', blob, i + 1, n, f);
        ReleasedAlike(w, w', blob, i + 1, n, f);
        forall e | e != first ensures Goes(w, e, blob, i, n, f) <==> Goes(w', e, blob, i + 1, n, f) {
          GoesOn(w, e, blob, i, n, f);
        }
      } else {
        forall e ensures !Goes(w, e, blob, i, n, f) {
          if e.blob == blob && i <= e.index <= n {
            ReleasedSplits(w, blob, i, e.index, f);
          }
        }
      }
    }
  }

  /** Nothing keeps the blob: its extents are released and its record can be deleted. */
  ghost predicate Collectable(w: World, blob: string, n: nat, f: Faults)
  {
    Released(w, blob, 1, n, f) && !f.blob(blob)
  }

  lemma OneBlobExact(w: World, listing: Listing, pool: string, blob: string, n: nat, f: Faults)
    requires Listed(w, listing, pool, blob) && n == w.pools[pool].blobs[blob].extents
    ensures var r := DeleteOneBlob(w, listing, pool, blob, true, f);
            && Lost(w, r.world, pool, if Collectable(w, blob, n, f) then {blob} else {})
            && (forall e :: e in r.world.routers <==> e in w.routers && !Goes(w, e, blob, 1, n, f))
  {
    HomeIs(w, listing, pool, blob);
    ExtentsGone(w, blob, 1, n, true, f);
    ExtentsExact(w, blob, 1, n, f);
    OneBlobLost(w, listing, pool, blob, true, f);
  }

  // ---------- the blobs of a pool ----------

  /** The router goes in a pass over these blobs of the pool. */
  ghost predicate GoesIn(w: World, e: Extent, p: Pool, blobs: seq<string>, f: Faults)
  {
    e.blob in p.blobs && InTime(blobs, e.blob, f) && Goes(w, e, e.blob, 1, p.blobs[e.blob].extents, f)
  }

  ghost function CollectedIn(w: World, p: Pool, blobs: seq<string>, f: Faults): set<string>
  {
    set b | b in p.blobs && InTime(blobs, b, f) && Collectable(w, b, p.blobs[b].extents, f)
  }

  lemma {:induction false} InTimeListed(blobs: seq<string>, b: string, f: Faults)
    ensures InTime(blobs, b, f) ==> b in blobs
    decreases blobs
  {
    if blobs != [] {
      InTimeListed(blobs[1..], b, f);
    }
  }

  /** The routers of another blob are as they were. */
  lemma OtherBlobAlike(w: World, w1: World, blob: string, b: string, k: nat, f: Faults)
    requires b != blob && forall e: Extent | e.blob != blob :: e in w1.routers <==> e in w.routers
    ensures Released(w1, b, 1, k, f) <==> Released(w, b, 1, k, f)
  {
    forall j: nat | 1 <= j <= k ensures Extent(b, j) in w.routers <==> Extent(b, j) in w1.routers {
      assert Extent(b, j).blob != blob;
    }
    ReleasedAlike(w, w1, b, 1, k, f);
  }

  lemma RestAlike(w: World, w1: World, pool: string, blobs: seq<string>, f: Faults, b: string, gone: set<string>)
    requires pool in w.pools && blobs != [] && Distinct(blobs) && !f.late(blobs[0])
    requires Lost(w, w1, pool, gone) && gone <= {blobs[0]} && b in w.pools[pool].blobs
    requires forall e: Extent | e.blob != blobs[0] :: e in w1.routers <==> e in w.routers
    ensures InTime(blobs, b, f) <==> b == blobs[0] || InTime(blobs[1..], b, f)
    ensures b == blobs[0] ==> !InTime(blobs[1..], b, f)
    ensures b != blobs[0] ==> b in w1.pools[pool].blobs && w1.pools[pool].blobs[b] == w.pools[pool].blobs[b]
    ensures b != blobs[0] ==> forall k: nat :: Released(w1, b, 1, k, f) <==> Released(w, b, 1, k, f)
  {
    InTimeListed(blobs[1..], b, f);
    if b != blobs[0] {
      forall k: nat ensures Released(w1, b, 1, k, f) <==> Released(w, b, 1, k, f) {
        OtherBlobAlike(w, w1, blobs[0], b, k, f);
      }
    }
  }

  lemma CollectedSplits(w: World, w1: World, pool: string, blobs: seq<string>, f: Faults, gone: set<string>)
    requires pool in w.pools && blobs != [] && Distinct(blobs) && !f.late(blobs[0]) && blobs[0] in w.pools[pool].blobs
    requires forall e: Extent | e.blob != blobs[0] :: e in w1.routers <==> e in w.routers
    requires Lost(w, w1, pool, gone)
    requires gone == if Collectable(w, blobs[0], w.pools[pool].blobs[blobs[0]].extents, f) then {blobs[0]} else {}
    ensures CollectedIn(w, w.pools[pool], blobs, f) == gone + CollectedIn(w1, w1.pools[pool], blobs[1..], f)
  {
    forall b ensures b in CollectedIn(w, w.pools[pool], blobs, f)
                     <==> b in gone + CollectedIn(w1, w1.pools[pool], blobs[1..], f) {
      if b in w.pools[pool].blobs {
        RestAlike(w, w1, pool, blobs, f, b, gone);
      }
    }
  }

  lemma GoesSplits(w: World, w1: World, pool: string, blobs: seq<string>, f: Faults, gone: set<string>, e: Extent)
    requires pool in w.pools && blobs != [] && Distinct(blobs) && !f.late(blobs[0]) && blobs[0] in w.pools[pool].blobs
    requires forall x: Extent | x.blob != blobs[0] :: x in w1.routers <==> x in w.routers
    requires Lost(w, w1, pool, gone) && gone <= {blobs[0]}
    ensures GoesIn(w, e, w.pools[pool], blobs, f)
            <==> Goes(w, e, blobs[0], 1, w.pools[pool].blobs[blobs[0]].extents, f)
                 || GoesIn(w1, e, w1.pools[pool], blobs[1..], f)
  {
    if e.blob in w.pools[pool].blobs {
      RestAlike(w, w1, pool, blobs, f, e.blob, gone);
    }
  }

  /** What a pass over blobs of a pool does, exactly. */
  lemma {:induction false} BlobsExact(w: World, listing: Listing, pool: string, blobs: seq<string>, f: Faults)
    requires AllListed(w, listing, pool, blobs)
    ensures var r := DeleteBlobs(w, listing, pool, blobs, true, f);
            && Lost(w, r.world, pool, CollectedIn(w, w.pools[pool], blobs, f))
            && (forall e :: e in r.world.routers <==> e in w.routers && !GoesIn(w, e, w.pools[pool], blobs, f))
    decreases blobs
  {
    if blobs == [] || f.late(blobs[0]) {
      assert CollectedIn(w, w.pools[pool], blobs, f) == {};
      LostNothing(w, w, pool);
    } else {
      var b := blobs[0];
      assert b in blobs;
      var n := w.pools[pool].blobs[b].extents;
      var w1 := DeleteOneBlob(w, listing, pool, b, true, f).world;
      var gone := if Collectable(w, b, n, f) then {b} else {};
      OneBlobExact(w, listing, pool, b, n, f);
      RestListed(w, w1, listing, pool, blobs, gone);
      BlobsExact(w1, listing, pool, blobs[1..], f);
      CollectedSplits(w, w1, pool, blobs, f, gone);
      var w' := DeleteBlobs(w1, listing, pool, blobs[1..], true, f).world;
      LostTwice(w, w1, w', pool, gone, CollectedIn(w1, w1.pools[pool], blobs[1..], f));
      forall e ensures e in w'.routers <==> e in w.routers && !GoesIn(w, e, w.pools[pool], blobs, f) {
        GoesSplits(w, w1, pool, blobs, f, gone, e);
      }
    }
  }

  // ---------- all pools in use ----------

  function EnabledPools(w: World): set<string>
  {
    set p | p in w.pools && !w.pools[p].disabled
  }

  /** The pool's soft deleted blobs in the order in which they are tried. */
  function Queue(p: Pool, listing: Listing): seq<string>
  {
    listing(DeletedBlobs(p))
  }

  /** The pools lose exactly the blobs that are collected, and their routers go exactly as far as nothing keeps them. */
  ghost predicate Swept(w: World, w': World, pools: set<string>, listing: Listing, f: Faults)
  {
    && w'.pools.Keys == w.pools.Keys && w'.records == w.records
    && (forall p | p in w.pools ::
          w'.pools[p] == if p in pools then SweptPool(w, w.pools[p], listing, f) else w.pools[p])
    && (forall e :: e in w'.routers <==> e in w.routers && !SweptAway(w, e, pools, listing, f))
  }

  ghost function SweptPool(w: World, p: Pool, listing: Listing, f: Faults): Pool
  {
    p.(blobs := p.blobs - CollectedIn(w, p, Queue(p, listing), f))
  }

  ghost predicate SweptAway(w: World, e: Extent, pools: set<string>, listing: Listing, f: Faults)
  {
    exists p :: p in pools && p in w.pools && GoesIn(w, e, w.pools[p], Queue(w.pools[p], listing), f)
  }

  lemma SweptNothing(w: World, listing: Listing, f: Faults)
    ensures Swept(w, w, {}, listing, f)
  {
  }

  lemma SweptHomes(w: World, w': World, pools: set<string>, listing: Listing, f: Faults)
    requires OneHome(w) && Swept(w, w', pools, listing, f)
    ensures OneHome(w')
  {
    forall p, b | p in w'.pools && b in w'.pools[p].blobs ensures b in w.pools[p].blobs {
    }
  }

  lemma QueueListed(w: World, pool: string, listing: Listing)
    requires ValidListing(listing) && OneHome(w) && pool in w.pools
    ensures AllListed(w, listing, pool, Queue(w.pools[pool], listing))
    ensures forall b | b in Queue(w.pools[pool], listing) :: b in DeletedBlobs(w.pools[pool])
  {
    var deleted := DeletedBlobs(w.pools[pool]);
    assert Lists(listing(deleted), deleted);
    forall b | b in listing(deleted) ensures b in DeletedBlobs(w.pools[pool]) && b in w.pools[pool].blobs {
      assert b in deleted;
    }
  }

  /** Sweeping other pools leaves the routers of this pool's blobs as they were. */
  lemma SweptElsewhere(w: World, w': World, pools: set<string>, listing: Listing, f: Faults, pool: string, b: string)
    requires OneHome(w) && Swept(w, w', pools, listing, f) && pool in w.pools && pool !in pools
    requires b in w.pools[pool].blobs
    ensures forall k: nat :: Released(w', b, 1, k, f) <==> Released(w, b, 1, k, f)
  {
    forall j: nat ensures Extent(b, j) in w.routers <==> Extent(b, j) in w'.routers {
      assert !SweptAway(w, Extent(b, j), pools, listing, f);
    }
    forall k: nat ensures Released(w', b, 1, k, f) <==> Released(w, b, 1, k, f) {
      ReleasedAlike(w, w', b, 1, k, f);
    }
  }

  lemma SameSweep(w: World, w1: World, pools: set<string>, listing: Listing, f: Faults, pool: string)
    requires OneHome(w) && Swept(w, w1, pools, listing, f) && pool in w.pools && pool !in pools
    ensures var p, queue := w.pools[pool], Queue(w.pools[pool], listing);
            && w1.pools[pool] == p && CollectedIn(w1, p, queue, f) == CollectedIn(w, p, queue, f)
            && (forall e :: GoesIn(w1, e, p, queue, f) <==> GoesIn(w, e, p, queue, f))
  {
    var p := w.pools[pool];
    forall b | b in p.blobs ensures forall k: nat :: Released(w1, b, 1, k, f) <==> Released(w, b, 1, k, f) {
      SweptElsewhere(w, w1, pools, listing, f, pool, b);
    }
  }

  /** One more pool is swept. */
  lemma SweepOne(w: World, w1: World, pools: set<string>, listing: Listing, f: Faults, pool: string)
    requires ValidListing(listing) && OneHome(w) && Swept(w, w1, pools, listing, f) && pool in w.pools && pool !in pools
    ensures pool in w1.pools && AllListed(w1, listing, pool, Queue(w1.pools[pool], listing))
    ensures Swept(w, DeleteBlobs(w1, listing, pool, Queue(w1.pools[pool], listing), true, f).world, pools + {pool},
                  listing, f)
  {
    var queue := Queue(w.pools[pool], listing);
    SweptHomes(w, w1, pools, listing, f);
    SameSweep(w, w1, pools, listing, f, pool);
    QueueListed(w1, pool, listing);
    BlobsExact(w1, listing, pool, queue, f);
    var w2 := DeleteBlobs(w1, listing, pool, queue, true, f).world;
    forall e ensures SweptAway(w, e, pools + {pool}, listing, f)
                     <==> SweptAway(w, e, pools, listing, f) || GoesIn(w, e, w.pools[pool], queue, f) {
      AwayGrows(w, e, pools, listing, f, pool);
    }
    assert w2.pools.Keys == w.pools.Keys;
  }

  lemma AwayGrows(w: World, e: Extent, pools: set<string>, listing: Listing, f: Faults, pool: string)
    requires pool in w.pools
    ensures SweptAway(w, e, pools + {pool}, listing, f)
            <==> SweptAway(w, e, pools, listing, f) || GoesIn(w, e, w.pools[pool], Queue(w.pools[pool], listing), f)
  {
    if p :| p in pools && p in w.pools && GoesIn(w, e, w.pools[p], Queue(w.pools[p], listing), f) {
      assert p in pools + {pool};
    }
    if GoesIn(w, e, w.pools[pool], Queue(w.pools[pool], listing), f) {
      assert pool in pools + {pool};
    }
  }

  /** The blob and all its routers are gone. */
  predicate Gone(w: World, pool: string, blob: string, n: nat)
  {
    pool in w.pools && blob !in w.pools[pool].blobs && NoRouters(w, blob, 1, n)
  }

  /** It was reached in time, all its routers were stored, and no step on it failed. */
  ghost predicate Reached(w: World, p: Pool, blob: string, listing: Listing, f: Faults)
    requires blob in p.blobs
  {
    && InTime(Queue(p, listing), blob, f) && !f.blob(blob)
    && forall k: nat | 1 <= k <= p.blobs[blob].extents ::
         Extent(blob, k) in w.routers && !f.remote(Extent(blob, k)) && !f.router(Extent(blob, k))
  }

  /** A soft deleted blob of a pool in use is gone, with all its routers, exactly when it was reached. */
  lemma GoneIff(w: World, w': World, listing: Listing, f: Faults, pool: string, blob: string)
    requires OneHome(w) && Swept(w, w', EnabledPools(w), listing, f)
    requires pool in EnabledPools(w) && blob in DeletedBlobs(w.pools[pool])
    ensures Gone(w', pool, blob, w.pools[pool].blobs[blob].extents) <==> Reached(w, w.pools[pool], blob, listing, f)
    ensures blob in w'.pools[pool].blobs <==> !Reached(w, w.pools[pool], blob, listing, f)
  {
    var p := w.pools[pool];
    var n := p.blobs[blob].extents;
    assert Reached(w, p, blob, listing, f) <==> InTime(Queue(p, listing), blob, f) && Collectable(w, blob, n, f) by {
      if Reached(w, p, blob, listing, f) {
        assert forall k: nat | 1 <= k <= n :: Releasable(w, Extent(blob, k), f);
      }
      if Released(w, blob, 1, n, f) {
        forall k: nat | 1 <= k <= n
          ensures Extent(blob, k) in w.routers && !f.remote(Extent(blob, k)) && !f.router(Extent(blob, k))
        {
          assert Releasable(w, Extent(blob, k), f);
        }
      }
    }
    if Reached(w, p, blob, listing, f) {
      forall k: nat | 1 <= k <= n ensures Extent(blob, k) !in w'.routers {
        assert Goes(w, Extent(blob, k), blob, 1, n, f);
        assert GoesIn(w, Extent(blob, k), p, Queue(p, listing), f);
        assert SweptAway(w, Extent(blob, k), EnabledPools(w), listing, f);
      }
    }
  }

  /** If nothing fails: exactly when all its routers were stored. */
  lemma {:induction false} AllInTime(blobs: seq<string>, blob: string)
    requires blob in blobs
    ensures InTime(blobs, blob, NoFaults())
    decreases blobs
  {
    if blob != blobs[0] {
      AllInTime(blobs[1..], blob);
    }
  }

  lemma ReachedWithoutFaults(w: World, pool: string, blob: string, listing: Listing)
    requires ValidListing(listing) && pool in w.pools && blob in DeletedBlobs(w.pools[pool])
    ensures Reached(w, w.pools[pool], blob, listing, NoFaults())
            <==> HasRouters(w, blob, 1, w.pools[pool].blobs[blob].extents)
  {
    var deleted := DeletedBlobs(w.pools[pool]);
    assert Lists(listing(deleted), deleted);
    AllInTime(listing(deleted), blob);
  }

  /** Nothing else goes. */
  lemma SweptOnlyDeleted(w: World, w': World, listing: Listing, f: Faults)
    requires ValidListing(listing) && OneHome(w) && Swept(w, w', EnabledPools(w), listing, f)
    ensures OnlyDeletedGone(w, w')
  {
    forall p | p in EnabledPools(w)
      ensures CollectedIn(w, w.pools[p], Queue(w.pools[p], listing), f) <= DeletedBlobs(w.pools[p])
    {
      OnlyQueued(w, p, listing, f);
    }
    forall e | e in w.routers && e !in w'.routers
      ensures exists p :: p in w.pools && e.blob in DeletedBlobs(w.pools[p])
    {
      var p :| p in EnabledPools(w) && p in w.pools && GoesIn(w, e, w.pools[p], Queue(w.pools[p], listing), f);
      QueueListed(w, p, listing);
      InTimeListed(Queue(w.pools[p], listing), e.blob, f);
      assert e.blob in DeletedBlobs(w.pools[p]);
    }
  }

  lemma OnlyQueued(w: World, pool: string, listing: Listing, f: Faults)
    requires ValidListing(listing) && OneHome(w) && pool in w.pools
    ensures CollectedIn(w, w.pools[pool], Queue(w.pools[pool], listing), f) <= DeletedBlobs(w.pools[pool])
  {
    QueueListed(w, pool, listing);
    forall b | b in CollectedIn(w, w.pools[pool], Queue(w.pools[pool], listing), f)
      ensures b in DeletedBlobs(w.pools[pool])
    {
      InTimeListed(Queue(w.pools[pool], listing), b, f);
    }
  }
}
