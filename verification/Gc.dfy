/**
 Garbage collection of blobs and pools: an extent's router is deleted before its blob's record, a blob's
 record before the records of its pool's servers and groups, and these before the pool's own record,
 where every sub-step may fail.
 */
module Gc {
  import opened Common

  /** An extent, by its blob and its index, which starts at 1. */
  datatype Extent = Extent(blob: string, index: nat)

  datatype BlobInfo = BlobInfo(extents: nat, deleted: bool)

  /** A pool in memory. */
  datatype Pool = Pool(disabled: bool, blobs: map<string, BlobInfo>, servers: set<int>, groups: set<string>)

  /** A server or a group of a pool; the store keeps a record of each. */
  datatype Member = Server(pool: string, es: int) | Group(pool: string, rg: string)

  datatype World = World(pools: map<string, Pool>, routers: set<Extent>, records: set<Member>)

  /** Which sub-steps fail: each is attempted at most once in a run. `late` ends a run for lack of time. */
  datatype Faults = Faults(remote: Extent -> bool, router: Extent -> bool, blob: string -> bool,
                           member: Member -> bool, pool: string -> bool, late: string -> bool)

  function NoFaults(): Faults
  {
    Faults(_ => false, _ => false, _ => false, _ => false, _ => false, _ => false)
  }

  datatype Result = Result(world: World, ok: bool)

  type Listing = set<string> -> seq<string>

  ghost predicate ValidListing(listing: Listing)
  {
    forall keys :: Lists(listing(keys), keys)
  }

  // ---------- one blob ----------

  function WithoutRouter(w: World, e: Extent): World
  {
    w.(routers := w.routers - {e})
  }

  function WithoutBlob(w: World, pool: string, blob: string): World
    requires pool in w.pools
  {
    w.(pools := w.pools[pool := w.pools[pool].(blobs := w.pools[pool].blobs - {blob})])
  }

  function WithoutPool(w: World, pool: string): World
  {
    w.(pools := w.pools - {pool})
  }

  /** The space of a remote extent is released through its router, which must be there. */
  predicate RemoteDone(w: World, e: Extent, f: Faults)
  {
    e in w.routers && !f.remote(e)
  }

  /** Deletes the extents i..n of a blob, one after the other, and stops at the first failure. */
  function DeleteExtents(w: World, blob: string, i: nat, n: nat, remote: bool, f: Faults): Result
    decreases n + 1 - i
  {
    var e := Extent(blob, i);
    if i > n then Result(w, true)
    else if (remote && !RemoteDone(w, e, f)) || f.router(e) then Result(w, false)
    else DeleteExtents(WithoutRouter(w, e), blob, i + 1, n, remote, f)
  }

  /** The first of the pools that has the blob. */
  function Home(w: World, pools: seq<string>, blob: string): (r: Option<string>)
    ensures r.Some? ==> r.value in w.pools && blob in w.pools[r.value].blobs
    decreases pools
  {
    if pools == [] then None
    else if pools[0] in w.pools && blob in w.pools[pools[0]].blobs then Some(pools[0])
    else Home(w, pools[1..], blob)
  }

  /** The blob is looked up in all pools, and its record is deleted from the given one. */
  function DeleteOneBlob(w: World, listing: Listing, pool: string, blob: string, remote: bool, f: Faults): Result
  {
    var home := Home(w, listing(w.pools.Keys), blob);
    if home.None? then Result(w, false)
    else
      var r := DeleteExtents(w, blob, 1, w.pools[home.value].blobs[blob].extents, remote, f);
      if !r.ok || pool !in r.world.pools || blob !in r.world.pools[pool].blobs || f.blob(blob)
      then Result(r.world, false)
      else Result(WithoutBlob(r.world, pool, blob), true)
  }

  /** Deletes the listed blobs; a failure does not stop the others, running out of time does. */
  function DeleteBlobs(w: World, listing: Listing, pool: string, blobs: seq<string>, remote: bool, f: Faults): Result
    decreases blobs
  {
    if blobs == [] then Result(w, true)
    else if f.late(blobs[0]) then Result(w, false)
    else
      var one := DeleteOneBlob(w, listing, pool, blobs[0], remote, f);
      var rest := DeleteBlobs(one.world, listing, pool, blobs[1..], remote, f);
      Result(rest.world, one.ok && rest.ok)
  }

  /** The soft deleted blobs of a pool. */
  function DeletedBlobs(p: Pool): set<string>
  {
    set b | b in p.blobs && p.blobs[b].deleted
  }

  /** Nothing but deleted blobs of the pools, and routers of such blobs, are missing in w'. */
  ghost predicate OnlyDeletedGone(w: World, w': World)
  {
    && w'.pools.Keys == w.pools.Keys && w'.records == w.records
    && (forall p | p in w.pools :: w'.pools[p].(blobs := w.pools[p].blobs) == w.pools[p])
    && (forall p, b | p in w.pools && b in w.pools[p].blobs && !w.pools[p].blobs[b].deleted ::
          b in w'.pools[p].blobs && w'.pools[p].blobs[b] == w.pools[p].blobs[b])
    && (forall p, b | p in w'.pools && b in w'.pools[p].blobs ::
          b in w.pools[p].blobs && w'.pools[p].blobs[b] == w.pools[p].blobs[b])
    && (forall e | e in w.routers && e !in w'.routers :: exists p :: p in w.pools && e.blob in DeletedBlobs(w.pools[p]))
  }

  // ---------- pools ----------

  function ServersOf(pool: string, p: Pool): set<Member>
  {
    set s | s in p.servers :: Server(pool, s)
  }

  function GroupsOf(pool: string, p: Pool): set<Member>
  {
    set g | g in p.groups :: Group(pool, g)
  }

  /** The records that are gone after an attempt to delete all of them. */
  function Deleted(members: set<Member>, f: Faults): set<Member>
  {
    set m | m in members && !f.member(m)
  }

  /** Forgets the pool's servers, whether their records could be deleted or not. */
  function DeleteAllEs(w: World, pool: string, f: Faults): World
    requires pool in w.pools
  {
    w.(pools := w.pools[pool := w.pools[pool].(servers := {})],
       records := w.records - Deleted(ServersOf(pool, w.pools[pool]), f))
  }

  function DeleteAllRg(w: World, pool: string, f: Faults): World
    requires pool in w.pools
  {
    w.(pools := w.pools[pool := w.pools[pool].(groups := {})],
       records := w.records - Deleted(GroupsOf(pool, w.pools[pool]), f))
  }

  /** Collects a disabled pool: its blobs and, if they are all gone, its servers, its groups and its record. */
  function CollectPool(w: World, pool: string, listing: Listing, f: Faults): World
    requires pool in w.pools
  {
    var r := DeleteBlobs(w, listing, pool, listing(w.pools[pool].blobs.Keys), false, f);
    if !r.ok || pool !in r.world.pools then r.world
    else
      var w' := DeleteAllRg(DeleteAllEs(r.world, pool, f), pool, f);
      if f.pool(pool) then w' else WithoutPool(w', pool)
  }

  function CollectPools(w: World, pools: seq<string>, listing: Listing, f: Faults): World
    decreases pools
  {
    if pools == [] then w
    else CollectPools(if pools[0] in w.pools then CollectPool(w, pools[0], listing, f) else w, pools[1..], listing, f)
  }

  function DisabledPools(w: World): set<string>
  {
    set p | p in w.pools && w.pools[p].disabled
  }

  function DeletePools(w: World, listing: Listing, f: Faults): World
  {
    CollectPools(w, listing(DisabledPools(w)), listing, f)
  }

  // ---------- what every point of a run keeps ----------

  predicate Owns(w: World, pool: string, e: Extent)
  {
    pool in w.pools && e.blob in w.pools[pool].blobs && 1 <= e.index <= w.pools[pool].blobs[e.blob].extents
  }

  /** Blob ids are unique over all pools. */
  predicate OneHome(w: World)
  {
    forall p, q, b | p in w.pools && q in w.pools && b in w.pools[p].blobs && b in w.pools[q].blobs :: p == q
  }

  lemma {:induction false} HomeFound(w: World, pools: seq<string>, pool: string, blob: string)
    requires OneHome(w) && pool in w.pools && blob in w.pools[pool].blobs && pool in pools
    ensures Home(w, pools, blob) == Some(pool)
    decreases pools
  {
    if pools[0] != pool {
      HomeFound(w, pools[1..], pool, blob);
    }
  }

  /** With unique ids the blob found is the one of the pool that is collected. */
  lemma HomeIs(w: World, listing: Listing, pool: string, blob: string)
    requires ValidListing(listing) && OneHome(w) && pool in w.pools && blob in w.pools[pool].blobs
    ensures Home(w, listing(w.pools.Keys), blob) == Some(pool)
  {
    assert Lists(listing(w.pools.Keys), w.pools.Keys);
    HomeFound(w, listing(w.pools.Keys), pool, blob);
  }

  /** Every stored router has its blob's record. */
  predicate RoutersOwned(w: World)
  {
    forall e | e in w.routers :: exists p :: p in w.pools && Owns(w, p, e)
  }

  /** The extents i..n of the blob have no routers. */
  predicate NoRouters(w: World, blob: string, i: nat, n: nat)
  {
    forall k: nat | i <= k <= n :: Extent(blob, k) !in w.routers
  }

  lemma RouterGone(w: World, e: Extent)
    requires RoutersOwned(w)
    ensures RoutersOwned(WithoutRouter(w, e))
  {
  }

  lemma BlobGone(w: World, pool: string, blob: string)
    requires RoutersOwned(w) && pool in w.pools && blob in w.pools[pool].blobs
    requires NoRouters(w, blob, 1, w.pools[pool].blobs[blob].extents)
    ensures RoutersOwned(WithoutBlob(w, pool, blob))
  {
    var w' := WithoutBlob(w, pool, blob);
    forall r | r in w'.routers ensures exists p :: p in w'.pools && Owns(w', p, r) {
      var p :| p in w.pools && Owns(w, p, r);
      assert Extent(r.blob, r.index) == r;
      assert Owns(w', p, r);
    }
  }

  /** Clearing a pool's servers or groups touches neither blobs nor routers. */
  lemma MembersGone(w: World, w': World)
    requires RoutersOwned(w) && OneHome(w) && w'.routers == w.routers && w'.pools.Keys == w.pools.Keys
    requires forall p | p in w.pools :: w'.pools[p].blobs == w.pools[p].blobs
    ensures RoutersOwned(w') && OneHome(w')
  {
    forall r | r in w'.routers ensures exists p :: p in w'.pools && Owns(w', p, r) {
      var p :| p in w.pools && Owns(w, p, r);
      assert Owns(w', p, r);
    }
  }

  lemma PoolGone(w: World, pool: string)
    requires RoutersOwned(w) && pool in w.pools && w.pools[pool].blobs == map[]
    ensures RoutersOwned(WithoutPool(w, pool))
  {
    var w' := WithoutPool(w, pool);
    forall r | r in w'.routers ensures exists p :: p in w'.pools && Owns(w', p, r) {
      var p :| p in w.pools && Owns(w, p, r);
      assert Owns(w', p, r);
    }
  }

  lemma {:induction false} ExtentsGone(w: World, blob: string, i: nat, n: nat, remote: bool, f: Faults)
    ensures var r := DeleteExtents(w, blob, i, n, remote, f);
            && r.world.pools == w.pools && r.world.records == w.records && r.world.routers <= w.routers
            && (forall e | e in w.routers && e !in r.world.routers :: e.blob == blob && i <= e.index <= n)
            && (r.ok ==> NoRouters(r.world, blob, i, n))
    decreases n + 1 - i
  {
    var e := Extent(blob, i);
    if i <= n && !(remote && !RemoteDone(w, e, f)) && !f.router(e) {
      ExtentsGone(WithoutRouter(w, e), blob, i + 1, n, remote, f);
      var r := DeleteExtents(WithoutRouter(w, e), blob, i + 1, n, remote, f);
      if r.ok {
        forall k: nat | i <= k <= n ensures Extent(blob, k) !in r.world.routers {
          if k > i {
            assert NoRouters(r.world, blob, i + 1, n);
          }
        }
      }
    }
  }

  // ---------- the state a complete run reaches ----------

  predicate Doomed(w: World, e: Extent)
  {
    exists p :: p in w.pools && w.pools[p].disabled && Owns(w, p, e)
  }

  predicate Has(p: Pool, m: Member)
  {
    match m
    case Server(_, s) => s in p.servers
    case Group(_, g) => g in p.groups
  }

  predicate DoomedMember(w: World, m: Member)
  {
    m.pool in w.pools && w.pools[m.pool].disabled && Has(w.pools[m.pool], m)
  }

  /** No disabled pools, no routers of their blobs, and no records of their servers and groups. */
  function Cleaned(w: World): World
  {
    World(map p | p in w.pools && !w.pools[p].disabled :: w.pools[p],
          set e | e in w.routers && !Doomed(w, e),
          set m | m in w.records && !DoomedMember(w, m))
  }

  lemma NothingToClean(w: World)
    requires DisabledPools(w) == {}
    ensures Cleaned(w) == w
  {
    forall p | p in w.pools ensures !w.pools[p].disabled {
      assert p !in DisabledPools(w);
    }
    assert Cleaned(w).pools == w.pools;
    assert Cleaned(w).routers == w.routers;
    assert Cleaned(w).records == w.records;
  }

  /** Deleting routers of a disabled pool's blob does not change where collection leads. */
  lemma CleanedWithoutRouters(w: World, w': World, pool: string, blob: string)
    requires w'.pools == w.pools && w'.records == w.records && w'.routers <= w.routers
    requires pool in w.pools && w.pools[pool].disabled
    requires forall e | e in w.routers && e !in w'.routers :: e.blob == blob && Owns(w, pool, e)
    ensures Cleaned(w') == Cleaned(w)
  {
    assert Cleaned(w').records == Cleaned(w).records;
  }

  lemma CleanedWithoutBlob(w: World, pool: string, blob: string)
    requires pool in w.pools && w.pools[pool].disabled && blob in w.pools[pool].blobs
    requires NoRouters(w, blob, 1, w.pools[pool].blobs[blob].extents)
    ensures Cleaned(WithoutBlob(w, pool, blob)) == Cleaned(w)
  {
    var w' := WithoutBlob(w, pool, blob);
    forall e | e in w.routers ensures Doomed(w, e) <==> Doomed(w', e) {
      if p :| p in w.pools && w.pools[p].disabled && Owns(w, p, e) {
        assert Extent(e.blob, e.index) == e;
        assert Owns(w', p, e);
      }
      if p :| p in w'.pools && w'.pools[p].disabled && Owns(w', p, e) {
        assert Owns(w, p, e);
      }
    }
    assert Cleaned(w').routers == Cleaned(w).routers;
    assert Cleaned(w').pools == Cleaned(w).pools;
    assert Cleaned(w').records == Cleaned(w).records;
  }

  /** A change of a disabled pool without blobs that leaves the other pools and the routers alone. */
  lemma OwnsAlike(w: World, w': World, pool: string)
    requires pool in w.pools && w.pools[pool].disabled && w.pools[pool].blobs == map[]
    requires w'.routers == w.routers
    requires forall p | p != pool :: p in w.pools <==> p in w'.pools
    requires forall p | p != pool && p in w.pools :: w.pools[p] == w'.pools[p]
    requires pool in w'.pools ==> w'.pools[pool].disabled && w'.pools[pool].blobs == map[]
    ensures Cleaned(w').pools == Cleaned(w).pools && Cleaned(w').routers == Cleaned(w).routers
    ensures RoutersOwned(w) ==> RoutersOwned(w')
  {
    forall e ensures Doomed(w, e) <==> Doomed(w', e) {
      DoomedAlike(w, w', pool, e);
      DoomedAlike(w', w, pool, e);
    }
    if RoutersOwned(w) {
      forall e | e in w'.routers ensures exists p :: p in w'.pools && Owns(w', p, e) {
        var p :| p in w.pools && Owns(w, p, e);
        assert p in w'.pools && Owns(w', p, e);
      }
    }
  }

  lemma DoomedAlike(w: World, w': World, pool: string, e: Extent)
    requires pool in w.pools ==> w.pools[pool].blobs == map[]
    requires forall p | p != pool && p in w.pools :: p in w'.pools && w.pools[p] == w'.pools[p]
    ensures Doomed(w, e) ==> Doomed(w', e)
  {
    if p :| p in w.pools && w.pools[p].disabled && Owns(w, p, e) {
      assert p in w'.pools && w'.pools[p].disabled && Owns(w', p, e);
    }
  }

  // ---------- whole runs ----------

  /** Only `pool` has changed, and only by losing the blobs in `gone`. */
  predicate Lost(w: World, w': World, pool: string, gone: set<string>)
  {
    && pool in w.pools && w'.records == w.records
    && w'.pools == w.pools[pool := w.pools[pool].(blobs := w.pools[pool].blobs - gone)]
  }

  lemma LostNothing(w: World, w': World, pool: string)
    requires pool in w.pools && w'.pools == w.pools && w'.records == w.records
    ensures Lost(w, w', pool, {})
  {
    assert w.pools[pool].blobs - {} == w.pools[pool].blobs;
  }

  lemma LostTwice(w: World, w1: World, w2: World, pool: string, a: set<string>, b: set<string>)
    requires Lost(w, w1, pool, a) && Lost(w1, w2, pool, b)
    ensures Lost(w, w2, pool, a + b)
  {
    assert (w.pools[pool].blobs - a) - b == w.pools[pool].blobs - (a + b);
  }

  lemma LostKeepsHomes(w: World, w': World, pool: string, gone: set<string>)
    requires OneHome(w) && Lost(w, w', pool, gone)
    ensures OneHome(w')
  {
  }

  lemma {:induction false} ExtentsOwned(w: World, blob: string, i: nat, n: nat, remote: bool, f: Faults)
    requires RoutersOwned(w)
    ensures RoutersOwned(DeleteExtents(w, blob, i, n, remote, f).world)
    decreases n + 1 - i
  {
    var e := Extent(blob, i);
    if i <= n && !(remote && !RemoteDone(w, e, f)) && !f.router(e) {
      RouterGone(w, e);
      ExtentsOwned(WithoutRouter(w, e), blob, i + 1, n, remote, f);
    }
  }

  /** The blob is one of the pool's. */
  ghost predicate Listed(w: World, listing: Listing, pool: string, blob: string)
  {
    ValidListing(listing) && OneHome(w) && pool in w.pools && blob in w.pools[pool].blobs
  }

  lemma OneBlobLost(w: World, listing: Listing, pool: string, blob: string, remote: bool, f: Faults)
    requires Listed(w, listing, pool, blob)
    ensures var r := DeleteOneBlob(w, listing, pool, blob, remote, f);
            && Lost(w, r.world, pool, if r.ok then {blob} else {})
            && (RoutersOwned(w) ==> RoutersOwned(r.world))
            && (forall e | e in w.routers && e !in r.world.routers :: e.blob == blob)
            && (w.pools[pool].disabled ==> Cleaned(r.world) == Cleaned(w))
  {
    HomeIs(w, listing, pool, blob);
    var n := w.pools[pool].blobs[blob].extents;
    var r := DeleteExtents(w, blob, 1, n, remote, f);
    ExtentsGone(w, blob, 1, n, remote, f);
    LostNothing(w, r.world, pool);
    if RoutersOwned(w) {
      ExtentsOwned(w, blob, 1, n, remote, f);
      if r.ok {
        BlobGone(r.world, pool, blob);
      }
    }
    if w.pools[pool].disabled {
      CleanedWithoutRouters(w, r.world, pool, blob);
      if r.ok {
        CleanedWithoutBlob(r.world, pool, blob);
      }
    }
  }

  /** Nothing keeps the blob from being collected without remote deletion. */
  ghost predicate BlobClears(b: BlobInfo, blob: string, f: Faults)
  {
    !f.late(blob) && !f.blob(blob) && forall k: nat | 1 <= k <= b.extents :: !f.router(Extent(blob, k))
  }

  lemma {:induction false} ExtentsOkIff(w: World, blob: string, i: nat, n: nat, f: Faults)
    ensures DeleteExtents(w, blob, i, n, false, f).ok <==> forall k: nat | i <= k <= n :: !f.router(Extent(blob, k))
    decreases n + 1 - i
  {
    if i <= n && !f.router(Extent(blob, i)) {
      ExtentsOkIff(WithoutRouter(w, Extent(blob, i)), blob, i + 1, n, f);
    }
  }

  lemma OneBlobOkIff(w: World, listing: Listing, pool: string, blob: string, f: Faults)
    requires Listed(w, listing, pool, blob) && !f.late(blob)
    ensures DeleteOneBlob(w, listing, pool, blob, false, f).ok <==> BlobClears(w.pools[pool].blobs[blob], blob, f)
  {
    HomeIs(w, listing, pool, blob);
    var n := w.pools[pool].blobs[blob].extents;
    ExtentsGone(w, blob, 1, n, false, f);
    ExtentsOkIff(w, blob, 1, n, f);
  }

  ghost predicate AllListed(w: World, listing: Listing, pool: string, blobs: seq<string>)
  {
    && ValidListing(listing) && OneHome(w) && pool in w.pools && Distinct(blobs)
    && forall b | b in blobs :: b in w.pools[pool].blobs
  }

  lemma RestListed(w: World, w': World, listing: Listing, pool: string, blobs: seq<string>, gone: set<string>)
    requires AllListed(w, listing, pool, blobs) && blobs != [] && Lost(w, w', pool, gone) && gone <= {blobs[0]}
    ensures AllListed(w', listing, pool, blobs[1..])
    ensures forall b | b in blobs[1..] :: w'.pools[pool].blobs[b] == w.pools[pool].blobs[b]
  {
    LostKeepsHomes(w, w', pool, gone);
    forall b | b in blobs[1..] ensures b in blobs && b != blobs[0] {
    }
  }

  /** What a run over a list of blobs does: if it reports success, all of them are gone. */
  lemma {:induction false} BlobsLost(w: World, listing: Listing, pool: string, blobs: seq<string>, remote: bool,
                                     f: Faults)
    returns (gone: set<string>)
    requires AllListed(w, listing, pool, blobs)
    ensures var r := DeleteBlobs(w, listing, pool, blobs, remote, f);
            && Lost(w, r.world, pool, gone)
            && (RoutersOwned(w) ==> RoutersOwned(r.world))
            && (w.pools[pool].disabled ==> Cleaned(r.world) == Cleaned(w))
            && (r.ok ==> forall b | b in blobs :: b in gone)
            && (forall b | b in gone :: b in blobs)
            && (forall e | e in w.routers && e !in r.world.routers :: e.blob in blobs)
    decreases blobs
  {
    gone := {};
    LostNothing(w, w, pool);
    if blobs != [] && !f.late(blobs[0]) {
      var one := DeleteOneBlob(w, listing, pool, blobs[0], remote, f);
      assert blobs[0] in blobs;
      OneBlobLost(w, listing, pool, blobs[0], remote, f);
      RestListed(w, one.world, listing, pool, blobs, if one.ok then {blobs[0]} else {});
      var rest := BlobsLost(one.world, listing, pool, blobs[1..], remote, f);
      gone := (if one.ok then {blobs[0]} else {}) + rest;
      LostTwice(w, one.world, DeleteBlobs(one.world, listing, pool, blobs[1..], remote, f).world, pool,
                if one.ok then {blobs[0]} else {}, rest);
    }
  }

  lemma {:induction false} BlobsOkIff(w: World, listing: Listing, pool: string, blobs: seq<string>, f: Faults)
    requires AllListed(w, listing, pool, blobs)
    ensures DeleteBlobs(w, listing, pool, blobs, false, f).ok
            <==> forall b | b in blobs :: BlobClears(w.pools[pool].blobs[b], b, f)
    decreases blobs
  {
    if blobs != [] {
      var b := blobs[0];
      assert b in blobs;
      if !f.late(b) {
        var one := DeleteOneBlob(w, listing, pool, b, false, f);
        OneBlobLost(w, listing, pool, b, false, f);
        OneBlobOkIff(w, listing, pool, b, f);
        RestListed(w, one.world, listing, pool, blobs, if one.ok then {b} else {});
        BlobsOkIff(one.world, listing, pool, blobs[1..], f);
        assert forall c | c in blobs :: c == b || c in blobs[1..];
        assert forall c | c in blobs[1..] :: c in blobs;
      }
    }
  }

  /** Nothing keeps the pool's blobs from being collected. */
  ghost predicate Clears(w: World, pool: string, f: Faults)
  {
    pool in w.pools && forall b | b in w.pools[pool].blobs :: BlobClears(w.pools[pool].blobs[b], b, f)
  }

  /** Records that outlive what memory knows of them: a failed deletion of one is not tried again. */
  ghost function Leaked(w: World, pools: set<string>, f: Faults): set<Member>
  {
    set m | m in w.records && DoomedMember(w, m) && f.member(m) && m.pool in pools && Clears(w, m.pool, f)
  }

  /** From w' collection leads where it leads from w, except for the leaked records. */
  ghost predicate OnTheWay(w: World, w': World, leaked: set<Member>)
  {
    && Cleaned(w') == Cleaned(w).(records := Cleaned(w).records + leaked)
    && (RoutersOwned(w) ==> RoutersOwned(w'))
    && (OneHome(w) ==> OneHome(w'))
  }

  /** Other pools, and the records of their members, are as they were. */
  ghost predicate Elsewhere(w: World, w': World, pool: string)
  {
    && (forall p | p != pool :: p in w.pools <==> p in w'.pools)
    && (forall p | p != pool && p in w.pools :: w'.pools[p] == w.pools[p])
    && (forall m: Member | m.pool != pool :: m in w.records <==> m in w'.records)
  }

  /** Once the blobs are gone, clearing the members loses what cannot be deleted. */
  lemma MembersCleared(w: World, pool: string, f: Faults)
    requires pool in w.pools && w.pools[pool].disabled && w.pools[pool].blobs == map[]
    ensures var w' := DeleteAllRg(DeleteAllEs(w, pool, f), pool, f);
            && w'.routers == w.routers && pool in w'.pools && Elsewhere(w, w', pool)
            && w'.pools[pool] == Pool(true, map[], {}, {})
            && (forall m: Member | m.pool == pool ::
                  m in w'.records <==> m in w.records && (Has(w.pools[pool], m) ==> f.member(m)))
  {
    var w1 := DeleteAllEs(w, pool, f);
    var w' := DeleteAllRg(w1, pool, f);
    forall m: Member | m.pool == pool
      ensures m in w'.records <==> m in w.records && (Has(w.pools[pool], m) ==> f.member(m))
    {
      assert m in ServersOf(pool, w.pools[pool]) <==> m.Server? && Has(w.pools[pool], m);
      assert m in GroupsOf(pool, w1.pools[pool]) <==> m.Group? && Has(w.pools[pool], m);
    }
  }

  lemma ClearedCleans(w: World, w': World, pool: string, f: Faults)
    requires pool in w.pools && w.pools[pool].disabled && w.pools[pool].blobs == map[]
    requires w'.routers == w.routers && Elsewhere(w, w', pool)
    requires pool in w'.pools ==> w'.pools[pool] == Pool(true, map[], {}, {})
    requires forall m: Member | m.pool == pool ::
               m in w'.records <==> m in w.records && (Has(w.pools[pool], m) ==> f.member(m))
    ensures OnTheWay(w, w', Leaked(w, {pool}, f))
  {
    OwnsAlike(w, w', pool);
    assert Clears(w, pool, f);
    assert Cleaned(w').records == Cleaned(w).records + Leaked(w, {pool}, f) by {
      forall m: Member ensures m in Cleaned(w').records <==> m in Cleaned(w).records + Leaked(w, {pool}, f) {
      }
    }
  }

  lemma ComposeWays(w: World, w1: World, w2: World, a: set<Member>, b: set<Member>)
    requires OnTheWay(w, w1, a) && OnTheWay(w1, w2, b)
    ensures OnTheWay(w, w2, a + b)
  {
  }

  /** A pool that cannot be emptied leaks nothing; one that can leaks the records it fails to delete. */
  lemma CollectedPool(w: World, pool: string, listing: Listing, f: Faults)
    requires ValidListing(listing) && OneHome(w) && pool in w.pools && w.pools[pool].disabled
    ensures var r := DeleteBlobs(w, listing, pool, listing(w.pools[pool].blobs.Keys), false, f);
            && (r.ok <==> Clears(w, pool, f))
            && pool in r.world.pools && (r.ok ==> r.world.pools[pool].blobs == map[])
    ensures var w' := CollectPool(w, pool, listing, f);
            && OnTheWay(w, w', Leaked(w, {pool}, f)) && Elsewhere(w, w', pool)
            && (pool in w'.pools ==> w'.pools[pool].disabled)
            && (pool !in w'.pools <==> Clears(w, pool, f) && !f.pool(pool))
  {
    var list := listing(w.pools[pool].blobs.Keys);
    var r := DeleteBlobs(w, listing, pool, list, false, f);
    assert Lists(list, w.pools[pool].blobs.Keys);
    var gone := BlobsLost(w, listing, pool, list, false, f);
    BlobsOkIff(w, listing, pool, list, f);
    LostKeepsHomes(w, r.world, pool, gone);
    LostElsewhere(w, r.world, pool, gone);
    if r.ok {
      assert w.pools[pool].blobs - gone == map[];
      MembersCleared(r.world, pool, f);
      var w1 := DeleteAllRg(DeleteAllEs(r.world, pool, f), pool, f);
      ClearedCleans(r.world, if f.pool(pool) then w1 else WithoutPool(w1, pool), pool, f);
      SameLeak(w, r.world, pool, gone, f);
    } else {
      assert Leaked(w, {pool}, f) == {};
    }
  }

  lemma LostElsewhere(w: World, w': World, pool: string, gone: set<string>)
    requires Lost(w, w', pool, gone)
    ensures Elsewhere(w, w', pool)
  {
  }

  lemma SameLeak(w: World, w': World, pool: string, gone: set<string>, f: Faults)
    requires Lost(w, w', pool, gone) && Clears(w, pool, f)
    ensures Leaked(w', {pool}, f) == Leaked(w, {pool}, f)
  {
  }

  lemma LeakSplits(w: World, w1: World, pools: seq<string>, f: Faults)
    requires pools != [] && Distinct(pools) && Elsewhere(w, w1, pools[0])
    ensures Leaked(w, Elements(pools), f) == Leaked(w, {pools[0]}, f) + Leaked(w1, Elements(pools[1..]), f)
  {
    forall m: Member
      ensures m in Leaked(w, Elements(pools), f)
              <==> m in Leaked(w, {pools[0]}, f) + Leaked(w1, Elements(pools[1..]), f)
    {
      if m.pool in pools[1..] {
        assert m.pool in pools && m.pool != pools[0];
        assert Clears(w, m.pool, f) <==> Clears(w1, m.pool, f);
      }
    }
  }

  lemma {:induction false} CollectedPools(w: World, pools: seq<string>, listing: Listing, f: Faults)
    requires ValidListing(listing) && OneHome(w) && Distinct(pools)
    requires forall p | p in pools :: p in w.pools && w.pools[p].disabled
    ensures var w' := CollectPools(w, pools, listing, f);
            && OnTheWay(w, w', Leaked(w, Elements(pools), f))
            && (forall p | p in w'.pools :: p in w.pools && (p in pools ==> !Clears(w, p, f) || f.pool(p)))
            && (forall p | p in w'.pools && p !in pools :: w'.pools[p] == w.pools[p])
    decreases pools
  {
    if pools == [] {
      assert Leaked(w, Elements(pools), f) == {};
    } else {
      var p := pools[0];
      assert p in pools;
      CollectedPool(w, p, listing, f);
      var w1 := CollectPool(w, p, listing, f);
      forall q | q in pools[1..] ensures q in w1.pools && w1.pools[q].disabled {
        assert q in pools && q != p;
      }
      CollectedPools(w1, pools[1..], listing, f);
      LeakSplits(w, w1, pools, f);
      ComposeWays(w, w1, CollectPools(w, pools, listing, f), Leaked(w, {p}, f), Leaked(w1, Elements(pools[1..]), f));
      forall q | q in CollectPools(w, pools, listing, f).pools && q in pools
        ensures !Clears(w, q, f) || f.pool(q)
      {
        assert q != p ==> (Clears(w, q, f) <==> Clears(w1, q, f));
      }
    }
  }

  /** Whatever fails in a run over the disabled pools: its goal, and what it leaks. */
  lemma DeletePoolsKeeps(w: World, listing: Listing, f: Faults)
    requires ValidListing(listing) && OneHome(w)
    ensures OnTheWay(w, DeletePools(w, listing, f), Leaked(w, DisabledPools(w), f))
  {
    var list := ListedPools(w, listing);
    CollectedPools(w, list, listing, f);
  }

  lemma ListedPools(w: World, listing: Listing) returns (list: seq<string>)
    requires ValidListing(listing)
    ensures list == listing(DisabledPools(w)) && Distinct(list) && Elements(list) == DisabledPools(w)
    ensures forall p | p in list :: p in w.pools && w.pools[p].disabled
  {
    list := listing(DisabledPools(w));
    assert Lists(list, DisabledPools(w));
    forall p | p in list ensures p in w.pools && w.pools[p].disabled {
      assert p in DisabledPools(w);
    }
  }

  // ---------- runs in which nothing fails ----------

  /** A run in which nothing fails removes the disabled pools with all that is theirs, and nothing else. */
  lemma DeletePoolsCleans(w: World, listing: Listing)
    requires ValidListing(listing) && OneHome(w)
    ensures DeletePools(w, listing, NoFaults()) == Cleaned(w)
  {
    var list := ListedPools(w, listing);
    var w' := DeletePools(w, listing, NoFaults());
    CollectedPools(w, list, listing, NoFaults());
    forall p | p in w'.pools ensures !w'.pools[p].disabled {
      assert p in list ==> Clears(w, p, NoFaults());
      assert p !in Elements(list);
    }
    NothingToClean(w');
    assert Leaked(w, Elements(list), NoFaults()) == {};
  }

  /**
   Trying again after any attempt reaches the state the first attempt was to reach, except for the
   records the first attempt leaked; so it reaches that state exactly when nothing leaked.
   */
  lemma RetryReachesIff(w: World, listing: Listing, f: Faults)
    requires ValidListing(listing) && OneHome(w)
    ensures var again := DeletePools(DeletePools(w, listing, f), listing, NoFaults());
            var once := DeletePools(w, listing, NoFaults());
            var leaked := Leaked(w, DisabledPools(w), f);
            && again == once.(records := once.records + leaked)
            && (again == once <==> leaked == {})
  {
    DeletePoolsKeeps(w, listing, f);
    DeletePoolsCleans(w, listing);
    DeletePoolsCleans(DeletePools(w, listing, f), listing);
    var leaked := Leaked(w, DisabledPools(w), f);
    assert forall m | m in leaked :: m !in Cleaned(w).records;
  }

  // ---------- with remote deletion ----------

  predicate HasRouters(w: World, blob: string, i: nat, n: nat)
  {
    forall k: nat | i <= k <= n :: Extent(blob, k) in w.routers
  }

  lemma {:induction false} RemoteExtentsIff(w: World, blob: string, i: nat, n: nat)
    ensures DeleteExtents(w, blob, i, n, true, NoFaults()).ok <==> HasRouters(w, blob, i, n)
    decreases n + 1 - i
  {
    if i <= n && Extent(blob, i) in w.routers {
      var w' := WithoutRouter(w, Extent(blob, i));
      RemoteExtentsIff(w', blob, i + 1, n);
      assert HasRouters(w', blob, i + 1, n) <==> HasRouters(w, blob, i, n) by {
        forall k: nat | i + 1 <= k ensures Extent(blob, k) in w'.routers <==> Extent(blob, k) in w.routers {
        }
      }
    }
  }

  lemma {:induction false} RemoteExtentsStop(w: World, blob: string, i: nat, n: nat, f: Faults)
    requires !HasRouters(w, blob, i, n)
    ensures !DeleteExtents(w, blob, i, n, true, f).ok
    decreases n + 1 - i
  {
    var e := Extent(blob, i);
    if RemoteDone(w, e, f) && !f.router(e) {
      assert !HasRouters(WithoutRouter(w, e), blob, i + 1, n) by {
        var k: nat :| i <= k <= n && Extent(blob, k) !in w.routers;
        assert Extent(blob, k) !in WithoutRouter(w, e).routers;
      }
      RemoteExtentsStop(WithoutRouter(w, e), blob, i + 1, n, f);
    }
  }

  /**
   With remote deletion a blob can be collected exactly when all its routers are still there: an
   attempt that fails after deleting a router can never be completed.
   */
  lemma RemoteCollectsIff(w: World, listing: Listing, pool: string, blob: string)
    requires Listed(w, listing, pool, blob)
    ensures DeleteOneBlob(w, listing, pool, blob, true, NoFaults()).ok
            <==> HasRouters(w, blob, 1, w.pools[pool].blobs[blob].extents)
    ensures forall f: Faults :: !HasRouters(w, blob, 1, w.pools[pool].blobs[blob].extents) ==>
              !DeleteOneBlob(w, listing, pool, blob, true, f).ok
  {
    HomeIs(w, listing, pool, blob);
    var n := w.pools[pool].blobs[blob].extents;
    RemoteExtentsIff(w, blob, 1, n);
    ExtentsGone(w, blob, 1, n, true, NoFaults());
    if !HasRouters(w, blob, 1, n) {
      forall f: Faults ensures !DeleteOneBlob(w, listing, pool, blob, true, f).ok {
        RemoteExtentsStop(w, blob, 1, n, f);
      }
    }
  }

  /** An attempt that fails at the second router leaves a blob that no later attempt can collect. */
  lemma RemoteRetryStuck(w: World, listing: Listing, pool: string, blob: string, f: Faults, g: Faults)
    requires Listed(w, listing, pool, blob) && w.pools[pool].blobs[blob].extents >= 2
    requires RemoteDone(w, Extent(blob, 1), f) && !f.router(Extent(blob, 1)) && f.router(Extent(blob, 2))
    ensures var w' := DeleteOneBlob(w, listing, pool, blob, true, f).world;
            && pool in w'.pools && blob in w'.pools[pool].blobs
            && !DeleteOneBlob(w', listing, pool, blob, true, g).ok
  {
    HomeIs(w, listing, pool, blob);
    var n := w.pools[pool].blobs[blob].extents;
    var w1 := WithoutRouter(w, Extent(blob, 1));
    assert DeleteExtents(w1, blob, 2, n, true, f) == Result(w1, false);
    assert DeleteExtents(w, blob, 1, n, true, f) == Result(w1, false);
    assert Extent(blob, 1) !in w1.routers;
    RemoteCollectsIff(w1, listing, pool, blob);
  }
}
