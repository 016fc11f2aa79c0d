/**
 The garbage collector: loops over pools, blobs and extents that delete records step by step. `trace`
 keeps every state the records go through.
 */
module GcManagers {
  import opened Common
  import opened Gc
  import opened GcSoft
  import opened GcUsers

  /** A pool's record disappears only when the pool has no blobs, servers or groups left. */
  predicate PoolsEmptied(a: World, b: World)
  {
    forall p | p in a.pools && p !in b.pools ::
      a.pools[p].blobs == map[] && a.pools[p].servers == {} && a.pools[p].groups == {}
  }

  /** At every point every router has its blob's record, and no pool went with anything in it. */
  predicate Careful(trace: seq<World>)
  {
    && (forall i | 0 <= i < |trace| :: RoutersOwned(trace[i]) && OneHome(trace[i]))
    && (forall i | 0 < i < |trace| :: PoolsEmptied(trace[i - 1], trace[i]))
  }

  lemma CarefulStep(trace: seq<World>, w: World)
    requires Careful(trace) && trace != [] && RoutersOwned(w) && OneHome(w) && PoolsEmptied(trace[|trace| - 1], w)
    ensures Careful(trace + [w])
  {
  }

  function WithoutRecord(w: World, m: Member): World
  {
    w.(records := w.records - {m})
  }

  function WithoutServers(w: World, pool: string): World
    requires pool in w.pools
  {
    w.(pools := w.pools[pool := w.pools[pool].(servers := {})])
  }

  function WithoutGroups(w: World, pool: string): World
    requires pool in w.pools
  {
    w.(pools := w.pools[pool := w.pools[pool].(groups := {})])
  }

  class GcManager {
    var world: World
    ghost var trace: seq<World>

    ghost predicate Valid()
      reads this
    {
      trace != [] && trace[|trace| - 1] == world && Careful(trace)
    }

    constructor (w: World)
      requires RoutersOwned(w) && OneHome(w)
      ensures Valid() && world == w
    {
      world, trace := w, [w];
    }

    method Become(w: World)
      requires Valid() && RoutersOwned(w) && OneHome(w) && PoolsEmptied(world, w)
      modifies this
      ensures Valid() && world == w && trace == old(trace) + [w]
    {
      CarefulStep(trace, w);
      world, trace := w, trace + [w];
    }

    /** The loop over all pools for the one that has the blob. */
    method QueryBlob(pools: seq<string>, blob: string) returns (home: Option<string>)
      ensures home == Home(world, pools, blob)
    {
      var i := 0;
      while i < |pools|
        invariant i <= |pools| && Home(world, pools, blob) == Home(world, pools[i..], blob)
      {
        assert pools[i..][1..] == pools[i + 1..] && pools[i..][0] == pools[i];
        if pools[i] in world.pools && blob in world.pools[pools[i]].blobs {
          return Some(pools[i]);
        }
        i := i + 1;
      }
      home := None;
    }

    method DeleteExtents(blob: string, n: nat, remote: bool, f: Faults) returns (ok: bool)
      requires Valid()
      modifies this
      ensures Valid() && Result(world, ok) == Gc.DeleteExtents(old(world), blob, 1, n, remote, f)
      ensures old(trace) <= trace
    {
      var index := 1;
      while index <= n
        invariant 1 <= index <= n + 1 && Valid() && old(trace) <= trace
        invariant Gc.DeleteExtents(old(world), blob, 1, n, remote, f)
                  == Gc.DeleteExtents(world, blob, index, n, remote, f)
      {
        var e := Extent(blob, index);
        if remote && (e !in world.routers || f.remote(e)) {
          return false;
        }
        if f.router(e) {
          return false;
        }
        RouterGone(world, e);
        Become(WithoutRouter(world, e));
        index := index + 1;
      }
      ok := true;
    }

    method DeleteOneBlob(listing: Listing, pool: string, blob: string, remote: bool, f: Faults) returns (ok: bool)
      requires Valid() && ValidListing(listing)
      modifies this
      ensures Valid() && Result(world, ok) == Gc.DeleteOneBlob(old(world), listing, pool, blob, remote, f)
      ensures old(trace) <= trace
    {
      ghost var was := world;
      var home := QueryBlob(listing(world.pools.Keys), blob);
      if home.None? {
        return false;
      }
      var n := world.pools[home.value].blobs[blob].extents;
      ExtentsGone(was, blob, 1, n, remote, f);
      ok := DeleteExtents(blob, n, remote, f);
      if !ok {
        return;
      }
      if pool !in world.pools || blob !in world.pools[pool].blobs || f.blob(blob) {
        return false;
      }
      HomeIs(was, listing, pool, blob);
      BlobGone(world, pool, blob);
      Become(WithoutBlob(world, pool, blob));
    }

    method DeleteBlobs(listing: Listing, pool: string, blobs: seq<string>, remote: bool, f: Faults) returns (ok: bool)
      requires Valid() && ValidListing(listing)
      modifies this
      ensures Valid() && Result(world, ok) == Gc.DeleteBlobs(old(world), listing, pool, blobs, remote, f)
      ensures old(trace) <= trace
    {
      var success := true;
      var i := 0;
      while i < |blobs|
        invariant i <= |blobs| && Valid() && old(trace) <= trace
        invariant Gc.DeleteBlobs(old(world), listing, pool, blobs, remote, f)
                  == (var rest := Gc.DeleteBlobs(world, listing, pool, blobs[i..], remote, f);
                      Result(rest.world, success && rest.ok))
      {
        var blob := blobs[i];
        assert blobs[i..][1..] == blobs[i + 1..] && blobs[i..][0] == blob;
        if f.late(blob) {
          return false;
        }
        var one := DeleteOneBlob(listing, pool, blob, remote, f);
        success := success && one;
        i := i + 1;
      }
      ok := success;
    }

    /** Deletes these records from the store; a failure is passed over. */
    method DeleteRecords(members: set<Member>, f: Faults)
      requires Valid()
      modifies this
      ensures Valid() && world == old(world).(records := old(world).records - Deleted(members, f))
      ensures old(trace) <= trace
    {
      var todo := members;
      while todo != {}
        invariant todo <= members && Valid() && old(trace) <= trace
        invariant world == old(world).(records := old(world).records - Deleted(members - todo, f))
        decreases |todo|
      {
        var m :| m in todo;
        if !f.member(m) {
          MembersGone(world, WithoutRecord(world, m));
          Become(WithoutRecord(world, m));
        }
        todo := todo - {m};
      }
      assert members - todo == members;
    }

    method DeleteAllEs(pool: string, f: Faults)
      requires Valid() && pool in world.pools
      modifies this
      ensures Valid() && world == Gc.DeleteAllEs(old(world), pool, f)
      ensures old(trace) <= trace
    {
      DeleteRecords(ServersOf(pool, world.pools[pool]), f);
      MembersGone(world, WithoutServers(world, pool));
      Become(WithoutServers(world, pool));
    }

    method DeleteAllRg(pool: string, f: Faults)
      requires Valid() && pool in world.pools
      modifies this
      ensures Valid() && world == Gc.DeleteAllRg(old(world), pool, f)
      ensures old(trace) <= trace
    {
      DeleteRecords(GroupsOf(pool, world.pools[pool]), f);
      MembersGone(world, WithoutGroups(world, pool));
      Become(WithoutGroups(world, pool));
    }

    method CollectPool(pool: string, listing: Listing, f: Faults)
      requires Valid() && ValidListing(listing) && pool in world.pools && world.pools[pool].disabled
      modifies this
      ensures Valid() && world == Gc.CollectPool(old(world), pool, listing, f)
      ensures old(trace) <= trace
    {
      CollectedPool(world, pool, listing, f);
      var ok := DeleteBlobs(listing, pool, listing(world.pools[pool].blobs.Keys), false, f);
      if ok {
        DeleteAllEs(pool, f);
        DeleteAllRg(pool, f);
        if !f.pool(pool) {
          PoolGone(world, pool);
          Become(WithoutPool(world, pool));
        }
      }
    }

    /** Collects the disabled pools. */
    method DeletePools(listing: Listing, f: Faults)
      requires Valid() && ValidListing(listing)
      modifies this
      ensures Valid() && world == Gc.DeletePools(old(world), listing, f)
      ensures old(trace) <= trace
    {
      var pools := listing(DisabledPools(world));
      assert Lists(pools, DisabledPools(world));
      var i := 0;
      while i < |pools|
        invariant i <= |pools| && Valid() && old(trace) <= trace
        invariant CollectPools(old(world), pools, listing, f) == CollectPools(world, pools[i..], listing, f)
        invariant forall p | p in pools && p in world.pools :: world.pools[p].disabled
      {
        var pool := pools[i];
        assert pools[i..][1..] == pools[i + 1..] && pools[i..][0] == pool;
        if pool in world.pools {
          CollectedPool(world, pool, listing, f);
          CollectPool(pool, listing, f);
        }
        i := i + 1;
      }
    }

    /**
     Collects the soft deleted blobs of the pools in use, with their remote space. Such a blob is gone
     with all its routers exactly when it was reached in time, its routers were all stored and no step on
     it failed; if nothing fails, exactly when its routers were all stored. Nothing else goes.
     */
    method DeleteSoftDeleted(listing: Listing, f: Faults)
      requires Valid() && ValidListing(listing)
      modifies this
      ensures Valid() && old(trace) <= trace
      ensures Swept(old(world), world, EnabledPools(old(world)), listing, f) && OnlyDeletedGone(old(world), world)
      ensures forall p, b | p in EnabledPools(old(world)) && b in DeletedBlobs(old(world).pools[p]) ::
                var n := old(world).pools[p].blobs[b].extents;
                && (Gone(world, p, b, n) <==> Reached(old(world), old(world).pools[p], b, listing, f))
                && (f == NoFaults() ==> (Gone(world, p, b, n) <==> HasRouters(old(world), b, 1, n)))
    {
      var pools := listing(EnabledPools(world));
      assert Lists(pools, EnabledPools(world));
      ghost var was := world;
      ghost var swept: set<string> := {};
      SweptNothing(was, listing, f);
      var i := 0;
      while i < |pools|
        invariant i <= |pools| && Valid() && old(trace) <= trace && swept == Elements(pools[..i])
        invariant Swept(was, world, swept, listing, f)
      {
        var pool := pools[i];
        assert pool in pools;
        ElementsGrow(pools, i);
        SweepOne(was, world, swept, listing, f, pool);
        var _ := DeleteBlobs(listing, pool, listing(DeletedBlobs(world.pools[pool])), true, f);
        swept := swept + {pool};
        i := i + 1;
      }
      assert pools[..i] == pools;
      assert swept == EnabledPools(was);
      SweptGone(was, world, listing, f);
    }

    /** The blobs of one user in one pool. */
    method CollectUserPool(listing: Listing, owner: string -> string, user: string, pool: string, f: Faults)
      returns (ok: bool)
      requires Valid() && ValidListing(listing)
      modifies this
      ensures Valid() && old(trace) <= trace
      ensures Result(world, ok) == CollectIn(old(world), listing, owner, user, pool, f)
    {
      if pool !in world.pools || world.pools[pool].disabled {
        return false;
      }
      ok := DeleteBlobs(listing, pool, listing(BlobsOf(world.pools[pool], owner, user)), true, f);
    }

    /** The blobs of one user in each of their pools; `success` says whether all went well so far. */
    method CollectUserPools(listing: Listing, owner: string -> string, user: string, pools: seq<string>, success: bool,
                            f: Faults) returns (ok: bool)
      requires Valid() && ValidListing(listing)
      modifies this
      ensures Valid() && old(trace) <= trace
      ensures var r := CollectUser(old(world), listing, owner, user, pools, f);
              world == r.world && ok == (success && r.ok)
    {
      ok := success;
      ghost var goal := CollectUser(world, listing, owner, user, pools, f);
      var i := 0;
      assert pools[0..] == pools;
      while i < |pools|
        invariant i <= |pools| && Valid() && old(trace) <= trace
        invariant var rest := CollectUser(world, listing, owner, user, pools[i..], f);
                  goal.world == rest.world && (success && goal.ok <==> ok && rest.ok)
      {
        NextPool(world, listing, owner, user, pools, i, f);
        var one := CollectUserPool(listing, owner, user, pools[i], f);
        ok := one && ok;
        i := i + 1;
      }
    }

    /**
     Collects the blobs of deleted users and then the users. A user is gone exactly when the delete of the
     record works, all pools of this user and of every user before are in use, and nothing keeps a blob
     of any of them; then none of their blobs is left. What others own stays.
     */
    method DeleteUserBlobs(listing: Listing, d: Directory, users: seq<string>, f: Faults) returns (gone: set<string>)
      requires Valid() && ValidListing(listing) && d.Valid() && Distinct(users)
      modifies this
      ensures Valid() && old(trace) <= trace
      ensures UserRun(world, gone) == CollectUsers(old(world), listing, d, users, true, f)
      ensures RightUsersGone(old(world), listing, d, users, true, f, gone)
      ensures OthersKept(old(world), world, d.owner, users)
      ensures forall u | u in gone :: NothingLeft(world, d.owner, u, d.poolsOf(u))
    {
      UsersGoneIff(world, listing, d, users, true, f);
      ghost var goal := CollectUsers(world, listing, d, users, true, f);
      var success := true;
      gone := {};
      var i := 0;
      assert users[0..] == users;
      while i < |users|
        invariant i <= |users| && Valid() && old(trace) <= trace
        invariant var rest := CollectUsers(world, listing, d, users[i..], success, f);
                  goal.world == rest.world && goal.gone == gone + rest.gone
      {
        var user := users[i];
        assert users[i..][1..] == users[i + 1..] && users[i..][0] == user;
        success := CollectUserPools(listing, d.owner, user, d.poolsOf(user), success, f);
        if success && !d.fails(user) {
          gone := gone + {user};
        }
        i := i + 1;
      }
    }
  }

  lemma NextPool(w: World, listing: Listing, owner: string -> string, user: string, pools: seq<string>, i: nat,
                 f: Faults)
    requires i < |pools|
    ensures var one := CollectIn(w, listing, owner, user, pools[i], f);
            var rest := CollectUser(one.world, listing, owner, user, pools[i + 1..], f);
            CollectUser(w, listing, owner, user, pools[i..], f) == Result(rest.world, one.ok && rest.ok)
  {
    assert pools[i..][1..] == pools[i + 1..] && pools[i..][0] == pools[i];
  }

  lemma ElementsGrow<T>(s: seq<T>, i: nat)
    requires i < |s| && Distinct(s)
    ensures Elements(s[..i + 1]) == Elements(s[..i]) + {s[i]} && s[i] !in Elements(s[..i])
  {
  }

  lemma SweptGone(w: World, w': World, listing: Listing, f: Faults)
    requires ValidListing(listing) && OneHome(w) && Swept(w, w', EnabledPools(w), listing, f)
    ensures OnlyDeletedGone(w, w')
    ensures forall p, b | p in EnabledPools(w) && b in DeletedBlobs(w.pools[p]) ::
              var n := w.pools[p].blobs[b].extents;
              && (Gone(w', p, b, n) <==> Reached(w, w.pools[p], b, listing, f))
              && (f == NoFaults() ==> (Gone(w', p, b, n) <==> HasRouters(w, b, 1, n)))
  {
    SweptOnlyDeleted(w, w', listing, f);
    forall p, b | p in EnabledPools(w) && b in DeletedBlobs(w.pools[p])
      ensures Gone(w', p, b, w.pools[p].blobs[b].extents) <==> Reached(w, w.pools[p], b, listing, f)
      ensures f == NoFaults() ==>
                (Gone(w', p, b, w.pools[p].blobs[b].extents) <==> HasRouters(w, b, 1, w.pools[p].blobs[b].extents))
    {
      GoneIff(w, w', listing, f, p, b);
      ReachedWithoutFaults(w, p, b, listing);
    }
  }
}
