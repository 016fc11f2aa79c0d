/**
 Collection of soft deleted users: the blobs they own in each of their pools, with their remote space, and
 then the user's own record. Exactly which users are gone after a run.
 */
module GcUsers {
  import opened Common
  import opened Gc
  import opened GcSoft

  /** Who owns a blob, the pools of each user, and whether the delete of a user's record fails. */
  datatype Directory = Directory(owner: string -> string, poolsOf: string -> seq<string>, fails: string -> bool) {
    /** A user has no pool twice. */
    ghost predicate Valid()
    {
      forall user :: Distinct(poolsOf(user))
    }
  }

  function BlobsOf(p: Pool, owner: string -> string, user: string): set<string>
  {
    set b | b in p.blobs && owner(b) == user
  }

  /** The user's blobs in one pool; a pool that is gone or disabled counts as a failure. */
  function CollectIn(w: World, listing: Listing, owner: string -> string, user: string, pool: string, f: Faults): Result
  {
    if pool !in w.pools || w.pools[pool].disabled then Result(w, false)
    else DeleteBlobs(w, listing, pool, listing(BlobsOf(w.pools[pool], owner, user)), true, f)
  }

  /** The user's blobs in these pools. */
  function CollectUser(w: World, listing: Listing, owner: string -> string, user: string, pools: seq<string>, f: Faults)
    : Result
    decreases pools
  {
    if pools == [] then Result(w, true)
    else
      var one := CollectIn(w, listing, owner, user, pools[0], f);
      var rest := CollectUser(one.world, listing, owner, user, pools[1..], f);
      Result(rest.world, one.ok && rest.ok)
  }

  datatype UserRun = UserRun(world: World, gone: set<string>)

  /** The users one after the other; `success` is not set again between them. */
  function CollectUsers(w: World, listing: Listing, d: Directory, users: seq<string>, success: bool, f: Faults): UserRun
    decreases users
  {
    if users == [] then UserRun(w, {})
    else
      var user := users[0];
      var r := CollectUser(w, listing, d.owner, user, d.poolsOf(user), f);
      var rest := CollectUsers(r.world, listing, d, users[1..], success && r.ok, f);
      UserRun(rest.world, (if success && r.ok && !d.fails(user) then {user} else {}) + rest.gone)
  }

  // ---------- when the blobs of a list are all collected ----------

  ghost predicate AllClear(w: World, p: Pool, blobs: seq<string>, f: Faults)
  {
    forall b | b in blobs :: b in p.blobs && InTime(blobs, b, f) && Collectable(w, b, p.blobs[b].extents, f)
  }

  lemma OneOkIff(w: World, listing: Listing, pool: string, blob: string, n: nat, f: Faults)
    requires Listed(w, listing, pool, blob) && n == w.pools[pool].blobs[blob].extents
    ensures DeleteOneBlob(w, listing, pool, blob, true, f).ok <==> Collectable(w, blob, n, f)
  {
    HomeIs(w, listing, pool, blob);
    ExtentsGone(w, blob, 1, n, true, f);
    ExtentsExact(w, blob, 1, n, f);
  }

  lemma {:induction false} AllOkIff(w: World, listing: Listing, pool: string, blobs: seq<string>, f: Faults)
    requires AllListed(w, listing, pool, blobs)
    ensures DeleteBlobs(w, listing, pool, blobs, true, f).ok <==> AllClear(w, w.pools[pool], blobs, f)
    decreases blobs
  {
    if blobs != [] {
      var b := blobs[0];
      assert b in blobs;
      if !f.late(b) {
        var n := w.pools[pool].blobs[b].extents;
        var w1 := DeleteOneBlob(w, listing, pool, b, true, f).world;
        var gone := if Collectable(w, b, n, f) then {b} else {};
        OneOkIff(w, listing, pool, b, n, f);
        OneBlobExact(w, listing, pool, b, n, f);
        RestListed(w, w1, listing, pool, blobs, gone);
        AllOkIff(w1, listing, pool, blobs[1..], f);
        ClearSplits(w, w1, pool, blobs, f, gone);
      }
    }
  }

  lemma ClearSplits(w: World, w1: World, pool: string, blobs: seq<string>, f: Faults, gone: set<string>)
    requires pool in w.pools && blobs != [] && Distinct(blobs) && !f.late(blobs[0]) && Lost(w, w1, pool, gone)
    requires gone <= {blobs[0]} && forall b | b in blobs :: b in w.pools[pool].blobs
    requires forall e: Extent | e.blob != blobs[0] :: e in w1.routers <==> e in w.routers
    ensures AllClear(w, w.pools[pool], blobs, f)
            <==> Collectable(w, blobs[0], w.pools[pool].blobs[blobs[0]].extents, f)
                 && AllClear(w1, w1.pools[pool], blobs[1..], f)
  {
    var p, p1 := w.pools[pool], w1.pools[pool];
    assert blobs[0] in blobs;
    RestAlike(w, w1, pool, blobs, f, blobs[0], gone);
    forall b | b in blobs[1..]
      ensures b in blobs && b != blobs[0] && b in p1.blobs && p1.blobs[b] == p.blobs[b]
      ensures InTime(blobs, b, f) <==> InTime(blobs[1..], b, f)
      ensures Collectable(w, b, p.blobs[b].extents, f) <==> Collectable(w1, b, p1.blobs[b].extents, f)
    {
      assert b in blobs;
      RestAlike(w, w1, pool, blobs, f, b, gone);
    }
    forall b | b in blobs && b != blobs[0] ensures b in blobs[1..] {
    }
  }

  // ---------- one user ----------

  /** The pool is in use, and nothing keeps a blob of the user in it. */
  ghost predicate PoolClears(w: World, listing: Listing, owner: string -> string, user: string, pool: string, f: Faults)
  {
    pool in w.pools && !w.pools[pool].disabled
    && AllClear(w, w.pools[pool], listing(BlobsOf(w.pools[pool], owner, user)), f)
  }

  ghost predicate PoolsClear(w: World, listing: Listing, owner: string -> string, user: string, pools: seq<string>,
                             f: Faults)
  {
    forall pool | pool in pools :: PoolClears(w, listing, owner, user, pool, f)
  }

  /** Nothing keeps the user's blobs, and all their pools are in use. */
  ghost predicate UserClears(w: World, listing: Listing, d: Directory, user: string, f: Faults)
  {
    PoolsClear(w, listing, d.owner, user, d.poolsOf(user), f)
  }

  /** Only blobs of the user in these pools, and their routers, differ. */
  ghost predicate OnlyUsers(w: World, w': World, owner: string -> string, user: string, pools: seq<string>)
  {
    && w'.pools.Keys == w.pools.Keys && OneHome(w')
    && (forall p | p in w.pools && p !in pools :: w'.pools[p] == w.pools[p])
    && (forall p | p in w.pools :: SameOthers(w.pools[p], w'.pools[p], owner, user))
    && (forall e: Extent | owner(e.blob) != user :: e in w'.routers <==> e in w.routers)
    && (forall p, e | p in w.pools && p !in pools && e in w.routers && e.blob in w.pools[p].blobs :: e in w'.routers)
    && w'.routers <= w.routers
  }

  ghost predicate SameOthers(p: Pool, p': Pool, owner: string -> string, user: string)
  {
    && p'.disabled == p.disabled
    && (forall b | b in p'.blobs :: b in p.blobs && p'.blobs[b] == p.blobs[b])
    && (forall b | b in p.blobs && owner(b) != user :: b in p'.blobs)
  }

  lemma UserListed(w: World, listing: Listing, owner: string -> string, user: string, pool: string)
    requires ValidListing(listing) && OneHome(w) && pool in w.pools
    ensures AllListed(w, listing, pool, listing(BlobsOf(w.pools[pool], owner, user)))
    ensures forall b | b in listing(BlobsOf(w.pools[pool], owner, user)) :: owner(b) == user
  {
    var mine := BlobsOf(w.pools[pool], owner, user);
    assert Lists(listing(mine), mine);
    forall b | b in listing(mine) ensures b in w.pools[pool].blobs && owner(b) == user {
      assert b in mine;
    }
  }

  lemma PassOnlyUsers(w: World, listing: Listing, owner: string -> string, user: string, pool: string, f: Faults)
    requires ValidListing(listing) && OneHome(w) && pool in w.pools
    ensures var blobs := listing(BlobsOf(w.pools[pool], owner, user));
            OnlyUsers(w, DeleteBlobs(w, listing, pool, blobs, true, f).world, owner, user, [pool])
  {
    var blobs := listing(BlobsOf(w.pools[pool], owner, user));
    UserListed(w, listing, owner, user, pool);
    BlobsExact(w, listing, pool, blobs, f);
    var w' := DeleteBlobs(w, listing, pool, blobs, true, f).world;
    LostKeepsHomes(w, w', pool, CollectedIn(w, w.pools[pool], blobs, f));
    forall e | e in w.routers && e !in w'.routers ensures e.blob in blobs && e.blob in w.pools[pool].blobs {
      assert GoesIn(w, e, w.pools[pool], blobs, f);
      InTimeListed(blobs, e.blob, f);
    }
    forall b | b in CollectedIn(w, w.pools[pool], blobs, f) ensures owner(b) == user {
      InTimeListed(blobs, b, f);
    }
  }

  lemma OnlyUsersTwice(w: World, w1: World, w2: World, owner: string -> string, user: string, pools: seq<string>)
    requires pools != [] && OnlyUsers(w, w1, owner, user, [pools[0]]) && OnlyUsers(w1, w2, owner, user, pools[1..])
    ensures OnlyUsers(w, w2, owner, user, pools)
  {
    forall p | p in w.pools && p !in pools ensures p !in [pools[0]] && p !in pools[1..] {
    }
    forall p, e | p in w.pools && p !in pools && e in w.routers && e.blob in w.pools[p].blobs ensures e in w2.routers {
      assert e in w1.routers && e.blob in w1.pools[p].blobs;
    }
  }

  /** What another pool holds of the user is as it was. */
  lemma PoolAlike(w: World, w1: World, listing: Listing, owner: string -> string, user: string, done: seq<string>,
                  pool: string, f: Faults)
    requires OnlyUsers(w, w1, owner, user, done) && pool !in done && ValidListing(listing)
    ensures PoolClears(w, listing, owner, user, pool, f) <==> PoolClears(w1, listing, owner, user, pool, f)
  {
    if pool in w.pools {
      var p := w.pools[pool];
      var mine := BlobsOf(p, owner, user);
      assert w1.pools[pool] == p && Lists(listing(mine), mine);
      forall b | b in listing(mine) ensures b in p.blobs {
        assert b in mine;
      }
      SameClear(w, w1, p, listing(mine), f);
    }
  }

  lemma SameClear(w: World, w1: World, p: Pool, blobs: seq<string>, f: Faults)
    requires forall b | b in blobs :: b in p.blobs
    requires forall e: Extent | e.blob in p.blobs && e.blob in blobs :: e in w.routers <==> e in w1.routers
    ensures AllClear(w, p, blobs, f) <==> AllClear(w1, p, blobs, f)
  {
    forall b | b in blobs
      ensures Collectable(w, b, p.blobs[b].extents, f) <==> Collectable(w1, b, p.blobs[b].extents, f)
    {
      forall j: nat ensures Extent(b, j) in w.routers <==> Extent(b, j) in w1.routers {
        assert Extent(b, j).blob == b;
      }
      ReleasedAlike(w, w1, b, 1, p.blobs[b].extents, f);
    }
  }

  /** None of the user's blobs is left in these pools. */
  ghost predicate NothingLeft(w: World, owner: string -> string, user: string, pools: seq<string>)
  {
    forall p | p in pools :: p in w.pools && BlobsOf(w.pools[p], owner, user) == {}
  }

  lemma PassLeavesNothing(w: World, listing: Listing, owner: string -> string, user: string, pool: string, f: Faults)
    requires ValidListing(listing) && OneHome(w) && PoolClears(w, listing, owner, user, pool, f)
    ensures var blobs := listing(BlobsOf(w.pools[pool], owner, user));
            var w' := DeleteBlobs(w, listing, pool, blobs, true, f).world;
            pool in w'.pools && BlobsOf(w'.pools[pool], owner, user) == {}
  {
    var mine := BlobsOf(w.pools[pool], owner, user);
    UserListed(w, listing, owner, user, pool);
    BlobsExact(w, listing, pool, listing(mine), f);
    assert Lists(listing(mine), mine);
    forall b | b in mine ensures b in CollectedIn(w, w.pools[pool], listing(mine), f) {
      assert b in listing(mine);
    }
  }

  lemma CollectInIff(w: World, listing: Listing, owner: string -> string, user: string, pool: string, f: Faults)
    requires ValidListing(listing) && OneHome(w)
    ensures var r := CollectIn(w, listing, owner, user, pool, f);
            && OnlyUsers(w, r.world, owner, user, [pool])
            && (r.ok <==> PoolClears(w, listing, owner, user, pool, f))
            && (r.ok ==> NothingLeft(r.world, owner, user, [pool]))
  {
    if pool in w.pools && !w.pools[pool].disabled {
      UserListed(w, listing, owner, user, pool);
      AllOkIff(w, listing, pool, listing(BlobsOf(w.pools[pool], owner, user)), f);
      PassOnlyUsers(w, listing, owner, user, pool, f);
      if PoolClears(w, listing, owner, user, pool, f) {
        PassLeavesNothing(w, listing, owner, user, pool, f);
      }
    }
  }

  lemma PoolsClearNext(w: World, w1: World, listing: Listing, owner: string -> string, user: string,
                       pools: seq<string>, f: Faults)
    requires pools != [] && Distinct(pools) && ValidListing(listing) && OnlyUsers(w, w1, owner, user, [pools[0]])
    ensures PoolsClear(w, listing, owner, user, pools, f)
            <==> PoolClears(w, listing, owner, user, pools[0], f) && PoolsClear(w1, listing, owner, user, pools[1..], f)
  {
    forall q | q in pools[1..]
      ensures q in pools && (PoolClears(w1, listing, owner, user, q, f) <==> PoolClears(w, listing, owner, user, q, f))
    {
      assert q in pools && q != pools[0];
      PoolAlike(w, w1, listing, owner, user, [pools[0]], q, f);
    }
    assert pools[0] in pools;
    forall q | q in pools && q != pools[0] ensures q in pools[1..] {
    }
  }

  lemma NothingLeftNext(w1: World, w2: World, owner: string -> string, user: string, pools: seq<string>)
    requires pools != [] && NothingLeft(w1, owner, user, [pools[0]]) && OnlyUsers(w1, w2, owner, user, pools[1..])
    requires NothingLeft(w2, owner, user, pools[1..])
    ensures NothingLeft(w2, owner, user, pools)
  {
    forall p | p in pools ensures p in w2.pools && BlobsOf(w2.pools[p], owner, user) == {} {
      if p !in pools[1..] {
        assert p in [pools[0]];
      }
    }
  }

  /** The user's blobs all go exactly when nothing keeps one and all the pools are in use. */
  lemma {:induction false} CollectUserIff(w: World, listing: Listing, owner: string -> string, user: string,
                                          pools: seq<string>, f: Faults)
    requires ValidListing(listing) && OneHome(w) && Distinct(pools)
    ensures var r := CollectUser(w, listing, owner, user, pools, f);
            && OnlyUsers(w, r.world, owner, user, pools)
            && (r.ok <==> PoolsClear(w, listing, owner, user, pools, f))
            && (r.ok ==> NothingLeft(r.world, owner, user, pools))
    decreases pools
  {
    if pools != [] {
      var one := CollectIn(w, listing, owner, user, pools[0], f);
      var rest := CollectUser(one.world, listing, owner, user, pools[1..], f);
      CollectInIff(w, listing, owner, user, pools[0], f);
      CollectUserIff(one.world, listing, owner, user, pools[1..], f);
      OnlyUsersTwice(w, one.world, rest.world, owner, user, pools);
      PoolsClearNext(w, one.world, listing, owner, user, pools, f);
      if one.ok && rest.ok {
        NothingLeftNext(one.world, rest.world, owner, user, pools);
      }
    }
  }

  // ---------- all users ----------

  lemma SameClearFor(w: World, w1: World, p: Pool, p1: Pool, blobs: seq<string>, f: Faults)
    requires forall b | b in blobs :: b in p.blobs && b in p1.blobs && p1.blobs[b] == p.blobs[b]
    requires forall e: Extent | e.blob in blobs :: e in w.routers <==> e in w1.routers
    ensures AllClear(w, p, blobs, f) <==> AllClear(w1, p1, blobs, f)
  {
    SameClear(w, w1, p, blobs, f);
  }

  /** What another user has is as it was. */
  lemma UserAlike(w: World, w1: World, listing: Listing, d: Directory, done: string, user: string, f: Faults)
    requires OnlyUsers(w, w1, d.owner, done, d.poolsOf(done)) && user != done && ValidListing(listing)
    ensures UserClears(w, listing, d, user, f) <==> UserClears(w1, listing, d, user, f)
  {
    forall pool | pool in d.poolsOf(user)
      ensures PoolClears(w, listing, d.owner, user, pool, f) <==> PoolClears(w1, listing, d.owner, user, pool, f)
    {
      if pool in w.pools {
        var p, p1 := w.pools[pool], w1.pools[pool];
        assert SameOthers(p, p1, d.owner, done);
        var mine := BlobsOf(p, d.owner, user);
        assert BlobsOf(p1, d.owner, user) == mine;
        assert Lists(listing(mine), mine);
        forall b | b in listing(mine) ensures b in p.blobs && b in p1.blobs && d.owner(b) == user {
          assert b in mine;
        }
        SameClearFor(w, w1, p, p1, listing(mine), f);
      }
    }
  }

  /** Blobs that belong to none of the users, and their routers, are as they were. */
  ghost predicate OthersKept(w: World, w': World, owner: string -> string, users: seq<string>)
  {
    && w'.pools.Keys == w.pools.Keys
    && (forall p, b | p in w.pools && b in w'.pools[p].blobs :: b in w.pools[p].blobs)
    && (forall p, b | p in w.pools && b in w.pools[p].blobs && owner(b) !in users ::
          b in w'.pools[p].blobs && w'.pools[p].blobs[b] == w.pools[p].blobs[b])
    && (forall e: Extent | owner(e.blob) !in users :: e in w'.routers <==> e in w.routers)
  }

  /** All users up to the i-th clear. */
  ghost predicate ClearTo(w: World, listing: Listing, d: Directory, users: seq<string>, i: int, f: Faults)
  {
    forall j | 0 <= j <= i && j < |users| :: UserClears(w, listing, d, users[j], f)
  }

  lemma ClearToNext(w: World, w1: World, listing: Listing, d: Directory, users: seq<string>, i: nat, f: Faults)
    requires 0 < i < |users| && Distinct(users) && ValidListing(listing)
    requires OnlyUsers(w, w1, d.owner, users[0], d.poolsOf(users[0]))
    ensures ClearTo(w, listing, d, users, i, f)
            <==> UserClears(w, listing, d, users[0], f) && ClearTo(w1, listing, d, users[1..], i - 1, f)
  {
    forall j | 0 < j < |users|
      ensures users[1..][j - 1] == users[j]
      ensures UserClears(w, listing, d, users[j], f) <==> UserClears(w1, listing, d, users[j], f)
    {
      UserAlike(w, w1, listing, d, users[0], users[j], f);
    }
    if ClearTo(w, listing, d, users, i, f) {
      forall j | 0 <= j <= i - 1 && j < |users[1..]| ensures UserClears(w1, listing, d, users[1..][j], f) {
        assert UserClears(w, listing, d, users[j + 1], f);
        assert users[1..][(j + 1) - 1] == users[j + 1];
      }
    }
    if UserClears(w, listing, d, users[0], f) && ClearTo(w1, listing, d, users[1..], i - 1, f) {
      forall j | 0 <= j <= i && j < |users| ensures UserClears(w, listing, d, users[j], f) {
        if j > 0 {
          assert UserClears(w1, listing, d, users[1..][j - 1], f);
        }
      }
    }
  }

  /** Which users are gone: those whose record could be deleted, when they and all before them cleared. */
  ghost predicate RightUsersGone(w: World, listing: Listing, d: Directory, users: seq<string>, success: bool,
                                 f: Faults, gone: set<string>)
  {
    && (forall u | u in gone :: u in users)
    && (forall i | 0 <= i < |users| ::
          users[i] in gone <==> success && !d.fails(users[i]) && ClearTo(w, listing, d, users, i, f))
  }

  lemma GoneStep(w: World, w1: World, listing: Listing, d: Directory, users: seq<string>, success: bool, ok: bool,
                 f: Faults, gone: set<string>)
    requires users != [] && Distinct(users) && ValidListing(listing)
    requires OnlyUsers(w, w1, d.owner, users[0], d.poolsOf(users[0]))
    requires ok <==> UserClears(w, listing, d, users[0], f)
    requires RightUsersGone(w1, listing, d, users[1..], success && ok, f, gone)
    ensures RightUsersGone(w, listing, d, users, success, f,
                           (if success && ok && !d.fails(users[0]) then {users[0]} else {}) + gone)
  {
    var all := (if success && ok && !d.fails(users[0]) then {users[0]} else {}) + gone;
    forall i | 0 <= i < |users|
      ensures users[i] in all <==> success && !d.fails(users[i]) && ClearTo(w, listing, d, users, i, f)
    {
      if i == 0 {
        assert users[0] !in users[1..];
        assert ClearTo(w, listing, d, users, 0, f) <==> UserClears(w, listing, d, users[0], f);
      } else {
        assert users[1..][i - 1] == users[i] && users[i] != users[0];
        ClearToNext(w, w1, listing, d, users, i, f);
      }
    }
  }

  /**
   A run over the deleted users removes a user exactly when the delete of the record works, all pools of
   this user and of every user before are in use, and nothing keeps a blob of any of them. Then none of
   the user's blobs is left. Blobs and routers of all other users stay.
   */
  lemma {:induction false} UsersGoneIff(w: World, listing: Listing, d: Directory, users: seq<string>, success: bool,
                                        f: Faults)
    requires ValidListing(listing) && d.Valid() && OneHome(w) && Distinct(users)
    ensures var r := CollectUsers(w, listing, d, users, success, f);
            && RightUsersGone(w, listing, d, users, success, f, r.gone) && OthersKept(w, r.world, d.owner, users)
            && (forall u | u in r.gone :: NothingLeft(r.world, d.owner, u, d.poolsOf(u)))
    decreases users
  {
    if users != [] {
      var user := users[0];
      var r := CollectUser(w, listing, d.owner, user, d.poolsOf(user), f);
      var rest := CollectUsers(r.world, listing, d, users[1..], success && r.ok, f);
      CollectUserIff(w, listing, d.owner, user, d.poolsOf(user), f);
      UsersGoneIff(r.world, listing, d, users[1..], success && r.ok, f);
      GoneStep(w, r.world, listing, d, users, success, r.ok, f, rest.gone);
      KeptTwice(w, r.world, rest.world, d.owner, d.poolsOf(user), users);
      if r.ok {
        StillNothing(r.world, rest.world, d.owner, user, d.poolsOf(user), users[1..]);
      }
    }
  }

  lemma KeptTwice(w: World, w1: World, w2: World, owner: string -> string, pools: seq<string>, users: seq<string>)
    requires users != [] && OnlyUsers(w, w1, owner, users[0], pools) && OthersKept(w1, w2, owner, users[1..])
    ensures OthersKept(w, w2, owner, users)
  {
    forall p, b | p in w.pools && b in w.pools[p].blobs && owner(b) !in users
      ensures b in w2.pools[p].blobs && w2.pools[p].blobs[b] == w.pools[p].blobs[b]
    {
      assert users[0] in users;
      assert SameOthers(w.pools[p], w1.pools[p], owner, users[0]);
      assert b in w1.pools[p].blobs && owner(b) !in users[1..];
    }
    forall p, b | p in w.pools && b in w2.pools[p].blobs ensures b in w.pools[p].blobs {
      assert SameOthers(w.pools[p], w1.pools[p], owner, users[0]);
    }
    forall e: Extent | owner(e.blob) !in users ensures e in w2.routers <==> e in w.routers {
      assert users[0] in users;
      assert owner(e.blob) !in users[1..];
    }
  }

  lemma StillNothing(w: World, w': World, owner: string -> string, user: string, pools: seq<string>, users: seq<string>)
    requires NothingLeft(w, owner, user, pools) && OthersKept(w, w', owner, users)
    ensures NothingLeft(w', owner, user, pools)
  {
    forall p | p in pools ensures p in w'.pools && BlobsOf(w'.pools[p], owner, user) == {} {
      if b :| b in BlobsOf(w'.pools[p], owner, user) {
        assert b in BlobsOf(w.pools[p], owner, user);
      }
    }
  }

  /** A pool that is gone keeps its user, and every user after this one, whatever they have left themselves. */
  lemma HeldBack(w: World, listing: Listing, d: Directory, users: seq<string>, f: Faults, i: nat, k: nat, pool: string)
    requires ValidListing(listing) && d.Valid() && OneHome(w) && Distinct(users) && i <= k < |users|
    requires pool in d.poolsOf(users[i]) && pool !in w.pools
    ensures users[k] !in CollectUsers(w, listing, d, users, true, f).gone
  {
    UsersGoneIff(w, listing, d, users, true, f);
    assert !PoolClears(w, listing, d.owner, users[i], pool, f);
    assert !UserClears(w, listing, d, users[i], f);
  }
}
