/**
 The pool manager: its map of pools, changed in place by the public operations.
 */
module PoolManagers {
  import opened Common
  import opened Placement
  import opened PoolRuns
  import opened Pools
  import opened Selection

  datatype Status =
    | Ok
    | PoolNotFound
    | PoolDuplicated
    | AlreadyInit
    | NotReady
    | AllocateFail
    | EsDuplicated
    | EsConflict
    | EsNotFound
    | StoreError
    | DeleteError

  // ---------- filling the groups ----------

  /** The ids of the groups 0..total-1. */
  method MakeIds(pool: string, total: nat) returns (made: set<string>)
    ensures made == GroupIds(pool, total)
  {
    made := {};
    for i := 0 to total
      invariant made == GroupIds(pool, i)
    {
      GroupIdsGrow(pool, i);
      made := made + {GroupId(pool, i)};
    }
  }

  lemma GroupIdsGrow(pool: string, n: nat)
    ensures GroupIds(pool, n + 1) == GroupIds(pool, n) + {GroupId(pool, n)}
  {
  }

  /** A map's keys in some order. */
  method ListKeys<K(==, !new)>(keys: set<K>) returns (list: seq<K>)
    ensures Lists(list, keys)
  {
    list := [];
    var todo := keys;
    while todo != {}
      invariant todo <= keys && Lists(list, keys - todo)
      decreases |todo|
    {
      var x := Pick(todo);
      list, todo := list + [x], todo - {x};
    }
    assert keys - todo == keys;
  }

  /**
   Set-up succeeds exactly when nothing outside fails and every group has room for the pool's replicas
   (at least one); then every group has got exactly that many different servers of the pool. With no
   group left over there is room exactly when the pool has that many servers, or no group to fill.
   */
  ghost predicate SetUpAnswers(id: string, p: Pool, total: nat, rank: Rank, ess: seq<int>, keys: seq<string>,
                               works: bool, ok: bool, groups: map<string, seq<int>>)
  {
    var made, copies := GroupIds(id, total), Max(p.replicas, 1);
    && (ok <==> works && HasRoom(rank, ess, BeforeAll(p.groups, made, keys), copies))
    && (ok ==> SetUp(p.groups, made, groups, copies, p.servers.Keys))
    && (p.groups == map[] ==> (ok <==> works && (total == 0 || copies <= |p.servers|)))
  }

  /**
   Sets up the groups of a pool that may be started: groups 0..total-1 are made anew, and all groups,
   leftover ones included, get servers from the allocator.
   */
  method InitGroups(id: string, p: Pool, rank: Rank, total: nat, ready: bool, persists: bool)
    returns (groups: map<string, seq<int>>, ok: bool, ghost ess: seq<int>, ghost keys: seq<string>)
    requires Startable(p) && Grounded(p) && (|p.servers| == 0 ==> total == 0)
    ensures Lists(ess, p.servers.Keys) && Lists(keys, p.groups.Keys + GroupIds(id, total))
    ensures InitOp(p, GroupIds(id, total), rank, ess, keys, ready, persists) == Op.InitPool(groups, ok)
    ensures SetUpAnswers(id, p, total, rank, ess, keys, ready && persists, ok, groups)
  {
    var made := MakeIds(id, total);
    var servers := ListKeys(p.servers.Keys);
    var order := ListKeys(p.groups.Keys + made);
    ess, keys := servers, order;
    ServersThere(id, p, total, servers, order);
    InitGives(p, made, rank, ess, keys, ready, persists);
    NoneMade(id, total);
    if p.groups == map[] {
      NewPoolRoom(p, made, rank, ess, keys);
    }
    if !ready {
      return p.groups, false, ess, keys;
    }
    var placed;
    groups, placed := PlaceMap(rank, servers, p.groups, made, order, p.replicas);
    ok := placed && persists;
  }

  lemma NoneMade(pool: string, total: nat)
    ensures GroupIds(pool, total) == {} <==> total == 0
  {
    if total > 0 {
      assert GroupId(pool, 0) in GroupIds(pool, total);
    }
  }

  lemma ServersThere(id: string, p: Pool, total: nat, ess: seq<int>, keys: seq<string>)
    requires Startable(p) && Grounded(p) && (|p.servers| == 0 ==> total == 0)
    requires Lists(ess, p.servers.Keys) && Lists(keys, p.groups.Keys + GroupIds(id, total))
    ensures keys != [] ==> ess != []
  {
    var renewing: Renewing := (pool, n) => if n == |p.servers| then GroupIds(id, total) else {};
    assert |p.servers| == 0 ==> GroupIds(id, total) == {};
    ServersForGroups(renewing, id, p, ess, keys);
  }

  lemma StepValid(perEs: nat, w: World, id: string, op: Op, fails: bool)
    requires SysInv(System(w, {})) && Possible(PerServer(perEs), w, id, op)
    ensures SysInv(System(Next(w, id, op, fails), {}))
  {
    NoGroupsForNoServers(perEs);
    StepKeeps(PerServer(perEs), w, id, op, fails);
    GroundedStep(PerServer(perEs), w, id, op, fails);
  }

  // ---------- the manager ----------

  class PoolManager {
    const perEs: nat
    var pools: map<string, Pool>

    ghost predicate Valid()
      reads this
    {
      SysInv(System(pools, {}))
    }

    constructor (perEs: nat)
      ensures pools == map[] && this.perEs == perEs && Valid()
    {
      this.perEs, pools := perEs, map[];
    }

    method NameExists(id: string, name: string) returns (r: bool)
      ensures r <==> NameTaken(pools, id, name)
    {
      var todo := pools.Keys;
      while todo != {}
        invariant todo <= pools.Keys
        invariant forall p | p in pools && p !in todo :: p == id || pools[p].name != name
        decreases |todo|
      {
        var p :| p in todo;
        if p != id && pools[p].name == name {
          return true;
        }
        todo := todo - {p};
      }
      r := false;
    }

    /** The new pool gets an id that is not in use. */
    method CreatePool(id: string, name: string, replicas: nat, esNum: nat, fails: bool) returns (status: Status)
      requires Valid() && id !in pools
      modifies this
      ensures pools == Next(old(pools), id, Op.CreatePool(name, replicas, esNum), fails) && Valid()
      ensures status == if NameTaken(old(pools), id, name) then PoolDuplicated else if fails then StoreError else Ok
      ensures if status == Ok then pools == old(pools)[id := Pool(name, Created, replicas, esNum, map[], map[], true)]
              else pools == old(pools)
    {
      StepValid(perEs, pools, id, Op.CreatePool(name, replicas, esNum), fails);
      var taken := NameExists(id, name);
      if taken {
        return PoolDuplicated;
      }
      if fails {
        return StoreError;
      }
      pools := pools[id := Pool(name, Created, replicas, esNum, map[], map[], true)];
      status := Ok;
    }

    method UpdatePool(id: string, name: string, replicas: nat, esNum: nat, fails: bool) returns (status: Status)
      requires Valid()
      modifies this
      ensures pools == Next(old(pools), id, Op.UpdatePool(name, replicas, esNum), fails) && Valid()
      ensures if NameTaken(old(pools), id, name) then status == PoolDuplicated && pools == old(pools)
              else if id !in old(pools) || old(pools)[id].status == Disabled then
                status == PoolNotFound && pools == old(pools)
              else
                && status == (if fails then StoreError else Ok)
                && id in pools && Updated(old(pools)[id], pools[id], name, replicas, esNum)
    {
      StepValid(perEs, pools, id, Op.UpdatePool(name, replicas, esNum), fails);
      var taken := NameExists(id, name);
      if taken {
        return PoolDuplicated;
      }
      if id !in pools || pools[id].status == Disabled {
        assert id in pools ==> pools[id := pools[id]] == pools;
        return PoolNotFound;
      }
      var p := pools[id];
      pools := pools[id := p.(name := if name == "" then p.name else name,
                              replicas := if replicas == 0 then p.replicas else replicas,
                              esNum := if esNum == 0 then p.esNum else esNum)];
      status := if fails then StoreError else Ok;
    }

    /** Sets up a pool that may be started. */
    method StartPool(id: string, rank: Rank, ready: bool, persists: bool)
      returns (done: bool, ghost ess: seq<int>, ghost keys: seq<string>)
      requires Valid() && id in pools && Startable(pools[id])
      modifies this
      ensures Valid() && id in pools && (done <==> pools[id].status == Enabled)
      ensures var p := old(pools)[id];
              var made := GroupIds(id, perEs * |p.servers|);
              && Lists(ess, p.servers.Keys) && Lists(keys, p.groups.Keys + made)
              && pools == Next(old(pools), id, InitOp(p, made, rank, ess, keys, ready, persists), false)
              && SetUpAnswers(id, p, perEs * |p.servers|, rank, ess, keys, ready && persists, done, pools[id].groups)
              && (done ==> (Covered(pools[id]) <==>
                            forall g | g in p.groups && g !in made :: Within(p.groups[g], p.servers.Keys)))
    {
      var p := pools[id];
      var total := perEs * |p.servers|;
      assert |p.servers| == 0 ==> total == 0;
      var groups;
      groups, done, ess, keys := InitGroups(id, p, rank, total, ready, persists);
      NoGroupsForNoServers(perEs);
      assert PerServer(perEs)(id, |p.servers|) == GroupIds(id, total);
      ghost var op := InitOp(p, GroupIds(id, total), rank, ess, keys, ready, persists);
      InitStep(PerServer(perEs), pools, id, op, rank, ess, keys, ready, persists);
      pools := pools[id := p.(groups := groups, status := if done then Enabled else Created,
                              clean := p.groups == map[])];
    }

    /**
     Sets a pool up and enables it. After that its groups are covered by its servers exactly when no
     group left over from an earlier attempt names a server that is gone.
     */
    method InitPool(id: string, rank: Rank, ready: bool, persists: bool, fails: bool)
      returns (status: Status, ghost ess: seq<int>, ghost keys: seq<string>)
      requires Valid()
      modifies this
      ensures Valid()
      ensures id !in old(pools) ==> status == PoolNotFound && pools == old(pools)
      ensures id in old(pools) && !Startable(old(pools)[id]) ==>
                && pools == old(pools)
                && status == if old(pools)[id].status == Created then NotReady else AlreadyInit
      ensures id in old(pools) && Startable(old(pools)[id]) ==>
                var p, done := old(pools)[id], status in {Ok, StoreError};
                var made := GroupIds(id, perEs * |p.servers|);
                && id in pools && (done <==> pools[id].status == Enabled)
                && status == (if !done then AllocateFail else if fails then StoreError else Ok)
                && Lists(ess, p.servers.Keys) && Lists(keys, p.groups.Keys + made)
                && pools == Next(old(pools), id, InitOp(p, made, rank, ess, keys, ready, persists), fails)
                && SetUpAnswers(id, p, perEs * |p.servers|, rank, ess, keys, ready && persists, done, pools[id].groups)
                && (done ==> (Covered(pools[id]) <==>
                              forall g | g in p.groups && g !in made :: Within(p.groups[g], p.servers.Keys)))
    {
      ess, keys := [], [];
      if id !in pools {
        return PoolNotFound, ess, keys;
      }
      if pools[id].status != Created {
        return AlreadyInit, ess, keys;
      }
      if pools[id].esNum != |pools[id].servers| {
        return NotReady, ess, keys;
      }
      var done;
      done, ess, keys := StartPool(id, rank, ready, persists);
      status := if !done then AllocateFail else if fails then StoreError else Ok;
    }

    method SoftDeletePool(id: string, fails: bool) returns (status: Status)
      requires Valid()
      modifies this
      ensures pools == Next(old(pools), id, Op.SoftDeletePool, fails) && Valid()
      ensures if id !in old(pools) || old(pools)[id].status == Disabled then
                status == PoolNotFound && pools == old(pools)
              else
                && status == (if fails then StoreError else Ok)
                && id in pools && pools[id] == old(pools)[id].(status := Disabled)
    {
      StepValid(perEs, pools, id, Op.SoftDeletePool, fails);
      if id !in pools || pools[id].status == Disabled {
        assert id in pools ==> pools[id := pools[id].(status := Disabled)] == pools;
        return PoolNotFound;
      }
      pools := pools[id := pools[id].(status := Disabled)];
      status := if fails then StoreError else Ok;
    }

    /** Whether the server shares its name or an address with one of the pool's servers. */
    method CheckNewEs(p: Pool, s: Server) returns (conflict: bool)
      ensures conflict <==> Conflicts(p, s)
    {
      var todo := p.servers.Keys;
      while todo != {}
        invariant todo <= p.servers.Keys
        invariant forall e | e in p.servers && e !in todo :: !Clash(p.servers[e], s)
        decreases |todo|
      {
        var e := Pick(todo);
        var t := p.servers[e];
        if t.name == s.name || t.publicAddr == s.publicAddr || t.privateAddr == s.privateAddr {
          assert Clash(p.servers[e], s);
          return true;
        }
        todo := todo - {e};
      }
      conflict := false;
    }

    method CreateEs(id: string, es: int, s: Server, fails: bool) returns (status: Status)
      requires Valid()
      modifies this
      ensures pools == Next(old(pools), id, Op.CreateEs(es, s), fails) && Valid()
      ensures status ==
              if id !in old(pools) || old(pools)[id].status != Created then PoolNotFound
              else if es in old(pools)[id].servers then EsDuplicated
              else if Conflicts(old(pools)[id], s) then EsConflict
              else if fails then StoreError
              else Ok
      ensures if status == Ok then es in pools[id].servers && pools[id].servers[es] == s else pools == old(pools)
    {
      StepValid(perEs, pools, id, Op.CreateEs(es, s), fails);
      assert id in pools ==> pools[id := pools[id]] == pools;
      if id !in pools || pools[id].status != Created {
        return PoolNotFound;
      }
      if es in pools[id].servers {
        return EsDuplicated;
      }
      var conflict := CheckNewEs(pools[id], s);
      if conflict {
        return EsConflict;
      }
      if fails {
        return StoreError;
      }
      pools := pools[id := pools[id].(servers := pools[id].servers[es := s])];
      status := Ok;
    }

    method DeleteEs(id: string, es: int, fails: bool) returns (status: Status)
      requires Valid()
      modifies this
      ensures pools == Next(old(pools), id, Op.DeleteEs(es), fails) && Valid()
      ensures status ==
              if id !in old(pools) || old(pools)[id].status != Created then PoolNotFound
              else if es !in old(pools)[id].servers then EsNotFound
              else if fails then DeleteError
              else Ok
      ensures if status == Ok then id in pools && pools[id].servers.Keys == old(pools)[id].servers.Keys - {es}
              else pools == old(pools)
    {
      StepValid(perEs, pools, id, Op.DeleteEs(es), fails);
      assert id in pools ==> pools[id := pools[id]] == pools;
      if id !in pools || pools[id].status != Created {
        return PoolNotFound;
      }
      if es !in pools[id].servers {
        return EsNotFound;
      }
      if fails {
        return DeleteError;
      }
      pools := pools[id := pools[id].(servers := pools[id].servers - {es})];
      status := Ok;
    }

    /** The servers of a group; on a pool set up from an empty group map no lookup misses. */
    method QueryEsRouter(id: string, group: seq<int>) returns (r: Option<seq<Server>>, missed: bool)
      ensures id !in pools || pools[id].status != Enabled ==> r == None && !missed
      ensures id in pools && pools[id].status == Enabled ==>
                r == EsRouter(pools[id].servers, group) && missed == (r == None)
      ensures Inv(pools) && id in pools && pools[id].clean
              && (exists g :: g in pools[id].groups && pools[id].groups[g] == group) ==>
                !missed
    {
      if id !in pools || pools[id].status != Enabled {
        return None, false;
      }
      var servers := pools[id].servers;
      EsRouterHits(servers, group);
      var i, router := 0, [];
      assert group[..0] == [];
      while i < |group|
        invariant i <= |group| && EsRouter(servers, group[..i]) == Some(router)
      {
        assert group[..i + 1][..i] == group[..i];
        if group[i] !in servers {
          assert !Within(group, servers.Keys);
          return None, true;
        }
        router := router + [servers[group[i]]];
        i := i + 1;
      }
      assert group[..i] == group;
      r, missed := Some(router), false;
    }

    // The garbage collector's steps. They keep the invariant on the disabled pools it calls them for.

    method DeleteAllEs(id: string) returns (status: Status)
      modifies this
      ensures pools == Next(old(pools), id, Op.DeleteAllEs, false)
      ensures status == if id in old(pools) then Ok else PoolNotFound
      ensures status == Ok ==> id in pools && pools[id].servers == map[] && pools[id].groups == old(pools)[id].groups
      ensures old(Valid()) && (id in old(pools) ==> old(pools)[id].status == Disabled) ==> Valid()
    {
      if Valid() && (id in pools ==> pools[id].status == Disabled) {
        StepValid(perEs, pools, id, Op.DeleteAllEs, false);
      }
      if id !in pools {
        return PoolNotFound;
      }
      pools := pools[id := pools[id].(servers := map[])];
      status := Ok;
    }

    method DeleteAllRg(id: string)
      requires id in pools
      modifies this
      ensures pools == Next(old(pools), id, Op.DeleteAllRg, false)
      ensures id in pools && pools[id].groups == map[] && pools[id].servers == old(pools)[id].servers
      ensures old(Valid()) && old(pools)[id].status == Disabled ==> Valid()
    {
      if Valid() && pools[id].status == Disabled {
        StepValid(perEs, pools, id, Op.DeleteAllRg, false);
      }
      pools := pools[id := pools[id].(groups := map[])];
    }

    method DeletePool(id: string, fails: bool) returns (status: Status)
      modifies this
      ensures pools == Next(old(pools), id, Op.DeletePool, fails)
      ensures status == if id !in old(pools) then PoolNotFound else if fails then DeleteError else Ok
      ensures pools == if status == Ok then old(pools) - {id} else old(pools)
      ensures old(Valid()) ==> Valid()
    {
      if id !in pools {
        return PoolNotFound;
      }
      if fails {
        return DeleteError;
      }
      pools := pools - {id};
      status := Ok;
    }
  }

  lemma InitStep(renewing: Renewing, w: World, id: string, op: Op, rank: Rank, ess: seq<int>, keys: seq<string>,
                 ready: bool, persists: bool)
    requires NoneForNone(renewing) && SysInv(System(w, {})) && id in w && Startable(w[id])
    requires Lists(ess, w[id].servers.Keys) && Lists(keys, w[id].groups.Keys + renewing(id, |w[id].servers|))
    requires op == InitOp(w[id], renewing(id, |w[id].servers|), rank, ess, keys, ready, persists)
    ensures SysInv(System(Next(w, id, op, false), {}))
    ensures op.ok ==>
              (Covered(Changed(w[id], op, false)) <==>
               forall g | g in w[id].groups && g !in renewing(id, |w[id].servers|) ::
                 Within(w[id].groups[g], w[id].servers.Keys))
  {
    InitIsPossible(renewing, w, id, rank, ess, keys, ready, persists);
    StepKeeps(renewing, w, id, op, false);
    GroundedStep(renewing, w, id, op, false);
    if op.ok {
      InitCoversIff(w[id], op.groups, false, renewing(id, |w[id].servers|));
    }
  }
}
