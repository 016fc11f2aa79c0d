/**
 Pools: their life cycle, their servers and their replication groups, and what one operation does to
 them, where any write to the store may fail.
 */
module Pools {
  import opened ExtentIds
  import opened Common

  datatype PoolStatus = Created | Enabled | Disabled

  datatype Server = Server(name: string, publicAddr: (string, int), privateAddr: (string, int))

  /** `clean` records whether the group map was empty when the pool's last init began. */
  datatype Pool = Pool(name: string, status: PoolStatus, replicas: nat, esNum: nat,
                       servers: map<int, Server>, groups: map<string, seq<int>>, clean: bool)

  type World = map<string, Pool>

  datatype Op =
    | CreatePool(name: string, replicas: nat, esNum: nat)
    | UpdatePool(newName: string, newReplicas: nat, newEsNum: nat)
    | InitPool(groups: map<string, seq<int>>, ok: bool)
    | SoftDeletePool
    | CreateEs(es: int, server: Server)
    | DeleteEs(gone: int)
    | DeleteAllEs
    | DeleteAllRg
    | DeletePool

  // ---------- the groups of a pool ----------

  predicate Within(group: seq<int>, servers: set<int>)
  {
    forall i | 0 <= i < |group| :: group[i] in servers
  }

  /** Every server of every group is one of the pool's servers. */
  predicate Covered(p: Pool)
  {
    forall g | g in p.groups :: Within(p.groups[g], p.servers.Keys)
  }

  /** What filling the group map can do, whether it succeeds or stops halfway: groups 0..total-1 are made anew. */
  ghost predicate Filled(was: map<string, seq<int>>, now: map<string, seq<int>>, renewed: set<string>,
                         servers: set<int>)
  {
    && now.Keys == was.Keys + renewed
    && (forall g | g in renewed :: Within(now[g], servers))
    && (forall g | g in was && g !in renewed :: Extended(was[g], now[g], servers))
  }

  predicate Extended(was: seq<int>, now: seq<int>, servers: set<int>)
  {
    was <= now && Within(now[|was|..], servers)
  }

  /** The new groups stay inside the servers exactly when the groups not made anew did so before. */
  lemma FilledWithinIff(was: map<string, seq<int>>, now: map<string, seq<int>>, renewed: set<string>, servers: set<int>)
    requires Filled(was, now, renewed, servers)
    ensures (forall g | g in now :: Within(now[g], servers))
            <==> (forall g | g in was && g !in renewed :: Within(was[g], servers))
  {
  }

  function GroupId(pool: string, i: nat): string
  {
    pool + "." + Digits(i)
  }

  /** The ids of the groups that filling makes anew, for a pool and its number of servers. */
  type Renewing = (string, nat) -> set<string>

  /** A fixed number of groups for every server. */
  function PerServer(perEs: nat): Renewing
  {
    (pool: string, servers: nat) => GroupIds(pool, perEs * servers)
  }

  function GroupIds(pool: string, count: nat): set<string>
  {
    set i: nat | i < count :: GroupId(pool, i)
  }

  // ---------- operations ----------

  predicate NameTaken(w: World, id: string, name: string)
  {
    exists p :: p in w && p != id && w[p].name == name
  }

  /** Set-up may begin: the pool is new and all its servers are there. */
  predicate Startable(p: Pool)
  {
    p.status == Created && p.esNum == |p.servers|
  }

  predicate Conflicts(p: Pool, s: Server)
  {
    exists e :: e in p.servers && Clash(p.servers[e], s)
  }

  predicate Clash(a: Server, b: Server)
  {
    a.name == b.name || a.publicAddr == b.publicAddr || a.privateAddr == b.privateAddr
  }

  /** Garbage collection works only on disabled pools; a new pool gets an id that is not in use. */
  ghost predicate Possible(renewing: Renewing, w: World, id: string, op: Op)
  {
    match op
    case CreatePool(_, _, _) => id !in w
    case DeleteAllEs | DeleteAllRg | DeletePool => id in w ==> w[id].status == Disabled
    case InitPool(groups, ok) =>
      id in w ==>
        || Filled(w[id].groups, groups, renewing(id, |w[id].servers|), w[id].servers.Keys)
        || (!ok && groups == w[id].groups)
    case _ => true
  }

  function Next(w: World, id: string, op: Op, fails: bool): World
  {
    if op.CreatePool? then
      if NameTaken(w, id, op.name) || fails then w
      else w[id := Pool(op.name, Created, op.replicas, op.esNum, map[], map[], true)]
    else if id !in w then w
    else if op.UpdatePool? && NameTaken(w, id, op.newName) then w
    else if op.DeletePool? then if fails then w else w - {id}
    else w[id := Changed(w[id], op, fails)]
  }

  function Changed(p: Pool, op: Op, fails: bool): Pool
    requires !op.CreatePool? && !op.DeletePool?
  {
    match op
    case UpdatePool(name, replicas, esNum) =>
      if p.status == Disabled then p
      else p.(name := if name == "" then p.name else name,
              replicas := if replicas == 0 then p.replicas else replicas,
              esNum := if esNum == 0 then p.esNum else esNum)
    case InitPool(groups, ok) =>
      if !Startable(p) then p
      else p.(groups := groups, status := if ok then Enabled else Created, clean := p.groups == map[])
    case SoftDeletePool => p.(status := Disabled)
    case CreateEs(es, server) =>
      if p.status != Created || es in p.servers || Conflicts(p, server) || fails then p
      else p.(servers := p.servers[es := server])
    case DeleteEs(es) =>
      if p.status != Created || es !in p.servers || fails then p else p.(servers := p.servers - {es})
    case DeleteAllEs => p.(servers := map[])
    case DeleteAllRg => p.(groups := map[])
  }

  // ---------- what an operation does ----------

  /** The pool has the values that were asked for. */
  predicate Updated(p: Pool, p': Pool, name: string, replicas: nat, esNum: nat)
  {
    && (if name == "" then p'.name == p.name else p'.name == name)
    && (if replicas == 0 then p'.replicas == p.replicas else p'.replicas == replicas)
    && (if esNum == 0 then p'.esNum == p.esNum else p'.esNum == esNum)
    && p'.status == p.status && p'.servers == p.servers && p'.groups == p.groups && p'.clean == p.clean
  }

  /** A server that is accepted is there, nothing else changes, and deleting it undoes that. */
  lemma CreateEsTakes(w: World, id: string, es: int, s: Server)
    requires id in w && w[id].status == Created && es !in w[id].servers && !Conflicts(w[id], s)
    ensures var w' := Next(w, id, CreateEs(es, s), false);
            && w'.Keys == w.Keys
            && es in w'[id].servers && w'[id].servers[es] == s && w'[id].servers.Keys == w[id].servers.Keys + {es}
            && Next(w', id, DeleteEs(es), false) == w
  {
    var w' := Next(w, id, CreateEs(es, s), false);
    assert w'[id].servers - {es} == w[id].servers;
  }

  // ---------- what every run keeps ----------

  /** An enabled pool that was set up from an empty group map has all its groups' servers. */
  predicate Complete(p: Pool)
  {
    p.status == Enabled && p.clean ==> Covered(p)
  }

  predicate AllDistinct(p: Pool)
  {
    forall a, b | a in p.servers && b in p.servers && a != b :: !Clash(p.servers[a], p.servers[b])
  }

  predicate Inv(w: World)
  {
    forall id | id in w :: Complete(w[id]) && AllDistinct(w[id])
  }

  lemma ChangeKeeps(renewing: Renewing, w: World, id: string, op: Op, fails: bool)
    requires id in w && Possible(renewing, w, id, op) && !op.CreatePool? && !op.DeletePool?
    requires Complete(w[id])
    ensures Complete(Changed(w[id], op, fails))
  {
  }

  lemma ChangeKeepsDistinct(p: Pool, op: Op, fails: bool)
    requires AllDistinct(p) && !op.CreatePool? && !op.DeletePool?
    ensures AllDistinct(Changed(p, op, fails))
  {
  }

  lemma StepKeeps(renewing: Renewing, w: World, id: string, op: Op, fails: bool)
    requires Inv(w) && Possible(renewing, w, id, op)
    ensures Inv(Next(w, id, op, fails))
  {
    if id in w && !op.CreatePool? && !op.DeletePool? {
      ChangeKeeps(renewing, w, id, op, fails);
      ChangeKeepsDistinct(w[id], op, fails);
    }
  }

  function Stage(s: PoolStatus): nat
  {
    match s
    case Created => 0
    case Enabled => 1
    case Disabled => 2
  }

  /** A pool's status only moves on, and its servers and groups are fixed while it is enabled. */
  predicate MovesOn(p: Pool, p': Pool)
  {
    Stage(p.status) <= Stage(p'.status)
    && (p.status == Enabled && p'.status == Enabled ==>
          p'.servers == p.servers && p'.groups == p.groups && p'.clean == p.clean)
  }

  /** No step takes a pool back in its life cycle, or changes an enabled pool's servers or groups, or another pool. */
  lemma StepMovesOn(renewing: Renewing, w: World, id: string, op: Op, fails: bool, p: string)
    requires Possible(renewing, w, id, op) && p in w
    ensures var w' := Next(w, id, op, fails);
            if p in w' then MovesOn(w[p], w'[p]) && (p != id ==> w'[p] == w[p])
            else p == id && op.DeletePool? && w[p].status == Disabled
  {
  }

  /** Right after an init that succeeds, the groups are covered exactly when no leftover group names a lost server. */
  lemma InitCoversIff(p: Pool, groups: map<string, seq<int>>, fails: bool, renewed: set<string>)
    requires Startable(p) && Filled(p.groups, groups, renewed, p.servers.Keys)
    ensures Covered(Changed(p, InitPool(groups, true), fails))
            <==> forall g | g in p.groups && g !in renewed :: Within(p.groups[g], p.servers.Keys)
  {
    FilledWithinIff(p.groups, groups, renewed, p.servers.Keys);
  }

  // ---------- lookups ----------

  /** The servers of a group, or nothing if one of them is not in the map. */
  function EsRouter(servers: map<int, Server>, group: seq<int>): Option<seq<Server>>
  {
    if group == [] then Some([])
    else
      var rest := EsRouter(servers, group[..|group| - 1]);
      if rest.Some? && group[|group| - 1] in servers then Some(rest.value + [servers[group[|group| - 1]]]) else None
  }

  lemma {:induction false} EsRouterHits(servers: map<int, Server>, group: seq<int>)
    ensures EsRouter(servers, group).Some? <==> Within(group, servers.Keys)
    ensures var r := EsRouter(servers, group);
            r.Some? ==>
              && |r.value| == |group|
              && forall i | 0 <= i < |group| :: group[i] in servers && r.value[i] == servers[group[i]]
  {
    if group != [] {
      EsRouterHits(servers, group[..|group| - 1]);
    }
  }
}
