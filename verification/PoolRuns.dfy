/**
 Runs over all pools: the operations of the pool manager, set-up by the actual selection of servers, and
 a garbage collector that works through a list of pools it made earlier.
 */
module PoolRuns {
  import opened Common
  import opened Pools
  import opened PrimarySpread
  import opened Selection

  datatype Command =
    | Manage(op: Op)
    | Init(rank: Rank, ess: seq<int>, keys: seq<string>, ready: bool, persists: bool)
    | ListDisabled
    | Collect(step: Op)

  datatype Call = Call(id: string, command: Command, fails: bool)

  /** The pools, and the ones the collector found disabled and has not removed yet. */
  datatype System = System(pools: World, listed: set<string>)

  predicate Managing(op: Op)
  {
    op.CreatePool? || op.UpdatePool? || op.SoftDeletePool? || op.CreateEs? || op.DeleteEs?
  }

  predicate Collecting(op: Op)
  {
    op.DeleteAllEs? || op.DeleteAllRg? || op.DeletePool?
  }

  /** A new pool gets an unused id; set-up lists servers and groups; the collector keeps to its list. */
  ghost predicate Permitted(renewing: Renewing, s: System, c: Call)
  {
    match c.command
    case Manage(op) => Managing(op) && (op.CreatePool? ==> c.id !in s.pools)
    case Init(_, ess, keys, _, _) =>
      c.id in s.pools ==>
        && Lists(ess, s.pools[c.id].servers.Keys)
        && Lists(keys, s.pools[c.id].groups.Keys + renewing(c.id, |s.pools[c.id].servers|))
    case ListDisabled => true
    case Collect(op) => Collecting(op) && c.id in s.listed
  }

  /** What set-up comes to: the group map that the selection of servers fills, if it gets that far. */
  function InitOp(p: Pool, made: set<string>, rank: Rank, ess: seq<int>, keys: seq<string>, ready: bool, persists: bool)
    : (op: Op)
    requires Distinct(keys)
    ensures op.InitPool?
  {
    if Startable(p) && ready then
      var r := FillMap(rank, ess, p.groups, made, keys, p.replicas);
      InitPool(r.groups, r.ok && persists)
    else InitPool(p.groups, false)
  }

  function DisabledOf(w: World): set<string>
  {
    set id | id in w && w[id].status == Disabled
  }

  function Advance(renewing: Renewing, s: System, c: Call): System
    requires Permitted(renewing, s, c)
  {
    match c.command
    case Manage(op) => s.(pools := Next(s.pools, c.id, op, c.fails))
    case Init(rank, ess, keys, ready, persists) =>
      if c.id !in s.pools then s
      else
        var p := s.pools[c.id];
        s.(pools := Next(s.pools, c.id,
                         InitOp(p, renewing(c.id, |p.servers|), rank, ess, keys, ready, persists), c.fails))
    case ListDisabled => s.(listed := DisabledOf(s.pools))
    case Collect(op) =>
      System(Next(s.pools, c.id, op, c.fails), if op.DeletePool? && !c.fails then s.listed - {c.id} else s.listed)
  }

  // ---------- what the selection gives ----------

  ghost predicate NoneForNone(renewing: Renewing)
  {
    forall id: string :: renewing(id, 0) == {}
  }

  /** A pool with groups has servers to wait for. */
  predicate Grounded(p: Pool)
  {
    p.groups != map[] ==> p.esNum > 0
  }

  lemma InsideList(ess: seq<int>, servers: set<int>, was: seq<int>, now: seq<int>)
    requires Lists(ess, servers) && Grown(ess, was, now)
    ensures Extended(was, now, servers)
  {
    forall i | 0 <= i < |now[|was|..]| ensures now[|was|..][i] in servers {
      var v := now[|was|..][i];
      assert v in now[|was|..];
    }
  }

  /** Groups filled by the selection hold only the pool's servers, and leftover groups grow only by them. */
  lemma SelectionFills(ess: seq<int>, servers: set<int>, was: map<string, seq<int>>, made: set<string>,
                       keys: seq<string>, n: nat, r: FilledMap<string>)
    requires Lists(ess, servers) && Lists(keys, was.Keys + made) && MapFilled(ess, was, made, keys, n, r)
    ensures Filled(was, r.groups, made, servers)
  {
    assert r.groups.Keys == was.Keys + made;
    forall g | g in was && g !in made ensures Extended(was[g], r.groups[g], servers) {
      assert g in r.groups;
      InsideList(ess, servers, Before(was, made, g), r.groups[g]);
    }
    forall g | g in made ensures Within(r.groups[g], servers) {
      assert g in r.groups;
      InsideList(ess, servers, Before(was, made, g), r.groups[g]);
      assert r.groups[g][0..] == r.groups[g];
    }
  }

  /** Set-up never reads an empty heap: where there are groups to fill there are servers. */
  lemma ServersForGroups(renewing: Renewing, id: string, p: Pool, ess: seq<int>, keys: seq<string>)
    requires NoneForNone(renewing) && Grounded(p) && Startable(p)
    requires Lists(ess, p.servers.Keys) && Lists(keys, p.groups.Keys + renewing(id, |p.servers|))
    ensures keys != [] ==> ess != []
  {
    if keys != [] {
      assert keys[0] in keys;
      assert keys[0] in p.groups || keys[0] in renewing(id, |p.servers|);
      assert p.servers.Keys != {};
      var v := Witness(p.servers.Keys);
      assert v in ess;
    }
  }

  lemma Witness<K>(s: set<K>) returns (x: K)
    requires s != {}
    ensures x in s
  {
    x :| x in s;
  }

  lemma InitIsPossible(renewing: Renewing, w: World, id: string, rank: Rank, ess: seq<int>, keys: seq<string>,
                       ready: bool, persists: bool)
    requires NoneForNone(renewing) && id in w && Grounded(w[id])
    requires Lists(ess, w[id].servers.Keys) && Lists(keys, w[id].groups.Keys + renewing(id, |w[id].servers|))
    ensures var made := renewing(id, |w[id].servers|);
            var op := InitOp(w[id], made, rank, ess, keys, ready, persists);
            Possible(renewing, w, id, op) && (op.ok ==> Filled(w[id].groups, op.groups, made, w[id].servers.Keys))
  {
    var p, made := w[id], renewing(id, |w[id].servers|);
    if Startable(p) && ready {
      ServersForGroups(renewing, id, p, ess, keys);
      FillMapGives(rank, ess, p.groups, made, keys, p.replicas);
      SelectionFills(ess, p.servers.Keys, p.groups, made, keys, Copies(p.replicas),
                     FillMap(rank, ess, p.groups, made, keys, p.replicas));
    }
  }

  // ---------- what set-up gives ----------

  /** A group had `was` before and has got `copies` different servers of the pool. */
  predicate GotServers(was: seq<int>, now: seq<int>, copies: nat, servers: set<int>)
  {
    Extended(was, now, servers) && |now| == |was| + copies && Distinct(now[|was|..])
  }

  /** Every group, made anew or left over, has got that many servers. */
  ghost predicate SetUp(was: map<string, seq<int>>, made: set<string>, now: map<string, seq<int>>, copies: nat,
                        servers: set<int>)
  {
    && now.Keys == was.Keys + made
    && forall g | g in now :: GotServers(if g in made then [] else was[g], now[g], copies, servers)
  }

  lemma FilledIsSetUp(ess: seq<int>, servers: set<int>, was: map<string, seq<int>>, made: set<string>,
                      keys: seq<string>, n: nat, r: FilledMap<string>)
    requires Lists(ess, servers) && Lists(keys, was.Keys + made) && MapFilled(ess, was, made, keys, n, r) && r.ok
    ensures SetUp(was, made, r.groups, n, servers)
  {
    assert r.groups.Keys == was.Keys + made;
    forall g | g in r.groups
      ensures GotServers(if g in made then [] else was[g], r.groups[g], n, servers)
    {
      InsideList(ess, servers, Before(was, made, g), r.groups[g]);
    }
  }

  /** With no group left over, there is room exactly when there are enough servers. */
  lemma NewGroupsRoom(rank: Rank, ess: seq<int>, made: set<string>, keys: seq<string>, replicas: nat)
    requires Distinct(ess) && Lists(keys, made) && (keys != [] ==> ess != [])
    ensures HasRoom(rank, ess, BeforeAll(map[], made, keys), Max(replicas, 1))
            <==> made == {} || Max(replicas, 1) <= |ess|
  {
    assert BeforeAll(map[], made, keys) == Blank(|keys|);
    FillGives(rank, ess, Blank(|keys|), replicas);
    NewGroupsFill(rank, ess, |keys|, replicas);
    ListSize(keys, made);
  }

  /**
   Set-up succeeds exactly when it may begin, the extent servers answer, every group has room for the
   replicas asked for (at least one) and the groups are stored; then every group has got exactly that
   many different servers of the pool.
   */
  lemma InitGives(p: Pool, made: set<string>, rank: Rank, ess: seq<int>, keys: seq<string>, ready: bool, persists: bool)
    requires Lists(ess, p.servers.Keys) && Lists(keys, p.groups.Keys + made) && (keys != [] ==> ess != [])
    ensures var op, copies := InitOp(p, made, rank, ess, keys, ready, persists), Max(p.replicas, 1);
            && (op.ok <==> Startable(p) && ready && persists
                           && HasRoom(rank, ess, BeforeAll(p.groups, made, keys), copies))
            && (op.ok ==> SetUp(p.groups, made, op.groups, copies, p.servers.Keys))
  {
    if Startable(p) && ready {
      FillMapGives(rank, ess, p.groups, made, keys, p.replicas);
      var r := FillMap(rank, ess, p.groups, made, keys, p.replicas);
      if r.ok {
        FilledIsSetUp(ess, p.servers.Keys, p.groups, made, keys, Max(p.replicas, 1), r);
      }
    }
  }

  /** For a pool without groups there is room exactly when it has as many servers as replicas, or no group to fill. */
  lemma NewPoolRoom(p: Pool, made: set<string>, rank: Rank, ess: seq<int>, keys: seq<string>)
    requires Lists(ess, p.servers.Keys) && Lists(keys, p.groups.Keys + made) && (keys != [] ==> ess != [])
    requires p.groups == map[]
    ensures HasRoom(rank, ess, BeforeAll(p.groups, made, keys), Max(p.replicas, 1))
            <==> made == {} || Max(p.replicas, 1) <= |p.servers|
  {
    assert p.groups.Keys + made == made;
    NewGroupsRoom(rank, ess, made, keys, p.replicas);
    ListSize(ess, p.servers.Keys);
  }

  lemma ListSize<K(!new)>(list: seq<K>, keys: set<K>)
    requires Lists(list, keys)
    ensures |list| == |keys|
  {
    ElementsSize(list);
    assert Elements(list) == keys;
  }

  // ---------- what every run keeps ----------

  predicate SysInv(s: System)
  {
    && Inv(s.pools)
    && (forall id | id in s.pools :: Grounded(s.pools[id]))
    && (forall id | id in s.listed :: id in s.pools && s.pools[id].status == Disabled)
  }

  /** The operation that a call on an existing pool comes to. */
  ghost function OpOf(renewing: Renewing, s: System, c: Call): Op
    requires Permitted(renewing, s, c) && !c.command.ListDisabled? && (c.command.Init? ==> c.id in s.pools)
  {
    match c.command
    case Manage(op) => op
    case Collect(op) => op
    case Init(rank, ess, keys, ready, persists) =>
      var p := s.pools[c.id];
      InitOp(p, renewing(c.id, |p.servers|), rank, ess, keys, ready, persists)
  }

  /** Every call is a possible step: set-up fills from the pool's servers, and what is collected is still disabled. */
  lemma CallIsPossible(renewing: Renewing, s: System, c: Call)
    requires NoneForNone(renewing) && SysInv(s) && Permitted(renewing, s, c)
    requires !c.command.ListDisabled? && (c.command.Init? ==> c.id in s.pools)
    ensures Possible(renewing, s.pools, c.id, OpOf(renewing, s, c))
    ensures Advance(renewing, s, c).pools == Next(s.pools, c.id, OpOf(renewing, s, c), c.fails)
  {
    match c.command {
      case Init(rank, ess, keys, ready, persists) =>
        InitIsPossible(renewing, s.pools, c.id, rank, ess, keys, ready, persists);
      case _ =>
    }
  }

  lemma GroundedStep(renewing: Renewing, w: World, id: string, op: Op, fails: bool)
    requires NoneForNone(renewing) && Possible(renewing, w, id, op)
    requires forall p | p in w :: Grounded(w[p])
    ensures forall p | p in Next(w, id, op, fails) :: Grounded(Next(w, id, op, fails)[p])
  {
    if op.InitPool? && id in w {
      GroundedInit(renewing, w, id, op, fails);
    }
  }

  lemma GroundedInit(renewing: Renewing, w: World, id: string, op: Op, fails: bool)
    requires NoneForNone(renewing) && id in w && op.InitPool? && Possible(renewing, w, id, op) && Grounded(w[id])
    ensures Grounded(Changed(w[id], op, fails))
  {
    var p, p' := w[id], Changed(w[id], op, fails);
    if p'.groups != map[] && p'.groups != p.groups {
      assert p'.groups.Keys != {};
      var g := Witness(p'.groups.Keys);
      assert g in p.groups || g in renewing(id, |p.servers|);
    }
  }

  lemma ListedStep(renewing: Renewing, s: System, c: Call)
    requires NoneForNone(renewing) && SysInv(s) && Permitted(renewing, s, c) && !c.command.ListDisabled?
    ensures var s' := Advance(renewing, s, c);
            forall id | id in s'.listed :: id in s'.pools && s'.pools[id].status == Disabled
  {
    if !(c.command.Init? && c.id !in s.pools) {
      CallIsPossible(renewing, s, c);
      forall id | id in s.listed {
        StepMovesOn(renewing, s.pools, c.id, OpOf(renewing, s, c), c.fails, id);
      }
    }
  }

  lemma CallKeeps(renewing: Renewing, s: System, c: Call)
    requires NoneForNone(renewing) && SysInv(s) && Permitted(renewing, s, c)
    ensures SysInv(Advance(renewing, s, c))
  {
    if !c.command.ListDisabled? {
      ListedStep(renewing, s, c);
      if !(c.command.Init? && c.id !in s.pools) {
        CallIsPossible(renewing, s, c);
        var op := OpOf(renewing, s, c);
        StepKeeps(renewing, s.pools, c.id, op, c.fails);
        GroundedStep(renewing, s.pools, c.id, op, c.fails);
      }
    }
  }

  ghost predicate AllPermitted(renewing: Renewing, s: System, calls: seq<Call>)
    decreases calls
  {
    calls == []
    || (Permitted(renewing, s, calls[0]) && AllPermitted(renewing, Advance(renewing, s, calls[0]), calls[1..]))
  }

  ghost function Run(renewing: Renewing, s: System, calls: seq<Call>): System
    requires AllPermitted(renewing, s, calls)
    decreases calls
  {
    if calls == [] then s else Run(renewing, Advance(renewing, s, calls[0]), calls[1..])
  }

  lemma {:induction false} RunKeeps(renewing: Renewing, s: System, calls: seq<Call>)
    requires NoneForNone(renewing) && SysInv(s) && AllPermitted(renewing, s, calls)
    ensures SysInv(Run(renewing, s, calls))
    decreases calls
  {
    if calls != [] {
      CallKeeps(renewing, s, calls[0]);
      RunKeeps(renewing, Advance(renewing, s, calls[0]), calls[1..]);
    }
  }

  const EMPTY := System(map[], {})

  /** In every reachable state the router of every group of a pool set up from an empty group map is found. */
  lemma RouterNeverMisses(perEs: nat, calls: seq<Call>, id: string, g: string)
    requires AllPermitted(PerServer(perEs), EMPTY, calls)
    ensures var w := Run(PerServer(perEs), EMPTY, calls).pools;
            id in w && w[id].status == Enabled && w[id].clean && g in w[id].groups ==>
              EsRouter(w[id].servers, w[id].groups[g]).Some?
  {
    NoGroupsForNoServers(perEs);
    RunKeeps(PerServer(perEs), EMPTY, calls);
    var w := Run(PerServer(perEs), EMPTY, calls).pools;
    if id in w && g in w[id].groups {
      EsRouterHits(w[id].servers, w[id].groups[g]);
    }
  }

  lemma NoGroupsForNoServers(perEs: nat)
    ensures NoneForNone(PerServer(perEs))
  {
    forall id: string ensures PerServer(perEs)(id, 0) == {} {
      assert perEs * 0 == 0;
      assert GroupIds(id, perEs * 0) == {};
    }
  }

  /** Over any run a pool that is not removed moves on only, and while it is enabled its groups are fixed. */
  lemma {:induction false} RunMovesOn(renewing: Renewing, s: System, calls: seq<Call>, p: string)
    requires NoneForNone(renewing) && SysInv(s) && AllPermitted(renewing, s, calls) && p in s.pools
    requires forall i | 0 <= i < |calls| :: calls[i].command != Collect(DeletePool) || calls[i].id != p
    ensures p in Run(renewing, s, calls).pools && MovesOn(s.pools[p], Run(renewing, s, calls).pools[p])
    decreases calls
  {
    if calls != [] {
      var c := calls[0];
      CallKeeps(renewing, s, c);
      if !c.command.ListDisabled? && !(c.command.Init? && c.id !in s.pools) {
        CallIsPossible(renewing, s, c);
        StepMovesOn(renewing, s.pools, c.id, OpOf(renewing, s, c), c.fails, p);
      }
      RunMovesOn(renewing, Advance(renewing, s, c), calls[1..], p);
    }
  }

  /**
   After a set-up that succeeds, the pool's groups are covered by its servers exactly when no group left
   over from an earlier attempt names a server that is gone.
   */
  lemma InitCovers(perEs: nat, w: World, id: string, rank: Rank, ess: seq<int>, keys: seq<string>, fails: bool)
    requires id in w && Grounded(w[id])
    requires var made := PerServer(perEs)(id, |w[id].servers|);
             && Lists(ess, w[id].servers.Keys) && Lists(keys, w[id].groups.Keys + made)
             && InitOp(w[id], made, rank, ess, keys, true, true).ok
    ensures var p, made := w[id], PerServer(perEs)(id, |w[id].servers|);
            var p' := Changed(p, InitOp(p, made, rank, ess, keys, true, true), fails);
            && p'.status == Enabled
            && (Covered(p') <==> forall g | g in p.groups && g !in made :: Within(p.groups[g], p.servers.Keys))
  {
    NoGroupsForNoServers(perEs);
    InitIsPossible(PerServer(perEs), w, id, rank, ess, keys, true, true);
    var made := PerServer(perEs)(id, |w[id].servers|);
    var op := InitOp(w[id], made, rank, ess, keys, true, true);
    InitCoversIff(w[id], op.groups, fails, made);
  }

  /**
   In every run, as long as a pool stays enabled its groups have exactly the servers they got when it
   was set up: as many as it had replicas at that time, whatever it was updated to later.
   */
  lemma CopiesLast(perEs: nat, earlier: seq<Call>, c: Call, later: seq<Call>)
    requires AllPermitted(PerServer(perEs), EMPTY, earlier) && c.command.Init?
    requires var s := Run(PerServer(perEs), EMPTY, earlier);
             && Permitted(PerServer(perEs), s, c) && c.id in s.pools && s.pools[c.id].status == Created
             && Advance(PerServer(perEs), s, c).pools[c.id].status == Enabled
             && AllPermitted(PerServer(perEs), Advance(PerServer(perEs), s, c), later)
    requires forall i | 0 <= i < |later| :: later[i].command != Collect(DeletePool) || later[i].id != c.id
    ensures var s := Run(PerServer(perEs), EMPTY, earlier);
            var last := Run(PerServer(perEs), Advance(PerServer(perEs), s, c), later);
            var p := s.pools[c.id];
            && c.id in last.pools
            && (last.pools[c.id].status == Enabled ==>
                  SetUp(p.groups, GroupIds(c.id, perEs * |p.servers|), last.pools[c.id].groups, Max(p.replicas, 1),
                        last.pools[c.id].servers.Keys))
  {
    var renewing := PerServer(perEs);
    var s := Run(renewing, EMPTY, earlier);
    var p := s.pools[c.id];
    var made := renewing(c.id, |p.servers|);
    NoGroupsForNoServers(perEs);
    RunKeeps(renewing, EMPTY, earlier);
    CallKeeps(renewing, s, c);
    RunMovesOn(renewing, Advance(renewing, s, c), later, c.id);
    InitEnables(renewing, s, c);
  }

  lemma InitEnables(renewing: Renewing, s: System, c: Call)
    requires NoneForNone(renewing) && SysInv(s) && Permitted(renewing, s, c) && c.command.Init?
    requires c.id in s.pools && s.pools[c.id].status == Created
    requires Advance(renewing, s, c).pools[c.id].status == Enabled
    ensures var p, p' := s.pools[c.id], Advance(renewing, s, c).pools[c.id];
            p'.servers == p.servers
            && SetUp(p.groups, renewing(c.id, |p.servers|), p'.groups, Max(p.replicas, 1), p.servers.Keys)
  {
    var p, call := s.pools[c.id], c.command;
    var made := renewing(c.id, |p.servers|);
    assert Startable(p);
    ServersForGroups(renewing, c.id, p, call.ess, call.keys);
    InitGives(p, made, call.rank, call.ess, call.keys, call.ready, call.persists);
  }

  // ---------- who leads the groups ----------

  /** The groups of the map in the order of their keys. */
  function InOrder(groups: map<string, seq<int>>, keys: seq<string>): (list: seq<seq<int>>)
    requires forall x | x in keys :: x in groups
    ensures |list| == |keys|
  {
    seq(|keys|, i requires 0 <= i < |keys| => groups[keys[i]])
  }

  /** Set-up of a pool without groups makes no server lead more groups than its share of the weights. */
  lemma InitSpreads(p: Pool, made: set<string>, weights: Weights, ess: seq<int>, keys: seq<string>, persists: bool)
    requires Startable(p) && p.groups == map[]
    requires Lists(ess, p.servers.Keys) && Lists(keys, made) && (keys != [] ==> ess != [])
    ensures var op := InitOp(p, made, EsRank(weights), ess, keys, true, persists);
            && (forall g | g in keys :: g in op.groups)
            && Fair(weights, ess, LedBy(InOrder(op.groups, keys)))
  {
    var was := BeforeAll(p.groups, made, keys);
    FillCount(EsRank(weights), ess, was, p.replicas);
    ServedNew(keys, was, Fill(EsRank(weights), ess, was, p.replicas).added);
    FillSpreads(weights, ess, was, p.replicas);
  }

  lemma ServedNew(keys: seq<string>, was: seq<seq<int>>, added: seq<seq<int>>)
    requires Distinct(keys) && |was| == |added| == |keys| && forall i | 0 <= i < |was| :: was[i] == []
    ensures var groups := Served(keys, was, added);
            (forall x | x in keys :: x in groups) && InOrder(groups, keys) == added
  {
    var groups := Served(keys, was, added);
    forall i | 0 <= i < |keys| ensures keys[i] in groups && groups[keys[i]] == added[i] {
      assert was[i] + added[i] == added[i];
    }
  }
}
