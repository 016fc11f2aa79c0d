/** A run in which a failed set-up leaves a group behind that names a server removed later. */
module PoolLeftover {
  import opened Common
  import opened Heap
  import opened Pools
  import opened PoolRuns
  import opened Selection

  // ---------- runs step by step ----------

  /** The call is permitted in s and leads to t. */
  ghost predicate Reaches(s: System, c: Call, t: System)
  {
    Permitted(PerServer(1), s, c) && Advance(PerServer(1), s, c) == t
  }

  ghost predicate Chain(ss: seq<System>, calls: seq<Call>)
  {
    |ss| == |calls| + 1 && forall i | 0 <= i < |calls| :: Reaches(ss[i], calls[i], ss[i + 1])
  }

  lemma {:induction false} ChainRuns(ss: seq<System>, calls: seq<Call>)
    requires Chain(ss, calls)
    ensures AllPermitted(PerServer(1), ss[0], calls) && Run(PerServer(1), ss[0], calls) == ss[|calls|]
    decreases calls
  {
    if calls != [] {
      assert Reaches(ss[0], calls[0], ss[1]);
      forall i | 0 <= i < |calls[1..]| ensures Reaches(ss[1..][i], calls[1..][i], ss[1..][i + 1]) {
        assert Reaches(ss[i + 1], calls[i + 1], ss[i + 2]);
      }
      ChainRuns(ss[1..], calls[1..]);
    }
  }

  lemma ChainOfThree(s0: System, a: Call, s1: System, b: Call, s2: System, c: Call, s3: System)
    requires Reaches(s0, a, s1) && Reaches(s1, b, s2) && Reaches(s2, c, s3)
    ensures AllPermitted(PerServer(1), s0, [a, b, c]) && Run(PerServer(1), s0, [a, b, c]) == s3
  {
    ChainRuns([s0, s1, s2, s3], [a, b, c]);
  }

  lemma {:induction false} RunsOn(s: System, a: seq<Call>, b: seq<Call>)
    requires AllPermitted(PerServer(1), s, a) && AllPermitted(PerServer(1), Run(PerServer(1), s, a), b)
    ensures AllPermitted(PerServer(1), s, a + b)
    ensures Run(PerServer(1), s, a + b) == Run(PerServer(1), Run(PerServer(1), s, a), b)
    decreases a
  {
    if a == [] {
      assert a + b == b;
    } else {
      assert (a + b)[1..] == a[1..] + b;
      RunsOn(Advance(PerServer(1), s, a[0]), a[1..], b);
    }
  }

  function Only(id: string, p: Pool): System
  {
    System(map[id := p], {})
  }

  lemma OnlyPool(id: string, p: Pool, op: Op, q: Pool)
    requires !op.CreatePool? && !op.DeletePool? && Changed(p, op, false) == q
    ensures Next(map[id := p], id, op, false) == map[id := q]
  {
  }

  // ---------- what the selection does here ----------

  /** All servers rank the same, so they are taken in turn. */
  function InTurn(): Rank
  {
    (c, x, y) => false
  }

  lemma TakeTurns(a: int, b: int, lower: Order)
    requires forall x, y :: !lower(x, y)
    ensures PushAll([], [a, b], lower) == [a, b] && Requeue([a, b], a, lower) == [b, a] && Requeue([a], a, lower) == [a]
    ensures PushAll([], [a], lower) == [a]
  {
    assert [a, b][1..] == [b] && [b][1..] == [] && [a][1..] == [];
    assert Push([], a, lower) == [a];
    assert Push([a], b, lower) == [a, b];
    assert PushAll([a], [b], lower) == PushAll([a, b], [], lower);
    assert Pop([a, b], lower) == [b];
    assert Push([b], a, lower) == [b, a];
  }

  lemma JoinBoth(a: int, b: int)
    ensures Join([[], []], 0, a) == [[a], []] && Join([[a], []], 1, b) == [[a], [b]]
  {
    assert [] + [a] == [a] && [] + [b] == [b];
    var none: seq<seq<int>> := [[], []];
    assert none[0 := none[0] + [a]] == [[a], []];
    var one: seq<seq<int>> := [[a], []];
    assert one[1 := one[1] + [b]] == [[a], [b]];
  }

  /** Two servers and two new groups, one replica: each group gets one of them. */
  lemma FirstFill()
    ensures var f := Fill(InTurn(), [1, 2], [[], []], 1); f.ok && f.added == [[1], [2]]
  {
    var c := Counters(map[], map[]);
    var c1 := Leading(c, 1);
    TakeTurns(1, 2, Lower(InTurn(), c));
    TakeTurns(1, 2, Lower(InTurn(), c1));
    assert Blank(2) == [[], []];
    var a1 := Alloc([2, 1], c1);
    assert PickPrimary(InTurn(), Alloc([1, 2], c)) == Picked(a1, Some(1));
    JoinBoth(1, 2);
    assert Primaries(InTurn(), PickPrimary(InTurn(), a1).alloc, [[1], [2]], 2).added == [[1], [2]];
    assert Primaries(InTurn(), a1, [[1], []], 1).added == [[1], [2]];
  }

  /** One server, a new group and a leftover one: both get it. */
  lemma SecondFill()
    ensures var f := Fill(InTurn(), [1], [[], [2]], 1); f.ok && f.added == [[1], [1]]
  {
    var c := Counters(map[], map[]);
    var c1 := Leading(c, 1);
    TakeTurns(1, 1, Lower(InTurn(), c));
    TakeTurns(1, 1, Lower(InTurn(), c1));
    assert Blank(2) == [[], []];
    var a1 := Alloc([1], c1);
    assert PickPrimary(InTurn(), Alloc([1], c)) == Picked(a1, Some(1));
    JoinBoth(1, 1);
    assert Primaries(InTurn(), PickPrimary(InTurn(), a1).alloc, [[1], [1]], 2).added == [[1], [1]];
    assert Primaries(InTurn(), a1, [[1], []], 1).added == [[1], [1]];
  }

  lemma ServedTwo(g0: string, g1: string, was: seq<seq<int>>, added: seq<seq<int>>)
    requires g0 != g1 && |was| == |added| == 2
    ensures Served([g0, g1], was, added) == map[g0 := was[0] + added[0], g1 := was[1] + added[1]]
  {
    var m := Served([g0, g1], was, added);
    assert [g0, g1][0] in m && [g0, g1][1] in m;
    assert m.Keys == {g0, g1};
  }

  lemma FirstMap(g0: string, g1: string)
    requires g0 != g1
    ensures FillMap(InTurn(), [1, 2], map[], {g0, g1}, [g0, g1], 1) == FilledMap(map[g0 := [1], g1 := [2]], true)
  {
    FirstFill();
    assert BeforeAll(map[], {g0, g1}, [g0, g1]) == [[], []];
    ServedTwo(g0, g1, [[], []], [[1], [2]]);
    assert [] + [1] == [1] && [] + [2] == [2];
  }

  lemma SecondMap(g0: string, g1: string)
    requires g0 != g1
    ensures FillMap(InTurn(), [1], map[g0 := [1], g1 := [2]], {g0}, [g0, g1], 1)
            == FilledMap(map[g0 := [1], g1 := [2, 1]], true)
  {
    SecondFill();
    assert BeforeAll(map[g0 := [1], g1 := [2]], {g0}, [g0, g1]) == [[], [2]];
    ServedTwo(g0, g1, [[], [2]], [[1], [1]]);
    assert [] + [1] == [1] && [2] + [1] == [2, 1];
  }

  // ---------- the run ----------

  function TwoServerCalls(pool: string, s1: Server, s2: Server): seq<Call>
  {
    [Call(pool, Manage(CreatePool("p", 1, 2)), false), Call(pool, Manage(CreateEs(1, s1)), false),
     Call(pool, Manage(CreateEs(2, s2)), false)]
  }

  function FailedInitCalls(pool: string): seq<Call>
  {
    [Call(pool, Init(InTurn(), [1, 2], [GroupId(pool, 0), GroupId(pool, 1)], true, false), false),
     Call(pool, Manage(DeleteEs(2)), false), Call(pool, Manage(UpdatePool("", 0, 1)), false)]
  }

  function SecondInit(pool: string): Call
  {
    Call(pool, Init(InTurn(), [1], [GroupId(pool, 0), GroupId(pool, 1)], true, true), false)
  }

  /**
   A pool of two servers whose first set-up fails when its groups are stored; one server is then removed
   and the pool set up again. Its second group still names the server that is gone.
   */
  lemma LeftoverGroup(pool: string, s1: Server, s2: Server)
    requires !Clash(s1, s2)
    ensures var calls := TwoServerCalls(pool, s1, s2) + FailedInitCalls(pool) + [SecondInit(pool)];
            && AllPermitted(PerServer(1), EMPTY, calls)
            && var w := Run(PerServer(1), EMPTY, calls).pools;
            && pool in w && w[pool].status == Enabled && !Covered(w[pool])
            && GroupId(pool, 1) in w[pool].groups
            && EsRouter(w[pool].servers, w[pool].groups[GroupId(pool, 1)]) == None
  {
    var g0, g1 := GroupId(pool, 0), GroupId(pool, 1);
    assert g0[|g0| - 1] != g1[|g1| - 1];
    var p3 := Pool("p", Created, 1, 2, map[1 := s1, 2 := s2], map[], true);
    var p6 := p3.(groups := map[g0 := [1], g1 := [2]], servers := map[1 := s1], esNum := 1);
    var p7 := p6.(groups := map[g0 := [1], g1 := [2, 1]], status := Enabled, clean := false);
    TwoServers(pool, p3, s1, s2);
    FailedInit(pool, p3, p6, s1, s2);
    LastInit(pool, p6, p7, g0, g1);
    RunsThrough(EMPTY, TwoServerCalls(pool, s1, s2), Only(pool, p3), FailedInitCalls(pool), Only(pool, p6),
                [SecondInit(pool)], Only(pool, p7));
    LeftoverMisses(p7, g1);
  }

  lemma RunsThrough(s: System, a: seq<Call>, s1: System, b: seq<Call>, s2: System, c: seq<Call>, s3: System)
    requires AllPermitted(PerServer(1), s, a) && Run(PerServer(1), s, a) == s1
    requires AllPermitted(PerServer(1), s1, b) && Run(PerServer(1), s1, b) == s2
    requires AllPermitted(PerServer(1), s2, c) && Run(PerServer(1), s2, c) == s3
    ensures AllPermitted(PerServer(1), s, a + b + c) && Run(PerServer(1), s, a + b + c) == s3
  {
    RunsOn(s, a, b);
    RunsOn(s, a + b, c);
  }

  lemma LeftoverMisses(p: Pool, g: string)
    requires g in p.groups && p.groups[g] == [2, 1] && 2 !in p.servers
    ensures !Covered(p) && EsRouter(p.servers, p.groups[g]) == None
  {
    assert p.groups[g][0] == 2;
    EsRouterHits(p.servers, p.groups[g]);
  }

  lemma TwoServers(pool: string, p3: Pool, s1: Server, s2: Server)
    requires !Clash(s1, s2) && p3 == Pool("p", Created, 1, 2, map[1 := s1, 2 := s2], map[], true)
    ensures var calls := TwoServerCalls(pool, s1, s2);
            AllPermitted(PerServer(1), EMPTY, calls) && Run(PerServer(1), EMPTY, calls) == Only(pool, p3)
  {
    var p1 := p3.(servers := map[]);
    var p2 := p3.(servers := map[1 := s1]);
    OnlyPool(pool, p1, CreateEs(1, s1), p2);
    assert !Conflicts(p2, s2);
    assert p2.servers[2 := s2] == p3.servers;
    OnlyPool(pool, p2, CreateEs(2, s2), p3);
    ChainOfThree(EMPTY, Call(pool, Manage(CreatePool("p", 1, 2)), false), Only(pool, p1),
                 Call(pool, Manage(CreateEs(1, s1)), false), Only(pool, p2),
                 Call(pool, Manage(CreateEs(2, s2)), false), Only(pool, p3));
  }

  lemma SetBack(pool: string, p4: Pool, p5: Pool, p6: Pool)
    requires p4.status == Created && 2 in p4.servers && p5 == p4.(servers := p4.servers - {2}) && p6 == p5.(esNum := 1)
    ensures Reaches(Only(pool, p4), Call(pool, Manage(DeleteEs(2)), false), Only(pool, p5))
    ensures Reaches(Only(pool, p5), Call(pool, Manage(UpdatePool("", 0, 1)), false), Only(pool, p6))
  {
    OnlyPool(pool, p4, DeleteEs(2), p5);
    OnlyPool(pool, p5, UpdatePool("", 0, 1), p6);
  }

  lemma FailedInit(pool: string, p3: Pool, p6: Pool, s1: Server, s2: Server)
    requires p3 == Pool("p", Created, 1, 2, map[1 := s1, 2 := s2], map[], true)
    requires GroupId(pool, 0) != GroupId(pool, 1)
    requires p6 == p3.(groups := map[GroupId(pool, 0) := [1], GroupId(pool, 1) := [2]], servers := map[1 := s1],
                       esNum := 1)
    ensures var calls := FailedInitCalls(pool);
            && AllPermitted(PerServer(1), Only(pool, p3), calls)
            && Run(PerServer(1), Only(pool, p3), calls) == Only(pool, p6)
  {
    var p4 := p3.(groups := p6.groups);
    var p5 := p4.(servers := map[1 := s1]);
    assert p4.servers - {2} == map[1 := s1];
    FirstInit(pool, p3, p4, GroupId(pool, 0), GroupId(pool, 1));
    SetBack(pool, p4, p5, p6);
    ChainOfThree(Only(pool, p3), FailedInitCalls(pool)[0], Only(pool, p4), Call(pool, Manage(DeleteEs(2)), false),
                 Only(pool, p5), Call(pool, Manage(UpdatePool("", 0, 1)), false), Only(pool, p6));
  }

  lemma FirstInit(pool: string, p: Pool, q: Pool, g0: string, g1: string)
    requires p.status == Created && p.esNum == 2 && p.servers.Keys == {1, 2} && p.groups == map[] && p.replicas == 1
    requires g0 == GroupId(pool, 0) && g1 == GroupId(pool, 1) && g0 != g1 && p.clean
    requires q == p.(groups := map[g0 := [1], g1 := [2]])
    ensures Reaches(Only(pool, p), FailedInitCalls(pool)[0], Only(pool, q))
  {
    assert |p.servers.Keys| == 2;
    assert PerServer(1)(pool, 2) == GroupIds(pool, 2) == {g0, g1};
    FirstMap(g0, g1);
    assert InitOp(p, {g0, g1}, InTurn(), [1, 2], [g0, g1], true, false) == InitPool(q.groups, false);
    OnlyPool(pool, p, InitPool(q.groups, false), q);
  }

  lemma LastInit(pool: string, p: Pool, q: Pool, g0: string, g1: string)
    requires p.status == Created && p.esNum == 1 && p.servers.Keys == {1} && p.replicas == 1
    requires g0 == GroupId(pool, 0) && g1 == GroupId(pool, 1) && g0 != g1 && p.groups == map[g0 := [1], g1 := [2]]
    requires q == p.(groups := map[g0 := [1], g1 := [2, 1]], status := Enabled, clean := false)
    ensures AllPermitted(PerServer(1), Only(pool, p), [SecondInit(pool)])
    ensures Run(PerServer(1), Only(pool, p), [SecondInit(pool)]) == Only(pool, q)
  {
    assert |p.servers.Keys| == 1;
    assert PerServer(1)(pool, 1) == GroupIds(pool, 1) == {g0};
    assert p.groups.Keys == {g0, g1};
    SecondMap(g0, g1);
    assert g0 in p.groups;
    assert InitOp(p, {g0}, InTurn(), [1], [g0, g1], true, true) == InitPool(q.groups, true);
    OnlyPool(pool, p, InitPool(q.groups, true), q);
    ChainRuns([Only(pool, p), Only(pool, q)], [SecondInit(pool)]);
  }
}
