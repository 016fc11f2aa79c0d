/**
 Selection of servers for replication groups, with the node failure domain: a heap of servers gives a
 primary to every group and then, round after round, one more server the group does not have yet.
 Groups left over from an earlier attempt take part like new ones.
 */
module Selection {
  import opened Common
  import opened Heap
  import opened HeapSearch

  /** How many groups each server leads and follows. */
  datatype Counters = Counters(pri: map<int, nat>, sec: map<int, nat>)

  /** The order of the allocator's heap, which may look at the counters. */
  type Rank = (Counters, int, int) -> bool

  datatype Alloc = Alloc(ess: seq<int>, counters: Counters)

  datatype Picked = Picked(alloc: Alloc, es: Option<int>)

  function At(m: map<int, nat>, v: int): nat
  {
    if v in m then m[v] else 0
  }

  function Lower(rank: Rank, c: Counters): Order
  {
    (x, y) => rank(c, x, y)
  }

  function Leading(c: Counters, es: int): Counters
  {
    c.(pri := c.pri[es := At(c.pri, es) + 1])
  }

  function Following(c: Counters, es: int): Counters
  {
    c.(sec := c.sec[es := At(c.sec, es) + 1])
  }

  function NewAlloc(rank: Rank, servers: seq<int>): Alloc
  {
    var c := Counters(map[], map[]);
    Alloc(PushAll([], servers, Lower(rank, c)), c)
  }

  function PickPrimary(rank: Rank, a: Alloc): Picked
  {
    if a.ess == [] then Picked(a, None)
    else
      var c := Leading(a.counters, a.ess[0]);
      Picked(Alloc(Requeue(a.ess, a.ess[0], Lower(rank, c)), c), Some(a.ess[0]))
  }

  function In(group: seq<int>): int -> bool
  {
    v => v in group
  }

  function PickSecondary(rank: Rank, a: Alloc, group: seq<int>): Picked
  {
    var s := SkipFull(a.ess, In(group), Lower(rank, a.counters));
    if s.rest == [] then Picked(a.(ess := PushAll([], s.skipped, Lower(rank, a.counters))), None)
    else
      var c := Following(a.counters, s.rest[0]);
      Picked(Alloc(PushAll(Requeue(s.rest, s.rest[0], Lower(rank, c)), s.skipped, Lower(rank, c)), c), Some(s.rest[0]))
  }

  /** The allocator has exactly these servers. */
  ghost predicate Keeps(a: Alloc, ess: seq<int>)
  {
    multiset(a.ess) == multiset(ess)
  }

  lemma NewAllocKeeps(rank: Rank, servers: seq<int>)
    ensures Keeps(NewAlloc(rank, servers), servers)
  {
    PushAllContents([], servers, Lower(rank, Counters(map[], map[])));
  }

  lemma PrimaryPicked(rank: Rank, a: Alloc, ess: seq<int>)
    requires Keeps(a, ess) && ess != []
    ensures var p := PickPrimary(rank, a);
            && Keeps(p.alloc, ess) && p.es.Some? && p.es.value in ess
            && p.alloc.counters == Leading(a.counters, p.es.value)
  {
    SameMembers(a.ess, multiset(ess));
    assert |multiset(a.ess)| == |multiset(ess)|;
    RequeueKeepsIff(a.ess, a.ess[0], Lower(rank, Leading(a.counters, a.ess[0])));
    assert a.ess[0] in multiset(ess);
  }

  /** There is a server for the group exactly when it does not have them all, and the heap is whole again either way. */
  lemma SecondaryPicked(rank: Rank, a: Alloc, ess: seq<int>, group: seq<int>)
    requires Keeps(a, ess)
    ensures var p := PickSecondary(rank, a, group);
            && Keeps(p.alloc, ess)
            && (p.es.None? <==> forall v :: v in ess ==> v in group)
            && p.alloc.counters == (if p.es.None? then a.counters else Following(a.counters, p.es.value))
            && (p.es.Some? ==> p.es.value in ess && p.es.value !in group)
  {
    var lower := Lower(rank, a.counters);
    var s := SkipFull(a.ess, In(group), lower);
    SkipFullContents(a.ess, In(group), lower);
    SkipFullMembers(a.ess, In(group), lower);
    SameMembers(a.ess, multiset(ess));
    SameMembers(ess, multiset(ess));
    if s.rest == [] {
      PushAllContents([], s.skipped, lower);
    } else {
      var lower' := Lower(rank, Following(a.counters, s.rest[0]));
      RequeueKeepsIff(s.rest, s.rest[0], lower');
      PushAllContents(Requeue(s.rest, s.rest[0], lower'), s.skipped, lower');
      assert s.rest[0] in s.rest;
    }
  }

  // ---------- the rounds over the groups ----------

  /** What was added to each group so far; the groups had `was` before. */
  datatype Filling = Filling(alloc: Alloc, added: seq<seq<int>>, ok: bool)

  function Join(added: seq<seq<int>>, i: nat, es: int): seq<seq<int>>
    requires i < |added|
  {
    added[i := added[i] + [es]]
  }

  /** A primary for the groups from the i-th on. */
  function Primaries(rank: Rank, a: Alloc, added: seq<seq<int>>, i: nat): Filling
    decreases |added| - i
  {
    if i >= |added| then Filling(a, added, true)
    else
      var p := PickPrimary(rank, a);
      if p.es.None? then Filling(p.alloc, added, false) else Primaries(rank, p.alloc, Join(added, i, p.es.value), i + 1)
  }

  lemma {:induction false} PrimariesCount(rank: Rank, a: Alloc, added: seq<seq<int>>, i: nat)
    ensures |Primaries(rank, a, added, i).added| == |added|
    decreases |added| - i
  {
    if i < |added| && a.ess != [] {
      var p := PickPrimary(rank, a);
      PrimariesCount(rank, p.alloc, Join(added, i, p.es.value), i + 1);
    }
  }

  /** One more server for the groups from the i-th on. */
  function Secondaries(rank: Rank, a: Alloc, was: seq<seq<int>>, added: seq<seq<int>>, i: nat): (f: Filling)
    requires |was| == |added|
    ensures |f.added| == |was|
    decreases |added| - i
  {
    if i >= |added| then Filling(a, added, true)
    else
      var p := PickSecondary(rank, a, was[i] + added[i]);
      if p.es.None? then Filling(p.alloc, added, false)
      else Secondaries(rank, p.alloc, was, Join(added, i, p.es.value), i + 1)
  }

  function Rounds(rank: Rank, a: Alloc, was: seq<seq<int>>, added: seq<seq<int>>, n: nat): Filling
    requires |was| == |added|
    decreases n
  {
    if n == 0 then Filling(a, added, true)
    else
      var f := Secondaries(rank, a, was, added, 0);
      if f.ok then Rounds(rank, f.alloc, was, f.added, n - 1) else f
  }

  /** n groups without servers. */
  function Blank(n: nat): (groups: seq<seq<int>>)
    ensures |groups| == n
  {
    seq(n, i => [])
  }

  /** How many servers a group gets: even with no replicas asked for it gets a primary. */
  function Copies(replicas: nat): nat
  {
    Max(replicas, 1)
  }

  function Fill(rank: Rank, ess: seq<int>, was: seq<seq<int>>, replicas: nat): Filling
  {
    var f := Primaries(rank, NewAlloc(rank, ess), Blank(|was|), 0);
    if f.ok && |f.added| == |was| then Rounds(rank, f.alloc, was, f.added, Copies(replicas) - 1) else f
  }

  // ---------- counting the groups of a server ----------

  function Leads(groups: seq<seq<int>>, v: int): nat
  {
    if groups == [] then 0
    else
      var g := groups[|groups| - 1];
      Leads(groups[..|groups| - 1], v) + if g != [] && g[0] == v then 1 else 0
  }

  function Follows(groups: seq<seq<int>>, v: int): nat
  {
    if groups == [] then 0
    else
      var g := groups[|groups| - 1];
      Follows(groups[..|groups| - 1], v) + if g != [] && v in g[1..] then 1 else 0
  }

  lemma {:induction false} CountsAfterJoin(groups: seq<seq<int>>, i: nat, es: int, v: int)
    requires i < |groups| && es !in groups[i]
    ensures var joined := groups[i := groups[i] + [es]];
            && Leads(joined, v) == Leads(groups, v) + (if groups[i] == [] && v == es then 1 else 0)
            && Follows(joined, v) == Follows(groups, v) + (if groups[i] != [] && v == es then 1 else 0)
  {
    var n := |groups| - 1;
    var g := groups[i] + [es];
    var joined := groups[i := g];
    if i < n {
      CountsAfterJoin(groups[..n], i, es, v);
      assert joined[..n] == groups[..n][i := g];
    } else {
      assert joined[..n] == groups[..n];
      if groups[i] != [] {
        assert g[1..] == groups[i][1..] + [es];
      } else {
        assert g[1..] == [];
      }
    }
  }

  /** The counters agree with the groups. */
  ghost predicate Tallied(groups: seq<seq<int>>, c: Counters)
  {
    forall v :: At(c.pri, v) == Leads(groups, v) && At(c.sec, v) == Follows(groups, v)
  }

  lemma TalliedAfterJoin(groups: seq<seq<int>>, i: nat, es: int, c: Counters)
    requires i < |groups| && es !in groups[i] && Tallied(groups, c)
    ensures Tallied(groups[i := groups[i] + [es]],
                    if groups[i] == [] then c.(pri := c.pri[es := At(c.pri, es) + 1])
                    else c.(sec := c.sec[es := At(c.sec, es) + 1]))
  {
    forall v
      ensures var joined := groups[i := groups[i] + [es]];
              && Leads(joined, v) == Leads(groups, v) + (if groups[i] == [] && v == es then 1 else 0)
              && Follows(joined, v) == Follows(groups, v) + (if groups[i] != [] && v == es then 1 else 0)
    {
      CountsAfterJoin(groups, i, es, v);
    }
  }

  lemma {:induction false} BlankCounts(n: nat, v: int)
    ensures Leads(Blank(n), v) == 0 && Follows(Blank(n), v) == 0
  {
    if n > 0 {
      BlankCounts(n - 1, v);
      assert Blank(n)[..n - 1] == Blank(n - 1);
    }
  }

  lemma BlankTallied(n: nat, c: Counters)
    requires c == Counters(map[], map[])
    ensures Tallied(Blank(n), c)
  {
    forall v ensures Leads(Blank(n), v) == 0 && Follows(Blank(n), v) == 0 {
      BlankCounts(n, v);
    }
  }

  // ---------- what the rounds give ----------

  /** n different servers of the pool, of which all but the first are none the group had before. */
  ghost predicate GroupOk(ess: seq<int>, was: seq<int>, g: seq<int>, n: nat)
  {
    |g| == n && Distinct(g) && (forall v :: v in g ==> v in ess) && forall k | 1 <= k < |g| :: g[k] !in was
  }

  lemma GroupGrows(ess: seq<int>, was: seq<int>, g: seq<int>, n: nat, es: int)
    requires GroupOk(ess, was, g, n) && es in ess && es !in g && (g != [] ==> es !in was)
    ensures GroupOk(ess, was, g + [es], n + 1)
  {
  }

  /** The first i groups have got n + 1 servers, the others n. */
  ghost predicate Round(ess: seq<int>, was: seq<seq<int>>, added: seq<seq<int>>, i: nat, n: nat)
  {
    |added| == |was| && forall j | 0 <= j < |was| :: GroupOk(ess, was[j], added[j], Got(i, n, j))
  }

  function Got(i: nat, n: nat, j: nat): nat
  {
    if j < i then n + 1 else n
  }

  lemma RoundStep(ess: seq<int>, was: seq<seq<int>>, added: seq<seq<int>>, i: nat, n: nat, es: int)
    requires i < |was| && Round(ess, was, added, i, n) && es in ess && es !in added[i] && (n > 0 ==> es !in was[i])
    ensures Round(ess, was, Join(added, i, es), i + 1, n)
  {
    GroupGrows(ess, was[i], added[i], n, es);
    forall j | 0 <= j < |was|
      ensures GroupOk(ess, was[j], Join(added, i, es)[j], Got(i + 1, n, j))
    {
      assert GroupOk(ess, was[j], added[j], Got(i, n, j));
    }
  }

  lemma RoundOver(ess: seq<int>, was: seq<seq<int>>, added: seq<seq<int>>, i: nat, n: nat)
    requires Round(ess, was, added, i, n) && i >= |was|
    ensures Round(ess, was, added, 0, n + 1)
  {
    forall j | 0 <= j < |was| ensures GroupOk(ess, was[j], added[j], n + 1) {
      assert GroupOk(ess, was[j], added[j], Got(i, n, j));
    }
  }

  /** Whatever happened so far, each group has got different servers of the pool. */
  ghost predicate Partial(ess: seq<int>, was: seq<seq<int>>, added: seq<seq<int>>)
  {
    |added| == |was| && forall j | 0 <= j < |was| :: GroupOk(ess, was[j], added[j], |added[j]|)
  }

  lemma RoundIsPartial(ess: seq<int>, was: seq<seq<int>>, added: seq<seq<int>>, i: nat, n: nat)
    requires Round(ess, was, added, i, n)
    ensures Partial(ess, was, added)
  {
    forall j | 0 <= j < |was| ensures GroupOk(ess, was[j], added[j], |added[j]|) {
      assert GroupOk(ess, was[j], added[j], Got(i, n, j));
    }
  }

  lemma {:induction false} PrimariesGive(rank: Rank, a: Alloc, ess: seq<int>, was: seq<seq<int>>, added: seq<seq<int>>,
                                         i: nat)
    requires Keeps(a, ess) && ess != [] && Round(ess, was, added, i, 0) && Tallied(added, a.counters)
    ensures var f := Primaries(rank, a, added, i);
            f.ok && Keeps(f.alloc, ess) && Round(ess, was, f.added, 0, 1) && Tallied(f.added, f.alloc.counters)
    decreases |added| - i
  {
    if i >= |added| {
      RoundOver(ess, was, added, i, 0);
    } else {
      PrimaryPicked(rank, a, ess);
      var p := PickPrimary(rank, a);
      assert GroupOk(ess, was[i], added[i], 0);
      RoundStep(ess, was, added, i, 0, p.es.value);
      TalliedAfterJoin(added, i, p.es.value, a.counters);
      PrimariesGive(rank, p.alloc, ess, was, Join(added, i, p.es.value), i + 1);
    }
  }

  // ---------- pigeonhole ----------

  /** The servers of the pool that a group does not have. */
  function Spare(ess: seq<int>, was: seq<int>): set<int>
  {
    set v | v in ess && v !in was
  }

  /** How many servers a group can get in all: its primary may be one it had. */
  function Room(ess: seq<int>, was: seq<int>, g: seq<int>): nat
  {
    |Spare(ess, was)| + if g != [] && g[0] in was then 1 else 0
  }

  /** The members that are new to the group are all, or all but the primary. */
  lemma NewMembers(ess: seq<int>, was: seq<int>, g: seq<int>, n: nat)
    requires GroupOk(ess, was, g, n) && n > 0
    ensures var newOnes := Elements(g) - Elements(was);
            && newOnes <= Spare(ess, was)
            && |newOnes| + (if g[0] in was then 1 else 0) == n
  {
    ElementsSize(g);
    var newOnes := Elements(g) - Elements(was);
    forall v | v in newOnes ensures v in Spare(ess, was) {
      assert v in g && v !in was;
    }
    assert g[0] in g;
    if g[0] in was {
      assert Elements(g) == newOnes + {g[0]} by {
        forall v | v in g && v != g[0] ensures v !in was {
          var k :| 0 <= k < |g| && g[k] == v;
        }
      }
    } else {
      assert Elements(g) == newOnes by {
        forall v | v in g ensures v !in was {
          var k :| 0 <= k < |g| && g[k] == v;
        }
      }
    }
  }

  lemma GroupFits(ess: seq<int>, was: seq<int>, g: seq<int>, n: nat)
    requires GroupOk(ess, was, g, n) && n > 0
    ensures n <= Room(ess, was, g)
  {
    NewMembers(ess, was, g, n);
    SmallerSet(Elements(g) - Elements(was), Spare(ess, was));
  }

  /** A group that has all servers of the pool has no room left. */
  lemma GroupExhausted(ess: seq<int>, was: seq<int>, g: seq<int>, n: nat)
    requires GroupOk(ess, was, g, n) && n > 0 && forall v :: v in ess ==> v in was + g
    ensures Room(ess, was, g) == n
  {
    NewMembers(ess, was, g, n);
    forall v | v in Spare(ess, was) ensures v in Elements(g) - Elements(was) {
      assert v in was + g;
    }
    assert Spare(ess, was) == Elements(g) - Elements(was);
  }

  // ---------- the exact outcome ----------

  /** Some group has no room for `copies` servers. */
  ghost predicate Short(ess: seq<int>, was: seq<seq<int>>, added: seq<seq<int>>, copies: nat)
    requires |was| == |added|
  {
    exists j :: 0 <= j < |was| && Room(ess, was[j], added[j]) < copies
  }

  lemma ShortMore(ess: seq<int>, was: seq<seq<int>>, added: seq<seq<int>>, n: nat, m: nat)
    requires |was| == |added| && n <= m && Short(ess, was, added, n)
    ensures Short(ess, was, added, m)
  {
    var j :| 0 <= j < |was| && Room(ess, was[j], added[j]) < n;
    assert Room(ess, was[j], added[j]) < m;
  }

  /** A filling that was to give every group n servers. */
  ghost predicate Outcome(ess: seq<int>, was: seq<seq<int>>, f: Filling, n: nat)
  {
    && Keeps(f.alloc, ess) && Tallied(f.added, f.alloc.counters) && Partial(ess, was, f.added)
    && (f.ok ==> Round(ess, was, f.added, 0, n))
    && (!f.ok ==> Short(ess, was, f.added, n))
  }

  lemma RoundEnds(a: Alloc, ess: seq<int>, was: seq<seq<int>>, added: seq<seq<int>>, i: nat, n: nat)
    requires Keeps(a, ess) && Round(ess, was, added, i, n) && Tallied(added, a.counters) && i >= |was|
    ensures Outcome(ess, was, Filling(a, added, true), n + 1)
  {
    RoundOver(ess, was, added, i, n);
    RoundIsPartial(ess, was, added, i, n);
  }

  lemma RoundStuck(a: Alloc, ess: seq<int>, was: seq<seq<int>>, added: seq<seq<int>>, i: nat, n: nat)
    requires n > 0 && Keeps(a, ess) && Round(ess, was, added, i, n) && Tallied(added, a.counters) && i < |was|
    requires forall v :: v in ess ==> v in was[i] + added[i]
    ensures Outcome(ess, was, Filling(a, added, false), n + 1)
  {
    assert GroupOk(ess, was[i], added[i], Got(i, n, i));
    GroupExhausted(ess, was[i], added[i], n);
    RoundIsPartial(ess, was, added, i, n);
  }

  lemma RoundGoesOn(ess: seq<int>, was: seq<seq<int>>, added: seq<seq<int>>, i: nat, n: nat, es: int, c: Counters)
    requires n > 0 && Round(ess, was, added, i, n) && Tallied(added, c) && i < |was|
    requires es in ess && es !in was[i] + added[i]
    ensures Round(ess, was, Join(added, i, es), i + 1, n) && Tallied(Join(added, i, es), Following(c, es))
  {
    assert GroupOk(ess, was[i], added[i], Got(i, n, i));
    RoundStep(ess, was, added, i, n, es);
    TalliedAfterJoin(added, i, es, c);
  }

  /** A state of the loops over the groups: the allocator, what was added, and where the loop stands. */
  datatype Loop = Loop(alloc: Alloc, added: seq<seq<int>>, at: nat)

  /** The step of a round takes `inv` to `inv`, or out of the loop to `post`. */
  ghost predicate RoundRule(rank: Rank, was: seq<seq<int>>, inv: Loop -> bool, post: Filling -> bool, l: Loop)
  {
    inv(l) && |l.added| == |was| ==>
      if l.at >= |was| then post(Filling(l.alloc, l.added, true))
      else
        var p := PickSecondary(rank, l.alloc, was[l.at] + l.added[l.at]);
        if p.es.None? then post(Filling(p.alloc, l.added, false))
        else inv(Loop(p.alloc, Join(l.added, l.at, p.es.value), l.at + 1))
  }

  lemma {:induction false} RoundLoop(rank: Rank, was: seq<seq<int>>, inv: Loop -> bool, post: Filling -> bool, l: Loop)
    requires |l.added| == |was| && inv(l) && forall k :: RoundRule(rank, was, inv, post, k)
    ensures post(Secondaries(rank, l.alloc, was, l.added, l.at))
    decreases |was| - l.at
  {
    assert RoundRule(rank, was, inv, post, l);
    if l.at < |was| {
      var p := PickSecondary(rank, l.alloc, was[l.at] + l.added[l.at]);
      if p.es.Some? {
        RoundLoop(rank, was, inv, post, Loop(p.alloc, Join(l.added, l.at, p.es.value), l.at + 1));
      }
    }
  }

  ghost predicate InRound(ess: seq<int>, was: seq<seq<int>>, l: Loop, n: nat)
  {
    Keeps(l.alloc, ess) && Round(ess, was, l.added, l.at, n) && Tallied(l.added, l.alloc.counters)
  }

  lemma InRoundStep(rank: Rank, ess: seq<int>, was: seq<seq<int>>, n: nat, l: Loop)
    requires n > 0 && InRound(ess, was, l, n) && |l.added| == |was| && l.at < |was|
    ensures var p := PickSecondary(rank, l.alloc, was[l.at] + l.added[l.at]);
            if p.es.None? then Outcome(ess, was, Filling(p.alloc, l.added, false), n + 1)
            else InRound(ess, was, Loop(p.alloc, Join(l.added, l.at, p.es.value), l.at + 1), n)
  {
    SecondaryPicked(rank, l.alloc, ess, was[l.at] + l.added[l.at]);
    var p := PickSecondary(rank, l.alloc, was[l.at] + l.added[l.at]);
    if p.es.None? {
      RoundStuck(p.alloc, ess, was, l.added, l.at, n);
    } else {
      RoundGoesOn(ess, was, l.added, l.at, n, p.es.value, l.alloc.counters);
    }
  }

  /** A round either succeeds for all groups or meets one with no room for another server. */
  lemma SecondariesGive(rank: Rank, a: Alloc, ess: seq<int>, was: seq<seq<int>>, added: seq<seq<int>>, n: nat)
    requires n > 0 && Keeps(a, ess) && Round(ess, was, added, 0, n) && Tallied(added, a.counters)
    ensures Outcome(ess, was, Secondaries(rank, a, was, added, 0), n + 1)
  {
    var inv := (l: Loop) => InRound(ess, was, l, n);
    var post := (f: Filling) => Outcome(ess, was, f, n + 1);
    forall l ensures RoundRule(rank, was, inv, post, l) {
      if inv(l) && |l.added| == |was| {
        if l.at >= |was| {
          RoundEnds(l.alloc, ess, was, l.added, l.at, n);
        } else {
          InRoundStep(rank, ess, was, n, l);
        }
      }
    }
    RoundLoop(rank, was, inv, post, Loop(a, added, 0));
  }

  /** One more round takes `post` on, and a failure keeps it. */
  ghost predicate RoundsRule(rank: Rank, was: seq<seq<int>>, post: (Filling, nat) -> bool, f: Filling, n: nat)
  {
    post(f, n) && |f.added| == |was| ==>
      post(if f.ok then Secondaries(rank, f.alloc, was, f.added, 0) else f, n + 1)
  }

  /** What the rounds come to from f on. */
  function RoundsFrom(rank: Rank, was: seq<seq<int>>, f: Filling, more: nat): Filling
    requires |f.added| == |was|
  {
    if f.ok then Rounds(rank, f.alloc, was, f.added, more) else f
  }

  lemma RoundsStep(rank: Rank, a: Alloc, was: seq<seq<int>>, added: seq<seq<int>>, more: nat, f: Filling)
    requires |added| == |was| && more > 0 && f == Secondaries(rank, a, was, added, 0)
    ensures |f.added| == |was| && Rounds(rank, a, was, added, more) == RoundsFrom(rank, was, f, more - 1)
  {
  }

  lemma RoundsUnfold(rank: Rank, was: seq<seq<int>>, post: (Filling, nat) -> bool, f: Filling, n: nat, more: nat)
    returns (g: Filling)
    requires |f.added| == |was| && more > 0 && post(f, n) && RoundsRule(rank, was, post, f, n)
    ensures |g.added| == |was| && post(g, n + 1) && RoundsFrom(rank, was, f, more) == RoundsFrom(rank, was, g, more - 1)
  {
    g := if f.ok then Secondaries(rank, f.alloc, was, f.added, 0) else f;
    if f.ok {
      RoundsStep(rank, f.alloc, was, f.added, more, g);
    }
  }

  lemma {:induction false} RoundsLoop(rank: Rank, was: seq<seq<int>>, post: (Filling, nat) -> bool, f: Filling, n: nat,
                                      more: nat)
    requires |f.added| == |was| && post(f, n) && forall g, k :: RoundsRule(rank, was, post, g, k)
    ensures post(RoundsFrom(rank, was, f, more), n + more)
    decreases more
  {
    if more == 0 {
      assert RoundsFrom(rank, was, f, 0) == f;
    } else {
      assert RoundsRule(rank, was, post, f, n);
      var g := RoundsUnfold(rank, was, post, f, n, more);
      RoundsLoop(rank, was, post, g, n + 1, more - 1);
    }
  }

  lemma RoundsGive(rank: Rank, a: Alloc, ess: seq<int>, was: seq<seq<int>>, added: seq<seq<int>>, n: nat, more: nat)
    requires n > 0 && Keeps(a, ess) && Round(ess, was, added, 0, n) && Tallied(added, a.counters)
    ensures Outcome(ess, was, Rounds(rank, a, was, added, more), n + more)
  {
    var post := (f: Filling, k: nat) => k > 0 && Outcome(ess, was, f, k);
    forall f, k ensures RoundsRule(rank, was, post, f, k) {
      if post(f, k) && |f.added| == |was| {
        NextRound(rank, ess, was, f, k);
      }
    }
    RoundIsPartial(ess, was, added, 0, n);
    RoundsLoop(rank, was, post, Filling(a, added, true), n, more);
  }

  lemma NextRound(rank: Rank, ess: seq<int>, was: seq<seq<int>>, f: Filling, n: nat)
    requires n > 0 && |f.added| == |was| && Outcome(ess, was, f, n)
    ensures Outcome(ess, was, if f.ok then Secondaries(rank, f.alloc, was, f.added, 0) else f, n + 1)
  {
    if f.ok {
      SecondariesGive(rank, f.alloc, ess, was, f.added, n);
    } else {
      ShortMore(ess, was, f.added, n, n + 1);
    }
  }

  lemma RoundNotShort(ess: seq<int>, was: seq<seq<int>>, added: seq<seq<int>>, n: nat)
    requires n > 0 && Round(ess, was, added, 0, n)
    ensures !Short(ess, was, added, n)
  {
    forall j | 0 <= j < |was| ensures n <= Room(ess, was[j], added[j]) {
      assert GroupOk(ess, was[j], added[j], n);
      GroupFits(ess, was[j], added[j], n);
    }
  }

  // ---------- when filling succeeds ----------

  /** Each group of b begins as that of a does. */
  predicate SameFirsts(a: seq<seq<int>>, b: seq<seq<int>>)
  {
    |a| == |b| && forall j | 0 <= j < |a| && a[j] != [] :: b[j] != [] && b[j][0] == a[j][0]
  }

  lemma JoinKeepsFirsts(a: seq<seq<int>>, b: seq<seq<int>>, i: nat, es: int)
    requires SameFirsts(a, b) && i < |b|
    ensures SameFirsts(a, Join(b, i, es))
  {
  }

  lemma SecondariesKeepFirsts(rank: Rank, f: Filling, was: seq<seq<int>>, base: seq<seq<int>>)
    requires |f.added| == |was| && SameFirsts(base, f.added)
    ensures SameFirsts(base, Secondaries(rank, f.alloc, was, f.added, 0).added)
  {
    var inv, post := (l: Loop) => SameFirsts(base, l.added), (g: Filling) => SameFirsts(base, g.added);
    forall l ensures RoundRule(rank, was, inv, post, l) {
      if inv(l) && |l.added| == |was| && l.at < |was| {
        var p := PickSecondary(rank, l.alloc, was[l.at] + l.added[l.at]);
        if p.es.Some? {
          JoinKeepsFirsts(base, l.added, l.at, p.es.value);
        }
      }
    }
    RoundLoop(rank, was, inv, post, Loop(f.alloc, f.added, 0));
  }

  lemma RoundsKeepFirsts(rank: Rank, a: Alloc, was: seq<seq<int>>, added: seq<seq<int>>, n: nat)
    requires |was| == |added|
    ensures SameFirsts(added, Rounds(rank, a, was, added, n).added)
  {
    var post := (f: Filling, k: nat) => SameFirsts(added, f.added);
    forall f, k ensures RoundsRule(rank, was, post, f, k) {
      if post(f, k) && |f.added| == |was| && f.ok {
        SecondariesKeepFirsts(rank, f, was, added);
      }
    }
    RoundsLoop(rank, was, post, Filling(a, added, true), 0, n);
  }

  lemma SameFirstsSameRoom(ess: seq<int>, was: seq<seq<int>>, a: seq<seq<int>>, b: seq<seq<int>>, n: nat)
    requires SameFirsts(a, b) && |was| == |a| && forall j | 0 <= j < |a| :: a[j] != []
    ensures Short(ess, was, a, n) <==> Short(ess, was, b, n)
  {
    forall j | 0 <= j < |was| ensures Room(ess, was[j], a[j]) == Room(ess, was[j], b[j]) {
    }
  }

  /** The primaries that n groups get, one each. */
  function FirstServers(rank: Rank, ess: seq<int>, n: nat): seq<seq<int>>
  {
    Primaries(rank, NewAlloc(rank, ess), Blank(n), 0).added
  }

  /** With the primaries they get, all groups have room for the copies asked for. */
  ghost predicate HasRoom(rank: Rank, ess: seq<int>, was: seq<seq<int>>, copies: nat)
  {
    var first := FirstServers(rank, ess, |was|);
    |first| == |was| && !Short(ess, was, first, copies)
  }

  lemma FillReads(rank: Rank, ess: seq<int>, was: seq<seq<int>>, replicas: nat)
    requires was != [] ==> ess != []
    ensures var f := Fill(rank, ess, was, replicas);
            && Outcome(ess, was, f, Copies(replicas))
            && (f.ok <==> !Short(ess, was, f.added, Copies(replicas)))
  {
    FillStarts(rank, ess, was);
    var f := Primaries(rank, NewAlloc(rank, ess), Blank(|was|), 0);
    RoundsGive(rank, f.alloc, ess, was, f.added, 1, Copies(replicas) - 1);
    var g := Fill(rank, ess, was, replicas);
    if g.ok {
      RoundNotShort(ess, was, g.added, Copies(replicas));
    }
  }

  /** After the primaries every group has one server. */
  lemma FillStarts(rank: Rank, ess: seq<int>, was: seq<seq<int>>)
    requires was != [] ==> ess != []
    ensures var f := Primaries(rank, NewAlloc(rank, ess), Blank(|was|), 0);
            f.ok && Keeps(f.alloc, ess) && Round(ess, was, f.added, 0, 1) && Tallied(f.added, f.alloc.counters)
  {
    var a := NewAlloc(rank, ess);
    NewAllocKeeps(rank, ess);
    BlankTallied(|was|, a.counters);
    if was != [] {
      PrimariesGive(rank, a, ess, was, Blank(|was|), 0);
    }
  }

  lemma FillKeepsFirsts(rank: Rank, ess: seq<int>, was: seq<seq<int>>, replicas: nat)
    requires was != [] ==> ess != []
    ensures var first := FirstServers(rank, ess, |was|);
            && |first| == |was| && SameFirsts(first, Fill(rank, ess, was, replicas).added)
            && forall j | 0 <= j < |was| :: first[j] != []
  {
    var f := Primaries(rank, NewAlloc(rank, ess), Blank(|was|), 0);
    FillStarts(rank, ess, was);
    RoundsKeepFirsts(rank, f.alloc, was, f.added, Copies(replicas) - 1);
    forall j | 0 <= j < |was| ensures f.added[j] != [] {
      assert GroupOk(ess, was[j], f.added[j], Got(0, 1, j));
    }
  }

  /**
   Filling succeeds exactly when every group has room for the copies asked for, and then each has got
   exactly that many different servers of the pool. The allocator's servers stay the same, and its
   counters are the numbers of groups each server was made to lead and to follow.
   */
  lemma FillGives(rank: Rank, ess: seq<int>, was: seq<seq<int>>, replicas: nat)
    requires was != [] ==> ess != []
    ensures var f := Fill(rank, ess, was, replicas);
            && Outcome(ess, was, f, Copies(replicas))
            && (f.ok <==> HasRoom(rank, ess, was, Copies(replicas)))
  {
    FillReads(rank, ess, was, replicas);
    FillKeepsFirsts(rank, ess, was, replicas);
    SameFirstsSameRoom(ess, was, FirstServers(rank, ess, |was|), Fill(rank, ess, was, replicas).added,
                       Copies(replicas));
  }

  /** For new groups this means: exactly when there are enough servers. */
  lemma NewGroupsFill(rank: Rank, ess: seq<int>, n: nat, replicas: nat)
    requires Distinct(ess) && (n > 0 ==> ess != [])
    ensures Fill(rank, ess, Blank(n), replicas).ok <==> n == 0 || Copies(replicas) <= |ess|
  {
    FillReads(rank, ess, Blank(n), replicas);
    ElementsSize(ess);
    assert Spare(ess, []) == Elements(ess);
    if n > 0 {
      assert Blank(n)[0] == [];
    }
  }

  // ---------- the group map ----------

  /** What a group has before it is filled: nothing if it is made anew. */
  function Before<K>(groups: map<K, seq<int>>, made: set<K>, x: K): seq<int>
  {
    if x in groups && x !in made then groups[x] else []
  }

  function BeforeAll<K>(groups: map<K, seq<int>>, made: set<K>, keys: seq<K>): (was: seq<seq<int>>)
    ensures |was| == |keys|
  {
    seq(|keys|, i requires 0 <= i < |keys| => Before(groups, made, keys[i]))
  }

  function Served<K(==)>(keys: seq<K>, was: seq<seq<int>>, added: seq<seq<int>>): map<K, seq<int>>
    requires Distinct(keys) && |was| == |added| == |keys|
  {
    map i | 0 <= i < |keys| :: keys[i] := was[i] + added[i]
  }

  /** The group map after filling, and whether that succeeded; `keys` lists the map and the groups made anew. */
  datatype FilledMap<K> = FilledMap(groups: map<K, seq<int>>, ok: bool)

  function FillMap<K(==)>(rank: Rank, ess: seq<int>, groups: map<K, seq<int>>, made: set<K>, keys: seq<K>,
                          replicas: nat): FilledMap<K>
    requires Distinct(keys)
  {
    var was := BeforeAll(groups, made, keys);
    var f := Fill(rank, ess, was, replicas);
    FillCount(rank, ess, was, replicas);
    FilledMap(Served(keys, was, f.added), f.ok)
  }

  lemma RoundsCount(rank: Rank, a: Alloc, was: seq<seq<int>>, added: seq<seq<int>>, n: nat)
    requires |was| == |added|
    ensures |Rounds(rank, a, was, added, n).added| == |was|
  {
    var post := (f: Filling, k: nat) => |f.added| == |was|;
    forall f, k ensures RoundsRule(rank, was, post, f, k) {
    }
    RoundsLoop(rank, was, post, Filling(a, added, true), 0, n);
  }

  lemma FillCount(rank: Rank, ess: seq<int>, was: seq<seq<int>>, replicas: nat)
    ensures |Fill(rank, ess, was, replicas).added| == |was|
  {
    var a := NewAlloc(rank, ess);
    PrimariesCount(rank, a, Blank(|was|), 0);
    var f := Primaries(rank, a, Blank(|was|), 0);
    RoundsCount(rank, f.alloc, was, f.added, Copies(replicas) - 1);
  }

  /** The group has got different servers of the pool, of which all but the first are none it had. */
  ghost predicate Grown(ess: seq<int>, was: seq<int>, now: seq<int>)
  {
    was <= now && GroupOk(ess, was, now[|was|..], |now| - |was|)
  }

  lemma GrownByAdded(ess: seq<int>, was: seq<int>, g: seq<int>, n: nat)
    requires GroupOk(ess, was, g, n)
    ensures Grown(ess, was, was + g)
  {
    assert (was + g)[|was|..] == g;
  }

  /** What filling does to the group map, whether it succeeds or not. */
  ghost predicate MapFilled<K(!new)>(ess: seq<int>, groups: map<K, seq<int>>, made: set<K>, keys: seq<K>, copies: nat,
                                     r: FilledMap<K>)
  {
    && (forall x :: x in r.groups <==> x in keys)
    && (forall x | x in r.groups :: Grown(ess, Before(groups, made, x), r.groups[x]))
    && (r.ok ==> forall x | x in r.groups :: |r.groups[x]| == |Before(groups, made, x)| + copies)
  }

  lemma FillMapGives<K(!new)>(rank: Rank, ess: seq<int>, groups: map<K, seq<int>>, made: set<K>, keys: seq<K>,
                              replicas: nat)
    requires Distinct(keys) && (keys != [] ==> ess != [])
    ensures MapFilled(ess, groups, made, keys, Copies(replicas), FillMap(rank, ess, groups, made, keys, replicas))
    ensures FillMap(rank, ess, groups, made, keys, replicas).ok
            <==> HasRoom(rank, ess, BeforeAll(groups, made, keys), Copies(replicas))
  {
    var was := BeforeAll(groups, made, keys);
    var f := Fill(rank, ess, was, replicas);
    var r := FillMap(rank, ess, groups, made, keys, replicas);
    FillGives(rank, ess, was, replicas);
    forall x | x in r.groups
      ensures Grown(ess, Before(groups, made, x), r.groups[x])
      ensures r.ok ==> |r.groups[x]| == |Before(groups, made, x)| + Copies(replicas)
    {
      var i :| 0 <= i < |keys| && keys[i] == x;
      GrownByAdded(ess, was[i], f.added[i], |f.added[i]|);
      if r.ok {
        assert GroupOk(ess, was[i], f.added[i], Got(0, Copies(replicas), i));
      }
    }
  }

  // ---------- totals over the pool ----------

  function Sum(vs: seq<int>, m: map<int, nat>): nat
  {
    if vs == [] then 0 else Sum(vs[..|vs| - 1], m) + At(m, vs[|vs| - 1])
  }

  function SumLeads(vs: seq<int>, groups: seq<seq<int>>): nat
  {
    if vs == [] then 0 else SumLeads(vs[..|vs| - 1], groups) + Leads(groups, vs[|vs| - 1])
  }

  function SumFollows(vs: seq<int>, groups: seq<seq<int>>): nat
  {
    if vs == [] then 0 else SumFollows(vs[..|vs| - 1], groups) + Follows(groups, vs[|vs| - 1])
  }

  /** How many of vs are in g. */
  function Among(vs: seq<int>, g: seq<int>): nat
  {
    if vs == [] then 0 else Among(vs[..|vs| - 1], g) + if vs[|vs| - 1] in g then 1 else 0
  }

  lemma {:induction false} AmongNone(vs: seq<int>)
    ensures Among(vs, []) == 0
  {
    if vs != [] {
      AmongNone(vs[..|vs| - 1]);
    }
  }

  lemma {:induction false} AmongOneMore(vs: seq<int>, g: seq<int>, v: int)
    requires Distinct(vs) && v !in g
    ensures Among(vs, g + [v]) == Among(vs, g) + if v in vs then 1 else 0
  {
    if vs != [] {
      var n := |vs| - 1;
      AmongOneMore(vs[..n], g, v);
      assert vs == vs[..n] + [vs[n]];
    }
  }

  lemma {:induction false} AmongAll(vs: seq<int>, g: seq<int>)
    requires Distinct(vs) && Distinct(g) && forall v :: v in g ==> v in vs
    ensures Among(vs, g) == |g|
  {
    if g == [] {
      AmongNone(vs);
    } else {
      var n := |g| - 1;
      AmongAll(vs, g[..n]);
      assert g == g[..n] + [g[n]];
      AmongOneMore(vs, g[..n], g[n]);
      assert g[n] in g;
    }
  }

  lemma {:induction false} SumsOneGroup(vs: seq<int>, groups: seq<seq<int>>)
    requires groups != [] && groups[|groups| - 1] != []
    ensures var g := groups[|groups| - 1];
            && SumLeads(vs, groups) == SumLeads(vs, groups[..|groups| - 1]) + Among(vs, [g[0]])
            && SumFollows(vs, groups) == SumFollows(vs, groups[..|groups| - 1]) + Among(vs, g[1..])
  {
    if vs != [] {
      SumsOneGroup(vs[..|vs| - 1], groups);
    }
  }

  lemma {:induction false} SumsBlank(vs: seq<int>)
    ensures SumLeads(vs, []) == 0 && SumFollows(vs, []) == 0
  {
    if vs != [] {
      SumsBlank(vs[..|vs| - 1]);
    }
  }

  lemma {:induction false} SumsOfGroups(vs: seq<int>, groups: seq<seq<int>>, replicas: nat)
    requires Distinct(vs) && replicas > 0 && forall g :: g in groups ==> GroupOk(vs, [], g, replicas)
    ensures SumLeads(vs, groups) == |groups|
    ensures SumFollows(vs, groups) == |groups| * (replicas - 1)
  {
    if groups == [] {
      SumsBlank(vs);
    } else {
      var n := |groups| - 1;
      var g := groups[n];
      assert g in groups && GroupOk(vs, [], g, replicas);
      SumsOfGroups(vs, groups[..n], replicas);
      SumsOneGroup(vs, groups);
      OneGroup(vs, g, replicas);
      OneMoreTimes(n, replicas - 1);
    }
  }

  lemma OneGroup(vs: seq<int>, g: seq<int>, replicas: nat)
    requires Distinct(vs) && replicas > 0 && GroupOk(vs, [], g, replicas)
    ensures Among(vs, [g[0]]) == 1 && Among(vs, g[1..]) == replicas - 1
  {
    AmongAll(vs, [g[0]]);
    AmongAll(vs, g[1..]);
  }

  lemma OneMoreTimes(n: nat, k: nat)
    ensures (n + 1) * k == n * k + k
  {
  }

  lemma {:induction false} SumsTallied(vs: seq<int>, groups: seq<seq<int>>, c: Counters)
    requires Tallied(groups, c)
    ensures Sum(vs, c.pri) == SumLeads(vs, groups) && Sum(vs, c.sec) == SumFollows(vs, groups)
  {
    if vs != [] {
      SumsTallied(vs[..|vs| - 1], groups, c);
    }
  }

  /** Over the pool, the primaries add up to the groups and the secondaries to the other replicas. */
  lemma PlacementTotals(ess: seq<int>, groups: seq<seq<int>>, replicas: nat, c: Counters)
    requires Distinct(ess) && replicas > 0 && (forall g :: g in groups ==> GroupOk(ess, [], g, replicas))
    requires Tallied(groups, c)
    ensures Sum(ess, c.pri) == |groups| && Sum(ess, c.sec) == |groups| * (replicas - 1)
  {
    SumsTallied(ess, groups, c);
    SumsOfGroups(ess, groups, replicas);
  }
}
