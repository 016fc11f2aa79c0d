/**
 A pool across restarts. What is in memory and what the store holds can differ: groups are stored in
 batches, any of which may fail, and the pool's own record is written last. A restart takes everything
 from the store and builds the heaps over the groups it finds, also of a pool that is not set up.
 */
module PoolRestart {
  import opened Pools

  /**
   `standing` are the groups that stand in the heaps, `found` those the last restart found, and `setUp`
   says whether the pool was set up since then.
   */
  datatype Node = Node(mem: Pool, disk: Pool, standing: multiset<string>, found: set<string>, setUp: bool)

  /** Set-up fills the groups or not, and then stores some of them, or all and the pool's record. */
  datatype Step =
    | Manage(op: Op, fails: bool)
    | Init(groups: map<string, seq<int>>, filled: bool, stored: set<string>, fails: bool)
    | Restart

  /** `renewed` are the groups that set-up makes anew for so many servers. */
  ghost predicate Permitted(renewed: nat -> set<string>, n: Node, s: Step)
  {
    match s
    case Manage(op, _) => op.UpdatePool? || op.SoftDeletePool? || op.CreateEs? || op.DeleteEs?
    case Init(groups, filled, stored, _) =>
      Startable(n.mem) ==>
        && stored <= groups.Keys
        && (|| Filled(n.mem.groups, groups, renewed(|n.mem.servers|), n.mem.servers.Keys)
            || (!filled && groups == n.mem.groups))
    case Restart => true
  }

  /** The pool's record is written as it is in memory. */
  function Recorded(disk: Pool, mem: Pool): Pool
  {
    disk.(name := mem.name, status := mem.status, replicas := mem.replicas, esNum := mem.esNum)
  }

  /** Servers are written when they come or go; other changes write the record, unless the pool is disabled. */
  function OnDisk(n: Node, op: Op, fails: bool): Pool
    requires !op.CreatePool? && !op.DeletePool?
  {
    var mem := Changed(n.mem, op, fails);
    if op.CreateEs? || op.DeleteEs? then n.disk.(servers := mem.servers)
    else if fails || n.mem.status == Disabled then n.disk
    else Recorded(n.disk, mem)
  }

  function Only(groups: map<string, seq<int>>, ids: set<string>): map<string, seq<int>>
  {
    map g | g in groups && g in ids :: groups[g]
  }

  function SetUp(n: Node, groups: map<string, seq<int>>, filled: bool, stored: set<string>, fails: bool): Node
    requires Startable(n.mem)
  {
    var ok := filled && stored == groups.Keys;
    var mem := Changed(n.mem, InitPool(groups, ok), fails);
    var disk := if filled then n.disk.(groups := n.disk.groups + Only(groups, stored)) else n.disk;
    if !ok then n.(mem := mem, disk := disk)
    else
      n.(mem := mem, disk := if fails then disk else Recorded(disk, mem),
         standing := n.standing + multiset(groups.Keys), setUp := true)
  }

  function Next(n: Node, s: Step): Node
    requires s.Manage? ==> !s.op.CreatePool? && !s.op.DeletePool?
  {
    match s
    case Manage(op, fails) => n.(mem := Changed(n.mem, op, fails), disk := OnDisk(n, op, fails))
    case Init(groups, filled, stored, fails) =>
      if Startable(n.mem) then SetUp(n, groups, filled, stored, fails) else n
    case Restart =>
      Node(n.disk.(clean := n.mem.clean), n.disk, multiset(n.disk.groups.Keys), n.disk.groups.Keys, false)
  }

  // ---------- what every run keeps ----------

  /** Memory and store: servers agree, stored groups are known, and those of a pool that was set up agree. */
  predicate Synced(n: Node)
  {
    && n.mem.servers == n.disk.servers && n.disk.groups.Keys <= n.mem.groups.Keys
    && Stage(n.disk.status) <= Stage(n.mem.status)
    && (n.mem.status == Enabled || n.disk.status == Enabled ==>
          n.disk.groups == n.mem.groups && (n.mem.clean ==> Covered(n.mem)))
  }

  /** The heaps: what the last restart found, and all groups once more if the pool was set up since. */
  predicate Standing(n: Node)
  {
    && n.standing == multiset(n.found) + (if n.setUp then multiset(n.mem.groups.Keys) else multiset{})
    && n.found <= n.mem.groups.Keys
    && (n.setUp ==> n.mem.status != Created)
    && (!n.setUp && n.mem.status == Enabled ==> n.found == n.mem.groups.Keys)
  }

  lemma ManageSynced(n: Node, op: Op, fails: bool)
    requires Synced(n) && Standing(n) && (op.UpdatePool? || op.SoftDeletePool? || op.CreateEs? || op.DeleteEs?)
    ensures Synced(Next(n, Manage(op, fails))) && Standing(Next(n, Manage(op, fails)))
  {
  }

  lemma AllStored(was: map<string, seq<int>>, groups: map<string, seq<int>>)
    requires was.Keys <= groups.Keys
    ensures was + Only(groups, groups.Keys) == groups
  {
    assert Only(groups, groups.Keys) == groups;
  }

  lemma SetUpFails(renewed: nat -> set<string>, n: Node, s: Step)
    requires Synced(n) && Standing(n) && s.Init? && Startable(n.mem) && Permitted(renewed, n, s)
    requires !s.filled || s.stored != s.groups.Keys
    ensures Synced(Next(n, s)) && Standing(Next(n, s))
  {
    assert n.mem.groups.Keys <= s.groups.Keys;
    assert (n.disk.groups + Only(s.groups, s.stored)).Keys <= s.groups.Keys;
  }

  lemma SetUpCovers(renewed: nat -> set<string>, n: Node, s: Step)
    requires s.Init? && Startable(n.mem) && Permitted(renewed, n, s) && s.filled && n.mem.groups == map[]
    ensures forall g | g in s.groups :: Within(s.groups[g], n.mem.servers.Keys)
  {
    FilledWithinIff(n.mem.groups, s.groups, renewed(|n.mem.servers|), n.mem.servers.Keys);
  }

  lemma SetUpSucceeds(renewed: nat -> set<string>, n: Node, s: Step)
    requires Synced(n) && Standing(n) && s.Init? && Startable(n.mem) && Permitted(renewed, n, s)
    requires s.filled && s.stored == s.groups.Keys
    ensures Synced(Next(n, s)) && Standing(Next(n, s))
  {
    assert n.mem.groups.Keys <= s.groups.Keys;
    AllStored(n.disk.groups, s.groups);
    if n.mem.groups == map[] {
      SetUpCovers(renewed, n, s);
    }
    assert !n.setUp && n.standing == multiset(n.found);
  }

  /** Every step, restarts included, keeps memory and store in step as far as that goes. */
  lemma StepSynced(renewed: nat -> set<string>, n: Node, s: Step)
    requires Synced(n) && Standing(n) && Permitted(renewed, n, s)
    ensures Synced(Next(n, s)) && Standing(Next(n, s))
  {
    match s
    case Manage(op, fails) => ManageSynced(n, op, fails);
    case Init(_, _, _, _) =>
      if Startable(n.mem) {
        if s.filled && s.stored == s.groups.Keys {
          SetUpSucceeds(renewed, n, s);
        } else {
          SetUpFails(renewed, n, s);
        }
      }
    case Restart =>
  }

  ghost predicate AllPermitted(renewed: nat -> set<string>, n: Node, steps: seq<Step>)
    decreases steps
  {
    steps == [] || (Permitted(renewed, n, steps[0]) && AllPermitted(renewed, Next(n, steps[0]), steps[1..]))
  }

  ghost function Run(renewed: nat -> set<string>, n: Node, steps: seq<Step>): Node
    requires AllPermitted(renewed, n, steps)
    decreases steps
  {
    if steps == [] then n else Run(renewed, Next(n, steps[0]), steps[1..])
  }

  lemma {:induction false} RunSynced(renewed: nat -> set<string>, n: Node, steps: seq<Step>)
    requires Synced(n) && Standing(n) && AllPermitted(renewed, n, steps)
    ensures Synced(Run(renewed, n, steps)) && Standing(Run(renewed, n, steps))
    decreases steps
  {
    if steps != [] {
      StepSynced(renewed, n, steps[0]);
      RunSynced(renewed, Next(n, steps[0]), steps[1..]);
    }
  }

  // ---------- the pool's record ----------

  /** The record says the same of both. */
  predicate SameRecord(p: Pool, q: Pool)
  {
    p.name == q.name && p.status == q.status && p.replicas == q.replicas && p.esNum == q.esNum
  }

  predicate WriteFails(s: Step)
  {
    !s.Restart? && s.fails
  }

  /** The stored record stays that of the pool in memory exactly unless a step changes it whose write fails. */
  lemma StepRecordsIff(renewed: nat -> set<string>, n: Node, s: Step)
    requires Permitted(renewed, n, s) && SameRecord(n.disk, n.mem)
    ensures var n' := Next(n, s);
            SameRecord(n'.disk, n'.mem) <==> !(WriteFails(s) && !SameRecord(n.mem, n'.mem))
  {
    if s.Init? && Startable(n.mem) {
      var ok := s.filled && s.stored == s.groups.Keys;
      assert Changed(n.mem, InitPool(s.groups, ok), s.fails).status == if ok then Enabled else Created;
    }
  }

  /** So in every run without failing writes memory and store say the same of the pool. */
  lemma {:induction false} RunRecords(renewed: nat -> set<string>, n: Node, steps: seq<Step>)
    requires AllPermitted(renewed, n, steps) && SameRecord(n.disk, n.mem)
    requires forall i | 0 <= i < |steps| :: !WriteFails(steps[i])
    ensures var n' := Run(renewed, n, steps); SameRecord(n'.disk, n'.mem)
    decreases steps
  {
    if steps != [] {
      StepRecordsIff(renewed, n, steps[0]);
      RunRecords(renewed, Next(n, steps[0]), steps[1..]);
    }
  }

  function Newborn(name: string, replicas: nat, esNum: nat): Node
  {
    var p := Pool(name, Created, replicas, esNum, map[], map[], true);
    Node(p, p, multiset{}, {}, false)
  }

  // ---------- what a restart does ----------

  /**
   In every run with any failures and restarts: a restart of an enabled pool keeps its servers and groups,
   and so whether they are covered; it is still enabled exactly if its record could be written.
   */
  lemma RestartKeeps(renewed: nat -> set<string>, name: string, replicas: nat, esNum: nat, steps: seq<Step>)
    requires AllPermitted(renewed, Newborn(name, replicas, esNum), steps)
    ensures var n := Run(renewed, Newborn(name, replicas, esNum), steps);
            var n' := Next(n, Restart);
            n.mem.status == Enabled ==>
              && n'.mem.servers == n.mem.servers && n'.mem.groups == n.mem.groups
              && (Covered(n'.mem) <==> Covered(n.mem))
              && (n'.mem.status == Enabled <==> n.disk.status == Enabled)
  {
    RunSynced(renewed, Newborn(name, replicas, esNum), steps);
  }

  /** And an enabled pool that was set up from an empty group map is covered, restarts or not. */
  lemma CoveredAcrossRestarts(renewed: nat -> set<string>, name: string, replicas: nat, esNum: nat, steps: seq<Step>)
    requires AllPermitted(renewed, Newborn(name, replicas, esNum), steps)
    ensures var p := Run(renewed, Newborn(name, replicas, esNum), steps).mem;
            p.status == Enabled && p.clean ==> Covered(p)
  {
    RunSynced(renewed, Newborn(name, replicas, esNum), steps);
  }

  // ---------- groups that stand twice ----------

  lemma Twice(a: set<string>, b: set<string>)
    ensures multiset(a) + multiset(b) == multiset(b) <==> a == {}
    ensures forall g :: (multiset(a) + multiset(b))[g] == 2 <==> g in a && g in b
  {
    if a != {} {
      var g :| g in a;
      assert (multiset(a) + multiset(b))[g] == 1 + multiset(b)[g];
    }
  }

  /**
   In every run: the groups of an enabled pool stand in the heaps once each exactly if it was not set up
   since the last restart, or that restart found no groups; else the ones it found stand twice.
   */
  lemma SingleIff(renewed: nat -> set<string>, name: string, replicas: nat, esNum: nat, steps: seq<Step>)
    requires AllPermitted(renewed, Newborn(name, replicas, esNum), steps)
    ensures var n := Run(renewed, Newborn(name, replicas, esNum), steps);
            n.mem.status == Enabled ==>
              && (n.standing == multiset(n.mem.groups.Keys) <==> !n.setUp || n.found == {})
              && forall g :: n.standing[g] == 2 <==> n.setUp && g in n.found
  {
    var n := Run(renewed, Newborn(name, replicas, esNum), steps);
    RunSynced(renewed, Newborn(name, replicas, esNum), steps);
    Twice(n.found, n.mem.groups.Keys);
    assert multiset(n.found) + multiset{} == multiset(n.found);
  }

  /** A set-up whose last write fails, a restart, and a set-up again: every group of the first stands twice. */
  lemma LostRecordDoubles(renewed: nat -> set<string>, n: Node, groups: map<string, seq<int>>,
                          again: map<string, seq<int>>, fails: bool)
    requires Synced(n) && Standing(n) && Startable(n.mem) && n.disk.esNum == n.mem.esNum
    requires Filled(n.mem.groups, groups, renewed(|n.mem.servers|), n.mem.servers.Keys)
    requires Filled(groups, again, renewed(|n.mem.servers|), n.mem.servers.Keys)
    ensures var steps := [Init(groups, true, groups.Keys, true), Restart, Init(again, true, again.Keys, fails)];
            && AllPermitted(renewed, n, steps)
            && var n' := Run(renewed, n, steps);
            n'.mem.status == Enabled && forall g | g in groups :: n'.standing[g] == 2
  {
    var a, b, c := Init(groups, true, groups.Keys, true), Restart, Init(again, true, again.Keys, fails);
    AllStored(n.disk.groups, groups);
    var n1 := Next(n, a);
    var n2 := Next(n1, b);
    assert n1.disk.groups == groups && n2.mem.groups == groups && n2.mem.servers == n.mem.servers;
    ThreeSteps(renewed, n, a, b, c);
    Twice(groups.Keys, again.Keys);
  }

  lemma FirstStep(renewed: nat -> set<string>, n: Node, a: Step, rest: seq<Step>)
    requires Permitted(renewed, n, a) && AllPermitted(renewed, Next(n, a), rest)
    ensures AllPermitted(renewed, n, [a] + rest)
    ensures Run(renewed, n, [a] + rest) == Run(renewed, Next(n, a), rest)
  {
    assert ([a] + rest)[1..] == rest;
  }

  lemma ThreeSteps(renewed: nat -> set<string>, n: Node, a: Step, b: Step, c: Step)
    requires Permitted(renewed, n, a) && Permitted(renewed, Next(n, a), b)
    requires Permitted(renewed, Next(Next(n, a), b), c)
    ensures AllPermitted(renewed, n, [a, b, c]) && Run(renewed, n, [a, b, c]) == Next(Next(Next(n, a), b), c)
  {
    FirstStep(renewed, Next(Next(n, a), b), c, []);
    FirstStep(renewed, Next(n, a), b, [c] + []);
    FirstStep(renewed, n, a, [b] + ([c] + []));
    assert [a] + ([b] + ([c] + [])) == [a, b, c];
  }
}
