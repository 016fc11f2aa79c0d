/**
 The recycling buffer: units come from a ring of free units or, up to a cap, from the arena. Threads
 interleave between the ring, the load and compare-and-swap of the unit count, and the arena.
 */
module MemBuffers {
  import opened Common

  /** Where a thread stands in a call that asks for `num` units. */
  datatype Pc =
    | Idle
    | Loading(num: nat)
    | Loaded(num: nat, seen: nat)
    | Allocating(num: nat)

  /** Units are numbered in the order the arena makes them; `held` are those the callers have. */
  datatype State = State(ring: seq<nat>, count: nat, threads: seq<Pc>, held: set<nat>, next: nat)

  datatype Action =
    | Get(num: nat)
    | GetBurst(most: nat)
    | Load
    | Cas(spurious: bool)
    | Allocate(mem: bool)
    | Put(units: seq<nat>)

  datatype Move = Move(thread: nat, action: Action)

  /** What a call returns when it ends with this move. */
  datatype Event = Nothing | Given(given: seq<nat>) | Full | NoMemory | Returned

  datatype Result = Result(state: State, event: Event)

  /** Callers ask for at least one unit and return, once, only units they hold. */
  predicate Permitted(s: State, m: Move)
  {
    && m.thread < |s.threads|
    && var pc := s.threads[m.thread];
    match m.action
    case Get(num) => pc.Idle? && num > 0
    case GetBurst(_) => pc.Idle?
    case Load => pc.Loading?
    case Cas(_) => pc.Loaded?
    case Allocate(_) => pc.Allocating?
    case Put(units) => pc.Idle? && units != [] && Distinct(units) && Elements(units) <= s.held
  }

  function Fresh(from: nat, num: nat): seq<nat>
  {
    seq(num, i => from + i)
  }

  function Goto(s: State, t: nat, pc: Pc): State
    requires t < |s.threads|
  {
    s.(threads := s.threads[t := pc])
  }

  function Take(s: State, num: nat): State
    requires num <= |s.ring|
  {
    s.(ring := s.ring[num..], held := s.held + Elements(s.ring[..num]))
  }

  function Next(size: nat, s: State, m: Move): Result
    requires Permitted(s, m)
  {
    var t, pc := m.thread, s.threads[m.thread];
    match m.action
    case Get(num) =>
      if num <= |s.ring| then Result(Take(s, num), Given(s.ring[..num])) else Result(Goto(s, t, Loading(num)), Nothing)
    case GetBurst(most) =>
      var num := if most < |s.ring| then most else |s.ring|;
      Result(Take(s, num), Given(s.ring[..num]))
    case Load =>
      if s.count >= size then Result(Goto(s, t, Idle), Full) else Result(Goto(s, t, Loaded(pc.num, s.count)), Nothing)
    case Cas(spurious) =>
      if s.count == pc.seen && !spurious then
        Result(Goto(s, t, Allocating(pc.num)).(count := pc.seen + pc.num), Nothing)
      else Result(Goto(s, t, Loading(pc.num)), Nothing)
    case Allocate(mem) =>
      if !mem then Result(Goto(s, t, Idle).(count := if s.count >= pc.num then s.count - pc.num else 0), NoMemory)
      else
        var units := Fresh(s.next, pc.num);
        Result(Goto(s, t, Idle).(held := s.held + Elements(units), next := s.next + pc.num), Given(units))
    case Put(units) =>
      if |s.ring| + |units| > size then Result(s, Full)
      else Result(s.(ring := s.ring + units, held := s.held - Elements(units)), Returned)
  }

  // ---------- what a call comes back with ----------

  /** How many units the thread is waiting for, if it is in a call. */
  function Asking(pc: Pc): seq<nat>
  {
    if pc.Idle? then [] else [pc.num]
  }

  /** The answer to a request for `num` units that the ring could not serve: that many new ones, or none. */
  predicate Answers(size: nat, s: State, num: nat, e: Event)
  {
    match e
    case Given(units) => |units| == num && forall x | x in units :: x >= s.next
    case Full => s.count >= size
    case NoMemory => true
    case _ => false
  }

  /**
   A request is served from the front of the ring at once if there are enough free units, and waits
   with its number of units otherwise. From then on a move of its thread ends it with an answer or
   leaves it waiting for as many units; other threads are not touched.
   */
  lemma StepAnswers(size: nat, s: State, m: Move, t: nat)
    requires Permitted(s, m) && t < |s.threads|
    ensures var r := Next(size, s, m);
            var before, after := Asking(s.threads[t]), Asking(r.state.threads[t]);
            if t != m.thread then r.state.threads[t] == s.threads[t]
            else if m.action.Get? && m.action.num > |s.ring| then
              r.event == Nothing && after == [m.action.num] && r.state.ring == s.ring && r.state.held == s.held
            else if m.action.Get? || m.action.GetBurst? then
              var num := if m.action.Get? then m.action.num else Min(m.action.most, |s.ring|);
              r.event == Given(s.ring[..num]) && r.state.ring == s.ring[num..] && after == []
            else if m.action.Put? then after == [] && (r.event == Full <==> |s.ring| + |m.action.units| > size)
            else if r.event == Nothing then after == before
            else after == [] && Answers(size, s, before[0], r.event)
  {
    if m.action.Allocate? && m.action.mem {
      var num := s.threads[m.thread].num;
      FreshElements(s.next, num);
      forall x | x in Fresh(s.next, num) ensures x >= s.next {
        assert x in Elements(Fresh(s.next, num));
      }
    }
  }

  /** With room under the cap and no one in between, a request that has to wait gets new units in three moves. */
  lemma WaitingIsServed(size: nat, s: State, t: nat)
    requires t < |s.threads| && s.threads[t].Loading? && s.count < size
    ensures var s1 := Next(size, s, Move(t, Load)).state;
            && Permitted(s1, Move(t, Cas(false)))
            && var s2 := Next(size, s1, Move(t, Cas(false))).state;
            && Permitted(s2, Move(t, Allocate(true)))
            && Next(size, s2, Move(t, Allocate(true))).event == Given(Fresh(s.next, s.threads[t].num))
  {
  }

  // ---------- conservation ----------

  function Weight(pc: Pc): nat
  {
    if pc.Allocating? then pc.num else 0
  }

  /** Units counted by threads that are still allocating them. */
  function Pending(threads: seq<Pc>): nat
  {
    if threads == [] then 0 else Pending(threads[..|threads| - 1]) + Weight(threads[|threads| - 1])
  }

  lemma {:induction false} PendingUpdate(threads: seq<Pc>, t: nat, pc: Pc)
    requires t < |threads|
    ensures Pending(threads[t := pc]) == Pending(threads) - Weight(threads[t]) + Weight(pc)
    ensures Pending(threads) >= Weight(threads[t])
    decreases |threads|
  {
    var last := |threads| - 1;
    if t == last {
      assert threads[t := pc][..last] == threads[..last];
    } else {
      assert threads[t := pc][..last] == threads[..last][t := pc];
      PendingUpdate(threads[..last], t, pc);
    }
  }

  /** No unit is in two places. */
  predicate Apart(s: State)
  {
    && Distinct(s.ring) && Elements(s.ring) !! s.held
    && (forall x | x in s.ring :: x < s.next) && (forall x | x in s.held :: x < s.next)
  }

  /** Free units, held units and units being allocated make up the count. */
  predicate Conserved(s: State)
  {
    |s.ring| + |s.held| + Pending(s.threads) == s.count
  }

  /** No call asks for more than n units, and the count is bounded accordingly. */
  predicate Capped(size: nat, n: nat, s: State)
  {
    && s.count <= (if size == 0 then 0 else size - 1 + n)
    && (forall t | 0 <= t < |s.threads| :: PcCapped(size, n, s.threads[t]))
  }

  predicate PcCapped(size: nat, n: nat, pc: Pc)
  {
    match pc
    case Idle => true
    case Loading(num) => num <= n
    case Loaded(num, seen) => num <= n && seen < size
    case Allocating(num) => num <= n
  }

  predicate Inv(size: nat, n: nat, s: State)
  {
    Apart(s) && Conserved(s) && Capped(size, n, s)
  }

  lemma SplitElements(s: seq<nat>, k: nat)
    requires Distinct(s) && k <= |s|
    ensures Distinct(s[..k]) && Distinct(s[k..]) && Elements(s[..k]) !! Elements(s[k..])
    ensures Elements(s) == Elements(s[..k]) + Elements(s[k..])
  {
  }

  lemma FreshElements(from: nat, num: nat)
    ensures Distinct(Fresh(from, num)) && forall x :: x in Elements(Fresh(from, num)) <==> from <= x < from + num
  {
    forall x | from <= x < from + num ensures x in Elements(Fresh(from, num)) {
      assert Fresh(from, num)[x - from] == x;
    }
  }

  lemma MoveBetween(free: set<nat>, rest: set<nat>, taken: set<nat>, held: set<nat>)
    requires free == taken + rest && taken !! rest && free !! held
    ensures rest !! (held + taken) && |held + taken| == |held| + |taken| && taken !! held
  {
  }

  lemma TakeKeeps(s: State, num: nat)
    requires Apart(s) && num <= |s.ring|
    ensures var s' := Take(s, num);
            Apart(s') && |s'.ring| + |s'.held| == |s.ring| + |s.held| && Elements(s.ring[..num]) !! s.held
  {
    SplitElements(s.ring, num);
    ElementsSize(s.ring[..num]);
    MoveBetween(Elements(s.ring), Elements(s.ring[num..]), Elements(s.ring[..num]), s.held);
    TakeBelow(s, num);
  }

  lemma TakeBelow(s: State, num: nat)
    requires Apart(s) && num <= |s.ring|
    ensures forall x | x in s.ring[num..] :: x < s.next
    ensures forall x | x in s.held + Elements(s.ring[..num]) :: x < s.next
  {
    assert forall x | x in s.ring[num..] :: x in s.ring;
    assert forall x | x in s.ring[..num] :: x in s.ring;
  }

  lemma PutKeeps(s: State, units: seq<nat>)
    requires Apart(s) && Distinct(units) && Elements(units) <= s.held
    ensures var s' := s.(ring := s.ring + units, held := s.held - Elements(units));
            Apart(s') && |s'.ring| + |s'.held| == |s.ring| + |s.held|
  {
    var ring := s.ring + units;
    ElementsSize(units);
    forall i, j | 0 <= i < j < |ring| ensures ring[i] != ring[j] {
      if i < |s.ring| <= j {
        assert ring[i] in Elements(s.ring) && ring[j] in Elements(units);
      }
    }
    assert Elements(ring) == Elements(s.ring) + Elements(units);
    assert |s.held| == |s.held - Elements(units)| + |Elements(units)|;
    forall x | x in ring ensures x < s.next {
      assert x in s.ring || x in Elements(units);
    }
  }

  lemma GiveKeeps(s: State, num: nat)
    requires Apart(s)
    ensures var units := Fresh(s.next, num);
            var s' := s.(held := s.held + Elements(units), next := s.next + num);
            Apart(s') && |s'.held| == |s.held| + num && Elements(units) !! s.held
  {
    FreshElements(s.next, num);
    ElementsSize(Fresh(s.next, num));
  }

  /** Units change places: what is free or held together changes by what is newly made. */
  lemma UnitsMove(size: nat, s: State, m: Move)
    requires Apart(s) && Permitted(s, m)
    ensures var s' := Next(size, s, m).state;
            && Apart(s')
            && |s'.ring| + |s'.held|
               == |s.ring| + |s.held| + if m.action.Allocate? && m.action.mem then s.threads[m.thread].num else 0
  {
    match m.action {
      case Get(num) => if num <= |s.ring| { TakeKeeps(s, num); }
      case GetBurst(most) => TakeKeeps(s, if most < |s.ring| then most else |s.ring|);
      case Allocate(mem) => if mem { GiveKeeps(s, s.threads[m.thread].num); }
      case Put(units) => PutKeeps(s, units);
      case _ =>
    }
  }

  lemma CountMoves(size: nat, s: State, m: Move)
    requires Apart(s) && Conserved(s) && Permitted(s, m)
    ensures Conserved(Next(size, s, m).state)
  {
    UnitsMove(size, s, m);
    PendingMoves(size, s, m);
  }

  lemma PendingMoves(size: nat, s: State, m: Move)
    requires Permitted(s, m)
    ensures var s' := Next(size, s, m).state;
            && |s'.threads| == |s.threads| && Pending(s.threads) >= Weight(s.threads[m.thread])
            && Pending(s'.threads) == Pending(s.threads) - Weight(s.threads[m.thread]) + Weight(s'.threads[m.thread])
  {
    var pc := Next(size, s, m).state.threads[m.thread];
    PendingUpdate(s.threads, m.thread, pc);
    assert s.threads[m.thread := s.threads[m.thread]] == s.threads;
    assert Next(size, s, m).state.threads == s.threads[m.thread := pc];
  }

  lemma CapMoves(size: nat, n: nat, s: State, m: Move)
    requires Capped(size, n, s) && Permitted(s, m) && (m.action.Get? ==> m.action.num <= n)
    ensures Capped(size, n, Next(size, s, m).state)
  {
  }

  lemma StepKeeps(size: nat, n: nat, s: State, m: Move)
    requires Inv(size, n, s) && Permitted(s, m) && (m.action.Get? ==> m.action.num <= n)
    ensures Inv(size, n, Next(size, s, m).state)
  {
    UnitsMove(size, s, m);
    CountMoves(size, s, m);
    CapMoves(size, n, s, m);
  }

  // ---------- runs ----------

  predicate AllPermitted(size: nat, n: nat, s: State, moves: seq<Move>)
    decreases moves
  {
    moves == []
    || (&& Permitted(s, moves[0]) && (moves[0].action.Get? ==> moves[0].action.num <= n)
        && AllPermitted(size, n, Next(size, s, moves[0]).state, moves[1..]))
  }

  function Run(size: nat, n: nat, s: State, moves: seq<Move>): State
    requires AllPermitted(size, n, s, moves)
    decreases moves
  {
    if moves == [] then s else Run(size, n, Next(size, s, moves[0]).state, moves[1..])
  }

  /** In every interleaving no unit is lost, doubled or held twice, and the count keeps its bound. */
  lemma {:induction false} RunKeeps(size: nat, n: nat, s: State, moves: seq<Move>)
    requires Inv(size, n, s) && AllPermitted(size, n, s, moves)
    ensures Inv(size, n, Run(size, n, s, moves))
    decreases moves
  {
    if moves != [] {
      StepKeeps(size, n, s, moves[0]);
      RunKeeps(size, n, Next(size, s, moves[0]).state, moves[1..]);
    }
  }

  function Start(threads: nat): State
  {
    State([], 0, seq(threads, _ => Idle), {}, 0)
  }

  lemma {:induction false} NothingPending(threads: nat)
    ensures Pending(Start(threads).threads) == 0
  {
    if threads > 0 {
      assert Start(threads).threads[..threads - 1] == Start(threads - 1).threads;
      NothingPending(threads - 1);
    }
  }

  /** After these moves, m is not a return that finds the ring full. */
  ghost predicate PutReturns(size: nat, n: nat, threads: nat, moves: seq<Move>, m: Move)
    requires AllPermitted(size, n, Start(threads), moves)
  {
    var s := Run(size, n, Start(threads), moves);
    m.action.Put? && Permitted(s, m) ==> Next(size, s, m).event == Returned
  }

  /** With single-unit requests, or a ring of no size, returning held units never finds the ring full. */
  lemma PutNeverFull(size: nat, n: nat, threads: nat, moves: seq<Move>, m: Move)
    requires AllPermitted(size, n, Start(threads), moves) && (n <= 1 || size == 0)
    ensures PutReturns(size, n, threads, moves, m)
  {
    NothingPending(threads);
    RunKeeps(size, n, Start(threads), moves);
    var s := Run(size, n, Start(threads), moves);
    if m.action.Put? && Permitted(s, m) {
      ElementsSize(m.action.units);
      SmallerSet(Elements(m.action.units), s.held);
    }
  }

  /** Units handed out are as many as asked for, and were free or are new: nobody holds them. */
  lemma GivenWasNotHeld(size: nat, n: nat, threads: nat, moves: seq<Move>, m: Move)
    requires AllPermitted(size, n, Start(threads), moves)
    requires Permitted(Run(size, n, Start(threads), moves), m)
    ensures var s := Run(size, n, Start(threads), moves);
            var r := Next(size, s, m);
            r.event.Given? ==>
              && Distinct(r.event.given) && Elements(r.event.given) !! s.held
              && r.state.held == s.held + Elements(r.event.given)
              && (m.action.Get? ==> |r.event.given| == m.action.num)
              && (m.action.Allocate? ==> |r.event.given| == s.threads[m.thread].num)
  {
    NothingPending(threads);
    RunKeeps(size, n, Start(threads), moves);
    var s := Run(size, n, Start(threads), moves);
    var pc := s.threads[m.thread];
    match m.action {
      case Get(num) => if num <= |s.ring| { TakeKeeps(s, num); SplitElements(s.ring, num); }
      case GetBurst(most) =>
        var num := if most < |s.ring| then most else |s.ring|;
        TakeKeeps(s, num);
        SplitElements(s.ring, num);
      case Allocate(mem) => if mem { GiveKeeps(s, pc.num); FreshElements(s.next, pc.num); }
      case _ =>
    }
  }

  // ---------- requests for several units ----------

  ghost predicate Leads(size: nat, n: nat, s: State, moves: seq<Move>, s': State)
  {
    AllPermitted(size, n, s, moves) && Run(size, n, s, moves) == s'
  }

  lemma LeadsFirst(size: nat, n: nat, s: State, m: Move, s1: State, rest: seq<Move>, s2: State)
    requires Permitted(s, m) && (m.action.Get? ==> m.action.num <= n) && Next(size, s, m).state == s1
    requires Leads(size, n, s1, rest, s2)
    ensures Leads(size, n, s, [m] + rest, s2)
  {
    assert ([m] + rest)[1..] == rest;
  }

  lemma {:induction false} LeadsOn(size: nat, n: nat, s: State, a: seq<Move>, s1: State, b: seq<Move>, s2: State)
    requires Leads(size, n, s, a, s1) && Leads(size, n, s1, b, s2)
    ensures Leads(size, n, s, a + b, s2)
    decreases |a|
  {
    if a == [] {
      assert a + b == b;
    } else {
      LeadsOn(size, n, Next(size, s, a[0]).state, a[1..], s1, b, s2);
      LeadsFirst(size, n, s, a[0], Next(size, s, a[0]).state, a[1..] + b, s2);
      assert [a[0]] + (a[1..] + b) == a + b;
    }
  }

  /** The callers hold the first k units, and nothing is free. */
  function Holding(threads: nat, k: nat): State
  {
    State([], k, Start(threads).threads, Elements(Fresh(0, k)), k)
  }

  /** A request that finds no free unit and has them made. */
  function Made(num: nat): seq<Move>
  {
    [Move(0, Get(num))] + ([Move(0, Load)] + ([Move(0, Cas(false))] + ([Move(0, Allocate(true))] + [])))
  }

  lemma HoldsMore(k: nat, num: nat)
    ensures Elements(Fresh(0, k)) + Elements(Fresh(k, num)) == Elements(Fresh(0, k + num))
  {
    FreshElements(0, k);
    FreshElements(k, num);
    FreshElements(0, k + num);
  }

  lemma MadeRuns(size: nat, n: nat, threads: nat, k: nat, num: nat)
    requires threads > 0 && k < size && 0 < num <= n
    ensures Leads(size, n, Holding(threads, k), Made(num), Holding(threads, k + num))
  {
    var s0, s4 := Holding(threads, k), Holding(threads, k + num);
    var s1 := Goto(s0, 0, Loading(num));
    var s2 := Goto(s0, 0, Loaded(num, k));
    var s3 := Goto(s0, 0, Allocating(num)).(count := k + num);
    HoldsMore(k, num);
    LeadsFirst(size, n, s3, Move(0, Allocate(true)), s4, [], s4);
    LeadsFirst(size, n, s2, Move(0, Cas(false)), s3, [Move(0, Allocate(true))] + [], s4);
    LeadsFirst(size, n, s1, Move(0, Load), s2, [Move(0, Cas(false))] + ([Move(0, Allocate(true))] + []), s4);
    LeadsFirst(size, n, s0, Move(0, Get(num)), s1,
               [Move(0, Load)] + ([Move(0, Cas(false))] + ([Move(0, Allocate(true))] + [])), s4);
  }

  function Singles(k: nat): seq<Move>
  {
    if k == 0 then [] else Singles(k - 1) + Made(1)
  }

  lemma {:induction false} SinglesRun(size: nat, n: nat, threads: nat, k: nat)
    requires threads > 0 && k <= size && n > 0
    ensures Leads(size, n, Start(threads), Singles(k), Holding(threads, k))
  {
    if k == 0 {
      assert Holding(threads, 0) == Start(threads);
    } else {
      SinglesRun(size, n, threads, k - 1);
      MadeRuns(size, n, threads, k - 1, 1);
      LeadsOn(size, n, Start(threads), Singles(k - 1), Holding(threads, k - 1), Made(1), Holding(threads, k));
    }
  }

  /** One unit short of the cap, a request for n units; then as many are returned as the ring takes. */
  function Overfill(size: nat, n: nat): seq<Move>
    requires size > 0
  {
    Singles(size - 1) + Made(n) + [Move(0, Put(Fresh(0, size)))]
  }

  lemma FirstReturned(size: nat, n: nat, threads: nat)
    requires threads > 0 && 0 < size < size - 1 + n
    ensures var s := Holding(threads, size - 1 + n);
            var s' := State(Fresh(0, size), s.count, s.threads, s.held - Elements(Fresh(0, size)), s.next);
            && Leads(size, n, s, [Move(0, Put(Fresh(0, size)))], s') && size in s'.held
  {
    var s := Holding(threads, size - 1 + n);
    var s' := State(Fresh(0, size), s.count, s.threads, s.held - Elements(Fresh(0, size)), s.next);
    FreshElements(0, size);
    FreshElements(0, size - 1 + n);
    assert Fresh(0, size) != [];
    LeadsFirst(size, n, s, Move(0, Put(Fresh(0, size))), s', [], s');
    assert [Move(0, Put(Fresh(0, size)))] + [] == [Move(0, Put(Fresh(0, size)))];
  }

  /** Requests for n >= 2 units let the count pass the ring's size, and then a return finds the ring full. */
  lemma RequestsOverfill(size: nat, n: nat, threads: nat)
    requires size > 0 && n >= 2 && threads > 0
    ensures AllPermitted(size, n, Start(threads), Overfill(size, n))
    ensures var s := Run(size, n, Start(threads), Overfill(size, n));
            && s.count == size - 1 + n
            && Permitted(s, Move(0, Put([size]))) && Next(size, s, Move(0, Put([size]))).event == Full
  {
    var k := size - 1;
    SinglesRun(size, n, threads, k);
    MadeRuns(size, n, threads, k, n);
    FirstReturned(size, n, threads);
    var s := Holding(threads, k + n);
    var s' := State(Fresh(0, size), s.count, s.threads, s.held - Elements(Fresh(0, size)), s.next);
    LeadsOn(size, n, Start(threads), Singles(k), Holding(threads, k), Made(n), s);
    LeadsOn(size, n, Start(threads), Singles(k) + Made(n), s, [Move(0, Put(Fresh(0, size)))], s');
    assert Elements([size]) == {size};
  }

  /** No return finds the ring full in any run, exactly when no request is for several units. */
  lemma NeverFullIff(size: nat, n: nat, threads: nat)
    requires threads > 0
    ensures (forall moves, m :: AllPermitted(size, n, Start(threads), moves) ==> PutReturns(size, n, threads, moves, m))
            <==> n <= 1 || size == 0
  {
    if n <= 1 || size == 0 {
      forall moves, m | AllPermitted(size, n, Start(threads), moves)
        ensures PutReturns(size, n, threads, moves, m)
      {
        PutNeverFull(size, n, threads, moves, m);
      }
    } else {
      RequestsOverfill(size, n, threads);
      assert !PutReturns(size, n, threads, Overfill(size, n), Move(0, Put([size])));
    }
  }
}
