/**
 The lock-free bounded ring as an interleaved step system. Each thread runs Enqueue or Dequeue one
 atomic access at a time; a schedule says which thread moves next. The same code is run over two
 widths: the 32-bit cursors of the program, and unbounded tickets.
 */
module Ring {
  import opened Words

  type Obj = int
  type Tid = nat

  /** `producer` (`consumer`) is the one thread allowed on a side declared single. */
  datatype Config = Config(size: nat, isSp: bool, isSc: bool, producer: Tid, consumer: Tid) {
    predicate Valid()
    {
      0 < size < TWO32
    }

    function Capacity(): (n: int)
    {
      size - 1
    }
  }

  /** The arithmetic the code is run with. */
  datatype Width = Unbounded | Bits32 {
    function Next(x: nat): nat
    {
      if Bits32? then (x + 1) % TWO32 else x + 1
    }

    function Difference(x: int): int
    {
      if Bits32? then x % TWO32 else x
    }

    function Index(x: nat, size: nat): (i: nat)
      requires size > 0
      ensures i < size
    {
      if Bits32? then And(x, size - 1) else x % size
    }
  }

  /** Where a thread stands; `head` is its local copy of the cursor it loaded. */
  datatype Pc =
    | Idle
    | PStart(obj: Obj)
    | PLoaded(head: nat, obj: Obj)
    | PChecked(head: nat, obj: Obj)
    | PClaimed(head: nat, obj: Obj)
    | PWritten(head: nat, obj: Obj)
    | PReady(head: nat, obj: Obj)
    | CStart
    | CLoaded(head: nat)
    | CChecked(head: nat)
    | CClaimed(head: nat)
    | CRead(head: nat, obj: Obj)
    | CReady(head: nat, obj: Obj)
  {
    predicate Producing()
    {
      PStart? || PLoaded? || PChecked? || OwnsPut()
    }

    predicate Consuming()
    {
      CStart? || CLoaded? || CChecked? || OwnsGet()
    }

    /** Holds a producer ticket that is not published yet. */
    predicate OwnsPut()
    {
      PClaimed? || PWritten? || PReady?
    }

    /** Holds a consumer ticket that is not released yet. */
    predicate OwnsGet()
    {
      CClaimed? || CRead? || CReady?
    }
  }

  datatype Machine = Machine(prodHead: nat, prodTail: nat, consHead: nat, consTail: nat,
                             slots: seq<Obj>, threads: seq<Pc>)

  /** Idle threads are given work; a running thread advances by one access, its weak CAS may fail. */
  datatype Action = Enqueue(obj: Obj) | Dequeue | Advance(casFails: bool)

  datatype Move = Move(tid: Tid, action: Action)

  /** What a step shows: a claimed ticket, or the value a call returns with. */
  datatype Event = Silent | Claim(obj: Obj) | Put(obj: Obj) | Got(obj: Obj) | Full | Empty

  datatype Result = Result(m: Machine, event: Event)

  function Start(c: Config, threads: nat): Machine
  {
    Machine(0, 0, 0, 0, seq(c.size, i => 0), seq(threads, i => Idle))
  }

  function Goto(m: Machine, t: Tid, pc: Pc): Machine
    requires t < |m.threads|
  {
    m.(threads := m.threads[t := pc])
  }

  function Step(c: Config, w: Width, m: Machine, mv: Move): (r: Result)
    requires c.Valid() && |m.slots| == c.size
    ensures |r.m.slots| == c.size && |r.m.threads| == |m.threads|
  {
    if mv.tid >= |m.threads| then Result(m, Silent)
    else
      var pc := m.threads[mv.tid];
      match mv.action
      case Enqueue(o) => Result(if pc.Idle? then Goto(m, mv.tid, PStart(o)) else m, Silent)
      case Dequeue => Result(if pc.Idle? then Goto(m, mv.tid, CStart) else m, Silent)
      case Advance(fails) =>
        if pc.Producing() then ProducerStep(c, w, m, mv.tid, fails)
        else if pc.Consuming() then ConsumerStep(c, w, m, mv.tid, fails)
        else Result(m, Silent)
  }

  function ProducerStep(c: Config, w: Width, m: Machine, t: Tid, casFails: bool): (r: Result)
    requires c.Valid() && |m.slots| == c.size
    requires t < |m.threads| && m.threads[t].Producing()
    ensures |r.m.slots| == c.size && |r.m.threads| == |m.threads|
  {
    match m.threads[t]
    case PStart(o) => Result(Goto(m, t, PLoaded(m.prodHead, o)), Silent)
    case PLoaded(h, o) =>
      if w.Difference(c.Capacity() + m.consTail - h) <= 0 then Result(Goto(m, t, Idle), Full)
      else Result(Goto(m, t, PChecked(h, o)), Silent)
    case PChecked(h, o) =>
      if c.isSp || (m.prodHead == h && !casFails) then
        Result(Goto(m.(prodHead := w.Next(h)), t, PClaimed(h, o)), Claim(o))
      else Result(Goto(m, t, PStart(o)), Silent)
    case PClaimed(h, o) =>
      Result(Goto(m.(slots := m.slots[w.Index(h, c.size) := o]), t, PWritten(h, o)), Silent)
    case PWritten(h, o) =>
      if c.isSp then Result(Goto(m.(prodTail := w.Next(h)), t, Idle), Put(o))
      else if m.prodTail == h then Result(Goto(m, t, PReady(h, o)), Silent)
      else Result(m, Silent)
    case PReady(h, o) => Result(Goto(m.(prodTail := w.Next(h)), t, Idle), Put(o))
  }

  function ConsumerStep(c: Config, w: Width, m: Machine, t: Tid, casFails: bool): (r: Result)
    requires c.Valid() && |m.slots| == c.size
    requires t < |m.threads| && m.threads[t].Consuming()
    ensures |r.m.slots| == c.size && |r.m.threads| == |m.threads|
  {
    match m.threads[t]
    case CStart => Result(Goto(m, t, CLoaded(m.consHead)), Silent)
    case CLoaded(h) =>
      if w.Difference(m.prodTail - h) <= 0 then Result(Goto(m, t, Idle), Empty)
      else Result(Goto(m, t, CChecked(h)), Silent)
    case CChecked(h) =>
      if c.isSc || (m.consHead == h && !casFails) then
        Result(Goto(m.(consHead := w.Next(h)), t, CClaimed(h)), Silent)
      else Result(Goto(m, t, CStart), Silent)
    case CClaimed(h) => Result(Goto(m, t, CRead(h, m.slots[w.Index(h, c.size)])), Silent)
    case CRead(h, o) =>
      if c.isSc then Result(Goto(m.(consTail := w.Next(h)), t, Idle), Got(o))
      else if m.consTail == h then Result(Goto(m, t, CReady(h, o)), Silent)
      else Result(m, Silent)
    case CReady(h, o) => Result(Goto(m.(consTail := w.Next(h)), t, Idle), Got(o))
  }

  datatype Trace = Trace(m: Machine, events: seq<Event>)

  /** The machine after a schedule, and one event for each of its moves. */
  function Run(c: Config, w: Width, start: Machine, schedule: seq<Move>): (r: Trace)
    requires c.Valid() && |start.slots| == c.size
    ensures |r.m.slots| == c.size && |r.m.threads| == |start.threads|
    ensures |r.events| == |schedule|
  {
    if schedule == [] then Trace(start, [])
    else
      var before := Run(c, w, start, schedule[..|schedule| - 1]);
      var r := Step(c, w, before.m, schedule[|schedule| - 1]);
      Trace(r.m, before.events + [r.event])
  }

  /** Objects in the order their producer tickets were claimed. */
  function Claimed(events: seq<Event>): seq<Obj>
  {
    if events == [] then []
    else
      var e := events[|events| - 1];
      Claimed(events[..|events| - 1]) + if e.Claim? then [e.obj] else []
  }

  /** Objects whose Enqueue returned success, in the order of the returns. */
  function Enqueued(events: seq<Event>): seq<Obj>
  {
    if events == [] then []
    else
      var e := events[|events| - 1];
      Enqueued(events[..|events| - 1]) + if e.Put? then [e.obj] else []
  }

  /** Objects returned by Dequeue, in the order of the returns. */
  function Dequeued(events: seq<Event>): seq<Obj>
  {
    if events == [] then []
    else
      var e := events[|events| - 1];
      Dequeued(events[..|events| - 1]) + if e.Got? then [e.obj] else []
  }

  /** A side declared single is used by its one thread only. */
  predicate Permitted(c: Config, mv: Move)
  {
    && (c.isSp && mv.action.Enqueue? ==> mv.tid == c.producer)
    && (c.isSc && mv.action.Dequeue? ==> mv.tid == c.consumer)
  }

  predicate PermittedAll(c: Config, schedule: seq<Move>)
  {
    forall k :: 0 <= k < |schedule| ==> Permitted(c, schedule[k])
  }

  // ---------- the invariant over unbounded tickets ----------

  predicate Ordered(c: Config, m: Machine)
  {
    m.consTail <= m.consHead <= m.prodTail <= m.prodHead <= m.consTail + c.Capacity()
  }

  predicate ThreadOk(c: Config, m: Machine, claimed: seq<Obj>, pc: Pc)
    requires c.Valid() && |m.slots| == c.size && |claimed| == m.prodHead && Ordered(c, m)
  {
    match pc
    case Idle => true
    case PStart(_) => true
    case PLoaded(h, _) => h <= m.prodHead && (c.isSp ==> h == m.prodHead)
    case PChecked(h, _) =>
      h <= m.prodHead && h < m.consTail + c.Capacity() && (c.isSp ==> h == m.prodHead)
    case PClaimed(h, o) => m.prodTail <= h < m.prodHead && claimed[h] == o
    case PWritten(h, o) => m.prodTail <= h < m.prodHead && claimed[h] == o && m.slots[h % c.size] == o
    case PReady(h, o) => m.prodTail == h < m.prodHead && claimed[h] == o && m.slots[h % c.size] == o
    case CStart => true
    case CLoaded(h) => h <= m.consHead && (c.isSc ==> h == m.consHead)
    case CChecked(h) => h <= m.consHead && h < m.prodTail && (c.isSc ==> h == m.consHead)
    case CClaimed(h) => m.consTail <= h < m.consHead
    case CRead(h, o) => m.consTail <= h < m.consHead && claimed[h] == o
    case CReady(h, o) => m.consTail == h < m.consHead && claimed[h] == o
  }

  predicate PutOwner(m: Machine, t: Tid, ticket: nat)
  {
    t < |m.threads| && m.threads[t].OwnsPut() && m.threads[t].head == ticket
  }

  predicate GetOwner(m: Machine, t: Tid, ticket: nat)
  {
    t < |m.threads| && m.threads[t].OwnsGet() && m.threads[t].head == ticket
  }

  /** No two threads hold the same ticket. */
  ghost predicate OneOwner(m: Machine)
  {
    && (forall t: Tid, u: Tid, i: nat :: PutOwner(m, t, i) && PutOwner(m, u, i) ==> t == u)
    && (forall t: Tid, u: Tid, i: nat :: GetOwner(m, t, i) && GetOwner(m, u, i) ==> t == u)
  }

  ghost predicate PutOwned(m: Machine, ticket: nat)
  {
    exists t: Tid :: PutOwner(m, t, ticket)
  }

  ghost predicate GetOwned(m: Machine, ticket: nat)
  {
    exists t: Tid :: GetOwner(m, t, ticket)
  }

  /** Every claimed and unpublished ticket is held by some thread. */
  ghost predicate SomeOwner(m: Machine)
  {
    && (forall i: nat :: m.prodTail <= i < m.prodHead ==> PutOwned(m, i))
    && (forall i: nat :: m.consTail <= i < m.consHead ==> GetOwned(m, i))
  }

  predicate SingleSides(c: Config, m: Machine)
  {
    && (c.isSp ==> forall t :: 0 <= t < |m.threads| && m.threads[t].Producing() ==> t == c.producer)
    && (c.isSc ==> forall t :: 0 <= t < |m.threads| && m.threads[t].Consuming() ==> t == c.consumer)
  }

  /** Slots hold what was put there, for every published ticket that is not released. */
  predicate Stored(c: Config, m: Machine, claimed: seq<Obj>)
    requires c.Valid() && |m.slots| == c.size && |claimed| == m.prodHead && Ordered(c, m)
  {
    forall i :: m.consTail <= i < m.prodTail ==> m.slots[i % c.size] == claimed[i]
  }

  ghost predicate Inv(c: Config, m: Machine, claimed: seq<Obj>)
    requires c.Valid()
  {
    && |m.slots| == c.size
    && |claimed| == m.prodHead
    && Ordered(c, m)
    && (forall t :: 0 <= t < |m.threads| ==> ThreadOk(c, m, claimed, m.threads[t]))
    && OneOwner(m)
    && SomeOwner(m)
    && SingleSides(c, m)
    && Stored(c, m, claimed)
  }
}
