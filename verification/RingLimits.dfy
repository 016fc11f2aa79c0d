/**
 How far the 32-bit ring follows the ring over unbounded tickets: exactly when every schedule of the
 threads shows the same run, and the runs in which it does not. Also the run in which Used() is
 passed by a put and a get between its two loads.
 */
module RingLimits {
  import opened Words
  import opened Ring
  import opened RingSafety
  import opened RingWords

  ghost predicate SameRun(c: Config, threads: nat, schedule: seq<Move>)
    requires c.Valid()
  {
    var ideal := Run(c, Unbounded, Start(c, threads), schedule);
    Run(c, Bits32, Start(c, threads), schedule) == Trace(Wrap(ideal.m), ideal.events)
  }

  /** A side is shared, and there are threads to put and to get while another one sleeps. */
  predicate Exposed(c: Config, threads: nat)
  {
    && c.size >= 2 && threads >= 2 && !(c.isSp && c.isSc)
    && (c.isSp ==> c.producer < threads)
    && (c.isSc ==> c.consumer < threads)
  }

  // ---------- threads that cannot be lapped ----------

  /** What keeps a loaded head close to its cursor when the ring is not exposed. */
  predicate Settled(c: Config, m: Machine)
  {
    && (|m.threads| <= 1 ==> forall t :: 0 <= t < |m.threads| ==> Current(m, m.threads[t]))
    && (c.size == 1 || (c.isSp && c.producer >= |m.threads|) ==> m.prodHead == 0)
    && (c.isSc && c.consumer >= |m.threads| ==> m.consHead == 0)
  }

  predicate Current(m: Machine, pc: Pc)
  {
    && (pc.PLoaded? || pc.PChecked? ==> pc.head == m.prodHead)
    && (pc.CLoaded? || pc.CChecked? ==> pc.head == m.consHead)
  }

  lemma ProducerSettles(c: Config, m: Machine, claimed: seq<Obj>, t: Tid, fails: bool)
    requires c.Valid() && Inv(c, m, claimed) && Settled(c, m)
    requires t < |m.threads| && m.threads[t].Producing()
    ensures Settled(c, ProducerStep(c, Unbounded, m, t, fails).m)
  {
    assert ThreadOk(c, m, claimed, m.threads[t]);
  }

  lemma ConsumerSettles(c: Config, m: Machine, claimed: seq<Obj>, t: Tid, fails: bool)
    requires c.Valid() && Inv(c, m, claimed) && Settled(c, m)
    requires t < |m.threads| && m.threads[t].Consuming()
    ensures Settled(c, ConsumerStep(c, Unbounded, m, t, fails).m)
  {
  }

  lemma StepSettles(c: Config, m: Machine, claimed: seq<Obj>, mv: Move)
    requires c.Valid() && Inv(c, m, claimed) && Settled(c, m)
    ensures Settled(c, Step(c, Unbounded, m, mv).m)
  {
    if mv.tid < |m.threads| && mv.action.Advance? {
      if m.threads[mv.tid].Producing() {
        ProducerSettles(c, m, claimed, mv.tid, mv.action.casFails);
      } else if m.threads[mv.tid].Consuming() {
        ConsumerSettles(c, m, claimed, mv.tid, mv.action.casFails);
      }
    }
  }

  lemma {:induction false} RunSettles(c: Config, threads: nat, schedule: seq<Move>)
    requires c.Valid() && PermittedAll(c, schedule)
    ensures Settled(c, Run(c, Unbounded, Start(c, threads), schedule).m)
  {
    if schedule != [] {
      var n := |schedule| - 1;
      RunSettles(c, threads, schedule[..n]);
      RunKeeps(c, threads, schedule[..n]);
      var before := Run(c, Unbounded, Start(c, threads), schedule[..n]);
      StepSettles(c, before.m, Claimed(before.events), schedule[n]);
    }
  }

  lemma SizeAtMost(c: Config)
    requires Created(c)
    ensures 2 * c.size <= TWO32
  {
    PowerOf2Iff(c.size);
    var k: nat :| c.size == Pow2(k);
    Pow2Small(k);
    Pow2Grows(k + 1, 32);
    Pow2At32();
  }

  lemma SettledNotLapped(c: Config, m: Machine, claimed: seq<Obj>)
    requires Created(c) && Inv(c, m, claimed) && Settled(c, m) && !Exposed(c, |m.threads|)
    ensures NotLapped(c, m)
  {
    SizeAtMost(c);
    forall t | 0 <= t < |m.threads| ensures Fresh(c, m, m.threads[t]) {
      assert ThreadOk(c, m, claimed, m.threads[t]);
    }
  }

  lemma UnexposedRuns(c: Config, threads: nat, schedule: seq<Move>)
    requires Created(c) && PermittedAll(c, schedule) && !Exposed(c, threads)
    ensures SameRun(c, threads, schedule)
  {
    forall n | 0 <= n <= |schedule|
      ensures NotLapped(c, Run(c, Unbounded, Start(c, threads), schedule[..n]).m)
    {
      RunKeeps(c, threads, schedule[..n]);
      RunSettles(c, threads, schedule[..n]);
      var r := Run(c, Unbounded, Start(c, threads), schedule[..n]);
      SettledNotLapped(c, r.m, Claimed(r.events));
    }
    RunWraps(c, threads, schedule);
  }

  // ---------- runs made of whole calls ----------

  function After<S, L>(step: (S, L) -> S, s: S, moves: seq<L>): S
  {
    if moves == [] then s else step(After(step, s, moves[..|moves| - 1]), moves[|moves| - 1])
  }

  lemma {:induction false} AfterBoth<S, L>(step: (S, L) -> S, s: S, a: seq<L>, b: seq<L>)
    ensures After(step, s, a + b) == After(step, After(step, s, a), b)
    decreases |b|
  {
    if b == [] {
      assert a + b == a;
    } else {
      var n := |b| - 1;
      assert (a + b)[..|a| + n] == a + b[..n] && (a + b)[|a| + n] == b[n];
      AfterBoth(step, s, a, b[..n]);
    }
  }

  lemma AfterOne<S, L>(step: (S, L) -> S, s: S, x: L)
    ensures After(step, s, [x]) == step(s, x)
  {
    assert [x][..0] == [];
  }

  lemma AfterThree<S, L>(step: (S, L) -> S, s: S, x: L, y: L, z: L)
    ensures After(step, s, [x, y, z]) == step(step(step(s, x), y), z)
  {
    AfterOne(step, s, x);
    AfterOne(step, step(s, x), y);
    AfterBoth(step, s, [x], [y]);
    AfterOne(step, step(step(s, x), y), z);
    AfterBoth(step, s, [x] + [y], [z]);
    assert [x] + [y] + [z] == [x, y, z];
  }

  /** The machine, and how many puts and gets have returned. */
  datatype Tally = Tally(m: Machine, puts: nat, gets: nat)

  function Counted(t: Tally, r: Result): Tally
  {
    Tally(r.m, t.puts + (if r.event.Put? then 1 else 0), t.gets + (if r.event.Got? then 1 else 0))
  }

  function StepOf(c: Config, w: Width): (Tally, Move) -> Tally
    requires c.Valid()
  {
    (t: Tally, mv: Move) => if |t.m.slots| == c.size then Counted(t, Step(c, w, t.m, mv)) else t
  }

  lemma {:induction false} AfterIsRun(c: Config, w: Width, m: Machine, schedule: seq<Move>)
    requires c.Valid() && |m.slots| == c.size
    ensures var r := Run(c, w, m, schedule);
            After(StepOf(c, w), Tally(m, 0, 0), schedule) == Tally(r.m, |Enqueued(r.events)|, |Dequeued(r.events)|)
    decreases |schedule|
  {
    if schedule != [] {
      var n := |schedule| - 1;
      AfterIsRun(c, w, m, schedule[..n]);
      LastEvent(c, w, m, schedule);
      var before := Run(c, w, m, schedule[..n]);
      ProjectionsGrow(before.events, Step(c, w, before.m, schedule[n]).event);
    }
  }

  type Stepper = (Tally, Move) -> Tally

  ghost predicate Moves(c: Config, w: Width, m: Machine, mv: Move, m': Machine, e: Event)
    requires c.Valid()
  {
    |m.slots| == c.size && Step(c, w, m, mv) == Result(m', e)
  }

  /** The function value `step` takes the machine's steps, for proofs that need not look inside it. */
  ghost predicate Steps(step: Stepper, c: Config, w: Width)
  {
    c.Valid() && forall t: Tally, mv: Move, m: Machine, e: Event {:trigger Moves(c, w, t.m, mv, m, e), step(t, mv)} ::
                   Moves(c, w, t.m, mv, m, e) ==> step(t, mv) == Counted(t, Result(m, e))
  }

  lemma StepOfSteps(c: Config, w: Width)
    requires c.Valid()
    ensures Steps(StepOf(c, w), c, w)
  {
  }

  /** From t the moves lead to the machine m, with so many more puts and gets. */
  ghost predicate Leads(step: Stepper, t: Tally, moves: seq<Move>, m: Machine, puts: nat, gets: nat)
  {
    After(step, t, moves) == Tally(m, t.puts + puts, t.gets + gets)
  }

  lemma LeadsThree(step: Stepper, c: Config, w: Width, t: Tally, x: Move, m1: Machine, e1: Event, y: Move, m2: Machine,
                   e2: Event, z: Move, m3: Machine, e3: Event)
    requires Steps(step, c, w) && Moves(c, w, t.m, x, m1, e1)
    requires Moves(c, w, m1, y, m2, e2) && Moves(c, w, m2, z, m3, e3)
    ensures After(step, t, [x, y, z])
            == Counted(Counted(Counted(t, Result(m1, e1)), Result(m2, e2)), Result(m3, e3))
  {
    var t1 := Counted(t, Result(m1, e1));
    var t2 := Counted(t1, Result(m2, e2));
    assert Moves(c, w, t.m, x, m1, e1);
    assert Moves(c, w, t1.m, y, m2, e2);
    assert Moves(c, w, t2.m, z, m3, e3);
    AfterThree(step, t, x, y, z);
  }

  lemma LeadsOn(step: Stepper, t: Tally, a: seq<Move>, m1: Machine, p1: nat, g1: nat, b: seq<Move>, m2: Machine,
                p2: nat, g2: nat)
    requires Leads(step, t, a, m1, p1, g1)
    requires Leads(step, Tally(m1, t.puts + p1, t.gets + g1), b, m2, p2, g2)
    ensures Leads(step, t, a + b, m2, p1 + p2, g1 + g2)
  {
    AfterBoth(step, t, a, b);
  }

  function Go(t: Tid): Move
  {
    Move(t, Advance(false))
  }

  /** A put up to the point where its CAS is due. */
  function PutBegun(t: Tid, o: Obj): seq<Move>
  {
    [Move(t, Enqueue(o)), Go(t), Go(t)]
  }

  function GetBegun(t: Tid): seq<Move>
  {
    [Move(t, Dequeue), Go(t), Go(t)]
  }

  /** The rest of a call; the last move is idle on a side declared single. */
  function Finish(t: Tid): seq<Move>
  {
    [Go(t)] + [Go(t), Go(t), Go(t)]
  }

  lemma GotoTwice(m: Machine, t: Tid, a: Pc, b: Pc)
    requires t < |m.threads|
    ensures Goto(Goto(m, t, a), t, b) == Goto(m, t, b)
  {
  }

  /** Thread t is free, and the ring has its slots. */
  predicate Free(c: Config, m: Machine, t: Tid)
  {
    |m.slots| == c.size && t < |m.threads| && m.threads[t].Idle?
  }

  lemma PutBegins(step: Stepper, c: Config, w: Width, x: Tally, t: Tid, o: Obj)
    requires Steps(step, c, w) && Free(c, x.m, t) && w.Difference(c.Capacity() + x.m.consTail - x.m.prodHead) > 0
    ensures Leads(step, x, PutBegun(t, o), Goto(x.m, t, PChecked(x.m.prodHead, o)), 0, 0)
  {
    var m, h := x.m, x.m.prodHead;
    GotoTwice(m, t, PStart(o), PLoaded(h, o));
    GotoTwice(m, t, PLoaded(h, o), PChecked(h, o));
    LeadsThree(step, c, w, x, Move(t, Enqueue(o)), Goto(m, t, PStart(o)), Silent, Go(t), Goto(m, t, PLoaded(h, o)),
               Silent, Go(t), Goto(m, t, PChecked(h, o)), Silent);
  }

  lemma GetBegins(step: Stepper, c: Config, w: Width, x: Tally, t: Tid)
    requires Steps(step, c, w) && Free(c, x.m, t) && w.Difference(x.m.prodTail - x.m.consHead) > 0
    ensures Leads(step, x, GetBegun(t), Goto(x.m, t, CChecked(x.m.consHead)), 0, 0)
  {
    var m, h := x.m, x.m.consHead;
    GotoTwice(m, t, CStart, CLoaded(h));
    GotoTwice(m, t, CLoaded(h), CChecked(h));
    LeadsThree(step, c, w, x, Move(t, Dequeue), Goto(m, t, CStart), Silent, Go(t), Goto(m, t, CLoaded(h)), Silent,
               Go(t), Goto(m, t, CChecked(h)), Silent);
  }

  function HasPut(c: Config, w: Width, m: Machine, o: Obj): (r: Machine)
    requires c.Valid() && |m.slots| == c.size
    ensures |r.slots| == c.size && r.threads == m.threads
  {
    var h := m.prodHead;
    m.(prodHead := w.Next(h), slots := m.slots[w.Index(h, c.size) := o], prodTail := w.Next(h))
  }

  function HasGot(w: Width, m: Machine): Machine
  {
    m.(consHead := w.Next(m.consHead), consTail := w.Next(m.consHead))
  }

  lemma PutFinishes(step: Stepper, c: Config, w: Width, m: Machine, t: Tid, o: Obj, puts: nat, gets: nat)
    requires Steps(step, c, w) && Free(c, m, t) && m.prodTail == m.prodHead
    ensures Leads(step, Tally(Goto(m, t, PChecked(m.prodHead, o)), puts, gets), Finish(t), HasPut(c, w, m, o), 1, 0)
  {
    var h := m.prodHead;
    var x, m1 := Tally(Goto(m, t, PChecked(h, o)), puts, gets), m.(prodHead := w.Next(h));
    GotoTwice(m1, t, PChecked(h, o), PClaimed(h, o));
    assert Moves(c, w, x.m, Go(t), Goto(m1, t, PClaimed(h, o)), Claim(o));
    AfterOne(step, x, Go(t));
    PutPublishes(step, c, w, m1, t, o, h, puts, gets);
    LeadsOn(step, x, [Go(t)], Goto(m1, t, PClaimed(h, o)), 0, 0, [Go(t), Go(t), Go(t)], HasPut(c, w, m, o), 1, 0);
  }

  lemma PutPublishes(step: Stepper, c: Config, w: Width, m: Machine, t: Tid, o: Obj, h: nat, puts: nat, gets: nat)
    requires Steps(step, c, w) && Free(c, m, t) && m.prodTail == h
    ensures Leads(step, Tally(Goto(m, t, PClaimed(h, o)), puts, gets), [Go(t), Go(t), Go(t)],
                  m.(slots := m.slots[w.Index(h, c.size) := o], prodTail := w.Next(h)), 1, 0)
  {
    var m1 := m.(slots := m.slots[w.Index(h, c.size) := o]);
    var r := m1.(prodTail := w.Next(h));
    assert Goto(r, t, Idle) == r;
    GotoTwice(m1, t, PClaimed(h, o), PWritten(h, o));
    GotoTwice(m1, t, PWritten(h, o), PReady(h, o));
    GotoTwice(r, t, PWritten(h, o), Idle);
    GotoTwice(r, t, PReady(h, o), Idle);
    var x, m2 := Tally(Goto(m, t, PClaimed(h, o)), puts, gets), Goto(m1, t, PWritten(h, o));
    if c.isSp {
      LeadsThree(step, c, w, x, Go(t), m2, Silent, Go(t), r, Put(o), Go(t), r, Silent);
    } else {
      LeadsThree(step, c, w, x, Go(t), m2, Silent, Go(t), Goto(m1, t, PReady(h, o)), Silent, Go(t), r, Put(o));
    }
  }

  lemma GetFinishes(step: Stepper, c: Config, w: Width, m: Machine, t: Tid, puts: nat, gets: nat)
    requires Steps(step, c, w) && Free(c, m, t) && m.consTail == m.consHead
    ensures Leads(step, Tally(Goto(m, t, CChecked(m.consHead)), puts, gets), Finish(t), HasGot(w, m), 0, 1)
  {
    var h := m.consHead;
    var x, m1 := Tally(Goto(m, t, CChecked(h)), puts, gets), m.(consHead := w.Next(h));
    GotoTwice(m1, t, CChecked(h), CClaimed(h));
    assert Moves(c, w, x.m, Go(t), Goto(m1, t, CClaimed(h)), Silent);
    AfterOne(step, x, Go(t));
    GetReleases(step, c, w, m1, t, h, puts, gets);
    LeadsOn(step, x, [Go(t)], Goto(m1, t, CClaimed(h)), 0, 0, [Go(t), Go(t), Go(t)], HasGot(w, m), 0, 1);
  }

  lemma GetReleases(step: Stepper, c: Config, w: Width, m: Machine, t: Tid, h: nat, puts: nat, gets: nat)
    requires Steps(step, c, w) && Free(c, m, t) && m.consTail == h
    ensures Leads(step, Tally(Goto(m, t, CClaimed(h)), puts, gets), [Go(t), Go(t), Go(t)],
                  m.(consTail := w.Next(h)), 0, 1)
  {
    var r, o := m.(consTail := w.Next(h)), m.slots[w.Index(h, c.size)];
    assert Goto(r, t, Idle) == r;
    GotoTwice(m, t, CClaimed(h), CRead(h, o));
    GotoTwice(m, t, CRead(h, o), CReady(h, o));
    GotoTwice(r, t, CRead(h, o), Idle);
    GotoTwice(r, t, CReady(h, o), Idle);
    var x, m2 := Tally(Goto(m, t, CClaimed(h)), puts, gets), Goto(m, t, CRead(h, o));
    if c.isSc {
      LeadsThree(step, c, w, x, Go(t), m2, Silent, Go(t), r, Got(o), Go(t), r, Silent);
    } else {
      LeadsThree(step, c, w, x, Go(t), m2, Silent, Go(t), Goto(m, t, CReady(h, o)), Silent, Go(t), r, Got(o));
    }
  }

  lemma PutRuns(step: Stepper, c: Config, w: Width, x: Tally, t: Tid, o: Obj)
    requires Steps(step, c, w) && Free(c, x.m, t) && x.m.prodTail == x.m.prodHead
    requires w.Difference(c.Capacity() + x.m.consTail - x.m.prodHead) > 0
    ensures Leads(step, x, PutBegun(t, o) + Finish(t), HasPut(c, w, x.m, o), 1, 0)
  {
    var m1 := Goto(x.m, t, PChecked(x.m.prodHead, o));
    PutBegins(step, c, w, x, t, o);
    PutFinishes(step, c, w, x.m, t, o, x.puts, x.gets);
    LeadsOn(step, x, PutBegun(t, o), m1, 0, 0, Finish(t), HasPut(c, w, x.m, o), 1, 0);
  }

  lemma GetRuns(step: Stepper, c: Config, w: Width, x: Tally, t: Tid)
    requires Steps(step, c, w) && Free(c, x.m, t) && x.m.consTail == x.m.consHead
    requires w.Difference(x.m.prodTail - x.m.consHead) > 0
    ensures Leads(step, x, GetBegun(t) + Finish(t), HasGot(w, x.m), 0, 1)
  {
    var m1 := Goto(x.m, t, CChecked(x.m.consHead));
    GetBegins(step, c, w, x, t);
    GetFinishes(step, c, w, x.m, t, x.puts, x.gets);
    LeadsOn(step, x, GetBegun(t), m1, 0, 0, Finish(t), HasGot(w, x.m), 0, 1);
  }

  // ---------- many puts and gets ----------

  function Cursor(w: Width, x: nat): nat
  {
    if w.Bits32? then x % TWO32 else x
  }

  /** A ring with k objects, and no call in its middle apart from threads that sleep. */
  predicate Holds(c: Config, w: Width, m: Machine, x: nat, k: nat)
  {
    && |m.slots| == c.size
    && m.prodHead == m.prodTail == Cursor(w, x + k)
    && m.consHead == m.consTail == Cursor(w, x)
  }

  /** p may put and q may get, and both are free to. */
  predicate Workers(c: Config, m: Machine, p: Tid, q: Tid)
  {
    && p < |m.threads| && m.threads[p].Idle? && (c.isSp ==> p == c.producer)
    && q < |m.threads| && m.threads[q].Idle? && (c.isSc ==> q == c.consumer)
  }

  function Fill(p: Tid, k: nat): seq<Move>
  {
    if k == 0 then [] else Fill(p, k - 1) + (PutBegun(p, 0) + Finish(p))
  }

  function Round(p: Tid, q: Tid): seq<Move>
  {
    PutBegun(p, 0) + Finish(p) + (GetBegun(q) + Finish(q))
  }

  function Rounds(p: Tid, q: Tid, n: nat): seq<Move>
  {
    if n == 0 then [] else Rounds(p, q, n - 1) + Round(p, q)
  }

  lemma PutHolds(step: Stepper, c: Config, w: Width, t: Tally, x: nat, k: nat, p: Tid)
    requires Steps(step, c, w) && k < c.Capacity() && Holds(c, w, t.m, x, k) && Free(c, t.m, p)
    ensures var m' := HasPut(c, w, t.m, 0);
            Leads(step, t, PutBegun(p, 0) + Finish(p), m', 1, 0) && Holds(c, w, m', x, k + 1)
  {
    DifferenceWraps(x, x + k, c.Capacity());
    NextWraps(x + k);
    PutRuns(step, c, w, t, p, 0);
  }

  lemma GetHolds(step: Stepper, c: Config, w: Width, t: Tally, x: nat, k: nat, q: Tid)
    requires Steps(step, c, w) && 0 < k <= c.Capacity() && Holds(c, w, t.m, x, k) && Free(c, t.m, q)
    ensures var m' := HasGot(w, t.m);
            Leads(step, t, GetBegun(q) + Finish(q), m', 0, 1) && Holds(c, w, m', x + 1, k - 1)
  {
    DifferenceWraps(x + k, x, 0);
    NextWraps(x);
    GetRuns(step, c, w, t, q);
  }

  lemma {:induction false} FillRuns(step: Stepper, c: Config, w: Width, t: Tally, x: nat, p: Tid, k: nat)
    returns (m': Machine)
    requires Steps(step, c, w) && k <= c.Capacity() && Holds(c, w, t.m, x, 0) && Free(c, t.m, p)
    ensures Leads(step, t, Fill(p, k), m', k, 0) && Holds(c, w, m', x, k) && m'.threads == t.m.threads
  {
    if k == 0 {
      m' := t.m;
    } else {
      var before := FillRuns(step, c, w, t, x, p, k - 1);
      m' := HasPut(c, w, before, 0);
      OneMorePut(step, c, w, t, x, p, k - 1, Fill(p, k - 1), before);
    }
  }

  lemma OneMorePut(step: Stepper, c: Config, w: Width, t: Tally, x: nat, p: Tid, k: nat, done: seq<Move>, m: Machine)
    requires Steps(step, c, w) && k < c.Capacity() && Holds(c, w, m, x, k) && Free(c, m, p)
    requires Leads(step, t, done, m, k, 0)
    ensures Leads(step, t, done + (PutBegun(p, 0) + Finish(p)), HasPut(c, w, m, 0), k + 1, 0)
    ensures Holds(c, w, HasPut(c, w, m, 0), x, k + 1)
  {
    PutHolds(step, c, w, Tally(m, t.puts + k, t.gets), x, k, p);
    LeadsOn(step, t, done, m, k, 0, PutBegun(p, 0) + Finish(p), HasPut(c, w, m, 0), 1, 0);
  }

  lemma RoundRuns(step: Stepper, c: Config, w: Width, t: Tally, x: nat, p: Tid, q: Tid)
    requires Steps(step, c, w) && c.size >= 2 && Holds(c, w, t.m, x, 0) && Workers(c, t.m, p, q)
    ensures var m' := HasGot(w, HasPut(c, w, t.m, 0));
            Leads(step, t, Round(p, q), m', 1, 1) && Holds(c, w, m', x + 1, 0) && m'.threads == t.m.threads
  {
    var m1 := HasPut(c, w, t.m, 0);
    PutHolds(step, c, w, t, x, 0, p);
    GetHolds(step, c, w, Tally(m1, t.puts + 1, t.gets), x, 1, q);
    LeadsOn(step, t, PutBegun(p, 0) + Finish(p), m1, 1, 0, GetBegun(q) + Finish(q), HasGot(w, m1), 0, 1);
  }

  lemma {:induction false} RoundsRun(step: Stepper, c: Config, w: Width, t: Tally, x: nat, p: Tid, q: Tid, n: nat)
    returns (m': Machine)
    requires Steps(step, c, w) && c.size >= 2 && Holds(c, w, t.m, x, 0) && Workers(c, t.m, p, q)
    ensures Leads(step, t, Rounds(p, q, n), m', n, n) && Holds(c, w, m', x + n, 0) && m'.threads == t.m.threads
  {
    if n == 0 {
      m' := t.m;
    } else {
      var before := RoundsRun(step, c, w, t, x, p, q, n - 1);
      m' := HasGot(w, HasPut(c, w, before, 0));
      OneMoreRound(step, c, w, t, x + n - 1, p, q, n - 1, Rounds(p, q, n - 1), before);
    }
  }

  lemma OneMoreRound(step: Stepper, c: Config, w: Width, t: Tally, x: nat, p: Tid, q: Tid, n: nat, done: seq<Move>,
                     m: Machine)
    requires Steps(step, c, w) && c.size >= 2 && Holds(c, w, m, x, 0) && Workers(c, m, p, q)
    requires Leads(step, t, done, m, n, n)
    ensures var m' := HasGot(w, HasPut(c, w, m, 0));
            && Leads(step, t, done + Round(p, q), m', n + 1, n + 1)
            && Holds(c, w, m', x + 1, 0) && m'.threads == m.threads
  {
    RoundRuns(step, c, w, Tally(m, t.puts + n, t.gets + n), x, p, q);
    LeadsOn(step, t, done, m, n, n, Round(p, q), HasGot(w, HasPut(c, w, m, 0)), 1, 1);
  }

  lemma {:induction false} FillPermitted(c: Config, p: Tid, k: nat)
    requires c.isSp ==> p == c.producer
    ensures PermittedAll(c, Fill(p, k))
  {
    if k > 0 {
      FillPermitted(c, p, k - 1);
    }
  }

  lemma {:induction false} RoundsPermitted(c: Config, p: Tid, q: Tid, n: nat)
    requires (c.isSp ==> p == c.producer) && (c.isSc ==> q == c.consumer)
    ensures PermittedAll(c, Rounds(p, q, n))
  {
    if n > 0 {
      RoundsPermitted(c, p, q, n - 1);
    }
  }

  /** n rounds, and then k objects left in the ring. */
  lemma LapRuns(step: Stepper, c: Config, w: Width, t: Tally, x: nat, p: Tid, q: Tid, n: nat, k: nat)
    returns (m': Machine)
    requires Steps(step, c, w) && c.size >= 2 && k <= c.Capacity() && Holds(c, w, t.m, x, 0) && Workers(c, t.m, p, q)
    ensures Leads(step, t, Rounds(p, q, n) + Fill(p, k), m', n + k, n)
    ensures Holds(c, w, m', x + n, k) && m'.threads == t.m.threads
  {
    var m1 := RoundsRun(step, c, w, t, x, p, q, n);
    m' := FillRuns(step, c, w, Tally(m1, t.puts + n, t.gets + n), x + n, p, k);
    LeadsOn(step, t, Rounds(p, q, n), m1, n, n, Fill(p, k), m', k, 0);
  }

  // ---------- a sleeper that is lapped ----------

  /** One thread sleeps before its CAS; the others put 2^32 objects and leave the ring full. */
  function LappedPut(s: Tid, p: Tid, q: Tid, cap: nat): seq<Move>
    requires cap <= TWO32
  {
    PutBegun(s, 0) + (Rounds(p, q, TWO32 - cap) + Fill(p, cap)) + Finish(s)
  }

  /** One thread sleeps before its CAS; the others take 2^32 objects and leave the ring empty. */
  function LappedGet(s: Tid, p: Tid, q: Tid): seq<Move>
  {
    PutBegun(p, 0) + Finish(p) + GetBegun(s) + (GetBegun(q) + Finish(q) + Rounds(p, q, TWO32 - 1)) + Finish(s)
  }

  lemma LeadsThrough(step: Stepper, t: Tally, a: seq<Move>, m1: Machine, p1: nat, g1: nat, b: seq<Move>,
                     m2: Machine, p2: nat, g2: nat, d: seq<Move>, m3: Machine, p3: nat, g3: nat)
    requires Leads(step, t, a, m1, p1, g1)
    requires Leads(step, Tally(m1, t.puts + p1, t.gets + g1), b, m2, p2, g2)
    requires Leads(step, Tally(m2, t.puts + p1 + p2, t.gets + g1 + g2), d, m3, p3, g3)
    ensures Leads(step, t, a + b + d, m3, p1 + p2 + p3, g1 + g2 + g3)
  {
    LeadsOn(step, t, a, m1, p1, g1, b, m2, p2, g2);
    LeadsOn(step, t, a + b, m2, p1 + p2, g1 + g2, d, m3, p3, g3);
  }

  lemma LappedPutPermitted(c: Config, s: Tid, p: Tid, q: Tid, cap: nat)
    requires !c.isSp && (c.isSc ==> q == c.consumer) && cap <= TWO32
    ensures PermittedAll(c, LappedPut(s, p, q, cap))
  {
    RoundsPermitted(c, p, q, TWO32 - cap);
    FillPermitted(c, p, cap);
  }

  lemma LappedGetPermitted(c: Config, s: Tid, p: Tid, q: Tid)
    requires !c.isSc && (c.isSp ==> p == c.producer)
    ensures PermittedAll(c, LappedGet(s, p, q))
  {
    RoundsPermitted(c, p, q, TWO32 - 1);
  }

  /** The wrapped head looks as it did 2^32 tickets ago, so the stale CAS succeeds on a ring now full. */
  lemma StalePut(step: Stepper, c: Config, t: Tally, x: nat, s: Tid) returns (m': Machine)
    requires Steps(step, c, Bits32) && x + c.Capacity() == TWO32 && Holds(c, Bits32, t.m, x, c.Capacity())
    requires s < |t.m.threads| && t.m.threads[s] == PChecked(0, 0)
    ensures Leads(step, t, Finish(s), m', 1, 0)
  {
    assert Goto(Goto(t.m, s, Idle), s, PChecked(0, 0)) == t.m;
    PutFinishes(step, c, Bits32, Goto(t.m, s, Idle), s, 0, t.puts, t.gets);
    m' := HasPut(c, Bits32, Goto(t.m, s, Idle), 0);
  }

  /** In the same way a stale CAS of a consumer succeeds on a ring now empty. */
  lemma StaleGet(step: Stepper, c: Config, t: Tally, s: Tid) returns (m': Machine)
    requires Steps(step, c, Bits32) && Holds(c, Bits32, t.m, TWO32, 0)
    requires s < |t.m.threads| && t.m.threads[s] == CChecked(0)
    ensures Leads(step, t, Finish(s), m', 0, 1)
  {
    assert Goto(Goto(t.m, s, Idle), s, CChecked(0)) == t.m;
    GetFinishes(step, c, Bits32, Goto(t.m, s, Idle), s, t.puts, t.gets);
    m' := HasGot(Bits32, Goto(t.m, s, Idle));
  }

  lemma LappedPutRuns(step: Stepper, c: Config, threads: nat, s: Tid, p: Tid, q: Tid) returns (m: Machine)
    requires Steps(step, c, Bits32) && c.size >= 2
    requires s < threads && s != p && s != q && Workers(c, Start(c, threads), p, q)
    ensures Leads(step, Tally(Start(c, threads), 0, 0), LappedPut(s, p, q, c.Capacity()), m,
                  TWO32 + 1, TWO32 - c.Capacity())
  {
    var t, cap, n := Tally(Start(c, threads), 0, 0), c.Capacity(), TWO32 - c.Capacity();
    PutBegins(step, c, Bits32, t, s, 0);
    var m1 := Goto(t.m, s, PChecked(0, 0));
    var m2 := LapRuns(step, c, Bits32, Tally(m1, 0, 0), 0, p, q, n, cap);
    m := StalePut(step, c, Tally(m2, n + cap, n), n, s);
    LeadsThrough(step, t, PutBegun(s, 0), m1, 0, 0, Rounds(p, q, n) + Fill(p, cap), m2, n + cap, n,
                 Finish(s), m, 1, 0);
  }

  lemma GetsPast(step: Stepper, c: Config, t: Tally, p: Tid, q: Tid, n: nat) returns (m': Machine)
    requires Steps(step, c, Bits32) && c.size >= 2 && Holds(c, Bits32, t.m, 0, 1) && Workers(c, t.m, p, q)
    ensures Leads(step, t, GetBegun(q) + Finish(q) + Rounds(p, q, n), m', n, n + 1)
    ensures Holds(c, Bits32, m', n + 1, 0) && m'.threads == t.m.threads
  {
    GetHolds(step, c, Bits32, t, 0, 1, q);
    var m1 := HasGot(Bits32, t.m);
    m' := RoundsRun(step, c, Bits32, Tally(m1, t.puts, t.gets + 1), 1, p, q, n);
    LeadsOn(step, t, GetBegun(q) + Finish(q), m1, 0, 1, Rounds(p, q, n), m', n, n);
  }

  lemma GetSleeps(step: Stepper, c: Config, t: Tally, s: Tid, p: Tid, q: Tid) returns (m: Machine)
    requires Steps(step, c, Bits32) && c.size >= 2 && Holds(c, Bits32, t.m, 0, 0)
    requires Free(c, t.m, s) && s != p && s != q && Workers(c, t.m, p, q)
    ensures Leads(step, t, PutBegun(p, 0) + Finish(p) + GetBegun(s), m, 1, 0)
    ensures Holds(c, Bits32, m, 0, 1) && Workers(c, m, p, q) && s < |m.threads| && m.threads[s] == CChecked(0)
  {
    PutHolds(step, c, Bits32, t, 0, 0, p);
    var m1 := HasPut(c, Bits32, t.m, 0);
    GetBegins(step, c, Bits32, Tally(m1, t.puts + 1, t.gets), s);
    m := Goto(m1, s, CChecked(0));
    LeadsOn(step, t, PutBegun(p, 0) + Finish(p), m1, 1, 0, GetBegun(s), m, 0, 0);
  }

  lemma LappedGetRuns(step: Stepper, c: Config, threads: nat, s: Tid, p: Tid, q: Tid) returns (m: Machine)
    requires Steps(step, c, Bits32) && c.size >= 2
    requires s < threads && s != p && s != q && Workers(c, Start(c, threads), p, q)
    ensures Leads(step, Tally(Start(c, threads), 0, 0), LappedGet(s, p, q), m, TWO32, TWO32 + 1)
  {
    var t, n := Tally(Start(c, threads), 0, 0), TWO32 - 1;
    var m1 := GetSleeps(step, c, t, s, p, q);
    var m2 := GetsPast(step, c, Tally(m1, 1, 0), p, q, n);
    m := StaleGet(step, c, Tally(m2, n + 1, n + 1), s);
    LeadsThrough(step, t, PutBegun(p, 0) + Finish(p) + GetBegun(s), m1, 1, 0,
                 GetBegun(q) + Finish(q) + Rounds(p, q, n), m2, n, n + 1, Finish(s), m, 0, 1);
  }

  /** In the run in which a producer sleeps through 2^32 tickets, the ring ends up with more than its capacity. */
  lemma LappedPutOverfills(c: Config, threads: nat, s: Tid, p: Tid, q: Tid)
    requires c.Valid() && !c.isSp && c.size >= 2
    requires s < threads && s != p && s != q && Workers(c, Start(c, threads), p, q)
    ensures PermittedAll(c, LappedPut(s, p, q, c.Capacity()))
    ensures var r := Run(c, Bits32, Start(c, threads), LappedPut(s, p, q, c.Capacity()));
            |Enqueued(r.events)| == |Dequeued(r.events)| + c.Capacity() + 1
  {
    LappedPutPermitted(c, s, p, q, c.Capacity());
    StepOfSteps(c, Bits32);
    var _ := LappedPutRuns(StepOf(c, Bits32), c, threads, s, p, q);
    AfterIsRun(c, Bits32, Start(c, threads), LappedPut(s, p, q, c.Capacity()));
  }

  /** In the run in which a consumer sleeps through 2^32 tickets, one object more is taken than was put. */
  lemma LappedGetRepeats(c: Config, threads: nat, s: Tid, p: Tid, q: Tid)
    requires c.Valid() && !c.isSc && c.size >= 2
    requires s < threads && s != p && s != q && Workers(c, Start(c, threads), p, q)
    ensures PermittedAll(c, LappedGet(s, p, q))
    ensures var r := Run(c, Bits32, Start(c, threads), LappedGet(s, p, q));
            |Dequeued(r.events)| == |Enqueued(r.events)| + 1
  {
    LappedGetPermitted(c, s, p, q);
    StepOfSteps(c, Bits32);
    var _ := LappedGetRuns(StepOf(c, Bits32), c, threads, s, p, q);
    AfterIsRun(c, Bits32, Start(c, threads), LappedGet(s, p, q));
  }

  // ---------- exactly when ----------

  predicate Fifo(c: Config, events: seq<Event>)
  {
    && Dequeued(events) <= Enqueued(events) <= Claimed(events)
    && |Enqueued(events)| - |Dequeued(events)| <= c.Capacity()
  }

  ghost predicate BuiltFifo(c: Config, threads: nat, schedule: seq<Move>)
    requires c.Valid()
  {
    Fifo(c, Run(c, Bits32, Start(c, threads), schedule).events)
  }

  lemma ExposedBreaks(c: Config, threads: nat) returns (schedule: seq<Move>)
    requires Created(c) && Exposed(c, threads)
    ensures PermittedAll(c, schedule) && !BuiltFifo(c, threads, schedule)
  {
    var w := if c.isSp then c.producer else if c.isSc then c.consumer else 0;
    var s := if w == 0 then 1 else 0;
    if c.isSp {
      schedule := LappedGet(s, w, w);
      LappedGetRepeats(c, threads, s, w, w);
    } else {
      schedule := LappedPut(s, w, w, c.Capacity());
      LappedPutOverfills(c, threads, s, w, w);
    }
  }

  lemma SameRunIsFifo(c: Config, threads: nat, schedule: seq<Move>)
    requires Created(c) && PermittedAll(c, schedule) && SameRun(c, threads, schedule)
    ensures BuiltFifo(c, threads, schedule)
  {
    FirstInFirstOut(c, threads, schedule);
  }

  /**
   The built ring is first-in first-out in every schedule of its threads, and follows the unbounded
   ring step by step in every schedule, exactly when it is not exposed.
   */
  lemma BuiltFifoIff(c: Config, threads: nat)
    requires Created(c)
    ensures (forall schedule :: PermittedAll(c, schedule) ==> BuiltFifo(c, threads, schedule)) <==> !Exposed(c, threads)
    ensures (forall schedule :: PermittedAll(c, schedule) ==> SameRun(c, threads, schedule)) <==> !Exposed(c, threads)
  {
    if Exposed(c, threads) {
      var schedule := ExposedBreaks(c, threads);
      if SameRun(c, threads, schedule) {
        SameRunIsFifo(c, threads, schedule);
      }
    } else {
      forall schedule | PermittedAll(c, schedule)
        ensures SameRun(c, threads, schedule) && BuiltFifo(c, threads, schedule)
      {
        UnexposedRuns(c, threads, schedule);
        SameRunIsFifo(c, threads, schedule);
      }
    }
  }

  // ---------- Used ----------

  /**
   With a put and a get between its two loads, Used() reports a full ring: one object is the most
   the ring holds at any time in this run, and it is empty at both ends.
   */
  lemma UsedRaces(c: Config, threads: nat, p: Tid, q: Tid)
    requires Created(c) && c.size >= 2 && Workers(c, Start(c, threads), p, q)
    ensures PermittedAll(c, Round(p, q))
    ensures var first := Start(c, threads);
            var later := Run(c, Bits32, first, Round(p, q)).m;
            && first.prodTail == first.consTail && later.prodTail == later.consTail
            && Used(c, first.prodTail, later.consTail) == c.Capacity()
  {
    StepOfSteps(c, Bits32);
    RoundRuns(StepOf(c, Bits32), c, Bits32, Tally(Start(c, threads), 0, 0), 0, p, q);
    AfterIsRun(c, Bits32, Start(c, threads), Round(p, q));
    UsedIsMod(c, 0, 1);
    ModShift(-1, 1, c.size);
    ModSmall(c.size - 1, c.size);
  }
}
