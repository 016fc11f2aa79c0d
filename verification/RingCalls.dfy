/**
 The calls of each thread: what it asked for, in order, and what each call came back with. No call ends
 without its answer, and a call that is left alone ends within eight accesses.
 */
module RingCalls {
  import opened Ring
  import opened RingSafety

  datatype Call = Putting(obj: Obj) | Getting

  /** The call a thread is in, if any. */
  function CallOf(pc: Pc): (calls: seq<Call>)
    ensures |calls| == if pc.Idle? then 0 else 1
  {
    if pc.Producing() then [Putting(pc.obj)] else if pc.Consuming() then [Getting] else []
  }

  predicate IsAnswer(e: Event)
  {
    e.Put? || e.Full? || e.Got? || e.Empty?
  }

  /** An Enqueue returns success for its own object or "full", a Dequeue returns an object or "empty". */
  predicate Answers(call: Call, e: Event)
  {
    match call
    case Putting(o) => e == Put(o) || e == Full
    case Getting => e.Got? || e.Empty?
  }

  /** What an idle thread is given to do. */
  function Begun(action: Action): seq<Call>
  {
    match action
    case Enqueue(o) => [Putting(o)]
    case Dequeue => [Getting]
    case Advance(_) => []
  }

  /**
   A move begins a call of an idle thread, ends the thread's call with an answer to it, or leaves the
   thread in the same call without an answer. No other thread is touched.
   */
  lemma StepAnswers(c: Config, w: Width, m: Machine, mv: Move, t: Tid)
    requires c.Valid() && |m.slots| == c.size && t < |m.threads|
    ensures var r := Step(c, w, m, mv);
            var before, after := CallOf(m.threads[t]), CallOf(r.m.threads[t]);
            if mv.tid != t then r.m.threads[t] == m.threads[t]
            else if before == [] then !IsAnswer(r.event) && after == Begun(mv.action)
            else if IsAnswer(r.event) then Answers(before[0], r.event) && after == []
            else after == before
  {
    var r := Step(c, w, m, mv);
    if mv.tid < |m.threads| {
      var pc := m.threads[mv.tid];
      if mv.action.Advance? && pc.Producing() {
        assert r == ProducerStep(c, w, m, mv.tid, mv.action.casFails);
      } else if mv.action.Advance? && pc.Consuming() {
        assert r == ConsumerStep(c, w, m, mv.tid, mv.action.casFails);
      }
    }
  }

  /** The calls a thread began. */
  function Asked(c: Config, w: Width, start: Machine, schedule: seq<Move>, t: Tid): seq<Call>
    requires c.Valid() && |start.slots| == c.size && t < |start.threads|
  {
    if schedule == [] then []
    else
      var before := schedule[..|schedule| - 1];
      var mv := schedule[|schedule| - 1];
      Asked(c, w, start, before, t)
      + if mv.tid == t && Run(c, w, start, before).m.threads[t].Idle? then Begun(mv.action) else []
  }

  /** The answers a thread got. */
  function Answered(schedule: seq<Move>, events: seq<Event>, t: Tid): seq<Event>
    requires |events| == |schedule|
  {
    if schedule == [] then []
    else
      var n := |schedule| - 1;
      Answered(schedule[..n], events[..n], t)
      + if schedule[n].tid == t && IsAnswer(events[n]) then [events[n]] else []
  }

  /** Each call but the last has its answer; the last one has none exactly while the thread is in it. */
  predicate Matched(asked: seq<Call>, answered: seq<Event>, pc: Pc)
  {
    && |asked| == |answered| + |CallOf(pc)|
    && asked[|answered|..] == CallOf(pc)
    && forall i :: 0 <= i < |answered| ==> Answers(asked[i], answered[i])
  }

  lemma MatchedStep(asked: seq<Call>, answered: seq<Event>, pc: Pc, e: Event, pc': Pc)
    requires Matched(asked, answered, pc)
    requires if CallOf(pc) == [] then !IsAnswer(e)
             else if IsAnswer(e) then Answers(CallOf(pc)[0], e) && CallOf(pc') == []
             else CallOf(pc') == CallOf(pc)
    ensures Matched(asked + if pc.Idle? then CallOf(pc') else [],
                    answered + if IsAnswer(e) then [e] else [], pc')
  {
    if CallOf(pc) != [] {
      assert asked[|answered|] == asked[|answered|..][0] == CallOf(pc)[0];
    }
  }

  /** Over every run the calls a thread began are its answers in order, and the call it is still in. */
  lemma {:induction false} RunAnswers(c: Config, w: Width, start: Machine, schedule: seq<Move>, t: Tid)
    requires c.Valid() && |start.slots| == c.size && t < |start.threads| && start.threads[t].Idle?
    ensures var r := Run(c, w, start, schedule);
            Matched(Asked(c, w, start, schedule, t), Answered(schedule, r.events, t), r.m.threads[t])
  {
    if schedule != [] {
      var n := |schedule| - 1;
      RunAnswers(c, w, start, schedule[..n], t);
      var before := Run(c, w, start, schedule[..n]);
      var r := Run(c, w, start, schedule);
      StepAnswers(c, w, before.m, schedule[n], t);
      assert r.events[..n] == before.events;
      if schedule[n].tid == t {
        MatchedStep(Asked(c, w, start, schedule[..n], t), Answered(schedule[..n], before.events, t),
                    before.m.threads[t], r.events[n], r.m.threads[t]);
      }
    }
  }

  // ---------- a call left alone ----------

  ghost predicate Sound(c: Config, m: Machine)
    requires c.Valid()
  {
    exists claimed :: Inv(c, m, claimed)
  }

  /** No other thread holds a ticket. */
  predicate Alone(m: Machine, t: Tid)
  {
    && t < |m.threads|
    && forall u :: 0 <= u < |m.threads| && u != t ==> !m.threads[u].OwnsPut() && !m.threads[u].OwnsGet()
  }

  /** How many accesses a call makes at most from here on when no other thread moves. */
  function Left(m: Machine, pc: Pc): (n: nat)
    ensures n <= 8 && (n == 0 <==> pc.Idle?)
  {
    match pc
    case Idle => 0
    case PStart(_) => 6
    case PLoaded(h, _) => if h == m.prodHead then 5 else 8
    case PChecked(h, _) => if h == m.prodHead then 4 else 7
    case PClaimed(_, _) => 3
    case PWritten(_, _) => 2
    case PReady(_, _) => 1
    case CStart => 6
    case CLoaded(h) => if h == m.consHead then 5 else 8
    case CChecked(h) => if h == m.consHead then 4 else 7
    case CClaimed(_) => 3
    case CRead(_, _) => 2
    case CReady(_, _) => 1
  }

  /** The only thread with a ticket holds the oldest one. */
  lemma AloneHoldsOldest(c: Config, m: Machine, claimed: seq<Obj>, t: Tid)
    requires c.Valid() && Inv(c, m, claimed) && Alone(m, t)
    ensures m.threads[t].OwnsPut() ==> m.threads[t].head == m.prodTail
    ensures m.threads[t].OwnsGet() ==> m.threads[t].head == m.consTail
  {
    if m.threads[t].OwnsPut() {
      assert m.prodTail < m.prodHead;
      assert PutOwned(m, m.prodTail);
    }
    if m.threads[t].OwnsGet() {
      assert m.consTail < m.consHead;
      assert GetOwned(m, m.consTail);
    }
  }

  lemma AlonePutAdvances(c: Config, m: Machine, claimed: seq<Obj>, t: Tid)
    requires c.Valid() && Inv(c, m, claimed) && Alone(m, t) && m.threads[t].Producing()
    ensures var m' := ProducerStep(c, Unbounded, m, t, false).m; Left(m', m'.threads[t]) < Left(m, m.threads[t])
  {
    AloneHoldsOldest(c, m, claimed, t);
  }

  lemma AloneGetAdvances(c: Config, m: Machine, claimed: seq<Obj>, t: Tid)
    requires c.Valid() && Inv(c, m, claimed) && Alone(m, t) && m.threads[t].Consuming()
    ensures var m' := ConsumerStep(c, Unbounded, m, t, false).m; Left(m', m'.threads[t]) < Left(m, m.threads[t])
  {
    AloneHoldsOldest(c, m, claimed, t);
  }

  lemma AloneStep(c: Config, m: Machine, t: Tid)
    requires c.Valid() && Sound(c, m) && Alone(m, t)
    ensures var r := Step(c, Unbounded, m, Move(t, Advance(false)));
            && Sound(c, r.m) && Alone(r.m, t)
            && (m.threads[t].Idle? ==> r.m == m)
            && (!m.threads[t].Idle? ==> Left(r.m, r.m.threads[t]) < Left(m, m.threads[t]))
  {
    var claimed :| Inv(c, m, claimed);
    var mv := Move(t, Advance(false));
    StepKeeps(c, m, claimed, mv);
    forall u | 0 <= u < |m.threads| && u != t
      ensures Step(c, Unbounded, m, mv).m.threads[u] == m.threads[u]
    {
      StepAnswers(c, Unbounded, m, mv, u);
    }
    if m.threads[t].Producing() {
      AlonePutAdvances(c, m, claimed, t);
    } else if m.threads[t].Consuming() {
      AloneGetAdvances(c, m, claimed, t);
    }
  }

  function Accesses(t: Tid, n: nat): seq<Move>
  {
    seq(n, i => Move(t, Advance(false)))
  }

  lemma {:induction false} AloneRuns(c: Config, m: Machine, t: Tid, n: nat)
    requires c.Valid() && Sound(c, m) && Alone(m, t)
    ensures var r := Run(c, Unbounded, m, Accesses(t, n));
            Sound(c, r.m) && Alone(r.m, t) && Left(r.m, r.m.threads[t]) <= if n < 8 then 8 - n else 0
  {
    if n > 0 {
      AloneRuns(c, m, t, n - 1);
      assert Accesses(t, n)[..n - 1] == Accesses(t, n - 1);
      AloneStep(c, Run(c, Unbounded, m, Accesses(t, n - 1)).m, t);
    }
  }

  /**
   From wherever a run has come to, a thread that is alone with its tickets ends its call within eight
   accesses of its own; by RunAnswers it then has its answer.
   */
  lemma AloneAnswers(c: Config, threads: nat, schedule: seq<Move>, t: Tid)
    requires c.Valid() && PermittedAll(c, schedule)
    requires Alone(Run(c, Unbounded, Start(c, threads), schedule).m, t)
    ensures var m := Run(c, Unbounded, Start(c, threads), schedule).m;
            Run(c, Unbounded, m, Accesses(t, 8)).m.threads[t].Idle?
  {
    RunKeeps(c, threads, schedule);
    AloneRuns(c, Run(c, Unbounded, Start(c, threads), schedule).m, t, 8);
  }

  // ---------- a thread that sleeps ----------

  /** A thread that sleeps with the oldest ticket of its side. */
  predicate HoldsUp(m: Machine, t: Tid)
  {
    PutOwner(m, t, m.prodTail)
  }

  lemma SleeperStep(c: Config, m: Machine, t: Tid, mv: Move)
    requires c.Valid() && Sound(c, m) && HoldsUp(m, t) && mv.tid != t && Permitted(c, mv)
    ensures var r := Step(c, Unbounded, m, mv);
            Sound(c, r.m) && HoldsUp(r.m, t) && r.m.prodTail == m.prodTail && !r.event.Put?
  {
    var claimed :| Inv(c, m, claimed);
    StepKeeps(c, m, claimed, mv);
    StepAnswers(c, Unbounded, m, mv, t);
    if mv.tid < |m.threads| {
      SingleHolds(c, m, claimed, mv.tid);
      var r := Step(c, Unbounded, m, mv);
      assert m.threads[mv.tid].OwnsPut() ==> !PutOwner(m, mv.tid, m.prodTail);
      if mv.action.Advance? && m.threads[mv.tid].Producing() {
        assert r == ProducerStep(c, Unbounded, m, mv.tid, mv.action.casFails);
      } else if mv.action.Advance? && m.threads[mv.tid].Consuming() {
        assert r == ConsumerStep(c, Unbounded, m, mv.tid, mv.action.casFails);
      }
    }
  }

  /** While the thread with the oldest unpublished ticket does not move, no Enqueue of any thread succeeds. */
  lemma {:induction false} SleeperHoldsUp(c: Config, m: Machine, schedule: seq<Move>, t: Tid)
    requires c.Valid() && Sound(c, m) && HoldsUp(m, t) && PermittedAll(c, schedule)
    requires forall k :: 0 <= k < |schedule| ==> schedule[k].tid != t
    ensures var r := Run(c, Unbounded, m, schedule);
            Sound(c, r.m) && HoldsUp(r.m, t) && r.m.prodTail == m.prodTail && Enqueued(r.events) == []
  {
    if schedule != [] {
      var n := |schedule| - 1;
      SleeperHoldsUp(c, m, schedule[..n], t);
      var before := Run(c, Unbounded, m, schedule[..n]);
      SleeperStep(c, before.m, t, schedule[n]);
      ProjectionsGrow(before.events, Step(c, Unbounded, before.m, schedule[n]).event);
    }
  }
}
