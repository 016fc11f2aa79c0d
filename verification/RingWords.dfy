/**
 The ring as it is built: 32-bit cursors that wrap and `& mask` indexing. A run over 32-bit cursors
 is the run over unbounded tickets, reduced modulo 2^32, as long as no thread sleeps through 2^32
 tickets between loading a head and using it.
 */
module RingWords {
  import opened Words
  import opened Ring
  import opened RingSafety

  /** Sizes that Init accepts and that leave room for a slot. */
  predicate Created(c: Config)
  {
    c.Valid() && PowerOf2(c.size)
  }

  function WrapPc(pc: Pc): Pc
  {
    match pc
    case PLoaded(h, o) => PLoaded(h % TWO32, o)
    case PChecked(h, o) => PChecked(h % TWO32, o)
    case PClaimed(h, o) => PClaimed(h % TWO32, o)
    case PWritten(h, o) => PWritten(h % TWO32, o)
    case PReady(h, o) => PReady(h % TWO32, o)
    case CLoaded(h) => CLoaded(h % TWO32)
    case CChecked(h) => CChecked(h % TWO32)
    case CClaimed(h) => CClaimed(h % TWO32)
    case CRead(h, o) => CRead(h % TWO32, o)
    case CReady(h, o) => CReady(h % TWO32, o)
    case _ => pc
  }

  function WrapPcs(pcs: seq<Pc>): (r: seq<Pc>)
    ensures |r| == |pcs|
  {
    seq(|pcs|, i requires 0 <= i < |pcs| => WrapPc(pcs[i]))
  }

  function Wrap(m: Machine): Machine
  {
    Machine(m.prodHead % TWO32, m.prodTail % TWO32, m.consHead % TWO32, m.consTail % TWO32,
            m.slots, WrapPcs(m.threads))
  }

  /** A loaded head is less than 2^32 tickets behind the furthest point it is compared with. */
  predicate Fresh(c: Config, m: Machine, pc: Pc)
  {
    && (pc.PLoaded? || pc.PChecked? ==> m.prodHead + c.Capacity() - pc.head < TWO32)
    && (pc.CLoaded? || pc.CChecked? ==> m.consHead + c.Capacity() - pc.head < TWO32)
  }

  predicate NotLapped(c: Config, m: Machine)
  {
    forall t :: 0 <= t < |m.threads| ==> Fresh(c, m, m.threads[t])
  }

  ghost predicate NeverLapped(c: Config, threads: nat, schedule: seq<Move>)
    requires c.Valid()
  {
    forall n {:trigger schedule[..n]} :: 0 <= n <= |schedule| ==>
      NotLapped(c, Run(c, Unbounded, Start(c, threads), schedule[..n]).m)
  }

  lemma NextWraps(h: nat)
    ensures Bits32.Next(h % TWO32) == (h + 1) % TWO32
  {
  }

  lemma DifferenceWraps(x: nat, y: nat, k: int)
    requires 0 <= k + x - y < TWO32
    ensures Bits32.Difference(k + x % TWO32 - y % TWO32) == k + x - y
  {
  }

  lemma IndexWraps(c: Config, h: nat)
    requires Created(c)
    ensures Bits32.Index(h % TWO32, c.size) == h % c.size
  {
    PowerOf2Iff(c.size);
    var k: nat :| c.size == Pow2(k);
    Pow2Small(k);
    AndMask(h % TWO32, k);
    WrapThenMod(h, k);
  }

  lemma {:induction false} Pow2Small(k: nat)
    requires Pow2(k) < TWO32
    ensures k < 32
  {
    if k >= 32 {
      Pow2At32();
      Pow2Grows(32, k);
    }
  }

  lemma {:induction false} Pow2Grows(j: nat, k: nat)
    requires j <= k
    ensures Pow2(j) <= Pow2(k)
    decreases k - j
  {
    if j < k {
      Pow2Grows(j, k - 1);
    }
  }

  lemma WrapGoto(m: Machine, t: Tid, pc: Pc)
    requires t < |m.threads|
    ensures Wrap(Goto(m, t, pc)) == Goto(Wrap(m), t, WrapPc(pc))
  {
  }

  ghost predicate SameStep(ideal: Result, words: Result)
  {
    words == Result(Wrap(ideal.m), ideal.event)
  }

  /** The cursors a thread compares are less than 2^32 apart. */
  predicate Near(c: Config, m: Machine, pc: Pc)
  {
    match pc
    case PLoaded(h, _) => 0 <= c.Capacity() + m.consTail - h < TWO32
    case PChecked(h, _) => h <= m.prodHead < h + TWO32
    case PWritten(h, _) => m.prodTail <= h < m.prodTail + TWO32
    case CLoaded(h) => 0 <= m.prodTail - h < TWO32
    case CChecked(h) => h <= m.consHead < h + TWO32
    case CRead(h, _) => m.consTail <= h < m.consTail + TWO32
    case _ => true
  }

  lemma NearOf(c: Config, m: Machine, claimed: seq<Obj>, t: Tid)
    requires Created(c) && Inv(c, m, claimed) && NotLapped(c, m) && t < |m.threads|
    ensures Near(c, m, m.threads[t])
  {
  }

  lemma ProducerWraps(c: Config, m: Machine, t: Tid, casFails: bool)
    requires Created(c) && |m.slots| == c.size
    requires t < |m.threads| && Near(c, m, m.threads[t])
    requires m.threads[t].Producing() && !m.threads[t].OwnsPut()
    ensures SameStep(ProducerStep(c, Unbounded, m, t, casFails),
                     ProducerStep(c, Bits32, Wrap(m), t, casFails))
  {
    match m.threads[t]
    case PStart(o) => WrapGoto(m, t, PLoaded(m.prodHead, o));
    case PLoaded(h, o) =>
      DifferenceWraps(m.consTail, h, c.Capacity());
      WrapGoto(m, t, Idle);
      WrapGoto(m, t, PChecked(h, o));
    case PChecked(_, _) => PutClaimWraps(c, m, t, casFails);
  }

  lemma PutClaimWraps(c: Config, m: Machine, t: Tid, casFails: bool)
    requires Created(c) && |m.slots| == c.size
    requires t < |m.threads| && Near(c, m, m.threads[t])
    requires m.threads[t].PChecked?
    ensures SameStep(ProducerStep(c, Unbounded, m, t, casFails),
                     ProducerStep(c, Bits32, Wrap(m), t, casFails))
  {
    var PChecked(h, o) := m.threads[t];
    ModInjective(m.prodHead, h, TWO32);
    NextWraps(h);
    WrapGoto(m.(prodHead := h + 1), t, PClaimed(h, o));
    WrapGoto(m, t, PStart(o));
  }

  lemma PutOwnerWraps(c: Config, m: Machine, t: Tid, casFails: bool)
    requires Created(c) && |m.slots| == c.size
    requires t < |m.threads| && Near(c, m, m.threads[t])
    requires m.threads[t].OwnsPut()
    ensures SameStep(ProducerStep(c, Unbounded, m, t, casFails),
                     ProducerStep(c, Bits32, Wrap(m), t, casFails))
  {
    match m.threads[t]
    case PClaimed(h, o) =>
      IndexWraps(c, h);
      WrapGoto(m.(slots := m.slots[h % c.size := o]), t, PWritten(h, o));
    case PWritten(h, o) =>
      ModInjective(m.prodTail, h, TWO32);
      NextWraps(h);
      WrapGoto(m.(prodTail := h + 1), t, Idle);
      WrapGoto(m, t, PReady(h, o));
    case PReady(h, o) =>
      NextWraps(h);
      WrapGoto(m.(prodTail := h + 1), t, Idle);
  }

  lemma ConsumerWraps(c: Config, m: Machine, t: Tid, casFails: bool)
    requires Created(c) && |m.slots| == c.size
    requires t < |m.threads| && Near(c, m, m.threads[t])
    requires m.threads[t].Consuming() && !m.threads[t].OwnsGet()
    ensures SameStep(ConsumerStep(c, Unbounded, m, t, casFails),
                     ConsumerStep(c, Bits32, Wrap(m), t, casFails))
  {
    match m.threads[t]
    case CStart => WrapGoto(m, t, CLoaded(m.consHead));
    case CLoaded(h) =>
      DifferenceWraps(m.prodTail, h, 0);
      WrapGoto(m, t, Idle);
      WrapGoto(m, t, CChecked(h));
    case CChecked(_) => GetClaimWraps(c, m, t, casFails);
  }

  lemma GetClaimWraps(c: Config, m: Machine, t: Tid, casFails: bool)
    requires Created(c) && |m.slots| == c.size
    requires t < |m.threads| && Near(c, m, m.threads[t])
    requires m.threads[t].CChecked?
    ensures SameStep(ConsumerStep(c, Unbounded, m, t, casFails),
                     ConsumerStep(c, Bits32, Wrap(m), t, casFails))
  {
    var CChecked(h) := m.threads[t];
    ModInjective(m.consHead, h, TWO32);
    NextWraps(h);
    WrapGoto(m.(consHead := h + 1), t, CClaimed(h));
    WrapGoto(m, t, CStart);
  }

  lemma GetOwnerWraps(c: Config, m: Machine, t: Tid, casFails: bool)
    requires Created(c) && |m.slots| == c.size
    requires t < |m.threads| && Near(c, m, m.threads[t])
    requires m.threads[t].OwnsGet()
    ensures SameStep(ConsumerStep(c, Unbounded, m, t, casFails),
                     ConsumerStep(c, Bits32, Wrap(m), t, casFails))
  {
    match m.threads[t]
    case CClaimed(h) =>
      IndexWraps(c, h);
      WrapGoto(m, t, CRead(h, m.slots[h % c.size]));
    case CRead(h, o) =>
      ModInjective(m.consTail, h, TWO32);
      NextWraps(h);
      WrapGoto(m.(consTail := h + 1), t, Idle);
      WrapGoto(m, t, CReady(h, o));
    case CReady(h, o) =>
      NextWraps(h);
      WrapGoto(m.(consTail := h + 1), t, Idle);
  }

  lemma WrapKeepsKind(pc: Pc)
    ensures WrapPc(pc).Producing() == pc.Producing() && WrapPc(pc).Consuming() == pc.Consuming()
    ensures WrapPc(pc).Idle? == pc.Idle?
  {
  }

  lemma PutWraps(c: Config, m: Machine, t: Tid, fails: bool)
    requires Created(c) && |m.slots| == c.size
    requires t < |m.threads| && Near(c, m, m.threads[t]) && m.threads[t].Producing()
    ensures SameStep(ProducerStep(c, Unbounded, m, t, fails), ProducerStep(c, Bits32, Wrap(m), t, fails))
  {
    if m.threads[t].OwnsPut() {
      PutOwnerWraps(c, m, t, fails);
    } else {
      ProducerWraps(c, m, t, fails);
    }
  }

  lemma GetWraps(c: Config, m: Machine, t: Tid, fails: bool)
    requires Created(c) && |m.slots| == c.size
    requires t < |m.threads| && Near(c, m, m.threads[t]) && m.threads[t].Consuming()
    ensures SameStep(ConsumerStep(c, Unbounded, m, t, fails), ConsumerStep(c, Bits32, Wrap(m), t, fails))
  {
    if m.threads[t].OwnsGet() {
      GetOwnerWraps(c, m, t, fails);
    } else {
      ConsumerWraps(c, m, t, fails);
    }
  }

  lemma StepWraps(c: Config, m: Machine, claimed: seq<Obj>, mv: Move)
    requires Created(c) && Inv(c, m, claimed) && NotLapped(c, m)
    ensures SameStep(Step(c, Unbounded, m, mv), Step(c, Bits32, Wrap(m), mv))
  {
    if mv.tid < |m.threads| {
      NearOf(c, m, claimed, mv.tid);
      WrapKeepsKind(m.threads[mv.tid]);
      match mv.action
      case Enqueue(o) => WrapGoto(m, mv.tid, PStart(o));
      case Dequeue => WrapGoto(m, mv.tid, CStart);
      case Advance(fails) =>
        if m.threads[mv.tid].Producing() {
          PutWraps(c, m, mv.tid, fails);
        } else if m.threads[mv.tid].Consuming() {
          GetWraps(c, m, mv.tid, fails);
        }
    }
  }

  /** Refinement: the 32-bit run shows the same events and reaches the wrapped ideal machine. */
  lemma {:induction false} RunWraps(c: Config, threads: nat, schedule: seq<Move>)
    requires Created(c) && PermittedAll(c, schedule) && NeverLapped(c, threads, schedule)
    ensures var ideal := Run(c, Unbounded, Start(c, threads), schedule);
            Run(c, Bits32, Start(c, threads), schedule) == Trace(Wrap(ideal.m), ideal.events)
  {
    if schedule == [] {
      assert WrapPcs(Start(c, threads).threads) == Start(c, threads).threads;
    } else {
      var n := |schedule| - 1;
      NeverLappedBefore(c, threads, schedule, n);
      RunWraps(c, threads, schedule[..n]);
      RunKeeps(c, threads, schedule[..n]);
      var before := Run(c, Unbounded, Start(c, threads), schedule[..n]);
      StepWraps(c, before.m, Claimed(before.events), schedule[n]);
    }
  }

  lemma NeverLappedBefore(c: Config, threads: nat, schedule: seq<Move>, n: nat)
    requires c.Valid() && n <= |schedule| && NeverLapped(c, threads, schedule)
    ensures NeverLapped(c, threads, schedule[..n])
    ensures NotLapped(c, Run(c, Unbounded, Start(c, threads), schedule[..n]).m)
  {
    forall k | 0 <= k <= n
      ensures NotLapped(c, Run(c, Unbounded, Start(c, threads), schedule[..n][..k]).m)
    {
      assert schedule[..n][..k] == schedule[..k];
    }
  }

  /** First-in first-out order, for the ring as built. */
  lemma BuiltRingIsFifo(c: Config, threads: nat, schedule: seq<Move>)
    requires Created(c) && PermittedAll(c, schedule) && NeverLapped(c, threads, schedule)
    ensures var r := Run(c, Bits32, Start(c, threads), schedule);
            && Dequeued(r.events) <= Enqueued(r.events) <= Claimed(r.events)
            && |Enqueued(r.events)| - |Dequeued(r.events)| <= c.Capacity()
  {
    RunWraps(c, threads, schedule);
    FirstInFirstOut(c, threads, schedule);
  }

  lemma LastEvent(c: Config, w: Width, start: Machine, schedule: seq<Move>)
    requires c.Valid() && |start.slots| == c.size && schedule != []
    ensures var n := |schedule| - 1;
            var before := Run(c, w, start, schedule[..n]);
            Run(c, w, start, schedule).events == before.events + [Step(c, w, before.m, schedule[n]).event]
  {
  }

  lemma {:induction false} EventAt(c: Config, w: Width, start: Machine, schedule: seq<Move>, k: nat)
    requires c.Valid() && |start.slots| == c.size && k < |schedule|
    ensures Run(c, w, start, schedule).events[k]
            == Step(c, w, Run(c, w, start, schedule[..k]).m, schedule[k]).event
  {
    var n := |schedule| - 1;
    var events := Run(c, w, start, schedule).events;
    LastEvent(c, w, start, schedule);
    if k < n {
      EventAt(c, w, start, schedule[..n], k);
      assert schedule[..n][..k] == schedule[..k] && schedule[..n][k] == schedule[k];
      assert events[k] == Run(c, w, start, schedule[..n]).events[k];
    }
  }

  /** At any point of any run of the built ring, a "full" or "empty" answer was true when it was formed. */
  lemma AnswersAlongTheRun(c: Config, threads: nat, schedule: seq<Move>, k: nat)
    requires Created(c) && PermittedAll(c, schedule) && NeverLapped(c, threads, schedule)
    requires k < |schedule|
    ensures var e := Run(c, Bits32, Start(c, threads), schedule).events[k];
            var atThen := Run(c, Unbounded, Start(c, threads), schedule[..k]).m;
            && (e.Full? ==> atThen.prodHead - atThen.consTail == c.Capacity())
            && (e.Empty? ==> atThen.prodTail == atThen.consHead)
  {
    RunWraps(c, threads, schedule);
    EventAt(c, Unbounded, Start(c, threads), schedule, k);
    RunKeeps(c, threads, schedule[..k]);
    var before := Run(c, Unbounded, Start(c, threads), schedule[..k]);
    StepKeeps(c, before.m, Claimed(before.events), schedule[k]);
  }

  // ---------- Used ----------

  /** The fill level computed from a producer tail and a consumer tail. */
  function Used(c: Config, prodTail: nat, consTail: nat): nat
    requires c.Valid()
  {
    var count := And(Bits32.Difference(prodTail - consTail), c.size - 1);
    if count > c.Capacity() then c.Capacity() else count
  }

  lemma UsedIsMod(c: Config, p: nat, q: nat)
    requires Created(c)
    ensures Used(c, p % TWO32, q % TWO32) == (p - q) % c.size
  {
    PowerOf2Iff(c.size);
    var k: nat :| c.size == Pow2(k);
    Pow2Small(k);
    DifferenceThenMod(p, q);
    AndMask((p - q) % TWO32, k);
    WrapThenMod(p - q, k);
  }

  lemma UsedGap(c: Config, p: nat, q: nat)
    requires Created(c) && p - q <= c.Capacity()
    ensures Used(c, p % TWO32, q % TWO32) == p - q <==> q <= p
  {
    UsedIsMod(c, p, q);
    if q <= p {
      ModSmall(p - q, c.size);
    }
  }

  lemma EventsBefore(c: Config, w: Width, start: Machine, schedule: seq<Move>, n: nat)
    requires c.Valid() && |start.slots| == c.size && n <= |schedule|
    ensures Run(c, w, start, schedule[..n]).events == Run(c, w, start, schedule).events[..n]
  {
    var part := schedule[..n];
    forall k | 0 <= k < n ensures Run(c, w, start, part).events[k] == Run(c, w, start, schedule).events[k] {
      EventAt(c, w, start, part, k);
      EventAt(c, w, start, schedule, k);
      assert part[..k] == schedule[..k];
    }
  }

  lemma {:induction false} DequeuedGrows(events: seq<Event>, j: nat, k: nat)
    requires j <= k <= |events|
    ensures |Dequeued(events[..j])| <= |Dequeued(events[..k])|
    decreases k - j
  {
    if j < k {
      DequeuedGrows(events, j, k - 1);
      assert events[..k] == events[..k - 1] + [events[k - 1]];
      ProjectionsGrow(events[..k - 1], events[k - 1]);
    }
  }

  /**
   Used() reads the producer tail first and the consumer tail later. What it makes of the two is the
   number of objects put at the first instant and not taken at the second, exactly when the
   consumers have not meanwhile passed the tail that was read.
   */
  lemma UsedIff(c: Config, threads: nat, schedule: seq<Move>, j: nat, k: nat)
    requires Created(c) && PermittedAll(c, schedule) && NeverLapped(c, threads, schedule)
    requires j <= k <= |schedule|
    ensures var first := Run(c, Bits32, Start(c, threads), schedule[..j]);
            var later := Run(c, Bits32, Start(c, threads), schedule[..k]);
            var gap := |Enqueued(first.events)| - |Dequeued(later.events)|;
            Used(c, first.m.prodTail, later.m.consTail) == gap <==> gap >= 0
  {
    NeverLappedBefore(c, threads, schedule, j);
    NeverLappedBefore(c, threads, schedule, k);
    RunWraps(c, threads, schedule[..j]);
    RunWraps(c, threads, schedule[..k]);
    TailsCount(c, threads, schedule[..j]);
    TailsCount(c, threads, schedule[..k]);
    EventsBefore(c, Unbounded, Start(c, threads), schedule, j);
    EventsBefore(c, Unbounded, Start(c, threads), schedule, k);
    DequeuedGrows(Run(c, Unbounded, Start(c, threads), schedule).events, j, k);
    UsedGap(c, Run(c, Unbounded, Start(c, threads), schedule[..j]).m.prodTail,
            Run(c, Unbounded, Start(c, threads), schedule[..k]).m.consTail);
  }

  lemma TailsCount(c: Config, threads: nat, schedule: seq<Move>)
    requires c.Valid() && PermittedAll(c, schedule)
    ensures var r := Run(c, Unbounded, Start(c, threads), schedule);
            && r.m.prodTail == |Enqueued(r.events)| && r.m.consTail == |Dequeued(r.events)|
            && r.m.prodTail - r.m.consTail <= c.Capacity()
  {
    RunKeeps(c, threads, schedule);
  }

  /** Read at one instant, Used() is the number of published objects that are not released. */
  lemma UsedAtAnInstant(c: Config, threads: nat, schedule: seq<Move>)
    requires Created(c) && PermittedAll(c, schedule) && NeverLapped(c, threads, schedule)
    ensures var r := Run(c, Bits32, Start(c, threads), schedule);
            Used(c, r.m.prodTail, r.m.consTail) == |Enqueued(r.events)| - |Dequeued(r.events)|
  {
    BuiltRingIsFifo(c, threads, schedule);
    assert schedule[..|schedule|] == schedule;
    UsedIff(c, threads, schedule, |schedule|, |schedule|);
  }

  // ---------- progress ----------

  /** While a producer ticket is unpublished, some thread can take a step that is not a spin. */
  lemma NeverStuck(c: Config, threads: nat, schedule: seq<Move>)
    requires c.Valid() && PermittedAll(c, schedule)
    ensures var m := Run(c, Unbounded, Start(c, threads), schedule).m;
            && (m.prodTail < m.prodHead ==>
                  exists t: Tid :: PutOwner(m, t, m.prodTail)
                                   && Step(c, Unbounded, m, Move(t, Advance(false))).m != m)
            && (m.consTail < m.consHead ==>
                  exists t: Tid :: GetOwner(m, t, m.consTail)
                                   && Step(c, Unbounded, m, Move(t, Advance(false))).m != m)
  {
    RunKeeps(c, threads, schedule);
    var m := Run(c, Unbounded, Start(c, threads), schedule).m;
    if m.prodTail < m.prodHead {
      assert PutOwned(m, m.prodTail);
      var t: Tid :| PutOwner(m, t, m.prodTail);
      assert m.threads[t] != Step(c, Unbounded, m, Move(t, Advance(false))).m.threads[t];
    }
    if m.consTail < m.consHead {
      assert GetOwned(m, m.consTail);
      var t: Tid :| GetOwner(m, t, m.consTail);
      assert m.threads[t] != Step(c, Unbounded, m, Move(t, Advance(false))).m.threads[t];
    }
  }
}
