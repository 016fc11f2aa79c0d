/** What every interleaving of the ring keeps, and first-in first-out order over whole runs. */
module RingSafety {
  import opened Words
  import opened Ring

  /** The claimed objects after an event. */
  function Extended(claimed: seq<Obj>, e: Event): seq<Obj>
  {
    if e.Claim? then claimed + [e.obj] else claimed
  }

  /** The step publishes (releases) the ticket at the tail, with the object that ticket claimed. */
  predicate TailsFollow(m: Machine, m': Machine, e: Event, claimed: seq<Obj>)
  {
    && m'.prodTail == m.prodTail + (if e.Put? then 1 else 0)
    && m'.consTail == m.consTail + (if e.Got? then 1 else 0)
    && (e.Put? ==> m.prodTail < |claimed| && e.obj == claimed[m.prodTail])
    && (e.Got? ==> m.consTail < |claimed| && e.obj == claimed[m.consTail])
  }

  /** "Full" and "empty" are true of the ring at the instant the opposite tail was read. */
  predicate AnswersTrue(c: Config, m: Machine, e: Event)
  {
    && (e.Full? ==> m.prodHead == m.consTail + c.Capacity())
    && (e.Empty? ==> m.prodTail == m.consHead)
  }

  ghost predicate StepGood(c: Config, m: Machine, r: Result, claimed: seq<Obj>)
    requires c.Valid()
  {
    && Inv(c, r.m, Extended(claimed, r.event))
    && TailsFollow(m, r.m, r.event, claimed)
    && AnswersTrue(c, m, r.event)
  }

  lemma SlotsApart(i: nat, j: nat, size: nat)
    requires 0 < size && i != j && i < j + size && j < i + size
    ensures i % size != j % size
  {
    ModInjective(i, j, size);
  }

  /** The tickets held after a step, given how the holders changed. */
  lemma OwnersKept(m: Machine, m': Machine, t: Tid)
    requires t < |m.threads| == |m'.threads|
    requires forall u :: 0 <= u < |m.threads| && u != t ==> m'.threads[u] == m.threads[u]
    requires OneOwner(m) && SomeOwner(m)
    requires m'.prodTail == m.prodTail && m'.prodHead == m.prodHead
    requires m'.consTail == m.consTail && m'.consHead == m.consHead
    requires m'.threads[t].OwnsPut() == m.threads[t].OwnsPut()
    requires m'.threads[t].OwnsGet() == m.threads[t].OwnsGet()
    requires m.threads[t].OwnsPut() || m.threads[t].OwnsGet() ==> m'.threads[t].head == m.threads[t].head
    ensures OneOwner(m') && SomeOwner(m')
  {
    PutOwnersSame(m, m', t);
    GetOwnersSame(m, m', t);
  }

  lemma PutOwnersSame(m: Machine, m': Machine, t: Tid)
    requires t < |m.threads| == |m'.threads|
    requires forall u :: 0 <= u < |m.threads| && u != t ==> m'.threads[u] == m.threads[u]
    requires m'.threads[t].OwnsPut() == m.threads[t].OwnsPut()
    requires m.threads[t].OwnsPut() ==> m'.threads[t].head == m.threads[t].head
    ensures forall u: Tid, i: nat :: PutOwner(m', u, i) == PutOwner(m, u, i)
    ensures forall i: nat :: PutOwned(m', i) == PutOwned(m, i)
  {
  }

  lemma GetOwnersSame(m: Machine, m': Machine, t: Tid)
    requires t < |m.threads| == |m'.threads|
    requires forall u :: 0 <= u < |m.threads| && u != t ==> m'.threads[u] == m.threads[u]
    requires m'.threads[t].OwnsGet() == m.threads[t].OwnsGet()
    requires m.threads[t].OwnsGet() ==> m'.threads[t].head == m.threads[t].head
    ensures forall u: Tid, i: nat :: GetOwner(m', u, i) == GetOwner(m, u, i)
    ensures forall i: nat :: GetOwned(m', i) == GetOwned(m, i)
  {
  }

  lemma LocalStep(c: Config, m: Machine, claimed: seq<Obj>, t: Tid, pc: Pc)
    requires c.Valid() && Inv(c, m, claimed) && t < |m.threads|
    requires ThreadOk(c, m, claimed, pc)
    requires pc.OwnsPut() == m.threads[t].OwnsPut() && pc.OwnsGet() == m.threads[t].OwnsGet()
    requires m.threads[t].OwnsPut() || m.threads[t].OwnsGet() ==> pc.head == m.threads[t].head
    requires c.isSp && pc.Producing() ==> t == c.producer
    requires c.isSc && pc.Consuming() ==> t == c.consumer
    ensures Inv(c, Goto(m, t, pc), claimed)
  {
    OwnersKept(m, Goto(m, t, pc), t);
  }

  // ---------- claiming a producer ticket ----------

  lemma ClaimPutOwners(m: Machine, t: Tid, h: nat, o: Obj)
    requires OneOwner(m) && SomeOwner(m) && t < |m.threads|
    requires m.threads[t] == PChecked(h, o) && h == m.prodHead
    requires forall u: Tid :: !PutOwner(m, u, h)
    ensures var m' := Goto(m.(prodHead := h + 1), t, PClaimed(h, o));
            OneOwner(m') && SomeOwner(m')
  {
    var m' := Goto(m.(prodHead := h + 1), t, PClaimed(h, o));
    GetOwnersSame(m, m', t);
    assert forall u: Tid, i: nat :: PutOwner(m', u, i) == (PutOwner(m, u, i) || (u == t && i == h));
    assert PutOwner(m', t, h);
    forall i: nat | m'.prodTail <= i < m'.prodHead
      ensures PutOwned(m', i)
    {
      if i < h {
        assert PutOwned(m, i);
        var u: Tid :| PutOwner(m, u, i);
        assert PutOwner(m', u, i);
      }
    }
  }

  lemma ClaimPut(c: Config, m: Machine, claimed: seq<Obj>, t: Tid, h: nat, o: Obj)
    requires c.Valid() && Inv(c, m, claimed) && t < |m.threads|
    requires m.threads[t] == PChecked(h, o) && h == m.prodHead
    ensures Inv(c, Goto(m.(prodHead := h + 1), t, PClaimed(h, o)), claimed + [o])
  {
    var m' := Goto(m.(prodHead := h + 1), t, PClaimed(h, o));
    assert ThreadOk(c, m, claimed, m.threads[t]);
    ClaimPutOwners(m, t, h, o);
    forall u | 0 <= u < |m.threads|
      ensures ThreadOk(c, m', claimed + [o], m'.threads[u])
    {
      assert ThreadOk(c, m, claimed, m.threads[u]);
    }
  }

  // ---------- writing the slot ----------

  lemma WriteSlot(c: Config, m: Machine, claimed: seq<Obj>, t: Tid, h: nat, o: Obj)
    requires c.Valid() && Inv(c, m, claimed) && t < |m.threads|
    requires m.threads[t] == PClaimed(h, o)
    ensures Inv(c, Goto(m.(slots := m.slots[h % c.size := o]), t, PWritten(h, o)), claimed)
  {
    var m' := Goto(m.(slots := m.slots[h % c.size := o]), t, PWritten(h, o));
    OwnersKept(m, m', t);
    assert ThreadOk(c, m, claimed, m.threads[t]);
    forall i | m.consTail <= i < m.prodTail
      ensures m'.slots[i % c.size] == claimed[i]
    {
      SlotsApart(i, h, c.size);
    }
    forall u | 0 <= u < |m.threads|
      ensures ThreadOk(c, m', claimed, m'.threads[u])
    {
      assert ThreadOk(c, m, claimed, m.threads[u]);
      if u != t && m.threads[u].OwnsPut() {
        var i := m.threads[u].head;
        assert PutOwner(m, u, i) && PutOwner(m, t, h);
        SlotsApart(i, h, c.size);
      }
    }
  }

  // ---------- publishing a producer ticket ----------

  lemma PublishOwners(m: Machine, t: Tid)
    requires OneOwner(m) && SomeOwner(m) && t < |m.threads|
    requires PutOwner(m, t, m.prodTail)
    ensures var m' := Goto(m.(prodTail := m.prodTail + 1), t, Idle);
            OneOwner(m') && SomeOwner(m')
  {
    var m' := Goto(m.(prodTail := m.prodTail + 1), t, Idle);
    GetOwnersSame(m, m', t);
    assert forall u: Tid, i: nat :: PutOwner(m', u, i) == (PutOwner(m, u, i) && u != t);
    forall i: nat | m'.prodTail <= i < m'.prodHead
      ensures PutOwned(m', i)
    {
      assert PutOwned(m, i);
      var u: Tid :| PutOwner(m, u, i);
      assert PutOwner(m', u, i);
    }
  }

  lemma Publish(c: Config, m: Machine, claimed: seq<Obj>, t: Tid)
    requires c.Valid() && Inv(c, m, claimed) && t < |m.threads|
    requires m.threads[t].PWritten? || m.threads[t].PReady?
    requires m.threads[t].head == m.prodTail
    ensures Inv(c, Goto(m.(prodTail := m.prodTail + 1), t, Idle), claimed)
    ensures m.threads[t].obj == claimed[m.prodTail]
  {
    var m' := Goto(m.(prodTail := m.prodTail + 1), t, Idle);
    assert ThreadOk(c, m, claimed, m.threads[t]);
    assert PutOwner(m, t, m.prodTail);
    PublishOwners(m, t);
    forall u | 0 <= u < |m.threads|
      ensures ThreadOk(c, m', claimed, m'.threads[u])
    {
      assert ThreadOk(c, m, claimed, m.threads[u]);
      if u != t && m.threads[u].OwnsPut() {
        assert PutOwner(m, u, m.threads[u].head);
      }
    }
  }

  // ---------- claiming and releasing a consumer ticket ----------

  lemma ClaimGetOwners(m: Machine, t: Tid, h: nat)
    requires OneOwner(m) && SomeOwner(m) && t < |m.threads|
    requires m.threads[t] == CChecked(h) && h == m.consHead
    requires forall u: Tid :: !GetOwner(m, u, h)
    ensures var m' := Goto(m.(consHead := h + 1), t, CClaimed(h));
            OneOwner(m') && SomeOwner(m')
  {
    var m' := Goto(m.(consHead := h + 1), t, CClaimed(h));
    PutOwnersSame(m, m', t);
    assert forall u: Tid, i: nat :: GetOwner(m', u, i) == (GetOwner(m, u, i) || (u == t && i == h));
    assert GetOwner(m', t, h);
    forall i: nat | m'.consTail <= i < m'.consHead
      ensures GetOwned(m', i)
    {
      if i < h {
        assert GetOwned(m, i);
        var u: Tid :| GetOwner(m, u, i);
        assert GetOwner(m', u, i);
      }
    }
  }

  lemma ClaimGet(c: Config, m: Machine, claimed: seq<Obj>, t: Tid, h: nat)
    requires c.Valid() && Inv(c, m, claimed) && t < |m.threads|
    requires m.threads[t] == CChecked(h) && h == m.consHead
    ensures Inv(c, Goto(m.(consHead := h + 1), t, CClaimed(h)), claimed)
  {
    var m' := Goto(m.(consHead := h + 1), t, CClaimed(h));
    assert ThreadOk(c, m, claimed, m.threads[t]);
    ClaimGetOwners(m, t, h);
    forall u | 0 <= u < |m.threads|
      ensures ThreadOk(c, m', claimed, m'.threads[u])
    {
      assert ThreadOk(c, m, claimed, m.threads[u]);
    }
  }

  lemma ReleaseOwners(m: Machine, t: Tid)
    requires OneOwner(m) && SomeOwner(m) && t < |m.threads|
    requires GetOwner(m, t, m.consTail)
    ensures var m' := Goto(m.(consTail := m.consTail + 1), t, Idle);
            OneOwner(m') && SomeOwner(m')
  {
    var m' := Goto(m.(consTail := m.consTail + 1), t, Idle);
    PutOwnersSame(m, m', t);
    assert forall u: Tid, i: nat :: GetOwner(m', u, i) == (GetOwner(m, u, i) && u != t);
    forall i: nat | m'.consTail <= i < m'.consHead
      ensures GetOwned(m', i)
    {
      assert GetOwned(m, i);
      var u: Tid :| GetOwner(m, u, i);
      assert GetOwner(m', u, i);
    }
  }

  lemma Release(c: Config, m: Machine, claimed: seq<Obj>, t: Tid)
    requires c.Valid() && Inv(c, m, claimed) && t < |m.threads|
    requires m.threads[t].CRead? || m.threads[t].CReady?
    requires m.threads[t].head == m.consTail
    ensures Inv(c, Goto(m.(consTail := m.consTail + 1), t, Idle), claimed)
    ensures m.consTail < |claimed| && m.threads[t].obj == claimed[m.consTail]
  {
    var m' := Goto(m.(consTail := m.consTail + 1), t, Idle);
    assert ThreadOk(c, m, claimed, m.threads[t]);
    assert GetOwner(m, t, m.consTail);
    ReleaseOwners(m, t);
    forall u | 0 <= u < |m.threads|
      ensures ThreadOk(c, m', claimed, m'.threads[u])
    {
      assert ThreadOk(c, m, claimed, m.threads[u]);
      if u != t && m.threads[u].OwnsGet() {
        assert GetOwner(m, u, m.threads[u].head);
      }
    }
  }

  /** A lone producer holds at most one ticket, and it is the one at the tail. */
  lemma SingleHolds(c: Config, m: Machine, claimed: seq<Obj>, t: Tid)
    requires c.Valid() && Inv(c, m, claimed) && t < |m.threads|
    ensures c.isSp && m.threads[t].OwnsPut() ==> m.threads[t].head == m.prodTail
    ensures c.isSc && m.threads[t].OwnsGet() ==> m.threads[t].head == m.consTail
  {
    assert ThreadOk(c, m, claimed, m.threads[t]);
    if c.isSp && m.threads[t].OwnsPut() {
      assert PutOwned(m, m.prodTail);
      var u: Tid :| PutOwner(m, u, m.prodTail);
    }
    if c.isSc && m.threads[t].OwnsGet() {
      assert GetOwned(m, m.consTail);
      var u: Tid :| GetOwner(m, u, m.consTail);
    }
  }

  lemma ProducerKeeps(c: Config, m: Machine, claimed: seq<Obj>, t: Tid, casFails: bool)
    requires c.Valid() && Inv(c, m, claimed) && t < |m.threads|
    requires m.threads[t].Producing() && !m.threads[t].OwnsPut()
    ensures StepGood(c, m, ProducerStep(c, Unbounded, m, t, casFails), claimed)
  {
    assert ThreadOk(c, m, claimed, m.threads[t]);
    match m.threads[t]
    case PStart(o) => LocalStep(c, m, claimed, t, PLoaded(m.prodHead, o));
    case PLoaded(h, o) =>
      LocalStep(c, m, claimed, t, if c.Capacity() + m.consTail - h <= 0 then Idle else PChecked(h, o));
    case PChecked(_, _) => PutClaimKeeps(c, m, claimed, t, casFails);
  }

  lemma PutClaimKeeps(c: Config, m: Machine, claimed: seq<Obj>, t: Tid, casFails: bool)
    requires c.Valid() && Inv(c, m, claimed) && t < |m.threads| && m.threads[t].PChecked?
    ensures StepGood(c, m, ProducerStep(c, Unbounded, m, t, casFails), claimed)
  {
    assert ThreadOk(c, m, claimed, m.threads[t]);
    var PChecked(h, o) := m.threads[t];
    if c.isSp || (m.prodHead == h && !casFails) {
      ClaimPut(c, m, claimed, t, h, o);
    } else {
      LocalStep(c, m, claimed, t, PStart(o));
    }
  }

  lemma PutOwnerKeeps(c: Config, m: Machine, claimed: seq<Obj>, t: Tid, casFails: bool)
    requires c.Valid() && Inv(c, m, claimed) && t < |m.threads| && m.threads[t].OwnsPut()
    ensures StepGood(c, m, ProducerStep(c, Unbounded, m, t, casFails), claimed)
  {
    assert ThreadOk(c, m, claimed, m.threads[t]);
    SingleHolds(c, m, claimed, t);
    match m.threads[t]
    case PClaimed(h, o) => WriteSlot(c, m, claimed, t, h, o);
    case PWritten(h, o) =>
      if c.isSp {
        Publish(c, m, claimed, t);
      } else if m.prodTail == h {
        LocalStep(c, m, claimed, t, PReady(h, o));
      }
    case PReady(h, o) => Publish(c, m, claimed, t);
  }

  lemma ConsumerKeeps(c: Config, m: Machine, claimed: seq<Obj>, t: Tid, casFails: bool)
    requires c.Valid() && Inv(c, m, claimed) && t < |m.threads|
    requires m.threads[t].Consuming() && !m.threads[t].OwnsGet()
    ensures StepGood(c, m, ConsumerStep(c, Unbounded, m, t, casFails), claimed)
  {
    assert ThreadOk(c, m, claimed, m.threads[t]);
    match m.threads[t]
    case CStart => LocalStep(c, m, claimed, t, CLoaded(m.consHead));
    case CLoaded(h) =>
      LocalStep(c, m, claimed, t, if m.prodTail - h <= 0 then Idle else CChecked(h));
    case CChecked(_) => GetClaimKeeps(c, m, claimed, t, casFails);
  }

  lemma GetClaimKeeps(c: Config, m: Machine, claimed: seq<Obj>, t: Tid, casFails: bool)
    requires c.Valid() && Inv(c, m, claimed) && t < |m.threads| && m.threads[t].CChecked?
    ensures StepGood(c, m, ConsumerStep(c, Unbounded, m, t, casFails), claimed)
  {
    assert ThreadOk(c, m, claimed, m.threads[t]);
    var h := m.threads[t].head;
    if c.isSc || (m.consHead == h && !casFails) {
      ClaimGet(c, m, claimed, t, h);
    } else {
      LocalStep(c, m, claimed, t, CStart);
    }
  }

  lemma GetOwnerKeeps(c: Config, m: Machine, claimed: seq<Obj>, t: Tid, casFails: bool)
    requires c.Valid() && Inv(c, m, claimed) && t < |m.threads| && m.threads[t].OwnsGet()
    ensures StepGood(c, m, ConsumerStep(c, Unbounded, m, t, casFails), claimed)
  {
    assert ThreadOk(c, m, claimed, m.threads[t]);
    SingleHolds(c, m, claimed, t);
    match m.threads[t]
    case CClaimed(h) => LocalStep(c, m, claimed, t, CRead(h, m.slots[h % c.size]));
    case CRead(h, o) =>
      if c.isSc {
        Release(c, m, claimed, t);
      } else if m.consTail == h {
        LocalStep(c, m, claimed, t, CReady(h, o));
      }
    case CReady(h, o) => Release(c, m, claimed, t);
  }

  /** One move of any thread keeps the invariant, publishes in ticket order and answers truthfully. */
  lemma StepKeeps(c: Config, m: Machine, claimed: seq<Obj>, mv: Move)
    requires c.Valid() && Inv(c, m, claimed) && Permitted(c, mv)
    ensures StepGood(c, m, Step(c, Unbounded, m, mv), claimed)
  {
    if mv.tid < |m.threads| {
      match mv.action
      case Enqueue(o) =>
        if m.threads[mv.tid].Idle? {
          LocalStep(c, m, claimed, mv.tid, PStart(o));
        }
      case Dequeue =>
        if m.threads[mv.tid].Idle? {
          LocalStep(c, m, claimed, mv.tid, CStart);
        }
      case Advance(fails) =>
        if m.threads[mv.tid].OwnsPut() {
          PutOwnerKeeps(c, m, claimed, mv.tid, fails);
        } else if m.threads[mv.tid].OwnsGet() {
          GetOwnerKeeps(c, m, claimed, mv.tid, fails);
        } else if m.threads[mv.tid].Producing() {
          ProducerKeeps(c, m, claimed, mv.tid, fails);
        } else if m.threads[mv.tid].Consuming() {
          ConsumerKeeps(c, m, claimed, mv.tid, fails);
        }
    }
  }

  /** The three projections of a run after one more event. */
  lemma ProjectionsGrow(events: seq<Event>, e: Event)
    ensures Claimed(events + [e]) == Extended(Claimed(events), e)
    ensures Enqueued(events + [e]) == Enqueued(events) + if e.Put? then [e.obj] else []
    ensures Dequeued(events + [e]) == Dequeued(events) + if e.Got? then [e.obj] else []
  {
  }

  /** What a run has produced so far, in terms of the machine it has reached. */
  ghost predicate RunGood(c: Config, r: Trace)
    requires c.Valid()
  {
    && Inv(c, r.m, Claimed(r.events))
    && Enqueued(r.events) == Claimed(r.events)[..r.m.prodTail]
    && Dequeued(r.events) == Claimed(r.events)[..r.m.consTail]
  }

  lemma StartGood(c: Config, threads: nat)
    requires c.Valid()
    ensures RunGood(c, Trace(Start(c, threads), []))
  {
  }

  lemma RunGoodStep(c: Config, before: Trace, mv: Move)
    requires c.Valid() && RunGood(c, before) && Permitted(c, mv)
    ensures var r := Step(c, Unbounded, before.m, mv);
            RunGood(c, Trace(r.m, before.events + [r.event]))
  {
    var r := Step(c, Unbounded, before.m, mv);
    StepKeeps(c, before.m, Claimed(before.events), mv);
    ProjectionsGrow(before.events, r.event);
  }

  lemma {:induction false} RunKeeps(c: Config, threads: nat, schedule: seq<Move>)
    requires c.Valid() && PermittedAll(c, schedule)
    ensures RunGood(c, Run(c, Unbounded, Start(c, threads), schedule))
  {
    if schedule == [] {
      StartGood(c, threads);
    } else {
      var n := |schedule| - 1;
      RunKeeps(c, threads, schedule[..n]);
      RunGoodStep(c, Run(c, Unbounded, Start(c, threads), schedule[..n]), schedule[n]);
    }
  }

  /**
   In every interleaving the objects taken are, in order, a prefix of the objects put, which are a
   prefix of the objects that claimed a ticket; and the gap between the two ends fits the ring.
   */
  lemma FirstInFirstOut(c: Config, threads: nat, schedule: seq<Move>)
    requires c.Valid() && PermittedAll(c, schedule)
    ensures var r := Run(c, Unbounded, Start(c, threads), schedule);
            && Dequeued(r.events) <= Enqueued(r.events) <= Claimed(r.events)
            && |Enqueued(r.events)| - |Dequeued(r.events)| <= c.Capacity()
  {
    RunKeeps(c, threads, schedule);
  }
}
