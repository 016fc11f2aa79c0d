/**
 The arena: units are cut one after the other from the last block of a list; when it is used up a new
 block is taken, and a call that cannot get one undoes what it did.
 */
module Arenas {
  import opened Common

  /** An address: a region of memory and an offset in it. */
  datatype Addr = Addr(region: nat, offset: nat)

  datatype Chunk = Chunk(region: nat, capacity: nat, size: nat)

  /** The blocks in list order; `next` numbers the regions that memory allocation hands out. */
  datatype State = State(chunks: seq<Chunk>, blockSize: nat, next: nat)

  datatype Options = Options(initialBlockSize: nat, maxBlockSize: nat)

  // ---------- allocation on values ----------

  datatype Units = Units(chunk: Chunk, addrs: seq<Addr>, left: nat)

  /** Cuts up to num units of the given size, as far as the block's space goes. */
  function Carve(c: Chunk, size: nat, num: nat): Units
    requires c.size <= c.capacity
    decreases num
  {
    if num == 0 || c.capacity - c.size < size then Units(c, [], num)
    else
      var rest := Carve(c.(size := c.size + size), size, num - 1);
      rest.(addrs := [Addr(c.region, c.size)] + rest.addrs)
  }

  datatype Outcome = Outcome(state: State, addrs: seq<Addr>, ok: bool)

  predicate WellFormed(s: State)
  {
    && (forall i | 0 <= i < |s.chunks| :: s.chunks[i].size <= s.chunks[i].capacity && s.chunks[i].region < s.next)
    && (forall i, j | 0 <= i < j < |s.chunks| :: s.chunks[i].region != s.chunks[j].region)
  }

  /** A new block for the units that are left, and the units from it; `mem` says whether memory is there. */
  function Extend(o: Options, s: State, size: nat, left: nat, before: seq<Addr>): Outcome
  {
    var capacity := Max(Min(s.blockSize, o.maxBlockSize), left * size);
    var u := Carve(Chunk(s.next, capacity, 0), size, left);
    var blockSize := if s.chunks != [] && s.blockSize < o.maxBlockSize then 2 * s.blockSize else s.blockSize;
    Outcome(State(s.chunks + [u.chunk], blockSize, s.next + 1), before + u.addrs, true)
  }

  function Allocate(o: Options, s: State, size: nat, num: nat, mem: bool): Outcome
    requires WellFormed(s)
  {
    if s.chunks == [] then if mem then Extend(o, s, size, num, []) else Outcome(s, [], false)
    else
      var last := |s.chunks| - 1;
      var u := Carve(s.chunks[last], size, num);
      var s' := s.(chunks := s.chunks[last := u.chunk]);
      if u.left == 0 then Outcome(s', u.addrs, true)
      else if mem then Extend(o, s', size, u.left, u.addrs)
      else Outcome(s, [], false)
  }

  /** From s the units `cut` were cut off the last block, if there is one; so many are left to get. */
  predicate Cut(s: State, s': State, size: nat, num: nat, cut: seq<Addr>, left: nat)
    requires WellFormed(s)
  {
    if s.chunks == [] then s' == s && cut == [] && left == num
    else
      var last := |s.chunks| - 1;
      var u := Carve(s.chunks[last], size, num);
      s' == s.(chunks := s.chunks[last := u.chunk]) && cut == u.addrs && left == u.left
  }

  lemma AllocateFits(o: Options, s: State, s': State, size: nat, num: nat, mem: bool, cut: seq<Addr>)
    requires WellFormed(s) && s.chunks != [] && Cut(s, s', size, num, cut, 0)
    ensures Allocate(o, s, size, num, mem) == Outcome(s', cut, true)
  {
  }

  lemma AllocateFails(o: Options, s: State, s': State, size: nat, num: nat, cut: seq<Addr>, left: nat)
    requires WellFormed(s) && Cut(s, s', size, num, cut, left) && (s.chunks != [] ==> left > 0)
    ensures Allocate(o, s, size, num, false) == Outcome(s, [], false)
  {
  }

  lemma AllocateExtends(o: Options, s: State, s': State, size: nat, num: nat, addrs: seq<Addr>, cut: seq<Addr>,
                        left: nat)
    requires WellFormed(s) && Cut(s, s', size, num, cut, left) && (s.chunks != [] ==> left > 0)
    ensures var r := Allocate(o, s, size, num, true);
            r.ok && Extend(o, s', size, left, addrs + cut) == Outcome(r.state, addrs + r.addrs, true)
  {
    var u := Carve(Chunk(s'.next, Max(Min(s'.blockSize, o.maxBlockSize), left * size), 0), size, left);
    assert (addrs + cut) + u.addrs == addrs + (cut + u.addrs);
  }

  lemma OneMoreChunk(s: State, c: Chunk, blockSize: nat)
    requires WellFormed(s) && c.region == s.next && c.size <= c.capacity
    ensures WellFormed(State(s.chunks + [c], blockSize, s.next + 1))
  {
  }

  // ---------- what cutting does ----------

  lemma OneMore(k: nat, size: nat)
    ensures (k + 1) * size == k * size + size
  {
  }

  /** Addresses one size apart, after one more in front of them. */
  lemma OneInFront(region: nat, base: nat, size: nat, rest: seq<Addr>)
    requires forall k | 0 <= k < |rest| :: rest[k] == Addr(region, base + size + k * size)
    ensures forall k | 0 <= k <= |rest| :: ([Addr(region, base)] + rest)[k] == Addr(region, base + k * size)
  {
    forall k | 0 <= k <= |rest| ensures ([Addr(region, base)] + rest)[k] == Addr(region, base + k * size) {
      if k > 0 {
        OneMore(k - 1, size);
        assert ([Addr(region, base)] + rest)[k] == rest[k - 1];
      }
    }
  }

  /** The k-th unit cut starts k sizes behind the block's old fill. */
  lemma {:induction false} CarveHolds(c: Chunk, size: nat, num: nat)
    requires c.size <= c.capacity
    ensures var u := Carve(c, size, num);
            && u.left + |u.addrs| == num
            && u.chunk == c.(size := c.size + |u.addrs| * size) && u.chunk.size <= c.capacity
            && (forall k | 0 <= k < |u.addrs| :: u.addrs[k] == Addr(c.region, c.size + k * size))
            && (u.left > 0 ==> c.capacity - u.chunk.size < size)
    decreases num
  {
    if num > 0 && c.capacity - c.size >= size {
      var c' := c.(size := c.size + size);
      CarveHolds(c', size, num - 1);
      var rest := Carve(c', size, num - 1);
      OneMore(|rest.addrs|, size);
      OneInFront(c.region, c.size, size, rest.addrs);
    }
  }

  lemma {:induction false} CarveAll(c: Chunk, size: nat, num: nat)
    requires c.size + num * size <= c.capacity
    ensures Carve(c, size, num).left == 0
    decreases num
  {
    if num > 0 {
      OneMore(num - 1, size);
      CarveAll(c.(size := c.size + size), size, num - 1);
    }
  }

  lemma CarveCount(c: Chunk, size: nat, num: nat)
    requires c.size + num * size <= c.capacity
    ensures c.size <= c.capacity && |Carve(c, size, num).addrs| == num
  {
    assert num * size >= 0;
    CarveHolds(c, size, num);
    CarveAll(c, size, num);
  }

  // ---------- ranges over whole runs ----------

  /** A range that was handed out. */
  datatype Range = Range(addr: Addr, len: nat)

  predicate Disjoint(a: Range, b: Range)
  {
    || a.addr.region != b.addr.region
    || a.addr.offset + a.len <= b.addr.offset
    || b.addr.offset + b.len <= a.addr.offset
  }

  /** The range lies in the used part of its block. */
  predicate Inside(s: State, r: Range)
  {
    exists i :: 0 <= i < |s.chunks| && Holds(s.chunks[i], r)
  }

  predicate Holds(c: Chunk, r: Range)
  {
    c.region == r.addr.region && r.addr.offset + r.len <= c.size
  }

  predicate AllDisjoint(rs: seq<Range>)
  {
    forall i, j | 0 <= i < j < |rs| :: Disjoint(rs[i], rs[j])
  }

  predicate AllInside(s: State, rs: seq<Range>)
  {
    forall i | 0 <= i < |rs| :: Inside(s, rs[i])
  }

  function Ranges(addrs: seq<Addr>, size: nat): seq<Range>
  {
    seq(|addrs|, i requires 0 <= i < |addrs| => Range(addrs[i], size))
  }

  /** Nothing that was handed out reaches into the unused part of a block. */
  predicate Bounded(s: State, rs: seq<Range>)
  {
    forall i | 0 <= i < |rs| :: Below(s, rs[i])
  }

  predicate Below(s: State, r: Range)
  {
    r.addr.region < s.next && forall i | 0 <= i < |s.chunks| && s.chunks[i].region == r.addr.region ::
                                r.addr.offset + r.len <= s.chunks[i].size
  }

  /** What a call may add: ranges that keep clear of each other and of all before, inside the new state's blocks. */
  predicate Adds(s: State, issued: seq<Range>, s': State, rs: seq<Range>)
  {
    && WellFormed(s') && Bounded(s', issued + rs) && AllDisjoint(issued + rs) && AllInside(s', rs)
    && (forall i | 0 <= i < |s.chunks| ::
          && i < |s'.chunks| && s.chunks[i].size <= s'.chunks[i].size
          && s'.chunks[i] == s.chunks[i].(size := s'.chunks[i].size))
  }

  function CarveAt(s: State, i: nat, size: nat, num: nat): (State, seq<Range>)
    requires i < |s.chunks| && s.chunks[i].size <= s.chunks[i].capacity
  {
    var u := Carve(s.chunks[i], size, num);
    (s.(chunks := s.chunks[i := u.chunk]), Ranges(u.addrs, size))
  }

  lemma StepsApart(k: nat, l: nat, size: nat)
    requires k < l
    ensures k * size + size <= l * size
  {
    var d: nat := l - k - 1;
    assert (k + 1 + d) * size == k * size + size + d * size;
    assert d * size >= 0;
  }

  /** New units start behind the block's old fill, in steps of their size. */
  lemma CarvedRange(s: State, i: nat, size: nat, num: nat, k: nat)
    requires WellFormed(s) && i < |s.chunks|
    requires k < |CarveAt(s, i, size, num).1|
    ensures var (s', rs) := CarveAt(s, i, size, num);
            && rs[k] == Range(Addr(s.chunks[i].region, s.chunks[i].size + k * size), size)
            && Holds(s'.chunks[i], rs[k]) && Inside(s', rs[k])
  {
    var u := Carve(s.chunks[i], size, num);
    CarveHolds(s.chunks[i], size, num);
    StepsApart(k, |u.addrs|, size);
    assert Holds(u.chunk, Range(u.addrs[k], size));
  }

  lemma CarveKeepsForm(s: State, i: nat, size: nat, num: nat)
    requires WellFormed(s) && i < |s.chunks|
    ensures WellFormed(CarveAt(s, i, size, num).0)
    ensures var c := s.chunks[i];
            var c' := CarveAt(s, i, size, num).0.chunks[i];
            c' == c.(size := c'.size) && c.size <= c'.size
  {
    CarveHolds(s.chunks[i], size, num);
  }

  lemma CarveBounded(s: State, i: nat, size: nat, num: nat, issued: seq<Range>)
    requires WellFormed(s) && i < |s.chunks| && Bounded(s, issued)
    ensures var (s', rs) := CarveAt(s, i, size, num); Bounded(s', issued + rs) && AllInside(s', rs)
  {
    var (s', rs) := CarveAt(s, i, size, num);
    CarveKeepsForm(s, i, size, num);
    forall k | 0 <= k < |rs| ensures Inside(s', rs[k]) && Below(s', rs[k]) {
      CarvedRange(s, i, size, num, k);
    }
    forall k | 0 <= k < |issued + rs| ensures Below(s', (issued + rs)[k]) {
      if k < |issued| {
        assert Below(s, issued[k]);
      } else {
        assert (issued + rs)[k] == rs[k - |issued|];
      }
    }
  }

  lemma CarveDisjoint(s: State, i: nat, size: nat, num: nat, issued: seq<Range>)
    requires WellFormed(s) && i < |s.chunks| && Bounded(s, issued) && AllDisjoint(issued)
    ensures AllDisjoint(issued + CarveAt(s, i, size, num).1)
  {
    var rs := CarveAt(s, i, size, num).1;
    var all := issued + rs;
    forall k, l | 0 <= k < l < |all| ensures Disjoint(all[k], all[l]) {
      if l >= |issued| {
        CarvedRange(s, i, size, num, l - |issued|);
        if k >= |issued| {
          CarvedRange(s, i, size, num, k - |issued|);
          StepsApart(k - |issued|, l - |issued|, size);
        } else {
          assert Below(s, issued[k]);
        }
      }
    }
  }

  lemma CarveAdds(s: State, i: nat, size: nat, num: nat, issued: seq<Range>)
    requires WellFormed(s) && i < |s.chunks| && Bounded(s, issued) && AllDisjoint(issued)
    ensures var (s', rs) := CarveAt(s, i, size, num); Adds(s, issued, s', rs)
  {
    CarveKeepsForm(s, i, size, num);
    CarveBounded(s, i, size, num, issued);
    CarveDisjoint(s, i, size, num, issued);
  }

  /** A new empty block in a fresh region. */
  lemma GrowAdds(s: State, capacity: nat, blockSize: nat, issued: seq<Range>)
    requires WellFormed(s) && Bounded(s, issued) && AllDisjoint(issued)
    ensures Adds(s, issued, State(s.chunks + [Chunk(s.next, capacity, 0)], blockSize, s.next + 1), [])
  {
  }

  lemma StillInside(s: State, issued: seq<Range>, s': State, rs: seq<Range>, r: Range)
    requires Adds(s, issued, s', rs) && Inside(s, r)
    ensures Inside(s', r)
  {
  }

  lemma AddsTwice(s: State, issued: seq<Range>, s1: State, rs1: seq<Range>, s2: State, rs2: seq<Range>)
    requires Adds(s, issued, s1, rs1) && Adds(s1, issued + rs1, s2, rs2)
    ensures Adds(s, issued, s2, rs1 + rs2)
  {
    assert issued + (rs1 + rs2) == (issued + rs1) + rs2;
    forall i | 0 <= i < |rs1 + rs2| ensures Inside(s2, (rs1 + rs2)[i]) {
      if i < |rs1| {
        StillInside(s1, issued + rs1, s2, rs2, rs1[i]);
      }
    }
  }

  lemma RangesSplit(a: seq<Addr>, b: seq<Addr>, size: nat)
    ensures Ranges(a + b, size) == Ranges(a, size) + Ranges(b, size)
  {
  }

  /** A new block of the given capacity and the units from it. */
  lemma GrowAndCarve(s: State, capacity: nat, blockSize: nat, size: nat, left: nat, issued: seq<Range>)
    requires WellFormed(s) && Bounded(s, issued) && AllDisjoint(issued)
    ensures var u := Carve(Chunk(s.next, capacity, 0), size, left);
            Adds(s, issued, State(s.chunks + [u.chunk], blockSize, s.next + 1), Ranges(u.addrs, size))
  {
    var grown := State(s.chunks + [Chunk(s.next, capacity, 0)], blockSize, s.next + 1);
    GrowAdds(s, capacity, blockSize, issued);
    assert issued + [] == issued;
    CarveAdds(grown, |s.chunks|, size, left, issued);
    var (s', rs) := CarveAt(grown, |s.chunks|, size, left);
    assert s'.chunks == s.chunks + [Carve(Chunk(s.next, capacity, 0), size, left).chunk];
    AddsTwice(s, issued, grown, [], s', rs);
    assert [] + rs == rs;
  }

  lemma ExtendAdds(o: Options, s: State, size: nat, left: nat, before: seq<Addr>, issued: seq<Range>)
    requires WellFormed(s) && Bounded(s, issued) && AllDisjoint(issued)
    ensures var r := Extend(o, s, size, left, before);
            && |before| <= |r.addrs| && r.addrs[..|before|] == before
            && Adds(s, issued, r.state, Ranges(r.addrs[|before|..], size))
            && |r.addrs| == |before| + left
  {
    var capacity := Max(Min(s.blockSize, o.maxBlockSize), left * size);
    var r := Extend(o, s, size, left, before);
    var u := Carve(Chunk(s.next, capacity, 0), size, left);
    GrowAndCarve(s, capacity, r.state.blockSize, size, left, issued);
    assert r.addrs == before + u.addrs;
    CarveCount(Chunk(s.next, capacity, 0), size, left);
  }

  /**
   A call that succeeds hands out num ranges, apart from each other and from everything handed out
   before, inside their blocks; a call that fails changes nothing and hands out nothing.
   */
  lemma AllocateAdds(o: Options, s: State, size: nat, num: nat, mem: bool, issued: seq<Range>)
    requires WellFormed(s) && Bounded(s, issued) && AllDisjoint(issued)
    ensures var r := Allocate(o, s, size, num, mem);
            && Adds(s, issued, r.state, Ranges(r.addrs, size))
            && |r.addrs| == (if r.ok then num else 0) && (!r.ok ==> r.state == s)
  {
    var r := Allocate(o, s, size, num, mem);
    assert issued + [] == issued;
    if s.chunks == [] {
      if mem {
        ExtendAdds(o, s, size, num, [], issued);
        assert r.addrs[0..] == r.addrs;
      }
    } else {
      var last := |s.chunks| - 1;
      var u := Carve(s.chunks[last], size, num);
      var (s', rs) := CarveAt(s, last, size, num);
      CarveHolds(s.chunks[last], size, num);
      CarveAdds(s, last, size, num, issued);
      if u.left > 0 && mem {
        ExtendAdds(o, s', size, u.left, u.addrs, issued + rs);
        var rs2 := Ranges(r.addrs[|u.addrs|..], size);
        AddsTwice(s, issued, s', rs, r.state, rs2);
        assert r.addrs == u.addrs + r.addrs[|u.addrs|..];
        RangesSplit(u.addrs, r.addrs[|u.addrs|..], size);
      }
    }
  }

  // ---------- runs ----------

  datatype Op = Alloc(size: nat, num: nat, mem: bool) | Release

  /** `issued` are all ranges ever handed out, `live` those since the last release, `freed` the regions given back. */
  datatype Trace = Trace(state: State, issued: seq<Range>, live: seq<Range>, freed: seq<nat>)

  function Regions(chunks: seq<Chunk>): seq<nat>
  {
    seq(|chunks|, i requires 0 <= i < |chunks| => chunks[i].region)
  }

  function Next(o: Options, t: Trace, op: Op): Trace
    requires WellFormed(t.state)
  {
    match op
    case Alloc(size, num, mem) =>
      var r := Allocate(o, t.state, size, num, mem);
      var rs := Ranges(r.addrs, size);
      Trace(r.state, t.issued + rs, t.live + rs, t.freed)
    case Release => Trace(State([], o.initialBlockSize, t.state.next), t.issued, [], t.freed + Regions(t.state.chunks))
  }

  /** Every region taken from memory is in the list or was given back, and that once. */
  predicate Accounted(t: Trace)
  {
    var all := t.freed + Regions(t.state.chunks);
    Distinct(all) && |all| == t.state.next && forall i | 0 <= i < |all| :: all[i] < t.state.next
  }

  predicate Inv(t: Trace)
  {
    && WellFormed(t.state) && Bounded(t.state, t.issued) && AllDisjoint(t.issued) && AllInside(t.state, t.live)
    && Accounted(t)
  }

  lemma RegionsAfter(o: Options, s: State, size: nat, num: nat, mem: bool)
    requires WellFormed(s)
    ensures var s' := Allocate(o, s, size, num, mem).state;
            || (Regions(s'.chunks) == Regions(s.chunks) && s'.next == s.next)
            || (Regions(s'.chunks) == Regions(s.chunks) + [s.next] && s'.next == s.next + 1)
  {
    if s.chunks != [] {
      CarveHolds(s.chunks[|s.chunks| - 1], size, num);
    }
    var r := Allocate(o, s, size, num, mem);
    var left := if s.chunks == [] then num else Carve(s.chunks[|s.chunks| - 1], size, num).left;
    CarveHolds(Chunk(s.next, Max(Min(s.blockSize, o.maxBlockSize), left * size), 0), size, left);
  }

  lemma StepAccounts(o: Options, t: Trace, op: Op)
    requires WellFormed(t.state) && Accounted(t)
    ensures Accounted(Next(o, t, op))
  {
    var t' := Next(o, t, op);
    if op.Alloc? {
      RegionsAfter(o, t.state, op.size, op.num, op.mem);
      var rs := Regions(t.state.chunks);
      assert t.freed + (rs + [t.state.next]) == (t.freed + rs) + [t.state.next];
    } else {
      assert t'.freed + Regions([]) == t'.freed;
    }
  }

  lemma StepKeeps(o: Options, t: Trace, op: Op)
    requires Inv(t)
    ensures Inv(Next(o, t, op))
  {
    StepAccounts(o, t, op);
    if op.Alloc? {
      AllocateAdds(o, t.state, op.size, op.num, op.mem, t.issued);
      var r := Allocate(o, t.state, op.size, op.num, op.mem);
      var rs := Ranges(r.addrs, op.size);
      forall i | 0 <= i < |t.live + rs| ensures Inside(r.state, (t.live + rs)[i]) {
        if i < |t.live| {
          StillInside(t.state, t.issued, r.state, rs, t.live[i]);
        }
      }
    } else {
      forall i | 0 <= i < |t.issued| ensures Below(Next(o, t, op).state, t.issued[i]) {
        assert Below(t.state, t.issued[i]);
      }
    }
  }

  function Run(o: Options, t: Trace, ops: seq<Op>): Trace
    requires WellFormed(t.state) && Inv(t)
    decreases ops
  {
    if ops == [] then t
    else
      StepKeeps(o, t, ops[0]);
      Run(o, Next(o, t, ops[0]), ops[1..])
  }

  function Fresh(o: Options): Trace
  {
    Trace(State([], o.initialBlockSize, 0), [], [], [])
  }

  /**
   Over any run of allocations and releases from a fresh arena: all ranges ever handed out are pairwise
   disjoint, those not released lie inside the used part of a block, and every region is held or was
   freed exactly once.
   */
  lemma {:induction false} RunKeeps(o: Options, t: Trace, ops: seq<Op>)
    requires Inv(t)
    ensures Inv(Run(o, t, ops))
    decreases ops
  {
    if ops != [] {
      StepKeeps(o, t, ops[0]);
      RunKeeps(o, Next(o, t, ops[0]), ops[1..]);
    }
  }

  lemma FreshRunKeeps(o: Options, ops: seq<Op>)
    ensures Inv(Fresh(o)) && Inv(Run(o, Fresh(o), ops))
  {
    RunKeeps(o, Fresh(o), ops);
  }
}
