/**
 What the arena takes from memory: a call uses up the last block before it takes a new one, asks memory
 only if it must, and the blocks double in size up to the limit.
 */
module ArenaGrowth {
  import opened Common
  import opened Arenas
  import opened Words

  /** All units fit into the last block. */
  predicate Fits(s: State, size: nat, num: nat)
    requires WellFormed(s)
  {
    s.chunks != [] && s.chunks[|s.chunks| - 1].size + num * size <= s.chunks[|s.chunks| - 1].capacity
  }

  /** Addresses one size apart. */
  predicate Apart(addrs: seq<Addr>, region: nat, base: nat, size: nat)
  {
    forall k | 0 <= k < |addrs| :: addrs[k] == Addr(region, base + k * size)
  }

  lemma CarveFits(c: Chunk, size: nat, num: nat)
    requires c.size <= c.capacity
    ensures Carve(c, size, num).left == 0 <==> c.size + num * size <= c.capacity
  {
    CarveHolds(c, size, num);
    if c.size + num * size <= c.capacity {
      CarveAll(c, size, num);
    }
  }

  /** A call succeeds exactly when memory is there or is not needed; then the units go into the last block. */
  lemma AllocateOkIff(o: Options, s: State, size: nat, num: nat, mem: bool)
    requires WellFormed(s)
    ensures var r := Allocate(o, s, size, num, mem);
            && (r.ok <==> mem || Fits(s, size, num))
            && (Fits(s, size, num) ==>
                  var last := s.chunks[|s.chunks| - 1];
                  && |r.addrs| == num && Apart(r.addrs, last.region, last.size, size)
                  && r.state == s.(chunks := s.chunks[|s.chunks| - 1 := last.(size := last.size + num * size)]))
  {
    if s.chunks != [] {
      CarveFits(s.chunks[|s.chunks| - 1], size, num);
      CarveHolds(s.chunks[|s.chunks| - 1], size, num);
    }
  }

  /** So many units were cut off the last block, and no more would have fitted. */
  predicate UsedUp(s: State, size: nat, k: nat)
    requires WellFormed(s)
  {
    if s.chunks == [] then k == 0
    else
      var last := s.chunks[|s.chunks| - 1];
      last.size + k * size <= last.capacity < last.size + k * size + size
  }

  /** How large a block is taken for this many bytes, and how large the next one is to be. */
  predicate Taken(o: Options, s: State, bytes: nat, capacity: nat, blockSize: nat)
  {
    && capacity == Max(Min(s.blockSize, o.maxBlockSize), bytes)
    && blockSize == if s.chunks == [] || s.blockSize >= o.maxBlockSize then s.blockSize else 2 * s.blockSize
  }

  lemma ExtendGrows(o: Options, s: State, size: nat, left: nat, before: seq<Addr>)
    ensures var r, b := Extend(o, s, size, left, before), |s.chunks|;
            && |r.addrs| == |before| + left && |r.state.chunks| == b + 1 && r.state.next == s.next + 1
            && r.addrs[..|before|] == before && Apart(r.addrs[|before|..], s.next, 0, size)
            && r.state.chunks[b].region == s.next && r.state.chunks[b].size == left * size
            && Taken(o, s, left * size, r.state.chunks[b].capacity, r.state.blockSize)
  {
    var block := Chunk(s.next, Max(Min(s.blockSize, o.maxBlockSize), left * size), 0);
    CarveHolds(block, size, left);
    CarveCount(block, size, left);
    assert (before + Carve(block, size, left).addrs)[|before|..] == Carve(block, size, left).addrs;
  }

  /** What the last block gives when not all units fit. */
  lemma CutGives(s: State, size: nat, num: nat) returns (s': State, cut: seq<Addr>, left: nat)
    requires WellFormed(s) && !Fits(s, size, num)
    ensures Cut(s, s', size, num, cut, left) && (s.chunks != [] ==> left > 0)
    ensures |cut| + left == num && UsedUp(s, size, |cut|)
    ensures s.chunks != [] ==> Apart(cut, s.chunks[|s.chunks| - 1].region, s.chunks[|s.chunks| - 1].size, size)
    ensures |s'.chunks| == |s.chunks| && s'.blockSize == s.blockSize && s'.next == s.next
  {
    s', cut, left := s, [], num;
    if s.chunks != [] {
      var last := |s.chunks| - 1;
      var u := Carve(s.chunks[last], size, num);
      CarveFits(s.chunks[last], size, num);
      CarveHolds(s.chunks[last], size, num);
      s', cut, left := s.(chunks := s.chunks[last := u.chunk]), u.addrs, u.left;
    }
  }

  /**
   Otherwise the last block is used up as far as it goes, and one new block is taken for the other units:
   as large as they need, and no smaller than the block size, up to the limit.
   */
  lemma AllocateGrows(o: Options, s: State, size: nat, num: nat) returns (k: nat)
    requires WellFormed(s) && !Fits(s, size, num)
    ensures k <= num && UsedUp(s, size, k)
    ensures var r, b := Allocate(o, s, size, num, true), |s.chunks|;
            && |r.addrs| == num && |r.state.chunks| == b + 1 && r.state.next == s.next + 1
            && (b > 0 ==> Apart(r.addrs[..k], s.chunks[b - 1].region, s.chunks[b - 1].size, size))
            && Apart(r.addrs[k..], s.next, 0, size)
            && r.state.chunks[b].region == s.next && r.state.chunks[b].size == (num - k) * size
            && Taken(o, s, (num - k) * size, r.state.chunks[b].capacity, r.state.blockSize)
  {
    var s', cut, left := CutGives(s, size, num);
    k := |cut|;
    AllocateExtends(o, s, s', size, num, [], cut, left);
    assert [] + cut == cut && [] + Allocate(o, s, size, num, true).addrs == Allocate(o, s, size, num, true).addrs;
    ExtendGrows(o, s', size, left, cut);
  }

  // ---------- runs ----------

  /** The block size once there are b blocks. */
  function SizeAfter(o: Options, b: nat): nat
  {
    if b <= 1 then o.initialBlockSize
    else if SizeAfter(o, b - 1) < o.maxBlockSize then 2 * SizeAfter(o, b - 1)
    else SizeAfter(o, b - 1)
  }

  /** It is the initial size doubled for every block but the first, until it reaches the limit. */
  lemma {:induction false} SizeAfterIs(o: Options, b: nat)
    requires b > 0
    ensures SizeAfter(o, b) >= o.maxBlockSize || SizeAfter(o, b) == o.initialBlockSize * Pow2(b - 1)
    ensures SizeAfter(o, b) == o.initialBlockSize || SizeAfter(o, b) < 2 * o.maxBlockSize
  {
    if b > 1 {
      SizeAfterIs(o, b - 1);
      assert Pow2(b - 1) == 2 * Pow2(b - 2);
      assert o.initialBlockSize * (2 * Pow2(b - 2)) == 2 * (o.initialBlockSize * Pow2(b - 2));
    }
  }

  /** No block is smaller than the block size was when it was taken, or the limit. */
  predicate Grown(o: Options, s: State)
  {
    && s.blockSize == SizeAfter(o, |s.chunks|)
    && forall i | 0 <= i < |s.chunks| :: s.chunks[i].capacity >= Min(SizeAfter(o, i), o.maxBlockSize)
  }

  lemma AllocateGrown(o: Options, s: State, size: nat, num: nat, mem: bool)
    requires WellFormed(s) && Grown(o, s)
    ensures Grown(o, Allocate(o, s, size, num, mem).state)
  {
    AllocateOkIff(o, s, size, num, mem);
    AllocateAdds(o, s, size, num, mem, []);
    if !Fits(s, size, num) && mem {
      var k := AllocateGrows(o, s, size, num);
      var s' := Allocate(o, s, size, num, mem).state;
      forall i | 0 <= i < |s'.chunks| ensures s'.chunks[i].capacity >= Min(SizeAfter(o, i), o.maxBlockSize) {
        if i < |s.chunks| {
          assert s'.chunks[i].capacity == s.chunks[i].capacity;
        }
      }
    }
  }

  /** Over any run of allocations and releases the blocks grow by doubling. */
  lemma {:induction false} BlocksDouble(o: Options, t: Trace, ops: seq<Op>)
    requires Inv(t) && Grown(o, t.state)
    ensures Grown(o, Run(o, t, ops).state)
    decreases ops
  {
    if ops != [] {
      StepKeeps(o, t, ops[0]);
      if ops[0].Alloc? {
        AllocateGrown(o, t.state, ops[0].size, ops[0].num, ops[0].mem);
      }
      BlocksDouble(o, Next(o, t, ops[0]), ops[1..]);
    }
  }

  lemma FreshBlocksDouble(o: Options, ops: seq<Op>)
    ensures Inv(Fresh(o)) && Grown(o, Run(o, Fresh(o), ops).state)
  {
    FreshRunKeeps(o, []);
    BlocksDouble(o, Fresh(o), ops);
  }
}
