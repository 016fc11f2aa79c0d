/**
 The benchmark's request generator: sequential and random requests over a device, and the index of
 requests in flight that keeps overlapping ones from being issued together.
 */
module IoEngines {
  import opened Common
  import Words

  const ALIGN: nat := 4096

  datatype Io = Io(offset: nat, len: nat)

  // ---------- the requests of one engine ----------

  /** One sequential request from the running offset, and the offset after it. */
  function SeqIo(size: nat, blockSize: nat, offset: nat): (Io, nat)
    requires 0 < blockSize <= size && offset <= size
  {
    var from := if offset == size then 0 else offset;
    var len := Min(blockSize, size - from);
    (Io(from, len), from + len)
  }

  /** The running offset after k requests. */
  function OffsetAfter(size: nat, blockSize: nat, k: nat): (o: nat)
    requires 0 < blockSize <= size
    ensures o <= size
  {
    if k == 0 then 0 else SeqIo(size, blockSize, OffsetAfter(size, blockSize, k - 1)).1
  }

  /** How many requests make up a pass over the device. */
  function Passes(size: nat, blockSize: nat): (n: nat)
    requires 0 < blockSize <= size
    ensures n > 0
  {
    (size + blockSize - 1) / blockSize
  }

  /** Where the j-th request of a pass begins. */
  function StartOf(blockSize: nat, j: nat): nat
  {
    j * blockSize
  }

  lemma PassBounds(size: nat, blockSize: nat, j: nat)
    requires 0 < blockSize <= size && j < Passes(size, blockSize)
    ensures StartOf(blockSize, j) < size
    ensures j + 1 < Passes(size, blockSize) ==> StartOf(blockSize, j + 1) == StartOf(blockSize, j) + blockSize < size
    ensures j + 1 == Passes(size, blockSize) ==> size <= StartOf(blockSize, j) + blockSize
  {
    var n := Passes(size, blockSize);
    assert n * blockSize <= size + blockSize - 1 < n * blockSize + blockSize;
    assert (j + 1) * blockSize == j * blockSize + blockSize;
    Monotone(j + 1, n, blockSize);
    if j + 1 < n {
      Monotone(j + 2, n, blockSize);
      assert (j + 2) * blockSize == j * blockSize + 2 * blockSize;
    }
  }

  lemma Monotone(a: nat, b: nat, c: nat)
    requires a <= b
    ensures a * c <= b * c
  {
  }

  /** A request of a pass ends where the next one starts, or at the end of the device. */
  lemma EndOf(size: nat, blockSize: nat, j: nat)
    requires 0 < blockSize <= size && j < Passes(size, blockSize)
    ensures var from := StartOf(blockSize, j);
            && from < size
            && from + Min(blockSize, size - from)
               == (if j + 1 < Passes(size, blockSize) then StartOf(blockSize, j + 1) else size)
            && (j + 1 < Passes(size, blockSize) ==> StartOf(blockSize, j + 1) < size)
  {
    PassBounds(size, blockSize, j);
  }

  lemma NextMod(k: nat, n: nat)
    requires n > 0
    ensures (k + 1) % n == if k % n + 1 == n then 0 else k % n + 1
  {
    var q, j := k / n, k % n;
    if j + 1 == n {
      assert k + 1 == n * (q + 1) + 0;
      Words.DivModUnique(k + 1, n, q + 1, 0);
    } else {
      Words.DivModUnique(k + 1, n, q, j + 1);
    }
  }

  /** The request that the engine issues at place j of a pass. */
  function IoAt(size: nat, blockSize: nat, j: nat): Io
    requires 0 < blockSize <= size && j < Passes(size, blockSize)
  {
    EndOf(size, blockSize, j);
    Io(StartOf(blockSize, j), Min(blockSize, size - StartOf(blockSize, j)))
  }

  lemma IoAfter(size: nat, blockSize: nat, offset: nat, j: nat, j': nat)
    requires 0 < blockSize <= size && j < Passes(size, blockSize) && offset <= size
    requires SeqIo(size, blockSize, offset).0 == IoAt(size, blockSize, j)
    requires j' == if j + 1 == Passes(size, blockSize) then 0 else j + 1
    ensures SeqIo(size, blockSize, SeqIo(size, blockSize, offset).1).0 == IoAt(size, blockSize, j')
  {
    EndOf(size, blockSize, j);
    EndOf(size, blockSize, j');
  }

  /** The k-th request, counted from 0, is the one at place k modulo the pass length. */
  lemma {:induction false} KthIo(size: nat, blockSize: nat, k: nat)
    requires 0 < blockSize <= size
    ensures SeqIo(size, blockSize, OffsetAfter(size, blockSize, k)).0
            == IoAt(size, blockSize, k % Passes(size, blockSize))
    decreases k
  {
    var n := Passes(size, blockSize);
    if k == 0 {
      EndOf(size, blockSize, 0);
    } else {
      KthIo(size, blockSize, k - 1);
      NextMod(k - 1, n);
      IoAfter(size, blockSize, OffsetAfter(size, blockSize, k - 1), (k - 1) % n, k % n);
    }
  }

  /**
   The requests at the places of a pass tile the device: the first starts at 0, each starts where the
   one before ended, and the last ends at the device's size.
   */
  lemma PassTiles(size: nat, blockSize: nat, j: nat)
    requires 0 < blockSize <= size && j < Passes(size, blockSize)
    ensures var io := IoAt(size, blockSize, j);
            && 0 < io.len <= blockSize
            && (j == 0 ==> io.offset == 0)
            && (if j + 1 < Passes(size, blockSize) then IoAt(size, blockSize, j + 1).offset == io.offset + io.len
                else io.offset + io.len == size)
  {
    EndOf(size, blockSize, j);
  }

  function AlignBlocks(size: nat, blockSize: nat): nat
    requires blockSize <= size
  {
    (size - blockSize) / ALIGN + 1
  }

  /** Where a random request starts. */
  function RandomOffset(size: nat, blockSize: nat, r: nat): nat
    requires blockSize <= size
  {
    r % AlignBlocks(size, blockSize) * ALIGN
  }

  /** A random request starts at a multiple of the alignment and stays on the device. */
  lemma RandomInBounds(size: nat, blockSize: nat, r: nat)
    requires blockSize <= size
    ensures var offset := RandomOffset(size, blockSize, r); offset % ALIGN == 0 && offset + blockSize <= size
  {
  }

  /** Every such place is drawn, and drawn by the numbers that are equal modulo the number of places. */
  lemma RandomReaches(size: nat, blockSize: nat, r: nat, k: nat)
    requires blockSize <= size && k * ALIGN + blockSize <= size
    ensures RandomOffset(size, blockSize, r) == k * ALIGN <==> r % AlignBlocks(size, blockSize) == k
    ensures RandomOffset(size, blockSize, k) == k * ALIGN
  {
    assert k <= (size - blockSize) / ALIGN;
    Words.DivModUnique(k, AlignBlocks(size, blockSize), 0, k);
  }

  /** One request, sequential or random, and the running offset after it. */
  function DrawIo(size: nat, blockSize: nat, sequential: bool, offset: nat, random: nat): (Io, nat)
    requires 0 < blockSize <= size && offset <= size
  {
    if sequential then SeqIo(size, blockSize, offset)
    else (Io(RandomOffset(size, blockSize, random), blockSize), RandomOffset(size, blockSize, random))
  }

  /** The running offset after these random numbers were drawn. */
  function OffsetDrawn(size: nat, blockSize: nat, sequential: bool, offset: nat, draws: seq<nat>): (o: nat)
    requires 0 < blockSize <= size && offset <= size
    ensures o <= size
  {
    if draws == [] then offset
    else
      var before := OffsetDrawn(size, blockSize, sequential, offset, draws[..|draws| - 1]);
      RandomInBounds(size, blockSize, draws[|draws| - 1]);
      DrawIo(size, blockSize, sequential, before, draws[|draws| - 1]).1
  }

  class IoEngine {
    const size: nat
    const blockSize: nat
    const sequential: bool
    var offset: nat

    ghost predicate Valid()
      reads this
    {
      0 < blockSize <= size && offset <= size
    }

    constructor (size: nat, blockSize: nat, sequential: bool)
      requires 0 < blockSize <= size
      ensures Valid() && offset == 0
      ensures this.size == size && this.blockSize == blockSize && this.sequential == sequential
    {
      this.size, this.blockSize, this.sequential, offset := size, blockSize, sequential, 0;
    }

    /** The request that the i-th of these draws gives from here on. */
    function DrawnAt(draws: seq<nat>, i: nat): Io
      requires 0 < blockSize <= size && offset <= size && i < |draws|
      reads this
    {
      DrawIo(size, blockSize, sequential, OffsetDrawn(size, blockSize, sequential, offset, draws[..i]), draws[i]).0
    }

    /** The next request; `random` is the random number drawn. */
    method GetIo(random: nat) returns (io: Io)
      requires Valid()
      modifies this
      ensures Valid() && 0 < io.len && io.offset + io.len <= size
      ensures (io, offset) == DrawIo(size, blockSize, sequential, old(offset), random)
      ensures !sequential ==> io == Io(random % AlignBlocks(size, blockSize) * ALIGN, blockSize)
    {
      var dataLen := blockSize;
      if sequential {
        if offset == size {
          offset := 0;
        } else if offset + dataLen > size {
          dataLen := size - offset;
        }
      } else {
        RandomInBounds(size, blockSize, random);
        offset := random % AlignBlocks(size, blockSize) * ALIGN;
      }
      io := Io(offset, dataLen);
      if sequential {
        offset := offset + dataLen;
      }
    }
  }

  // ---------- requests in flight ----------

  predicate Overlap(a: Io, b: Io)
  {
    a.offset < b.offset + b.len && b.offset < a.offset + a.len
  }

  /** The requests in flight by offset: they have a length and do not overlap. */
  predicate Separate(inflight: map<nat, nat>)
  {
    && (forall k | k in inflight :: inflight[k] > 0)
    && (forall j, k | j in inflight && k in inflight && j < k :: j + inflight[j] <= k)
  }

  /** A scan of everything in flight finds an overlap. */
  predicate Crosses(inflight: map<nat, nat>, io: Io)
  {
    exists k :: k in inflight && Overlap(Io(k, inflight[k]), io)
  }

  predicate IsLowerBound(inflight: map<nat, nat>, x: nat, r: Option<nat>)
  {
    match r
    case None => forall k | k in inflight :: k < x
    case Some(l) => l in inflight && x <= l && forall k | k in inflight && x <= k :: l <= k
  }

  predicate IsBefore(inflight: map<nat, nat>, x: nat, r: Option<nat>)
  {
    match r
    case None => forall k | k in inflight :: x <= k
    case Some(l) => l in inflight && l < x && forall k | k in inflight && k < x :: k <= l
  }

  /** The answer from the two neighbours of the request's offset. */
  predicate NeighbourCrosses(inflight: map<nat, nat>, lower: Option<nat>, before: Option<nat>, io: Io)
    requires before.Some? ==> before.value in inflight
  {
    || (lower.Some? && lower.value < io.offset + io.len)
    || (before.Some? && io.offset < before.value + inflight[before.value])
  }

  /** Looking at the two neighbours is as good as scanning everything in flight. */
  lemma NeighboursSuffice(inflight: map<nat, nat>, lower: Option<nat>, before: Option<nat>, io: Io)
    requires Separate(inflight) && IsLowerBound(inflight, io.offset, lower) && IsBefore(inflight, io.offset, before)
    ensures NeighbourCrosses(inflight, lower, before, io) <==> Crosses(inflight, io)
  {
  }

  /** The first key of the ordered map that is not below x. */
  method LowerBound(inflight: map<nat, nat>, x: nat) returns (r: Option<nat>)
    ensures IsLowerBound(inflight, x, r)
  {
    r := None;
    var todo := inflight.Keys;
    while todo != {}
      invariant todo <= inflight.Keys
      invariant r.Some? ==> r.value in inflight && x <= r.value
      invariant forall k | k in inflight && k !in todo && x <= k :: r.Some? && r.value <= k
      decreases |todo|
    {
      var k := Pick(todo);
      if x <= k && (r.None? || k < r.value) {
        r := Some(k);
      }
      todo := todo - {k};
    }
  }

  /** The last key of the ordered map that is below x. */
  method KeyBefore(inflight: map<nat, nat>, x: nat) returns (r: Option<nat>)
    ensures IsBefore(inflight, x, r)
  {
    r := None;
    var todo := inflight.Keys;
    while todo != {}
      invariant todo <= inflight.Keys
      invariant r.Some? ==> r.value in inflight && r.value < x
      invariant forall k | k in inflight && k !in todo && k < x :: r.Some? && k <= r.value
      decreases |todo|
    {
      var k := Pick(todo);
      if k < x && (r.None? || k > r.value) {
        r := Some(k);
      }
      todo := todo - {k};
    }
  }

  /** The requests handed out and not returned are those in the map. */
  ghost predicate Tracks(inflight: map<nat, nat>, out: set<Io>)
  {
    forall io: Io :: io in out <==> io.offset in inflight && inflight[io.offset] == io.len
  }

  /** The request overlaps one that is out. */
  ghost predicate Crossed(out: set<Io>, io: Io)
  {
    exists other :: other in out && Overlap(other, io)
  }

  class EngineFactory {
    var inflight: map<nat, nat>
    ghost var out: set<Io>

    ghost predicate Valid()
      reads this
    {
      Separate(inflight) && Tracks(inflight, out)
    }

    constructor ()
      ensures Valid() && out == {}
    {
      inflight, out := map[], {};
    }

    /** Whether the request overlaps one in flight; if not, it is in flight from now on. */
    method HasCrossIo(io: Io) returns (r: bool)
      requires Valid() && io.len > 0
      modifies this
      ensures Valid()
      ensures r <==> Crossed(old(out), io)
      ensures out == if r then old(out) else old(out) + {io}
    {
      var lower := LowerBound(inflight, io.offset);
      var before := KeyBefore(inflight, io.offset);
      NeighboursSuffice(inflight, lower, before, io);
      CrossesIff(inflight, out, io);
      if lower.Some? && lower.value < io.offset + io.len {
        return true;
      }
      if before.Some? {
        if io.offset < before.value + inflight[before.value] {
          return true;
        }
      }
      AddSeparate(inflight, io);
      inflight := inflight[io.offset := io.len];
      out := out + {io};
      r := false;
    }

    /**
     Draws requests from the engine until one overlaps nothing in flight, for as many draws as there are
     random numbers given. The first `tries` draws overlapped something, and the next one, if any, is
     the request handed out.
     */
    method GetNoneCrossIo(engine: IoEngine, draws: seq<nat>) returns (r: Option<Io>, ghost tries: nat)
      requires Valid() && engine.Valid()
      modifies this, engine
      ensures Valid() && engine.Valid()
      ensures tries <= |draws| && (r.None? <==> tries == |draws|)
      ensures forall i | 0 <= i < tries :: Crossed(old(out), old(engine.DrawnAt(draws, i)))
      ensures r.Some? ==> r.value == old(engine.DrawnAt(draws, tries))
      ensures r.Some? ==> && out == old(out) + {r.value} && r.value !in old(out)
                          && forall other | other in old(out) :: !Overlap(other, r.value)
      ensures r.None? ==> out == old(out)
    {
      var i := 0;
      while i < |draws|
        invariant i <= |draws| && Valid() && engine.Valid() && out == old(out)
        invariant engine.offset == OffsetDrawn(engine.size, engine.blockSize, engine.sequential, old(engine.offset),
                                               draws[..i])
        invariant forall j | 0 <= j < i :: Crossed(out, old(engine.DrawnAt(draws, j)))
      {
        assert draws[..i + 1][..i] == draws[..i];
        var io := engine.GetIo(draws[i]);
        var cross := HasCrossIo(io);
        if !cross {
          assert Overlap(io, io);
          return Some(io), i;
        }
        i := i + 1;
      }
      r, tries := None, i;
    }

    /** Returns a request that was handed out. */
    method PutNoneCrossIo(io: Io)
      requires Valid() && io in out
      modifies this
      ensures Valid() && out == old(out) - {io}
    {
      inflight := inflight - {io.offset};
      out := out - {io};
    }
  }

  lemma CrossesIff(inflight: map<nat, nat>, out: set<Io>, io: Io)
    requires Tracks(inflight, out)
    ensures Crosses(inflight, io) <==> Crossed(out, io)
  {
  }

  lemma AddSeparate(inflight: map<nat, nat>, io: Io)
    requires Separate(inflight) && !Crosses(inflight, io) && io.len > 0
    ensures io.offset !in inflight && Separate(inflight[io.offset := io.len])
  {
  }

  // ---------- whole runs ----------

  datatype Event = Issue(io: Io) | Return(io: Io)

  /** What the ordered map does: the answer comes from the two neighbours. */
  ghost predicate IndexStep(inflight: map<nat, nat>, e: Event, crossed: bool, inflight': map<nat, nat>)
  {
    match e
    case Issue(io) =>
      && inflight' == (if crossed then inflight else inflight[io.offset := io.len])
      && exists lower, before ::
           && IsLowerBound(inflight, io.offset, lower) && IsBefore(inflight, io.offset, before)
           && (crossed <==> NeighbourCrosses(inflight, lower, before, io))
    case Return(io) => inflight' == inflight - {io.offset} && !crossed
  }

  /** What a scan of everything handed out and not returned answers. */
  ghost predicate ScanCrosses(out: set<Io>, e: Event)
  {
    e.Issue? && Crossed(out, e.io)
  }

  ghost function ScanStep(out: set<Io>, e: Event): set<Io>
  {
    if e.Return? then out - {e.io} else if ScanCrosses(out, e) then out else out + {e.io}
  }

  ghost function ScanRun(events: seq<Event>): set<Io>
  {
    if events == [] then {} else ScanStep(ScanRun(events[..|events| - 1]), events[|events| - 1])
  }

  /** Requests have a length, and only what is out is returned. */
  ghost predicate EventsOk(events: seq<Event>)
  {
    forall i | 0 <= i < |events| :: EventOk(ScanRun(events[..i]), events[i])
  }

  predicate EventOk(out: set<Io>, e: Event)
  {
    if e.Issue? then e.io.len > 0 else e.io in out
  }

  ghost predicate IndexRun(states: seq<map<nat, nat>>, events: seq<Event>, answers: seq<bool>)
  {
    && |states| == |events| + 1 && |answers| == |events| && states[0] == map[]
    && forall i | 0 <= i < |events| :: IndexStep(states[i], events[i], answers[i], states[i + 1])
  }

  lemma IndexStepTracks(inflight: map<nat, nat>, out: set<Io>, e: Event, crossed: bool, inflight': map<nat, nat>)
    requires Separate(inflight) && Tracks(inflight, out) && EventOk(out, e)
    requires IndexStep(inflight, e, crossed, inflight')
    ensures crossed <==> ScanCrosses(out, e)
    ensures Separate(inflight') && Tracks(inflight', ScanStep(out, e))
  {
    if e.Issue? {
      var lower, before :| && IsLowerBound(inflight, e.io.offset, lower) && IsBefore(inflight, e.io.offset, before)
                           && (crossed <==> NeighbourCrosses(inflight, lower, before, e.io));
      NeighboursSuffice(inflight, lower, before, e.io);
      CrossesIff(inflight, out, e.io);
      if !crossed {
        AddSeparate(inflight, e.io);
      }
    }
  }

  lemma {:induction false} IndexTracks(states: seq<map<nat, nat>>, events: seq<Event>, answers: seq<bool>, n: nat)
    requires IndexRun(states, events, answers) && EventsOk(events) && n <= |events|
    ensures Separate(states[n]) && Tracks(states[n], ScanRun(events[..n]))
    decreases n
  {
    if n > 0 {
      IndexTracks(states, events, answers, n - 1);
      assert events[..n][..n - 1] == events[..n - 1];
      IndexStepTracks(states[n - 1], ScanRun(events[..n - 1]), events[n - 1], answers[n - 1], states[n]);
    }
  }

  lemma IndexAnswers(states: seq<map<nat, nat>>, events: seq<Event>, answers: seq<bool>, i: nat)
    requires IndexRun(states, events, answers) && EventsOk(events) && i < |events|
    ensures answers[i] <==> ScanCrosses(ScanRun(events[..i]), events[i])
  {
    IndexTracks(states, events, answers, i);
    IndexStepTracks(states[i], ScanRun(events[..i]), events[i], answers[i], states[i + 1]);
  }

  lemma OutApart(inflight: map<nat, nat>, out: set<Io>)
    requires Separate(inflight) && Tracks(inflight, out)
    ensures forall a, b | a in out && b in out && a != b :: !Overlap(a, b)
  {
  }

  /**
   In every run of issues and returns the index gives, each time, the answer of a scan of everything
   that is out, and the requests that are out never overlap.
   */
  lemma IndexRefinesScan(states: seq<map<nat, nat>>, events: seq<Event>, answers: seq<bool>)
    requires IndexRun(states, events, answers) && EventsOk(events)
    ensures forall i | 0 <= i < |events| :: answers[i] <==> ScanCrosses(ScanRun(events[..i]), events[i])
    ensures var out := ScanRun(events); forall a, b | a in out && b in out && a != b :: !Overlap(a, b)
  {
    forall i | 0 <= i < |events| ensures answers[i] <==> ScanCrosses(ScanRun(events[..i]), events[i]) {
      IndexAnswers(states, events, answers, i);
    }
    IndexTracks(states, events, answers, |events|);
    assert events[..|events|] == events;
    OutApart(states[|events|], ScanRun(events));
  }
}
