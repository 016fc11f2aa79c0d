/**
 Writes in flight. A write reads the bytes around its data when it is submitted and puts down its whole
 window when it completes, so a write that completes in between can be undone at the window's margins.
 */
module BlobWrites {
  import opened NbdStream
  import opened BlobIo

  datatype Write = Write(from: nat, data: seq<Byte>) {
    function End(): nat
    {
      from + |data|
    }

    function Frame(): Window
    {
      WindowOf(from, |data|)
    }
  }

  /** A submitted write and the window it is going to put down. */
  datatype Flight = Flight(write: Write, window: seq<Byte>)

  datatype State = State(disk: seq<Byte>, flights: map<nat, Flight>, done: seq<Write>)

  datatype Move = Submit(id: nat, write: Write) | Complete(id: nat)

  predicate Fits(disk: seq<Byte>, w: Write)
  {
    Inside(disk, w.from, |w.data|) && Transferable(w.from, |w.data|)
  }

  predicate Permitted(s: State, m: Move)
  {
    match m
    case Submit(id, write) => id !in s.flights && Fits(s.disk, write)
    case Complete(id) => id in s.flights && FlightOk(s.disk, s.flights[id])
  }

  predicate FlightOk(disk: seq<Byte>, f: Flight)
  {
    Fits(disk, f.write) && |f.window| == f.write.Frame().length
  }

  function Next(s: State, m: Move): State
    requires Permitted(s, m)
  {
    match m
    case Submit(id, write) =>
      s.(flights := s.flights[id := Flight(write, Filled(s.disk, write.from, write.data))])
    case Complete(id) =>
      var f := s.flights[id];
      State(Put(s.disk, f.write.Frame().offset, f.window), s.flights - {id}, s.done + [f.write])
  }

  // ---------- margins ----------

  /** k is a byte that w puts down without being asked to. */
  predicate Margin(w: Write, k: nat)
  {
    w.Frame().offset <= k < w.Frame().offset + w.Frame().length && !(w.from <= k < w.End())
  }

  predicate Spares(a: Write, b: Write)
  {
    forall k | a.from <= k < a.End() :: !Margin(b, k)
  }

  /** No byte that a changes is in the margin of b. */
  predicate KeepsMargin(disk: seq<Byte>, a: Write, b: Write)
    requires a.End() <= |disk|
  {
    forall k | a.from <= k < a.End() :: Margin(b, k) ==> a.data[k - a.from] == disk[k]
  }

  lemma FilledAt(disk: seq<Byte>, w: Write, k: nat)
    requires Fits(disk, w) && k < w.Frame().length
    ensures var at := w.Frame().offset + k;
            Filled(disk, w.from, w.data)[k] == if w.from <= at < w.End() then w.data[at - w.from] else disk[at]
  {
  }

  lemma FilledKept(disk: seq<Byte>, a: Write, b: Write, k: nat)
    requires Fits(disk, a) && Fits(disk, b) && KeepsMargin(disk, a, b) && k < b.Frame().length
    ensures Filled(Put(disk, a.from, a.data), b.from, b.data)[k] == Filled(disk, b.from, b.data)[k]
  {
    FilledAt(Put(disk, a.from, a.data), b, k);
    FilledAt(disk, b, k);
    var at := b.Frame().offset + k;
    if a.from <= at < a.End() && !(b.from <= at < b.End()) {
      assert Margin(b, at);
    }
  }

  lemma MarginKept(disk: seq<Byte>, a: Write, b: Write, k: nat)
    requires Fits(disk, a) && Fits(disk, b) && a.from <= k < a.End() && Margin(b, k)
    requires Filled(Put(disk, a.from, a.data), b.from, b.data) == Filled(disk, b.from, b.data)
    ensures a.data[k - a.from] == disk[k]
  {
    FilledAt(Put(disk, a.from, a.data), b, k - b.Frame().offset);
    FilledAt(disk, b, k - b.Frame().offset);
  }

  /** The window read before a completed is the one that would be read after it, exactly when a keeps its margin. */
  lemma FilledKeptIff(disk: seq<Byte>, a: Write, b: Write)
    requires Fits(disk, a) && Fits(disk, b)
    ensures Filled(Put(disk, a.from, a.data), b.from, b.data) == Filled(disk, b.from, b.data)
            <==> KeepsMargin(disk, a, b)
  {
    var x, y := Filled(Put(disk, a.from, a.data), b.from, b.data), Filled(disk, b.from, b.data);
    if x == y {
      forall k | a.from <= k < a.End() && Margin(b, k) ensures a.data[k - a.from] == disk[k] {
        MarginKept(disk, a, b, k);
      }
    }
    if KeepsMargin(disk, a, b) {
      forall k | 0 <= k < b.Frame().length ensures x[k] == y[k] {
        FilledKept(disk, a, b, k);
      }
    }
  }

  // ---------- every run ----------

  /** Every window in flight is still the one a write submitted now would put down. */
  predicate UpToDate(s: State)
  {
    forall id | id in s.flights ::
      FlightOk(s.disk, s.flights[id])
      && s.flights[id].window == Filled(s.disk, s.flights[id].write.from, s.flights[id].write.data)
  }

  /** Whatever completes leaves the margins of the others in flight as they are. */
  predicate Harmless(s: State, m: Move)
    requires Permitted(s, m)
  {
    m.Complete? ==>
      forall id | id in s.flights && id != m.id :: KeepsMargin(s.disk, s.flights[m.id].write, s.flights[id].write)
  }

  lemma CompletePuts(s: State, m: Move)
    requires UpToDate(s) && Permitted(s, m) && m.Complete?
    ensures Next(s, m).disk == Put(s.disk, s.flights[m.id].write.from, s.flights[m.id].write.data)
  {
    var w := s.flights[m.id].write;
    PutFilled(s.disk, w.from, w.data);
  }

  /** The windows stay up to date exactly when the move is harmless. */
  lemma StepUpToDateIff(s: State, m: Move)
    requires UpToDate(s) && Permitted(s, m)
    ensures UpToDate(Next(s, m)) <==> Harmless(s, m)
  {
    if m.Complete? {
      CompletePuts(s, m);
      var w, s' := s.flights[m.id].write, Next(s, m);
      forall id | id in s.flights && id != m.id
        ensures id in s'.flights && s'.flights[id] == s.flights[id]
        ensures s.flights[id].window == Filled(s'.disk, s.flights[id].write.from, s.flights[id].write.data)
                <==> KeepsMargin(s.disk, w, s.flights[id].write)
      {
        FilledKeptIff(s.disk, w, s.flights[id].write);
      }
    }
  }

  predicate AllHarmless(s: State, moves: seq<Move>)
    decreases moves
  {
    moves == [] || (Permitted(s, moves[0]) && Harmless(s, moves[0]) && AllHarmless(Next(s, moves[0]), moves[1..]))
  }

  function Run(s: State, moves: seq<Move>): State
    requires AllHarmless(s, moves)
    decreases moves
  {
    if moves == [] then s else Run(Next(s, moves[0]), moves[1..])
  }

  predicate AllFit(disk: seq<Byte>, writes: seq<Write>)
  {
    forall i | 0 <= i < |writes| :: writes[i].End() <= |disk|
  }

  /** The writes one after the other, each finished before the next begins. */
  function Applied(disk: seq<Byte>, writes: seq<Write>): (r: seq<Byte>)
    requires AllFit(disk, writes)
    ensures |r| == |disk|
  {
    if writes == [] then disk
    else
      var n := |writes| - 1;
      Put(Applied(disk, writes[..n]), writes[n].from, writes[n].data)
  }

  ghost predicate Serial(disk: seq<Byte>, s: State)
  {
    AllFit(disk, s.done) && s.disk == Applied(disk, s.done)
  }

  lemma StepSerial(disk: seq<Byte>, s: State, m: Move)
    requires UpToDate(s) && Permitted(s, m) && Serial(disk, s)
    ensures Serial(disk, Next(s, m))
  {
    if m.Complete? {
      CompletePuts(s, m);
      assert Next(s, m).done[..|s.done|] == s.done;
    }
  }

  lemma {:induction false} RunSerial(disk: seq<Byte>, s: State, moves: seq<Move>)
    requires UpToDate(s) && Serial(disk, s) && AllHarmless(s, moves)
    ensures Serial(disk, Run(s, moves))
    decreases moves
  {
    if moves != [] {
      StepUpToDateIff(s, moves[0]);
      StepSerial(disk, s, moves[0]);
      RunSerial(disk, Next(s, moves[0]), moves[1..]);
    }
  }

  /** With any number of writes in flight, the blob is as if they were made in the order they completed. */
  lemma WritesAreSerial(disk: seq<Byte>, moves: seq<Move>)
    requires AllHarmless(State(disk, map[], []), moves)
    ensures Serial(disk, Run(State(disk, map[], []), moves))
  {
    RunSerial(disk, State(disk, map[], []), moves);
  }

  // ---------- a rule for callers ----------

  predicate PairwiseSpared(s: State)
  {
    forall i, j | i in s.flights && j in s.flights && i != j :: Spares(s.flights[i].write, s.flights[j].write)
  }

  /** Nothing is submitted while a write is in flight that it could harm, or that could harm it. */
  predicate AllSpared(s: State, moves: seq<Move>)
    decreases moves
  {
    moves == []
    || (&& Permitted(s, moves[0])
        && (moves[0].Submit? ==>
              forall id | id in s.flights :: Spares(moves[0].write, s.flights[id].write)
                                             && Spares(s.flights[id].write, moves[0].write))
        && AllSpared(Next(s, moves[0]), moves[1..]))
  }

  /** Under that rule every run is serial, whatever the bytes. */
  lemma {:induction false} SparedRuns(s: State, moves: seq<Move>)
    requires PairwiseSpared(s) && AllSpared(s, moves)
    ensures AllHarmless(s, moves)
    decreases moves
  {
    if moves != [] {
      SparedStep(s, moves[0]);
      SparedRuns(Next(s, moves[0]), moves[1..]);
    }
  }

  lemma SparedStep(s: State, m: Move)
    requires PairwiseSpared(s) && Permitted(s, m)
    requires m.Submit? ==>
               forall id | id in s.flights ::
                 Spares(m.write, s.flights[id].write) && Spares(s.flights[id].write, m.write)
    ensures Harmless(s, m) && PairwiseSpared(Next(s, m))
  {
  }

  // ---------- two writes ----------

  /** Both are submitted; then a completes, and then b. */
  function Overlapped(disk: seq<Byte>, a: Write, b: Write): seq<Byte>
    requires Fits(disk, a) && Fits(disk, b)
  {
    Put(Put(disk, a.Frame().offset, Filled(disk, a.from, a.data)), b.Frame().offset, Filled(disk, b.from, b.data))
  }

  lemma OverlappedRuns(disk: seq<Byte>, a: Write, b: Write)
    requires Fits(disk, a) && Fits(disk, b)
    ensures var s := Next(Next(State(disk, map[], []), Submit(0, a)), Submit(1, b));
            && Permitted(s, Complete(0)) && Permitted(Next(s, Complete(0)), Complete(1))
            && Next(Next(s, Complete(0)), Complete(1)).disk == Overlapped(disk, a, b)
  {
    var s := Next(Next(State(disk, map[], []), Submit(0, a)), Submit(1, b));
    assert s.flights[0].write == a && s.flights[1].write == b;
    assert Next(s, Complete(0)).flights[1] == s.flights[1];
  }

  /** Nothing of the first is lost exactly when it changes no byte in the margin of the second. */
  lemma OverlappedIff(disk: seq<Byte>, a: Write, b: Write)
    requires Fits(disk, a) && Fits(disk, b)
    ensures Overlapped(disk, a, b) == Put(Put(disk, a.from, a.data), b.from, b.data) <==> KeepsMargin(disk, a, b)
  {
    var after, w := Put(disk, a.from, a.data), b.Frame();
    PutFilled(disk, a.from, a.data);
    PutFilled(after, b.from, b.data);
    FilledKeptIff(disk, a, b);
    var x, y := Filled(disk, b.from, b.data), Filled(after, b.from, b.data);
    assert Put(after, w.offset, x)[w.offset..w.offset + w.length] == x;
    assert Put(after, w.offset, y)[w.offset..w.offset + w.length] == y;
  }

  /** The same of the run in which both are submitted, a completes, and then b. */
  lemma TwoInFlightIff(disk: seq<Byte>, a: Write, b: Write)
    requires Fits(disk, a) && Fits(disk, b)
    ensures var s := Next(Next(State(disk, map[], []), Submit(0, a)), Submit(1, b));
            && Permitted(s, Complete(0)) && Permitted(Next(s, Complete(0)), Complete(1))
            && (Next(Next(s, Complete(0)), Complete(1)).disk == Put(Put(disk, a.from, a.data), b.from, b.data)
                <==> KeepsMargin(disk, a, b))
  {
    OverlappedRuns(disk, a, b);
    OverlappedIff(disk, a, b);
  }

  /** Whichever completes first, the blob is as if each had finished before the next began. */
  ghost predicate LosesNothing(disk: seq<Byte>, a: Write, b: Write)
    requires Fits(disk, a) && Fits(disk, b)
  {
    && Overlapped(disk, a, b) == Put(Put(disk, a.from, a.data), b.from, b.data)
    && Overlapped(disk, b, a) == Put(Put(disk, b.from, b.data), a.from, a.data)
  }

  predicate Alike(a: Write, b: Write)
  {
    a.from == b.from && |a.data| == |b.data|
  }

  function Repeated(n: nat, x: Byte): seq<Byte>
  {
    seq(n, _ => x)
  }

  lemma SparedMargins(disk: seq<Byte>, a: Write, b: Write)
    requires Fits(disk, a) && Fits(disk, b) && Spares(a, b) && Spares(b, a)
    ensures LosesNothing(disk, a, b)
  {
    OverlappedIff(disk, a, b);
    OverlappedIff(disk, b, a);
  }

  /** Where a reaches into the margin of b, writing ones over zeros is lost. */
  lemma ReachedMargin(size: nat, a: Write, b: Write)
    requires !Spares(a, b) || !Spares(b, a)
    requires Fits(Repeated(size, 0), a) && Fits(Repeated(size, 0), b)
    requires a.data == Repeated(|a.data|, 1) && b.data == Repeated(|b.data|, 1)
    ensures !LosesNothing(Repeated(size, 0), a, b)
  {
    var disk := Repeated(size, 0);
    OverlappedIff(disk, a, b);
    OverlappedIff(disk, b, a);
    if !Spares(a, b) {
      var k :| a.from <= k < a.End() && Margin(b, k);
      assert a.data[k - a.from] != disk[k];
    } else {
      var k :| b.from <= k < b.End() && Margin(a, k);
      assert b.data[k - b.from] != disk[k];
    }
  }

  lemma AlikeSpares(a: Write, b: Write, x: Write, y: Write)
    requires Alike(x, a) && Alike(y, b) && Spares(a, b)
    ensures Spares(x, y)
  {
    forall k | x.from <= k < x.End() ensures !Margin(y, k) {
      assert !Margin(b, k);
    }
  }

  /** Two ranges can be written at a time, whatever the bytes, exactly when each spares the other's margin. */
  lemma InFlightIff(disk: seq<Byte>, a: Write, b: Write)
    requires Fits(disk, a) && Fits(disk, b)
    ensures (forall d, x, y | |d| == |disk| && Alike(x, a) && Alike(y, b) :: LosesNothing(d, x, y))
            <==> Spares(a, b) && Spares(b, a)
  {
    if Spares(a, b) && Spares(b, a) {
      forall d, x, y | |d| == |disk| && Alike(x, a) && Alike(y, b) ensures LosesNothing(d, x, y) {
        AlikeSpares(a, b, x, y);
        AlikeSpares(b, a, y, x);
        SparedMargins(d, x, y);
      }
    } else {
      var x, y := Write(a.from, Repeated(|a.data|, 1)), Write(b.from, Repeated(|b.data|, 1));
      assert Alike(x, a) && Alike(y, b);
      if Spares(x, y) && Spares(y, x) {
        AlikeSpares(x, y, a, b);
        AlikeSpares(y, x, b, a);
      }
      ReachedMargin(|disk|, x, y);
    }
  }

  /** Whole blocks have no margin, so nothing reaches into it. */
  lemma AlignedSpares(a: Write, b: Write)
    requires Summable(b.from, |b.data|) && !Unaligned(b.from, |b.data|)
    ensures Spares(a, b)
  {
    AlignedWindow(b.from, |b.data|);
    forall k | a.from <= k < a.End() ensures !Margin(b, k) {
      assert b.Frame() == Window(b.from, |b.data|);
    }
  }
}
