/**
 The request stream of the network block device protocol: request messages of 28 bytes, each write
 request followed by its data. A decoder of whole streams, and the reader that works with a buffer
 and whatever each read() delivers.
 */
module NbdStream {

  type Byte = x: int | 0 <= x < 256

  const HEAD: nat := 28
  const BUF: nat := 1048576
  const REQUEST_MAGIC: nat := 0x25609513

  const CMD_READ: nat := 0
  const CMD_WRITE: nat := 1
  const CMD_DISC: nat := 2
  const CMD_FLUSH: nat := 3
  const CMD_TRIM: nat := 4

  datatype Request = Request(kind: nat, handle: seq<Byte>, from: nat, len: nat) {
    function Command(): nat
    {
      kind % 65536
    }

    /** How many bytes follow the request message. */
    function DataLen(): nat
    {
      if Command() == CMD_WRITE then len else 0
    }
  }

  // ---------- request messages ----------

  function BigEndian(b: seq<Byte>): nat
  {
    if b == [] then 0 else 256 * BigEndian(b[..|b| - 1]) + b[|b| - 1]
  }

  function ToBigEndian(n: nat, width: nat): (b: seq<Byte>)
    ensures |b| == width
  {
    if width == 0 then [] else ToBigEndian(n / 256, width - 1) + [n % 256]
  }

  predicate MagicOk(h: seq<Byte>)
    requires |h| == HEAD
  {
    BigEndian(h[..4]) == REQUEST_MAGIC
  }

  function ParseHead(h: seq<Byte>): Request
    requires |h| == HEAD
  {
    Request(BigEndian(h[4..8]), h[8..16], BigEndian(h[16..24]), BigEndian(h[24..28]))
  }

  /** The request message at an offset of the stream. */
  function HeadAt(s: seq<Byte>, p: nat): seq<Byte>
    requires p + HEAD <= |s|
  {
    s[p..p + HEAD]
  }

  // ---------- decoding a whole stream ----------

  /** A request handed to the block layer: where it stood in the stream, and its data. */
  datatype Event = Event(at: nat, req: Request, data: seq<Byte>)

  /** Whether the n-th request handed over can be started; `starts` is the block layer's answer. */
  predicate Started(starts: (nat, Request) -> bool, n: nat, r: Request)
  {
    var c := r.Command();
    c == CMD_FLUSH || c == CMD_TRIM || ((c == CMD_READ || c == CMD_WRITE) && starts(n, r))
  }

  datatype Frame = NoFrame | Frame(event: Event, end: nat)

  /** The request at offset p with its data, if it is whole, well formed and not a disconnect. */
  function FrameAt(s: seq<Byte>, p: nat): (f: Frame)
    ensures f.Frame? ==> p + HEAD <= f.end <= |s| && f.event.at == p
  {
    if p + HEAD > |s| || !MagicOk(HeadAt(s, p)) then NoFrame
    else
      var r := ParseHead(HeadAt(s, p));
      var end := p + HEAD + r.DataLen();
      if r.Command() == CMD_DISC || end > |s| then NoFrame else Frame(Event(p, r, s[p + HEAD..end]), end)
  }

  /**
   A connection: how many bytes the client sends, the request at each offset, which requests the block
   layer starts, and how many bytes each read delivers, as far as they are there.
   */
  datatype Session = Session(size: nat, frame: nat -> Frame, starts: (nat, Request) -> bool, chunk: nat -> nat) {
    ghost predicate Valid()
    {
      forall p: nat :: frame(p).Frame? ==> p + HEAD <= frame(p).end <= size && frame(p).event.at == p
    }
  }

  function SessionOf(s: seq<Byte>, starts: (nat, Request) -> bool, chunk: nat -> nat): (c: Session)
    ensures c.Valid()
  {
    Session(|s|, (p: nat) => FrameAt(s, p), starts, chunk)
  }

  /** All requests from offset p on, up to a disconnect, an error or the end of the stream. */
  ghost function Decode(c: Session, p: nat, n: nat): seq<Event>
    requires c.Valid()
    decreases c.size - p
  {
    match c.frame(p)
    case NoFrame => []
    case Frame(e, end) => [e] + if Started(c.starts, n, e.req) then Decode(c, end, n + 1) else []
  }

  // ---------- the reader ----------

  /**
   What one pass over the buffer did. The buffer holds the stream from `base` up to `pos`; `next` is
   the first request it did not handle.
   */
  datatype Pass = Pass(events: seq<Event>, base: nat, pos: nat, next: nat, disconnect: bool)

  function After(events: seq<Event>, p: Pass): Pass
  {
    p.(events := events + p.events)
  }

  /** The inner loop, from offset p, with the buffer holding the stream from base to pos. */
  ghost function Parse(c: Session, base: nat, p: nat, pos: nat, n: nat): (r: Pass)
    requires c.Valid() && base <= p <= pos <= c.size
    ensures base <= r.base <= r.pos && pos <= r.pos <= c.size && p <= r.next <= r.pos
    decreases pos - p
  {
    if p + HEAD > pos then Pass([], if p - base > BUF - HEAD then p else base, pos, p, false)
    else
      match c.frame(p)
      case NoFrame => Pass([], base, pos, p, true)
      case Frame(e, end) =>
        if !Started(c.starts, n, e.req) then Pass([e], base, if end > pos then end else pos, end, true)
        else if end < pos then After([e], Parse(c, base, end, pos, n + 1))
        else Pass([e], end, end, end, false)
  }

  function Delivered(want: nat, room: nat, avail: nat): (r: nat)
    requires room > 0 && avail > 0
    ensures 0 < r <= room && r <= avail
  {
    var w := if want == 0 then 1 else want;
    var c := if w > room then room else w;
    if c > avail then avail else c
  }

  /** The buffer's end after the i-th read. */
  function ReadTo(c: Session, i: nat, base: nat, pos: nat): (r: nat)
    requires base <= pos < c.size && pos - base < BUF
    ensures pos < r <= c.size && r - base <= BUF
  {
    pos + Delivered(c.chunk(i), BUF - (pos - base), c.size - pos)
  }

  /** The reader from its i-th read on. */
  ghost function Run(c: Session, i: nat, base: nat, pos: nat, n: nat): seq<Event>
    requires c.Valid() && base <= pos <= c.size
    decreases c.size - pos, 0
  {
    if pos - base >= BUF || pos == c.size then []
    else
      var pos' := ReadTo(c, i, base, pos);
      if pos' - base < HEAD then Run(c, i + 1, base, pos', n)
      else AfterPass(c, i, Parse(c, base, base, pos', n), n)
  }

  /** What the reader hands over in a pass and all that follows it. */
  ghost function AfterPass(c: Session, i: nat, pass: Pass, n: nat): seq<Event>
    requires c.Valid() && pass.base <= pass.pos <= c.size
    decreases c.size - pass.pos, 1
  {
    if pass.disconnect then pass.events
    else pass.events + Run(c, i + 1, pass.base, pass.pos, n + |pass.events|)
  }

  /** The requests from p on are whole and are started, up to offset q. */
  ghost predicate Reaches(c: Session, p: nat, n: nat, q: nat)
    requires c.Valid()
    decreases c.size - p
  {
    p == q || (c.frame(p).Frame? && Started(c.starts, n, c.frame(p).event.req) && Reaches(c, c.frame(p).end, n + 1, q))
  }

  /** A message at q, behind other requests of the buffer, is cut by the buffer's end. */
  ghost predicate CutAt(c: Session, base: nat, pos: nat, n: nat, q: nat)
    requires c.Valid()
  {
    base < q < pos < q + HEAD && q - base <= BUF - HEAD && Reaches(c, base, n, q)
  }

  ghost predicate Cut(c: Session, base: nat, pos: nat, n: nat)
    requires c.Valid()
  {
    exists q: nat :: CutAt(c, base, pos, n, q)
  }

  /** No read but the last ends inside a request message behind requests of the same buffer. */
  ghost predicate CleanReads(c: Session, i: nat, base: nat, pos: nat, n: nat)
    requires c.Valid() && base <= pos <= c.size
    decreases c.size - pos
  {
    if pos - base >= BUF || pos == c.size then true
    else
      var pos' := ReadTo(c, i, base, pos);
      if pos' - base < HEAD then CleanReads(c, i + 1, base, pos', n)
      else
        var pass := Parse(c, base, base, pos', n);
        if pass.disconnect then true
        else if Cut(c, base, pos', n) then pos' == c.size
        else CleanReads(c, i + 1, pass.base, pass.pos, n + |pass.events|)
  }

  // ---------- the reader against the decoder ----------

  /** The buffer still starts with requests the pass has handled. */
  predicate Stale(pass: Pass)
  {
    !pass.disconnect && pass.base != pass.next
  }

  /** The pass goes on behind this request. */
  ghost predicate GoesOn(c: Session, p: nat, pos: nat, n: nat)
  {
    && p + HEAD <= pos
    && var f := c.frame(p);
    f.Frame? && f.end < pos && Started(c.starts, n, f.event.req)
  }

  /** What the decoder finds behind a pass. */
  ghost function Rest(c: Session, pass: Pass, n: nat): seq<Event>
    requires c.Valid()
  {
    if pass.disconnect then [] else Decode(c, pass.next, n + |pass.events|)
  }

  lemma PassStops(c: Session, base: nat, p: nat, pos: nat, n: nat)
    requires c.Valid() && base <= p <= pos <= c.size && !GoesOn(c, p, pos, n)
    ensures var r := Parse(c, base, p, pos, n); Decode(c, p, n) == r.events + Rest(c, r, n)
  {
  }

  lemma PassContinues(c: Session, base: nat, p: nat, pos: nat, n: nat)
    requires c.Valid() && base <= p <= pos <= c.size && GoesOn(c, p, pos, n)
    ensures Parse(c, base, p, pos, n) == After([c.frame(p).event], Parse(c, base, c.frame(p).end, pos, n + 1))
  {
  }

  lemma DecodeContinues(c: Session, p: nat, n: nat)
    requires c.Valid() && c.frame(p).Frame? && Started(c.starts, n, c.frame(p).event.req)
    ensures Decode(c, p, n) == [c.frame(p).event] + Decode(c, c.frame(p).end, n + 1)
  {
  }

  lemma RestContinues(c: Session, e: Event, r: Pass, n: nat)
    requires c.Valid()
    ensures After([e], r).events + Rest(c, After([e], r), n) == [e] + (r.events + Rest(c, r, n + 1))
  {
    assert n + |[e] + r.events| == n + 1 + |r.events|;
    assert [e] + (r.events + Rest(c, r, n + 1)) == ([e] + r.events) + Rest(c, r, n + 1);
  }

  /** A pass hands over what the decoder does, up to where it stopped. */
  lemma {:induction false} ParseDecodes(c: Session, base: nat, p: nat, pos: nat, n: nat)
    requires c.Valid() && base <= p <= pos <= c.size
    ensures var r := Parse(c, base, p, pos, n); Decode(c, p, n) == r.events + Rest(c, r, n)
    decreases pos - p
  {
    if GoesOn(c, p, pos, n) {
      ParseDecodes(c, base, c.frame(p).end, pos, n + 1);
      PassContinues(c, base, p, pos, n);
      DecodeContinues(c, p, n);
      RestContinues(c, c.frame(p).event, Parse(c, base, c.frame(p).end, pos, n + 1), n);
    } else {
      PassStops(c, base, p, pos, n);
    }
  }

  /** Where a pass that does not disconnect leaves the buffer. */
  lemma {:induction false} ParseLeaves(c: Session, base: nat, p: nat, pos: nat, n: nat)
    requires c.Valid() && base <= p <= pos <= c.size && pos - base <= BUF && (p == base || p < pos)
    ensures var r := Parse(c, base, p, pos, n);
            !r.disconnect ==>
              && r.pos - r.next < HEAD
              && (Stale(r) ==> r.base == base < r.next < r.pos == pos && r.next - base <= BUF - HEAD)
    decreases pos - p
  {
    if GoesOn(c, p, pos, n) {
      ParseLeaves(c, base, c.frame(p).end, pos, n + 1);
    }
  }

  lemma {:induction false} ReachesForward(c: Session, p: nat, n: nat, q: nat)
    requires c.Valid() && Reaches(c, p, n, q)
    ensures p <= q
    decreases c.size - p
  {
    if p != q {
      ReachesForward(c, c.frame(p).end, n + 1, q);
    }
  }

  /** A pass stops at the message its buffer cuts, if there is one. */
  lemma {:induction false} StopsAtCut(c: Session, base: nat, p: nat, pos: nat, n: nat, q: nat)
    requires c.Valid() && base <= p <= q < pos <= c.size && pos < q + HEAD && Reaches(c, p, n, q)
    ensures var r := Parse(c, base, p, pos, n); !r.disconnect && r.next == q && r.pos == pos
    ensures q - base <= BUF - HEAD ==> Parse(c, base, p, pos, n).base == base
    decreases pos - p
  {
    if p < q {
      ReachesForward(c, c.frame(p).end, n + 1, q);
      StopsAtCut(c, base, c.frame(p).end, pos, n + 1, q);
    }
  }

  /** A pass that does not disconnect has only met whole requests that were started. */
  lemma {:induction false} ParseReaches(c: Session, base: nat, p: nat, pos: nat, n: nat)
    requires c.Valid() && base <= p <= pos <= c.size
    ensures var r := Parse(c, base, p, pos, n); !r.disconnect ==> Reaches(c, p, n, r.next)
    decreases pos - p
  {
    if GoesOn(c, p, pos, n) {
      ParseReaches(c, base, c.frame(p).end, pos, n + 1);
    }
  }

  /** The buffer is left stale exactly when its end cuts a message. */
  lemma StaleIffCut(c: Session, base: nat, pos: nat, n: nat)
    requires c.Valid() && base + HEAD <= pos <= c.size && pos - base <= BUF
    ensures Stale(Parse(c, base, base, pos, n)) <==> Cut(c, base, pos, n)
  {
    var r := Parse(c, base, base, pos, n);
    if Stale(r) {
      ParseReaches(c, base, base, pos, n);
      ParseLeaves(c, base, base, pos, n);
      assert CutAt(c, base, pos, n, r.next);
    }
    if Cut(c, base, pos, n) {
      var q: nat :| CutAt(c, base, pos, n, q);
      StopsAtCut(c, base, base, pos, n, q);
    }
  }

  lemma DecodeStartsAt(c: Session, p: nat, n: nat)
    requires c.Valid()
    ensures Decode(c, p, n) != [] ==> Decode(c, p, n)[0].at == p
  {
  }

  /** After a stale pass with more bytes to come, the next thing the reader does is to repeat itself. */
  lemma StaleRepeats(c: Session, i: nat, base: nat, pos: nat, n: nat, n': nat)
    requires c.Valid() && base + HEAD <= pos < c.size && pos - base < BUF
    requires Parse(c, base, base, pos, n).next > base
    ensures var r := Run(c, i, base, pos, n'); r != [] && r[0].at == base
  {
  }

  lemma AppendSame<T>(a: seq<T>, b: seq<T>, c: seq<T>)
    ensures a + b == a + c <==> b == c
  {
    if a + b == a + c {
      assert b == (a + b)[|a|..] && c == (a + c)[|a|..];
    }
  }

  lemma StalePassIff(c: Session, i: nat, base: nat, pos: nat, n: nat, n': nat, next: nat)
    requires c.Valid() && base + HEAD <= pos <= c.size && pos - base < BUF
    requires next == Parse(c, base, base, pos, n).next && base < next && pos - next < HEAD
    ensures Run(c, i, base, pos, n') == Decode(c, next, n') <==> pos == c.size
  {
    if pos < c.size {
      StaleRepeats(c, i, base, pos, n, n');
      DecodeStartsAt(c, next, n');
    }
  }

  /**
   The reader hands over exactly the requests of the stream if and only if no read but the last ends
   inside a request message behind requests already handled.
   */
  lemma {:induction false} ReaderDecodesIff(c: Session, i: nat, base: nat, pos: nat, n: nat)
    requires c.Valid() && base <= pos <= c.size && pos - base < HEAD
    ensures Run(c, i, base, pos, n) == Decode(c, base, n) <==> CleanReads(c, i, base, pos, n)
    decreases c.size - pos
  {
    if pos < c.size {
      var pos' := ReadTo(c, i, base, pos);
      if pos' - base < HEAD {
        ReaderDecodesIff(c, i + 1, base, pos', n);
      } else {
        var pass := Parse(c, base, base, pos', n);
        var n' := n + |pass.events|;
        ParseDecodes(c, base, base, pos', n);
        ParseLeaves(c, base, base, pos', n);
        StaleIffCut(c, base, pos', n);
        if !pass.disconnect {
          AppendSame(pass.events, Run(c, i + 1, pass.base, pass.pos, n'), Decode(c, pass.next, n'));
          if Stale(pass) {
            StalePassIff(c, i + 1, base, pos', n, n', pass.next);
          } else {
            ReaderDecodesIff(c, i + 1, pass.base, pass.pos, n');
          }
        }
      }
    }
  }
}
