/**
 The reader thread: it fills a buffer from the socket, hands over the requests found in it, reads the
 rest of a write's data straight from the socket, and moves a message cut near the buffer's end.
 */
module NbdReader {
  import opened NbdStream
  import opened Words

  /** How many bytes follow the request message at each offset. */
  function DataLenAt(s: seq<Byte>): nat -> nat
  {
    (p: nat) => if p + HEAD <= |s| then ParseHead(HeadAt(s, p)).DataLen() else 0
  }

  /** No sum of a buffer offset, a message length and a data length reaches 2^32, for any request met. */
  ghost predicate LengthsFit(c: Session, dataLen: nat -> nat, p: nat)
    requires c.Valid()
    decreases c.size - p
  {
    && BUF + HEAD + dataLen(p) < TWO32
    && (c.frame(p).Frame? ==> LengthsFit(c, dataLen, c.frame(p).end))
  }

  /** The session and the data lengths are those of the stream s. */
  ghost predicate Describes(c: Session, dataLen: nat -> nat, s: seq<Byte>)
  {
    && c.Valid() && c.size == |s|
    && (forall p: nat {:trigger FrameAt(s, p)} :: c.frame(p) == FrameAt(s, p))
    && (forall p: nat {:trigger HeadAt(s, p)} ::
          p + HEAD <= |s| ==> dataLen(p) == ParseHead(HeadAt(s, p)).DataLen())
  }

  /** Reads until `count` bytes arrived or the client closed; the i-th read delivers more(i) bytes. */
  method SafeRead(s: seq<Byte>, taken: nat, count: nat, more: nat -> nat) returns (got: seq<Byte>)
    requires taken <= |s|
    ensures |got| == (if count <= |s| - taken then count else |s| - taken)
    ensures got == s[taken..taken + |got|]
  {
    got := [];
    var i := 0;
    while |got| < count && taken + |got| < |s|
      invariant |got| <= count && taken + |got| <= |s| && got == s[taken..taken + |got|]
      decreases count - |got|
    {
      var r := Delivered(more(i), count - |got|, |s| - taken - |got|);
      got := got + s[taken + |got|..taken + |got| + r];
      i := i + 1;
    }
  }

  /**
   Handles the request at stream offset `at`, of whose data the buffer holds `data`; everything before
   `taken` has been read from the socket.
   */
  method OnRecvPack(s: seq<Byte>, starts: (nat, Request) -> bool, more: nat -> nat, n: nat, at: nat, req: Request,
                    data: seq<Byte>, taken: nat) returns (ok: bool, events: seq<Event>, taken': nat)
    requires at + HEAD + |data| <= taken <= |s| && data == s[at + HEAD..at + HEAD + |data|]
    requires MagicOk(HeadAt(s, at)) && req == ParseHead(HeadAt(s, at))
    requires |data| == req.DataLen() || (|data| < req.DataLen() && taken == at + HEAD + |data|)
    ensures FrameAt(s, at).NoFrame? ==> !ok && events == []
    ensures FrameAt(s, at).Frame? ==>
              var f := FrameAt(s, at);
              && events == [f.event] && taken' == (if f.end > taken then f.end else taken)
              && (ok <==> req.Command() in {CMD_FLUSH, CMD_TRIM}
                          || (req.Command() in {CMD_READ, CMD_WRITE} && starts(n, req)))
  {
    ok, events, taken' := false, [], taken;
    var command := req.Command();
    if command == CMD_DISC {
      return;
    }
    var content := data;
    if command == CMD_WRITE && |data| < req.len {
      var got := SafeRead(s, taken, req.len - |data|, more);
      if |got| != req.len - |data| {
        return;
      }
      taken' := taken + |got|;
      content := data + got;
      assert content == s[at + HEAD..at + HEAD + req.len];
    }
    events := [Event(at, req, content)];
    if command == CMD_WRITE || command == CMD_READ {
      ok := starts(n, req);
    } else if command == CMD_FLUSH || command == CMD_TRIM {
      ok := true;
    }
  }

  /** Moves buf[begin..bufpos] to the front. */
  method MoveTail(buf: array<Byte>, begin: nat, bufpos: nat)
    requires begin <= bufpos <= buf.Length
    modifies buf
    ensures buf[..bufpos - begin] == old(buf[begin..bufpos])
  {
    var k := 0;
    while k < bufpos - begin
      invariant 0 <= k <= bufpos - begin
      invariant buf[..k] == old(buf[begin..begin + k])
      invariant forall j :: begin + k <= j < bufpos ==> buf[j] == old(buf[j])
    {
      buf[k] := buf[begin + k];
      k := k + 1;
    }
  }

  /** Stores what a read delivered at buf[bufpos..]. */
  method Fill(buf: array<Byte>, bufpos: nat, bytes: seq<Byte>)
    requires bufpos + |bytes| <= buf.Length
    modifies buf
    ensures buf[..bufpos + |bytes|] == old(buf[..bufpos]) + bytes
  {
    var k := 0;
    while k < |bytes|
      invariant 0 <= k <= |bytes|
      invariant buf[..bufpos + k] == old(buf[..bufpos]) + bytes[..k]
    {
      buf[bufpos + k] := bytes[k];
      k := k + 1;
    }
    assert bytes[..|bytes|] == bytes;
  }

  /** The bytes b are those of the stream from offset base on. */
  predicate Holds(b: seq<Byte>, s: seq<Byte>, base: nat)
  {
    base + |b| <= |s| && b == s[base..base + |b|]
  }

  lemma HoldsPart(b: seq<Byte>, s: seq<Byte>, base: nat, from: nat, to: nat)
    requires Holds(b, s, base) && from <= to <= |b|
    ensures Holds(b[from..to], s, base + from) && b[from..to] == s[base + from..base + to]
  {
    var part := b[from..to];
    assert forall k | 0 <= k < |part| :: part[k] == s[base + from + k];
  }

  lemma HoldsMore(b: seq<Byte>, s: seq<Byte>, base: nat, r: nat)
    requires Holds(b, s, base) && base + |b| + r <= |s|
    ensures Holds(b + s[base + |b|..base + |b| + r], s, base)
  {
  }

  /** The request in the message at buf[begin..], where its data ends, and what the buffer has of them. */
  method Locate(s: seq<Byte>, b: seq<Byte>, base: nat, begin: nat, ghost dataLen: nat)
    returns (req: Request, end: nat, data: seq<Byte>)
    requires |b| <= BUF && begin + HEAD <= |b| && Holds(b, s, base) && BUF + HEAD + dataLen < TWO32
    requires dataLen == ParseHead(HeadAt(s, base + begin)).DataLen()
    ensures req == ParseHead(HeadAt(s, base + begin)) && end == begin + HEAD + dataLen
    ensures |data| == (if end > |b| then |b| - begin - HEAD else dataLen)
    ensures data == s[base + begin + HEAD..base + begin + HEAD + |data|]
  {
    HoldsPart(b, s, base, begin, begin + HEAD);
    req := ParseHead(b[begin..begin + HEAD]);
    var len := req.DataLen();
    end := (begin + HEAD + len) % TWO32;
    assert end == begin + HEAD + len;
    var inBuffer := if end > |b| then |b| - begin - HEAD else len;
    HoldsPart(b, s, base, begin + HEAD, begin + HEAD + inBuffer);
    data := b[begin + HEAD..begin + HEAD + inBuffer];
  }

  /** The request at buf[begin..]: `end` is where it ends in the buffer's numbering, as the code computes it. */
  method HandleOne(s: seq<Byte>, starts: (nat, Request) -> bool, ghost c: Session, ghost dataLen: nat -> nat,
                   more: nat -> nat, b: seq<Byte>, base: nat, begin: nat, n: nat, ghost f: Frame)
    returns (ok: bool, handed: seq<Event>, end: nat, taken: nat)
    requires Describes(c, dataLen, s)
    requires |b| <= BUF && begin + HEAD <= |b| && Holds(b, s, base) && LengthsFit(c, dataLen, base + begin)
    requires f == c.frame(base + begin)
    ensures f.NoFrame? ==> !ok && handed == []
    ensures f.Frame? ==>
              && handed == [f.event] && ok == Started(starts, n, f.event.req) && base + end == f.end
              && taken == (if end > |b| then f.end else base + |b|)
              && LengthsFit(c, dataLen, f.end)
  {
    assert f == FrameAt(s, base + begin);
    var head := b[begin..begin + HEAD];
    HoldsPart(b, s, base, begin, begin + HEAD);
    assert head == HeadAt(s, base + begin);
    if !MagicOk(head) {
      return false, [], begin, base + |b|;
    }
    var req, data;
    req, end, data := Locate(s, b, base, begin, dataLen(base + begin));
    ok, handed, taken := OnRecvPack(s, starts, more, n, base + begin, req, data, base + |b|);
  }

  /** The inner loop has handed over `done` and stands at offset p: what is left to do makes up `pass`. */
  ghost predicate Open(c: Session, dataLen: nat -> nat, base: nat, pos: nat, pass: Pass, done: seq<Event>, p: nat,
                       m: nat)
    requires c.Valid()
  {
    base <= p <= pos <= c.size && pass == After(done, Parse(c, base, p, pos, m)) && LengthsFit(c, dataLen, p)
  }

  /** The function value `open` stands for Open, for proofs that need not look inside it. */
  ghost predicate Tracks(c: Session, dataLen: nat -> nat, base: nat, pos: nat, pass: Pass,
                         open: (seq<Event>, nat, nat) -> bool)
  {
    c.Valid() && forall done: seq<Event>, p: nat, m: nat {:trigger Open(c, dataLen, base, pos, pass, done, p, m)} ::
                   open(done, p, m) <==> Open(c, dataLen, base, pos, pass, done, p, m)
  }

  /** One step of a pass whose request is handed over and does not end the pass. */
  lemma PassGoesOn(c: Session, dataLen: nat -> nat, base: nat, p: nat, pos: nat, m: nat, pass: Pass, done: seq<Event>,
                   open: (seq<Event>, nat, nat) -> bool)
    requires Tracks(c, dataLen, base, pos, pass, open) && open(done, p, m) && GoesOn(c, p, pos, m)
    ensures open(done + [c.frame(p).event], c.frame(p).end, m + 1)
  {
    var f := c.frame(p);
    assert Open(c, dataLen, base, pos, pass, done, p, m);
    var rest := Parse(c, base, f.end, pos, m + 1).events;
    assert done + ([f.event] + rest) == (done + [f.event]) + rest;
    assert Open(c, dataLen, base, pos, pass, done + [f.event], f.end, m + 1);
  }

  /** A message that is not whole yet ends the pass. */
  lemma PassShort(c: Session, dataLen: nat -> nat, base: nat, p: nat, pos: nat, m: nat, pass: Pass, done: seq<Event>,
                  open: (seq<Event>, nat, nat) -> bool)
    requires Tracks(c, dataLen, base, pos, pass, open) && open(done, p, m) && p + HEAD > pos
    ensures base <= p && pass == Pass(done, if p - base > BUF - HEAD then p else base, pos, p, false)
  {
    assert Open(c, dataLen, base, pos, pass, done, p, m);
  }

  /** A disconnect ends the pass. */
  lemma PassBreaks(c: Session, dataLen: nat -> nat, base: nat, p: nat, pos: nat, m: nat, pass: Pass, done: seq<Event>,
                   open: (seq<Event>, nat, nat) -> bool)
    requires Tracks(c, dataLen, base, pos, pass, open) && open(done, p, m) && p + HEAD <= pos
    requires c.frame(p).NoFrame? || !Started(c.starts, m, c.frame(p).event.req)
    ensures pass.disconnect && pass.events == done + if c.frame(p).NoFrame? then [] else [c.frame(p).event]
  {
    assert Open(c, dataLen, base, pos, pass, done, p, m);
  }

  /** A request that uses up the buffer ends the pass. */
  lemma PassEnds(c: Session, dataLen: nat -> nat, base: nat, p: nat, pos: nat, m: nat, pass: Pass, done: seq<Event>,
                 open: (seq<Event>, nat, nat) -> bool)
    requires Tracks(c, dataLen, base, pos, pass, open) && open(done, p, m) && p + HEAD <= pos
    requires var f := c.frame(p); f.Frame? && Started(c.starts, m, f.event.req) && f.end >= pos
    ensures var f := c.frame(p); pass == Pass(done + [f.event], f.end, f.end, f.end, false)
  {
    assert Open(c, dataLen, base, pos, pass, done, p, m);
  }

  lemma PassFits(c: Session, dataLen: nat -> nat, base: nat, p: nat, pos: nat, m: nat, pass: Pass, done: seq<Event>,
                 open: (seq<Event>, nat, nat) -> bool)
    requires Tracks(c, dataLen, base, pos, pass, open) && open(done, p, m)
    ensures LengthsFit(c, dataLen, p)
  {
    assert Open(c, dataLen, base, pos, pass, done, p, m);
  }

  /**
   The inner loop over the buffered bytes b, the first of them at stream offset base. It ends with a
   message that is not whole yet, with all bytes used up, or with a disconnect.
   */
  method Scan(s: seq<Byte>, starts: (nat, Request) -> bool, ghost c: Session, ghost dataLen: nat -> nat,
              more: nat -> nat, b: seq<Byte>, base: nat, n: nat, ghost pass: Pass,
              ghost open: (seq<Event>, nat, nat) -> bool)
    returns (events: seq<Event>, begin: nat, taken: nat, disconnect: bool)
    requires Describes(c, dataLen, s) && c.starts == starts
    requires HEAD <= |b| <= BUF && Holds(b, s, base)
    requires Tracks(c, dataLen, base, base + |b|, pass, open) && open([], base, n)
    ensures events == pass.events && disconnect == pass.disconnect
    ensures !disconnect ==> begin <= |b|
    ensures !disconnect && begin < |b| ==>
              && pass.base == (if begin > BUF - HEAD then base + begin else base) && pass.pos == base + |b|
              && LengthsFit(c, dataLen, base + begin)
    ensures !disconnect && begin >= |b| ==>
              pass.base == pass.pos == taken && base + |b| <= taken <= |s| && LengthsFit(c, dataLen, taken)
  {
    events, begin, taken, disconnect := [], 0, base + |b|, false;
    ghost var pos := base + |b|;
    ghost var p, m := base, n;
    while begin < |b|
      invariant begin < |b| && !disconnect && p == base + begin && m == n + |events|
      invariant open(events, p, m)
      decreases |b| - begin
    {
      PassFits(c, dataLen, base, p, pos, m, pass, events, open);
      if begin + HEAD > |b| {
        PassShort(c, dataLen, base, p, pos, m, pass, events, open);
        return;
      }
      ghost var f := c.frame(p);
      var ok, handed, end, taken' := HandleOne(s, starts, c, dataLen, more, b, base, begin, n + |events|, f);
      if !ok {
        PassBreaks(c, dataLen, base, p, pos, m, pass, events, open);
        events, disconnect := events + handed, true;
        return;
      }
      if end >= |b| {
        PassEnds(c, dataLen, base, p, pos, m, pass, events, open);
        events, begin, taken := events + handed, |b|, taken';
        return;
      }
      PassGoesOn(c, dataLen, base, p, pos, m, pass, events, open);
      p, m := f.end, m + 1;
      events, begin := events + handed, end;
    }
    assert false;
  }

  /** What is left in the buffer after a scan that stopped at buf[begin]: all, nothing, or a tail moved to the front. */
  method Compact(s: seq<Byte>, buf: array<Byte>, base: nat, filled: nat, begin: nat, taken: nat)
    returns (base': nat, bufpos: nat)
    requires buf.Length == BUF && begin <= filled <= BUF && Holds(buf[..filled], s, base)
    requires begin == filled ==> taken <= |s|
    modifies buf
    ensures base' == if begin == filled then taken else if begin > BUF - HEAD then base + begin else base
    ensures base' + bufpos == if begin == filled then taken else base + filled
    ensures bufpos <= BUF && Holds(buf[..bufpos], s, base')
  {
    base', bufpos := base, filled;
    if begin == bufpos {
      base', bufpos := taken, 0;
    } else if begin > BUF - HEAD {
      HoldsPart(buf[..filled], s, base, begin, filled);
      assert buf[..filled][begin..filled] == buf[begin..filled];
      MoveTail(buf, begin, bufpos);
      base', bufpos := base + begin, bufpos - begin;
    }
  }

  /** The requests in the buffer; `base` is the stream offset of buf[0], and `pass` is what a pass over it gives. */
  method HandleBuffer(s: seq<Byte>, starts: (nat, Request) -> bool, ghost c: Session, ghost dataLen: nat -> nat,
                      more: nat -> nat, buf: array<Byte>, base: nat, filled: nat, n: nat, ghost pass: Pass,
                      ghost open: (seq<Event>, nat, nat) -> bool)
    returns (events: seq<Event>, base': nat, bufpos: nat, disconnect: bool)
    requires Describes(c, dataLen, s) && c.starts == starts
    requires buf.Length == BUF && HEAD <= filled <= BUF && Holds(buf[..filled], s, base)
    requires Tracks(c, dataLen, base, base + filled, pass, open) && open([], base, n)
    modifies buf
    ensures events == pass.events && disconnect == pass.disconnect
    ensures !disconnect ==> base' == pass.base && base' + bufpos == pass.pos >= base + filled
    ensures !disconnect ==> bufpos <= BUF && Holds(buf[..bufpos], s, base') && LengthsFit(c, dataLen, base')
  {
    var begin, taken;
    base', bufpos := base, filled;
    PassFits(c, dataLen, base, base, base + filled, n, pass, [], open);
    events, begin, taken, disconnect := Scan(s, starts, c, dataLen, more, buf[..filled], base, n, pass, open);
    if !disconnect {
      base', bufpos := Compact(s, buf, base, filled, begin, taken);
    }
  }

  /** The thread has logged `log` and is about to do its i-th read: the rest makes up `all`. */
  ghost predicate Left(c: Session, dataLen: nat -> nat, all: seq<Event>, log: seq<Event>, i: nat, base: nat, pos: nat)
    requires c.Valid()
  {
    base <= pos <= c.size && all == log + Run(c, i, base, pos, |log|) && LengthsFit(c, dataLen, base)
  }

  /** The function value `left` stands for Left, for proofs that need not look inside it. */
  ghost predicate Follows(c: Session, dataLen: nat -> nat, all: seq<Event>, left: (seq<Event>, nat, nat, nat) -> bool)
  {
    c.Valid()
    && forall log: seq<Event>, i: nat, base: nat, pos: nat {:trigger Left(c, dataLen, all, log, i, base, pos)} ::
         left(log, i, base, pos) <==> Left(c, dataLen, all, log, i, base, pos)
  }

  lemma LeftNothing(c: Session, dataLen: nat -> nat, all: seq<Event>, left: (seq<Event>, nat, nat, nat) -> bool,
                    log: seq<Event>, i: nat, base: nat, pos: nat)
    requires Follows(c, dataLen, all, left) && left(log, i, base, pos) && (pos >= c.size || pos >= base + BUF)
    ensures log == all
  {
    assert Left(c, dataLen, all, log, i, base, pos);
  }

  /** A read that does not complete a request message. */
  lemma LeftShort(c: Session, dataLen: nat -> nat, all: seq<Event>, left: (seq<Event>, nat, nat, nat) -> bool,
                  log: seq<Event>, i: nat, base: nat, pos: nat)
    requires Follows(c, dataLen, all, left) && left(log, i, base, pos) && base <= pos < c.size && pos - base < BUF
    requires ReadTo(c, i, base, pos) - base < HEAD
    ensures left(log, i + 1, base, ReadTo(c, i, base, pos))
  {
    assert Left(c, dataLen, all, log, i, base, pos);
    assert Left(c, dataLen, all, log, i + 1, base, ReadTo(c, i, base, pos));
  }

  /** A read, and what the pass over the buffer after it leaves. */
  lemma LeftPass(c: Session, dataLen: nat -> nat, all: seq<Event>, left: (seq<Event>, nat, nat, nat) -> bool,
                 log: seq<Event>, i: nat, base: nat, pos: nat)
    returns (pass: Pass, open: (seq<Event>, nat, nat) -> bool)
    requires Follows(c, dataLen, all, left) && left(log, i, base, pos) && base <= pos < c.size && pos - base < BUF
    requires ReadTo(c, i, base, pos) - base >= HEAD
    ensures Tracks(c, dataLen, base, ReadTo(c, i, base, pos), pass, open) && open([], base, |log|)
    ensures pass.disconnect ==> all == log + pass.events
    ensures !pass.disconnect && LengthsFit(c, dataLen, pass.base) ==>
              left(log + pass.events, i + 1, pass.base, pass.pos)
  {
    assert Left(c, dataLen, all, log, i, base, pos);
    var end := ReadTo(c, i, base, pos);
    var p := Parse(c, base, base, end, |log|);
    pass, open := p, (done: seq<Event>, q: nat, m: nat) => Open(c, dataLen, base, end, p, done, q, m);
    assert Open(c, dataLen, base, end, pass, [], base, |log|);
    RunPasses(c, i, base, pos, |log|, pass);
    LeftAfter(c, dataLen, all, left, log, i, pass);
  }

  lemma RunPasses(c: Session, i: nat, base: nat, pos: nat, n: nat, pass: Pass)
    requires c.Valid() && base <= pos < c.size && pos - base < BUF && ReadTo(c, i, base, pos) - base >= HEAD
    requires pass == Parse(c, base, base, ReadTo(c, i, base, pos), n)
    ensures Run(c, i, base, pos, n) == AfterPass(c, i, pass, n)
  {
  }

  lemma LeftAfter(c: Session, dataLen: nat -> nat, all: seq<Event>, left: (seq<Event>, nat, nat, nat) -> bool,
                  log: seq<Event>, i: nat, pass: Pass)
    requires Follows(c, dataLen, all, left) && pass.base <= pass.pos <= c.size
    requires all == log + AfterPass(c, i, pass, |log|)
    ensures pass.disconnect ==> all == log + pass.events
    ensures !pass.disconnect && LengthsFit(c, dataLen, pass.base) ==>
              left(log + pass.events, i + 1, pass.base, pass.pos)
  {
    if !pass.disconnect && LengthsFit(c, dataLen, pass.base) {
      var rest := Run(c, i + 1, pass.base, pass.pos, |log| + |pass.events|);
      assert log + (pass.events + rest) == (log + pass.events) + rest;
      assert Left(c, dataLen, all, log + pass.events, i + 1, pass.base, pass.pos);
    }
  }

  /** The i-th read appends to the buffer what the socket delivers. */
  method ReadOnce(s: seq<Byte>, chunk: nat -> nat, ghost c: Session, buf: array<Byte>, base: nat, bufpos: nat, i: nat)
    returns (bufpos': nat)
    requires c.size == |s| && c.chunk == chunk && buf.Length == BUF
    requires bufpos < BUF && base + bufpos < |s| && Holds(buf[..bufpos], s, base)
    modifies buf
    ensures bufpos' <= BUF && base + bufpos' == ReadTo(c, i, base, base + bufpos)
    ensures Holds(buf[..bufpos'], s, base)
  {
    var r := Delivered(chunk(i), BUF - bufpos, |s| - base - bufpos);
    HoldsMore(buf[..bufpos], s, base, r);
    Fill(buf, bufpos, s[base + bufpos..base + bufpos + r]);
    bufpos' := bufpos + r;
  }

  /** One read and the pass over the buffer after it, if a request message is there. */
  method Round(s: seq<Byte>, starts: (nat, Request) -> bool, chunk: nat -> nat, ghost c: Session,
               ghost dataLen: nat -> nat, more: nat -> nat, ghost all: seq<Event>,
               ghost left: (seq<Event>, nat, nat, nat) -> bool, buf: array<Byte>, base: nat, bufpos: nat, i: nat,
               log: seq<Event>)
    returns (log': seq<Event>, base': nat, bufpos': nat, disconnect: bool)
    requires Describes(c, dataLen, s) && c.starts == starts && c.chunk == chunk
    requires Follows(c, dataLen, all, left) && left(log, i, base, base + bufpos)
    requires buf.Length == BUF && bufpos < BUF && base + bufpos < |s| && Holds(buf[..bufpos], s, base)
    modifies buf
    ensures disconnect ==> log' == all
    ensures !disconnect ==> left(log', i + 1, base', base' + bufpos') && base' + bufpos' > base + bufpos
                            && bufpos' <= BUF && Holds(buf[..bufpos'], s, base')
  {
    log', base', disconnect := log, base, false;
    bufpos' := ReadOnce(s, chunk, c, buf, base, bufpos, i);
    if bufpos' < HEAD {
      LeftShort(c, dataLen, all, left, log, i, base, base + bufpos);
    } else {
      var handed;
      ghost var pass, open := LeftPass(c, dataLen, all, left, log, i, base, base + bufpos);
      handed, base', bufpos', disconnect :=
        HandleBuffer(s, starts, c, dataLen, more, buf, base, bufpos', |log|, pass, open);
      log' := log + handed;
    }
  }

  /** The reading loop, told what the whole stream holds. */
  method ReadAll(s: seq<Byte>, starts: (nat, Request) -> bool, chunk: nat -> nat, ghost c: Session,
                 ghost dataLen: nat -> nat, more: nat -> nat, ghost all: seq<Event>,
                 ghost left: (seq<Event>, nat, nat, nat) -> bool) returns (log: seq<Event>)
    requires Describes(c, dataLen, s) && c.starts == starts && c.chunk == chunk
    requires Follows(c, dataLen, all, left) && left([], 0, 0, 0)
    ensures log == all
  {
    var buf := new Byte[BUF](_ => 0);
    var base: nat, bufpos: nat, i: nat := 0, 0, 0;
    log := [];
    while base + bufpos < |s| && bufpos < BUF
      invariant base + bufpos <= |s| && bufpos <= BUF
      invariant Holds(buf[..bufpos], s, base)
      invariant left(log, i, base, base + bufpos)
      decreases |s| - base - bufpos
    {
      var disconnect;
      log, base, bufpos, disconnect := Round(s, starts, chunk, c, dataLen, more, all, left, buf, base, bufpos, i, log);
      if disconnect {
        return;
      }
      i := i + 1;
    }
    LeftNothing(c, dataLen, all, left, log, i, base, base + bufpos);
  }

  /** The reader thread hands over what the reader's specification says, in the same order. */
  method ReaderFunc(s: seq<Byte>, starts: (nat, Request) -> bool, chunk: nat -> nat, more: nat -> nat)
    returns (log: seq<Event>)
    requires LengthsFit(SessionOf(s, starts, chunk), DataLenAt(s), 0)
    ensures log == Run(SessionOf(s, starts, chunk), 0, 0, 0, 0)
  {
    ghost var c, dataLen := SessionOf(s, starts, chunk), DataLenAt(s);
    ghost var all := Run(c, 0, 0, 0, 0);
    ghost var left := (log: seq<Event>, i: nat, base: nat, pos: nat) => Left(c, dataLen, all, log, i, base, pos);
    assert all == [] + all;
    log := ReadAll(s, starts, chunk, c, dataLen, more, all, left);
  }
}
