/**
 Writing request messages, and that decoding gives back what was written.
 */
module NbdCodec {
  import opened NbdStream
  import opened Words

  /** A request with the data that follows it. */
  datatype Item = Item(req: Request, data: seq<Byte>) {
    predicate Valid()
    {
      && |req.handle| == 8 && req.kind < TWO32 && req.len < TWO32 && req.from < TWO32 * TWO32
      && req.Command() != CMD_DISC
      && |data| == req.DataLen()
    }
  }

  function EncodeHead(r: Request): (h: seq<Byte>)
    requires |r.handle| == 8
    ensures |h| == HEAD
  {
    ToBigEndian(REQUEST_MAGIC, 4) + ToBigEndian(r.kind, 4) + r.handle + ToBigEndian(r.from, 8) + ToBigEndian(r.len, 4)
  }

  predicate AllValid(items: seq<Item>)
  {
    forall i | 0 <= i < |items| :: items[i].Valid()
  }

  function EncodeAll(items: seq<Item>): seq<Byte>
    requires AllValid(items)
  {
    if items == [] then [] else EncodeHead(items[0].req) + items[0].data + EncodeAll(items[1..])
  }

  function Pow256(w: nat): (r: nat)
    ensures r > 0
  {
    if w == 0 then 1 else 256 * Pow256(w - 1)
  }

  lemma {:induction false} BigEndianRoundTrip(n: nat, width: nat)
    requires n < Pow256(width)
    ensures BigEndian(ToBigEndian(n, width)) == n
    decreases width
  {
    if width > 0 {
      BigEndianRoundTrip(n / 256, width - 1);
      var b := ToBigEndian(n, width);
      assert b[..|b| - 1] == ToBigEndian(n / 256, width - 1);
    }
  }

  lemma Pow256Values()
    ensures Pow256(4) == TWO32 && Pow256(8) == TWO32 * TWO32
  {
  }

  /** Slices of five parts put together. */
  lemma FiveParts(m: seq<Byte>, k: seq<Byte>, h: seq<Byte>, f: seq<Byte>, l: seq<Byte>)
    requires |m| == 4 && |k| == 4 && |h| == 8 && |f| == 8 && |l| == 4
    ensures var e := m + k + h + f + l;
            e[..4] == m && e[4..8] == k && e[8..16] == h && e[16..24] == f && e[24..28] == l
  {
  }

  /** Reading a written request message gives the request. */
  lemma HeadRoundTrip(r: Request)
    requires |r.handle| == 8 && r.kind < TWO32 && r.len < TWO32 && r.from < TWO32 * TWO32
    ensures MagicOk(EncodeHead(r)) && ParseHead(EncodeHead(r)) == r
  {
    Pow256Values();
    BigEndianRoundTrip(REQUEST_MAGIC, 4);
    BigEndianRoundTrip(r.kind, 4);
    BigEndianRoundTrip(r.from, 8);
    BigEndianRoundTrip(r.len, 4);
    FiveParts(ToBigEndian(REQUEST_MAGIC, 4), ToBigEndian(r.kind, 4), r.handle, ToBigEndian(r.from, 8),
              ToBigEndian(r.len, 4));
  }

  /** A request written at offset p of a stream is the frame found there. */
  lemma FrameOfWritten(s: seq<Byte>, p: nat, x: Item)
    requires x.Valid() && p + HEAD + |x.data| <= |s|
    requires s[p..p + HEAD] == EncodeHead(x.req) && s[p + HEAD..p + HEAD + |x.data|] == x.data
    ensures FrameAt(s, p) == Frame(Event(p, x.req, x.data), p + HEAD + |x.data|)
  {
    HeadRoundTrip(x.req);
  }

  /** What the events carry, without their offsets. */
  function Items(events: seq<Event>): seq<Item>
  {
    if events == [] then [] else [Item(events[0].req, events[0].data)] + Items(events[1..])
  }

  /** The n-th request handed over keeps the connection open: a flush or a trim, or an access the block layer starts. */
  predicate StaysOpen(starts: (nat, Request) -> bool, n: nat, r: Request)
  {
    || r.Command() in {CMD_FLUSH, CMD_TRIM}
    || (r.Command() in {CMD_READ, CMD_WRITE} && starts(n, r))
  }

  /** The first k requests, numbered from n on, keep the connection open, and the one after them, if any, ends it. */
  predicate OpenFor(starts: (nat, Request) -> bool, n: nat, items: seq<Item>, k: nat)
  {
    && k <= |items|
    && (forall i | 0 <= i < k :: StaysOpen(starts, n + i, items[i].req))
    && (k < |items| ==> !StaysOpen(starts, n + k, items[k].req))
  }

  /** What is handed over then: the request that ends the connection is the last one. */
  function HandedOver(items: seq<Item>, k: nat): seq<Item>
  {
    if k < |items| then items[..k + 1] else items
  }

  /** The session's stream holds these requests from offset p on, and no other after them. */
  ghost predicate Laid(c: Session, p: nat, items: seq<Item>)
    decreases items
  {
    if items == [] then c.frame(p) == NoFrame
    else
      var end := p + HEAD + |items[0].data|;
      c.frame(p) == Frame(Event(p, items[0].req, items[0].data), end) && Laid(c, end, items[1..])
  }

  lemma {:induction false} LaidDecodes(c: Session, p: nat, items: seq<Item>, n: nat, k: nat)
    requires c.Valid() && Laid(c, p, items) && OpenFor(c.starts, n, items, k)
    ensures Items(Decode(c, p, n)) == HandedOver(items, k)
    decreases items
  {
    if items != [] {
      var f := c.frame(p);
      if k > 0 {
        assert StaysOpen(c.starts, n + 0, items[0].req);
        OpenForRest(c.starts, n, items, k);
        LaidDecodes(c, f.end, items[1..], n + 1, k - 1);
        DecodeStep(c, p, n, f.event, f.end);
        HandedOverStep(items, k);
      } else {
        DecodeLast(c, p, n, f.event, f.end);
      }
    }
  }

  lemma OpenForRest(starts: (nat, Request) -> bool, n: nat, items: seq<Item>, k: nat)
    requires OpenFor(starts, n, items, k) && k > 0
    ensures OpenFor(starts, n + 1, items[1..], k - 1)
  {
    forall i | 0 <= i < k - 1 ensures StaysOpen(starts, n + 1 + i, items[1..][i].req) {
      assert StaysOpen(starts, n + (i + 1), items[i + 1].req);
    }
  }

  lemma HandedOverStep(items: seq<Item>, k: nat)
    requires items != [] && 0 < k <= |items|
    ensures HandedOver(items, k) == [items[0]] + HandedOver(items[1..], k - 1)
  {
  }

  lemma DecodeStep(c: Session, p: nat, n: nat, e: Event, end: nat)
    requires c.Valid() && c.frame(p) == Frame(e, end) && StaysOpen(c.starts, n, e.req)
    ensures Items(Decode(c, p, n)) == [Item(e.req, e.data)] + Items(Decode(c, end, n + 1))
  {
  }

  lemma DecodeLast(c: Session, p: nat, n: nat, e: Event, end: nat)
    requires c.Valid() && c.frame(p) == Frame(e, end) && !StaysOpen(c.starts, n, e.req)
    ensures Items(Decode(c, p, n)) == [Item(e.req, e.data)]
  {
    assert Decode(c, p, n) == [e];
    assert [e][1..] == [];
  }

  lemma ThreeParts(s: seq<Byte>, p: nat, h: seq<Byte>, d: seq<Byte>, rest: seq<Byte>)
    requires |h| == HEAD && p <= |s| && s[p..] == h + d + rest
    ensures var q := p + HEAD + |d|; q <= |s| && s[p..p + HEAD] == h && s[p + HEAD..q] == d && s[q..] == rest
  {
  }

  ghost predicate FramesOf(c: Session, s: seq<Byte>)
  {
    forall p: nat {:trigger FrameAt(s, p)} :: c.frame(p) == FrameAt(s, p)
  }

  /** What ends a stream of requests: no whole message, no request at all, a disconnect, or a write without its data. */
  predicate Over(tail: seq<Byte>)
  {
    || |tail| < HEAD
    || BigEndian(tail[..4]) != REQUEST_MAGIC
    || var r := ParseHead(tail[..HEAD]); r.Command() == CMD_DISC || (r.Command() == CMD_WRITE && |tail| < HEAD + r.len)
  }

  lemma OverIsNoFrame(s: seq<Byte>, p: nat, tail: seq<Byte>)
    requires p <= |s| && s[p..] == tail && Over(tail)
    ensures FrameAt(s, p) == NoFrame
  {
    assert |tail| == |s| - p;
    if p + HEAD <= |s| {
      assert tail[..HEAD] == HeadAt(s, p);
      assert tail[..4] == HeadAt(s, p)[..4];
    }
  }

  /** A stream written request by request holds these requests, whatever it ends with. */
  lemma {:induction false} WrittenIsLaid(c: Session, s: seq<Byte>, p: nat, items: seq<Item>, tail: seq<Byte>)
    requires FramesOf(c, s) && AllValid(items) && Over(tail) && p <= |s| && s[p..] == EncodeAll(items) + tail
    ensures Laid(c, p, items)
    decreases items
  {
    if items == [] {
      assert EncodeAll(items) + tail == tail;
      OverIsNoFrame(s, p, tail);
    } else {
      var x := items[0];
      var rest := EncodeAll(items[1..]) + tail;
      assert EncodeAll(items) + tail == EncodeHead(x.req) + x.data + rest;
      ThreeParts(s, p, EncodeHead(x.req), x.data, rest);
      FrameOfWritten(s, p, x);
      WrittenIsLaid(c, s, p + HEAD + |x.data|, items[1..], tail);
    }
  }

  /** A written stream decodes to the requests written, up to the first one that ends the connection. */
  lemma DecodeWritten(items: seq<Item>, tail: seq<Byte>, k: nat, starts: (nat, Request) -> bool, chunk: nat -> nat)
    requires AllValid(items) && Over(tail) && OpenFor(starts, 0, items, k)
    ensures Items(Decode(SessionOf(EncodeAll(items) + tail, starts, chunk), 0, 0)) == HandedOver(items, k)
  {
    var s := EncodeAll(items) + tail;
    var c := SessionOf(s, starts, chunk);
    assert s[0..] == s;
    WrittenIsLaid(c, s, 0, items, tail);
    LaidDecodes(c, 0, items, 0, k);
  }

  /**
   What a client sends is what the reader hands over, up to the first request that ends the connection,
   which is the last one handed over, whenever no read but the last cuts a message.
   */
  lemma SentIsHandedOver(items: seq<Item>, tail: seq<Byte>, k: nat, starts: (nat, Request) -> bool,
                         chunk: nat -> nat, c: Session)
    requires AllValid(items) && Over(tail) && OpenFor(starts, 0, items, k)
    requires c == SessionOf(EncodeAll(items) + tail, starts, chunk) && CleanReads(c, 0, 0, 0, 0)
    ensures Items(Run(c, 0, 0, 0, 0)) == HandedOver(items, k)
  {
    DecodeWritten(items, tail, k, starts, chunk);
    ReaderDecodesIff(c, 0, 0, 0, 0);
  }

  /** A first read that cuts the second message makes the reader hand over something else. */
  lemma CutRepeats(c: Session)
    requires c.Valid() && c.frame(0).Frame? && Started(c.starts, 0, c.frame(0).event.req)
    requires c.frame(0).end < c.chunk(0) < c.frame(0).end + HEAD && c.chunk(0) < c.size
    requires c.frame(0).end <= BUF - HEAD
    ensures Run(c, 0, 0, 0, 0) != Decode(c, 0, 0)
  {
    var q := c.frame(0).end;
    var pos := c.chunk(0);
    assert Reaches(c, q, 1, q);
    assert CutAt(c, 0, pos, 0, q);
    StaleIffCut(c, 0, pos, 0);
    ReaderDecodesIff(c, 0, 0, 0, 0);
  }

  /**
   Two requests, the message of the second cut by the first read: the reader hands the first request
   over again, so what it hands over is not what was sent.
   */
  lemma CutMessageRepeats(x: Item, y: Item, starts: (nat, Request) -> bool, chunk: nat -> nat)
    requires x.Valid() && y.Valid() && StaysOpen(starts, 0, x.req)
    requires |x.data| <= BUF - 2 * HEAD
    requires HEAD + |x.data| < chunk(0) < HEAD + |x.data| + HEAD
    ensures var c := SessionOf(EncodeAll([x, y]), starts, chunk); Run(c, 0, 0, 0, 0) != Decode(c, 0, 0)
  {
    var items := [x, y];
    var s := EncodeAll(items);
    assert items[1..] == [y];
    assert s[0..] == s;
    ThreeParts(s, 0, EncodeHead(x.req), x.data, EncodeAll([y]));
    FrameOfWritten(s, 0, x);
    CutRepeats(SessionOf(s, starts, chunk));
  }
}
