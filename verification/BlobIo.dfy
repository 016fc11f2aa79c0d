/**
 Reads and writes of the block device over a blob that takes only whole blocks: the aligned window of a
 request, the read-modify-write of a write that is not aligned, and the reply to a read.
 */
module BlobIo {
  import opened Common
  import opened NbdStream
  import opened Words

  const BLOCK: nat := 4096
  const REPLY: nat := 16

  datatype Window = Window(offset: nat, length: nat)

  /** The aligned window of a request; the sum of the 32-bit length and the offset in its block wraps. */
  function WindowOf(from: nat, len: nat): Window
  {
    var offYu := from % BLOCK;
    var sum := (offYu + len) % TWO32;
    var lenYu := sum % BLOCK;
    Window(from - offYu, if lenYu > 0 then sum + (BLOCK - lenYu) else sum)
  }

  /** A range of whole blocks that covers [from, from + len]. */
  predicate Cover(w: Window, from: nat, len: nat)
  {
    w.offset % BLOCK == 0 && w.length % BLOCK == 0 && w.offset <= from && from + len <= w.offset + w.length
  }

  ghost predicate SmallestCover(w: Window, from: nat, len: nat)
  {
    Cover(w, from, len)
    && forall v: Window :: Cover(v, from, len) ==> v.offset <= w.offset && w.offset + w.length <= v.offset + v.length
  }

  /** The window is the smallest cover exactly when the 32-bit sum does not wrap. */
  lemma WindowIsSmallestIff(from: nat, len: nat)
    requires len < TWO32
    ensures SmallestCover(WindowOf(from, len), from, len) <==> from % BLOCK + len < TWO32
  {
  }

  /** The 32-bit sum does not wrap. With one that does, the code indexes past the window's buffer. */
  predicate Summable(from: nat, len: nat)
  {
    len < TWO32 && from % BLOCK + len < TWO32
  }

  /** The window's length also fits the 32-bit length of the blob's interface, which else makes it 0. */
  predicate Transferable(from: nat, len: nat)
  {
    len < TWO32 && from % BLOCK + len <= TWO32 - BLOCK
  }

  lemma SummableWindow(from: nat, len: nat)
    requires Summable(from, len)
    ensures var w := WindowOf(from, len);
            && Cover(w, from, len) && w.length <= TWO32 && from - w.offset == from % BLOCK < BLOCK
            && w.length < from % BLOCK + len + BLOCK
            && w.length % TWO32 == (if Transferable(from, len) then w.length else 0)
  {
  }

  // ---------- what a write means ----------

  /** The blob with `data` at [from, from + |data|) and everything else as it was. */
  function Put(disk: seq<Byte>, from: nat, data: seq<Byte>): (r: seq<Byte>)
    requires from + |data| <= |disk|
    ensures |r| == |disk|
  {
    disk[..from] + data + disk[from + |data|..]
  }

  // ---------- the blob ----------

  /** The blob handle: transfers of ranges inside the blob, each of which may also fail. */
  class Blob {
    var disk: seq<Byte>

    constructor (bytes: seq<Byte>)
      ensures disk == bytes
    {
      disk := bytes;
    }

    /** Fills buf[at..at + len]; `answer` is what the transport gives: an error, or how much it counts as read. */
    method Read(buf: array<Byte>, at: nat, len: nat, offset: nat, answer: int) returns (ret: int)
      requires at + len <= buf.Length
      modifies buf
      ensures ret > 0 <==> offset + len <= |disk| && len > 0 && answer > 0
      ensures ret > 0 ==> ret == Min(answer, len) && buf[at..at + len] == disk[offset..offset + len]
      ensures buf[..at] == old(buf[..at]) && buf[at + len..] == old(buf[at + len..])
    {
      ret := -1;
      if offset + len <= |disk| && len > 0 && answer > 0 {
        CopyInto(buf, at, disk[offset..offset + len]);
        ret := Min(answer, len);
      }
    }

    method AsyncRead(buf: array<Byte>, at: nat, len: nat, offset: nat, accepted: bool) returns (ret: int)
      requires at + len <= buf.Length
      modifies buf
      ensures ret == 0 <==> offset + len <= |disk| && accepted
      ensures ret == 0 ==> buf[at..at + len] == disk[offset..offset + len]
      ensures buf[..at] == old(buf[..at]) && buf[at + len..] == old(buf[at + len..])
    {
      ret := -1;
      if offset + len <= |disk| && accepted {
        CopyInto(buf, at, disk[offset..offset + len]);
        ret := 0;
      }
    }

    method AsyncWrite(buf: array<Byte>, len: nat, offset: nat, accepted: bool) returns (ret: int)
      requires len <= buf.Length
      modifies this
      ensures ret == 0 <==> offset + len <= |old(disk)| && accepted
      ensures disk == if ret == 0 then Put(old(disk), offset, buf[..len]) else old(disk)
    {
      ret := -1;
      if offset + len <= |disk| && accepted {
        disk := Put(disk, offset, buf[..len]);
        ret := 0;
      }
    }
  }

  method CopyInto(buf: array<Byte>, at: nat, bytes: seq<Byte>)
    requires at + |bytes| <= buf.Length
    modifies buf
    ensures buf[at..at + |bytes|] == bytes
    ensures buf[..at] == old(buf[..at]) && buf[at + |bytes|..] == old(buf[at + |bytes|..])
  {
    forall k | 0 <= k < |bytes| {
      buf[at + k] := bytes[k];
    }
  }

  // ---------- requests ----------

  /** A request in flight: its range, and the buffer with its data. */
  class IoContext {
    const from: nat
    const len: nat
    var data: array<Byte>

    constructor (from: nat, len: nat, data: array<Byte>)
      ensures this.from == from && this.len == len && this.data == data
    {
      this.from, this.len, this.data := from, len, data;
    }
  }

  /** Fetches the window of a read request, with room for the reply message in front of it. */
  method ReadBlob(blob: Blob, ctx: IoContext, accepted: bool) returns (ok: bool)
    requires ctx.len < TWO32
    modifies ctx
    ensures var w := WindowOf(ctx.from, ctx.len); ok <==> w.offset + w.length % TWO32 <= |blob.disk| && accepted
    ensures fresh(ctx.data) && blob.disk == old(blob.disk)
    ensures ok ==> Fetched(ctx.data[..], blob.disk, ctx.from, ctx.len)
  {
    var w := WindowOf(ctx.from, ctx.len);
    ctx.data := new Byte[REPLY + w.length];
    var len := w.length % TWO32;
    var ret := blob.AsyncRead(ctx.data, REPLY, len, w.offset, accepted);
    ok := ret == 0;
    assert ok ==> ctx.data[..][REPLY..REPLY + len] == ctx.data[REPLY..REPLY + len];
  }

  /** The buffer of a read holds the window behind the room for the reply, as far as it was transferred. */
  predicate Fetched(buf: seq<Byte>, disk: seq<Byte>, from: nat, len: nat)
  {
    var w := WindowOf(from, len);
    var got := w.length % TWO32;
    && |buf| == REPLY + w.length && w.offset + got <= |disk|
    && buf[REPLY..REPLY + got] == disk[w.offset..w.offset + got]
  }

  lemma SliceOfSlice(s: seq<Byte>, lo: nat, hi: nat, from: nat, to: nat)
    requires lo <= hi <= |s| && from <= to <= hi - lo
    ensures s[lo..hi][from..to] == s[lo + from..lo + to]
  {
    var part := s[lo..hi][from..to];
    assert forall k | 0 <= k < |part| :: part[k] == s[lo + from + k];
  }

  lemma FetchedPart(buf: seq<Byte>, disk: seq<Byte>, from: nat, len: nat)
    requires Transferable(from, len) && Fetched(buf, disk, from, len)
    ensures var at := REPLY + from % BLOCK;
            at + len <= |buf| && from + len <= |disk| && buf[at..at + len] == disk[from..from + len]
  {
    SummableWindow(from, len);
    var w := WindowOf(from, len);
    var at := from % BLOCK;
    SliceOfSlice(buf, REPLY, REPLY + w.length, at, at + len);
    SliceOfSlice(disk, w.offset, w.offset + w.length, at, at + len);
  }

  /** A message laid down just in front of some bytes is sent with them. */
  lemma InFront(was: seq<Byte>, now: seq<Byte>, at: nat, message: seq<Byte>, len: nat)
    requires |now| == |was| && at + |message| + len <= |now|
    requires now[at..at + |message|] == message && now[at + |message|..] == was[at + |message|..]
    ensures now[at..at + |message| + len] == message + was[at + |message|..at + |message| + len]
  {
    var end := at + |message|;
    var x, y := now[at..end + len], message + was[end..end + len];
    forall k | 0 <= k < |x| ensures x[k] == y[k] {
      if k < |message| {
        assert x[k] == now[at..end][k];
      } else {
        assert x[k] == now[end..][k - |message|] == was[end..][k - |message|];
      }
    }
  }

  /**
   The reply to a read is the reply message followed by exactly the bytes asked for; when the
   window was not transferred, by what the buffer holds.
   */
  method SendReply(ctx: IoContext, reply: seq<Byte>, ghost disk: seq<Byte>) returns (sent: seq<Byte>)
    requires |reply| == REPLY && Summable(ctx.from, ctx.len) && Fetched(ctx.data[..], disk, ctx.from, ctx.len)
    modifies ctx.data
    ensures var at := REPLY + ctx.from % BLOCK;
            at + ctx.len <= |old(ctx.data[..])| && sent == reply + old(ctx.data[..])[at..at + ctx.len]
    ensures Transferable(ctx.from, ctx.len) ==>
              ctx.from + ctx.len <= |disk| && sent == reply + disk[ctx.from..ctx.from + ctx.len]
  {
    SummableWindow(ctx.from, ctx.len);
    var offYu := ctx.from % BLOCK;
    ghost var was := ctx.data[..];
    CopyInto(ctx.data, offYu, reply);
    sent := ctx.data[offYu..offYu + REPLY + ctx.len];
    ghost var now := ctx.data[..];
    assert now[offYu..offYu + REPLY] == ctx.data[offYu..offYu + REPLY];
    assert now[offYu + REPLY..] == ctx.data[offYu + REPLY..] == was[offYu + REPLY..];
    InFront(was, now, offYu, reply, ctx.len);
    if Transferable(ctx.from, ctx.len) {
      FetchedPart(was, disk, ctx.from, ctx.len);
    }
  }

  /** A write needs the bytes around its data when it does not fill its window. */
  predicate Unaligned(from: nat, len: nat)
  {
    from % BLOCK > 0 || len != WindowOf(from, len).length
  }

  /** How much of the window the first read asks for. */
  function HeadLen(from: nat, len: nat): nat
  {
    if WindowOf(from, len).length < 65536 then WindowOf(from, len).length else BLOCK
  }

  /** The first read is not counted as the whole window, and the data does not end with a block. */
  predicate NeedsTail(from: nat, len: nat, head: int)
    requires head > 0
  {
    Min(head, HeadLen(from, len)) < WindowOf(from, len).length && (from + len) % BLOCK > 0
  }

  /** The reads that the write needs, if any, give something. */
  predicate ReadsWork(from: nat, len: nat, head: int, tail: int)
  {
    Unaligned(from, len) ==> head > 0 && (NeedsTail(from, len, head) ==> tail > 0)
  }

  /** Outside [from, from + len) the window's bytes are the blob's. */
  predicate Around(buf: seq<Byte>, disk: seq<Byte>, from: nat, len: nat)
  {
    var w := WindowOf(from, len);
    var end := from % BLOCK + len;
    && |buf| == w.length && w.offset + w.length <= |disk| && end <= w.length
    && buf[..from % BLOCK] == disk[w.offset..from]
    && buf[end..] == disk[from + len..w.offset + w.length]
  }

  /** The bytes of buf in [lo, hi) are those of the blob from `offset` on. */
  predicate Same(buf: seq<Byte>, disk: seq<Byte>, offset: nat, lo: nat, hi: nat)
    requires hi <= |buf| && offset + hi <= |disk|
  {
    forall k | lo <= k < hi :: buf[k] == disk[offset + k]
  }

  lemma FirstRead(buf: seq<Byte>, disk: seq<Byte>, offset: nat, len: nat)
    requires len <= |buf| && offset + len <= |disk| && buf[0..len] == disk[offset..offset + len]
    ensures Same(buf, disk, offset, 0, len)
  {
  }

  lemma SecondRead(was: seq<Byte>, buf: seq<Byte>, disk: seq<Byte>, offset: nat, len: nat, at: nat)
    requires |was| == |buf| && len <= |buf| && at <= |buf| && offset + |buf| <= |disk|
    requires Same(was, disk, offset, 0, len)
    requires buf[..at] == was[..at] && buf[at..|buf|] == disk[offset + at..offset + |buf|]
    ensures Same(buf, disk, offset, 0, len) && Same(buf, disk, offset, at, |buf|)
  {
  }

  lemma SameIsAround(buf: seq<Byte>, disk: seq<Byte>, from: nat, len: nat)
    requires Summable(from, len)
    requires var w := WindowOf(from, len);
             && |buf| == w.length && w.offset + w.length <= |disk|
             && from % BLOCK + len <= w.length
             && Same(buf, disk, w.offset, 0, from % BLOCK) && Same(buf, disk, w.offset, from % BLOCK + len, w.length)
    ensures Around(buf, disk, from, len)
  {
  }

  /** Reads the head of the window. */
  method ReadHead(blob: Blob, buf: array<Byte>, offset: nat, len: nat, head: int) returns (ret: int)
    requires 0 < len <= buf.Length
    modifies buf
    ensures ret > 0 <==> offset + len <= |blob.disk| && head > 0
    ensures ret > 0 ==> ret == Min(head, len) && Same(buf[..], blob.disk, offset, 0, len)
  {
    ret := blob.Read(buf, 0, len, offset, head);
    if ret > 0 {
      assert buf[..][0..len] == buf[0..len];
      FirstRead(buf[..], blob.disk, offset, len);
    }
  }

  /** Reads the window's last block over what the head has read. */
  method ReadTail(blob: Blob, buf: array<Byte>, offset: nat, len: nat, tail: int) returns (ret: int)
    requires BLOCK <= buf.Length && len <= buf.Length && offset + len <= |blob.disk|
    requires Same(buf[..], blob.disk, offset, 0, len)
    modifies buf
    ensures ret > 0 <==> offset + buf.Length <= |blob.disk| && tail > 0
    ensures ret > 0 ==> Same(buf[..], blob.disk, offset, 0, len)
                        && Same(buf[..], blob.disk, offset, buf.Length - BLOCK, buf.Length)
  {
    ghost var first := buf[..];
    var at := buf.Length - BLOCK;
    ret := blob.Read(buf, at, BLOCK, offset + at, tail);
    if ret > 0 {
      assert buf[..][at..buf.Length] == buf[at..at + BLOCK];
      assert buf[..][..at] == buf[..at] == first[..at];
      SecondRead(first, buf[..], blob.disk, offset, len, at);
    }
  }

  /**
   Reads into buf what the window holds around the data: the whole window when it is short, else its
   first block, and its last block when the data does not reach the window's end.
   */
  method ReadAround(blob: Blob, buf: array<Byte>, from: nat, len: nat, head: int, tail: int) returns (ok: bool)
    requires Summable(from, len) && Unaligned(from, len) && buf.Length == WindowOf(from, len).length
    modifies buf
    ensures ok ==> head > 0
    ensures var w := WindowOf(from, len);
            w.offset + w.length <= |blob.disk| ==>
              (ok <==> ReadsWork(from, len, head, tail)) && (ok ==> Around(buf[..], blob.disk, from, len))
  {
    SummableWindow(from, len);
    var w := WindowOf(from, len);
    var offYu := from % BLOCK;
    var lenYu := (offYu + len) % TWO32 % BLOCK;
    assert lenYu == (from + len) % BLOCK;
    var readLen := if w.length < 65536 then w.length else BLOCK;
    var ret := ReadHead(blob, buf, w.offset, readLen, head);
    if ret <= 0 {
      return false;
    }
    if ret < w.length && lenYu > 0 {
      ret := ReadTail(blob, buf, w.offset, readLen, tail);
      if ret <= 0 {
        return false;
      }
    }
    ok := true;
    if w.offset + w.length <= |blob.disk| {
      SameIsAround(buf[..], blob.disk, from, len);
    }
  }

  /** The whole window is inside the blob. */
  predicate Inside(disk: seq<Byte>, from: nat, len: nat)
  {
    var w := WindowOf(from, len);
    Summable(from, len) && Cover(w, from, len) && w.offset + w.length <= |disk|
  }

  /** The window of a write: what the blob would hold there after it. */
  function Filled(disk: seq<Byte>, from: nat, data: seq<Byte>): seq<Byte>
    requires Inside(disk, from, |data|)
  {
    var w := WindowOf(from, |data|);
    Put(disk, from, data)[w.offset..w.offset + w.length]
  }

  lemma SliceOfPut(disk: seq<Byte>, from: nat, data: seq<Byte>, lo: nat, hi: nat)
    requires lo <= from && from + |data| <= hi <= |disk|
    ensures Put(disk, from, data)[lo..hi] == disk[lo..from] + data + disk[from + |data|..hi]
  {
    var x, y := Put(disk, from, data)[lo..hi], disk[lo..from] + data + disk[from + |data|..hi];
    assert |x| == hi - lo == |y|;
    forall k | 0 <= k < |x| ensures x[k] == y[k] {
      assert x[k] == Put(disk, from, data)[lo + k];
    }
  }

  /** Laying the data over the bytes around it gives the window of the write. */
  lemma OverlaidWindow(around: seq<Byte>, buf: seq<Byte>, disk: seq<Byte>, from: nat, data: seq<Byte>)
    requires Inside(disk, from, |data|) && Around(around, disk, from, |data|)
    requires |buf| == |around| && buf[from % BLOCK..from % BLOCK + |data|] == data
    requires buf[..from % BLOCK] == around[..from % BLOCK]
    requires buf[from % BLOCK + |data|..] == around[from % BLOCK + |data|..]
    ensures buf == Filled(disk, from, data)
  {
    SummableWindow(from, |data|);
    var w, at := WindowOf(from, |data|), from % BLOCK;
    SliceOfPut(disk, from, data, w.offset, w.offset + w.length);
    assert buf == buf[..at] + buf[at..at + |data|] + buf[at + |data|..];
  }

  /** Writing the window of a write is the write. */
  lemma PutFilled(disk: seq<Byte>, from: nat, data: seq<Byte>)
    requires Inside(disk, from, |data|)
    ensures Put(disk, WindowOf(from, |data|).offset, Filled(disk, from, data)) == Put(disk, from, data)
  {
  }

  /** An aligned write is its own window. */
  lemma AlignedWindow(from: nat, len: nat)
    requires Summable(from, len) && !Unaligned(from, len)
    ensures WindowOf(from, len) == Window(from, len)
  {
  }

  /** The window to write for the request, or nothing if a read it needs fails. */
  method FillWindow(blob: Blob, ctx: IoContext, head: int, tail: int) returns (ok: bool)
    requires Summable(ctx.from, ctx.len) && ctx.data.Length == ctx.len
    modifies ctx
    ensures ok ==> ctx.data.Length == WindowOf(ctx.from, ctx.len).length
    ensures ok && Unaligned(ctx.from, ctx.len) ==> head > 0
    ensures var w := WindowOf(ctx.from, ctx.len);
            w.offset + w.length <= |blob.disk| ==>
              && Inside(blob.disk, ctx.from, ctx.len)
              && (ok <==> ReadsWork(ctx.from, ctx.len, head, tail))
              && (ok ==> ctx.data[..] == Filled(blob.disk, ctx.from, old(ctx.data[..])))
  {
    SummableWindow(ctx.from, ctx.len);
    if !Unaligned(ctx.from, ctx.len) {
      AlignedWindow(ctx.from, ctx.len);
      if ctx.from + ctx.len <= |blob.disk| {
        assert ctx.data[..] == Filled(blob.disk, ctx.from, ctx.data[..]);
      }
      return true;
    }
    var offYu := ctx.from % BLOCK;
    var buf := new Byte[WindowOf(ctx.from, ctx.len).length];
    ok := ReadAround(blob, buf, ctx.from, ctx.len, head, tail);
    if ok {
      ghost var around := buf[..];
      CopyInto(buf, offYu, ctx.data[..]);
      if Around(around, blob.disk, ctx.from, ctx.len) {
        OverlaidWindow(around, buf[..], blob.disk, ctx.from, ctx.data[..]);
      }
      ctx.data := buf;
    }
  }

  /**
   Writes ctx.data at [from, from + len): a write that succeeds changes exactly these bytes, a write
   that fails changes nothing, and it succeeds exactly when its window is inside the blob, the transfer
   is accepted and the reads it needs work.
   A window of 2^32 bytes is handed on with length 0: the write changes nothing even if it is accepted.
   A handle that answers a successful read with 0 makes every write that is not aligned fail.
   */
  method WriteBlob(blob: Blob, ctx: IoContext, head: int, tail: int, accepted: bool) returns (ok: bool)
    requires Summable(ctx.from, ctx.len) && ctx.data.Length == ctx.len
    modifies ctx, blob
    ensures ok && Transferable(ctx.from, ctx.len) ==>
              && ctx.from + ctx.len <= |old(blob.disk)|
              && blob.disk == Put(old(blob.disk), ctx.from, old(ctx.data[..]))
    ensures !ok || !Transferable(ctx.from, ctx.len) ==> blob.disk == old(blob.disk)
    ensures ok && Unaligned(ctx.from, ctx.len) ==> head > 0
    ensures var w := WindowOf(ctx.from, ctx.len);
            Transferable(ctx.from, ctx.len) ==>
              (ok <==> w.offset + w.length <= |old(blob.disk)| && accepted && ReadsWork(ctx.from, ctx.len, head, tail))
  {
    ok := FillWindow(blob, ctx, head, tail);
    if ok {
      SummableWindow(ctx.from, ctx.len);
      var w := WindowOf(ctx.from, ctx.len);
      assert ctx.data[..w.length] == ctx.data[..];
      ghost var was := blob.disk;
      if w.offset + w.length <= |was| {
        PutFilled(was, ctx.from, old(ctx.data[..]));
      }
      var ret := blob.AsyncWrite(ctx.data, w.length % TWO32, w.offset, accepted);
      ok := ret == 0;
      assert ok && !Transferable(ctx.from, ctx.len) ==> blob.disk == was;
    }
  }
}
