/**
 The arena as it is kept: a linked list of blocks with a pointer to the last one.
 */
module ArenaList {
  import opened Common
  import opened Arenas

  class Block {
    var size: nat
    var capacity: nat
    var data: nat
    var next: Block?
    ghost var place: nat

    constructor (capacity: nat, data: nat)
      ensures size == 0 && this.capacity == capacity && this.data == data && next == null
    {
      size, this.capacity, this.data, next := 0, capacity, data, null;
    }

    function View(): Chunk
      reads this`size, this`capacity, this`data
    {
      Chunk(data, capacity, size)
    }
  }

  /** The blocks hold these values. */
  ghost predicate Mirrors(blocks: seq<Block>, chunks: seq<Chunk>)
    reads blocks`size, blocks`capacity, blocks`data
  {
    |chunks| == |blocks| && forall i | 0 <= i < |blocks| :: blocks[i].View() == chunks[i]
  }

  lemma MirrorsMore(blocks: seq<Block>, chunks: seq<Chunk>, b: Block)
    requires Mirrors(blocks, chunks)
    ensures Mirrors(blocks + [b], chunks + [b.View()])
  {
  }

  /** The i-th block, or null past the last one. */
  ghost function At(blocks: seq<Block>, i: nat): Block?
  {
    if i < |blocks| then blocks[i] else null
  }

  /** `blocks` is the list from `first` on, and `cur` is its last element. */
  ghost predicate Linked(first: Block?, cur: Block?, blocks: seq<Block>)
    reads blocks`next, blocks`place
  {
    && first == At(blocks, 0)
    && cur == (if blocks == [] then null else blocks[|blocks| - 1])
    && (forall i | 0 <= i < |blocks| :: blocks[i].place == i)
    && (forall i {:trigger blocks[i].next} | 0 <= i < |blocks| :: blocks[i].next == At(blocks, i + 1))
  }

  class Arena {
    const options: Options
    var numBlocks: nat
    var blockSize: nat
    var first: Block?
    var cur: Block?
    var regions: nat
    ghost var blocks: seq<Block>
    ghost var chunks: seq<Chunk>

    ghost function Value(): State
      reads this
    {
      State(chunks, blockSize, regions)
    }

    ghost predicate Valid()
      reads this, blocks
    {
      Linked(first, cur, blocks) && Mirrors(blocks, chunks) && numBlocks == |blocks| && WellFormed(Value())
    }

    constructor (options: Options)
      ensures Valid() && Value() == State([], options.initialBlockSize, 0) && this.options == options
    {
      this.options, numBlocks, blockSize, first, cur, regions := options, 0, options.initialBlockSize, null, null, 0;
      blocks, chunks := [], [];
    }

    /** Cuts units from a block while they fit. */
    method CarveBlock(b: Block, size: nat, num: nat, addrs: seq<Addr>) returns (addrs': seq<Addr>, left: nat)
      requires b.size <= b.capacity
      modifies b`size
      ensures var u := Carve(old(b.View()), size, num);
              b.View() == u.chunk && addrs' == addrs + u.addrs && left == u.left
    {
      addrs', left := addrs, num;
      ghost var goal := Carve(b.View(), size, num);
      while b.capacity - b.size >= size && left > 0
        invariant b.size <= b.capacity
        invariant var u := Carve(b.View(), size, left);
                  goal.chunk == u.chunk && goal.left == u.left && addrs + goal.addrs == addrs' + u.addrs
        decreases left
      {
        addrs' := addrs' + [Addr(b.data, b.size)];
        b.size := b.size + size;
        left := left - 1;
      }
    }

    /** Cuts units from a new block, which has room for all of them. */
    method FillBlock(b: Block, size: nat, num: nat, addrs: seq<Addr>) returns (addrs': seq<Addr>)
      requires b.size + num * size <= b.capacity
      modifies b`size
      ensures var u := Carve(old(b.View()), size, num); b.View() == u.chunk && addrs' == addrs + u.addrs
    {
      addrs' := addrs;
      var left: nat := num;
      ghost var goal := Carve(b.View(), size, num);
      while left > 0
        invariant left <= num && b.size + left * size <= b.capacity && left * size >= 0
        invariant var u := Carve(b.View(), size, left); goal.chunk == u.chunk && addrs + goal.addrs == addrs' + u.addrs
        decreases left
      {
        assert left * size == size + (left - 1) * size && (left - 1) * size >= 0;
        addrs' := addrs' + [Addr(b.data, b.size)];
        b.size := b.size + size;
        left := left - 1;
      }
    }

    /** Hangs a block behind the last one; the blocks before it hold these values. */
    method Link(b: Block, ghost held: seq<Chunk>)
      requires Linked(first, cur, blocks) && Mirrors(blocks, held) && b !in blocks && b.next == null
      modifies this`first, this`cur, this`blocks, blocks`next, b`place
      ensures Linked(first, cur, blocks) && blocks == old(blocks) + [b]
      ensures Mirrors(blocks, held + [b.View()])
    {
      if cur == null {
        first := b;
      } else {
        cur.next := b;
      }
      b.place := |blocks|;
      MirrorsMore(blocks, held, b);
      cur, blocks := b, blocks + [b];
    }

    /** Hangs a block behind the last one; blocks after the first double the size of the next. */
    method Hang(b: Block)
      requires Valid() && b !in blocks && b.next == null && b.data == regions && b.size <= b.capacity
      modifies this, blocks`next, b`place
      ensures Valid() && blocks == old(blocks) + [b]
      ensures Value() == State(old(chunks) + [b.View()],
                               if old(chunks) != [] && old(blockSize) < options.maxBlockSize then 2 * old(blockSize)
                               else old(blockSize), old(regions) + 1)
    {
      ghost var was := Value();
      if cur != null && blockSize < options.maxBlockSize {
        blockSize := 2 * blockSize;
      }
      OneMoreChunk(was, b.View(), blockSize);
      numBlocks, regions, chunks := numBlocks + 1, regions + 1, chunks + [b.View()];
      Link(b, was.chunks);
    }

    /** Takes a new block for the units that are left and hangs it behind the last one. */
    method AddBlock(size: nat, left: nat, addrs: seq<Addr>) returns (addrs': seq<Addr>)
      requires Valid()
      modifies this, blocks`next
      ensures Valid() && old(blocks) <= blocks && (forall i | |old(blocks)| <= i < |blocks| :: fresh(blocks[i]))
      ensures var r := Extend(options, old(Value()), size, left, addrs); Value() == r.state && addrs' == r.addrs
    {
      var capacity := Max(Min(blockSize, options.maxBlockSize), left * size);
      var b := new Block(capacity, regions);
      CarveHolds(b.View(), size, left);
      addrs' := FillBlock(b, size, left, addrs);
      Hang(b);
    }

    /** Sets how full the last block is. */
    method Resize(size: nat, ghost c: Chunk)
      requires Valid() && cur != null && size <= cur.capacity && c == cur.View().(size := size)
      modifies cur`size, this`chunks
      ensures Valid() && chunks == old(chunks)[|blocks| - 1 := c]
    {
      cur.size := size;
      chunks := chunks[|blocks| - 1 := c];
    }

    /** Cuts what fits from the last block. */
    method CarveCurrent(size: nat, num: nat, addrs: seq<Addr>) returns (addrs': seq<Addr>, left: nat)
      requires Valid() && cur != null
      modifies cur`size, this`chunks
      ensures var last := |blocks| - 1;
              var u := Carve(old(chunks)[last], size, num);
              && Valid() && chunks == old(chunks)[last := u.chunk]
              && addrs' == addrs + u.addrs && left == u.left
    {
      ghost var last := |blocks| - 1;
      assert chunks[last] == cur.View();
      CarveHolds(chunks[last], size, num);
      addrs', left := CarveBlock(cur, size, num, addrs);
      chunks := chunks[last := Carve(chunks[last], size, num).chunk];
    }

    /** Cuts what fits from the last block, if there is one, and remembers how full it was. */
    method CarveLast(size: nat, num: nat, addrs: seq<Addr>)
      returns (addrs': seq<Addr>, left: nat, oldSize: nat, ghost cut: seq<Addr>)
      requires Valid()
      modifies blocks`size, this`chunks
      ensures Valid() && Cut(old(Value()), Value(), size, num, cut, left) && addrs' == addrs + cut
      ensures chunks != [] ==> old(chunks) == chunks[|chunks| - 1 := chunks[|chunks| - 1].(size := oldSize)]
    {
      addrs', left, oldSize, cut := addrs, num, 0, [];
      if cur != null {
        ghost var c := chunks[|chunks| - 1];
        assert c == cur.View();
        oldSize := cur.size;
        CarveHolds(c, size, num);
        cut := Carve(c, size, num).addrs;
        addrs', left := CarveCurrent(size, num, addrs);
      }
    }

    /** Gives back what was cut from the last block. */
    method Undo(oldSize: nat, ghost was: State)
      requires Valid() && cur != null && WellFormed(was)
      requires was == Value().(chunks := chunks[|chunks| - 1 := chunks[|chunks| - 1].(size := oldSize)])
      modifies cur`size, this`chunks
      ensures Valid() && Value() == was
    {
      ghost var last := |chunks| - 1;
      assert chunks[last] == cur.View() && was.chunks[last] == cur.View().(size := oldSize);
      Resize(oldSize, was.chunks[last]);
    }

    /**
     All or nothing: on success num new addresses are appended, on failure the arena is as before. The
     output of a failed call is as before exactly when it was empty or the arena had no block.
     */
    method Allocate(size: nat, num: nat, addrs: seq<Addr>, mem: bool) returns (ok: bool, addrs': seq<Addr>)
      requires Valid()
      modifies this, blocks
      ensures Valid() && old(blocks) <= blocks && (forall i | |old(blocks)| <= i < |blocks| :: fresh(blocks[i]))
      ensures var r := Arenas.Allocate(options, old(Value()), size, num, mem);
              && ok == r.ok && Value() == r.state && (ok ==> addrs' == addrs + r.addrs)
      ensures !ok ==> (addrs' == addrs <==> addrs == [] || |old(blocks)| == 0)
    {
      var left, oldSize;
      ghost var was, cut := Value(), [];
      addrs', left, oldSize, cut := CarveLast(size, num, addrs);
      if cur != null && left == 0 {
        AllocateFits(options, was, Value(), size, num, mem, cut);
        return true, addrs';
      }
      if !mem {
        AllocateFails(options, was, Value(), size, num, cut, left);
        if cur != null {
          Undo(oldSize, was);
          addrs' := [];
        }
        return false, addrs';
      }
      AllocateExtends(options, was, Value(), size, num, addrs, cut, left);
      addrs' := AddBlock(size, left, addrs');
      ok := true;
    }

    /** Frees every block's memory once, in list order, and starts over. */
    method Release() returns (freed: seq<nat>)
      requires Valid()
      modifies this
      ensures Valid() && Value() == State([], options.initialBlockSize, old(regions))
      ensures freed == Regions(old(chunks))
    {
      freed := [];
      var p := first;
      ghost var i := 0;
      while p != null
        invariant 0 <= i <= |blocks| && p == At(blocks, i)
        invariant freed == Regions(chunks[..i])
        decreases |blocks| - i
      {
        assert chunks[i] == p.View();
        freed := freed + [p.data];
        p := p.next;
        i := i + 1;
      }
      assert chunks[..i] == chunks;
      numBlocks, blockSize, first, cur, blocks, chunks := 0, options.initialBlockSize, null, null, [], [];
    }
  }
}
