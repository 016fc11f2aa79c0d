/**
 The blob manager of a pool: blobs in memory, changed in place, with every change written to the store
 and taken back if the write fails.
 */
module BlobManagers {
  import opened BlobRecords
  import opened KvStores

  function Prefix(pool: string): string
  {
    "0x05" + "_" + pool
  }

  function KvKey(pool: string, id: string): string
  {
    "0x05" + "_" + pool + "_" + id
  }

  function Standard(): Layout
  {
    Layout((p, id) => KvKey(p, id), (p, k) => Prefix(p) <= k)
  }

  /** No pool id is the beginning of another one. */
  ghost predicate PrefixFree(pools: set<string>)
  {
    forall p, q | p in pools && q in pools && p != q :: !(p <= q)
  }

  lemma SameKeySameId(p: string, id: string, id': string)
    requires KvKey(p, id) == KvKey(p, id')
    ensures id == id'
  {
    assert KvKey(p, id)[6 + |p|..] == id && KvKey(p, id')[6 + |p|..] == id';
  }

  lemma UnderMeansPrefix(p: string, q: string, id: string)
    requires Prefix(p) <= KvKey(q, id)
    ensures p <= q || q <= p
  {
    assert KvKey(q, id)[5..] == q + "_" + id && Prefix(p)[5..] == p;
    assert p <= q + "_" + id;
    var m := if |p| < |q| then |p| else |q|;
    assert p[..m] == q[..m];
  }

  lemma UnderIff(p: string, q: string, id: string)
    requires p != q ==> !(p <= q) && !(q <= p)
    ensures Prefix(p) <= KvKey(q, id) <==> p == q
  {
    if Prefix(p) <= KvKey(q, id) {
      UnderMeansPrefix(p, q, id);
    }
    if p == q {
      assert KvKey(q, id) == Prefix(p) + ("_" + id);
    }
  }

  lemma StandardSound(pools: set<string>)
    requires PrefixFree(pools)
    ensures Sound(Standard(), pools)
  {
    forall p, id, id' | p in pools && Standard().key(p, id) == Standard().key(p, id') ensures id == id' {
      SameKeySameId(p, id, id');
    }
    forall p, q, id | p in pools && q in pools ensures Standard().under(p, Standard().key(q, id)) <==> p == q {
      UnderIff(p, q, id);
    }
  }

  /** Pool ids are kept apart by the keys and by the scans exactly when none of them begins another. */
  lemma SoundIff(pools: set<string>)
    ensures Sound(Standard(), pools) <==> PrefixFree(pools)
  {
    if PrefixFree(pools) {
      StandardSound(pools);
    } else {
      var p, q :| p in pools && q in pools && p != q && p <= q;
      assert q == p + q[|p|..];
      assert KvKey(q, "") == Prefix(p) + (q[|p|..] + "_" + "");
      assert Standard().under(p, Standard().key(q, ""));
    }
  }

  /** The ids pools get: a fixed beginning and one letter. */
  function PoolId(letter: char): string
  {
    "pool-" + [letter]
  }

  lemma PoolIdsPrefixFree(letters: set<char>)
    ensures PrefixFree(set c | c in letters :: PoolId(c))
  {
  }

  class BlobManager {
    const kv: KvStore<string, Blob>
    const extentSize: nat
    var blobs: map<string, Blob>

    constructor (kv: KvStore<string, Blob>, extentSize: nat)
      ensures this.kv == kv && this.extentSize == extentSize && blobs == map[]
    {
      this.kv, this.extentSize, blobs := kv, extentSize, map[];
    }

    ghost function State(): Shelf
      reads this, kv
    {
      Shelf(blobs, kv.records)
    }

    /** A write of one record, which may fail without effect. */
    method Put(b: Blob, fails: bool) returns (ok: bool)
      modifies kv
      ensures ok == !fails
      ensures kv.records == if ok then old(kv.records)[KvKey(b.pool, b.id) := b] else old(kv.records)
    {
      ok := !fails;
      if ok {
        kv.records := kv.records[KvKey(b.pool, b.id) := b];
      }
    }

    method CreateBlob(id: string, name: string, size: nat, pool: string, user: string, time: string, fails: bool)
      returns (status: Status)
      requires extentSize > 0
      modifies this, kv
      ensures Outcome(State(), status)
              == Apply(Standard(), extentSize, pool, old(State()), id, Create(name, size, user, time), fails)
    {
      var b := Blob(id, name, size, false, pool, user, time);
      var ok := Put(b, fails);
      if !ok {
        return StoreError;
      }
      blobs := blobs[id := b];
      status := Ok;
    }

    method SoftDeleteBlob(ghost pool: string, user: string, id: string, fails: bool) returns (status: Status)
      requires extentSize > 0
      modifies this, kv
      ensures Outcome(State(), status) == Apply(Standard(), extentSize, pool, old(State()), id, SoftDelete(user), fails)
    {
      if id !in blobs || blobs[id].deleted {
        return NotFound;
      }
      if blobs[id].user != user {
        return NoPermission;
      }
      blobs := blobs[id := blobs[id].(deleted := true)];
      var ok := Put(blobs[id], fails);
      status := if ok then Ok else StoreError;
    }

    method RenameBlob(ghost pool: string, user: string, id: string, name: string, time: string, fails: bool)
      returns (status: Status)
      requires extentSize > 0
      modifies this, kv
      ensures Outcome(State(), status)
              == Apply(Standard(), extentSize, pool, old(State()), id, Rename(user, name, time), fails)
    {
      if id !in blobs || blobs[id].deleted {
        return NotFound;
      }
      if blobs[id].user != user {
        return NoPermission;
      }
      var oldName, oldTime := blobs[id].name, blobs[id].updated;
      ghost var was := blobs;
      blobs := blobs[id := blobs[id].(name := name)];
      blobs := blobs[id := blobs[id].(updated := time)];
      var ok := Put(blobs[id], fails);
      if !ok {
        blobs := blobs[id := blobs[id].(name := oldName)];
        blobs := blobs[id := blobs[id].(updated := oldTime)];
        assert blobs[id] == was[id] && blobs == was;
        return StoreError;
      }
      assert blobs == was[id := blobs[id]];
      status := Ok;
    }

    method ResizeBlob(ghost pool: string, user: string, id: string, newSize: nat, time: string, fails: bool)
      returns (status: Status, oldSize: nat)
      requires extentSize > 0
      modifies this, kv
      ensures Outcome(State(), status)
              == Apply(Standard(), extentSize, pool, old(State()), id, Resize(user, newSize, time), fails)
      ensures status == Ok ==> id in old(blobs) && oldSize == old(blobs)[id].size < newSize
    {
      oldSize := 0;
      if id !in blobs || blobs[id].deleted {
        return NotFound, oldSize;
      }
      if blobs[id].user != user {
        return NoPermission, oldSize;
      }
      var size := blobs[id].size;
      if !BlobSizeValid(extentSize, newSize) || newSize <= size {
        return InvalidArgument, oldSize;
      }
      oldSize := size;
      var oldTime := blobs[id].updated;
      ghost var was := blobs;
      blobs := blobs[id := blobs[id].(size := newSize)];
      blobs := blobs[id := blobs[id].(updated := time)];
      var ok := Put(blobs[id], fails);
      if !ok {
        blobs := blobs[id := blobs[id].(size := size)];
        blobs := blobs[id := blobs[id].(updated := oldTime)];
        assert blobs[id] == was[id] && blobs == was;
        return StoreError, oldSize;
      }
      assert blobs == was[id := blobs[id]];
      status := Ok;
    }

    method DeleteBlob(ghost pool: string, id: string, fails: bool) returns (status: Status)
      requires extentSize > 0
      modifies this, kv
      ensures Outcome(State(), status) == Apply(Standard(), extentSize, pool, old(State()), id, HardDelete, fails)
    {
      if id !in blobs {
        return NotFound;
      }
      if fails {
        return DeleteError;
      }
      kv.records := kv.records - {KvKey(blobs[id].pool, blobs[id].id)};
      blobs := blobs - {id};
      status := Ok;
    }

    /**
     Rebuilds the map from the records whose keys start with the pool's prefix. If some map agreed with
     the store, it is that map that comes back.
     */
    method RecoveryFromStore(pool: string, readable: bool, ghost mem: map<string, Blob>) returns (ok: bool)
      requires blobs == map[]
      modifies this
      ensures ok == readable
      ensures ok && Agrees(Standard(), pool, mem, kv.records) ==> blobs == mem
    {
      if !readable {
        return false;
      }
      var keys := set k | k in kv.records && Prefix(pool) <= k;
      blobs := Collect(kv.records, keys);
      if Agrees(Standard(), pool, mem, kv.records) {
        CollectedIsAgreed(pool, mem, kv.records, keys, blobs);
      }
      ok := true;
    }
  }

  /** The map has the records of these keys, each under its own id, and nothing else. */
  ghost predicate Collected(store: map<string, Blob>, keys: set<string>, m: map<string, Blob>)
    requires keys <= store.Keys
  {
    && (forall k | k in keys :: store[k].id in m)
    && (forall id | id in m :: exists k :: k in keys && store[k].id == id && store[k] == m[id])
  }

  /** The loop over the scanned records. */
  method Collect(store: map<string, Blob>, keys: set<string>) returns (m: map<string, Blob>)
    requires keys <= store.Keys
    ensures Collected(store, keys, m)
  {
    m := map[];
    var todo := keys;
    while todo != {}
      invariant todo <= keys && Collected(store, keys - todo, m)
      decreases |todo|
    {
      var k :| k in todo;
      m := m[store[k].id := store[k]];
      todo := todo - {k};
    }
    assert keys - todo == keys;
  }

  lemma CollectedIsAgreed(pool: string, mem: map<string, Blob>, store: map<string, Blob>, keys: set<string>,
                          m: map<string, Blob>)
    requires Agrees(Standard(), pool, mem, store) && keys <= store.Keys && Collected(store, keys, m)
    requires forall k :: k in keys <==> k in store && Prefix(pool) <= k
    ensures m == mem
  {
    forall id | id in m ensures id in mem && mem[id] == m[id] {
      var k :| k in keys && store[k].id == id && store[k] == m[id];
      AgreedRecord(pool, mem, store, k);
    }
    forall id | id in mem ensures id in m {
      AgreedKey(pool, mem, store, id);
    }
    assert m.Keys == mem.Keys;
  }

  lemma AgreedRecord(pool: string, mem: map<string, Blob>, store: map<string, Blob>, k: string)
    requires Agrees(Standard(), pool, mem, store) && k in store && Prefix(pool) <= k
    ensures store[k].id in mem && mem[store[k].id] == store[k]
  {
  }

  lemma AgreedKey(pool: string, mem: map<string, Blob>, store: map<string, Blob>, id: string)
    requires Agrees(Standard(), pool, mem, store) && id in mem
    ensures KvKey(pool, id) in store && Prefix(pool) <= KvKey(pool, id) && store[KvKey(pool, id)].id == id
  {
  }
}
