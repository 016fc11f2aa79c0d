/**
 Extent routers: which replication group holds an extent. They are stored under one key per extent, in
 batches, and looked up through the sharded cache.
 */
module Routers {
  import opened ExtentIds
  import opened KvStores
  import opened Common
  import opened Words
  import RouterCache

  datatype Router = Router(extent: string, pool: string, rg: string, blob: string)

  function KvKey(extent: string): string
  {
    "0x03" + "_" + extent
  }

  lemma KvKeyInjective(a: string, b: string)
    requires KvKey(a) == KvKey(b)
    ensures a == b
  {
    assert KvKey(a)[5..] == a && KvKey(b)[5..] == b;
  }

  // ---------- the routers of a blob ----------

  function ExtentAt(blob: string, begin: int, i: nat): string
  {
    GenerateExtentId(blob, ToIndex(begin + i))
  }

  function KeyAt(blob: string, begin: int): nat -> string
  {
    (i: nat) => KvKey(ExtentAt(blob, begin, i))
  }

  /** The router of the i-th extent from `begin` on. */
  function RouterAt(pool: string, blob: string, begin: int, rgIds: seq<string>): nat -> Router
  {
    (i: nat) => Router(ExtentAt(blob, begin, i), pool, if i < |rgIds| then rgIds[i] else "", blob)
  }

  lemma KeysDiffer(blob: string, begin: int, i: nat, j: nat)
    requires i < j < 0x1_0000_0000_0000_0000
    ensures KeyAt(blob, begin)(i) != KeyAt(blob, begin)(j)
  {
    if KeyAt(blob, begin)(i) == KeyAt(blob, begin)(j) {
      KvKeyInjective(ExtentAt(blob, begin, i), ExtentAt(blob, begin, j));
      ExtentIdInjective(blob, ToIndex(begin + i), blob, ToIndex(begin + j));
      ToIndexInjective(begin + i, begin + j);
    }
  }

  lemma KeysInjective(blob: string, begin: int, n: nat)
    requires n <= 0x1_0000_0000_0000_0000
    ensures InjectiveTo(KeyAt(blob, begin), n)
  {
    forall i: nat, j: nat | i < j < n ensures KeyAt(blob, begin)(i) != KeyAt(blob, begin)(j) {
      KeysDiffer(blob, begin, i, j);
    }
  }

  /** The records of the first n extents from `begin` on. */
  function RoutersTo(pool: string, blob: string, begin: int, rgIds: seq<string>, n: nat): map<string, Router>
  {
    MapTo(KeyAt(blob, begin), RouterAt(pool, blob, begin, rgIds), n)
  }

  /** There are exactly n of them: extent begin + i with the group rgIds[i], for every i below n. */
  lemma RoutersToHolds(pool: string, blob: string, begin: int, rgIds: seq<string>, n: nat, i: nat)
    requires n <= 0x1_0000_0000_0000_0000 && n <= |rgIds|
    ensures var m := RoutersTo(pool, blob, begin, rgIds, n);
            var id := GenerateExtentId(blob, ToIndex(begin + i));
            |m| == n && (i < n ==> KvKey(id) in m && m[KvKey(id)] == Router(id, pool, rgIds[i], blob))
  {
    KeysInjective(blob, begin, n);
    var key, value := KeyAt(blob, begin), RouterAt(pool, blob, begin, rgIds);
    MapToHolds(key, value, n);
    if i < n {
      EntryAt(pool, blob, begin, rgIds, i);
      assert key(i) in MapTo(key, value, n);
    }
  }

  lemma EntryAt(pool: string, blob: string, begin: int, rgIds: seq<string>, i: nat)
    requires i < |rgIds|
    ensures var id := GenerateExtentId(blob, ToIndex(begin + i));
            && KeyAt(blob, begin)(i) == KvKey(id)
            && RouterAt(pool, blob, begin, rgIds)(i) == Router(id, pool, rgIds[i], blob)
  {
  }

  lemma RoutersToStep(pool: string, blob: string, begin: int, rgIds: seq<string>, n: nat)
    requires n < |rgIds|
    ensures var id := GenerateExtentId(blob, ToIndex(begin + n));
            RoutersTo(pool, blob, begin, rgIds, n + 1)
            == RoutersTo(pool, blob, begin, rgIds, n)[KvKey(id) := Router(id, pool, rgIds[n], blob)]
  {
  }

  /** The loop over the extents. */
  method CollectRouters(pool: string, blob: string, begin: int, end: int, rgIds: seq<string>)
    returns (m: map<string, Router>)
    requires end - begin + 1 <= |rgIds|
    ensures m == RoutersTo(pool, blob, begin, rgIds, if begin <= end then end - begin + 1 else 0)
  {
    m := map[];
    var i, index := begin, 0;
    while i <= end
      invariant i == begin + index && (begin <= end ==> index <= end - begin + 1) && (end < begin ==> index == 0)
      invariant m == RoutersTo(pool, blob, begin, rgIds, index)
    {
      RoutersToStep(pool, blob, begin, rgIds, index);
      var id := GenerateExtentId(blob, ToIndex(i));
      m := m[KvKey(id) := Router(id, pool, rgIds[index], blob)];
      i, index := i + 1, index + 1;
    }
  }

  // ---------- the manager ----------

  datatype Answer = Found(pool: string, rg: string) | NotFound | LoadError

  /** What a lookup in the store alone answers. */
  function StoreAnswer(store: map<string, Router>, id: string): Answer
  {
    if KvKey(id) in store then Found(store[KvKey(id)].pool, store[KvKey(id)].rg) else NotFound
  }

  /** A series of writes that was to store the n routers of m: all of them are stored, or only some. */
  ghost predicate Attempted(m: map<string, Router>, n: nat, before: map<string, Router>, records: map<string, Router>,
                            batches: seq<Batch<string, Router>>, ok: bool)
  {
    Partly(m, before, records, batches) && if ok then Written(batches) == m else Total(batches) < n
  }

  class RouterManager {
    const kv: KvStore<string, Router>
    const hash: string -> nat
    const count: nat
    var shards: map<nat, map<string, Router>>

    ghost predicate Valid()
      reads this
    {
      RouterCache.Placed(hash, count, shards)
    }

    /** Every cached router is the stored one. */
    ghost predicate Coherent()
      reads this, kv
    {
      Mirrors(shards, kv.records)
    }

    constructor (kv: KvStore<string, Router>, hash: string -> nat, shift: nat)
      ensures Valid() && Coherent() && this.kv == kv && this.hash == hash && count == Pow2(shift)
    {
      this.kv, this.hash, count := kv, hash, Pow2(shift);
      shards := RouterCache.Empty(Pow2(shift));
    }

    /**
     Stores the routers of the extents begin..end. On success exactly these are written, each key in
     one batch only; on failure some of them are. fails(j) says whether the j-th write fails, and the
     call fails exactly at the first write that does.
     */
    method CreateRouter(pool: string, blob: string, begin: int, end: int, rgIds: seq<string>, fails: nat -> bool)
      returns (ok: bool, batches: seq<Batch<string, Router>>)
      requires -0x8000_0000 <= begin < 0x8000_0000 && -0x8000_0000 <= end < 0x7fff_ffff && end - begin + 1 <= |rgIds|
      modifies kv
      ensures var n := if begin <= end then end - begin + 1 else 0;
              var m := RoutersTo(pool, blob, begin, rgIds, n);
              && Attempted(m, n, old(kv.records), kv.records, batches, ok) && (ok ==> Total(batches) == |m| == n)
              && NoneFails(fails, |batches|) && (!ok ==> fails(|batches|)) && (ok <==> NoneFails(fails, Writes(n)))
              && (old(Coherent()) && m.Keys !! old(kv.records).Keys ==> Coherent())
    {
      var m := CollectRouters(pool, blob, begin, end, rgIds);
      RoutersToHolds(pool, blob, begin, rgIds, if begin <= end then end - begin + 1 else 0, 0);
      ok, batches := kv.PutAll(m, fails);
      WrittenIff(fails, |m|, batches, ok);
      if old(Coherent()) && m.Keys !! old(kv.records).Keys {
        MirrorsMore(shards, old(kv.records), Written(batches), m);
      }
    }

    method LookInCache(id: string) returns (r: Option<Router>)
      requires Valid()
      ensures r == RouterCache.Lookup(hash, count, shards, id)
    {
      var remain := hash(id) % count;
      if id in shards[remain] {
        return Some(shards[remain][id]);
      }
      r := None;
    }

    method PutInCache(id: string, r: Router)
      requires Valid()
      modifies this
      ensures Valid() && shards == RouterCache.Insert(hash, count, old(shards), id, r)
    {
      RouterCache.InsertPlaces(hash, count, shards, id, r);
      var remain := hash(id) % count;
      if id in shards[remain] {
        return;
      }
      shards := shards[remain := shards[remain][id := r]];
    }

    method DeleteInCache(id: string)
      requires Valid()
      modifies this
      ensures Valid() && shards == RouterCache.Erase(hash, count, old(shards), id)
    {
      RouterCache.ErasePlaces(hash, count, shards, id);
      var remain := hash(id) % count;
      assert id !in shards[remain] ==> shards[remain] - {id} == shards[remain];
      if id !in shards[remain] {
        assert shards[remain := shards[remain]] == shards;
        return;
      }
      shards := shards[remain := shards[remain] - {id}];
    }

    /** Run alone, a query answers as the store does; an unreadable store shows only for ids not cached. */
    method QueryRouter(id: string, readable: bool) returns (a: Answer)
      requires Valid() && Coherent()
      modifies this
      ensures Valid() && Coherent()
      ensures a == if readable || RouterCache.Lookup(hash, count, old(shards), id).Some?
                   then StoreAnswer(kv.records, id)
                   else LoadError
      ensures forall k :: RouterCache.Lookup(hash, count, shards, k)
                          == if k == id && a.Found? then Some(kv.records[KvKey(id)])
                             else RouterCache.Lookup(hash, count, old(shards), k)
    {
      var hit := LookInCache(id);
      if hit.Some? {
        MirrorsAt(hash, count, shards, kv.records, id);
        return Found(hit.value.pool, hit.value.rg);
      }
      if !readable {
        return LoadError;
      }
      if KvKey(id) !in kv.records {
        return NotFound;
      }
      var r := kv.records[KvKey(id)];
      MirrorsInsert(hash, count, shards, kv.records, id);
      RouterCache.InsertPlaces(hash, count, shards, id, r);
      PutInCache(id, r);
      a := Found(r.pool, r.rg);
    }

    /** Run alone, a delete removes the router from the store and from the cache, or does nothing. */
    method DeleteRouter(id: string, fails: bool) returns (ok: bool)
      requires Valid() && Coherent()
      modifies this, kv
      ensures Valid() && Coherent() && ok == !fails
      ensures kv.records == if ok then old(kv.records) - {KvKey(id)} else old(kv.records)
      ensures forall k :: RouterCache.Lookup(hash, count, shards, k)
                          == if k == id && ok then None else RouterCache.Lookup(hash, count, old(shards), k)
    {
      if fails {
        return false;
      }
      MirrorsErase(hash, count, shards, kv.records, id);
      RouterCache.ErasePlaces(hash, count, shards, id);
      kv.records := kv.records - {KvKey(id)};
      DeleteInCache(id);
      ok := true;
    }
  }

  ghost predicate Mirrors(shards: map<nat, map<string, Router>>, store: map<string, Router>)
  {
    forall i, id | i in shards && id in shards[i] :: KvKey(id) in store && store[KvKey(id)] == shards[i][id]
  }

  lemma MirrorsAt(hash: string -> nat, count: nat, shards: map<nat, map<string, Router>>, store: map<string, Router>,
                  id: string)
    requires RouterCache.Placed(hash, count, shards) && Mirrors(shards, store)
    requires RouterCache.Lookup(hash, count, shards, id).Some?
    ensures KvKey(id) in store && store[KvKey(id)] == RouterCache.Lookup(hash, count, shards, id).value
  {
  }

  lemma MirrorsInsert(hash: string -> nat, count: nat, shards: map<nat, map<string, Router>>,
                      store: map<string, Router>, id: string)
    requires RouterCache.Placed(hash, count, shards) && Mirrors(shards, store) && KvKey(id) in store
    ensures Mirrors(RouterCache.Insert(hash, count, shards, id, store[KvKey(id)]), store)
  {
  }

  lemma MirrorsMore(shards: map<nat, map<string, Router>>, store: map<string, Router>, added: map<string, Router>,
                    m: map<string, Router>)
    requires Mirrors(shards, store) && SubMap(added, m) && m.Keys !! store.Keys
    ensures Mirrors(shards, store + added)
  {
  }

  lemma MirrorsErase(hash: string -> nat, count: nat, shards: map<nat, map<string, Router>>,
                     store: map<string, Router>, id: string)
    requires RouterCache.Placed(hash, count, shards) && Mirrors(shards, store)
    ensures Mirrors(RouterCache.Erase(hash, count, shards, id), store - {KvKey(id)})
  {
    var s := RouterCache.Erase(hash, count, shards, id);
    forall i, k | i in s && k in s[i]
      ensures KvKey(k) in store - {KvKey(id)} && (store - {KvKey(id)})[KvKey(k)] == s[i][k]
    {
      assert i in shards && k in shards[i] && k != id;
      if KvKey(k) == KvKey(id) {
        KvKeyInjective(k, id);
      }
    }
  }
}
