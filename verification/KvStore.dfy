/**
 The key-value store as a map of records, and writing many records in batches.
 */
module KvStores {
  import opened Common

  const BATCH: nat := 100

  type Batch<K, V> = seq<(K, V)>

  function AsMap<K, V>(b: Batch<K, V>): map<K, V>
  {
    if b == [] then map[] else AsMap(b[..|b| - 1])[b[|b| - 1].0 := b[|b| - 1].1]
  }

  function Total<K, V>(bs: seq<Batch<K, V>>): nat
  {
    if bs == [] then 0 else Total(bs[..|bs| - 1]) + |bs[|bs| - 1]|
  }

  /** What a series of batches writes. */
  function Written<K, V>(bs: seq<Batch<K, V>>): map<K, V>
  {
    if bs == [] then map[] else Written(bs[..|bs| - 1]) + AsMap(bs[|bs| - 1])
  }

  lemma AddBatch<K, V>(bs: seq<Batch<K, V>>, b: Batch<K, V>)
    ensures Total(bs + [b]) == Total(bs) + |b| && Written(bs + [b]) == Written(bs) + AsMap(b)
  {
  }

  lemma AddPair<K, V>(b: Batch<K, V>, k: K, v: V)
    ensures AsMap(b + [(k, v)]) == AsMap(b)[k := v]
  {
  }

  predicate Full<K, V>(bs: seq<Batch<K, V>>)
  {
    forall i | 0 <= i < |bs| :: |bs[i]| == BATCH
  }

  /** All batches are full, except that the last one may be shorter. */
  predicate Chunked<K, V>(bs: seq<Batch<K, V>>)
  {
    bs == [] || (Full(bs[..|bs| - 1]) && 0 < |bs[|bs| - 1]| <= BATCH)
  }

  lemma ChunkedStep<K, V>(bs: seq<Batch<K, V>>, b: Batch<K, V>)
    requires Full(bs) && 0 < |b| <= BATCH
    ensures Chunked(bs + [b]) && (|b| == BATCH ==> Full(bs + [b]))
  {
  }

  /** Every record of a is one of m. */
  predicate SubMap<K, V(==)>(a: map<K, V>, m: map<K, V>)
  {
    forall k | k in a :: k in m && a[k] == m[k]
  }

  /** The loop over m has written `done`, holds `batch`, and still has the keys `todo`. */
  predicate Progress<K, V(==)>(m: map<K, V>, done: map<K, V>, batch: map<K, V>, todo: set<K>)
  {
    && done.Keys + batch.Keys + todo == m.Keys
    && done.Keys !! batch.Keys && (done.Keys + batch.Keys) !! todo
    && SubMap(done, m) && SubMap(batch, m)
  }

  lemma Grown<K, V>(a: map<K, V>, k: K, v: V)
    requires k !in a
    ensures a[k := v].Keys == a.Keys + {k} && |a[k := v]| == |a| + 1
  {
  }

  lemma MoveOne<K>(all: set<K>, done: set<K>, batch: set<K>, todo: set<K>, k: K)
    requires done + batch + todo == all && done !! batch && (done + batch) !! todo && k in todo
    ensures done + (batch + {k}) + (todo - {k}) == all && done !! (batch + {k})
    ensures (done + (batch + {k})) !! (todo - {k})
  {
  }

  lemma ProgressTake<K, V>(m: map<K, V>, done: map<K, V>, batch: map<K, V>, todo: set<K>, k: K)
    requires Progress(m, done, batch, todo) && k in todo
    ensures Progress(m, done, batch[k := m[k]], todo - {k}) && |batch[k := m[k]]| == |batch| + 1
  {
    Grown(batch, k, m[k]);
    MoveOne(m.Keys, done.Keys, batch.Keys, todo, k);
  }

  lemma ProgressFlush<K, V>(m: map<K, V>, done: map<K, V>, batch: map<K, V>, todo: set<K>)
    requires Progress(m, done, batch, todo)
    ensures Progress(m, done + batch, map[], todo) && |done + batch| == |done| + |batch|
  {
    assert (done + batch).Keys == done.Keys + batch.Keys;
  }

  lemma ProgressDone<K, V>(m: map<K, V>, done: map<K, V>)
    requires Progress(m, done, map[], {})
    ensures done == m
  {
  }

  lemma MapSumAssociates<K, V>(a: map<K, V>, b: map<K, V>, c: map<K, V>)
    ensures (a + b) + c == a + (b + c)
  {
  }

  /** The batches bs of m are in the store, which was `before`; kvs is the batch being filled. */
  predicate Batching<K, V(==)>(m: map<K, V>, before: map<K, V>, records: map<K, V>, bs: seq<Batch<K, V>>,
                               kvs: Batch<K, V>, todo: set<K>)
  {
    && Progress(m, Written(bs), AsMap(kvs), todo) && records == before + Written(bs)
    && Full(bs) && |AsMap(kvs)| == |kvs| <= BATCH && Total(bs) == |Written(bs)|
  }

  lemma BatchingStarts<K, V>(m: map<K, V>, records: map<K, V>)
    ensures Batching(m, records, records, [], [], m.Keys)
  {
    var none: map<K, V> := map[];
    assert none.Keys == {};
    assert Progress(m, none, none, m.Keys);
    assert records + none == records;
  }

  lemma BatchingTakes<K, V>(m: map<K, V>, before: map<K, V>, records: map<K, V>, bs: seq<Batch<K, V>>,
                            kvs: Batch<K, V>, todo: set<K>, k: K)
    requires Batching(m, before, records, bs, kvs, todo) && k in todo && |kvs| < BATCH
    ensures k in m && Batching(m, before, records, bs, kvs + [(k, m[k])], todo - {k})
  {
    ProgressTake(m, Written(bs), AsMap(kvs), todo, k);
    AddPair(kvs, k, m[k]);
  }

  /** What has been written of m, whether it is all of it or not. */
  predicate Partly<K, V(==)>(m: map<K, V>, before: map<K, V>, records: map<K, V>, bs: seq<Batch<K, V>>)
  {
    records == before + Written(bs) && Chunked(bs) && Total(bs) == |Written(bs)| && SubMap(Written(bs), m)
  }

  lemma BatchingPartly<K, V>(m: map<K, V>, before: map<K, V>, records: map<K, V>, bs: seq<Batch<K, V>>,
                             kvs: Batch<K, V>, todo: set<K>)
    requires Batching(m, before, records, bs, kvs, todo)
    ensures Partly(m, before, records, bs)
    ensures kvs == [] && todo == {} ==> Written(bs) == m
  {
    if kvs == [] && todo == {} {
      ProgressDone(m, Written(bs));
    }
  }

  /** While a batch is waiting, not everything is written. */
  lemma BatchingLacks<K, V>(m: map<K, V>, before: map<K, V>, records: map<K, V>, bs: seq<Batch<K, V>>,
                            kvs: Batch<K, V>, todo: set<K>)
    requires Batching(m, before, records, bs, kvs, todo) && kvs != []
    ensures Total(bs) < |m|
  {
    assert Written(bs).Keys + AsMap(kvs).Keys <= m.Keys;
    SmallerSet(Written(bs).Keys + AsMap(kvs).Keys, m.Keys);
  }

  lemma BatchingFlushes<K, V>(m: map<K, V>, before: map<K, V>, records: map<K, V>, bs: seq<Batch<K, V>>,
                              kvs: Batch<K, V>, todo: set<K>)
    requires Batching(m, before, records, bs, kvs, todo) && kvs != []
    ensures Partly(m, before, records + AsMap(kvs), bs + [kvs])
    ensures |kvs| == BATCH ==> Batching(m, before, records + AsMap(kvs), bs + [kvs], [], todo)
    ensures todo == {} ==> Written(bs + [kvs]) == m
  {
    ProgressFlush(m, Written(bs), AsMap(kvs), todo);
    AddBatch(bs, kvs);
    ChunkedStep(bs, kvs);
    MapSumAssociates(before, Written(bs), AsMap(kvs));
    if todo == {} {
      ProgressDone(m, Written(bs + [kvs]));
    }
  }

  /** After an attempt to write the batch that has been filled. */
  lemma BatchTried<K, V>(m: map<K, V>, before: map<K, V>, was: map<K, V>, bs: seq<Batch<K, V>>, kvs: Batch<K, V>,
                         todo: set<K>, ok: bool, records: map<K, V>, bs': seq<Batch<K, V>>)
    requires Batching(m, before, was, bs, kvs, todo) && kvs != []
    requires records == (if ok then was + AsMap(kvs) else was) && bs' == if ok then bs + [kvs] else bs
    ensures Partly(m, before, records, bs')
    ensures ok && |kvs| == BATCH ==> Batching(m, before, records, bs', [], todo)
    ensures ok && todo == {} ==> Written(bs') == m
    ensures !ok ==> Total(bs') < |m|
  {
    if ok {
      BatchingFlushes(m, before, was, bs, kvs, todo);
    } else {
      BatchingPartly(m, before, was, bs, kvs, todo);
      BatchingLacks(m, before, was, bs, kvs, todo);
    }
  }

  /** None of the first n writes fails. */
  predicate NoneFails(fails: nat -> bool, n: nat)
  {
    n == 0 || (NoneFails(fails, n - 1) && !fails(n - 1))
  }

  lemma {:induction false} NoneFailsAt(fails: nat -> bool, n: nat, k: nat)
    requires NoneFails(fails, n) && k < n
    ensures !fails(k)
  {
    if k < n - 1 {
      NoneFailsAt(fails, n - 1, k);
    }
  }

  /** How many writes n records take. */
  function Writes(n: nat): nat
  {
    (n + BATCH - 1) / BATCH
  }

  lemma {:induction false} FullTotal<K, V>(bs: seq<Batch<K, V>>)
    requires Full(bs)
    ensures Total(bs) == BATCH * |bs|
  {
    if bs != [] {
      FullTotal(bs[..|bs| - 1]);
    }
  }

  lemma ChunkedTotal<K, V>(bs: seq<Batch<K, V>>)
    requires Chunked(bs)
    ensures |bs| == Writes(Total(bs))
  {
    if bs != [] {
      FullTotal(bs[..|bs| - 1]);
    }
  }

  /** Everything is written exactly when none of the writes that takes fails. */
  lemma WrittenIff<K, V>(fails: nat -> bool, n: nat, bs: seq<Batch<K, V>>, ok: bool)
    requires Chunked(bs) && NoneFails(fails, |bs|)
    requires if ok then Total(bs) == n else Full(bs) && Total(bs) < n && fails(|bs|)
    ensures ok <==> NoneFails(fails, Writes(n))
  {
    ChunkedTotal(bs);
    if !ok {
      FullTotal(bs);
      if NoneFails(fails, Writes(n)) {
        NoneFailsAt(fails, Writes(n), |bs|);
      }
    }
  }

  class KvStore<K(==), V(==)> {
    var records: map<K, V>

    constructor ()
      ensures records == map[]
    {
      records := map[];
    }

    /** Stores the batch in one write, which may fail without effect. */
    method MultiPut(kvs: Batch<K, V>, fails: bool) returns (ok: bool)
      modifies this
      ensures ok == !fails
      ensures records == if ok then old(records) + AsMap(kvs) else old(records)
    {
      ok := !fails;
      if ok {
        records := records + AsMap(kvs);
      }
    }

    /** Writes the j-th batch and notes it. */
    method WriteBatch(batches: seq<Batch<K, V>>, kvs: Batch<K, V>, fails: nat -> bool)
      returns (ok: bool, batches': seq<Batch<K, V>>)
      requires NoneFails(fails, |batches|)
      modifies this
      ensures ok == !fails(|batches|) && NoneFails(fails, |batches'|)
      ensures batches' == (if ok then batches + [kvs] else batches)
      ensures records == if ok then old(records) + AsMap(kvs) else old(records)
    {
      ok := MultiPut(kvs, fails(|batches|));
      batches' := if ok then batches + [kvs] else batches;
    }

    /**
     Writes the records m, a batch whenever one is full and one for what is left, up to the first write
     that fails. fails(j) says whether the j-th write fails.
     */
    method PutAll(m: map<K, V>, fails: nat -> bool) returns (ok: bool, batches: seq<Batch<K, V>>)
      modifies this
      ensures Partly(m, old(records), records, batches)
      ensures if ok then Written(batches) == m else Total(batches) < |m|
      ensures NoneFails(fails, |batches|) && (!ok ==> Full(batches) && fails(|batches|))
    {
      ok, batches := true, [];
      var kvs: Batch<K, V> := [];
      var todo := m.Keys;
      BatchingStarts(m, records);
      while todo != {}
        invariant ok && Batching(m, old(records), records, batches, kvs, todo) && |kvs| < BATCH
        invariant NoneFails(fails, |batches|)
        decreases |todo|
      {
        var k :| k in todo;
        BatchingTakes(m, old(records), records, batches, kvs, todo, k);
        kvs, todo := kvs + [(k, m[k])], todo - {k};
        if |kvs| == BATCH {
          ghost var was, bs := records, batches;
          ok, batches := WriteBatch(batches, kvs, fails);
          BatchTried(m, old(records), was, bs, kvs, todo, ok, records, batches);
          if !ok {
            return;
          }
          kvs := [];
        }
      }
      BatchingPartly(m, old(records), records, batches, kvs, todo);
      if kvs != [] {
        ghost var was, bs := records, batches;
        ok, batches := WriteBatch(batches, kvs, fails);
        BatchTried(m, old(records), was, bs, kvs, todo, ok, records, batches);
      }
    }
  }

  // ---------- maps built entry by entry ----------

  function MapTo<K, V>(key: nat -> K, value: nat -> V, n: nat): map<K, V>
  {
    if n == 0 then map[] else MapTo(key, value, n - 1)[key(n - 1) := value(n - 1)]
  }

  ghost predicate InjectiveTo<K(!new)>(key: nat -> K, n: nat)
  {
    forall i: nat, j: nat | i < j < n :: key(i) != key(j)
  }

  /** With distinct keys the map has n entries, the i-th key with the i-th value, and no others. */
  lemma {:induction false} MapToHolds<K(!new), V>(key: nat -> K, value: nat -> V, n: nat)
    requires InjectiveTo(key, n)
    ensures var m := MapTo(key, value, n);
            && |m| == n
            && (forall i: nat | i < n :: key(i) in m && m[key(i)] == value(i))
            && (forall k | k in m :: exists i: nat :: i < n && k == key(i))
  {
    if n > 0 {
      MapToHolds(key, value, n - 1);
      var m := MapTo(key, value, n - 1);
      assert key(n - 1) !in m;
      Grown(m, key(n - 1), value(n - 1));
    }
  }

  lemma SomeLeft<K>(a: set<K>, b: set<K>) returns (k: K)
    requires |a| < |b|
    ensures k in b && k !in a
  {
    if b <= a {
      SmallerSet(b, a);
    }
    k :| k in b && k !in a;
  }

  ghost predicate AllIn<K, V>(key: nat -> K, n: nat, records: map<K, V>)
  {
    forall i: nat | i < n :: key(i) in records
  }

  /** Keys that were not in the store are all there after a series of writes exactly when none of these failed. */
  lemma StoredIff<K(!new), V>(key: nat -> K, value: nat -> V, n: nat, before: map<K, V>, records: map<K, V>,
                              batches: seq<Batch<K, V>>, ok: bool)
    requires InjectiveTo(key, n) && forall i: nat | i < n :: key(i) !in before
    requires Partly(MapTo(key, value, n), before, records, batches)
    requires if ok then Written(batches) == MapTo(key, value, n) else Total(batches) < n
    ensures AllIn(key, n, records) <==> ok
  {
    MapToHolds(key, value, n);
    if !ok {
      var k := SomeLeft(Written(batches).Keys, MapTo(key, value, n).Keys);
      var i: nat :| i < n && k == key(i);
      assert key(i) !in records;
    }
  }

  /** Another key is in the store exactly if it was before. */
  lemma StoredElsewhere<K(!new), V>(key: nat -> K, value: nat -> V, n: nat, before: map<K, V>, records: map<K, V>,
                                    batches: seq<Batch<K, V>>, k: K)
    requires InjectiveTo(key, n) && forall i: nat | i < n :: key(i) != k
    requires Partly(MapTo(key, value, n), before, records, batches)
    ensures k in records <==> k in before
  {
    MapToHolds(key, value, n);
  }
}
