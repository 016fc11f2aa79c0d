/**
 The calls that make and grow a blob: its record, then groups for its new extents, then their routers.
 What is stored after each call, wherever it stops.
 */
module BlobServices {
  import opened KvStores
  import opened ExtentIds
  import Words
  import BlobRecords
  import BlobManagers
  import GroupChoice
  import Groups
  import RgManagers
  import Routers

  /** How a call ends; all but the first two leave a blob without some of its routers. */
  datatype Reply = Done | Refused | NoGroups | NoRouters

  type Records = map<string, Routers.Router>

  predicate RouterStored(records: Records, blob: string, i: nat)
  {
    Routers.KvKey(GenerateExtentId(blob, ToIndex(i))) in records
  }

  ghost predicate AllStored(records: Records, blob: string, lo: nat, hi: nat)
  {
    forall i: nat | lo <= i <= hi :: RouterStored(records, blob, i)
  }

  ghost predicate NoneStored(records: Records, blob: string, lo: nat, hi: nat)
  {
    forall i: nat | lo <= i <= hi :: !RouterStored(records, blob, i)
  }

  /** The stored router of the i-th extent names this group. */
  predicate RouterNames(records: Records, pool: string, blob: string, i: nat, rg: string)
  {
    var extent := GenerateExtentId(blob, ToIndex(i));
    && Routers.KvKey(extent) in records
    && records[Routers.KvKey(extent)] == Routers.Router(extent, pool, rg, blob)
  }

  /** The routers from extent `begin` on name these groups, one each. */
  ghost predicate RoutersName(records: Records, pool: string, blob: string, begin: nat, rgIds: seq<string>)
  {
    forall i: nat | i < |rgIds| :: RouterNames(records, pool, blob, begin + i, rgIds[i])
  }

  function NamesOf(name: int -> string, ids: seq<int>): (names: seq<string>)
    ensures |names| == |ids|
  {
    seq(|ids|, i requires 0 <= i < |ids| => name(ids[i]))
  }

  // ---------- what writing routers leaves ----------

  /** Whether all are written or not, what was stored before stays as it was. */
  lemma WroteKeeps(pool: string, blob: string, begin: nat, rgIds: seq<string>, n: nat, before: Records,
                   records: Records, batches: seq<Batch<string, Routers.Router>>, ok: bool)
    requires n <= 0x1_0000_0000_0000_0000
    requires begin > 0 && NoneStored(before, blob, begin, begin + n - 1)
    requires Routers.Attempted(Routers.RoutersTo(pool, blob, begin, rgIds, n), n, before, records, batches, ok)
    ensures SubMap(before, records)
  {
    var key := Routers.KeyAt(blob, begin);
    Routers.KeysInjective(blob, begin, n);
    MapToHolds(key, Routers.RouterAt(pool, blob, begin, rgIds), n);
    forall k | k in before ensures k !in Written(batches) {
      if k in Written(batches) {
        var i: nat :| i < n && k == key(i);
        KeyOf(before, blob, begin, i);
      }
    }
  }

  lemma WroteNames(pool: string, blob: string, begin: nat, rgIds: seq<string>, before: Records, records: Records,
                   batches: seq<Batch<string, Routers.Router>>)
    requires |rgIds| <= 0x1_0000_0000_0000_0000
    requires Routers.Attempted(Routers.RoutersTo(pool, blob, begin, rgIds, |rgIds|), |rgIds|, before, records, batches,
                               true)
    ensures RoutersName(records, pool, blob, begin, rgIds)
  {
    forall i: nat | i < |rgIds| ensures RouterNames(records, pool, blob, begin + i, rgIds[i]) {
      Routers.RoutersToHolds(pool, blob, begin, rgIds, |rgIds|, i);
    }
  }

  lemma KeyOf(records: Records, blob: string, begin: nat, i: nat)
    ensures Routers.KeyAt(blob, begin)(i) in records <==> RouterStored(records, blob, begin + i)
  {
  }

  lemma StoredFrom(records: Records, blob: string, begin: nat, n: nat)
    requires begin > 0
    ensures AllStored(records, blob, begin, begin + n - 1) <==> AllIn(Routers.KeyAt(blob, begin), n, records)
  {
    var key := Routers.KeyAt(blob, begin);
    forall i: nat ensures key(i) in records <==> RouterStored(records, blob, begin + i) {
      KeyOf(records, blob, begin, i);
    }
    if AllIn(key, n, records) {
      forall i: nat | begin <= i <= begin + n - 1 ensures RouterStored(records, blob, i) {
        assert key(i - begin) in records;
      }
    }
  }

  /** Extents of one blob have different keys. */
  lemma KeyElsewhere(blob: string, begin: nat, n: nat, i: nat, j: nat)
    requires begin + n <= 0x1_0000_0000_0000_0000 && i < begin && j < n
    ensures Routers.KeyAt(blob, begin)(j) != Routers.KvKey(GenerateExtentId(blob, ToIndex(i)))
  {
    Routers.KeysDiffer(blob, 0, i, begin + j);
  }

  lemma WroteIff(pool: string, blob: string, begin: nat, rgIds: seq<string>, n: nat, before: Records,
                 records: Records, batches: seq<Batch<string, Routers.Router>>, ok: bool)
    requires begin > 0 && n <= 0x1_0000_0000_0000_0000 && NoneStored(before, blob, begin, begin + n - 1)
    requires Routers.Attempted(Routers.RoutersTo(pool, blob, begin, rgIds, n), n, before, records, batches, ok)
    ensures AllStored(records, blob, begin, begin + n - 1) <==> ok
  {
    var key := Routers.KeyAt(blob, begin);
    Routers.KeysInjective(blob, begin, n);
    forall i: nat | i < n ensures key(i) !in before {
      KeyOf(before, blob, begin, i);
    }
    StoredIff(key, Routers.RouterAt(pool, blob, begin, rgIds), n, before, records, batches, ok);
    StoredFrom(records, blob, begin, n);
  }

  lemma WroteNoOther(pool: string, blob: string, begin: nat, rgIds: seq<string>, n: nat, before: Records,
                     records: Records, batches: seq<Batch<string, Routers.Router>>, ok: bool, i: nat)
    requires begin + n <= 0x1_0000_0000_0000_0000 && i < begin
    requires Routers.Attempted(Routers.RoutersTo(pool, blob, begin, rgIds, n), n, before, records, batches, ok)
    ensures RouterStored(records, blob, i) <==> RouterStored(before, blob, i)
  {
    var key, k := Routers.KeyAt(blob, begin), Routers.KvKey(GenerateExtentId(blob, ToIndex(i)));
    Routers.KeysInjective(blob, begin, n);
    forall j: nat | j < n ensures key(j) != k {
      KeyElsewhere(blob, begin, n, i, j);
    }
    StoredElsewhere(key, Routers.RouterAt(pool, blob, begin, rgIds), n, before, records, batches, k);
  }

  ghost predicate SameBelow(a: Records, b: Records, blob: string, begin: nat)
  {
    forall i: nat | i < begin :: RouterStored(a, blob, i) <==> RouterStored(b, blob, i)
  }

  /**
   Stores the routers of the extents from `begin` on, none of which is stored yet, one for each group.
   What was stored before stays.
   */
  method WriteRouters(routers: Routers.RouterManager, pool: string, blob: string, begin: nat, rgIds: seq<string>,
                      fails: nat -> bool) returns (ok: bool)
    requires begin > 0 && begin + |rgIds| < 0x7fff_ffff
    requires NoneStored(routers.kv.records, blob, begin, begin + |rgIds| - 1)
    modifies routers.kv
    ensures ok <==> NoneFails(fails, Writes(|rgIds|))
    ensures AllStored(routers.kv.records, blob, begin, begin + |rgIds| - 1) <==> ok
    ensures ok ==> RoutersName(routers.kv.records, pool, blob, begin, rgIds)
    ensures SubMap(old(routers.kv.records), routers.kv.records)
    ensures SameBelow(routers.kv.records, old(routers.kv.records), blob, begin)
  {
    ghost var before, n := routers.kv.records, |rgIds|;
    ghost var batches;
    ok, batches := CallCreateRouter(routers, pool, blob, begin, rgIds, fails);
    WroteIff(pool, blob, begin, rgIds, n, before, routers.kv.records, batches, ok);
    WroteKeeps(pool, blob, begin, rgIds, n, before, routers.kv.records, batches, ok);
    if ok {
      WroteNames(pool, blob, begin, rgIds, before, routers.kv.records, batches);
    }
    forall i: nat | i < begin
      ensures RouterStored(routers.kv.records, blob, i) <==> RouterStored(before, blob, i)
    {
      WroteNoOther(pool, blob, begin, rgIds, n, before, routers.kv.records, batches, ok, i);
    }
  }

  method CallCreateRouter(routers: Routers.RouterManager, pool: string, blob: string, begin: nat, rgIds: seq<string>,
                          fails: nat -> bool)
    returns (ok: bool, ghost batches: seq<Batch<string, Routers.Router>>)
    requires begin > 0 && begin + |rgIds| < 0x7fff_ffff
    modifies routers.kv
    ensures Routers.Attempted(Routers.RoutersTo(pool, blob, begin, rgIds, |rgIds|), |rgIds|, old(routers.kv.records),
                              routers.kv.records, batches, ok)
    ensures ok <==> NoneFails(fails, Writes(|rgIds|))
  {
    var end := begin + |rgIds| - 1;
    ok, batches := routers.CreateRouter(pool, blob, begin, end, rgIds, fails);
    assert (if begin <= end then end - begin + 1 else 0) == |rgIds|;
  }

  // ---------- the calls ----------

  /** Groups for n extents, by the names they have in the store; `persists` says whether their counts can be stored. */
  method AllocateGroups(rgs: RgManagers.RgManager, name: int -> string, n: nat, u: RgManagers.Usage, persists: bool)
    returns (rgIds: seq<string>, ok: bool)
    requires RgManagers.Ready(rgs.esRgs, rgs.esHeap, rgs.servers) && rgs.Reports(u)
    modifies rgs`counts, rgs`esRgs, rgs`esHeap
    ensures RgManagers.Ready(rgs.esRgs, rgs.esHeap, rgs.servers)
    ensures var b := Groups.AllocateMany(old(rgs.Value()), n, RgManagers.FullOf(rgs.servers, u));
            && rgs.Value() == b.st && (ok <==> b.ok && persists)
            && (ok ==> |b.ids| == n && rgIds == NamesOf(name, b.ids))
  {
    var ids;
    ghost var st := rgs.Value();
    ids, ok := rgs.AllocateRgs(n, u);
    GroupChoice.OneIdEach(st, n, Groups.Allocator(RgManagers.FullOf(rgs.servers, u)));
    rgIds := NamesOf(name, ids);
    ok := ok && persists;
  }

  /** The record of a new blob. */
  method StoreBlob(blobs: BlobManagers.BlobManager, pool: string, id: string, title: string, size: nat, user: string,
                   time: string, fails: bool) returns (ok: bool)
    requires blobs.extentSize > 0
    modifies blobs, blobs.kv
    ensures ok == !fails && (!ok ==> blobs.State() == old(blobs.State()))
    ensures ok ==>
              var b := BlobRecords.Blob(id, title, size, false, pool, user, time);
              blobs.State() == BlobRecords.Shelf(old(blobs.blobs)[id := b],
                                                 old(blobs.kv.records)[BlobManagers.KvKey(pool, id) := b])
  {
    var status := blobs.CreateBlob(id, title, size, pool, user, time, fails);
    ok := status == BlobRecords.Ok;
  }

  /**
   What allocating groups for n extents from `begin` on and storing their routers comes to: the groups are
   those the allocation gives, and when it is done each router names the group allocated for its extent.
   */
  ghost predicate Provided(st: Groups.State, st': Groups.State, full: int -> bool, name: int -> string, persists: bool,
                           fails: nat -> bool, before: Records, records: Records, pool: string, blob: string,
                           begin: nat, n: nat, reply: Reply)
  {
    var b := Groups.AllocateMany(st, n, full);
    && st' == b.st && SubMap(before, records)
    && reply == (if !(b.ok && persists) then NoGroups else if NoneFails(fails, Writes(n)) then Done else NoRouters)
    && (reply == Done ==> |b.ids| == n && RoutersName(records, pool, blob, begin, NamesOf(name, b.ids)))
  }

  /** Groups for n extents from `begin` on, and their routers, none of which is stored yet. */
  method Provide(rgs: RgManagers.RgManager, routers: Routers.RouterManager, name: int -> string, pool: string,
                 blob: string, begin: nat, n: nat, u: RgManagers.Usage, persists: bool, fails: nat -> bool)
    returns (reply: Reply)
    requires begin > 0 && begin + n < 0x7fff_ffff && NoneStored(routers.kv.records, blob, begin, begin + n - 1)
    requires RgManagers.Ready(rgs.esRgs, rgs.esHeap, rgs.servers) && rgs.Reports(u)
    modifies rgs`counts, rgs`esRgs, rgs`esHeap, routers.kv
    ensures reply != Refused
    ensures n > 0 ==> (AllStored(routers.kv.records, blob, begin, begin + n - 1) <==> reply == Done)
    ensures Provided(old(rgs.Value()), rgs.Value(), RgManagers.FullOf(rgs.servers, u), name, persists, fails,
                     old(routers.kv.records), routers.kv.records, pool, blob, begin, n, reply)
    ensures SameBelow(routers.kv.records, old(routers.kv.records), blob, begin)
  {
    LacksFirst(routers.kv.records, blob, begin, n);
    var rgIds, ok := AllocateGroups(rgs, name, n, u, persists);
    if !ok {
      return NoGroups;
    }
    ok := WriteRouters(routers, pool, blob, begin, rgIds, fails);
    reply := if ok then Done else NoRouters;
  }

  lemma LacksFirst(records: Records, blob: string, begin: nat, n: nat)
    requires begin > 0 && NoneStored(records, blob, begin, begin + n - 1)
    ensures n > 0 ==> !AllStored(records, blob, begin, begin + n - 1)
  {
    if n > 0 {
      assert !RouterStored(records, blob, begin);
    }
  }

  /**
   A new blob has all its routers exactly when the call is done; it is stored as asked for unless the
   call is refused. When the call is done, each extent's router names the group allocated for it.
   */
  method CreateBlob(blobs: BlobManagers.BlobManager, rgs: RgManagers.RgManager, routers: Routers.RouterManager,
                    name: int -> string, pool: string, id: string, title: string, size: nat, user: string,
                    time: string, u: RgManagers.Usage, recordFails: bool, persists: bool, fails: nat -> bool)
    returns (reply: Reply)
    requires blobs.extentSize > 0 && size / blobs.extentSize < 0x7fff_fffe
    requires RgManagers.Ready(rgs.esRgs, rgs.esHeap, rgs.servers) && rgs.Reports(u)
    requires NoneStored(routers.kv.records, id, 1, size / blobs.extentSize)
    modifies blobs, blobs.kv, rgs`counts, rgs`esRgs, rgs`esHeap, routers.kv
    ensures reply == Refused <==> recordFails
    ensures reply == Refused ==>
              && blobs.State() == old(blobs.State()) && routers.kv.records == old(routers.kv.records)
              && rgs.Value() == old(rgs.Value())
    ensures reply != Refused ==>
              var b := BlobRecords.Blob(id, title, size, false, pool, user, time);
              && blobs.State() == BlobRecords.Shelf(old(blobs.blobs)[id := b],
                                                    old(blobs.kv.records)[BlobManagers.KvKey(pool, id) := b])
              && Provided(old(rgs.Value()), rgs.Value(), RgManagers.FullOf(rgs.servers, u), name, persists, fails,
                          old(routers.kv.records), routers.kv.records, pool, id, 1, size / blobs.extentSize, reply)
    ensures size / blobs.extentSize > 0 ==>
              (AllStored(routers.kv.records, id, 1, size / blobs.extentSize) <==> reply == Done)
  {
    var n := size / blobs.extentSize;
    LacksFirst(routers.kv.records, id, 1, n);
    var ok := StoreBlob(blobs, pool, id, title, size, user, time, recordFails);
    if !ok {
      return Refused;
    }
    reply := Provide(rgs, routers, name, pool, id, 1, n, u, persists, fails);
  }

  lemma WholeExtents(a: nat, b: nat, e: nat)
    requires e > 0 && a % e == 0 && b % e == 0 && a < b
    ensures (b - a) / e == b / e - a / e && a / e < b / e
  {
    var d := b / e - a / e;
    assert b - a == e * d by {
      assert a == e * (a / e) && b == e * (b / e);
      assert e * (b / e) - e * (a / e) == e * d;
    }
    Words.DivModUnique(b - a, e, d, 0);
    Words.MulMagnitude(e, d);
  }

  function Resizing(user: string, newSize: nat, time: string): BlobRecords.Op
  {
    BlobRecords.Resize(user, newSize, time)
  }

  function Resized(b: BlobRecords.Blob, size: nat, time: string): BlobRecords.Blob
  {
    b.(size := size, updated := time)
  }

  /** The record of a blob that grows. */
  method GrowBlob(blobs: BlobManagers.BlobManager, ghost pool: string, user: string, id: string, newSize: nat,
                  time: string, fails: bool) returns (ok: bool, oldSize: nat)
    requires blobs.extentSize > 0
    modifies blobs, blobs.kv
    ensures ok <==> !fails && BlobRecords.Granted(blobs.extentSize, old(blobs.blobs), id, Resizing(user, newSize, time))
    ensures !ok ==> blobs.State() == old(blobs.State())
    ensures ok ==> && oldSize == old(blobs.blobs)[id].size
                   && blobs.blobs == old(blobs.blobs)[id := Resized(old(blobs.blobs)[id], newSize, time)]
  {
    var status;
    status, oldSize := blobs.ResizeBlob(pool, user, id, newSize, time, fails);
    ok := status == BlobRecords.Ok;
  }

  lemma StoredBoth(records: Records, before: Records, blob: string, mid: nat, hi: nat, ok: bool)
    requires mid <= hi && SameBelow(records, before, blob, mid + 1)
    requires AllStored(records, blob, mid + 1, hi) <==> ok
    ensures AllStored(records, blob, 1, hi) <==> AllStored(before, blob, 1, mid) && ok
  {
    if AllStored(records, blob, 1, hi) {
      forall i: nat | 1 <= i <= mid ensures RouterStored(before, blob, i) {
        assert RouterStored(records, blob, i);
      }
    }
    if AllStored(before, blob, 1, mid) && ok {
      forall i: nat | 1 <= i <= hi ensures RouterStored(records, blob, i) {
        if i <= mid {
          assert RouterStored(before, blob, i);
        }
      }
    }
  }

  /**
   A blob that has grown has all its routers exactly when it had them before and the call is done; then
   each new extent's router names the group allocated for it.
   */
  method ResizeBlob(blobs: BlobManagers.BlobManager, rgs: RgManagers.RgManager, routers: Routers.RouterManager,
                    name: int -> string, pool: string, user: string, id: string, newSize: nat, time: string,
                    u: RgManagers.Usage, recordFails: bool, persists: bool, fails: nat -> bool)
    returns (reply: Reply, ghost oldSize: nat)
    requires blobs.extentSize > 0 && newSize / blobs.extentSize < 0x7fff_fffe
    requires RgManagers.Ready(rgs.esRgs, rgs.esHeap, rgs.servers) && rgs.Reports(u)
    requires id in blobs.blobs ==>
               && blobs.blobs[id].size % blobs.extentSize == 0
               && NoneStored(routers.kv.records, id, blobs.blobs[id].size / blobs.extentSize + 1,
                             newSize / blobs.extentSize)
    modifies blobs, blobs.kv, rgs`counts, rgs`esRgs, rgs`esHeap, routers.kv
    ensures reply != Refused <==>
            !recordFails && BlobRecords.Granted(blobs.extentSize, old(blobs.blobs), id, Resizing(user, newSize, time))
    ensures reply == Refused ==>
              && blobs.State() == old(blobs.State()) && routers.kv.records == old(routers.kv.records)
              && rgs.Value() == old(rgs.Value())
    ensures reply != Refused ==>
              && oldSize == old(blobs.blobs)[id].size
              && blobs.blobs == old(blobs.blobs)[id := Resized(old(blobs.blobs)[id], newSize, time)]
              && (AllStored(routers.kv.records, id, 1, newSize / blobs.extentSize)
                  <==> AllStored(old(routers.kv.records), id, 1, oldSize / blobs.extentSize) && reply == Done)
    ensures reply != Refused ==>
              var mid, hi := oldSize / blobs.extentSize, newSize / blobs.extentSize;
              && mid < hi
              && Provided(old(rgs.Value()), rgs.Value(), RgManagers.FullOf(rgs.servers, u), name, persists, fails,
                          old(routers.kv.records), routers.kv.records, pool, id, mid + 1, hi - mid, reply)
  {
    var ok, was := GrowBlob(blobs, pool, user, id, newSize, time, recordFails);
    oldSize := was;
    if !ok {
      return Refused, oldSize;
    }
    var mid, hi := was / blobs.extentSize, newSize / blobs.extentSize;
    WholeExtents(was, newSize, blobs.extentSize);
    ghost var before := routers.kv.records;
    reply := Provide(rgs, routers, name, pool, id, mid + 1, (newSize - was) / blobs.extentSize, u, persists, fails);
    StoredBoth(routers.kv.records, before, id, mid, hi, reply == Done);
  }
}
