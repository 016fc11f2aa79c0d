/**
 Blob records: what each operation does to a pool's map of blobs and to the store, where any write may
 fail without effect, and how the two stay in step over whole runs.
 */
module BlobRecords {

  const MAX_BLOB_SIZE: nat := 32 * 0x100_0000_0000

  datatype Blob = Blob(id: string, name: string, size: nat, deleted: bool, pool: string, user: string, updated: string)

  /** How records are keyed: the key of a pool's blob, and which keys a scan for a pool finds. */
  datatype Layout = Layout(key: (string, string) -> string, under: (string, string) -> bool)

  /** Keys of the given pools do not clash, and a scan for one of them finds just its own. */
  ghost predicate Sound(l: Layout, pools: set<string>)
  {
    && (forall p, id, id' | p in pools && l.key(p, id) == l.key(p, id') :: id == id')
    && (forall p, q, id | p in pools && q in pools :: l.under(p, l.key(q, id)) <==> p == q)
  }

  predicate BlobSizeValid(extentSize: nat, size: nat)
    requires extentSize > 0
  {
    0 < size <= MAX_BLOB_SIZE && size % extentSize == 0
  }

  // ---------- operations ----------

  datatype Op =
    | Create(name: string, size: nat, user: string, time: string)
    | Rename(user: string, name: string, time: string)
    | Resize(user: string, size: nat, time: string)
    | SoftDelete(user: string)
    | HardDelete

  datatype Status = Ok | NotFound | NoPermission | InvalidArgument | StoreError | DeleteError

  /** A pool's blobs in memory and the store. */
  datatype Shelf = Shelf(mem: map<string, Blob>, store: map<string, Blob>)

  datatype Outcome = Outcome(shelf: Shelf, status: Status)

  /** Why an operation on an existing blob is turned down, or Ok. */
  function Check(extentSize: nat, mem: map<string, Blob>, id: string, op: Op): Status
    requires extentSize > 0
  {
    if op.Create? then Ok
    else if id !in mem || (mem[id].deleted && !op.HardDelete?) then NotFound
    else if !op.HardDelete? && mem[id].user != op.user then NoPermission
    else if op.Resize? && (!BlobSizeValid(extentSize, op.size) || op.size <= mem[id].size) then InvalidArgument
    else Ok
  }

  /** The record after the operation. */
  function Updated(pool: string, mem: map<string, Blob>, id: string, op: Op): Blob
    requires !op.Create? ==> id in mem
  {
    match op
    case Create(name, size, user, time) => Blob(id, name, size, false, pool, user, time)
    case Rename(_, name, time) => mem[id].(name := name, updated := time)
    case Resize(_, size, time) => mem[id].(size := size, updated := time)
    case SoftDelete(_) => mem[id].(deleted := true)
    case HardDelete => mem[id]
  }

  /** One operation of a pool's blob manager; `fails` says whether its write to the store fails. */
  function Apply(l: Layout, extentSize: nat, pool: string, s: Shelf, id: string, op: Op, fails: bool): Outcome
    requires extentSize > 0
  {
    var check := Check(extentSize, s.mem, id, op);
    if check != Ok then Outcome(s, check)
    else if op.HardDelete? then
      if fails then Outcome(s, DeleteError)
      else Outcome(Shelf(s.mem - {id}, s.store - {l.key(s.mem[id].pool, s.mem[id].id)}), Ok)
    else
      var b := Updated(pool, s.mem, id, op);
      if !fails then Outcome(Shelf(s.mem[id := b], s.store[l.key(b.pool, b.id) := b]), Ok)
      else Outcome(if op.SoftDelete? then Shelf(s.mem[id := b], s.store) else s, StoreError)
  }

  /** The blob is there for the user: not deleted, and theirs. */
  predicate LiveFor(mem: map<string, Blob>, id: string, user: string)
  {
    id in mem && !mem[id].deleted && mem[id].user == user
  }

  /** What the store's answer apart makes an operation succeed. */
  predicate Granted(extentSize: nat, mem: map<string, Blob>, id: string, op: Op)
    requires extentSize > 0
  {
    match op
    case Create(_, _, _, _) => true
    case Rename(user, _, _) => LiveFor(mem, id, user)
    case Resize(user, size, _) =>
      LiveFor(mem, id, user) && mem[id].size < size <= 35184372088832 && size % extentSize == 0
    case SoftDelete(user) => LiveFor(mem, id, user)
    case HardDelete => id in mem
  }

  /**
   What a caller sees of an operation: it succeeds exactly when it is granted and its write does not fail,
   it touches no other blob or record, a failure leaves everything as it was except for a soft delete,
   and a success changes what was asked for and nothing else of the blob.
   */
  lemma ApplyChanges(l: Layout, extentSize: nat, pool: string, s: Shelf, id: string, op: Op, fails: bool)
    requires extentSize > 0 && (id in s.mem ==> s.mem[id].id == id && s.mem[id].pool == pool)
    ensures var r := Apply(l, extentSize, pool, s, id, op, fails);
            var mem, mem' := s.mem, r.shelf.mem;
            && (r.status == Ok <==> Granted(extentSize, mem, id, op) && !fails)
            && (r.status != Ok && !op.SoftDelete? ==> r.shelf == s)
            && (r.status in {StoreError, DeleteError} <==> Granted(extentSize, mem, id, op) && fails)
            && (r.status == NoPermission <==> (op.Rename? || op.Resize? || op.SoftDelete?) && id in mem
                                              && !mem[id].deleted && mem[id].user != op.user)
            && (r.status == InvalidArgument <==>
                op.Resize? && LiveFor(mem, id, op.user) && !Granted(extentSize, mem, id, op))
            && mem' - {id} == mem - {id} && r.shelf.store - {l.key(pool, id)} == s.store - {l.key(pool, id)}
            && (r.status == Ok && !op.HardDelete? ==>
                  id in mem' && l.key(pool, id) in r.shelf.store && r.shelf.store[l.key(pool, id)] == mem'[id])
            && (r.status == Ok && op.HardDelete? ==> id !in mem' && l.key(pool, id) !in r.shelf.store)
            && (r.status == Ok ==> Asked(pool, mem, mem', id, op))
            && (id in mem && (op.Rename? || op.Resize? || op.SoftDelete?) && mem[id].user != op.user ==> r.shelf == s)
  {
  }

  /** The blob after a success: the new values of the operation, and the old ones for everything else. */
  predicate Asked(pool: string, mem: map<string, Blob>, mem': map<string, Blob>, id: string, op: Op)
  {
    match op
    case Create(name, size, user, time) =>
      id in mem' && mem'[id] == Blob(id, name, size, false, pool, user, time)
    case Rename(_, name, time) =>
      id in mem && id in mem' && mem'[id].name == name && mem'[id].updated == time
      && mem'[id].(name := mem[id].name, updated := mem[id].updated) == mem[id]
    case Resize(_, size, time) =>
      id in mem && id in mem' && mem'[id].size == size > mem[id].size && mem'[id].updated == time
      && mem'[id].(size := mem[id].size, updated := mem[id].updated) == mem[id]
    case SoftDelete(_) =>
      id in mem && id in mem' && mem'[id].deleted && mem'[id].(deleted := false) == mem[id]
    case HardDelete => id in mem
  }

  // ---------- memory and store ----------

  /** The map in memory is what decoding the records under the pool's prefix gives. */
  ghost predicate Agrees(l: Layout, pool: string, mem: map<string, Blob>, store: map<string, Blob>)
  {
    && (forall id | id in mem :: Filed(l, pool, mem, store, id))
    && (forall k | k in store && l.under(pool, k) :: store[k].id in mem && k == l.key(pool, store[k].id))
  }

  predicate Filed(l: Layout, pool: string, mem: map<string, Blob>, store: map<string, Blob>, id: string)
    requires id in mem
  {
    var b := mem[id];
    b.id == id && b.pool == pool && l.key(pool, id) in store && store[l.key(pool, id)] == b
  }

  /** The one case in which an operation leaves memory ahead of the store. */
  predicate Diverges(extentSize: nat, mem: map<string, Blob>, id: string, op: Op, fails: bool)
    requires extentSize > 0
  {
    op.SoftDelete? && fails && Check(extentSize, mem, id, op) == Ok
  }

  lemma PutAgrees(l: Layout, pool: string, mem: map<string, Blob>, store: map<string, Blob>, b: Blob)
    requires Sound(l, {pool}) && Agrees(l, pool, mem, store) && b.pool == pool
    ensures Agrees(l, pool, mem[b.id := b], store[l.key(pool, b.id) := b])
  {
  }

  lemma RemoveAgrees(l: Layout, pool: string, mem: map<string, Blob>, store: map<string, Blob>, id: string)
    requires Sound(l, {pool}) && Agrees(l, pool, mem, store) && id in mem
    ensures Agrees(l, pool, mem - {id}, store - {l.key(pool, id)})
  {
    var mem', store' := mem - {id}, store - {l.key(pool, id)};
    forall i | i in mem' ensures Filed(l, pool, mem', store', i) {
      assert Filed(l, pool, mem, store, i);
      assert l.key(pool, i) != l.key(pool, id);
    }
  }

  /** An operation keeps memory and store in step, except a soft delete whose write fails. */
  lemma StepAgreesIff(l: Layout, extentSize: nat, pool: string, s: Shelf, id: string, op: Op, fails: bool)
    requires extentSize > 0 && Sound(l, {pool}) && Agrees(l, pool, s.mem, s.store)
    ensures var s' := Apply(l, extentSize, pool, s, id, op, fails).shelf;
            Agrees(l, pool, s'.mem, s'.store) <==> !Diverges(extentSize, s.mem, id, op, fails)
  {
    if Check(extentSize, s.mem, id, op) == Ok {
      if !op.Create? {
        assert Filed(l, pool, s.mem, s.store, id);
      }
      if op.HardDelete? {
        RemoveAgrees(l, pool, s.mem, s.store, id);
      } else {
        var b := Updated(pool, s.mem, id, op);
        PutAgrees(l, pool, s.mem, s.store, b);
        if Diverges(extentSize, s.mem, id, op, fails) {
          assert !Filed(l, pool, s.mem[id := b], s.store, id);
        }
      }
    }
  }

  // ---------- runs over all pools ----------

  datatype World = World(mems: map<string, map<string, Blob>>, store: map<string, Blob>)

  datatype Step = Step(pool: string, id: string, op: Op, fails: bool)

  function Next(l: Layout, extentSize: nat, w: World, step: Step): World
    requires extentSize > 0 && step.pool in w.mems
  {
    var s := Apply(l, extentSize, step.pool, Shelf(w.mems[step.pool], w.store), step.id, step.op, step.fails).shelf;
    World(w.mems[step.pool := s.mem], s.store)
  }

  ghost predicate InStep(l: Layout, w: World)
  {
    Sound(l, w.mems.Keys) && forall p | p in w.mems :: Agrees(l, p, w.mems[p], w.store)
  }

  /** A change of the store outside a pool's prefix does not concern the pool. */
  lemma OtherPool(l: Layout, p: string, mem: map<string, Blob>, store: map<string, Blob>, store': map<string, Blob>,
                  k: string)
    requires Agrees(l, p, mem, store) && !l.under(p, k)
    requires forall id :: l.under(p, l.key(p, id))
    requires store' - {k} == store - {k}
    ensures Agrees(l, p, mem, store')
  {
    forall id | id in mem ensures Filed(l, p, mem, store', id) {
      assert Filed(l, p, mem, store, id);
      var key := l.key(p, id);
      assert l.under(p, key) && key in store - {k};
      assert (store - {k})[key] == store[key] && (store' - {k})[key] == store'[key];
    }
    forall j | j in store' && l.under(p, j) ensures store'[j].id in mem && j == l.key(p, store'[j].id) {
      assert j in store' - {k};
      assert (store - {k})[j] == store[j] && (store' - {k})[j] == store'[j];
    }
  }

  lemma ApplyTouches(l: Layout, extentSize: nat, pool: string, s: Shelf, id: string, op: Op, fails: bool)
    requires extentSize > 0 && Agrees(l, pool, s.mem, s.store)
    ensures var k := l.key(pool, id);
            Apply(l, extentSize, pool, s, id, op, fails).shelf.store - {k} == s.store - {k}
  {
  }

  lemma StepInStep(l: Layout, extentSize: nat, w: World, step: Step)
    requires extentSize > 0 && InStep(l, w) && step.pool in w.mems
    requires !Diverges(extentSize, w.mems[step.pool], step.id, step.op, step.fails)
    ensures InStep(l, Next(l, extentSize, w, step))
  {
    var w' := Next(l, extentSize, w, step);
    var s := Shelf(w.mems[step.pool], w.store);
    assert w'.mems.Keys == w.mems.Keys;
    StepAgreesIff(l, extentSize, step.pool, s, step.id, step.op, step.fails);
    ApplyTouches(l, extentSize, step.pool, s, step.id, step.op, step.fails);
    forall p | p in w'.mems ensures Agrees(l, p, w'.mems[p], w'.store) {
      if p != step.pool {
        OtherPool(l, p, w.mems[p], w.store, w'.store, l.key(step.pool, step.id));
      }
    }
  }

  /** Every step is on a pool there is. */
  predicate Runs(l: Layout, extentSize: nat, w: World, steps: seq<Step>)
    requires extentSize > 0
    decreases steps
  {
    steps == [] || (steps[0].pool in w.mems && Runs(l, extentSize, Next(l, extentSize, w, steps[0]), steps[1..]))
  }

  /** No step is a soft delete whose write fails. */
  predicate NoneDiverges(l: Layout, extentSize: nat, w: World, steps: seq<Step>)
    requires extentSize > 0 && Runs(l, extentSize, w, steps)
    decreases steps
  {
    steps == []
    || (&& !Diverges(extentSize, w.mems[steps[0].pool], steps[0].id, steps[0].op, steps[0].fails)
        && NoneDiverges(l, extentSize, Next(l, extentSize, w, steps[0]), steps[1..]))
  }

  function Run(l: Layout, extentSize: nat, w: World, steps: seq<Step>): World
    requires extentSize > 0 && Runs(l, extentSize, w, steps)
    decreases steps
  {
    if steps == [] then w else Run(l, extentSize, Next(l, extentSize, w, steps[0]), steps[1..])
  }

  /**
   After any run in which any write may fail, except the write of a soft delete, every pool's blobs are
   the decoded records under its prefix.
   */
  lemma {:induction false} RunInStep(l: Layout, extentSize: nat, w: World, steps: seq<Step>)
    requires extentSize > 0 && InStep(l, w) && Runs(l, extentSize, w, steps) && NoneDiverges(l, extentSize, w, steps)
    ensures InStep(l, Run(l, extentSize, w, steps))
    decreases steps
  {
    if steps != [] {
      StepInStep(l, extentSize, w, steps[0]);
      RunInStep(l, extentSize, Next(l, extentSize, w, steps[0]), steps[1..]);
    }
  }

  // ---------- sizes ----------

  ghost predicate Sized(extentSize: nat, w: World)
    requires extentSize > 0
  {
    forall p, id | p in w.mems && id in w.mems[p] :: BlobSizeValid(extentSize, w.mems[p][id].size)
  }

  predicate CreatesValid(extentSize: nat, steps: seq<Step>)
    requires extentSize > 0
  {
    forall i | 0 <= i < |steps| && steps[i].op.Create? :: BlobSizeValid(extentSize, steps[i].op.size)
  }

  predicate CreatesNot(pool: string, id: string, steps: seq<Step>)
  {
    forall i | 0 <= i < |steps| && steps[i].op.Create? :: steps[i].pool != pool || steps[i].id != id
  }

  lemma {:induction false} RunKeepsSizes(l: Layout, extentSize: nat, w: World, steps: seq<Step>)
    requires extentSize > 0 && Runs(l, extentSize, w, steps) && Sized(extentSize, w) && CreatesValid(extentSize, steps)
    ensures Sized(extentSize, Run(l, extentSize, w, steps))
    decreases steps
  {
    if steps != [] {
      var w' := Next(l, extentSize, w, steps[0]);
      assert Sized(extentSize, w');
      RunKeepsSizes(l, extentSize, w', steps[1..]);
    }
  }

  /** A blob that a run neither creates anew nor removes ends up no smaller than it was. */
  lemma {:induction false} SizesNeverShrink(l: Layout, extentSize: nat, w: World, steps: seq<Step>, pool: string,
                                            id: string)
    requires extentSize > 0 && Runs(l, extentSize, w, steps) && CreatesNot(pool, id, steps) && pool in w.mems
    ensures var w' := Run(l, extentSize, w, steps);
            && pool in w'.mems
            && (id in w'.mems[pool] ==> id in w.mems[pool] && w.mems[pool][id].size <= w'.mems[pool][id].size)
    decreases steps
  {
    if steps != [] {
      var w' := Next(l, extentSize, w, steps[0]);
      assert id in w'.mems[pool] ==> id in w.mems[pool] && w.mems[pool][id].size <= w'.mems[pool][id].size;
      SizesNeverShrink(l, extentSize, w', steps[1..], pool, id);
    }
  }

  // ---------- owners ----------

  /** No step is by the owner of the blob, and none creates it anew or removes it. */
  predicate ByOthers(user: string, pool: string, id: string, steps: seq<Step>)
  {
    forall i | 0 <= i < |steps| && steps[i].pool == pool && steps[i].id == id ::
      (steps[i].op.Rename? || steps[i].op.Resize? || steps[i].op.SoftDelete?) && steps[i].op.user != user
  }

  /** Each blob in memory is under its own id, in its own pool. */
  ghost predicate Named(w: World)
  {
    forall p, id | p in w.mems && id in w.mems[p] :: w.mems[p][id].id == id && w.mems[p][id].pool == p
  }

  lemma StepNamed(l: Layout, extentSize: nat, w: World, step: Step)
    requires extentSize > 0 && Named(w) && step.pool in w.mems
    ensures Named(Next(l, extentSize, w, step)) && Next(l, extentSize, w, step).mems.Keys == w.mems.Keys
  {
  }

  lemma KeysDiffer(l: Layout, pools: set<string>, p: string, id: string, q: string, id': string)
    requires Sound(l, pools) && p in pools && q in pools && (p, id) != (q, id')
    ensures l.key(p, id) != l.key(q, id')
  {
    if p != q {
      assert l.under(p, l.key(p, id)) && !l.under(p, l.key(q, id'));
    }
  }

  /** The record under this key, if there is one. */
  ghost function RecordAt(store: map<string, Blob>, k: string): set<Blob>
  {
    if k in store then {store[k]} else {}
  }

  /** Whatever other users try, and whichever writes fail, the blob and its record stay as they are. */
  lemma {:induction false} OnlyOwnerChanges(l: Layout, extentSize: nat, w: World, steps: seq<Step>, pool: string,
                                            id: string)
    requires extentSize > 0 && Sound(l, w.mems.Keys) && Named(w) && Runs(l, extentSize, w, steps)
    requires pool in w.mems && id in w.mems[pool] && ByOthers(w.mems[pool][id].user, pool, id, steps)
    ensures var w' := Run(l, extentSize, w, steps);
            && pool in w'.mems && id in w'.mems[pool] && w'.mems[pool][id] == w.mems[pool][id]
            && RecordAt(w'.store, l.key(pool, id)) == RecordAt(w.store, l.key(pool, id))
    decreases steps
  {
    if steps != [] {
      assert ByOthers(w.mems[pool][id].user, pool, id, [steps[0]]);
      StepNamed(l, extentSize, w, steps[0]);
      OthersStep(l, extentSize, w, steps[0], pool, id);
      OnlyOwnerChanges(l, extentSize, Next(l, extentSize, w, steps[0]), steps[1..], pool, id);
    }
  }

  lemma OthersStep(l: Layout, extentSize: nat, w: World, step: Step, pool: string, id: string)
    requires extentSize > 0 && Sound(l, w.mems.Keys) && Named(w) && step.pool in w.mems
    requires pool in w.mems && id in w.mems[pool] && ByOthers(w.mems[pool][id].user, pool, id, [step])
    ensures var w' := Next(l, extentSize, w, step);
            && pool in w'.mems && id in w'.mems[pool] && w'.mems[pool][id] == w.mems[pool][id]
            && RecordAt(w'.store, l.key(pool, id)) == RecordAt(w.store, l.key(pool, id))
  {
    var s := Shelf(w.mems[step.pool], w.store);
    var w' := Next(l, extentSize, w, step);
    ApplyChanges(l, extentSize, step.pool, s, step.id, step.op, step.fails);
    if step.pool == pool && step.id == id {
      assert [step][0] == step;
    } else {
      KeysDiffer(l, w.mems.Keys, pool, id, step.pool, step.id);
      SameOutside(w.store, w'.store, l.key(step.pool, step.id), l.key(pool, id));
      if step.pool == pool {
        SameOutside(s.mem, w'.mems[pool], step.id, id);
      }
    }
  }

  lemma SameOutside(a: map<string, Blob>, b: map<string, Blob>, k: string, x: string)
    requires a - {k} == b - {k} && x != k
    ensures RecordAt(a, x) == RecordAt(b, x) && (x in a <==> x in b) && (x in a ==> b[x] == a[x])
  {
    assert x in a <==> x in a - {k};
    assert x in b <==> x in b - {k};
    assert x in a ==> (a - {k})[x] == a[x];
    assert x in b ==> (b - {k})[x] == b[x];
  }
}
