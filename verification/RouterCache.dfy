/**
 The router cache under concurrent queries and deletes: a cache split into shards by hash, each lookup,
 store access, insertion and erasure being one step.
 */
module RouterCache {
  import opened Common

  type Shards<K, V> = map<nat, map<K, V>>

  function ShardOf<K>(hash: K -> nat, count: nat, id: K): nat
    requires count > 0
  {
    hash(id) % count
  }

  /** There are `count` shards, and every cached id sits in the shard it hashes to. */
  ghost predicate Placed<K, V>(hash: K -> nat, count: nat, shards: Shards<K, V>)
  {
    && count > 0
    && (forall i: nat :: i in shards <==> i < count)
    && (forall i, id | i in shards && id in shards[i] :: i == ShardOf(hash, count, id))
  }

  function Lookup<K, V>(hash: K -> nat, count: nat, shards: Shards<K, V>, id: K): Option<V>
    requires count > 0
  {
    var i := ShardOf(hash, count, id);
    if i in shards && id in shards[i] then Some(shards[i][id]) else None
  }

  /** Inserts unless the id is cached already. */
  function Insert<K, V>(hash: K -> nat, count: nat, shards: Shards<K, V>, id: K, value: V): Shards<K, V>
    requires count > 0
  {
    var i := ShardOf(hash, count, id);
    if i in shards && id !in shards[i] then shards[i := shards[i][id := value]] else shards
  }

  function Erase<K, V>(hash: K -> nat, count: nat, shards: Shards<K, V>, id: K): Shards<K, V>
    requires count > 0
  {
    var i := ShardOf(hash, count, id);
    if i in shards then shards[i := shards[i] - {id}] else shards
  }

  lemma InsertPlaces<K, V>(hash: K -> nat, count: nat, shards: Shards<K, V>, id: K, value: V)
    requires Placed(hash, count, shards)
    ensures var s := Insert(hash, count, shards, id, value);
            && Placed(hash, count, s)
            && (forall k :: Lookup(hash, count, s, k)
                            == if k == id && Lookup(hash, count, shards, id) == None then Some(value)
                               else Lookup(hash, count, shards, k))
  {
  }

  lemma ErasePlaces<K, V>(hash: K -> nat, count: nat, shards: Shards<K, V>, id: K)
    requires Placed(hash, count, shards)
    ensures var s := Erase(hash, count, shards, id);
            && Placed(hash, count, s)
            && (forall k :: Lookup(hash, count, s, k) == if k == id then None else Lookup(hash, count, shards, k))
  {
  }

  // ---------- threads ----------

  datatype Pc<K, V> =
    | Idle
    | Looking(id: K)
    | Fetching(id: K)
    | Caching(id: K, value: V)
    | Deleting(id: K)
    | Erasing(id: K)

  /** An answer to a query: the router, none, or an error of the store. */
  datatype Answer<V> = Found(value: V) | NotFound | LoadError

  /** `created` and `answers` are the history: what was stored under each id, and what queries returned. */
  datatype System<K, V> = System(store: map<K, V>, shards: Shards<K, V>, threads: map<nat, Pc<K, V>>,
                                 created: map<K, V>, answers: seq<(K, Answer<V>)>)
  {
    function Pc(t: nat): Pc<K, V>
    {
      if t in threads then threads[t] else Idle
    }

    function Goto(t: nat, pc: Pc<K, V>): System<K, V>
    {
      this.(threads := threads[t := pc])
    }

    function Reply(t: nat, id: K, a: Answer<V>): System<K, V>
    {
      this.(threads := threads[t := Idle], answers := answers + [(id, a)])
    }
  }

  datatype Action<K, V> =
    | Create(newId: K, value: V)
    | Query(queried: K)
    | Look
    | Fetch(readable: bool)
    | Cache
    | Delete(deleted: K)
    | StoreDelete(done: bool)
    | EraseCached

  datatype Move<K, V> = Move(thread: nat, action: Action<K, V>)

  /** Which moves are possible; an id is created at most once. */
  predicate Permitted<K, V>(s: System<K, V>, m: Move<K, V>)
  {
    var pc := s.Pc(m.thread);
    match m.action
    case Create(id, _) => id !in s.created
    case Query(_) => pc.Idle?
    case Delete(_) => pc.Idle?
    case Look => pc.Looking?
    case Fetch(_) => pc.Fetching?
    case Cache => pc.Caching?
    case StoreDelete(_) => pc.Deleting?
    case EraseCached => pc.Erasing?
  }

  function Next<K, V>(hash: K -> nat, count: nat, s: System<K, V>, m: Move<K, V>): System<K, V>
    requires count > 0 && Permitted(s, m)
  {
    var t, pc := m.thread, s.Pc(m.thread);
    match m.action
    case Create(id, v) => s.(store := s.store[id := v], created := s.created[id := v])
    case Query(id) => s.Goto(t, Looking(id))
    case Delete(id) => s.Goto(t, Deleting(id))
    case Look =>
      (match Lookup(hash, count, s.shards, pc.id)
       case Some(v) => s.Reply(t, pc.id, Found(v))
       case None => s.Goto(t, Fetching(pc.id)))
    case Fetch(readable) =>
      if !readable then s.Reply(t, pc.id, LoadError)
      else if pc.id in s.store then s.Goto(t, Caching(pc.id, s.store[pc.id]))
      else s.Reply(t, pc.id, NotFound)
    case Cache =>
      s.(shards := Insert(hash, count, s.shards, pc.id, pc.value)).Reply(t, pc.id, Found(pc.value))
    case StoreDelete(done) =>
      if done then s.(store := s.store - {pc.id}).Goto(t, Erasing(pc.id)) else s.Goto(t, Idle)
    case EraseCached => s.(shards := Erase(hash, count, s.shards, pc.id)).Goto(t, Idle)
  }

  predicate AllPermitted<K, V>(hash: K -> nat, count: nat, s: System<K, V>, moves: seq<Move<K, V>>)
    requires count > 0
    decreases moves
  {
    moves == [] || (Permitted(s, moves[0]) && AllPermitted(hash, count, Next(hash, count, s, moves[0]), moves[1..]))
  }

  function Run<K, V>(hash: K -> nat, count: nat, s: System<K, V>, moves: seq<Move<K, V>>): System<K, V>
    requires count > 0 && AllPermitted(hash, count, s, moves)
    decreases moves
  {
    if moves == [] then s else Run(hash, count, Next(hash, count, s, moves[0]), moves[1..])
  }

  // ---------- what every run keeps ----------

  predicate IsCreated<K, V(==)>(s: System<K, V>, id: K, v: V)
  {
    id in s.created && s.created[id] == v
  }

  // Everything that stands somewhere under an id is what was created under it.

  ghost predicate StoreGenuine<K, V>(s: System<K, V>)
  {
    forall id | id in s.store :: IsCreated(s, id, s.store[id])
  }

  ghost predicate ThreadsGenuine<K, V>(s: System<K, V>)
  {
    forall t | t in s.threads && s.threads[t].Caching? :: IsCreated(s, s.threads[t].id, s.threads[t].value)
  }

  ghost predicate AnswersGenuine<K, V>(s: System<K, V>)
  {
    forall i | 0 <= i < |s.answers| && s.answers[i].1.Found? :: IsCreated(s, s.answers[i].0, s.answers[i].1.value)
  }

  ghost predicate CacheGenuine<K, V>(s: System<K, V>)
  {
    forall i, id | i in s.shards && id in s.shards[i] :: IsCreated(s, id, s.shards[i][id])
  }

  ghost predicate Inv<K, V>(hash: K -> nat, count: nat, s: System<K, V>)
  {
    Placed(hash, count, s.shards) && StoreGenuine(s) && ThreadsGenuine(s) && AnswersGenuine(s) && CacheGenuine(s)
  }

  lemma StepKeeps<K, V>(hash: K -> nat, count: nat, s: System<K, V>, m: Move<K, V>)
    requires Inv(hash, count, s) && Permitted(s, m)
    ensures Inv(hash, count, Next(hash, count, s, m))
  {
    StepPlaces(hash, count, s, m);
    StepCaches(hash, count, s, m);
    StepStores(hash, count, s, m);
    StepMovesOn(hash, count, s, m);
    StepAnswers(hash, count, s, m);
  }

  lemma StepPlaces<K, V>(hash: K -> nat, count: nat, s: System<K, V>, m: Move<K, V>)
    requires Placed(hash, count, s.shards) && Permitted(s, m)
    ensures Placed(hash, count, Next(hash, count, s, m).shards)
  {
    var pc := s.Pc(m.thread);
    if m.action.Cache? {
      InsertPlaces(hash, count, s.shards, pc.id, pc.value);
    } else if m.action.EraseCached? {
      ErasePlaces(hash, count, s.shards, pc.id);
    }
  }

  lemma StepCaches<K, V>(hash: K -> nat, count: nat, s: System<K, V>, m: Move<K, V>)
    requires Inv(hash, count, s) && Permitted(s, m)
    ensures CacheGenuine(Next(hash, count, s, m))
  {
  }

  lemma StepStores<K, V>(hash: K -> nat, count: nat, s: System<K, V>, m: Move<K, V>)
    requires Inv(hash, count, s) && Permitted(s, m)
    ensures StoreGenuine(Next(hash, count, s, m))
  {
  }

  lemma StepMovesOn<K, V>(hash: K -> nat, count: nat, s: System<K, V>, m: Move<K, V>)
    requires Inv(hash, count, s) && Permitted(s, m)
    ensures ThreadsGenuine(Next(hash, count, s, m))
  {
  }

  lemma StepAnswers<K, V>(hash: K -> nat, count: nat, s: System<K, V>, m: Move<K, V>)
    requires Inv(hash, count, s) && Permitted(s, m)
    ensures AnswersGenuine(Next(hash, count, s, m))
  {
  }

  lemma {:induction false} RunKeeps<K, V>(hash: K -> nat, count: nat, s: System<K, V>, moves: seq<Move<K, V>>)
    requires Inv(hash, count, s) && AllPermitted(hash, count, s, moves)
    ensures Inv(hash, count, Run(hash, count, s, moves))
    decreases moves
  {
    if moves != [] {
      StepKeeps(hash, count, s, moves[0]);
      RunKeeps(hash, count, Next(hash, count, s, moves[0]), moves[1..]);
    }
  }

  function Fresh<K, V>(count: nat): System<K, V>
  {
    System(map[], Empty(count), map[], map[], [])
  }

  function Empty<K, V>(count: nat): (s: Shards<K, V>)
    ensures forall i: nat :: (i in s <==> i < count) && (i in s ==> s[i] == map[])
  {
    if count == 0 then map[] else Empty<K, V>(count - 1)[count - 1 := map[]]
  }

  /**
   In every interleaving from an empty system, a query never answers with anything but the router
   created for its id, and every cached id sits only in its shard.
   */
  lemma AnswersAreCreated<K, V>(hash: K -> nat, count: nat, moves: seq<Move<K, V>>, i: nat)
    requires count > 0 && AllPermitted(hash, count, Fresh(count), moves)
    ensures var s := Run(hash, count, Fresh(count), moves);
            && Placed(hash, count, s.shards)
            && (i < |s.answers| && s.answers[i].1.Found? ==> IsCreated(s, s.answers[i].0, s.answers[i].1.value))
  {
    RunKeeps(hash, count, Fresh(count), moves);
  }

  // ---------- operations run alone ----------

  /** The moves of a query that finds its id in the cache, in the store, or nowhere. */
  function QueryMoves<K, V>(t: nat, id: K, cached: bool, stored: bool): seq<Move<K, V>>
  {
    if cached then [Move(t, Query(id)), Move(t, Look)]
    else if stored then [Move(t, Query(id)), Move(t, Look), Move(t, Fetch(true)), Move(t, Cache)]
    else [Move(t, Query(id)), Move(t, Look), Move(t, Fetch(true))]
  }

  /** A query that is not interrupted answers from the cache, else from the store, and caches what it found. */
  lemma QueryAlone<K, V>(hash: K -> nat, count: nat, s: System<K, V>, t: nat, id: K)
    requires Placed(hash, count, s.shards) && s.Pc(t).Idle?
    ensures var hit := Lookup(hash, count, s.shards, id);
            var found := if hit.Some? then hit else if id in s.store then Some(s.store[id]) else None;
            var moves := QueryMoves(t, id, hit.Some?, id in s.store);
            && AllPermitted(hash, count, s, moves)
            && var s' := Run(hash, count, s, moves);
            && s'.store == s.store && s'.Pc(t).Idle? && Lookup(hash, count, s'.shards, id) == found
            && s'.answers == s.answers + [(id, if found.Some? then Found(found.value) else NotFound)]
  {
    var hit := Lookup(hash, count, s.shards, id);
    var a := Next(hash, count, s, Move(t, Query(id)));
    var b := Next(hash, count, a, Move(t, Look));
    if hit.Some? {
      RunOfTwo(hash, count, s, Move(t, Query(id)), Move(t, Look));
    } else {
      var c := Next(hash, count, b, Move(t, Fetch(true)));
      if id in s.store {
        InsertPlaces(hash, count, s.shards, id, s.store[id]);
        RunOfFour(hash, count, s, Move(t, Query(id)), Move(t, Look), Move(t, Fetch(true)), Move(t, Cache));
      } else {
        RunOfThree(hash, count, s, Move(t, Query(id)), Move(t, Look), Move(t, Fetch(true)));
      }
    }
  }

  /** A delete that is not interrupted leaves the id neither in the store nor in the cache. */
  lemma DeleteAlone<K, V>(hash: K -> nat, count: nat, s: System<K, V>, t: nat, id: K)
    requires Placed(hash, count, s.shards) && s.Pc(t).Idle?
    ensures var moves := [Move(t, Delete(id)), Move(t, StoreDelete(true)), Move(t, EraseCached)];
            && AllPermitted(hash, count, s, moves)
            && var s' := Run(hash, count, s, moves);
            && s'.store == s.store - {id} && s'.answers == s.answers && s'.Pc(t).Idle?
            && (forall k :: Lookup(hash, count, s'.shards, k)
                            == if k == id then None else Lookup(hash, count, s.shards, k))
  {
    ErasePlaces(hash, count, s.shards, id);
    RunOfThree(hash, count, s, Move(t, Delete(id)), Move(t, StoreDelete(true)), Move(t, EraseCached));
  }

  lemma RunOfTwo<K, V>(hash: K -> nat, count: nat, s: System<K, V>, m1: Move<K, V>, m2: Move<K, V>)
    requires count > 0 && Permitted(s, m1) && Permitted(Next(hash, count, s, m1), m2)
    ensures AllPermitted(hash, count, s, [m1, m2])
    ensures Run(hash, count, s, [m1, m2]) == Next(hash, count, Next(hash, count, s, m1), m2)
  {
    assert [m1, m2][1..] == [m2] && [m2][1..] == [];
    var a := Next(hash, count, s, m1);
    assert AllPermitted(hash, count, a, [m2]) && Run(hash, count, a, [m2]) == Next(hash, count, a, m2);
  }

  lemma RunOfThree<K, V>(hash: K -> nat, count: nat, s: System<K, V>, m1: Move<K, V>, m2: Move<K, V>, m3: Move<K, V>)
    requires count > 0 && Permitted(s, m1) && Permitted(Next(hash, count, s, m1), m2)
    requires Permitted(Next(hash, count, Next(hash, count, s, m1), m2), m3)
    ensures AllPermitted(hash, count, s, [m1, m2, m3])
    ensures Run(hash, count, s, [m1, m2, m3])
            == Next(hash, count, Next(hash, count, Next(hash, count, s, m1), m2), m3)
  {
    assert [m1, m2, m3][1..] == [m2, m3];
    RunOfTwo(hash, count, Next(hash, count, s, m1), m2, m3);
  }

  // ---------- when the cache follows the store ----------

  ghost predicate BeingErased<K, V>(s: System<K, V>, id: K)
  {
    exists t :: t in s.threads && s.threads[t] == Erasing(id)
  }

  /** Whatever is cached, or about to be, is in the store or still to be erased. */
  ghost predicate Coherent<K, V>(s: System<K, V>)
  {
    && (forall i, id | i in s.shards && id in s.shards[i] :: id in s.store || BeingErased(s, id))
    && (forall t | t in s.threads && s.threads[t].Caching? ::
          s.threads[t].id in s.store || BeingErased(s, s.threads[t].id))
  }

  ghost predicate AboutToCache<K, V>(s: System<K, V>, id: K)
  {
    exists t :: t in s.threads && s.threads[t].Caching? && s.threads[t].id == id
  }

  ghost predicate ErasedByOther<K, V>(s: System<K, V>, thread: nat, id: K)
  {
    exists t :: t in s.threads && t != thread && s.threads[t] == Erasing(id)
  }

  /** The move erases an id that has left the store, that some thread is about to cache, and that no other erases. */
  ghost predicate Spoils<K, V>(s: System<K, V>, m: Move<K, V>)
  {
    && m.action.EraseCached? && s.Pc(m.thread).Erasing?
    && var id := s.Pc(m.thread).id;
    id !in s.store && AboutToCache(s, id) && !ErasedByOther(s, m.thread, id)
  }

  /** An id being erased stays so, unless this move is its last erasing. */
  lemma StaysBeingErased<K, V>(hash: K -> nat, count: nat, s: System<K, V>, m: Move<K, V>, id: K)
    requires count > 0 && Permitted(s, m) && BeingErased(s, id)
    requires m.action.EraseCached? && s.Pc(m.thread).id == id ==> ErasedByOther(s, m.thread, id)
    ensures BeingErased(Next(hash, count, s, m), id)
  {
    var t :| t in s.threads && s.threads[t] == Erasing(id)
             && (m.action.EraseCached? && s.Pc(m.thread).id == id ==> t != m.thread);
    assert t in Next(hash, count, s, m).threads && Next(hash, count, s, m).threads[t] == Erasing(id);
  }

  lemma KeepsAccount<K, V>(hash: K -> nat, count: nat, s: System<K, V>, m: Move<K, V>, id: K)
    requires count > 0 && Permitted(s, m) && (id in s.store || BeingErased(s, id))
    requires m.action.EraseCached? && s.Pc(m.thread).id == id ==> id in s.store || ErasedByOther(s, m.thread, id)
    ensures id in Next(hash, count, s, m).store || BeingErased(Next(hash, count, s, m), id)
  {
    var s' := Next(hash, count, s, m);
    if id !in s.store {
      StaysBeingErased(hash, count, s, m, id);
    } else if id !in s'.store {
      assert m.thread in s'.threads && s'.threads[m.thread] == Erasing(id);
    }
  }

  lemma CachedKept<K, V>(hash: K -> nat, count: nat, s: System<K, V>, m: Move<K, V>, i: nat, id: K)
    requires Placed(hash, count, s.shards) && Coherent(s) && Permitted(s, m)
    requires var s' := Next(hash, count, s, m); i in s'.shards && id in s'.shards[i]
    ensures id in Next(hash, count, s, m).store || BeingErased(Next(hash, count, s, m), id)
  {
    if m.action.Cache? {
      assert s.Pc(m.thread).id == id || (i in s.shards && id in s.shards[i]);
    } else {
      assert i in s.shards && id in s.shards[i];
    }
    KeepsAccount(hash, count, s, m, id);
  }

  /** A thread about to cache an id was so before the move, or has just found the id in the store. */
  lemma CachingBefore<K, V>(hash: K -> nat, count: nat, s: System<K, V>, m: Move<K, V>, t: nat)
    requires count > 0 && Permitted(s, m)
    requires var s' := Next(hash, count, s, m); t in s'.threads && s'.threads[t].Caching?
    ensures var pc := Next(hash, count, s, m).threads[t];
            (m.action.Fetch? && pc.id in s.store) || (t in s.threads && s.threads[t] == pc)
  {
  }

  lemma CachingKept<K, V>(hash: K -> nat, count: nat, s: System<K, V>, m: Move<K, V>, t: nat, id: K)
    requires Coherent(s) && count > 0 && Permitted(s, m) && !Spoils(s, m)
    requires (m.action.Fetch? && id in s.store) || (t in s.threads && s.threads[t].Caching? && s.threads[t].id == id)
    ensures id in Next(hash, count, s, m).store || BeingErased(Next(hash, count, s, m), id)
  {
    KeepsAccount(hash, count, s, m, id);
  }

  lemma StepStaysCoherent<K, V>(hash: K -> nat, count: nat, s: System<K, V>, m: Move<K, V>)
    requires Placed(hash, count, s.shards) && Coherent(s) && Permitted(s, m) && !Spoils(s, m)
    ensures Coherent(Next(hash, count, s, m))
  {
    var s' := Next(hash, count, s, m);
    forall i, id | i in s'.shards && id in s'.shards[i] ensures id in s'.store || BeingErased(s', id) {
      CachedKept(hash, count, s, m, i, id);
    }
    forall t | t in s'.threads && s'.threads[t].Caching?
      ensures s'.threads[t].id in s'.store || BeingErased(s', s'.threads[t].id)
    {
      CachingBefore(hash, count, s, m, t);
      CachingKept(hash, count, s, m, t, s'.threads[t].id);
    }
  }

  lemma SpoilsCoherence<K, V>(hash: K -> nat, count: nat, s: System<K, V>, m: Move<K, V>)
    requires count > 0 && Permitted(s, m) && Spoils(s, m)
    ensures !Coherent(Next(hash, count, s, m))
  {
    var id, s' := s.Pc(m.thread).id, Next(hash, count, s, m);
    var t :| t in s.threads && s.threads[t].Caching? && s.threads[t].id == id;
    assert t in s'.threads && s'.threads[t] == s.threads[t];
    assert !BeingErased(s', id);
  }

  /** A step keeps the cache in step with the store exactly unless it spoils it. */
  lemma StepCoherentIff<K, V>(hash: K -> nat, count: nat, s: System<K, V>, m: Move<K, V>)
    requires Placed(hash, count, s.shards) && Coherent(s) && Permitted(s, m)
    ensures Coherent(Next(hash, count, s, m)) <==> !Spoils(s, m)
  {
    if Spoils(s, m) {
      SpoilsCoherence(hash, count, s, m);
    } else {
      StepStaysCoherent(hash, count, s, m);
    }
  }

  ghost predicate NoneSpoils<K, V>(hash: K -> nat, count: nat, s: System<K, V>, moves: seq<Move<K, V>>)
    requires count > 0 && AllPermitted(hash, count, s, moves)
    decreases moves
  {
    moves == [] || (!Spoils(s, moves[0]) && NoneSpoils(hash, count, Next(hash, count, s, moves[0]), moves[1..]))
  }

  lemma {:induction false} RunStaysCoherent<K, V>(hash: K -> nat, count: nat, s: System<K, V>, moves: seq<Move<K, V>>)
    requires Placed(hash, count, s.shards) && Coherent(s) && AllPermitted(hash, count, s, moves)
    requires NoneSpoils(hash, count, s, moves)
    ensures Coherent(Run(hash, count, s, moves))
    decreases moves
  {
    if moves != [] {
      StepPlaces(hash, count, s, moves[0]);
      StepStaysCoherent(hash, count, s, moves[0]);
      RunStaysCoherent(hash, count, Next(hash, count, s, moves[0]), moves[1..]);
    }
  }

  /**
   If no step spoils it, a router found in the cache is the one in the store, unless a delete of it is
   still under way.
   */
  lemma CacheFollowsStore<K, V>(hash: K -> nat, count: nat, moves: seq<Move<K, V>>, id: K)
    requires count > 0 && AllPermitted(hash, count, Fresh(count), moves) && NoneSpoils(hash, count, Fresh(count), moves)
    ensures var s := Run(hash, count, Fresh(count), moves);
            var hit := Lookup(hash, count, s.shards, id);
            hit.Some? && !BeingErased(s, id) ==> id in s.store && s.store[id] == hit.value
  {
    RunKeeps(hash, count, Fresh(count), moves);
    RunStaysCoherent(hash, count, Fresh(count), moves);
  }

  /**
   If an id is erased while a thread u is about to cache it, the deleted router comes back: once u has
   cached it, queries by any thread w find a router that is not in the store.
   */
  lemma ErasedComesBack<K, V>(hash: K -> nat, count: nat, s: System<K, V>, t: nat, u: nat, w: nat)
    requires Placed(hash, count, s.shards)
    requires s.Pc(t).Erasing? && s.Pc(u).Caching? && s.Pc(w).Idle?
    requires s.Pc(u).id == s.Pc(t).id && s.Pc(t).id !in s.store
    ensures var id := s.Pc(t).id;
            var moves := [Move(t, EraseCached), Move(u, Cache), Move(w, Query(id)), Move(w, Look)];
            && AllPermitted(hash, count, s, moves)
            && var s' := Run(hash, count, s, moves);
            id !in s'.store && s'.answers == s.answers + [(id, Found(s.Pc(u).value)), (id, Found(s.Pc(u).value))]
  {
    var id, v := s.Pc(t).id, s.Pc(u).value;
    var a := Next(hash, count, s, Move(t, EraseCached));
    ErasePlaces(hash, count, s.shards, id);
    InsertPlaces(hash, count, a.shards, id, v);
    var b := Next(hash, count, a, Move(u, Cache));
    var c := Next(hash, count, b, Move(w, Query(id)));
    var d := Next(hash, count, c, Move(w, Look));
    assert d.answers == s.answers + [(id, Found(v)), (id, Found(v))];
    RunOfFour(hash, count, s, Move(t, EraseCached), Move(u, Cache), Move(w, Query(id)), Move(w, Look));
  }

  /** A query overtaken by a delete between its two halves. */
  function Overtaken<K, V>(id: K, v: V): seq<Move<K, V>>
  {
    [Move(0, Create(id, v)), Move(0, Query(id)), Move(0, Look), Move(0, Fetch(true))]
    + [Move(1, Delete(id)), Move(1, StoreDelete(true))]
  }

  function AndBack<K, V>(id: K): seq<Move<K, V>>
  {
    [Move(1, EraseCached), Move(0, Cache), Move(2, Query(id)), Move(2, Look)]
  }

  lemma {:induction false} RunsOn<K, V>(hash: K -> nat, count: nat, s: System<K, V>, a: seq<Move<K, V>>,
                                        b: seq<Move<K, V>>)
    requires count > 0 && AllPermitted(hash, count, s, a) && AllPermitted(hash, count, Run(hash, count, s, a), b)
    ensures AllPermitted(hash, count, s, a + b)
    ensures Run(hash, count, s, a + b) == Run(hash, count, Run(hash, count, s, a), b)
    decreases a
  {
    if a == [] {
      assert a + b == b;
    } else {
      assert (a + b)[1..] == a[1..] + b;
      RunsOn(hash, count, Next(hash, count, s, a[0]), a[1..], b);
    }
  }

  lemma HalfQuery<K, V>(hash: K -> nat, count: nat, id: K, v: V)
    requires count > 0
    ensures var moves := [Move(0, Create(id, v)), Move(0, Query(id)), Move(0, Look), Move(0, Fetch(true))];
            && AllPermitted(hash, count, Fresh(count), moves)
            && Run(hash, count, Fresh(count), moves)
               == System(map[id := v], Empty(count), map[0 := Caching(id, v)], map[id := v], [])
  {
    var s0: System<K, V> := Fresh(count);
    RunOfFour(hash, count, s0, Move(0, Create(id, v)), Move(0, Query(id)), Move(0, Look), Move(0, Fetch(true)));
    var s1 := Next(hash, count, s0, Move(0, Create(id, v)));
    var s2 := Next(hash, count, s1, Move(0, Query(id)));
    var s3 := Next(hash, count, s2, Move(0, Look));
    assert s3.threads == map[0 := Fetching(id)];
  }

  /** Such a run leads to a thread about to cache what another is about to erase. */
  lemma OvertakenRuns<K, V>(hash: K -> nat, count: nat, id: K, v: V)
    requires count > 0
    ensures AllPermitted(hash, count, Fresh(count), Overtaken(id, v))
    ensures Run(hash, count, Fresh(count), Overtaken(id, v))
            == System(map[], Empty(count), map[0 := Caching(id, v), 1 := Erasing(id)], map[id := v], [])
  {
    HalfQuery(hash, count, id, v);
    var s := System(map[id := v], Empty(count), map[0 := Caching(id, v)], map[id := v], []);
    RunOfTwo(hash, count, s, Move(1, Delete(id)), Move(1, StoreDelete(true)));
    var s1 := Next(hash, count, s, Move(1, Delete(id)));
    assert s1.threads == map[0 := Caching(id, v), 1 := Deleting(id)];
    assert s1.store - {id} == map[];
    RunsOn(hash, count, Fresh(count), [Move(0, Create(id, v)), Move(0, Query(id)), Move(0, Look), Move(0, Fetch(true))],
           [Move(1, Delete(id)), Move(1, StoreDelete(true))]);
  }

  /** From an empty system, ten moves make a query find a router that was deleted. */
  lemma DeletedComesBack<K, V>(hash: K -> nat, count: nat, id: K, v: V)
    requires count > 0
    ensures var moves := Overtaken(id, v) + AndBack(id);
            && AllPermitted(hash, count, Fresh(count), moves)
            && var s := Run(hash, count, Fresh(count), moves);
            id !in s.store && s.answers == [(id, Found(v)), (id, Found(v))]
  {
    OvertakenRuns(hash, count, id, v);
    var s := System(map[], Empty(count), map[0 := Caching(id, v), 1 := Erasing(id)], map[id := v], []);
    ErasedComesBack(hash, count, s, 1, 0, 2);
    RunsOn(hash, count, Fresh(count), Overtaken(id, v), AndBack(id));
  }

  lemma RunOfFour<K, V>(hash: K -> nat, count: nat, s: System<K, V>, m1: Move<K, V>, m2: Move<K, V>, m3: Move<K, V>,
                        m4: Move<K, V>)
    requires count > 0 && Permitted(s, m1) && Permitted(Next(hash, count, s, m1), m2)
    requires var b := Next(hash, count, Next(hash, count, s, m1), m2);
             Permitted(b, m3) && Permitted(Next(hash, count, b, m3), m4)
    ensures var b := Next(hash, count, Next(hash, count, s, m1), m2);
            && AllPermitted(hash, count, s, [m1, m2, m3, m4])
            && Run(hash, count, s, [m1, m2, m3, m4]) == Next(hash, count, Next(hash, count, b, m3), m4)
  {
    assert [m1, m2, m3, m4][1..] == [m2, m3, m4];
    RunOfThree(hash, count, Next(hash, count, s, m1), m2, m3, m4);
  }
}
