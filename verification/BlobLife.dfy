/**
 Making and growing blobs: the record is stored first, then groups are allocated, then routers are
 written, and any of these can be the last thing that works. Which blobs have all their routers after any
 run, and can so be collected with their remote space.
 */
module BlobLife {
  import opened Gc

  /** How far an attempt got; `written` are the extents whose routers were written before a write failed. */
  datatype Attempt = NotStored | NotAllocated | Broken(written: set<nat>) | Finished

  /** A blob is created with so many extents, or grows to so many. */
  datatype Deed = Create(extents: nat) | Grow(extents: nat)

  datatype Event = Event(pool: string, blob: string, deed: Deed, attempt: Attempt)

  function ExtentsOf(w: World, pool: string, blob: string): nat
  {
    if pool in w.pools && blob in w.pools[pool].blobs then w.pools[pool].blobs[blob].extents else 0
  }

  function Between(lo: nat, hi: nat): (r: set<nat>)
    ensures forall i: nat :: i in r <==> lo < i <= hi
    decreases hi
  {
    if hi <= lo then {} else Between(lo, hi - 1) + {hi}
  }

  /** The extents that the event adds. */
  function Added(w: World, e: Event): set<nat>
  {
    Between(if e.deed.Create? then 0 else ExtentsOf(w, e.pool, e.blob), e.deed.extents)
  }

  /** A new blob gets an unused id; a blob that is not deleted grows; a failed write leaves some router out. */
  predicate Permitted(w: World, e: Event)
  {
    && e.pool in w.pools
    && (e.deed.Create? ==> forall p | p in w.pools :: e.blob !in w.pools[p].blobs)
    && (e.deed.Grow? ==>
          && e.blob in w.pools[e.pool].blobs && !w.pools[e.pool].blobs[e.blob].deleted
          && ExtentsOf(w, e.pool, e.blob) < e.deed.extents)
    && (e.attempt.NotAllocated? ==> Added(w, e) != {})
    && (e.attempt.Broken? ==> e.attempt.written < Added(w, e))
  }

  function Routed(w: World, e: Event): set<nat>
  {
    match e.attempt
    case Finished => Added(w, e)
    case Broken(written) => written
    case _ => {}
  }

  function Next(w: World, e: Event): World
    requires Permitted(w, e)
  {
    if e.attempt.NotStored? then w
    else
      var p := w.pools[e.pool];
      w.(pools := w.pools[e.pool := p.(blobs := p.blobs[e.blob := BlobInfo(e.deed.extents, false)])],
         routers := w.routers + set i | i in Routed(w, e) :: Extent(e.blob, i))
  }

  // ---------- one event ----------

  /** The blob has its routers, all of them. */
  predicate Complete(w: World, pool: string, blob: string)
  {
    pool in w.pools && blob in w.pools[pool].blobs && HasRouters(w, blob, 1, w.pools[pool].blobs[blob].extents)
  }

  /** Blob ids are unique, and every router belongs to an extent of a blob. */
  predicate Tidy(w: World)
  {
    OneHome(w) && RoutersOwned(w)
  }

  lemma NoRouterYet(w: World, e: Event, i: nat)
    requires Tidy(w) && Permitted(w, e) && i in Added(w, e)
    ensures Extent(e.blob, i) !in w.routers
  {
    var x := Extent(e.blob, i);
    forall p | p in w.pools ensures !Owns(w, p, x) {
      if e.deed.Grow? && e.blob in w.pools[p].blobs {
        assert p == e.pool;
      }
    }
  }

  lemma NextOneHome(w: World, e: Event)
    requires OneHome(w) && Permitted(w, e)
    ensures OneHome(Next(w, e))
  {
  }

  lemma NextTidy(w: World, e: Event)
    requires Tidy(w) && Permitted(w, e)
    ensures Tidy(Next(w, e))
  {
    var w' := Next(w, e);
    NextOneHome(w, e);
    forall x | x in w'.routers ensures exists p :: p in w'.pools && Owns(w', p, x) {
      if x in w.routers {
        var p :| p in w.pools && Owns(w, p, x);
        assert Owns(w', p, x);
      } else {
        assert Owns(w', e.pool, x);
      }
    }
  }

  /** The blob of the event has all its routers afterwards exactly if it had them before and nothing broke. */
  lemma EventCompletesIff(w: World, e: Event)
    requires Tidy(w) && Permitted(w, e) && !e.attempt.NotStored?
    ensures Complete(Next(w, e), e.pool, e.blob)
            <==> e.attempt.Finished? && (e.deed.Grow? ==> Complete(w, e.pool, e.blob))
  {
    var w' := Next(w, e);
    if e.attempt.Finished? {
      forall i: nat | 1 <= i <= e.deed.extents
        ensures Extent(e.blob, i) in w'.routers <==> i in Added(w, e) || Extent(e.blob, i) in w.routers
      {
      }
      FinishedIff(w, e);
    } else {
      var i := Missing(w, e);
      NoRouterYet(w, e, i);
      assert Extent(e.blob, i) !in w'.routers;
    }
  }

  lemma FinishedIff(w: World, e: Event)
    requires Tidy(w) && Permitted(w, e) && e.attempt.Finished?
    ensures Complete(Next(w, e), e.pool, e.blob) <==> (e.deed.Grow? ==> Complete(w, e.pool, e.blob))
  {
    var w' := Next(w, e);
    if e.deed.Grow? {
      var n := ExtentsOf(w, e.pool, e.blob);
      forall i: nat | 1 <= i <= n ensures Extent(e.blob, i) in w'.routers <==> Extent(e.blob, i) in w.routers {
        assert i !in Added(w, e);
      }
      forall i: nat | n < i <= e.deed.extents ensures Extent(e.blob, i) in w'.routers {
        assert i in Added(w, e);
      }
    } else {
      forall i: nat | 1 <= i <= e.deed.extents ensures Extent(e.blob, i) in w'.routers {
        assert i in Added(w, e);
      }
    }
  }

  lemma Missing(w: World, e: Event) returns (i: nat)
    requires Permitted(w, e) && (e.attempt.NotAllocated? || e.attempt.Broken?)
    ensures i in Added(w, e) && i !in Routed(w, e) && 1 <= i <= e.deed.extents
  {
    i :| i in Added(w, e) && i !in Routed(w, e);
  }

  lemma OthersAlike(w: World, e: Event, pool: string, blob: string)
    requires Tidy(w) && Permitted(w, e) && pool in w.pools && blob in w.pools[pool].blobs && blob != e.blob
    ensures pool in Next(w, e).pools && blob in Next(w, e).pools[pool].blobs
    ensures Complete(Next(w, e), pool, blob) <==> Complete(w, pool, blob)
  {
    var w' := Next(w, e);
    forall i: nat ensures Extent(blob, i) in w'.routers <==> Extent(blob, i) in w.routers {
    }
  }

  // ---------- runs ----------

  predicate AllPermitted(w: World, events: seq<Event>)
    decreases |events|, 0
  {
    events == []
    || (AllPermitted(w, Front(events)) && Permitted(Run(w, Front(events)), events[|events| - 1]))
  }

  function Front(events: seq<Event>): seq<Event>
    requires events != []
  {
    events[..|events| - 1]
  }

  function Run(w: World, events: seq<Event>): World
    requires AllPermitted(w, events)
    decreases |events|, 1
  {
    if events == [] then w else Next(Run(w, Front(events)), events[|events| - 1])
  }

  /** No event on the blob broke off after its record was stored. */
  predicate NoneBroken(events: seq<Event>, blob: string)
  {
    forall i | 0 <= i < |events| && events[i].blob == blob ::
      !events[i].attempt.NotAllocated? && !events[i].attempt.Broken?
  }

  lemma NoneBrokenStep(events: seq<Event>, blob: string)
    requires events != []
    ensures var e := events[|events| - 1];
            NoneBroken(events, blob)
            <==> NoneBroken(Front(events), blob)
                 && (e.blob == blob ==> !e.attempt.NotAllocated? && !e.attempt.Broken?)
  {
  }

  predicate Blank(w: World)
  {
    w.routers == {} && forall p | p in w.pools :: w.pools[p].blobs == map[]
  }

  /** What a run from no blobs has made. */
  ghost predicate Made(w: World, events: seq<Event>)
  {
    && Tidy(w)
    && (forall p, b | p in w.pools && b in w.pools[p].blobs :: Complete(w, p, b) <==> NoneBroken(events, b))
    && (forall b :: (forall p | p in w.pools :: b !in w.pools[p].blobs) ==> NoneBroken(events, b))
  }

  lemma CompleteStep(w: World, events: seq<Event>, e: Event, p: string, b: string)
    requires events != [] && e == events[|events| - 1] && Made(w, Front(events)) && Permitted(w, e)
    requires p in Next(w, e).pools && b in Next(w, e).pools[p].blobs
    ensures Complete(Next(w, e), p, b) <==> NoneBroken(events, b)
  {
    NoneBrokenStep(events, b);
    if b != e.blob {
      OthersAlike(w, e, p, b);
    } else if !e.attempt.NotStored? {
      NextTidy(w, e);
      SameHome(Next(w, e), p, e.pool, b);
      EventCompletesIff(w, e);
    }
  }

  lemma MadeStep(w: World, events: seq<Event>, e: Event)
    requires events != [] && e == events[|events| - 1] && Made(w, Front(events)) && Permitted(w, e)
    ensures Made(Next(w, e), events)
  {
    var w' := Next(w, e);
    NextTidy(w, e);
    forall p, b | p in w'.pools && b in w'.pools[p].blobs ensures Complete(w', p, b) <==> NoneBroken(events, b) {
      CompleteStep(w, events, e, p, b);
    }
    forall b | forall p | p in w'.pools :: b !in w'.pools[p].blobs ensures NoneBroken(events, b) {
      NoneBrokenStep(events, b);
      assert e.pool in w'.pools;
      forall p | p in w.pools ensures b !in w.pools[p].blobs {
        assert p in w'.pools;
      }
    }
  }

  lemma SameHome(w: World, p: string, q: string, b: string)
    requires OneHome(w) && p in w.pools && q in w.pools && b in w.pools[p].blobs && b in w.pools[q].blobs
    ensures p == q
  {
  }

  /** After any run from no blobs, a blob has all its routers exactly if no event on it broke off. */
  lemma {:induction false} RunCompletesIff(w: World, events: seq<Event>)
    requires Blank(w) && AllPermitted(w, events)
    ensures Made(Run(w, events), events)
    decreases |events|
  {
    if events != [] {
      RunCompletesIff(w, Front(events));
      MadeStep(Run(w, Front(events)), events, events[|events| - 1]);
    }
  }

  lemma CompleteCollects(w: World, listing: Listing, pool: string, blob: string)
    requires Tidy(w) && ValidListing(listing) && pool in w.pools && blob in w.pools[pool].blobs
    ensures DeleteOneBlob(w, listing, pool, blob, true, NoFaults()).ok <==> Complete(w, pool, blob)
  {
    RemoteCollectsIff(w, listing, pool, blob);
  }

  /** So a blob can be collected with its remote space exactly if everything done to it was finished. */
  lemma CollectableIff(w: World, listing: Listing, events: seq<Event>, pool: string, blob: string)
    requires Blank(w) && AllPermitted(w, events) && ValidListing(listing)
    requires pool in Run(w, events).pools && blob in Run(w, events).pools[pool].blobs
    ensures DeleteOneBlob(Run(w, events), listing, pool, blob, true, NoFaults()).ok <==> NoneBroken(events, blob)
  {
    RunCompletesIff(w, events);
    CompleteCollects(Run(w, events), listing, pool, blob);
  }
}
