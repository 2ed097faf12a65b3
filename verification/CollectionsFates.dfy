/**
 Which requests need a collection id, and what becomes of them, said by their names and by
 what the cache holds.
 */
module CollectionsFates {
  import opened Wrappers
  import opened Sequences
  import opened Collections
  import opened CollectionsRuns
  import opened CollectionsConservation
  import opened CollectionsTheorems

  // Its collection is known without asking: it brings an id, names nothing, or names the
  // default collection.
  predicate KnowsCollection(r: Request) {
    || r.presetCid > 0
    || (r.scope == "" && r.collection == "")
    || (r.scope == "_default" && r.collection == "_default")
  }

  // ---------- What goes past the cache ----------

  ghost predicate OnlyKnownGoDirect(c: Component) {
    forall r :: r in c.direct ==> KnowsCollection(r)
  }

  lemma StepKeepsDirect(w: World, a: Action)
    requires Basic(w.c) && OnlyKnownGoDirect(w.c)
    ensures OnlyKnownGoDirect(Apply(w, a).c)
  {
    match a
    case DispatchAction(r, accepted) =>
      if !KnowsCollection(r) {
        DispatchGoes(w.c, r, accepted);
      }
    case TimerFires(i, accepted) =>
      if i < |w.c.timers| {
        RetryGoes(w.c.(timers := TakeOut(w.c.timers, i)), w.c.timers[i], accepted);
      }
    case _ =>
  }

  lemma {:induction false} RunKeepsDirect(w: World, run: seq<Action>)
    requires Basic(w.c) && OnlyKnownGoDirect(w.c)
    ensures OnlyKnownGoDirect(After(w, run).c)
  {
    if run != [] {
      RunKeepsDirect(w, run[..|run| - 1]);
      StepKeepsDirect(After(w, run[..|run| - 1]), run[|run| - 1]);
    }
  }

  /** In any run a request goes out without an id from the cache only if it came with one, has
      no name at all, or names the default collection in the default scope. */
  lemma DirectOnlyWithKnownCollection(w: World, r: Request)
    requires Reachable(w) && r in w.c.direct
    ensures r.presetCid > 0 || (r.scope == "" && r.collection == "")
            || (r.scope == "_default" && r.collection == "_default")
  {
    var repaired, maxQueue, run :| w == After(Start(repaired, maxQueue), run);
    RunKeepsDirect(Start(repaired, maxQueue), run);
  }

  lemma DirectExactlyWhenKnown(c: Component, r: Request)
    requires CacheValid(c)
    ensures Dispatch(c, r, true).direct == if KnowsCollection(r) then c.direct + [r] else c.direct
  {
    if !KnowsCollection(r) {
      DispatchGoes(c, r, true);
    }
  }

  // ---------- What goes through the cache ----------

  // The place of a name in the cache, the id and the queue that it has there.
  datatype Cached = Cached(e: nat, cid: nat, queue: seq<Request>)

  function CachedAs(c: Component, r: Request): Cached
    requires CacheValid(c)
  {
    var key := r.scope + "." + r.collection;
    if key in c.cache then Cached(c.cache[key], c.entries[c.cache[key]].cid, c.entries[c.cache[key]].queue)
    else Cached(|c.entries|, 0xffff_ffff, [])
  }

  // It waits in its entry, unless that is full; if the id is unknown it asks the server, and
  // the id is pending then.
  ghost predicate Waits(c: Component, d: Component, at: Cached, r: Request, accepted: bool, error: Option<Error>) {
    var full := c.maxQueue > 0 && |at.queue| >= c.maxQueue;
    var asks := at.cid == 0xffff_ffff && !full;
    && at.e < |d.entries| && d.sent == c.sent && d.direct == c.direct
    && d.entries[at.e].queue == (if full then at.queue else at.queue + [r])
    && d.entries[at.e].cid == (if asks && accepted then 0xffff_fffe else at.cid)
    && d.lookups == c.lookups + (if asks && accepted then [Lookup(at.e, r)] else [])
    && error == (if full then Some(QueueFull) else if asks && !accepted then Some(DispatchError) else None)
  }

  // It is sent with the cached id, if that can be put into it and the dispatcher takes it.
  ghost predicate Leaves(c: Component, d: Component, at: Cached, r: Request, accepted: bool, error: Option<Error>) {
    && at.e < |d.entries| && d.entries == c.entries && d.direct == c.direct && d.lookups == c.lookups
    && d.sent == c.sent + (if r.parses && accepted then [Sent(r, at.cid)] else [])
    && error == if !r.parses then Some(ParsingFailure) else if !accepted then Some(DispatchError) else None
  }

  function Told(r: Request, error: Option<Error>): seq<(Request, Error)> {
    if error.Some? then [(r, error.value)] else []
  }

  /** Every other request goes through the entry of its joined name: it waits there while the id
      is unknown or pending, and leaves with the id otherwise; every refusal has its error. */
  lemma DispatchGoes(c: Component, r: Request, accepted: bool)
    requires CacheValid(c) && !KnowsCollection(r)
    ensures var d, at := Dispatch(c, r, accepted), CachedAs(c, r);
            && r.scope + "." + r.collection in d.cache && d.cache[r.scope + "." + r.collection] == at.e
            && exists error ::
                 && d.refused == c.refused + Told(r, error)
                 && if at.cid in {0xffff_ffff, 0xffff_fffe} then Waits(c, d, at, r, accepted, error)
                    else Leaves(c, d, at, r, accepted, error)
  {
    var inserted := Insert(c, r.Key(), UNKNOWN_COLLECTION_ID);
    var e := inserted.cache[r.Key()];
    DispatchIsRefusing(c, r, accepted);
    ThroughEntry(inserted, e, r, accepted);
    SameWay(c, inserted, EntryDispatch(inserted, e, r, accepted).0, Dispatch(c, r, accepted), CachedAs(c, r), r,
            accepted, EntryDispatch(inserted, e, r, accepted).1);
    assert Dispatch(c, r, accepted).refused == c.refused + Told(r, EntryDispatch(inserted, e, r, accepted).1);
  }

  lemma ThroughEntry(c: Component, e: nat, r: Request, accepted: bool)
    requires e < |c.entries|
    ensures var (d, error) := EntryDispatch(c, e, r, accepted);
            var at := Cached(e, c.entries[e].cid, c.entries[e].queue);
            && d.cache == c.cache && d.refused == c.refused && d.called == c.called
            && if at.cid in {0xffff_ffff, 0xffff_fffe} then Waits(c, d, at, r, accepted, error)
               else Leaves(c, d, at, r, accepted, error)
  {
  }

  // Whether the entry was just inserted, and where the error is told, makes no difference.
  lemma SameWay(c: Component, inserted: Component, d: Component, last: Component, at: Cached, r: Request,
                accepted: bool, error: Option<Error>)
    requires inserted == c.(entries := inserted.entries, cache := inserted.cache) && at.e < |inserted.entries|
    requires last == d.(refused := last.refused, called := last.called)
    ensures Waits(inserted, d, at, r, accepted, error) ==> Waits(c, last, at, r, accepted, error)
    ensures Leaves(inserted, d, at, r, accepted, error) && inserted.entries == c.entries ==>
              Leaves(c, last, at, r, accepted, error)
  {
  }

  /** A retry goes through the same entry. An id that is known has to be looked up again, so it
      always waits; an error goes to its callback. */
  lemma RetryGoes(c: Component, r: Request, accepted: bool)
    requires CacheValid(c)
    ensures var d, at := ReQueue(c, r, accepted), CachedAs(c, r);
            var asking := if at.cid == 0xffff_fffe then at else at.(cid := 0xffff_ffff);
            && r.scope + "." + r.collection in d.cache && d.cache[r.scope + "." + r.collection] == at.e
            && exists error :: d.called == c.called + Told(r, error) && Waits(c, d, asking, r, accepted, error)
  {
    var inserted := Insert(c, r.Key(), UNKNOWN_COLLECTION_ID);
    var e := inserted.cache[r.Key()];
    ReQueueIsCallingBack(c, r, accepted);
    ResetGoes(c, ResetId(inserted, e), e, r, accepted, ReQueue(c, r, accepted));
  }

  lemma ResetGoes(c: Component, ready: Component, e: nat, r: Request, accepted: bool, d: Component)
    requires ready == c.(entries := ready.entries, cache := ready.cache) && e < |ready.entries|
    requires ready.entries[e].cid in {0xffff_ffff, 0xffff_fffe} && d == CallingBack(ready, e, r, accepted)
    ensures d.cache == ready.cache
    ensures exists error ::
              && d.called == c.called + Told(r, error)
              && Waits(c, d, Cached(e, ready.entries[e].cid, ready.entries[e].queue), r, accepted, error)
  {
    var at := Cached(e, ready.entries[e].cid, ready.entries[e].queue);
    var (passed, error) := EntryDispatch(ready, e, r, accepted);
    ThroughEntry(ready, e, r, accepted);
    SameWay(c, ready, passed, d, at, r, accepted, error);
    assert d.called == c.called + Told(r, error);
  }

  // ---------- What is asked, and what an answer does ----------

  /** A lookup asks for the names as given, with the default ones in place of empty ones. */
  lemma LookupAsksFor(r: Request)
    ensures r.scope != "" && r.collection != "" ==> r.LookupKey() == r.scope + "." + r.collection
    ensures r.scope == "" && r.collection != "" ==> r.LookupKey() == "_default" + "." + r.collection
    ensures r.scope != "" && r.collection == "" ==> r.LookupKey() == r.scope + "." + "_default"
  {
  }

  lemma {:induction false} CallAllTellsEach(queue: seq<Request>, error: Error)
    ensures |CallAll(queue, error)| == |queue|
    ensures forall i :: 0 <= i < |queue| ==> CallAll(queue, error)[i] == (queue[i], error)
  {
    if queue != [] {
      CallAllTellsEach(queue[..|queue| - 1], error);
    }
  }

  /** The answer puts its id under the looked-up names, and nowhere else; the next request of
      these names carries it, unless it is one of the two ids that are never given out. */
  lemma SuccessSetsId(c: Component, l: Lookup, cid: nat, q: Request)
    requires CacheValid(c) && l.entry < |c.entries|
    requires !KnowsCollection(q) && q.Key() == l.request.LookupKey() && q.parses
    ensures var d := LookupSucceeded(c, l, cid);
            && (forall k :: k in c.cache && k != q.Key() ==> k in d.cache && d.cache[k] == c.cache[k])
            && (forall k :: k in c.cache && k in d.cache && k != q.Key() && c.cache[k] != d.cache[q.Key()] ==>
                  d.entries[d.cache[k]].cid == c.entries[c.cache[k]].cid)
            && CacheValid(d) && CachedAs(d, q).cid == cid
            && (Dispatch(d, q, true).sent == d.sent + [Sent(q, cid)] <==> cid !in {0xffff_ffff, 0xffff_fffe})
  {
    var d := LookupSucceeded(c, l, cid);
    DispatchGoes(d, q, true);
  }

  /** A failure is told to every waiter, in their order, and the entry is forgotten; except
      that, if remove() works, a missing collection is asked for again by the request that asked,
      and the others go on waiting, if it has both names. One that lacks a name is not told. */
  lemma FailureTells(c: Component, l: Lookup, error: Error)
    requires l.entry < |c.entries|
    ensures var d, queue := LookupFailed(c, l, error), c.entries[l.entry].queue;
            var removed := error == CollectionNotFound && c.repaired && l.request in queue;
            var waiters := if removed then Without(queue, l.request) else queue;
            && d.direct == c.direct && d.sent == c.sent && d.refused == c.refused && d.lookups == c.lookups
            && if removed && l.request.scope != "" && l.request.collection != "" then
                 && d.called == c.called && d.cache == c.cache && d.timers == c.timers + [l.request]
                 && d.entries[l.entry] == c.entries[l.entry].(cid := 0xffff_ffff, queue := waiters)
               else
                 && d.timers == c.timers && d.cache == c.cache - {l.request.Key()} && d.entries[l.entry].queue == []
                 && d.entries[l.entry].cid
                    == (if error == CollectionNotFound then 0xffff_ffff else c.entries[l.entry].cid)
                 && |d.called| == |c.called| + |waiters| && d.called[..|c.called|] == c.called
                 && forall i :: 0 <= i < |waiters| ==> d.called[|c.called| + i] == (waiters[i], error)
  {
    var queue := c.entries[l.entry].queue;
    CallAllTellsEach(queue, error);
    CallAllTellsEach(Without(queue, l.request), error);
  }
}
