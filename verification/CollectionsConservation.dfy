/**
 No request is lost or doubled by the collection-id cache: each accepted request is in
 exactly one place.
 */
module CollectionsConservation {
  import opened Wrappers
  import opened Sequences
  import opened Collections
  import opened CollectionsRuns

  // ---------- Counting ----------

  function Requests(sent: seq<Sent>): seq<Request> {
    seq(|sent|, i requires 0 <= i < |sent| => sent[i].request)
  }

  function Ended(called: seq<(Request, Error)>): seq<Request> {
    seq(|called|, i requires 0 <= i < |called| => called[i].0)
  }

  lemma RequestsAppend(a: seq<Sent>, b: seq<Sent>)
    ensures Requests(a + b) == Requests(a) + Requests(b)
  {
  }

  lemma EndedAppend(a: seq<(Request, Error)>, b: seq<(Request, Error)>)
    ensures Ended(a + b) == Ended(a) + Ended(b)
  {
  }

  function Queued(entries: seq<Entry>, r: Request): nat {
    if entries == [] then 0
    else Queued(entries[..|entries| - 1], r) + Count(entries[|entries| - 1].queue, r)
  }

  lemma {:induction false} QueuedAfterUpdate(entries: seq<Entry>, e: nat, entry: Entry, r: Request)
    requires e < |entries|
    ensures Queued(entries[e := entry], r) == Queued(entries, r) - Count(entries[e].queue, r) + Count(entry.queue, r)
  {
    var last := |entries| - 1;
    if e < last {
      assert entries[e := entry][..last] == entries[..last][e := entry];
      QueuedAfterUpdate(entries[..last], e, entry, r);
    } else {
      assert entries[e := entry][..last] == entries[..last];
    }
  }

  lemma QueuedAfterNew(entries: seq<Entry>, key: Key, cid: nat, r: Request)
    ensures Queued(entries + [Entry(key, cid, [])], r) == Queued(entries, r)
  {
    assert (entries + [Entry(key, cid, [])])[..|entries|] == entries;
  }

  // ---------- The places of a request ----------

  // How many places hold r: entry queues, retry timers, the dispatcher (directly or with a
  // collection id), called back, or refused when it came.
  function Places(c: Component, r: Request): nat {
    Queued(c.entries, r) + Count(c.timers, r) + Count(c.direct, r) + Count(Requests(c.sent), r)
    + Count(Ended(c.called), r) + Count(Ended(c.refused), r) + Count(c.dropped, r)
  }

  lemma {:induction false} EveryWaiterLeaves(queue: seq<Request>, cid: nat, r: Request)
    ensures Count(Requests(SendAll(queue, cid)), r) + Count(Unparsable(queue), r) == Count(queue, r)
  {
    if queue != [] {
      var n := |queue| - 1;
      EveryWaiterLeaves(queue[..n], cid, r);
      assert queue == queue[..n] + [queue[n]];
      CountAppend(queue[..n], [queue[n]], r);
      LastWaiterLeaves(SendAll(queue[..n], cid), Unparsable(queue[..n]), queue[n], cid, r);
    }
  }

  lemma LastWaiterLeaves(sent: seq<Sent>, dropped: seq<Request>, q: Request, cid: nat, r: Request)
    ensures Count(Requests(sent + if q.parses then [Sent(q, cid)] else []), r)
          + Count(dropped + if q.parses then [] else [q], r)
         == Count(Requests(sent), r) + Count(dropped, r) + Count([q], r)
  {
    if q.parses {
      RequestsAppend(sent, [Sent(q, cid)]);
      assert Requests([Sent(q, cid)]) == [q];
      assert dropped + [] == dropped;
    } else {
      assert sent + [] == sent;
    }
  }

  lemma {:induction false} EveryWaiterIsCalled(queue: seq<Request>, error: Error)
    ensures Ended(CallAll(queue, error)) == queue
  {
    if queue != [] {
      var n := |queue| - 1;
      EveryWaiterIsCalled(queue[..n], error);
      assert queue == queue[..n] + [queue[n]];
      EndedAppend(CallAll(queue[..n], error), [(queue[n], error)]);
    }
  }

  lemma InsertKeepsPlaces(c: Component, key: Key, cid: nat, r: Request)
    ensures Places(Insert(c, key, cid), r) == Places(c, r)
  {
    QueuedAfterNew(c.entries, key, cid, r);
  }

  lemma SetIdKeepsPlaces(c: Component, e: nat, cid: nat, r: Request)
    requires e < |c.entries|
    ensures Places(SetId(c, e, cid), r) == Places(c, r)
  {
    QueuedAfterUpdate(c.entries, e, c.entries[e].(cid := cid), r);
  }

  lemma SetQueuePlaces(c: Component, e: nat, queue: seq<Request>, r: Request)
    requires e < |c.entries|
    ensures Places(SetQueue(c, e, queue), r) == Places(c, r) - Count(c.entries[e].queue, r) + Count(queue, r)
  {
    QueuedAfterUpdate(c.entries, e, c.entries[e].(queue := queue), r);
  }

  // A dispatch through an entry puts the request into one place, or returns an error and
  // puts it nowhere, unless the lookup cannot be sent: then it does both.
  lemma EntryDispatchPlaces(c: Component, e: nat, q: Request, accepted: bool, r: Request)
    requires e < |c.entries|
    ensures var (d, error) := EntryDispatch(c, e, q, accepted);
            Places(d, r) == Places(c, r) +
              (if q != r then 0 else if error.None? then 1
               else if error == Some(DispatchError) && c.entries[e].cid == UNKNOWN_COLLECTION_ID then 1 else 0)
  {
    var entry := c.entries[e];
    if entry.cid == UNKNOWN_COLLECTION_ID || entry.cid == PENDING_COLLECTION_ID {
      if !IsFull(c, entry.queue) {
        QueuePlaces(c, e, q, r);
      }
    } else {
      SendPlaces(c, q, entry.cid, r);
    }
  }

  lemma QueuePlaces(c: Component, e: nat, q: Request, r: Request)
    requires e < |c.entries|
    ensures var queued := SetQueue(c, e, c.entries[e].queue + [q]);
            var n := Places(c, r) + if q == r then 1 else 0;
            && Places(queued, r) == n
            && Places(SetId(queued, e, PENDING_COLLECTION_ID).(lookups := c.lookups + [Lookup(e, q)]), r) == n
  {
    var queued := SetQueue(c, e, c.entries[e].queue + [q]);
    SetQueuePlaces(c, e, c.entries[e].queue + [q], r);
    CountAppend(c.entries[e].queue, [q], r);
    SetIdKeepsPlaces(queued, e, PENDING_COLLECTION_ID, r);
  }

  lemma SendPlaces(c: Component, q: Request, cid: nat, r: Request)
    ensures Places(c.(sent := c.sent + [Sent(q, cid)]), r) == Places(c, r) + if q == r then 1 else 0
  {
    RequestsAppend(c.sent, [Sent(q, cid)]);
    assert Requests([Sent(q, cid)]) == [q];
    CountAppend(Requests(c.sent), [q], r);
  }

  function Refuse(c: Component, q: Request, error: Option<Error>): Component {
    if error.Some? then c.(refused := c.refused + [(q, error.value)]) else c
  }

  function CallBack(c: Component, q: Request, error: Option<Error>): Component {
    if error.Some? then c.(called := c.called + [(q, error.value)]) else c
  }

  lemma RefusePlaces(c: Component, q: Request, error: Option<Error>, r: Request)
    ensures Places(Refuse(c, q, error), r) == Places(c, r) + (if q == r && error.Some? then 1 else 0)
  {
    if error.Some? {
      EndedAppend(c.refused, [(q, error.value)]);
      assert Ended([(q, error.value)]) == [q];
      CountAppend(Ended(c.refused), [q], r);
    }
  }

  lemma CallBackPlaces(c: Component, q: Request, error: Option<Error>, r: Request)
    ensures Places(CallBack(c, q, error), r) == Places(c, r) + (if q == r && error.Some? then 1 else 0)
  {
    if error.Some? {
      EndedAppend(c.called, [(q, error.value)]);
      assert Ended([(q, error.value)]) == [q];
      CountAppend(Ended(c.called), [q], r);
    }
  }

  // What becomes of a request that goes through an entry, and of the error if there is one.
  function Refusing(c: Component, e: nat, q: Request, accepted: bool): Component
    requires e < |c.entries|
  {
    Refuse(EntryDispatch(c, e, q, accepted).0, q, EntryDispatch(c, e, q, accepted).1)
  }

  function CallingBack(c: Component, e: nat, q: Request, accepted: bool): Component
    requires e < |c.entries|
  {
    CallBack(EntryDispatch(c, e, q, accepted).0, q, EntryDispatch(c, e, q, accepted).1)
  }

  lemma DispatchIsRefusing(c: Component, q: Request, accepted: bool)
    requires CacheValid(c) && !q.NeedsNoLookup()
    ensures var inserted := Insert(c, q.Key(), UNKNOWN_COLLECTION_ID);
            Dispatch(c, q, accepted) == Refusing(inserted, inserted.cache[q.Key()], q, accepted)
  {
  }

  lemma ReQueueIsCallingBack(c: Component, q: Request, accepted: bool)
    requires CacheValid(c)
    ensures var inserted := Insert(c, q.Key(), UNKNOWN_COLLECTION_ID);
            var e := inserted.cache[q.Key()];
            ReQueue(c, q, accepted) == CallingBack(ResetId(inserted, e), e, q, accepted)
  {
  }

  ghost predicate StuckAt(c: Component, e: nat, accepted: bool)
    requires e < |c.entries|
  {
    c.entries[e].cid == UNKNOWN_COLLECTION_ID && !IsFull(c, c.entries[e].queue) && !accepted
  }

  lemma ThroughEntryPlaces(c: Component, e: nat, q: Request, accepted: bool, r: Request)
    requires e < |c.entries|
    ensures var more := if q != r then 0 else if StuckAt(c, e, accepted) then 2 else 1;
            && Places(Refusing(c, e, q, accepted), r) == Places(c, r) + more
            && Places(CallingBack(c, e, q, accepted), r) == Places(c, r) + more
  {
    EntryDispatchPlaces(c, e, q, accepted, r);
    var d, error := EntryDispatch(c, e, q, accepted).0, EntryDispatch(c, e, q, accepted).1;
    RefusePlaces(d, q, error, r);
    CallBackPlaces(d, q, error, r);
  }

  lemma DirectPlaces(c: Component, q: Request, accepted: bool, r: Request)
    requires CacheValid(c) && q.NeedsNoLookup()
    ensures Places(Dispatch(c, q, accepted), r) == Places(c, r) + if q == r then 1 else 0
  {
    CountAppend(c.direct, [q], r);
    RefusePlaces(c, q, Some(DispatchError), r);
  }

  lemma DispatchPlaces(c: Component, q: Request, accepted: bool, r: Request)
    requires CacheValid(c)
    ensures Places(Dispatch(c, q, accepted), r) == Places(c, r) +
              (if q != r then 0 else if LookupCannotBeSent(c, q, accepted) then 2 else 1)
  {
    if q.NeedsNoLookup() {
      DirectPlaces(c, q, accepted, r);
    } else {
      var inserted := Insert(c, q.Key(), UNKNOWN_COLLECTION_ID);
      InsertKeepsPlaces(c, q.Key(), UNKNOWN_COLLECTION_ID, r);
      ThroughEntryPlaces(inserted, inserted.cache[q.Key()], q, accepted, r);
      DispatchIsRefusing(c, q, accepted);
      StuckWhenLookupCannotBeSent(c, q, accepted);
    }
  }

  lemma StuckWhenLookupCannotBeSent(c: Component, q: Request, accepted: bool)
    requires CacheValid(c) && !q.NeedsNoLookup()
    ensures var inserted := Insert(c, q.Key(), UNKNOWN_COLLECTION_ID);
            StuckAt(inserted, inserted.cache[q.Key()], accepted) == LookupCannotBeSent(c, q, accepted)
  {
  }

  lemma FiredPlaces(c: Component, i: nat, r: Request)
    requires i < |c.timers|
    ensures Places(c.(timers := TakeOut(c.timers, i)), r) == Places(c, r) - if c.timers[i] == r then 1 else 0
  {
    CountTakeOut(c.timers, i, r);
  }

  lemma ReQueuePlaces(c: Component, i: nat, accepted: bool, r: Request)
    requires CacheValid(c) && i < |c.timers|
    ensures Places(ReQueue(c.(timers := TakeOut(c.timers, i)), c.timers[i], accepted), r)
         == Places(c, r) + if c.timers[i] == r && AsksServer(c, r.Key(), true) && !accepted then 1 else 0
  {
    var q := c.timers[i];
    FiredPlaces(c, i, r);
    var fired := c.(timers := TakeOut(c.timers, i));
    var inserted := Insert(fired, q.Key(), UNKNOWN_COLLECTION_ID);
    InsertKeepsPlaces(fired, q.Key(), UNKNOWN_COLLECTION_ID, r);
    var e := inserted.cache[q.Key()];
    ResetKeepsPlaces(inserted, e, r);
    ThroughEntryPlaces(ResetId(inserted, e), e, q, accepted, r);
    ReQueueIsCallingBack(fired, q, accepted);
    StuckAfterReset(c, i, accepted);
  }

  lemma ResetKeepsPlaces(c: Component, e: nat, r: Request)
    requires e < |c.entries|
    ensures Places(ResetId(c, e), r) == Places(c, r)
  {
    SetIdKeepsPlaces(c, e, UNKNOWN_COLLECTION_ID, r);
  }

  lemma StuckAfterReset(c: Component, i: nat, accepted: bool)
    requires CacheValid(c) && i < |c.timers|
    ensures var inserted := Insert(c.(timers := TakeOut(c.timers, i)), c.timers[i].Key(), UNKNOWN_COLLECTION_ID);
            var e := inserted.cache[c.timers[i].Key()];
            StuckAt(ResetId(inserted, e), e, accepted) == (AsksServer(c, c.timers[i].Key(), true) && !accepted)
  {
  }

  lemma SuccessPlaces(c: Component, l: Lookup, cid: nat, r: Request)
    requires CacheValid(c) && l.entry < |c.entries|
    ensures Places(LookupSucceeded(c, l, cid), r) == Places(c, r)
  {
    var key := l.request.LookupKey();
    var named := c.(latest := c.latest[key := cid]);
    var d := Upsert(c, key, cid);
    UpsertPlaces(c, key, cid, r);
    var entry := d.entries[l.entry];
    SetQueuePlaces(d, l.entry, [], r);
    EveryWaiterLeaves(entry.queue, entry.cid, r);
    RequestsAppend(d.sent, SendAll(entry.queue, entry.cid));
    CountAppend(Requests(d.sent), Requests(SendAll(entry.queue, entry.cid)), r);
    CountAppend(d.dropped, Unparsable(entry.queue), r);
  }

  lemma UpsertPlaces(c: Component, key: Key, cid: nat, r: Request)
    requires CacheValid(c)
    ensures Places(Upsert(c, key, cid), r) == Places(c, r)
  {
    var named := c.(latest := c.latest[key := cid]);
    if key in c.cache {
      SetIdKeepsPlaces(named, c.cache[key], cid, r);
    } else {
      InsertKeepsPlaces(named, key, cid, r);
    }
  }

  lemma DrainPlaces(c: Component, l: Lookup, error: Error, r: Request)
    requires l.entry < |c.entries|
    ensures Places(DrainWithError(c, l, error), r) == Places(c, r)
  {
    var queue := c.entries[l.entry].queue;
    var removed := Remove(c, l.request.Key());
    SetQueuePlaces(removed, l.entry, [], r);
    EveryWaiterIsCalled(queue, error);
    EndedAppend(c.called, CallAll(queue, error));
    CountAppend(Ended(c.called), queue, r);
  }

  // With a remove() that works, a request that cannot be retried is taken from the queue and
  // then forgotten.
  lemma FailurePlaces(c: Component, l: Lookup, error: Error, r: Request)
    requires l.entry < |c.entries|
    ensures Places(LookupFailed(c, l, error), r)
         == Places(c, r) - (if Forgets(c, l, error) && r == l.request then 1 else 0)
  {
    var q := l.request;
    if error == CollectionNotFound {
      var unknown := SetId(c, l.entry, UNKNOWN_COLLECTION_ID);
      SetIdKeepsPlaces(c, l.entry, UNKNOWN_COLLECTION_ID, r);
      var queue := unknown.entries[l.entry].queue;
      if c.repaired && q in queue {
        var i := IndexOf(queue, q);
        assert Without(queue, q) == TakeOut(queue, i);
        CountTakeOut(queue, i, r);
        var without := SetQueue(unknown, l.entry, Without(queue, q));
        SetQueuePlaces(unknown, l.entry, Without(queue, q), r);
        if Retries(q) {
          CountAppend(without.timers, [q], r);
        } else {
          DrainPlaces(without, l, error, r);
        }
      } else {
        DrainPlaces(unknown, l, error, r);
      }
    } else {
      DrainPlaces(c, l, error, r);
    }
  }
}
