/**
 What every run of the collection-id cache keeps, from the empty cache on.
 */
module CollectionsTheorems {
  import opened Wrappers
  import opened Sequences
  import opened Collections
  import opened CollectionsRuns
  import opened CollectionsSteps
  import opened CollectionsConservation

  // ---------- What holds of every key ----------

  lemma InsertKeepsBasic(c: Component, key: Key)
    requires Basic(c)
    ensures Basic(Insert(c, key, UNKNOWN_COLLECTION_ID))
  {
  }

  // An entry may lose its id, and its queue may become another one that fits.
  lemma EntryKeepsBasic(c: Component, e: nat, entry: Entry)
    requires Basic(c) && e < |c.entries| && entry.key == c.entries[e].key && EntryFits(entry, c.maxQueue)
    requires Sentinel(entry.cid) || entry.cid == c.entries[e].cid
    ensures Basic(c.(entries := c.entries[e := entry]))
  {
  }

  lemma NewLookupKeepsBasic(c: Component, l: Lookup)
    requires Basic(c) && l.entry < |c.entries| && c.entries[l.entry].key == l.request.Key()
    ensures Basic(c.(lookups := c.lookups + [l]))
  {
  }

  // What Basic does not speak of.
  lemma RecordsKeepBasic(c: Component, d: Component)
    requires Basic(c)
    requires d == c.(sent := d.sent, called := d.called, refused := d.refused, dropped := d.dropped, direct := d.direct)
    ensures Basic(d)
  {
  }

  lemma QueueingFits(c: Component, e: nat, r: Request)
    requires Basic(c) && e < |c.entries| && c.entries[e].key == r.Key() && !IsFull(c, c.entries[e].queue)
    ensures EntryFits(c.entries[e].(queue := c.entries[e].queue + [r]), c.maxQueue)
  {
    assert EntryFits(c.entries[e], c.maxQueue);
  }

  lemma EntryDispatchKeepsBasic(c: Component, e: nat, r: Request, accepted: bool)
    requires Basic(c) && e < |c.entries| && c.entries[e].key == r.Key()
    ensures Basic(EntryDispatch(c, e, r, accepted).0)
  {
    var entry := c.entries[e];
    if Sentinel(entry.cid) {
      if !IsFull(c, entry.queue) {
        var longer := entry.(queue := entry.queue + [r]);
        QueueingFits(c, e, r);
        EntryKeepsBasic(c, e, longer);
        if entry.cid == UNKNOWN_COLLECTION_ID && accepted {
          var queued := SetQueue(c, e, longer.queue);
          EntryKeepsBasic(queued, e, longer.(cid := PENDING_COLLECTION_ID));
          NewLookupKeepsBasic(SetId(queued, e, PENDING_COLLECTION_ID), Lookup(e, r));
        }
      }
    } else {
      RecordsKeepBasic(c, EntryDispatch(c, e, r, accepted).0);
    }
  }

  lemma ThroughEntryKeepsBasic(c: Component, e: nat, r: Request, accepted: bool)
    requires Basic(c) && e < |c.entries| && c.entries[e].key == r.Key()
    ensures Basic(Refusing(c, e, r, accepted)) && Basic(CallingBack(c, e, r, accepted))
  {
    EntryDispatchKeepsBasic(c, e, r, accepted);
    RecordsKeepBasic(EntryDispatch(c, e, r, accepted).0, Refusing(c, e, r, accepted));
    RecordsKeepBasic(EntryDispatch(c, e, r, accepted).0, CallingBack(c, e, r, accepted));
  }

  lemma DispatchKeepsBasic(c: Component, r: Request, accepted: bool)
    requires Basic(c)
    ensures Basic(Dispatch(c, r, accepted))
  {
    if r.NeedsNoLookup() {
      RecordsKeepBasic(c, Dispatch(c, r, accepted));
    } else {
      var inserted := Insert(c, r.Key(), UNKNOWN_COLLECTION_ID);
      InsertKeepsBasic(c, r.Key());
      DispatchIsRefusing(c, r, accepted);
      ThroughEntryKeepsBasic(inserted, inserted.cache[r.Key()], r, accepted);
    }
  }

  lemma ReQueueKeepsBasic(c: Component, i: nat, accepted: bool)
    requires Basic(c) && i < |c.timers|
    ensures Basic(ReQueue(c.(timers := TakeOut(c.timers, i)), c.timers[i], accepted))
  {
    var r := c.timers[i];
    var fired := c.(timers := TakeOut(c.timers, i));
    var inserted := Insert(fired, r.Key(), UNKNOWN_COLLECTION_ID);
    InsertKeepsBasic(fired, r.Key());
    var e := inserted.cache[r.Key()];
    ResetKeepsBasic(inserted, e);
    ReQueueIsCallingBack(fired, r, accepted);
    ThroughEntryKeepsBasic(ResetId(inserted, e), e, r, accepted);
  }

  lemma ResetKeepsBasic(c: Component, e: nat)
    requires Basic(c) && e < |c.entries|
    ensures Basic(ResetId(c, e)) && ResetId(c, e).entries[e].key == c.entries[e].key
  {
    assert EntryFits(c.entries[e], c.maxQueue);
  }

  lemma UpsertKeepsBasic(c: Component, key: Key, cid: nat)
    requires Basic(c)
    ensures Basic(Upsert(c, key, cid))
  {
    var named := c.(latest := c.latest[key := cid]);
    if key in c.cache {
      var e := c.cache[key];
      assert EntryFits(c.entries[e], c.maxQueue);
      assert Upsert(c, key, cid) == named.(entries := c.entries[e := c.entries[e].(cid := cid)]);
    } else {
      assert Upsert(c, key, cid)
          == named.(entries := c.entries + [Entry(key, cid, [])], cache := c.cache[key := |c.entries|]);
    }
  }

  lemma EmptyQueueKeepsBasic(c: Component, e: nat)
    requires Basic(c) && e < |c.entries|
    ensures Basic(SetQueue(c, e, []))
  {
  }

  lemma TakenKeepsBasic(c: Component, i: nat)
    requires Basic(c) && i < |c.lookups|
    ensures Basic(c.(lookups := TakeOut(c.lookups, i)))
  {
    var rest := TakeOut(c.lookups, i);
    forall j | 0 <= j < |rest|
      ensures rest[j].entry < |c.entries| && c.entries[rest[j].entry].key == rest[j].request.Key()
    {
      assert rest[j] == c.lookups[if j < i then j else j + 1];
    }
  }

  lemma SuccessKeepsBasic(c: Component, l: Lookup, cid: nat)
    requires Basic(c) && l.entry < |c.entries|
    ensures Basic(LookupSucceeded(c, l, cid))
  {
    UpsertKeepsBasic(c, l.request.LookupKey(), cid);
    EmptyQueueKeepsBasic(Upsert(c, l.request.LookupKey(), cid), l.entry);
  }

  lemma FailureKeepsBasic(c: Component, l: Lookup, error: Error)
    requires Basic(c) && l.entry < |c.entries|
    ensures Basic(LookupFailed(c, l, error))
  {
    var entry, d := c.entries[l.entry], LookupFailed(c, l, error);
    FailureIsOneOf(c, l, error);
    if c.repaired && error == CollectionNotFound && l.request in entry.queue && Retries(l.request) {
      var shorter := entry.(cid := UNKNOWN_COLLECTION_ID, queue := Without(entry.queue, l.request));
      WithoutFits(c, l);
      EntryKeepsBasic(c, l.entry, shorter);
    } else {
      var cid := if error == CollectionNotFound then UNKNOWN_COLLECTION_ID else entry.cid;
      var drained := entry.(cid := cid, queue := []);
      EntryKeepsBasic(c, l.entry, drained);
      RemoveKeepsBasic(c.(entries := c.entries[l.entry := drained]), l.request.Key());
      RecordsKeepBasic(Remove(c.(entries := c.entries[l.entry := drained]), l.request.Key()), d);
    }
  }

  lemma RemoveKeepsBasic(c: Component, key: Key)
    requires Basic(c)
    ensures Basic(Remove(c, key))
  {
  }

  lemma WithoutFits(c: Component, l: Lookup)
    requires Basic(c) && l.entry < |c.entries|
    ensures EntryFits(c.entries[l.entry].(cid := UNKNOWN_COLLECTION_ID,
                                          queue := Without(c.entries[l.entry].queue, l.request)), c.maxQueue)
  {
    assert EntryFits(c.entries[l.entry], c.maxQueue);
  }

  lemma StepKeepsBasic(w: World, a: Action)
    requires Basic(w.c)
    ensures Basic(Apply(w, a).c)
  {
    match a
    case DispatchAction(r, accepted) => DispatchKeepsBasic(w.c, r, accepted);
    case LookupSucceeds(i, cid) =>
      if Answered(w.c, i).Some? {
        TakenKeepsBasic(w.c, i);
        SuccessKeepsBasic(w.c.(lookups := TakeOut(w.c.lookups, i)), w.c.lookups[i], cid);
      }
    case LookupFails(i, error) =>
      if Answered(w.c, i).Some? {
        TakenKeepsBasic(w.c, i);
        FailureKeepsBasic(w.c.(lookups := TakeOut(w.c.lookups, i)), w.c.lookups[i], error);
      }
    case TimerFires(i, accepted) => if i < |w.c.timers| { ReQueueKeepsBasic(w.c, i, accepted); }
    case OutsideLookup(key, cid) => UpsertKeepsBasic(w.c, key, cid);
  }

  // ---------- Counting the places ----------

  // Each accepted request is in one place; one more for each time it was refused or called
  // back and queued at once, one less if it was forgotten.
  ghost predicate Balanced(w: World, r: Request) {
    Places(w.c, r) + Count(w.forgotten, r) == Count(w.accepted, r) + Count(w.doubled, r)
  }

  lemma StepKeepsBalance(w: World, a: Action, r: Request)
    requires Basic(w.c) && Balanced(w, r)
    ensures Balanced(Apply(w, a), r)
  {
    var v := Apply(w, a);
    HistoryCounts(w, a, r);
    match a
    case DispatchAction(q, accepted) => if NewId(w, q) { DispatchPlaces(w.c, q, accepted, r); }
    case LookupSucceeds(i, cid) =>
      if Answered(w.c, i).Some? { AnswerSucceedsPlaces(w.c, i, cid, r); }
    case LookupFails(i, error) =>
      if Answered(w.c, i).Some? { AnswerFailsPlaces(w.c, i, error, r); }
    case TimerFires(i, accepted) => if i < |w.c.timers| { ReQueuePlaces(w.c, i, accepted, r); }
    case OutsideLookup(key, cid) => UpsertPlaces(w.c, key, cid, r);
  }

  lemma AnswerSucceedsPlaces(c: Component, i: nat, cid: nat, r: Request)
    requires CacheValid(c) && i < |c.lookups| && c.lookups[i].entry < |c.entries|
    ensures Places(LookupSucceeded(c.(lookups := TakeOut(c.lookups, i)), c.lookups[i], cid), r) == Places(c, r)
  {
    SuccessPlaces(c.(lookups := TakeOut(c.lookups, i)), c.lookups[i], cid, r);
  }

  lemma AnswerFailsPlaces(c: Component, i: nat, error: Error, r: Request)
    requires i < |c.lookups| && c.lookups[i].entry < |c.entries|
    ensures Places(LookupFailed(c.(lookups := TakeOut(c.lookups, i)), c.lookups[i], error), r)
         == Places(c, r) - (if Forgets(c, c.lookups[i], error) && r == c.lookups[i].request then 1 else 0)
  {
    FailurePlaces(c.(lookups := TakeOut(c.lookups, i)), c.lookups[i], error, r);
  }

  lemma HistoryCounts(w: World, a: Action, r: Request)
    requires CacheValid(w.c)
    ensures Count(Apply(w, a).accepted, r)
         == Count(w.accepted, r) + Count(if a.DispatchAction? && NewId(w, a.r) then [a.r] else [], r)
    ensures Count(Apply(w, a).doubled, r) == Count(w.doubled, r) + Count(DoubledBy(w, a), r)
    ensures Count(Apply(w, a).forgotten, r) == Count(w.forgotten, r) + Count(ForgottenBy(w.c, a), r)
  {
  }

  ghost predicate DistinctIds(accepted: seq<Request>) {
    forall i, j :: 0 <= i < j < |accepted| ==> accepted[i].id != accepted[j].id
  }

  lemma StepKeepsIds(w: World, a: Action)
    requires CacheValid(w.c) && DistinctIds(w.accepted)
    ensures DistinctIds(Apply(w, a).accepted)
  {
  }

  // ---------- Runs ----------

  ghost predicate Kept(w: World) {
    && Basic(w.c) && EveryKeyOk(w) && DistinctIds(w.accepted)
    && (forall r: Request :: Balanced(w, r))
    && (!w.c.repaired ==> w.forgotten == [])
  }

  lemma StepKeepsLaws(w: World, a: Action)
    requires Basic(w.c) && EveryKeyOk(w)
    ensures Basic(Apply(w, a).c) && EveryKeyOk(Apply(w, a))
  {
    StepKeepsBasic(w, a);
    forall k: Key
      ensures KeyLaws(Apply(w, a).c, k, Clean(Apply(w, a), k), Untouched(Apply(w, a), k), Undoubled(Apply(w, a), k))
    {
      StepKeepsKey(w, a, k);
    }
  }

  lemma StepKeepsRepaired(w: World, a: Action)
    requires Basic(w.c)
    ensures Apply(w, a).c.repaired == w.c.repaired && Apply(w, a).c.maxQueue == w.c.maxQueue
  {
    match a
    case DispatchAction(r, accepted) => DispatchKeepsRepaired(w.c, r, accepted);
    case LookupFails(i, error) =>
      if Answered(w.c, i).Some? {
        FailureIsOneOf(w.c.(lookups := TakeOut(w.c.lookups, i)), w.c.lookups[i], error);
      }
    case TimerFires(i, accepted) => if i < |w.c.timers| { ReQueueKeepsRepaired(w.c, i, accepted); }
    case _ =>
  }

  lemma DispatchKeepsRepaired(c: Component, r: Request, accepted: bool)
    requires Basic(c)
    ensures Dispatch(c, r, accepted).repaired == c.repaired && Dispatch(c, r, accepted).maxQueue == c.maxQueue
  {
    if !r.NeedsNoLookup() {
      var inserted := Insert(c, r.Key(), UNKNOWN_COLLECTION_ID);
      DispatchIsRefusing(c, r, accepted);
      ThroughEntryKeepsRepaired(inserted, inserted.cache[r.Key()], r, accepted);
    }
  }

  lemma ThroughEntryKeepsRepaired(c: Component, e: nat, r: Request, accepted: bool)
    requires e < |c.entries|
    ensures Refusing(c, e, r, accepted).repaired == CallingBack(c, e, r, accepted).repaired == c.repaired
    ensures Refusing(c, e, r, accepted).maxQueue == CallingBack(c, e, r, accepted).maxQueue == c.maxQueue
  {
  }

  lemma ReQueueKeepsRepaired(c: Component, i: nat, accepted: bool)
    requires Basic(c) && i < |c.timers|
    ensures var d := ReQueue(c.(timers := TakeOut(c.timers, i)), c.timers[i], accepted);
            d.repaired == c.repaired && d.maxQueue == c.maxQueue
  {
    var r, fired := c.timers[i], c.(timers := TakeOut(c.timers, i));
    var inserted := Insert(fired, r.Key(), UNKNOWN_COLLECTION_ID);
    var e := inserted.cache[r.Key()];
    ReQueueIsCallingBack(fired, r, accepted);
    ThroughEntryKeepsRepaired(ResetId(inserted, e), e, r, accepted);
  }

  lemma StepKeeps(w: World, a: Action)
    requires Kept(w)
    ensures Kept(Apply(w, a))
  {
    StepKeepsLaws(w, a);
    StepKeepsIds(w, a);
    StepKeepsRepaired(w, a);
    forall r: Request
      ensures Balanced(Apply(w, a), r)
    {
      StepKeepsBalance(w, a, r);
    }
  }

  ghost function After(w: World, run: seq<Action>): World
    requires Basic(w.c)
    ensures Basic(After(w, run).c)
  {
    if run == [] then w
    else
      var before := After(w, run[..|run| - 1]);
      StepKeepsBasic(before, run[|run| - 1]);
      Apply(before, run[|run| - 1])
  }

  // Any run at all.
  ghost predicate Reachable(w: World) {
    exists repaired, maxQueue, run :: w == After(Start(repaired, maxQueue), run)
  }

  lemma StartIsKept(repaired: bool, maxQueue: nat)
    ensures Kept(Start(repaired, maxQueue))
  {
  }

  lemma {:induction false} RunKeeps(repaired: bool, maxQueue: nat, run: seq<Action>)
    ensures Kept(After(Start(repaired, maxQueue), run))
    ensures After(Start(repaired, maxQueue), run).c.repaired == repaired
    ensures After(Start(repaired, maxQueue), run).c.maxQueue == maxQueue
  {
    if run == [] {
      StartIsKept(repaired, maxQueue);
    } else {
      var before := After(Start(repaired, maxQueue), run[..|run| - 1]);
      RunKeeps(repaired, maxQueue, run[..|run| - 1]);
      StepKeeps(before, run[|run| - 1]);
      StepKeepsRepaired(before, run[|run| - 1]);
    }
  }

  lemma ReachableIsKept(w: World)
    requires Reachable(w)
    ensures Kept(w)
  {
    var repaired, maxQueue, run :| w == After(Start(repaired, maxQueue), run);
    RunKeeps(repaired, maxQueue, run);
  }

  lemma KeyOkAt(w: World, k: Key)
    requires Reachable(w)
    ensures Basic(w.c) && KeyLaws(w.c, k, Clean(w, k), Untouched(w, k), Undoubled(w, k))
  {
    ReachableIsKept(w);
  }
}
