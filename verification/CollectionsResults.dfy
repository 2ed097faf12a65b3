/**
 The results about the collection-id cache. A reachable state is one after any run at all;
 what a result needs beyond that is a condition on the key or the request it speaks of.
 */
module CollectionsResults {
  import opened Wrappers
  import opened Sequences
  import opened Collections
  import opened CollectionsRuns
  import opened CollectionsSteps
  import opened CollectionsConservation
  import opened CollectionsTheorems

  ghost predicate InFlight(lookups: seq<Lookup>, e: nat) {
    exists i :: 0 <= i < |lookups| && lookups[i].entry == e
  }

  ghost predicate Cached(c: Component, e: nat)
    requires e < |c.entries|
  {
    c.entries[e].key in c.cache && c.cache[c.entries[e].key] == e
  }

  ghost predicate RetryScheduled(timers: seq<Request>, key: Key) {
    exists i :: 0 <= i < |timers| && timers[i].Key() == key
  }

  // ---------- Counting lookups and timers of a key ----------

  lemma {:induction false} FirstLookupOf(lookups: seq<Lookup>, key: Key)
    requires LookupsOf(lookups, key) != []
    ensures LookupsOf(lookups, key)[0] in lookups && LookupsOf(lookups, key)[0].request.Key() == key
  {
    var n := |lookups| - 1;
    if LookupsOf(lookups[..n], key) != [] {
      FirstLookupOf(lookups[..n], key);
    }
  }

  lemma TwoLookupsCount(lookups: seq<Lookup>, i: nat, j: nat, key: Key)
    requires i < j < |lookups| && lookups[i].request.Key() == key && lookups[j].request.Key() == key
    ensures |LookupsOf(lookups, key)| >= 2
  {
    LookupsOfTakeOut(lookups, i, key);
    assert TakeOut(lookups, i)[j - 1] == lookups[j];
    LookupsOfTakeOut(TakeOut(lookups, i), j - 1, key);
  }

  lemma {:induction false} TimerOf(timers: seq<Request>, key: Key)
    requires TimersOf(timers, key) > 0
    ensures RetryScheduled(timers, key)
  {
    var n := |timers| - 1;
    if timers[n].Key() != key {
      TimerOf(timers[..n], key);
      var i :| 0 <= i < n && timers[..n][i].Key() == key;
      assert timers[i].Key() == key;
    }
  }

  lemma InFlightMeansCounted(c: Component, e: nat)
    requires LookupsKeyed(c) && e < |c.entries|
    ensures InFlight(c.lookups, e) ==> LookupsOf(c.lookups, c.entries[e].key) != []
    ensures LookupLaw(c, c.entries[e].key) && Cached(c, e) && LookupsOf(c.lookups, c.entries[e].key) != [] ==>
              InFlight(c.lookups, e)
  {
    var k := c.entries[e].key;
    if i :| 0 <= i < |c.lookups| && c.lookups[i].entry == e {
      LookupsOfTakeOut(c.lookups, i, k);
    }
    if LookupsOf(c.lookups, k) != [] {
      FirstLookupOf(c.lookups, k);
    }
  }

  // ---------- The lookup protocol ----------

  /** While nothing but its own lookups has set the id of a key, the id of its cached entry is
      pending if and only if a lookup is in flight for it. This holds of every run, also if
      lookups cannot be sent. */
  lemma PendingExactlyWhileLookedUp(w: World, e: nat)
    requires Reachable(w) && e < |w.c.entries| && Cached(w.c, e) && Untouched(w, w.c.entries[e].key)
    ensures w.c.entries[e].cid == PENDING_COLLECTION_ID <==> InFlight(w.c.lookups, e)
  {
    KeyOkAt(w, w.c.entries[e].key);
    InFlightMeansCounted(w.c, e);
  }

  /** A clean key never has two lookups in flight, and the one it has is for its cached entry. */
  lemma OneLookupForTheCachedEntry(w: World, i: nat)
    requires Reachable(w) && i < |w.c.lookups| && Clean(w, w.c.lookups[i].request.Key())
    ensures w.c.lookups[i].entry < |w.c.entries| && Cached(w.c, w.c.lookups[i].entry)
    ensures forall j :: 0 <= j < |w.c.lookups| && j != i ==>
              w.c.lookups[j].request.Key() != w.c.lookups[i].request.Key()
  {
    KeyOkAt(w, w.c.lookups[i].request.Key());
    TheOnlyLookup(w.c, i);
    forall j | 0 <= j < |w.c.lookups| && j != i
      ensures w.c.lookups[j].request.Key() != w.c.lookups[i].request.Key()
    {
      NoSecondLookup(w.c.lookups, i, j, w.c.lookups[i].request.Key());
    }
  }

  lemma TheOnlyLookup(c: Component, i: nat)
    requires LookupsKeyed(c) && i < |c.lookups| && LookupLaw(c, c.lookups[i].request.Key())
    ensures c.lookups[i].entry < |c.entries| && Cached(c, c.lookups[i].entry)
  {
    LookupsOfTakeOut(c.lookups, i, c.lookups[i].request.Key());
  }

  lemma NoSecondLookup(lookups: seq<Lookup>, i: nat, j: nat, k: Key)
    requires i < |lookups| && j < |lookups| && i != j && lookups[i].request.Key() == k
    requires |LookupsOf(lookups, k)| <= 1
    ensures lookups[j].request.Key() != k
  {
    if lookups[j].request.Key() == k {
      TwoLookupsCount(lookups, if i < j then i else j, if i < j then j else i, k);
    }
  }

  // ---------- Ids on the way out ----------

  // Every request that this step sends through an entry carries the latest id of its key.
  ghost predicate SendsLatest(c: Component, d: Component) {
    && |c.sent| <= |d.sent| && d.sent[..|c.sent|] == c.sent
    && forall i :: |c.sent| <= i < |d.sent| ==>
         d.sent[i].request.Key() in d.latest && d.latest[d.sent[i].request.Key()] == d.sent[i].cid
  }

  // Sentinels that are sent come from outside.
  ghost predicate SendsNoSentinel(c: Component, d: Component) {
    forall i :: |c.sent| <= i < |d.sent| ==> !Sentinel(d.sent[i].cid)
  }

  lemma {:induction false} SendAllIsLabelled(queue: seq<Request>, cid: nat)
    ensures |SendAll(queue, cid)| <= |queue|
    ensures forall i :: 0 <= i < |SendAll(queue, cid)| ==>
              SendAll(queue, cid)[i].cid == cid && SendAll(queue, cid)[i].request in queue
  {
    if queue != [] {
      SendAllIsLabelled(queue[..|queue| - 1], cid);
    }
  }

  lemma EntryDispatchSendsLatest(c: Component, e: nat, r: Request, accepted: bool)
    requires IdsAreLatest(c) && r.Key() in c.cache && c.cache[r.Key()] == e < |c.entries|
    ensures SendsLatest(c, Refusing(c, e, r, accepted)) && SendsNoSentinel(c, Refusing(c, e, r, accepted))
  {
  }

  lemma DispatchSendsLatest(c: Component, r: Request, accepted: bool)
    requires Basic(c)
    ensures SendsLatest(c, Dispatch(c, r, accepted)) && SendsNoSentinel(c, Dispatch(c, r, accepted))
  {
    if !r.NeedsNoLookup() {
      var inserted := Insert(c, r.Key(), UNKNOWN_COLLECTION_ID);
      InsertKeepsBasic(c, r.Key());
      DispatchIsRefusing(c, r, accepted);
      EntryDispatchSendsLatest(inserted, inserted.cache[r.Key()], r, accepted);
    }
  }

  lemma ReQueueSendsNothing(c: Component, r: Request, accepted: bool)
    requires CacheValid(c)
    ensures ReQueue(c, r, accepted).sent == c.sent
  {
    var inserted := Insert(c, r.Key(), UNKNOWN_COLLECTION_ID);
    var e := inserted.cache[r.Key()];
    ReQueueIsCallingBack(c, r, accepted);
    AfterResetNothingIsSent(ResetId(inserted, e), e, r, accepted);
  }

  lemma AfterResetNothingIsSent(c: Component, e: nat, r: Request, accepted: bool)
    requires e < |c.entries| && Sentinel(c.entries[e].cid)
    ensures CallingBack(c, e, r, accepted).sent == c.sent
  {
  }

  lemma NamedSuccessSendsLatest(c: Component, i: nat, cid: nat)
    requires Basic(c) && i < |c.lookups| && Retries(c.lookups[i].request)
    requires c.lookups[i].entry < |c.entries| && Cached(c, c.lookups[i].entry)
    ensures SendsLatest(c, LookupSucceeded(c.(lookups := TakeOut(c.lookups, i)), c.lookups[i], cid))
    ensures var d := LookupSucceeded(c.(lookups := TakeOut(c.lookups, i)), c.lookups[i], cid);
            forall j :: |c.sent| <= j < |d.sent| ==> d.sent[j].cid == cid
  {
    var l := c.lookups[i];
    var queue := c.entries[l.entry].queue;
    NamedSuccess(c.(lookups := TakeOut(c.lookups, i)), l, cid);
    SendAllIsLabelled(queue, cid);
    assert EntryFits(c.entries[l.entry], c.maxQueue);
  }

  /** Every request that leaves through an entry carries the id of the latest successful
      lookup of its collection. The one exception is the success of a lookup whose request
      lacks a name or whose entry is no longer cached; a clean key's entry always is. A
      sentinel is carried only if the server itself answered with it. */
  lemma EveryRequestCarriesLatestId(w: World, a: Action)
    requires Reachable(w) && CacheValid(w.c)
    requires a.LookupSucceeds? && Answered(w.c, a.i).Some? ==>
               Retries(w.c.lookups[a.i].request) && Cached(w.c, w.c.lookups[a.i].entry)
    ensures SendsLatest(w.c, Apply(w, a).c)
    ensures (a.LookupSucceeds? && Sentinel(a.cid)) || SendsNoSentinel(w.c, Apply(w, a).c)
  {
    ReachableIsKept(w);
    match a
    case DispatchAction(r, accepted) => if NewId(w, r) { DispatchSendsLatest(w.c, r, accepted); }
    case LookupSucceeds(i, cid) => if Answered(w.c, i).Some? { NamedSuccessSendsLatest(w.c, i, cid); }
    case LookupFails(i, error) =>
      if Answered(w.c, i).Some? {
        FailureIsOneOf(w.c.(lookups := TakeOut(w.c.lookups, i)), w.c.lookups[i], error);
      }
    case TimerFires(i, accepted) =>
      if i < |w.c.timers| {
        ReQueueSendsNothing(w.c.(timers := TakeOut(w.c.timers, i)), w.c.timers[i], accepted);
      }
    case OutsideLookup(key, cid) =>
  }

  // ---------- Where the requests are ----------

  lemma DistinctMeansOnce(s: seq<Request>, i: nat)
    requires DistinctIds(s) && i < |s|
    ensures Count(s, s[i]) == 1
  {
    CountTakeOut(s, i, s[i]);
    var rest := TakeOut(s, i);
    forall j | 0 <= j < |rest|
      ensures rest[j] != s[i]
    {
      assert rest[j] == s[if j < i then j else j + 1];
    }
    assert s[i] !in rest;
  }

  /** In every run each accepted request is in exactly one place, but for two kinds: a request
      whose lookup could not be sent is in one more place each time that happens, and a request
      that was forgotten is in one less. As written, none is ever forgotten. */
  lemma EachRequestInOnePlace(w: World, r: Request)
    requires Reachable(w)
    ensures Places(w.c, r) + Count(w.forgotten, r) == (if r in w.accepted then 1 else 0) + Count(w.doubled, r)
    ensures r !in w.doubled && r !in w.forgotten ==> Places(w.c, r) == if r in w.accepted then 1 else 0
    ensures !w.c.repaired ==> w.forgotten == []
  {
    ReachableIsKept(w);
    assert Balanced(w, r);
    if r in w.accepted {
      var i :| 0 <= i < |w.accepted| && w.accepted[i] == r;
      DistinctMeansOnce(w.accepted, i);
    }
  }

  /** Who waits under a clean key waits for a lookup or a retry; or a lookup of that key could
      not be sent, and then the id is not pending, so that the next request asks again. */
  lemma WaitersHaveSomethingToWaitFor(w: World, e: nat)
    requires Reachable(w) && e < |w.c.entries| && w.c.entries[e].queue != [] && Clean(w, w.c.entries[e].key)
    ensures Cached(w.c, e)
    ensures || InFlight(w.c.lookups, e)
            || (w.c.repaired && RetryScheduled(w.c.timers, w.c.entries[e].key))
            || (!Undoubled(w, w.c.entries[e].key) && w.c.entries[e].cid != PENDING_COLLECTION_ID)
  {
    var k := w.c.entries[e].key;
    KeyOkAt(w, k);
    InFlightMeansCounted(w.c, e);
    if TimersOf(w.c.timers, k) > 0 {
      TimerOf(w.c.timers, k);
    }
  }

  /** No queue ever grows past its limit. */
  lemma QueuesStayWithinLimit(w: World, e: nat)
    requires Reachable(w) && e < |w.c.entries|
    ensures w.c.maxQueue > 0 ==> |w.c.entries[e].queue| <= w.c.maxQueue
  {
    ReachableIsKept(w);
    assert EntryFits(w.c.entries[e], w.c.maxQueue);
  }

  // ---------- A successful lookup ----------

  // The requests of a queue that parse, in their order.
  function Parsable(queue: seq<Request>): seq<Request> {
    if queue == [] then [] else (if queue[0].parses then [queue[0]] else []) + Parsable(queue[1..])
  }

  lemma {:induction false} ParsableOfAppend(queue: seq<Request>, r: Request)
    ensures Parsable(queue + [r]) == Parsable(queue) + if r.parses then [r] else []
  {
    if queue != [] {
      assert (queue + [r])[1..] == queue[1..] + [r];
      ParsableOfAppend(queue[1..], r);
    } else {
      assert (queue + [r])[1..] == [];
    }
  }

  lemma {:induction false} SendAllIsParsable(queue: seq<Request>, cid: nat)
    ensures |SendAll(queue, cid)| == |Parsable(queue)|
    ensures forall k :: 0 <= k < |Parsable(queue)| ==> SendAll(queue, cid)[k] == Sent(Parsable(queue)[k], cid)
  {
    if queue != [] {
      var n := |queue| - 1;
      SendAllIsParsable(queue[..n], cid);
      ParsableOfAppend(queue[..n], queue[n]);
      assert queue == queue[..n] + [queue[n]];
    }
  }

  // The id that the waiters of a lookup leave with: the answer, if it is put into their entry.
  function CarriedId(c: Component, l: Lookup, cid: nat): nat
    requires l.entry < |c.entries|
  {
    if l.request.LookupKey() in c.cache && c.cache[l.request.LookupKey()] == l.entry then cid
    else c.entries[l.entry].cid
  }

  /** A successful lookup, in whatever state, sends on every waiter that can take an id, in the
      order in which they came, all with the same id, and leaves nobody waiting. */
  lemma SuccessSendsWaitersInOrder(c: Component, l: Lookup, cid: nat)
    requires CacheValid(c) && l.entry < |c.entries|
    ensures var queue, d := c.entries[l.entry].queue, LookupSucceeded(c, l, cid);
            && d.entries[l.entry].queue == [] && d.entries[l.entry].cid == CarriedId(c, l, cid)
            && d.sent[..|c.sent|] == c.sent && |d.sent| == |c.sent| + |Parsable(queue)|
            && forall k :: 0 <= k < |Parsable(queue)| ==>
                 d.sent[|c.sent| + k] == Sent(Parsable(queue)[k], CarriedId(c, l, cid))
  {
    SendAllIsParsable(c.entries[l.entry].queue, CarriedId(c, l, cid));
  }
}
