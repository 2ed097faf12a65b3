/**
 Where the collection-id cache does not do what its comments say, and exactly when.
 */
module CollectionsAsWritten {
  import opened Wrappers
  import opened Sequences
  import opened Collections
  import opened CollectionsRuns
  import opened CollectionsSteps
  import opened CollectionsConservation
  import opened CollectionsTheorems
  import opened CollectionsResults

  /** As written, no run at all ever schedules a retry: remove() finds nothing to remove. */
  lemma NothingIsEverRetried(maxQueue: nat, run: seq<Action>)
    ensures After(Start(false, maxQueue), run).c.timers == []
  {
    RunKeeps(false, maxQueue, run);
  }

  /** A collection that is not found: its first request is retried and the others go on
      waiting if and only if remove() works, the request still waits, and it has both names.
      Otherwise every waiter is called back with the error and the entry is forgotten. */
  lemma NotFoundRetriesExactlyWhen(c: Component, l: Lookup)
    requires l.entry < |c.entries|
    ensures var d := LookupFailed(c, l, CollectionNotFound);
            var retries := c.repaired && l.request in c.entries[l.entry].queue && Retries(l.request);
            && d.timers == (if retries then c.timers + [l.request] else c.timers)
            && (retries ==> d.called == c.called && d.cache == c.cache
                            && multiset(d.entries[l.entry].queue) + multiset{l.request}
                               == multiset(c.entries[l.entry].queue))
            && (!retries ==> d.cache == c.cache - {l.request.Key()} && d.entries[l.entry].queue == [])
            && (!c.repaired ==> Ended(d.called) == Ended(c.called) + c.entries[l.entry].queue)
  {
    var queue := c.entries[l.entry].queue;
    FailureIsOneOf(c, l, CollectionNotFound);
    if !c.repaired {
      EveryWaiterIsCalled(queue, CollectionNotFound);
      EndedAppend(c.called, CallAll(queue, CollectionNotFound));
    }
    if l.request in queue {
      WithoutTakesOne(queue, l.request);
    }
  }

  lemma WithoutTakesOne(queue: seq<Request>, r: Request)
    requires r in queue
    ensures multiset(Without(queue, r)) + multiset{r} == multiset(queue)
  {
    var i := IndexOf(queue, r);
    assert queue == queue[..i] + [queue[i]] + queue[i + 1..];
  }

  // A lookup asks for the names with the defaults put in; the entry is cached under the
  // names as they were given.
  lemma KeysAgreeExactlyWhenNamed(r: Request)
    ensures r.LookupKey() == r.Key() <==> Retries(r)
  {
    assert |r.Key()| == |r.scope| + 1 + |r.collection|;
  }

  // ---------- A name that is missing ----------

  /** A pending entry gets the id that its lookup comes back with if and only if the request
      that asked has both names. Otherwise the entry stays pending, all who wait in it leave
      with the pending sentinel, and if no other lookup of the key is in flight the entry is
      stranded. */
  lemma SuccessSettlesExactlyWhenNamed(c: Component, i: nat, cid: nat)
    requires Basic(c) && i < |c.lookups| && c.lookups[i].entry < |c.entries| && Cached(c, c.lookups[i].entry)
    requires c.entries[c.lookups[i].entry].cid == PENDING_COLLECTION_ID && cid != PENDING_COLLECTION_ID
    ensures var l := c.lookups[i];
            var d := LookupSucceeded(c.(lookups := TakeOut(c.lookups, i)), l, cid);
            && (d.entries[l.entry].cid == cid <==> Retries(l.request))
            && (d.entries[l.entry].cid != PENDING_COLLECTION_ID <==> Retries(l.request))
            && (forall k :: |c.sent| <= k < |d.sent| ==>
                  d.sent[k].cid == if Retries(l.request) then cid else PENDING_COLLECTION_ID)
            && (!Retries(l.request) && |LookupsOf(c.lookups, l.request.Key())| == 1 ==> Stranded(d, l.request.Key()))
  {
    var l := c.lookups[i];
    var taken := c.(lookups := TakeOut(c.lookups, i));
    var d := LookupSucceeded(taken, l, cid);
    KeysAgreeExactlyWhenNamed(l.request);
    CarriesAnswerExactlyWhenNamed(taken, l, cid);
    SuccessSendsWaitersInOrder(taken, l, cid);
    forall k | |c.sent| <= k < |d.sent|
      ensures d.sent[k].cid == CarriedId(taken, l, cid)
    {
      var j := k - |c.sent|;
      assert d.sent[|c.sent| + j] == Sent(Parsable(c.entries[l.entry].queue)[j], CarriedId(taken, l, cid));
    }
    LookupsOfTakeOut(c.lookups, i, l.request.Key());
    if !Retries(l.request) {
      UnnamedSuccessKeepsCached(taken, l, cid);
    }
  }

  lemma CarriesAnswerExactlyWhenNamed(c: Component, l: Lookup, cid: nat)
    requires CacheOk(c) && l.entry < |c.entries| && Cached(c, l.entry) && c.entries[l.entry].key == l.request.Key()
    ensures CarriedId(c, l, cid) == if Retries(l.request) then cid else c.entries[l.entry].cid
  {
    KeysAgreeExactlyWhenNamed(l.request);
  }

  lemma UnnamedSuccessKeepsCached(c: Component, l: Lookup, cid: nat)
    requires CacheOk(c) && l.entry < |c.entries| && Cached(c, l.entry) && c.entries[l.entry].key == l.request.Key()
    ensures var d, k := LookupSucceeded(c, l, cid), l.request.Key();
            k in d.cache && d.cache[k] == l.entry < |d.entries| && d.lookups == c.lookups && d.repaired == c.repaired
  {
  }

  // An entry that waits for nothing: it asks nobody, and nobody has been asked. With retries
  // that is a pending one, since a retry resets a known id.
  ghost predicate Stranded(c: Component, k: Key) {
    && k in c.cache && c.cache[k] < |c.entries| && LookupsOf(c.lookups, k) == []
    && c.entries[c.cache[k]].cid != UNKNOWN_COLLECTION_ID
    && (c.repaired ==> c.entries[c.cache[k]].cid == PENDING_COLLECTION_ID)
  }

  // Someone else's lookup sets the id of this key, and does so to an effect: where nothing is
  // ever retried, only the unknown sentinel makes the entry ask again.
  ghost predicate Wakes(c: Component, a: Action, k: Key) {
    match a
    case OutsideLookup(key, cid) => key == k && (c.repaired || cid == UNKNOWN_COLLECTION_ID)
    case LookupSucceeds(i, cid) =>
      Answered(c, i).Some? && c.lookups[i].request.LookupKey() == k && (c.repaired || cid == UNKNOWN_COLLECTION_ID)
    case _ => false
  }

  ghost predicate NeverWakes(w: World, k: Key, run: seq<Action>)
    requires Basic(w.c)
  {
    run == [] ||
    (NeverWakes(w, k, run[..|run| - 1]) && !Wakes(After(w, run[..|run| - 1]).c, run[|run| - 1], k))
  }

  // Stranded as before, with the same waiters and perhaps more behind them.
  ghost predicate StillStranded(c: Component, d: Component, k: Key)
    requires Stranded(c, k)
  {
    && Stranded(d, k) && d.cache[k] == c.cache[k]
    && c.entries[c.cache[k]].queue <= d.entries[d.cache[k]].queue
  }

  lemma SameIsStillStranded(c: Component, d: Component, k: Key)
    requires Stranded(c, k) && SameAtKey(c, d, k)
    ensures StillStranded(c, d, k)
  {
  }

  lemma ThroughEntryStaysStranded(c: Component, r: Request, accepted: bool)
    requires Stranded(c, r.Key())
    ensures StillStranded(c, Refusing(c, c.cache[r.Key()], r, accepted), r.Key())
    ensures StillStranded(c, CallingBack(c, c.cache[r.Key()], r, accepted), r.Key())
  {
  }

  lemma DispatchStaysStranded(c: Component, r: Request, accepted: bool, k: Key)
    requires Basic(c) && Stranded(c, k)
    ensures StillStranded(c, Dispatch(c, r, accepted), k)
  {
    if r.NeedsNoLookup() || r.Key() != k {
      DispatchElsewhere(c, r, accepted, k);
      SameIsStillStranded(c, Dispatch(c, r, accepted), k);
    } else {
      DispatchIsRefusing(c, r, accepted);
      ThroughEntryStaysStranded(c, r, accepted);
    }
  }

  lemma TimerStaysStranded(c: Component, i: nat, accepted: bool, k: Key)
    requires Basic(c) && Stranded(c, k) && i < |c.timers|
    ensures StillStranded(c, ReQueue(c.(timers := TakeOut(c.timers, i)), c.timers[i], accepted), k)
  {
    var r := c.timers[i];
    if r.Key() != k {
      ReQueueElsewhere(c, i, accepted, k);
      SameIsStillStranded(c, ReQueue(c.(timers := TakeOut(c.timers, i)), r, accepted), k);
    } else {
      var fired := c.(timers := TakeOut(c.timers, i));
      ReQueueIsCallingBack(fired, r, accepted);
      ThroughEntryStaysStranded(fired, r, accepted);
    }
  }

  lemma UpsertStaysStranded(c: Component, key: Key, cid: nat, k: Key)
    requires Basic(c) && Stranded(c, k) && (key == k ==> !c.repaired && cid != UNKNOWN_COLLECTION_ID)
    ensures StillStranded(c, Upsert(c, key, cid), k)
  {
    if key != k {
      UpsertElsewhere(c, key, cid, k);
    }
  }

  lemma NoLookupOfKey(lookups: seq<Lookup>, i: nat, k: Key)
    requires i < |lookups| && LookupsOf(lookups, k) == []
    ensures lookups[i].request.Key() != k
  {
    LookupsOfTakeOut(lookups, i, k);
  }

  lemma SuccessStaysStranded(c: Component, i: nat, cid: nat, k: Key)
    requires Basic(c) && Stranded(c, k) && i < |c.lookups|
    requires c.lookups[i].request.LookupKey() == k ==> !c.repaired && cid != UNKNOWN_COLLECTION_ID
    ensures StillStranded(c, LookupSucceeded(c.(lookups := TakeOut(c.lookups, i)), c.lookups[i], cid), k)
  {
    var l := c.lookups[i];
    var taken := c.(lookups := TakeOut(c.lookups, i));
    NoLookupOfKey(c.lookups, i, k);
    LookupsOfTakeOut(c.lookups, i, k);
    TakenKeepsBasic(c, i);
    UpsertStaysStranded(taken, l.request.LookupKey(), cid, k);
    UpsertKeepsCacheOk(taken, l.request.LookupKey(), cid);
    var d := Upsert(taken, l.request.LookupKey(), cid);
    EntryElsewhere(d, l.entry, d.entries[l.entry].(queue := []), k);
  }

  lemma StepStaysStranded(w: World, a: Action, k: Key)
    requires Basic(w.c) && Stranded(w.c, k) && !Wakes(w.c, a, k)
    ensures StillStranded(w.c, Apply(w, a).c, k)
  {
    match a
    case DispatchAction(r, accepted) => if NewId(w, r) { DispatchStaysStranded(w.c, r, accepted, k); }
    case LookupSucceeds(i, cid) => if Answered(w.c, i).Some? { SuccessStaysStranded(w.c, i, cid, k); }
    case LookupFails(i, error) =>
      if Answered(w.c, i).Some? {
        NoLookupOfKey(w.c.lookups, i, k);
        FailureElsewhere(w.c, i, error, k);
        SameIsStillStranded(w.c, Apply(w, a).c, k);
      }
    case TimerFires(i, accepted) => if i < |w.c.timers| { TimerStaysStranded(w.c, i, accepted, k); }
    case OutsideLookup(key, cid) => UpsertStaysStranded(w.c, key, cid, k);
  }

  lemma {:induction false} RunStaysStranded(w: World, k: Key, run: seq<Action>)
    requires Basic(w.c) && Stranded(w.c, k) && NeverWakes(w, k, run)
    ensures StillStranded(w.c, After(w, run).c, k)
  {
    if run != [] {
      var before := After(w, run[..|run| - 1]);
      RunStaysStranded(w, k, run[..|run| - 1]);
      StepStaysStranded(before, run[|run| - 1], k);
    }
  }

  lemma AfterOneMore(w: World, run: seq<Action>, a: Action)
    requires Basic(w.c)
    ensures After(w, run + [a]) == Apply(After(w, run), a)
  {
    assert (run + [a])[..|run|] == run;
  }

  lemma {:induction false} AfterBoth(w: World, first: seq<Action>, second: seq<Action>)
    requires Basic(w.c)
    ensures After(w, first + second) == After(After(w, first), second)
  {
    if second == [] {
      assert first + second == first;
    } else {
      var init, last := second[..|second| - 1], second[|second| - 1];
      AfterBoth(w, first, init);
      AfterOneMore(w, first + init, last);
      AfterOneMore(After(w, first), init, last);
      Split(first, second);
    }
  }

  lemma Split<T>(first: seq<T>, second: seq<T>)
    requires second != []
    ensures second == second[..|second| - 1] + [second[|second| - 1]]
    ensures first + second == first + second[..|second| - 1] + [second[|second| - 1]]
  {
  }

  lemma RunsGoOn(w: World, run: seq<Action>)
    requires Reachable(w) && Basic(w.c)
    ensures Reachable(After(w, run))
  {
    var repaired, maxQueue, before :| w == After(Start(repaired, maxQueue), before);
    AfterBoth(Start(repaired, maxQueue), before, run);
  }

  lemma {:induction false} QueuedCounts(entries: seq<Entry>, e: nat, r: Request)
    requires e < |entries|
    ensures Queued(entries, r) >= Count(entries[e].queue, r)
  {
    if e < |entries| - 1 {
      QueuedCounts(entries[..|entries| - 1], e, r);
    }
  }

  // A request that waits in a queue is nowhere else, unless its lookup could not be sent.
  lemma WaitingIsNowhereElse(w: World, e: nat, r: Request)
    requires Reachable(w) && e < |w.c.entries| && r in w.c.entries[e].queue && r !in w.doubled
    ensures r !in Requests(w.c.sent) && r !in Ended(w.c.called)
  {
    EachRequestInOnePlace(w, r);
    QueuedCounts(w.c.entries, e, r);
    CountsAddUp(w.c, r);
  }

  lemma CountsAddUp(c: Component, r: Request)
    ensures Places(c, r) >= Queued(c.entries, r) + Count(Requests(c.sent), r) + Count(Ended(c.called), r)
  {
  }

  /** Who waits in a stranded entry waits for good: until someone else's lookup wakes the
      entry, no run sends the request on or calls it back, unless that was done before it came
      to wait, because its lookup could not be sent. */
  lemma StrandedForGood(w: World, k: Key, run: seq<Action>, r: Request)
    requires Reachable(w) && Basic(w.c) && Stranded(w.c, k) && NeverWakes(w, k, run)
    requires r in w.c.entries[w.c.cache[k]].queue
    ensures var d := After(w, run);
            && Stranded(d.c, k) && r in d.c.entries[d.c.cache[k]].queue
            && (r !in d.doubled ==> r !in Requests(d.c.sent) && r !in Ended(d.c.called))
  {
    var d := After(w, run);
    RunsGoOn(w, run);
    RunStaysStranded(w, k, run);
    StaysInLonger(w.c.entries[w.c.cache[k]].queue, d.c.entries[d.c.cache[k]].queue, r);
    if r !in d.doubled {
      WaitingIsNowhereElse(d, d.c.cache[k], r);
    }
  }

  lemma StaysInLonger(s: seq<Request>, t: seq<Request>, r: Request)
    requires s <= t && r in s
    ensures r in t
  {
    var i :| 0 <= i < |s| && s[i] == r;
    assert t[i] == r;
  }

  /** It comes to that: if two requests of a collection lack the same name, the first leaves
      with the sentinel, and the second waits for good. */
  lemma SecondUnnamedRequestIsStranded(repaired: bool, maxQueue: nat, r: Request, q: Request, cid: nat)
    requires !r.NeedsNoLookup() && !Retries(r) && r.parses && cid != PENDING_COLLECTION_ID
    requires q.Key() == r.Key() && !q.NeedsNoLookup() && q.id != r.id
    ensures var w := After(Start(repaired, maxQueue),
                           [DispatchAction(r, true), LookupSucceeds(0, cid), DispatchAction(q, true)]);
            && w.c.sent == [Sent(r, PENDING_COLLECTION_ID)] && Stranded(w.c, r.Key())
            && w.c.entries[w.c.cache[r.Key()]].queue == [q]
  {
    var start := Start(repaired, maxQueue);
    var waiting := Apply(start, DispatchAction(r, true));
    ThreeSteps(start, DispatchAction(r, true), LookupSucceeds(0, cid), DispatchAction(q, true));
    FirstRequestWaits(repaired, maxQueue, r);
    FirstAnswerComes(waiting, r, cid);
    SecondRequestComes(Apply(waiting, LookupSucceeds(0, cid)), r, q);
  }

  lemma SecondRequestComes(w: World, r: Request, q: Request)
    requires CacheValid(w.c) && w.accepted == [r] && w.c.lookups == []
    requires q.Key() == r.Key() && !q.NeedsNoLookup() && q.id != r.id
    requires r.Key() in w.c.cache && w.c.cache[r.Key()] == 0 < |w.c.entries|
    requires w.c.entries[0] == Entry(r.Key(), PENDING_COLLECTION_ID, [])
    ensures var v := Apply(w, DispatchAction(q, true));
            && v.c.sent == w.c.sent && Stranded(v.c, r.Key())
            && v.c.entries[v.c.cache[r.Key()]].queue == [q]
  {
    assert NewId(w, q);
    SecondRequestWaits(w.c, q);
  }

  lemma ThreeSteps(w: World, a: Action, b: Action, d: Action)
    requires Basic(w.c)
    ensures Basic(Apply(w, a).c) && Basic(Apply(Apply(w, a), b).c)
    ensures After(w, [a, b, d]) == Apply(Apply(Apply(w, a), b), d)
  {
    StepKeepsBasic(w, a);
    StepKeepsBasic(Apply(w, a), b);
    assert After(w, []) == w;
    AfterOneMore(w, [], a);
    AfterOneMore(w, [a], b);
    AfterOneMore(w, [a, b], d);
    assert [] + [a] == [a] && [a] + [b] == [a, b] && [a, b] + [d] == [a, b, d];
  }

  lemma FirstAnswerComes(w: World, r: Request, cid: nat)
    requires CacheValid(w.c) && r.parses && !Retries(r) && w.c.entries == [Entry(r.Key(), PENDING_COLLECTION_ID, [r])]
    requires w.c.cache == map[r.Key() := 0] && w.c.lookups == [Lookup(0, r)] && w.c.sent == []
    ensures var v := Apply(w, LookupSucceeds(0, cid));
            && v.accepted == w.accepted && v.c.sent == [Sent(r, PENDING_COLLECTION_ID)] && v.c.lookups == []
            && CacheValid(v.c) && r.Key() in v.c.cache && v.c.cache[r.Key()] == 0 < |v.c.entries|
            && v.c.entries[0] == Entry(r.Key(), PENDING_COLLECTION_ID, [])
  {
    WaiterLeaves(w.c, r, cid);
  }

  lemma FirstRequestWaits(repaired: bool, maxQueue: nat, r: Request)
    requires !r.NeedsNoLookup()
    ensures Apply(Start(repaired, maxQueue), DispatchAction(r, true)).c
         == Empty(repaired, maxQueue).(entries := [Entry(r.Key(), PENDING_COLLECTION_ID, [r])],
                                       cache := map[r.Key() := 0], lookups := [Lookup(0, r)])
    ensures Apply(Start(repaired, maxQueue), DispatchAction(r, true)).accepted == [r]
  {
    assert NewId(Start(repaired, maxQueue), r);
    var c := Empty(repaired, maxQueue);
    var inserted := c.(entries := [Entry(r.Key(), UNKNOWN_COLLECTION_ID, [])], cache := map[r.Key() := 0]);
    assert Insert(c, r.Key(), UNKNOWN_COLLECTION_ID).entries == inserted.entries;
    assert Insert(c, r.Key(), UNKNOWN_COLLECTION_ID) == inserted;
    DispatchIsRefusing(c, r, true);
    FirstRequestAsks(inserted, r);
  }

  lemma FirstRequestAsks(c: Component, r: Request)
    requires c.entries == [Entry(r.Key(), UNKNOWN_COLLECTION_ID, [])] && c.lookups == []
    ensures Refusing(c, 0, r, true)
         == c.(entries := [Entry(r.Key(), PENDING_COLLECTION_ID, [r])], lookups := [Lookup(0, r)])
  {
    assert c.entries[0].queue + [r] == [r] && c.lookups + [Lookup(0, r)] == [Lookup(0, r)];
    var queued := SetQueue(c, 0, [r]);
    assert SetId(queued, 0, PENDING_COLLECTION_ID).entries == [Entry(r.Key(), PENDING_COLLECTION_ID, [r])];
  }

  lemma WaiterLeaves(c: Component, r: Request, cid: nat)
    requires r.parses && !Retries(r) && c.entries == [Entry(r.Key(), PENDING_COLLECTION_ID, [r])]
    requires c.cache == map[r.Key() := 0] && c.lookups == [Lookup(0, r)] && c.sent == []
    ensures var d := LookupSucceeded(c.(lookups := TakeOut(c.lookups, 0)), Lookup(0, r), cid);
            && d.sent == [Sent(r, PENDING_COLLECTION_ID)] && d.lookups == []
            && r.Key() in d.cache && d.cache[r.Key()] == 0 < |d.entries|
            && d.entries[0] == Entry(r.Key(), PENDING_COLLECTION_ID, [])
            && d.maxQueue == c.maxQueue && d.repaired == c.repaired
  {
    KeysAgreeExactlyWhenNamed(r);
    assert [r][..0] == [];
    assert SendAll([r], PENDING_COLLECTION_ID)
        == SendAll([], PENDING_COLLECTION_ID) + [Sent(r, PENDING_COLLECTION_ID)];
  }

  lemma SecondRequestWaits(c: Component, q: Request)
    requires !q.NeedsNoLookup() && q.Key() in c.cache && c.cache[q.Key()] < |c.entries| && CacheValid(c)
    requires c.entries[c.cache[q.Key()]] == Entry(q.Key(), PENDING_COLLECTION_ID, []) && c.lookups == []
    ensures var d := Dispatch(c, q, true);
            && d.sent == c.sent && Stranded(d, q.Key()) && d.entries[d.cache[q.Key()]].queue == [q]
  {
    DispatchIsRefusing(c, q, true);
    assert c.entries[c.cache[q.Key()]].queue + [q] == [q];
  }

  /** dispatch() leaves a request in two places at once (the caller is told that it failed,
      and it still waits in the queue) if and only if the lookup it needs cannot be sent. */
  lemma RefusedAndQueuedExactlyWhen(c: Component, q: Request, accepted: bool)
    requires CacheValid(c) && Places(c, q) == 0
    ensures Places(Dispatch(c, q, accepted), q) == 2 <==> LookupCannotBeSent(c, q, accepted)
    ensures Places(Dispatch(c, q, accepted), q) == 1 <==> !LookupCannotBeSent(c, q, accepted)
  {
    DispatchPlaces(c, q, accepted, q);
  }

  /** The first request of a bucket is such a one, if the dispatcher does not take its lookup. */
  lemma FirstRequestCanBeRefusedAndQueued(repaired: bool, maxQueue: nat, q: Request)
    requires !q.NeedsNoLookup()
    ensures var d := Dispatch(Empty(repaired, maxQueue), q, false);
            |d.entries| == 1 && d.entries[0].queue == [q] && |d.refused| == 1 && d.refused[0].0 == q && d.lookups == []
  {
    DispatchIsRefusing(Empty(repaired, maxQueue), q, false);
  }

  /** Two collections share a cache entry if their joined names are equal. With scope names
      that hold no dot they are equal only for the same collection; otherwise they need not be. */
  lemma KeysAreDistinctWithoutDots(s1: string, c1: string, s2: string, c2: string)
    requires '.' !in s1 && '.' !in s2
    ensures BuildKey(s1, c1) == BuildKey(s2, c2) <==> s1 == s2 && c1 == c2
  {
    FirstDotOfKey(s1, c1);
    FirstDotOfKey(s2, c2);
    if BuildKey(s1, c1) == BuildKey(s2, c2) {
      assert BuildKey(s1, c1)[..|s1|] == s1 && BuildKey(s2, c2)[..|s2|] == s2;
      assert BuildKey(s1, c1)[|s1| + 1..] == c1 && BuildKey(s2, c2)[|s2| + 1..] == c2;
    }
  }

  function FirstDot(key: Key): nat {
    if key == "" || key[0] == '.' then 0 else 1 + FirstDot(key[1..])
  }

  lemma {:induction false} FirstDotOfKey(scope: string, collection: string)
    requires '.' !in scope
    ensures FirstDot(BuildKey(scope, collection)) == |scope|
  {
    if scope != "" {
      assert BuildKey(scope, collection)[1..] == BuildKey(scope[1..], collection);
      FirstDotOfKey(scope[1..], collection);
    }
  }

  /** A collection shares its key with another one if and only if one of its names has a dot. */
  lemma KeyIsSharedExactlyWhenDotted(s: string, c: string)
    ensures (exists s2, c2 :: BuildKey(s2, c2) == BuildKey(s, c) && (s2 != s || c2 != c)) <==> '.' in s || '.' in c
  {
    if '.' in s {
      var j :| 0 <= j < |s| && s[j] == '.';
      assert BuildKey(s[..j], s[j + 1..] + "." + c) == BuildKey(s, c);
      assert s[..j] != s;
    } else if '.' in c {
      var j :| 0 <= j < |c| && c[j] == '.';
      assert BuildKey(s + "." + c[..j], c[j + 1..]) == BuildKey(s, c);
      assert s + "." + c[..j] != s;
    } else {
      forall s2, c2 | BuildKey(s2, c2) == BuildKey(s, c)
        ensures s2 == s && c2 == c
      {
        OnlyDot(s, c, |s2|);
        assert BuildKey(s2, c2)[|s2|] == '.';
        assert BuildKey(s2, c2)[..|s2|] == s2 && BuildKey(s, c)[..|s|] == s;
        assert BuildKey(s2, c2)[|s2| + 1..] == c2 && BuildKey(s, c)[|s| + 1..] == c;
      }
    }
  }

  lemma OnlyDot(s: string, c: string, i: nat)
    requires '.' !in s && '.' !in c && i < |BuildKey(s, c)|
    ensures BuildKey(s, c)[i] == '.' <==> i == |s|
  {
  }
}
