/**
 Every step of the collection-id cache keeps the laws of every key.
 */
module CollectionsSteps {
  import opened Wrappers
  import opened Sequences
  import opened Collections
  import opened CollectionsRuns
  import opened CollectionsConservation

  // ---------- What a step leaves alone ----------

  ghost predicate SameAtKey(c: Component, d: Component, k: Key) {
    && c.repaired == d.repaired && c.maxQueue == d.maxQueue
    && (k in c.cache <==> k in d.cache)
    && (k in c.cache ==>
          && d.cache[k] == c.cache[k]
          && (c.cache[k] < |c.entries| <==> c.cache[k] < |d.entries|)
          && (c.cache[k] < |c.entries| ==> d.entries[c.cache[k]] == c.entries[c.cache[k]]))
    && LookupsOf(c.lookups, k) == LookupsOf(d.lookups, k)
    && TimersOf(c.timers, k) == TimersOf(d.timers, k)
    && (StraysIdle(c, k) ==> StraysIdle(d, k))
  }

  lemma SameLaws(c: Component, d: Component, k: Key, clean: bool, untouched: bool, undoubled: bool)
    requires SameAtKey(c, d, k) && KeyLaws(c, k, clean, untouched, undoubled)
    ensures KeyLaws(d, k, clean, untouched, undoubled)
  {
  }

  lemma InsertElsewhere(c: Component, key: Key, cid: nat, k: Key)
    requires CacheOk(c) && key != k
    ensures SameAtKey(c, Insert(c, key, cid), k)
  {
  }

  lemma EntryElsewhere(c: Component, e: nat, entry: Entry, k: Key)
    requires CacheOk(c) && e < |c.entries| && c.entries[e].key != k && entry.key == c.entries[e].key
    ensures SameAtKey(c, c.(entries := c.entries[e := entry]), k)
  {
  }

  lemma EntryDispatchElsewhere(c: Component, e: nat, r: Request, accepted: bool, k: Key)
    requires CacheOk(c) && e < |c.entries| && c.entries[e].key == r.Key() != k
    ensures SameAtKey(c, EntryDispatch(c, e, r, accepted).0, k)
  {
    var entry := c.entries[e];
    if entry.cid == UNKNOWN_COLLECTION_ID && !IsFull(c, entry.queue) && accepted {
      AskElsewhere(c, e, r, k);
    } else {
      EntryElsewhere(c, e, entry.(queue := entry.queue + [r]), k);
    }
  }

  lemma AskElsewhere(c: Component, e: nat, r: Request, k: Key)
    requires CacheOk(c) && e < |c.entries| && c.entries[e].key == r.Key() != k
    requires c.entries[e].cid == UNKNOWN_COLLECTION_ID && !IsFull(c, c.entries[e].queue)
    ensures SameAtKey(c, EntryDispatch(c, e, r, true).0, k)
  {
    var entry := c.entries[e].(cid := PENDING_COLLECTION_ID, queue := c.entries[e].queue + [r]);
    EntryElsewhere(c, e, entry, k);
    LookupsOfAppend(c.lookups, Lookup(e, r), k);
    assert EntryDispatch(c, e, r, true).0
        == c.(entries := c.entries[e := entry], lookups := c.lookups + [Lookup(e, r)]);
  }

  lemma UpsertElsewhere(c: Component, key: Key, cid: nat, k: Key)
    requires CacheOk(c) && key != k
    ensures SameAtKey(c, Upsert(c, key, cid), k)
  {
  }

  lemma ThroughEntryElsewhere(c: Component, e: nat, r: Request, accepted: bool, k: Key)
    requires CacheOk(c) && e < |c.entries| && c.entries[e].key == r.Key() != k
    ensures SameAtKey(c, Refusing(c, e, r, accepted), k) && SameAtKey(c, CallingBack(c, e, r, accepted), k)
  {
    EntryDispatchElsewhere(c, e, r, accepted, k);
  }

  lemma DispatchElsewhere(c: Component, r: Request, accepted: bool, k: Key)
    requires CacheOk(c) && (r.NeedsNoLookup() || r.Key() != k)
    ensures SameAtKey(c, Dispatch(c, r, accepted), k)
  {
    if !r.NeedsNoLookup() {
      var inserted := Insert(c, r.Key(), UNKNOWN_COLLECTION_ID);
      InsertKeepsCacheOk(c, r.Key(), UNKNOWN_COLLECTION_ID);
      InsertElsewhere(c, r.Key(), UNKNOWN_COLLECTION_ID, k);
      DispatchIsRefusing(c, r, accepted);
      ThroughEntryElsewhere(inserted, inserted.cache[r.Key()], r, accepted, k);
    }
  }

  lemma InsertKeepsCacheOk(c: Component, key: Key, cid: nat)
    requires CacheOk(c)
    ensures CacheOk(Insert(c, key, cid)) && key in Insert(c, key, cid).cache
  {
  }

  lemma ReQueueElsewhere(c: Component, i: nat, accepted: bool, k: Key)
    requires CacheOk(c) && i < |c.timers| && c.timers[i].Key() != k
    ensures SameAtKey(c, ReQueue(c.(timers := TakeOut(c.timers, i)), c.timers[i], accepted), k)
  {
    var r := c.timers[i];
    var fired := c.(timers := TakeOut(c.timers, i));
    TimersOfTakeOut(c.timers, i, k);
    var inserted := Insert(fired, r.Key(), UNKNOWN_COLLECTION_ID);
    InsertKeepsCacheOk(fired, r.Key(), UNKNOWN_COLLECTION_ID);
    InsertElsewhere(fired, r.Key(), UNKNOWN_COLLECTION_ID, k);
    var e := inserted.cache[r.Key()];
    ResetElsewhere(inserted, e, k);
    ReQueueIsCallingBack(fired, r, accepted);
    ThroughEntryElsewhere(ResetId(inserted, e), e, r, accepted, k);
  }

  lemma ResetElsewhere(c: Component, e: nat, k: Key)
    requires CacheOk(c) && e < |c.entries| && c.entries[e].key != k
    ensures SameAtKey(c, ResetId(c, e), k) && CacheOk(ResetId(c, e)) && ResetId(c, e).entries[e].key == c.entries[e].key
  {
    EntryElsewhere(c, e, c.entries[e].(cid := UNKNOWN_COLLECTION_ID), k);
  }

  lemma SuccessElsewhere(c: Component, i: nat, cid: nat, k: Key)
    requires CacheOk(c) && LookupsKeyed(c) && i < |c.lookups|
    requires c.lookups[i].request.Key() != k && c.lookups[i].request.LookupKey() != k
    ensures SameAtKey(c, LookupSucceeded(c.(lookups := TakeOut(c.lookups, i)), c.lookups[i], cid), k)
  {
    var l := c.lookups[i];
    var taken := c.(lookups := TakeOut(c.lookups, i));
    LookupsOfTakeOut(c.lookups, i, k);
    UpsertElsewhere(taken, l.request.LookupKey(), cid, k);
    UpsertKeepsCacheOk(taken, l.request.LookupKey(), cid);
    var d := Upsert(taken, l.request.LookupKey(), cid);
    EntryElsewhere(d, l.entry, d.entries[l.entry].(queue := []), k);
  }

  lemma UpsertKeepsCacheOk(c: Component, key: Key, cid: nat)
    requires CacheOk(c)
    ensures CacheOk(Upsert(c, key, cid)) && |Upsert(c, key, cid).entries| >= |c.entries|
    ensures forall e :: 0 <= e < |c.entries| ==> Upsert(c, key, cid).entries[e].key == c.entries[e].key
  {
  }

  lemma FailureElsewhere(c: Component, i: nat, error: Error, k: Key)
    requires CacheOk(c) && LookupsKeyed(c) && i < |c.lookups| && c.lookups[i].request.Key() != k
    ensures SameAtKey(c, LookupFailed(c.(lookups := TakeOut(c.lookups, i)), c.lookups[i], error), k)
  {
    var l := c.lookups[i];
    var taken := c.(lookups := TakeOut(c.lookups, i));
    LookupsOfTakeOut(c.lookups, i, k);
    TimersOfAppend(c.timers, l.request, k);
    var entry := c.entries[l.entry];
    FailureIsOneOf(taken, l, error);
    if c.repaired && error == CollectionNotFound && l.request in entry.queue && Retries(l.request) {
      EntryElsewhere(taken, l.entry, entry.(cid := UNKNOWN_COLLECTION_ID, queue := Without(entry.queue, l.request)), k);
    } else {
      var cid := if error == CollectionNotFound then UNKNOWN_COLLECTION_ID else entry.cid;
      EntryElsewhere(taken, l.entry, entry.(cid := cid, queue := []), k);
      RemoveElsewhere(taken.(entries := c.entries[l.entry := entry.(cid := cid, queue := [])]), l.request.Key(), k);
    }
  }

  lemma RemoveElsewhere(c: Component, key: Key, k: Key)
    requires key != k
    ensures SameAtKey(c, Remove(c, key), k)
  {
  }

  // The three things a failed lookup can do to its entry.
  lemma FailureIsOneOf(c: Component, l: Lookup, error: Error)
    requires l.entry < |c.entries|
    ensures var d, entry := LookupFailed(c, l, error), c.entries[l.entry];
            if c.repaired && error == CollectionNotFound && l.request in entry.queue && Retries(l.request) then
              d == c.(entries := c.entries[l.entry := entry.(cid := UNKNOWN_COLLECTION_ID,
                                                              queue := Without(entry.queue, l.request))],
                      timers := c.timers + [l.request])
            else
              var cid := if error == CollectionNotFound then UNKNOWN_COLLECTION_ID else entry.cid;
              d == c.(entries := c.entries[l.entry := entry.(cid := cid, queue := [])],
                      cache := c.cache - {l.request.Key()}, called := d.called)
  {
    var entry := c.entries[l.entry];
    var unknown := entry.(cid := UNKNOWN_COLLECTION_ID);
    UpdateTwice(c.entries, l.entry, unknown, unknown.(queue := []));
    UpdateTwice(c.entries, l.entry, unknown, unknown.(queue := Without(entry.queue, l.request)));
  }

  lemma UpdateTwice<T>(s: seq<T>, i: nat, x: T, y: T)
    requires i < |s|
    ensures s[i := x][i := y] == s[i := y]
  {
  }

  // ---------- What a step does to its own key ----------

  lemma InsertKeepsLaws(c: Component, k: Key, clean: bool, untouched: bool, undoubled: bool)
    requires CacheOk(c) && KeyLaws(c, k, clean, untouched, undoubled) && (untouched ==> clean)
    ensures KeyLaws(Insert(c, k, UNKNOWN_COLLECTION_ID), k, clean, untouched, undoubled)
  {
  }

  // A request may go through the entry of this key: nobody who waits is overlooked, unless the
  // request itself is about to ask.
  ghost predicate ReadyLaw(c: Component, k: Key) {
    k in c.cache && c.cache[k] < |c.entries| ==>
      var entry := c.entries[c.cache[k]];
      && (!Sentinel(entry.cid) ==>
            && (entry.queue != [] ==> LookupsOf(c.lookups, k) != [] || (c.repaired && TimersOf(c.timers, k) > 0))
            && (c.repaired ==> entry.queue == []))
      && (entry.cid == UNKNOWN_COLLECTION_ID && c.maxQueue > 0 ==> |entry.queue| < c.maxQueue)
  }

  lemma EntryDispatchKeepsLaws(c: Component, e: nat, r: Request, accepted: bool, clean: bool, untouched: bool,
                               undoubled: bool)
    requires CacheOk(c) && r.Key() in c.cache && c.cache[r.Key()] == e
    requires KeyLaws(c, r.Key(), clean, untouched, false) && (clean && undoubled ==> ReadyLaw(c, r.Key()))
    ensures KeyLaws(EntryDispatch(c, e, r, accepted).0, r.Key(), clean, untouched,
                    undoubled && !StuckAt(c, e, accepted))
  {
    LookupsOfAppend(c.lookups, Lookup(e, r), r.Key());
  }

  lemma RecordsDoNotMatter(c: Component, e: nat, r: Request, accepted: bool, k: Key)
    ensures e < |c.entries| ==>
              && SameAtKey(EntryDispatch(c, e, r, accepted).0, Refusing(c, e, r, accepted), k)
              && SameAtKey(EntryDispatch(c, e, r, accepted).0, CallingBack(c, e, r, accepted), k)
  {
  }

  lemma DispatchKeepsLaws(c: Component, r: Request, accepted: bool, clean: bool, untouched: bool, undoubled: bool)
    requires CacheOk(c) && !r.NeedsNoLookup()
    requires KeyLaws(c, r.Key(), clean, untouched, undoubled) && (untouched ==> clean)
    ensures KeyLaws(Dispatch(c, r, accepted), r.Key(), clean, untouched,
                    undoubled && !LookupCannotBeSent(c, r, accepted))
  {
    var k := r.Key();
    var inserted := Insert(c, k, UNKNOWN_COLLECTION_ID);
    var e := inserted.cache[k];
    InsertKeepsCacheOk(c, k, UNKNOWN_COLLECTION_ID);
    InsertKeepsLaws(c, k, clean, untouched, undoubled);
    StuckWhenLookupCannotBeSent(c, r, accepted);
    EntryDispatchKeepsLaws(inserted, e, r, accepted, clean, untouched, undoubled);
    RecordsDoNotMatter(inserted, e, r, accepted, k);
    DispatchIsRefusing(c, r, accepted);
    SameLaws(EntryDispatch(inserted, e, r, accepted).0, Refusing(inserted, e, r, accepted), k, clean, untouched,
             undoubled && !LookupCannotBeSent(c, r, accepted));
  }

  // Timers exist only where remove() works, and there a clean key is an untouched one.
  lemma ResetIsReady(c: Component, k: Key, e: nat, timers: seq<Request>, untouched: bool, undoubled: bool)
    requires CacheOk(c) && k in c.cache && c.cache[k] == e && c.repaired
    requires KeyLaws(c, k, untouched, untouched, undoubled)
    ensures var ready := ResetId(c.(timers := timers), e);
            && CacheOk(ready) && KeyLaws(ready, k, untouched, untouched, false)
            && (untouched && undoubled ==> ReadyLaw(ready, k))
  {
    if untouched {
      assert StraysIdle(ResetId(c.(timers := timers), e), k);
    }
  }

  lemma ReQueueKeepsLaws(c: Component, i: nat, accepted: bool, untouched: bool, undoubled: bool)
    requires CacheOk(c) && c.repaired && i < |c.timers|
    requires KeyLaws(c, c.timers[i].Key(), untouched, untouched, undoubled)
    ensures KeyLaws(ReQueue(c.(timers := TakeOut(c.timers, i)), c.timers[i], accepted), c.timers[i].Key(), untouched,
                    untouched, undoubled && !(AsksServer(c, c.timers[i].Key(), true) && !accepted))
  {
    var r := c.timers[i];
    var k := r.Key();
    var timers := TakeOut(c.timers, i);
    var inserted := Insert(c, k, UNKNOWN_COLLECTION_ID);
    var fired := inserted.(timers := timers);
    var e := inserted.cache[k];
    InsertKeepsCacheOk(c, k, UNKNOWN_COLLECTION_ID);
    InsertKeepsLaws(c, k, untouched, untouched, undoubled);
    ResetIsReady(inserted, k, e, timers, untouched, undoubled);
    var ready := ResetId(fired, e);
    var still := undoubled && !StuckAt(ready, e, accepted);
    EntryDispatchKeepsLaws(ready, e, r, accepted, untouched, untouched, undoubled);
    RecordsDoNotMatter(ready, e, r, accepted, k);
    assert fired == Insert(c.(timers := timers), k, UNKNOWN_COLLECTION_ID);
    ReQueueIsCallingBack(c.(timers := timers), r, accepted);
    SameLaws(EntryDispatch(ready, e, r, accepted).0, CallingBack(ready, e, r, accepted), k, untouched, untouched,
             still);
    StuckAfterReset(c, i, accepted);
  }

  // A foreign id that is no sentinel, where nothing is ever retried.
  lemma UpsertKeepsLaws(c: Component, k: Key, cid: nat, clean: bool, undoubled: bool)
    requires CacheOk(c) && !c.repaired && !Sentinel(cid) && KeyLaws(c, k, clean, false, undoubled)
    ensures KeyLaws(Upsert(c, k, cid), k, clean, false, undoubled)
  {
  }

  lemma SuccessKeepsLaws(c: Component, i: nat, cid: nat, clean: bool, untouched: bool, undoubled: bool)
    requires CacheOk(c) && LookupsKeyed(c) && i < |c.lookups| && Retries(c.lookups[i].request) && !Sentinel(cid)
    requires KeyLaws(c, c.lookups[i].request.Key(), clean, untouched, undoubled) && (untouched ==> clean)
    ensures KeyLaws(LookupSucceeded(c.(lookups := TakeOut(c.lookups, i)), c.lookups[i], cid),
                    c.lookups[i].request.Key(), clean, untouched, undoubled)
  {
    if clean {
      var l := c.lookups[i];
      var k := l.request.Key();
      var taken := c.(lookups := TakeOut(c.lookups, i));
      LookupsOfTakeOut(c.lookups, i, k);
      assert LookupsOf(c.lookups, k)[0] == l;
      NamedSuccess(taken, l, cid);
      SettledLaws(taken, LookupSucceeded(taken, l, cid), k, cid, untouched, undoubled);
    }
  }

  lemma NamedSuccess(c: Component, l: Lookup, cid: nat)
    requires CacheOk(c) && Retries(l.request) && l.request.Key() in c.cache && c.cache[l.request.Key()] == l.entry
    ensures var d, k := LookupSucceeded(c, l, cid), l.request.Key();
            d == c.(entries := c.entries[l.entry := Entry(k, cid, [])], latest := c.latest[k := cid],
                    sent := c.sent + SendAll(c.entries[l.entry].queue, cid), dropped := d.dropped)
  {
    var entry := c.entries[l.entry];
    UpdateTwice(c.entries, l.entry, entry.(cid := cid), Entry(entry.key, cid, []));
  }

  lemma SettledLaws(c: Component, d: Component, k: Key, cid: nat, untouched: bool, undoubled: bool)
    requires k in c.cache && c.cache[k] < |c.entries| && !Sentinel(cid) && LookupsOf(c.lookups, k) == []
    requires StraysIdle(c, k) && d.lookups == c.lookups && d.cache == c.cache
    requires d.entries == c.entries[c.cache[k] := Entry(k, cid, [])]
    ensures KeyLaws(d, k, true, untouched, undoubled)
  {
  }

  lemma FailureKeepsLaws(c: Component, i: nat, error: Error, clean: bool, untouched: bool, undoubled: bool)
    requires CacheOk(c) && LookupsKeyed(c) && EntriesFit(c) && i < |c.lookups|
    requires KeyLaws(c, c.lookups[i].request.Key(), clean, untouched, undoubled) && (untouched ==> clean)
    ensures KeyLaws(LookupFailed(c.(lookups := TakeOut(c.lookups, i)), c.lookups[i], error),
                    c.lookups[i].request.Key(), clean, untouched, undoubled)
  {
    if clean {
      var l := c.lookups[i];
      var k := l.request.Key();
      var taken := c.(lookups := TakeOut(c.lookups, i));
      LookupsOfTakeOut(c.lookups, i, k);
      assert LookupsOf(c.lookups, k)[0] == l;
      assert LookupsOf(taken.lookups, k) == [];
      TimersOfAppend(c.timers, l.request, k);
      FailureIsOneOf(taken, l, error);
      assert EntryFits(c.entries[l.entry], c.maxQueue);
    }
  }

  // ---------- Every step, every key ----------

  lemma StepKeepsKey(w: World, a: Action, k: Key)
    requires Basic(w.c) && KeyLaws(w.c, k, Clean(w, k), Untouched(w, k), Undoubled(w, k))
    ensures KeyLaws(Apply(w, a).c, k, Clean(Apply(w, a), k), Untouched(Apply(w, a), k), Undoubled(Apply(w, a), k))
  {
    match a
    case DispatchAction(r, accepted) => DispatchKeepsKey(w, r, accepted, k);
    case LookupSucceeds(i, cid) => SuccessKeepsKey(w, i, cid, k);
    case LookupFails(i, error) => FailureKeepsKey(w, i, error, k);
    case TimerFires(i, accepted) => TimerKeepsKey(w, i, accepted, k);
    case OutsideLookup(key, cid) => OutsideKeepsKey(w, key, cid, k);
  }

  lemma DispatchKeepsKey(w: World, r: Request, accepted: bool, k: Key)
    requires Basic(w.c) && KeyLaws(w.c, k, Clean(w, k), Untouched(w, k), Undoubled(w, k))
    ensures var v := Apply(w, DispatchAction(r, accepted));
            KeyLaws(v.c, k, Clean(v, k), Untouched(v, k), Undoubled(v, k))
  {
    var v := Apply(w, DispatchAction(r, accepted));
    MoreDoubled(w, v, DoubledBy(w, DispatchAction(r, accepted)), k);
    if NewId(w, r) {
      if r.NeedsNoLookup() || r.Key() != k {
        DispatchElsewhere(w.c, r, accepted, k);
        SameLaws(w.c, v.c, k, Clean(w, k), Untouched(w, k), Undoubled(w, k));
      } else {
        DispatchKeepsLaws(w.c, r, accepted, Clean(w, k), Untouched(w, k), Undoubled(w, k));
      }
    }
  }

  lemma MoreDoubled(w: World, v: World, more: seq<Request>, k: Key)
    requires v.doubled == w.doubled + more && |more| <= 1
    ensures Undoubled(v, k) <==> Undoubled(w, k) && (more != [] ==> more[0].Key() != k)
  {
    if Undoubled(v, k) {
      forall i | 0 <= i < |w.doubled|
        ensures w.doubled[i].Key() != k
      {
        assert v.doubled[i] == w.doubled[i];
      }
      if more != [] {
        assert v.doubled[|w.doubled|] == more[0];
      }
    }
  }

  lemma TimerKeepsKey(w: World, i: nat, accepted: bool, k: Key)
    requires Basic(w.c) && KeyLaws(w.c, k, Clean(w, k), Untouched(w, k), Undoubled(w, k))
    ensures var v := Apply(w, TimerFires(i, accepted));
            KeyLaws(v.c, k, Clean(v, k), Untouched(v, k), Undoubled(v, k))
  {
    var v := Apply(w, TimerFires(i, accepted));
    MoreDoubled(w, v, DoubledBy(w, TimerFires(i, accepted)), k);
    if i < |w.c.timers| {
      if w.c.timers[i].Key() != k {
        ReQueueElsewhere(w.c, i, accepted, k);
        SameLaws(w.c, v.c, k, Clean(w, k), Untouched(w, k), Undoubled(w, k));
      } else {
        ReQueueKeepsLaws(w.c, i, accepted, Untouched(w, k), Undoubled(w, k));
      }
    }
  }

  lemma OutsideKeepsKey(w: World, key: Key, cid: nat, k: Key)
    requires Basic(w.c) && KeyLaws(w.c, k, Clean(w, k), Untouched(w, k), Undoubled(w, k))
    ensures var v := Apply(w, OutsideLookup(key, cid));
            KeyLaws(v.c, k, Clean(v, k), Untouched(v, k), Undoubled(v, k))
  {
    var v := Apply(w, OutsideLookup(key, cid));
    assert v.doubled == w.doubled;
    if key != k {
      UpsertElsewhere(w.c, key, cid, k);
      SameLaws(w.c, v.c, k, Clean(w, k), Untouched(w, k), Undoubled(w, k));
    } else if !w.c.repaired && !Sentinel(cid) {
      UpsertKeepsLaws(w.c, k, cid, Clean(w, k), Undoubled(w, k));
    }
  }

  lemma FailureKeepsKey(w: World, i: nat, error: Error, k: Key)
    requires Basic(w.c) && KeyLaws(w.c, k, Clean(w, k), Untouched(w, k), Undoubled(w, k))
    ensures var v := Apply(w, LookupFails(i, error));
            KeyLaws(v.c, k, Clean(v, k), Untouched(v, k), Undoubled(v, k))
  {
    var v := Apply(w, LookupFails(i, error));
    assert v.doubled == w.doubled && v.touched == w.touched && v.spoiled == w.spoiled;
    if Answered(w.c, i).Some? {
      if w.c.lookups[i].request.Key() != k {
        FailureElsewhere(w.c, i, error, k);
        SameLaws(w.c, v.c, k, Clean(w, k), Untouched(w, k), Undoubled(w, k));
      } else {
        FailureKeepsLaws(w.c, i, error, Clean(w, k), Untouched(w, k), Undoubled(w, k));
      }
    }
  }

  lemma SuccessKeepsKey(w: World, i: nat, cid: nat, k: Key)
    requires Basic(w.c) && KeyLaws(w.c, k, Clean(w, k), Untouched(w, k), Undoubled(w, k))
    ensures var v := Apply(w, LookupSucceeds(i, cid));
            KeyLaws(v.c, k, Clean(v, k), Untouched(v, k), Undoubled(v, k))
  {
    var v := Apply(w, LookupSucceeds(i, cid));
    assert v.doubled == w.doubled;
    if Answered(w.c, i).Some? {
      var r := w.c.lookups[i].request;
      if r.Key() != k && r.LookupKey() != k {
        SuccessElsewhere(w.c, i, cid, k);
        SameLaws(w.c, v.c, k, Clean(w, k), Untouched(w, k), Undoubled(w, k));
      } else if Retries(r) {
        if !Sentinel(cid) {
          SuccessKeepsLaws(w.c, i, cid, Clean(w, k), Untouched(w, k), Undoubled(w, k));
        }
      } else if r.Key() != k && !w.c.repaired && !Sentinel(cid) {
        ForeignSuccessKeepsLaws(w.c, i, cid, Clean(w, k), Undoubled(w, k));
      }
    }
  }

  // A lookup that sets the id of another key than its own.
  lemma ForeignSuccessKeepsLaws(c: Component, i: nat, cid: nat, clean: bool, undoubled: bool)
    requires CacheOk(c) && LookupsKeyed(c) && i < |c.lookups| && !c.repaired && !Sentinel(cid)
    requires c.lookups[i].request.Key() != c.lookups[i].request.LookupKey()
    requires KeyLaws(c, c.lookups[i].request.LookupKey(), clean, false, undoubled)
    ensures KeyLaws(LookupSucceeded(c.(lookups := TakeOut(c.lookups, i)), c.lookups[i], cid),
                    c.lookups[i].request.LookupKey(), clean, false, undoubled)
  {
    var l := c.lookups[i];
    var k := l.request.LookupKey();
    var taken := c.(lookups := TakeOut(c.lookups, i));
    LookupsOfTakeOut(c.lookups, i, k);
    SameLaws(c, taken, k, clean, false, undoubled);
    UpsertKeepsLaws(taken, k, cid, clean, undoubled);
    UpsertKeepsCacheOk(taken, k, cid);
    var d := Upsert(taken, k, cid);
    EntryElsewhere(d, l.entry, d.entries[l.entry].(queue := []), k);
    SameLaws(d, LookupSucceeded(taken, l, cid), k, clean, false, undoubled);
  }
}
