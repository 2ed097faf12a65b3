/**
 The collection-id cache as a state machine. Actions that are not possible leave the state as
 it is, so every sequence of actions is a run, and nothing is asked of a run: the dispatcher
 may refuse anything, names may be missing, answers may be any number, and ids may be set by
 lookups that no entry has asked for.
 */
module CollectionsRuns {
  import opened Wrappers
  import opened Sequences
  import opened Collections

  datatype Action =
    | DispatchAction(r: Request, accepted: bool)
    | LookupSucceeds(i: nat, cid: nat)
    | LookupFails(i: nat, error: Error)
    | TimerFires(i: nat, accepted: bool)
    | OutsideLookup(key: Key, cid: nat)

  // Beside the component, what has happened to it:
  // accepted   the requests that were given to dispatch();
  // touched    the keys whose id was set by something else than their own lookup;
  // spoiled    the keys that were left with a sentinel for an id by an answer;
  // doubled    the requests that were refused or called back and queued at once;
  // forgotten  the requests that were taken from a queue and put nowhere.
  datatype World = World(
    c: Component,
    accepted: seq<Request>,
    touched: set<Key>,
    spoiled: set<Key>,
    doubled: seq<Request>,
    forgotten: seq<Request>
  )

  function Start(repaired: bool, maxQueue: nat): World {
    World(Empty(repaired, maxQueue), [], {}, {}, [], [])
  }

  predicate Sentinel(cid: nat) {
    cid == UNKNOWN_COLLECTION_ID || cid == PENDING_COLLECTION_ID
  }

  ghost predicate NewId(w: World, r: Request) {
    forall j :: 0 <= j < |w.accepted| ==> w.accepted[j].id != r.id
  }

  // The lookup that an answer belongs to.
  function Answered(c: Component, i: nat): Option<Lookup> {
    if i < |c.lookups| && c.lookups[i].entry < |c.entries| then Some(c.lookups[i]) else None
  }

  ghost function Step(w: World, a: Action): Component
    requires CacheValid(w.c)
  {
    match a
    case DispatchAction(r, accepted) => if NewId(w, r) then Dispatch(w.c, r, accepted) else w.c
    case LookupSucceeds(i, cid) =>
      if Answered(w.c, i).Some?
      then LookupSucceeded(w.c.(lookups := TakeOut(w.c.lookups, i)), w.c.lookups[i], cid) else w.c
    case LookupFails(i, error) =>
      if Answered(w.c, i).Some?
      then LookupFailed(w.c.(lookups := TakeOut(w.c.lookups, i)), w.c.lookups[i], error) else w.c
    case TimerFires(i, accepted) =>
      if i < |w.c.timers|
      then ReQueue(w.c.(timers := TakeOut(w.c.timers, i)), w.c.timers[i], accepted) else w.c
    case OutsideLookup(key, cid) => Upsert(w.c, key, cid)
  }

  // ---------- What happens to a key ----------

  // A lookup for names with defaults put in sets the id of another key than its own.
  function TouchedBy(c: Component, a: Action): set<Key> {
    match a
    case LookupSucceeds(i, cid) =>
      if Answered(c, i).None? then {}
      else if Retries(c.lookups[i].request) then (if Sentinel(cid) then {c.lookups[i].request.Key()} else {})
      else {c.lookups[i].request.Key(), c.lookups[i].request.LookupKey()}
    case OutsideLookup(key, cid) => {key}
    case _ => {}
  }

  function SpoiledBy(c: Component, a: Action): set<Key> {
    match a
    case LookupSucceeds(i, cid) =>
      if Answered(c, i).None? then {}
      else
        (if Retries(c.lookups[i].request) then {} else {c.lookups[i].request.Key()})
        + (if Sentinel(cid) then {c.lookups[i].request.LookupKey()} else {})
    case OutsideLookup(key, cid) => if Sentinel(cid) then {key} else {}
    case _ => {}
  }

  // Dispatching through this key would send a lookup.
  ghost predicate AsksServer(c: Component, key: Key, reset: bool)
    requires CacheValid(c)
  {
    key in c.cache ==>
      var entry := c.entries[c.cache[key]];
      (entry.cid == UNKNOWN_COLLECTION_ID || (reset && entry.cid != PENDING_COLLECTION_ID)) && !IsFull(c, entry.queue)
  }

  // The lookup that a request needs cannot be sent: the request is refused and stays queued.
  ghost predicate LookupCannotBeSent(c: Component, q: Request, accepted: bool)
    requires CacheValid(c)
  {
    !q.NeedsNoLookup() && AsksServer(c, q.Key(), false) && !accepted
  }

  ghost function DoubledBy(w: World, a: Action): seq<Request>
    requires CacheValid(w.c)
  {
    match a
    case DispatchAction(r, accepted) => if NewId(w, r) && LookupCannotBeSent(w.c, r, accepted) then [r] else []
    case TimerFires(i, accepted) =>
      if i < |w.c.timers| && AsksServer(w.c, w.c.timers[i].Key(), true) && !accepted then [w.c.timers[i]] else []
    case _ => []
  }

  predicate Forgets(c: Component, l: Lookup, error: Error)
    requires l.entry < |c.entries|
  {
    c.repaired && error == CollectionNotFound && l.request in c.entries[l.entry].queue && !Retries(l.request)
  }

  function ForgottenBy(c: Component, a: Action): seq<Request> {
    match a
    case LookupFails(i, error) =>
      if Answered(c, i).Some? && Forgets(c, c.lookups[i], error) then [c.lookups[i].request] else []
    case _ => []
  }

  ghost function Apply(w: World, a: Action): World
    requires CacheValid(w.c)
  {
    World(Step(w, a),
          w.accepted + (if a.DispatchAction? && NewId(w, a.r) then [a.r] else []),
          w.touched + TouchedBy(w.c, a),
          w.spoiled + SpoiledBy(w.c, a),
          w.doubled + DoubledBy(w, a),
          w.forgotten + ForgottenBy(w.c, a))
  }

  // ---------- What belongs to a key ----------

  ghost function LookupsOf(lookups: seq<Lookup>, key: Key): seq<Lookup> {
    if lookups == [] then []
    else
      var last := lookups[|lookups| - 1];
      LookupsOf(lookups[..|lookups| - 1], key) + (if last.request.Key() == key then [last] else [])
  }

  ghost function TimersOf(timers: seq<Request>, key: Key): nat {
    if timers == [] then 0
    else TimersOf(timers[..|timers| - 1], key) + (if timers[|timers| - 1].Key() == key then 1 else 0)
  }

  lemma LookupsOfAppend(lookups: seq<Lookup>, l: Lookup, key: Key)
    ensures LookupsOf(lookups + [l], key) == LookupsOf(lookups, key) + (if l.request.Key() == key then [l] else [])
  {
    assert (lookups + [l])[..|lookups|] == lookups;
  }

  lemma TimersOfAppend(timers: seq<Request>, r: Request, key: Key)
    ensures TimersOf(timers + [r], key) == TimersOf(timers, key) + (if r.Key() == key then 1 else 0)
  {
    assert (timers + [r])[..|timers|] == timers;
  }

  lemma {:induction false} LookupsOfTakeOut(lookups: seq<Lookup>, i: nat, key: Key)
    requires i < |lookups|
    ensures lookups[i].request.Key() != key ==> LookupsOf(TakeOut(lookups, i), key) == LookupsOf(lookups, key)
    ensures lookups[i].request.Key() == key ==>
              && lookups[i] in LookupsOf(lookups, key)
              && |LookupsOf(TakeOut(lookups, i), key)| == |LookupsOf(lookups, key)| - 1
  {
    var n := |lookups| - 1;
    if i < n {
      LookupsOfTakeOut(lookups[..n], i, key);
      assert TakeOut(lookups, i) == TakeOut(lookups[..n], i) + [lookups[n]];
      LookupsOfAppend(TakeOut(lookups[..n], i), lookups[n], key);
    } else {
      assert TakeOut(lookups, i) == lookups[..n];
    }
  }

  lemma {:induction false} TimersOfTakeOut(timers: seq<Request>, i: nat, key: Key)
    requires i < |timers|
    ensures TimersOf(TakeOut(timers, i), key) == TimersOf(timers, key) - (if timers[i].Key() == key then 1 else 0)
  {
    var n := |timers| - 1;
    if i < n {
      TimersOfTakeOut(timers[..n], i, key);
      assert TakeOut(timers, i) == TakeOut(timers[..n], i) + [timers[n]];
      TimersOfAppend(TakeOut(timers[..n], i), timers[n], key);
    } else {
      assert TakeOut(timers, i) == timers[..n];
    }
  }

  // ---------- The laws of one key ----------

  // At most one lookup is in flight, for the cached entry; an unknown id has none, a pending
  // one has.
  ghost predicate LookupLaw(c: Component, k: Key) {
    var lookups := LookupsOf(c.lookups, k);
    && |lookups| <= 1
    && (lookups != [] ==> k in c.cache && lookups[0].entry == c.cache[k])
    && (k in c.cache && c.cache[k] < |c.entries| ==>
          var cid := c.entries[c.cache[k]].cid;
          && (cid == UNKNOWN_COLLECTION_ID ==> lookups == [])
          && (cid == PENDING_COLLECTION_ID ==> lookups != []))
  }

  // While a lookup is in flight, the id is pending.
  ghost predicate PendingLaw(c: Component, k: Key) {
    k in c.cache && c.cache[k] < |c.entries| && LookupsOf(c.lookups, k) != [] ==>
      c.entries[c.cache[k]].cid == PENDING_COLLECTION_ID
  }

  // Who waits, waits for a lookup or a retry; and an unknown collection has room for the
  // request that will ask for it.
  ghost predicate WaitLaw(c: Component, k: Key) {
    k in c.cache && c.cache[k] < |c.entries| ==>
      var entry := c.entries[c.cache[k]];
      && (entry.queue != [] ==> LookupsOf(c.lookups, k) != [] || (c.repaired && TimersOf(c.timers, k) > 0))
      && (c.repaired && !Sentinel(entry.cid) ==> entry.queue == [])
      && (entry.cid == UNKNOWN_COLLECTION_ID && c.maxQueue > 0 ==> |entry.queue| < c.maxQueue)
  }

  // Nobody waits in an entry that the cache no longer has.
  ghost predicate StraysIdle(c: Component, k: Key) {
    forall e :: 0 <= e < |c.entries| && c.entries[e].key == k && !(k in c.cache && c.cache[k] == e) ==>
      c.entries[e].queue == []
  }

  // clean: only the key's own lookups have set its id, or at least no sentinel came from an
  // answer and nothing is ever retried. untouched: the former. undoubled: all its lookups
  // could be sent.
  ghost predicate KeyLaws(c: Component, k: Key, clean: bool, untouched: bool, undoubled: bool) {
    && (clean ==> LookupLaw(c, k) && StraysIdle(c, k))
    && (untouched ==> PendingLaw(c, k))
    && (clean && undoubled ==> WaitLaw(c, k))
  }

  ghost predicate Untouched(w: World, k: Key) {
    k !in w.touched
  }

  ghost predicate Clean(w: World, k: Key) {
    k !in w.touched || (!w.c.repaired && k !in w.spoiled)
  }

  ghost predicate Undoubled(w: World, k: Key) {
    forall i :: 0 <= i < |w.doubled| ==> w.doubled[i].Key() != k
  }

  ghost predicate EveryKeyOk(w: World) {
    forall k: Key :: KeyLaws(w.c, k, Clean(w, k), Untouched(w, k), Undoubled(w, k))
  }

  // ---------- What holds of every key ----------

  ghost predicate CacheOk(c: Component) {
    forall k :: k in c.cache ==> c.cache[k] < |c.entries| && c.entries[c.cache[k]].key == k
  }

  ghost predicate LookupsKeyed(c: Component) {
    forall i :: 0 <= i < |c.lookups| ==>
      c.lookups[i].entry < |c.entries| && c.entries[c.lookups[i].entry].key == c.lookups[i].request.Key()
  }

  ghost predicate Keyed(queue: seq<Request>, key: Key) {
    forall i :: 0 <= i < |queue| ==> queue[i].Key() == key
  }

  ghost predicate EntryFits(entry: Entry, maxQueue: nat) {
    Keyed(entry.queue, entry.key) && (maxQueue > 0 ==> |entry.queue| <= maxQueue)
  }

  ghost predicate EntriesFit(c: Component) {
    forall e :: 0 <= e < |c.entries| ==> EntryFits(c.entries[e], c.maxQueue)
  }

  // An id that is no sentinel is the latest that was looked up for its key.
  ghost predicate IdsAreLatest(c: Component) {
    forall k :: k in c.cache && c.cache[k] < |c.entries| && !Sentinel(c.entries[c.cache[k]].cid) ==>
      k in c.latest && c.latest[k] == c.entries[c.cache[k]].cid
  }

  ghost predicate Basic(c: Component) {
    && CacheOk(c) && LookupsKeyed(c) && EntriesFit(c) && IdsAreLatest(c)
    && (!c.repaired ==> c.timers == [])
  }
}
