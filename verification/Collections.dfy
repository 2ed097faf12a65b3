/**
 The collection-id cache: requests for a collection whose id is not known wait in its
 entry's queue while one lookup asks the server.
 */
module Collections {
  import opened Wrappers

  const UNKNOWN_COLLECTION_ID := 0xffff_ffff
  const PENDING_COLLECTION_ID := 0xffff_fffe
  const DEFAULT_NAME := "_default"

  type Key = string

  function BuildKey(scope: string, collection: string): Key {
    scope + "." + collection
  }

  // parses is false for a range_scan_create request whose JSON body cannot be parsed, so
  // that no collection id can be put into it.
  datatype Request = Request(id: nat, scope: string, collection: string, presetCid: nat, parses: bool) {
    function Key(): Key { BuildKey(scope, collection) }

    // The names a lookup asks for: get_collection_id replaces empty ones.
    function LookupKey(): Key {
      BuildKey(if scope == "" then DEFAULT_NAME else scope, if collection == "" then DEFAULT_NAME else collection)
    }

    predicate NeedsNoLookup() {
      presetCid > 0 || (scope == "" && collection == "") || (scope == DEFAULT_NAME && collection == DEFAULT_NAME)
    }
  }

  datatype Error = QueueFull | ParsingFailure | DispatchError | CollectionNotFound | OtherError(code: int)

  // An entry keeps its place in `entries` for good; the cache points to it or no longer does.
  datatype Entry = Entry(key: Key, cid: nat, queue: seq<Request>)

  // A GetCollectionID request in flight. Its callback captured the entry and the request.
  datatype Lookup = Lookup(entry: nat, request: Request)

  // A request handed to the dispatcher with the collection id it carries.
  datatype Sent = Sent(request: Request, cid: nat)

  // repaired selects what operation_queue::remove does: as written (false) it never
  // removes anything. direct, sent, called, refused and dropped record where requests went;
  // latest is the id of the last successful lookup of each key.
  datatype Component = Component(
    repaired: bool,
    maxQueue: nat,
    entries: seq<Entry>,
    cache: map<Key, nat>,
    lookups: seq<Lookup>,
    timers: seq<Request>,
    direct: seq<Request>,
    sent: seq<Sent>,
    called: seq<(Request, Error)>,
    refused: seq<(Request, Error)>,
    dropped: seq<Request>,
    latest: map<Key, nat>
  )

  function Empty(repaired: bool, maxQueue: nat): Component {
    Component(repaired, maxQueue, [], map[], [], [], [], [], [], [], [], map[])
  }

  // ---------- The cache ----------

  function Insert(c: Component, key: Key, cid: nat): Component {
    if key in c.cache then c
    else c.(entries := c.entries + [Entry(key, cid, [])], cache := c.cache[key := |c.entries|])
  }

  function SetId(c: Component, e: nat, cid: nat): Component
    requires e < |c.entries|
  {
    c.(entries := c.entries[e := c.entries[e].(cid := cid)])
  }

  function SetQueue(c: Component, e: nat, queue: seq<Request>): Component
    requires e < |c.entries|
  {
    c.(entries := c.entries[e := c.entries[e].(queue := queue)])
  }

  ghost predicate CacheValid(c: Component) {
    forall k :: k in c.cache ==> c.cache[k] < |c.entries|
  }

  function Upsert(c: Component, key: Key, cid: nat): Component
    requires key in c.cache ==> c.cache[key] < |c.entries|
  {
    var c := c.(latest := c.latest[key := cid]);
    if key in c.cache then SetId(c, c.cache[key], cid) else Insert(c, key, cid)
  }

  function Remove(c: Component, key: Key): Component {
    c.(cache := c.cache - {key})
  }

  // ---------- Dispatching through an entry ----------

  function IsFull(c: Component, queue: seq<Request>): bool {
    c.maxQueue > 0 && |queue| >= c.maxQueue
  }

  // accepted is the dispatcher's answer to what this dispatch sends, if it sends anything.
  function EntryDispatch(c: Component, e: nat, r: Request, accepted: bool): (Component, Option<Error>)
    requires e < |c.entries|
  {
    var entry := c.entries[e];
    if entry.cid == UNKNOWN_COLLECTION_ID then
      if IsFull(c, entry.queue) then (c, Some(QueueFull))
      else
        var queued := SetQueue(c, e, entry.queue + [r]);
        // refresh_collection_id fails with the request still in the queue
        if !accepted then (queued, Some(DispatchError))
        else (SetId(queued, e, PENDING_COLLECTION_ID).(lookups := c.lookups + [Lookup(e, r)]), None)
    else if entry.cid == PENDING_COLLECTION_ID then
      if IsFull(c, entry.queue) then (c, Some(QueueFull)) else (SetQueue(c, e, entry.queue + [r]), None)
    else if !r.parses then (c, Some(ParsingFailure))
    else if !accepted then (c, Some(DispatchError))
    else (c.(sent := c.sent + [Sent(r, entry.cid)]), None)
  }

  function Dispatch(c: Component, r: Request, accepted: bool): Component
    requires CacheValid(c)
  {
    if r.NeedsNoLookup() then
      if accepted then c.(direct := c.direct + [r]) else c.(refused := c.refused + [(r, DispatchError)])
    else
      var c := Insert(c, r.Key(), UNKNOWN_COLLECTION_ID);
      var (c, error) := EntryDispatch(c, c.cache[r.Key()], r, accepted);
      if error.Some? then c.(refused := c.refused + [(r, error.value)]) else c
  }

  function ResetId(c: Component, e: nat): Component
    requires e < |c.entries|
  {
    if c.entries[e].cid != UNKNOWN_COLLECTION_ID && c.entries[e].cid != PENDING_COLLECTION_ID
    then SetId(c, e, UNKNOWN_COLLECTION_ID) else c
  }

  // A retry timer fires.
  function ReQueue(c: Component, r: Request, accepted: bool): Component
    requires CacheValid(c)
  {
    var c := Insert(c, r.Key(), UNKNOWN_COLLECTION_ID);
    var (c, error) := EntryDispatch(ResetId(c, c.cache[r.Key()]), c.cache[r.Key()], r, accepted);
    if error.Some? then c.(called := c.called + [(r, error.value)]) else c
  }

  // ---------- The answer to a lookup ----------

  function SendAll(queue: seq<Request>, cid: nat): seq<Sent> {
    if queue == [] then []
    else
      var last := queue[|queue| - 1];
      SendAll(queue[..|queue| - 1], cid) + (if last.parses then [Sent(last, cid)] else [])
  }

  function Unparsable(queue: seq<Request>): seq<Request> {
    if queue == [] then []
    else
      var last := queue[|queue| - 1];
      Unparsable(queue[..|queue| - 1]) + (if last.parses then [] else [last])
  }

  function CallAll(queue: seq<Request>, error: Error): seq<(Request, Error)> {
    if queue == [] then []
    else CallAll(queue[..|queue| - 1], error) + [(queue[|queue| - 1], error)]
  }

  // The id goes to the entry that the cache has under the names that were looked up; the
  // waiters get the id of the entry that the callback captured.
  function LookupSucceeded(c: Component, l: Lookup, cid: nat): Component
    requires CacheValid(c) && l.entry < |c.entries|
  {
    var c := Upsert(c, l.request.LookupKey(), cid);
    var entry := c.entries[l.entry];
    SetQueue(c, l.entry, []).(
      sent := c.sent + SendAll(entry.queue, entry.cid),
      dropped := c.dropped + Unparsable(entry.queue))
  }

  function IndexOf(queue: seq<Request>, r: Request): (i: nat)
    ensures i <= |queue| && (i < |queue| ==> queue[i] == r) && (i == |queue| ==> r !in queue)
  {
    if queue == [] then 0
    else if queue[0] == r then 0
    else 1 + IndexOf(queue[1..], r)
  }

  function Without(queue: seq<Request>, r: Request): seq<Request> {
    var i := IndexOf(queue, r);
    if i < |queue| then queue[..i] + queue[i + 1..] else queue
  }

  // handle_collection_unknown: with both names present the retry is always granted, since
  // its reason is one of those that are always retried.
  predicate Retries(r: Request) {
    r.scope != "" && r.collection != ""
  }

  function DrainWithError(c: Component, l: Lookup, error: Error): Component
    requires l.entry < |c.entries|
  {
    var queue := c.entries[l.entry].queue;
    SetQueue(Remove(c, l.request.Key()), l.entry, []).(called := c.called + CallAll(queue, error))
  }

  function LookupFailed(c: Component, l: Lookup, error: Error): Component
    requires l.entry < |c.entries|
  {
    if error == CollectionNotFound then
      var c := SetId(c, l.entry, UNKNOWN_COLLECTION_ID);
      var queue := c.entries[l.entry].queue;
      if c.repaired && l.request in queue then
        var c := SetQueue(c, l.entry, Without(queue, l.request));
        if Retries(l.request) then c.(timers := c.timers + [l.request])
        else DrainWithError(c, l, error)     // the removed request is not in the drained queue
      else DrainWithError(c, l, error)
    else DrainWithError(c, l, error)
  }

  // ---------- The component as the object it is ----------

  class CollectionsComponent {
    const repaired: bool
    const maxQueueSize: nat
    var entries: seq<Entry>
    var cache: map<Key, nat>
    var lookups: seq<Lookup>
    var timers: seq<Request>
    ghost var direct: seq<Request>
    ghost var sent: seq<Sent>
    ghost var called: seq<(Request, Error)>
    ghost var refused: seq<(Request, Error)>
    ghost var dropped: seq<Request>
    ghost var latest: map<Key, nat>

    ghost function View(): Component
      reads this
    {
      Component(repaired, maxQueueSize, entries, cache, lookups, timers, direct, sent, called, refused, dropped, latest)
    }

    constructor (repaired: bool, maxQueueSize: nat)
      ensures View() == Empty(repaired, maxQueueSize)
    {
      this.repaired, this.maxQueueSize := repaired, maxQueueSize;
      entries, cache, lookups, timers := [], map[], [], [];
      direct, sent, called, refused, dropped, latest := [], [], [], [], [], map[];
    }

    method GetAndMaybeInsert(key: Key, cid: nat) returns (e: nat)
      requires CacheValid(View())
      modifies this`entries, this`cache
      ensures View() == Insert(old(View()), key, cid) && CacheValid(View())
      ensures key in cache && e == cache[key]
    {
      if key in cache {
        return cache[key];
      }
      e := |entries|;
      entries := entries + [Entry(key, cid, [])];
      cache := cache[key := e];
    }

    method UpsertId(key: Key, cid: nat)
      requires CacheValid(View())
      modifies this`entries, this`cache, this`latest
      ensures View() == Upsert(old(View()), key, cid) && CacheValid(View())
    {
      latest := latest[key := cid];
      if key in cache {
        entries := entries[cache[key] := entries[cache[key]].(cid := cid)];
        return;
      }
      cache := cache[key := |entries|];
      entries := entries + [Entry(key, cid, [])];
    }

    method Push(e: nat, r: Request) returns (error: Option<Error>)
      requires e < |entries|
      modifies this`entries
      ensures error == (if IsFull(old(View()), old(entries)[e].queue) then Some(QueueFull) else None)
      ensures View() == if error.Some? then old(View()) else SetQueue(old(View()), e, old(entries)[e].queue + [r])
    {
      if maxQueueSize > 0 && |entries[e].queue| >= maxQueueSize {
        return Some(QueueFull);
      }
      entries := entries[e := entries[e].(queue := entries[e].queue + [r])];
      return None;
    }

    method DispatchThrough(e: nat, r: Request, accepted: bool) returns (error: Option<Error>)
      requires e < |entries|
      modifies this`entries, this`lookups, this`sent
      ensures (View(), error) == EntryDispatch(old(View()), e, r, accepted)
    {
      if entries[e].cid == UNKNOWN_COLLECTION_ID {
        entries := entries[e := entries[e].(cid := PENDING_COLLECTION_ID)];
        error := RefreshCollectionId(e, r, accepted);
        if error.Some? {
          entries := entries[e := entries[e].(cid := UNKNOWN_COLLECTION_ID)];
        }
        assert View().entries == EntryDispatch(old(View()), e, r, accepted).0.entries;
        return;
      }
      if entries[e].cid == PENDING_COLLECTION_ID {
        error := Push(e, r);
        return;
      }
      if !r.parses {
        return Some(ParsingFailure);
      }
      if !accepted {
        return Some(DispatchError);
      }
      sent := sent + [Sent(r, entries[e].cid)];
      return None;
    }

    method RefreshCollectionId(e: nat, r: Request, accepted: bool) returns (error: Option<Error>)
      requires e < |entries|
      modifies this`entries, this`lookups
      ensures error == (if IsFull(old(View()), old(entries)[e].queue) then Some(QueueFull)
                        else if !accepted then Some(DispatchError) else None)
      ensures entries == if error == Some(QueueFull) then old(entries)
                         else old(entries)[e := old(entries)[e].(queue := old(entries)[e].queue + [r])]
      ensures lookups == if error.None? then old(lookups) + [Lookup(e, r)] else old(lookups)
    {
      error := Push(e, r);
      if error.Some? {
        return;
      }
      if !accepted {
        return Some(DispatchError);
      }
      lookups := lookups + [Lookup(e, r)];
    }

    method DispatchRequest(r: Request, accepted: bool)
      requires CacheValid(View())
      modifies this
      ensures View() == Dispatch(old(View()), r, accepted)
    {
      if r.presetCid > 0 || (r.collection == "" && r.scope == "")
         || (r.collection == DEFAULT_NAME && r.scope == DEFAULT_NAME) {
        if accepted {
          direct := direct + [r];
        } else {
          refused := refused + [(r, DispatchError)];
        }
        return;
      }
      var e := GetAndMaybeInsert(r.Key(), UNKNOWN_COLLECTION_ID);
      var error := DispatchThrough(e, r, accepted);
      if error.Some? {
        refused := refused + [(r, error.value)];
      }
    }

    method ReQueueRequest(r: Request, accepted: bool)
      requires CacheValid(View())
      modifies this
      ensures View() == ReQueue(old(View()), r, accepted)
    {
      var e := GetAndMaybeInsert(r.Key(), UNKNOWN_COLLECTION_ID);
      if entries[e].cid != UNKNOWN_COLLECTION_ID && entries[e].cid != PENDING_COLLECTION_ID {
        entries := entries[e := entries[e].(cid := UNKNOWN_COLLECTION_ID)];
      }
      var error := DispatchThrough(e, r, accepted);
      if error.Some? {
        called := called + [(r, error.value)];
      }
    }

    method SwapQueue(e: nat) returns (queue: seq<Request>)
      requires e < |entries|
      modifies this`entries
      ensures queue == old(entries)[e].queue && View() == SetQueue(old(View()), e, [])
    {
      queue := entries[e].queue;
      entries := entries[e := entries[e].(queue := [])];
    }

    method OnLookupSuccess(l: Lookup, cid: nat)
      requires CacheValid(View()) && l.entry < |entries|
      modifies this
      ensures View() == LookupSucceeded(old(View()), l, cid)
    {
      UpsertId(l.request.LookupKey(), cid);
      var queue := SwapQueue(l.entry);
      SendWaiters(queue, l.entry);
    }

    // drain: give each waiter the entry's id and put it back on its way
    method SendWaiters(queue: seq<Request>, e: nat)
      requires e < |entries|
      modifies this`sent, this`dropped
      ensures sent == old(sent) + SendAll(queue, entries[e].cid)
      ensures dropped == old(dropped) + Unparsable(queue)
    {
      for i := 0 to |queue|
        invariant sent == old(sent) + SendAll(queue[..i], entries[e].cid)
        invariant dropped == old(dropped) + Unparsable(queue[..i])
      {
        assert queue[..i + 1][..i] == queue[..i];
        if queue[i].parses {
          sent := sent + [Sent(queue[i], entries[e].cid)];
        } else {
          dropped := dropped + [queue[i]];
        }
      }
      assert queue[..|queue|] == queue;
    }

    method OnLookupFailure(l: Lookup, error: Error)
      requires l.entry < |entries|
      modifies this
      ensures View() == LookupFailed(old(View()), l, error)
    {
      if error == CollectionNotFound {
        entries := entries[l.entry := entries[l.entry].(cid := UNKNOWN_COLLECTION_ID)];
        var i := IndexOf(entries[l.entry].queue, l.request);
        if repaired && i < |entries[l.entry].queue| {
          var queue := entries[l.entry].queue;
          entries := entries[l.entry := entries[l.entry].(queue := queue[..i] + queue[i + 1..])];
          if l.request.scope != "" && l.request.collection != "" {
            timers := timers + [l.request];
            return;
          }
        }
      }
      DrainQueue(l, error);
    }

    method DrainQueue(l: Lookup, error: Error)
      requires l.entry < |entries|
      modifies this`cache, this`entries, this`called
      ensures View() == DrainWithError(old(View()), l, error)
    {
      cache := cache - {l.request.Key()};
      label Removed:
      var queue := SwapQueue(l.entry);
      for i := 0 to |queue|
        invariant called == old(called) + CallAll(queue[..i], error)
        invariant View() == SetQueue(old@Removed(View()), l.entry, []).(called := called)
      {
        assert queue[..i + 1][..i] == queue[..i];
        called := called + [(queue[i], error)];
      }
      assert queue[..|queue|] == queue;
    }
  }
}
