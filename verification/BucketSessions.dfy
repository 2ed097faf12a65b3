/**
 The sessions of a bucket, one slot for each key-value node: how an accepted configuration
 rebuilds the map of slots, and how a restart repairs it in place.
 */
module BucketSessions {
  import opened Wrappers
  import opened BucketConfig

  // usable: bootstrapped and able to push cluster configurations (GCCCP)
  datatype Session = Session(id: nat, endpoint: Endpoint, usable: bool)

  type Sessions = map<nat, Session>

  // ---------- The first session of an endpoint ----------

  ghost predicate IsFirst(sessions: Sessions, endpoint: Endpoint, k: nat) {
    k in sessions && sessions[k].endpoint == endpoint &&
    forall j :: j in sessions && j < k ==> sessions[j].endpoint != endpoint
  }

  ghost predicate Has(sessions: Sessions, endpoint: Endpoint) {
    exists k :: k in sessions && sessions[k].endpoint == endpoint
  }

  lemma {:induction false} FirstExists(sessions: Sessions, endpoint: Endpoint, k: nat)
    requires k in sessions && sessions[k].endpoint == endpoint
    ensures exists first :: IsFirst(sessions, endpoint, first)
  {
    if j :| j in sessions && j < k && sessions[j].endpoint == endpoint {
      FirstExists(sessions, endpoint, j);
    } else {
      assert IsFirst(sessions, endpoint, k);
    }
  }

  ghost function First(sessions: Sessions, endpoint: Endpoint): (first: nat)
    requires Has(sessions, endpoint)
    ensures IsFirst(sessions, endpoint, first)
  {
    var k :| k in sessions && sessions[k].endpoint == endpoint;
    FirstExists(sessions, endpoint, k);
    var first :| IsFirst(sessions, endpoint, first);
    first
  }

  method Pick<T(==)>(s: set<T>) returns (x: T)
    requires s != {}
    ensures x in s
  {
    x :| x in s;
  }

  // std::find_if over the ordered map
  method FindIf(sessions: Sessions, endpoint: Endpoint) returns (found: Option<nat>)
    ensures found.Some? <==> Has(sessions, endpoint)
    ensures found.Some? ==> found.value == First(sessions, endpoint)
  {
    found := None;
    var rest := sessions.Keys;
    while rest != {}
      invariant rest <= sessions.Keys
      invariant found.None? ==> forall j :: j in sessions && j !in rest ==> sessions[j].endpoint != endpoint
      invariant found.Some? ==> found.value in sessions && sessions[found.value].endpoint == endpoint
      invariant found.Some? ==>
                  forall j :: j in sessions && j !in rest && j < found.value ==> sessions[j].endpoint != endpoint
    {
      var k := Pick(rest);
      if sessions[k].endpoint == endpoint && (found.None? || k < found.value) {
        found := Some(k);
      }
      rest := rest - {k};
    }
    if found.Some? {
      assert IsFirst(sessions, endpoint, found.value);
    }
  }

  // ---------- Restart: the repair in place ----------

  // One iteration of restart_sessions: index counts all nodes, slot the ones that have a
  // key-value port. A new session goes to `index`.
  ghost function RestartStep(sessions: Sessions, endpoint: Endpoint, index: nat, slot: nat, id: nat): Sessions {
    if Has(sessions, endpoint) then
      var first := First(sessions, endpoint);
      if first == slot then sessions
      else if slot !in sessions then sessions[slot := sessions[first]] - {first}
      else sessions[slot := sessions[first]][first := sessions[slot]]
    else sessions[index := Session(id, endpoint, false)]
  }

  ghost function Restart(endpoints: seq<Endpoint>, index: nat, slot: nat, sessions: Sessions, id: nat): Sessions
    requires index <= |endpoints|
    decreases |endpoints| - index
  {
    if index == |endpoints| then sessions
    else if endpoints[index].port == 0 then Restart(endpoints, index + 1, slot, sessions, id)
    else
      Restart(endpoints, index + 1, slot + 1, RestartStep(sessions, endpoints[index], index, slot, id),
              if Has(sessions, endpoints[index]) then id else id + 1)
  }

  ghost function IdAfterRestart(endpoints: seq<Endpoint>, index: nat, slot: nat, sessions: Sessions, id: nat):
    (next: nat)
    requires index <= |endpoints|
    ensures next >= id
    decreases |endpoints| - index
  {
    if index == |endpoints| then id
    else if endpoints[index].port == 0 then IdAfterRestart(endpoints, index + 1, slot, sessions, id)
    else
      IdAfterRestart(endpoints, index + 1, slot + 1, RestartStep(sessions, endpoints[index], index, slot, id),
                     if Has(sessions, endpoints[index]) then id else id + 1)
  }

  // ---------- Rebuild: what an accepted configuration leads to ----------

  // One slot for each key-value node, at its endpoint.
  ghost predicate Matches(sessions: Sessions, kv: seq<Endpoint>) {
    && (forall i :: i in sessions <==> 0 <= i < |kv|)
    && (forall i :: i in sessions ==> sessions[i].endpoint == kv[i])
  }

  // kept[i] is the old slot of the session in slot i: preserved once, and unchanged.
  ghost predicate PreservedOnce(before: Sessions, after: Sessions, kept: map<nat, nat>) {
    && (forall i :: i in kept ==> i in after && kept[i] in before && after[i] == before[kept[i]])
    && (forall i, j :: i in kept && j in kept && i != j ==> kept[i] != kept[j])
  }

  // What is not preserved is dropped.
  ghost predicate SplitExactly(before: Sessions, kept: map<nat, nat>, dropped: Sessions) {
    && (forall k :: k in dropped <==> k in before && k !in kept.Values)
    && (forall k :: k in dropped ==> dropped[k] == before[k])
  }

  // A session is new only if none was left for its endpoint.
  ghost predicate NewOnlyWhenNoneLeft(after: Sessions, kept: map<nat, nat>, dropped: Sessions, firstNewId: nat) {
    && (forall i :: i in after && i !in kept ==> after[i].id >= firstNewId && !Has(dropped, after[i].endpoint))
    && (forall i, j :: i in after && i !in kept && j in kept && j in after && i < j ==>
          after[i].endpoint != after[j].endpoint)
  }

  // Sessions of one endpoint are preserved in the order of their slots.
  ghost predicate FirstComeFirstKept(after: Sessions, kept: map<nat, nat>, dropped: Sessions) {
    && (forall i, j :: i in kept && j in kept && i in after && j in after && i < j ==>
          after[i].endpoint == after[j].endpoint ==> kept[i] < kept[j])
    && (forall i, k :: i in kept && i in after && k in dropped && after[i].endpoint == dropped[k].endpoint ==>
          kept[i] < k)
  }

  ghost predicate Rebuilt(before: Sessions, kv: seq<Endpoint>, after: Sessions, kept: map<nat, nat>,
                          dropped: Sessions, firstNewId: nat) {
    && Matches(after, kv)
    && PreservedOnce(before, after, kept)
    && SplitExactly(before, kept, dropped)
    && NewOnlyWhenNoneLeft(after, kept, dropped, firstNewId)
    && FirstComeFirstKept(after, kept, dropped)
  }

  // New sessions get new ids, each its own, and cannot be used before they have bootstrapped.
  ghost predicate Numbered(after: Sessions, kept: map<nat, nat>, firstNewId: nat, nextId: nat) {
    && firstNewId <= nextId
    && (forall i :: i in after && i !in kept ==> firstNewId <= after[i].id < nextId && !after[i].usable)
    && (forall i, j :: i in after && i !in kept && j in after && j !in kept && i != j ==> after[i].id != after[j].id)
  }

  // ---------- The three operations on the state of the bucket ----------

  datatype State = State(config: Option<Config>, sessions: Sessions, nextId: nat)

  ghost predicate Changes(o: Options, before: Option<Config>, config: Config) {
    before.None? || !SameEndpointSets(o, before.value.nodes, config.nodes)
    || !SameSequence(before.value.nodes, config.nodes)
  }

  ghost predicate Updates(o: Options, v: State, config: Config, w: State, kept: map<nat, nat>, stopped: Sessions) {
    if !Accepts(v.config, config) then w == v && stopped == map[]
    else
      && w.config == Some(config)
      && if Changes(o, v.config, config) then
           && Rebuilt(v.sessions, KvEndpoints(Endpoints(o, config.nodes)), w.sessions, kept, stopped, v.nextId)
           && Numbered(w.sessions, kept, v.nextId, w.nextId)
         else w.sessions == v.sessions && w.nextId == v.nextId && stopped == map[]
  }

  ghost function Restarts(o: Options, v: State): State {
    if v.config.None? then v
    else
      var endpoints := Endpoints(o, v.config.value.nodes);
      v.(sessions := Restart(endpoints, 0, 0, v.sessions, v.nextId),
         nextId := IdAfterRestart(endpoints, 0, 0, v.sessions, v.nextId))
  }

  function Removes(v: State, id: nat): State {
    v.(sessions := Without(v.sessions, id))
  }

  function Without(sessions: Sessions, removed: nat): Sessions {
    map k | k in sessions && sessions[k].id != removed :: sessions[k]
  }

  class Bucket {
    const options: Options
    var config: Option<Config>
    var configured: bool
    var sessions: Sessions
    var nextId: nat
    ghost var announced: seq<Config>   // what the configuration listeners were told

    ghost function View(): State
      reads this
    {
      State(config, sessions, nextId)
    }

    constructor (options: Options)
      ensures View() == State(None, map[], 0) && !configured && announced == []
    {
      this.options := options;
      config, configured, sessions, nextId, announced := None, false, map[], 0, [];
    }

    method RestartSessions()
      modifies this`sessions, this`nextId
      ensures View() == Restarts(options, old(View()))
    {
      if config.None? {
        return;
      }
      var endpoints := Endpoints(options, config.value.nodes);
      var slot := 0;
      for index := 0 to |endpoints|
        invariant Restart(endpoints, index, slot, sessions, nextId)
               == Restart(endpoints, 0, 0, old(sessions), old(nextId))
        invariant IdAfterRestart(endpoints, index, slot, sessions, nextId)
               == IdAfterRestart(endpoints, 0, 0, old(sessions), old(nextId))
      {
        if endpoints[index].port != 0 {
          var found := FindIf(sessions, endpoints[index]);
          if found.Some? {
            if found.value != slot {
              if slot !in sessions {
                sessions := sessions[slot := sessions[found.value]] - {found.value};
              } else {
                sessions := sessions[slot := sessions[found.value]][found.value := sessions[slot]];
              }
            }
          } else {
            sessions := sessions[index := Session(nextId, endpoints[index], false)];
            nextId := nextId + 1;
          }
          slot := slot + 1;
        }
      }
    }

    method RemoveSession(id: nat) returns (restart: bool)
      modifies this`sessions
      ensures View() == Removes(old(View()), id)
      ensures restart <==> exists k :: k in old(sessions) && old(sessions)[k].id == id
    {
      restart := false;
      var rest := sessions.Keys;
      while rest != {}
        invariant rest <= old(sessions).Keys
        invariant forall k :: k in sessions <==> k in old(sessions) && (k in rest || old(sessions)[k].id != id)
        invariant forall k :: k in sessions ==> sessions[k] == old(sessions)[k]
        invariant restart <==> exists k :: k in old(sessions) && k !in rest && old(sessions)[k].id == id
      {
        var k := Pick(rest);
        if sessions[k].id == id {
          sessions := sessions - {k};
          restart := true;
        }
        rest := rest - {k};
      }
    }

    method RebuildSessions(endpoints: seq<Endpoint>) returns (dropped: Sessions, ghost kept: map<nat, nat>)
      modifies this`sessions, this`nextId
      ensures Rebuilt(old(sessions), KvEndpoints(endpoints), sessions, kept, dropped, old(nextId))
      ensures Numbered(sessions, kept, old(nextId), nextId)
    {
      var newSessions: Sessions := map[];
      var nextIndex := 0;
      kept := map[];
      for n := 0 to |endpoints|
        invariant nextIndex == |KvEndpoints(endpoints[..n])|
        invariant Numbered(newSessions, kept, old(nextId), nextId)
        invariant Rebuilt(old(sessions), KvEndpoints(endpoints[..n]), newSessions, kept, sessions, old(nextId))
      {
        assert endpoints[..n + 1][..n] == endpoints[..n];
        if endpoints[n].port != 0 {
          var found := FindIf(sessions, endpoints[n]);
          if found.Some? {
            PreserveKeeps(old(sessions), KvEndpoints(endpoints[..n]), newSessions, kept, sessions, old(nextId),
                          endpoints[n], found.value);
            PreserveStaysNumbered(KvEndpoints(endpoints[..n]), newSessions, kept, old(nextId), nextId,
                                  sessions[found.value], found.value);
            newSessions := newSessions[nextIndex := sessions[found.value]];
            kept := kept[nextIndex := found.value];
            sessions := sessions - {found.value};
          } else {
            CreateKeeps(old(sessions), KvEndpoints(endpoints[..n]), newSessions, kept, sessions, old(nextId),
                        Session(nextId, endpoints[n], false));
            CreateStaysNumbered(KvEndpoints(endpoints[..n]), newSessions, kept, old(nextId), nextId, endpoints[n]);
            newSessions := newSessions[nextIndex := Session(nextId, endpoints[n], false)];
            nextId := nextId + 1;
          }
          nextIndex := nextIndex + 1;
        }
      }
      assert endpoints[..|endpoints|] == endpoints;
      sessions, dropped := newSessions, sessions;
    }

    method UpdateConfig(config: Config) returns (poll: bool, stopped: Sessions, ghost kept: map<nat, nat>)
      modifies this`config, this`configured, this`sessions, this`nextId, this`announced
      ensures announced == old(announced) + if Accepts(old(this.config), config) then [config] else []
      ensures poll <==> config.vbmap == Some([])
      ensures configured == (old(configured) || Accepts(old(this.config), config))
      ensures Updates(options, old(View()), config, View(), kept, stopped)
    {
      poll, stopped, kept := false, map[], map[];
      assert announced + [] == announced;
      if config.vbmap == Some([]) {
        return true, stopped, kept;
      }
      if this.config.Some? && !config.force && (config.vbmap.None? || !Older(this.config.value, config)) {
        return;
      }
      var changed := NodesChanged(options, if this.config.Some? then Some(this.config.value.nodes) else None,
                                  config.nodes);
      this.config, configured := Some(config), true;
      announced := announced + [config];
      if changed {
        stopped, kept := RebuildSessions(Endpoints(options, config.nodes));
      }
    }
  }

  // ---------- The two steps of the rebuild ----------

  lemma PreserveKeeps(before: Sessions, kv: seq<Endpoint>, after: Sessions, kept: map<nat, nat>, rest: Sessions,
                      firstNewId: nat, endpoint: Endpoint, first: nat)
    requires Rebuilt(before, kv, after, kept, rest, firstNewId) && IsFirst(rest, endpoint, first)
    ensures Rebuilt(before, kv + [endpoint], after[|kv| := rest[first]], kept[|kv| := first], rest - {first},
                    firstNewId)
  {
    var n := |kv|;
    assert n !in after && n !in kept;
    assert forall i :: i in after ==> i < n;
    PreserveSplits(before, kept, rest, n, first);
    PreserveOnce(before, after, kept, rest, n, first);
    PreserveWhileLeft(after, kept, rest, firstNewId, n, first);
    PreserveInOrder(after, kept, rest, n, first);
  }

  lemma PreserveSplits(before: Sessions, kept: map<nat, nat>, rest: Sessions, n: nat, first: nat)
    requires SplitExactly(before, kept, rest) && n !in kept && first in rest
    ensures SplitExactly(before, kept[n := first], rest - {first})
  {
    var kept' := kept[n := first];
    forall k
      ensures k in kept'.Values <==> k in kept.Values || k == first
    {
      if k in kept.Values {
        var i :| i in kept && kept[i] == k;
        assert i in kept' && kept'[i] == k;
      }
      assert kept'[n] == first;
    }
  }

  lemma PreserveOnce(before: Sessions, after: Sessions, kept: map<nat, nat>, rest: Sessions, n: nat, first: nat)
    requires PreservedOnce(before, after, kept) && SplitExactly(before, kept, rest)
    requires n !in kept && first in rest
    ensures PreservedOnce(before, after[n := rest[first]], kept[n := first])
  {
    forall i | i in kept
      ensures kept[i] != first
    {
      assert kept[i] in kept.Values;
    }
  }

  lemma PreserveWhileLeft(after: Sessions, kept: map<nat, nat>, rest: Sessions, firstNewId: nat, n: nat, first: nat)
    requires NewOnlyWhenNoneLeft(after, kept, rest, firstNewId) && n !in after && n !in kept && first in rest
    requires forall i :: i in after ==> i < n
    ensures NewOnlyWhenNoneLeft(after[n := rest[first]], kept[n := first], rest - {first}, firstNewId)
  {
    forall i | i in after && i !in kept
      ensures after[i].endpoint != rest[first].endpoint && !Has(rest - {first}, after[i].endpoint)
    {
      assert !Has(rest, after[i].endpoint);
    }
  }

  lemma PreserveInOrder(after: Sessions, kept: map<nat, nat>, rest: Sessions, n: nat, first: nat)
    requires FirstComeFirstKept(after, kept, rest) && n !in after && n !in kept
    requires first in rest && IsFirst(rest, rest[first].endpoint, first)
    requires forall i :: i in after ==> i < n
    ensures FirstComeFirstKept(after[n := rest[first]], kept[n := first], rest - {first})
  {
  }

  lemma CreateKeeps(before: Sessions, kv: seq<Endpoint>, after: Sessions, kept: map<nat, nat>, rest: Sessions,
                    firstNewId: nat, session: Session)
    requires Rebuilt(before, kv, after, kept, rest, firstNewId) && !Has(rest, session.endpoint)
    requires session.id >= firstNewId
    ensures Rebuilt(before, kv + [session.endpoint], after[|kv| := session], kept, rest, firstNewId)
  {
    var n := |kv|;
    assert n !in after && n !in kept;
    assert Matches(after[n := session], kv + [session.endpoint]);
    CreateOnce(before, after, kept, rest, n, session);
    CreateWhenNoneLeft(after, kept, rest, firstNewId, n, session);
  }

  lemma CreateOnce(before: Sessions, after: Sessions, kept: map<nat, nat>, rest: Sessions, n: nat, session: Session)
    requires PreservedOnce(before, after, kept) && FirstComeFirstKept(after, kept, rest) && n !in after && n !in kept
    ensures PreservedOnce(before, after[n := session], kept) && FirstComeFirstKept(after[n := session], kept, rest)
  {
  }

  lemma CreateWhenNoneLeft(after: Sessions, kept: map<nat, nat>, rest: Sessions, firstNewId: nat, n: nat,
                           session: Session)
    requires NewOnlyWhenNoneLeft(after, kept, rest, firstNewId) && n !in after && n !in kept
    requires forall i :: i in after ==> i < n
    requires forall i :: i in kept ==> i in after
    requires !Has(rest, session.endpoint) && session.id >= firstNewId
    ensures NewOnlyWhenNoneLeft(after[n := session], kept, rest, firstNewId)
  {
  }

  lemma PreserveStaysNumbered(kv: seq<Endpoint>, after: Sessions, kept: map<nat, nat>, firstNewId: nat, nextId: nat,
                              session: Session, first: nat)
    requires Matches(after, kv) && Numbered(after, kept, firstNewId, nextId)
    ensures Numbered(after[|kv| := session], kept[|kv| := first], firstNewId, nextId)
  {
  }

  lemma CreateStaysNumbered(kv: seq<Endpoint>, after: Sessions, kept: map<nat, nat>, firstNewId: nat, nextId: nat,
                            endpoint: Endpoint)
    requires Matches(after, kv) && Numbered(after, kept, firstNewId, nextId)
    ensures Numbered(after[|kv| := Session(nextId, endpoint, false)], kept, firstNewId, nextId + 1)
  {
    assert |kv| !in after;
  }

  // ---------- What an update means for the sessions ----------

  /** With distinct endpoints, a slot keeps an old session exactly if there was one. */
  lemma KeptExactlyWhenThere(before: Sessions, kv: seq<Endpoint>, after: Sessions, kept: map<nat, nat>,
                             dropped: Sessions, firstNewId: nat, i: nat)
    requires Rebuilt(before, kv, after, kept, dropped, firstNewId) && i < |kv|
    requires forall a, b :: 0 <= a < b < |kv| ==> kv[a] != kv[b]
    ensures i in kept <==> Has(before, kv[i])
  {
    if i in kept {
      assert before[kept[i]].endpoint == kv[i];
    }
    if k :| k in before && before[k].endpoint == kv[i] {
      if k in dropped {
        assert Has(dropped, after[i].endpoint);
      } else {
        var j :| j in kept && kept[j] == k;
        assert after[j].endpoint == kv[j];
      }
    }
  }

  /** A configuration that is taken without a rebuild leaves matching sessions matching if and
      only if its key-value endpoints are the same in the same order. On the default network
      they always are. */
  lemma NoRebuildMatchesExactlyWhen(o: Options, before: seq<Node>, nodes: seq<Node>, sessions: Sessions)
    requires SameEndpointSets(o, before, nodes) && SameSequence(before, nodes)
    requires Matches(sessions, KvEndpoints(Endpoints(o, before)))
    ensures Matches(sessions, KvEndpoints(Endpoints(o, nodes))) <==>
              KvEndpoints(Endpoints(o, nodes)) == KvEndpoints(Endpoints(o, before))
    ensures o.network == DEFAULT_NETWORK ==> Matches(sessions, KvEndpoints(Endpoints(o, nodes)))
  {
    var a, b := KvEndpoints(Endpoints(o, before)), KvEndpoints(Endpoints(o, nodes));
    if Matches(sessions, b) {
      SameLength(sessions, a, b);
      forall i | 0 <= i < |a|
        ensures a[i] == b[i]
      {
        assert i in sessions;
      }
    }
    if o.network == DEFAULT_NETWORK {
      DefaultNetworkMissesNothing(o, before, nodes);
    }
  }

  lemma SameLength(sessions: Sessions, a: seq<Endpoint>, b: seq<Endpoint>)
    requires Matches(sessions, a) && Matches(sessions, b)
    ensures |a| == |b|
  {
    assert |a| in sessions <==> 0 <= |a| < |a|;
    assert |b| in sessions <==> 0 <= |b| < |b|;
  }
}
