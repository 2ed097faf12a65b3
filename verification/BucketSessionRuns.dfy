/**
 The sessions of a bucket over any sequence of updates, removals and restarts. A session that
 fails to bootstrap, or that stops, is a removal; one that succeeds is an update.
 */
module BucketSessionRuns {
  import opened Wrappers
  import opened BucketConfig
  import opened BucketSessions
  import opened BucketRestart
  import opened BucketSurvivors

  datatype Action = UpdateTo(config: Config) | RemoveOne(id: nat) | RestartAll

  // The ids of all sessions that were ever there, of those that were removed, and of those that
  // an update has dropped.
  datatype World = World(s: State, made: set<nat>, removed: set<nat>, dropped: set<nat>)

  const START := World(State(None, map[], 0), {}, {}, {})

  function Ids(sessions: Sessions): set<nat> {
    set k | k in sessions :: sessions[k].id
  }

  ghost predicate Step(o: Options, w: World, a: Action, v: World) {
    && v.made == w.made + Ids(v.s.sessions)
    && match a
       case UpdateTo(config) => UpdateStep(o, w, config, v)
       case RemoveOne(id) =>
         v.s == Removes(w.s, id) && v.removed == w.removed + Ids(w.s.sessions) * {id} && v.dropped == w.dropped
       case RestartAll => v.s == Restarts(o, w.s) && v.removed == w.removed && v.dropped == w.dropped
  }

  ghost predicate UpdateStep(o: Options, w: World, config: Config, v: World) {
    v.removed == w.removed &&
    exists kept, stopped :: Updates(o, w.s, config, v.s, kept, stopped) && v.dropped == w.dropped + Ids(stopped)
  }

  ghost predicate IsRun(o: Options, worlds: seq<World>, actions: seq<Action>) {
    && |worlds| == |actions| + 1 && worlds[0] == START
    && forall i :: 0 <= i < |actions| ==> Step(o, worlds[i], actions[i], worlds[i + 1])
  }

  // The endpoints that the slots are for.
  function Slots(o: Options, config: Option<Config>): seq<Endpoint> {
    if config.None? then [] else KvEndpoints(Endpoints(o, config.value.nodes))
  }

  // ---------- Any run ----------

  // No configuration has one key-value endpoint twice.
  ghost predicate DistinctNodes(o: Options, actions: seq<Action>) {
    forall i :: 0 <= i < |actions| && actions[i].UpdateTo? ==> Distinct(Slots(o, Some(actions[i].config)))
  }

  ghost predicate Sound(w: World) {
    && DistinctSessions(w.s.sessions)
    && (forall id :: id in w.made ==> id < w.s.nextId)
    && Ids(w.s.sessions) + w.removed + w.dropped <= w.made
    && Ids(w.s.sessions) !! w.removed && Ids(w.s.sessions) !! w.dropped && w.removed !! w.dropped
  }

  lemma RebuildKeepsIds(before: Sessions, kv: seq<Endpoint>, after: Sessions, kept: map<nat, nat>, stopped: Sessions,
                        firstNewId: nat, nextId: nat)
    requires Rebuilt(before, kv, after, kept, stopped, firstNewId) && Numbered(after, kept, firstNewId, nextId)
    requires DistinctIds(before) && forall k :: k in before ==> before[k].id < firstNewId
    ensures DistinctIds(after) && (forall i :: i in after ==> after[i].id < nextId)
    ensures Ids(stopped) !! Ids(after) && Ids(before) <= Ids(after) + Ids(stopped) && Ids(stopped) <= Ids(before)
    ensures forall id :: id in Ids(after) ==> id in Ids(before) || id >= firstNewId
  {
    forall k | k in before
      ensures before[k].id in Ids(after) + Ids(stopped)
    {
      if k !in stopped {
        var i :| i in kept && kept[i] == k;
        assert after[i].id == before[k].id;
      } else {
        assert stopped[k].id == before[k].id;
      }
    }
    forall i, k | i in after && k in stopped
      ensures after[i].id != stopped[k].id
    {
      assert i in kept ==> kept[i] in kept.Values;
    }
  }

  lemma MatchingAreDistinct(sessions: Sessions, kv: seq<Endpoint>)
    requires Aligned(sessions, kv) && Distinct(kv)
    ensures DistinctEndpoints(sessions)
  {
  }

  lemma UpdateKeepsSound(o: Options, w: World, config: Config, v: World)
    requires Sound(w) && Step(o, w, UpdateTo(config), v) && Distinct(Slots(o, Some(config)))
    ensures Sound(v)
    ensures w.made <= Ids(w.s.sessions) + w.removed + w.dropped ==> v.made <= Ids(v.s.sessions) + v.removed + v.dropped
  {
    var kept, stopped :| Updates(o, w.s, config, v.s, kept, stopped) && v.dropped == w.dropped + Ids(stopped);
    if Accepts(w.s.config, config) && Changes(o, w.s.config, config) {
      forall k | k in w.s.sessions
        ensures w.s.sessions[k].id < w.s.nextId
      {
        assert w.s.sessions[k].id in Ids(w.s.sessions);
      }
      var kv := Slots(o, Some(config));
      RebuildKeepsIds(w.s.sessions, kv, v.s.sessions, kept, stopped, w.s.nextId, v.s.nextId);
      MatchingAreDistinct(v.s.sessions, kv);
    }
  }

  lemma {:induction false} RestartKeepsDistinct(endpoints: seq<Endpoint>, index: nat, slot: nat, sessions: Sessions,
                                                id: nat)
    requires index <= |endpoints| && DistinctSessions(sessions) && forall k :: k in sessions ==> sessions[k].id < id
    ensures var after := Restart(endpoints, index, slot, sessions, id);
            && DistinctSessions(after)
            && (forall k :: k in after ==> after[k].id < IdAfterRestart(endpoints, index, slot, sessions, id))
            && (forall k :: k in after ==> after[k].id in Ids(sessions) || after[k].id >= id)
    decreases |endpoints| - index
  {
    if index < |endpoints| {
      var e := endpoints[index];
      if e.port == 0 {
        RestartKeepsDistinct(endpoints, index + 1, slot, sessions, id);
      } else {
        var next, id' := RestartStep(sessions, e, index, slot, id), if Has(sessions, e) then id else id + 1;
        StepKeepsDistinct(sessions, e, index, slot, id);
        RestartKeepsDistinct(endpoints, index + 1, slot + 1, next, id');
      }
    }
  }

  lemma StepKeepsDistinct(sessions: Sessions, e: Endpoint, index: nat, slot: nat, id: nat)
    requires DistinctSessions(sessions) && forall k :: k in sessions ==> sessions[k].id < id
    ensures var next := RestartStep(sessions, e, index, slot, id);
            && DistinctSessions(next)
            && (forall k :: k in next ==> next[k].id < if Has(sessions, e) then id else id + 1)
            && (forall k :: k in next ==> next[k].id in Ids(sessions) || next[k].id >= id)
  {
    StepKeepsEndpoints(sessions, e, index, slot, id);
    var next := RestartStep(sessions, e, index, slot, id);
    forall k | k in next
      ensures next[k].id in Ids(sessions) || next[k] == Session(id, e, false)
    {
      assert next[k] in sessions.Values || next[k] == Session(id, e, false);
    }
  }

  lemma RestartKeepsSound(o: Options, w: World, v: World)
    requires Sound(w) && Step(o, w, RestartAll, v)
    ensures Sound(v)
  {
    forall k | k in w.s.sessions
      ensures w.s.sessions[k].id < w.s.nextId
    {
      assert w.s.sessions[k].id in Ids(w.s.sessions);
    }
    if w.s.config.Some? {
      RestartKeepsDistinct(Endpoints(o, w.s.config.value.nodes), 0, 0, w.s.sessions, w.s.nextId);
    }
  }

  lemma RemovalKeepsSound(o: Options, w: World, id: nat, v: World)
    requires Sound(w) && Step(o, w, RemoveOne(id), v)
    ensures Sound(v)
    ensures Ids(w.s.sessions) - Ids(v.s.sessions) == Ids(w.s.sessions) * {id}
  {
    forall x | x in Ids(w.s.sessions) && x != id
      ensures x in Ids(v.s.sessions)
    {
      var k :| k in w.s.sessions && w.s.sessions[k].id == x;
      assert k in v.s.sessions;
    }
  }

  lemma {:induction false} RunIsSound(o: Options, worlds: seq<World>, actions: seq<Action>, i: nat)
    requires IsRun(o, worlds, actions) && DistinctNodes(o, actions) && i <= |actions|
    ensures Sound(worlds[i]) && Distinct(Slots(o, worlds[i].s.config))
  {
    if i > 0 {
      RunIsSound(o, worlds, actions, i - 1);
      var w, v := worlds[i - 1], worlds[i];
      assert Step(o, w, actions[i - 1], v);
      match actions[i - 1]
      case UpdateTo(config) => UpdateKeepsSound(o, w, config, v);
      case RemoveOne(id) => RemovalKeepsSound(o, w, id, v);
      case RestartAll => RestartKeepsSound(o, w, v);
    }
  }

  /** In any run, whatever the nodes, a restart loses exactly the sessions that are lost in the
      sense of the chain of displacements. */
  lemma EveryRestartLosesExactlyWhen(o: Options, worlds: seq<World>, actions: seq<Action>, i: nat, k: nat)
    requires IsRun(o, worlds, actions) && DistinctNodes(o, actions) && i < |actions| && actions[i] == RestartAll
    requires worlds[i].s.config.Some? && k in worlds[i].s.sessions
    ensures worlds[i].s.sessions[k] in worlds[i + 1].s.sessions.Values <==>
              !Lost(worlds[i].s.sessions, PlanOf(Endpoints(o, worlds[i].s.config.value.nodes)), 0, k)
  {
    var w := worlds[i];
    RunIsSound(o, worlds, actions, i);
    assert Step(o, w, actions[i], worlds[i + 1]);
    forall j | j in w.s.sessions
      ensures w.s.sessions[j].id < w.s.nextId
    {
      assert w.s.sessions[j].id in Ids(w.s.sessions);
    }
    SurvivesRestartExactlyWhen(Endpoints(o, w.s.config.value.nodes), w.s.sessions, w.s.nextId, k);
  }

  // The configurations that have arrived, taken or not.
  function Arrivals(actions: seq<Action>): seq<Config> {
    if actions == [] then []
    else
      var last := actions[|actions| - 1];
      Arrivals(actions[..|actions| - 1]) + if last.UpdateTo? then [last.config] else []
  }

  /** In any run the bucket holds what the contest of the arrivals so far has come to. */
  lemma {:induction false} ConfigIsSettled(o: Options, worlds: seq<World>, actions: seq<Action>, i: nat)
    requires IsRun(o, worlds, actions) && i <= |actions|
    ensures worlds[i].s.config == Settle(Arrivals(actions[..i]))
  {
    if i > 0 {
      ConfigIsSettled(o, worlds, actions, i - 1);
      assert Step(o, worlds[i - 1], actions[i - 1], worlds[i]);
      assert actions[..i][..i - 1] == actions[..i - 1];
      var earlier := Arrivals(actions[..i - 1]);
      if actions[i - 1].UpdateTo? {
        assert (earlier + [actions[i - 1].config])[..|earlier|] == earlier;
      } else {
        assert earlier + [] == earlier;
      }
    }
  }

  // ---------- Orderly runs ----------

  // An update that changes the endpoints is seen to change them, and no restart meets an empty
  // slot behind a node without a key-value port.
  ghost predicate Orderly(o: Options, w: World, a: Action) {
    match a
    case UpdateTo(config) =>
      Accepts(w.s.config, config) && !Changes(o, w.s.config, config) ==>
        Slots(o, Some(config)) == Slots(o, w.s.config)
    case RemoveOne(id) => true
    case RestartAll =>
      w.s.config.Some? ==>
        forall s :: 0 <= s < |Slots(o, w.s.config)| && s !in w.s.sessions ==>
          AllPorts(Endpoints(o, w.s.config.value.nodes), s)
  }

  ghost predicate InSlots(o: Options, w: World) {
    Aligned(w.s.sessions, Slots(o, w.s.config))
  }

  // Every session that was ever there still is, or was removed, or was dropped by an update.
  ghost predicate NoneLost(w: World) {
    w.made <= Ids(w.s.sessions) + w.removed + w.dropped
  }

  lemma OrderlyStep(o: Options, w: World, a: Action, v: World)
    requires Step(o, w, a, v) && Orderly(o, w, a) && Sound(w) && Distinct(Slots(o, w.s.config))
    requires a.UpdateTo? ==> Distinct(Slots(o, Some(a.config)))
    requires InSlots(o, w) && NoneLost(w)
    ensures InSlots(o, v) && NoneLost(v)
    ensures a.RestartAll? && v.s.config.Some? ==> Matches(v.s.sessions, Slots(o, v.s.config))
  {
    match a
    case UpdateTo(config) => UpdateKeepsSound(o, w, config, v);
    case RemoveOne(id) => RemovalKeepsSound(o, w, id, v);
    case RestartAll => OrderlyRestart(o, w, v);
  }

  lemma OrderlyRestart(o: Options, w: World, v: World)
    requires Step(o, w, RestartAll, v) && Orderly(o, w, RestartAll) && Distinct(Slots(o, w.s.config)) && InSlots(o, w)
    requires NoneLost(w)
    ensures InSlots(o, v) && NoneLost(v)
    ensures v.s.config.Some? ==> Matches(v.s.sessions, Slots(o, v.s.config))
  {
    if w.s.config.Some? {
      RestartRefillsExactlyWhen(Endpoints(o, w.s.config.value.nodes), w.s.sessions, w.s.nextId);
      forall id | id in Ids(w.s.sessions)
        ensures id in Ids(v.s.sessions)
      {
        var k :| k in w.s.sessions && w.s.sessions[k].id == id;
        assert k in v.s.sessions && v.s.sessions[k].id == id;
      }
    }
  }

  ghost predicate AllOrderly(o: Options, worlds: seq<World>, actions: seq<Action>)
    requires |worlds| == |actions| + 1
  {
    forall i :: 0 <= i < |actions| ==> Orderly(o, worlds[i], actions[i])
  }

  /** In an orderly run every session is in its slot, no session is lost but by a removal or an
      update that drops it, and after each restart there is one for every slot. */
  lemma {:induction false} OrderlyRunLosesNothing(o: Options, worlds: seq<World>, actions: seq<Action>, i: nat)
    requires IsRun(o, worlds, actions) && DistinctNodes(o, actions) && AllOrderly(o, worlds, actions) && i <= |actions|
    ensures InSlots(o, worlds[i]) && NoneLost(worlds[i])
    ensures i > 0 && actions[i - 1].RestartAll? && worlds[i].s.config.Some? ==>
              Matches(worlds[i].s.sessions, Slots(o, worlds[i].s.config))
  {
    if i > 0 {
      OrderlyRunLosesNothing(o, worlds, actions, i - 1);
      RunIsSound(o, worlds, actions, i - 1);
      assert Step(o, worlds[i - 1], actions[i - 1], worlds[i]) && Orderly(o, worlds[i - 1], actions[i - 1]);
      OrderlyStep(o, worlds[i - 1], actions[i - 1], worlds[i]);
    }
  }

  /** Only an orderly restart keeps the sessions in their slots. */
  lemma RestartStaysInSlotsExactlyWhen(o: Options, w: World, v: World)
    requires Step(o, w, RestartAll, v) && Distinct(Slots(o, w.s.config)) && InSlots(o, w)
    ensures InSlots(o, v) <==> Orderly(o, w, RestartAll)
  {
    if w.s.config.Some? {
      RestartRefillsExactlyWhen(Endpoints(o, w.s.config.value.nodes), w.s.sessions, w.s.nextId);
    }
  }

  ghost predicate RepairableNodes(o: Options, actions: seq<Action>) {
    forall i :: 0 <= i < |actions| && actions[i].UpdateTo? ==> Repairable(Endpoints(o, actions[i].config.nodes))
  }

  lemma {:induction false} ConfigIsOneOf(o: Options, worlds: seq<World>, actions: seq<Action>, i: nat)
    requires IsRun(o, worlds, actions) && RepairableNodes(o, actions) && i <= |actions|
    ensures worlds[i].s.config.Some? ==> Repairable(Endpoints(o, worlds[i].s.config.value.nodes))
  {
    if i > 0 {
      ConfigIsOneOf(o, worlds, actions, i - 1);
      assert Step(o, worlds[i - 1], actions[i - 1], worlds[i]);
    }
  }

  /** On the default network, with nodes that a restart can repair, every run is orderly. */
  lemma RepairableRunsAreOrderly(o: Options, worlds: seq<World>, actions: seq<Action>)
    requires IsRun(o, worlds, actions) && RepairableNodes(o, actions) && o.network == DEFAULT_NETWORK
    ensures DistinctNodes(o, actions) && AllOrderly(o, worlds, actions)
  {
    forall i | 0 <= i < |actions|
      ensures Orderly(o, worlds[i], actions[i])
    {
      ConfigIsOneOf(o, worlds, actions, i);
      RepairableStepIsOrderly(o, worlds[i], actions[i]);
    }
  }

  lemma RepairableStepIsOrderly(o: Options, w: World, a: Action)
    requires o.network == DEFAULT_NETWORK
    requires w.s.config.Some? ==> Repairable(Endpoints(o, w.s.config.value.nodes))
    ensures Orderly(o, w, a)
  {
    match a
    case UpdateTo(config) =>
      if w.s.config.Some? && SameSequence(w.s.config.value.nodes, config.nodes) {
        DefaultNetworkMissesNothing(o, w.s.config.value.nodes, config.nodes);
      }
    case RemoveOne(id) =>
    case RestartAll =>
      if w.s.config.Some? {
        var endpoints := Endpoints(o, w.s.config.value.nodes);
        RepairableInSlots(endpoints);
        PlanIsValid(endpoints);
        forall s | 0 <= s < |Slots(o, w.s.config)|
          ensures AllPorts(endpoints, s)
        {
          IndexIsSlotExactlyWhen(endpoints, s);
        }
      }
  }

  /** So on the default network with such nodes: after every sequence of updates, removals and
      restarts each session is in its slot, each restart fills all slots, and nothing is lost. */
  lemma SessionsStayInTheirSlots(o: Options, worlds: seq<World>, actions: seq<Action>, i: nat)
    requires IsRun(o, worlds, actions) && RepairableNodes(o, actions) && o.network == DEFAULT_NETWORK && i <= |actions|
    ensures Sound(worlds[i]) && InSlots(o, worlds[i]) && NoneLost(worlds[i])
    ensures i > 0 && actions[i - 1].RestartAll? && worlds[i].s.config.Some? ==>
              Matches(worlds[i].s.sessions, Slots(o, worlds[i].s.config))
  {
    RepairableRunsAreOrderly(o, worlds, actions);
    RunIsSound(o, worlds, actions, i);
    OrderlyRunLosesNothing(o, worlds, actions, i);
  }

  // ---------- Runs that lose a session ----------

  // The sessions that the first configuration of two key-value nodes leads to.
  function Both(x: Endpoint, y: Endpoint): Sessions {
    map[0 := Session(0, x, false), 1 := Session(1, y, false)]
  }

  function WithBoth(config: Config, x: Endpoint, y: Endpoint): World {
    World(State(Some(config), Both(x, y), 2), {0, 1}, {}, {})
  }

  lemma IdsOfBoth(x: Endpoint, y: Endpoint)
    ensures Ids(Both(x, y)) == {0, 1}
  {
    assert Both(x, y)[0].id in Ids(Both(x, y)) && Both(x, y)[1].id in Ids(Both(x, y));
  }

  lemma FirstUpdate(o: Options, config: Config, x: Endpoint, y: Endpoint)
    requires config.vbmap != Some([]) && Slots(o, Some(config)) == [x, y] && x != y
    ensures Step(o, START, UpdateTo(config), WithBoth(config, x, y))
    ensures InSlots(o, WithBoth(config, x, y))
  {
    var none: Sessions, kept: map<nat, nat> := map[], map[];
    assert Ids(none) == {};
    IdsOfBoth(x, y);
    assert Rebuilt(none, [x, y], Both(x, y), kept, none, 0) && Numbered(Both(x, y), kept, 0, 2);
    assert Updates(o, START.s, config, WithBoth(config, x, y).s, kept, none);
  }

  // What is left of both when one is removed.
  function WithOne(config: Config, x: Endpoint, y: Endpoint, gone: nat): World {
    World(State(Some(config), Without(Both(x, y), gone), 2), {0, 1}, {gone}, {})
  }

  lemma RemoveOneOfBoth(o: Options, config: Config, x: Endpoint, y: Endpoint, gone: nat)
    requires gone < 2
    ensures Step(o, WithBoth(config, x, y), RemoveOne(gone), WithOne(config, x, y, gone))
    ensures Without(Both(x, y), gone) == map[1 - gone := Both(x, y)[1 - gone]]
  {
    IdsOfBoth(x, y);
    assert Ids(Without(Both(x, y), gone)) <= Ids(Both(x, y));
    assert {0, 1} * {gone} == {gone};
  }

  // The restart of what is left, if all that it comes to is new.
  function Restarted(w: World, sessions: Sessions, nextId: nat): World {
    World(State(w.s.config, sessions, nextId), w.made + Ids(sessions), w.removed, w.dropped)
  }

  lemma RestartedAnew(o: Options, config: Config, x: Endpoint, y: Endpoint, gone: nat, sessions: Sessions)
    requires gone < 2 && sessions == Restarts(o, WithOne(config, x, y, gone).s).sessions
    requires forall k :: k in sessions ==> sessions[k].id > 1
    ensures var w := WithOne(config, x, y, gone);
            var v := Restarted(w, sessions, Restarts(o, w.s).nextId);
            Step(o, w, RestartAll, v) && !NoneLost(v)
  {
    assert 1 - gone !in Ids(sessions);
  }

  lemma RunOfThree(o: Options, x: World, y: World, z: World, a: Action, b: Action, c: Action)
    requires Step(o, START, a, x) && Step(o, x, b, y) && Step(o, y, c, z)
    ensures IsRun(o, [START, x, y, z], [a, b, c])
  {
    OneMoreStep(o, [START], [], a, x);
    OneMoreStep(o, [START, x], [a], b, y);
    OneMoreStep(o, [START, x, y], [a, b], c, z);
    assert [] + [a] == [a] && [a] + [b] == [a, b] && [a, b] + [c] == [a, b, c];
    assert [START] + [x] == [START, x] && [START, x] + [y] == [START, x, y];
    assert [START, x, y] + [z] == [START, x, y, z];
  }

  lemma OneMoreStep(o: Options, worlds: seq<World>, actions: seq<Action>, a: Action, v: World)
    requires IsRun(o, worlds, actions) && Step(o, worlds[|actions|], a, v)
    ensures IsRun(o, worlds + [v], actions + [a])
  {
  }

  /** Of three nodes the first has no key-value port. The session of the second stops, and the
      restart loses that of the third. */
  lemma RunBehindAPortlessNode(o: Options, config: Config)
    returns (first: World, second: World, third: World)
    requires |config.nodes| == 3 && config.vbmap != Some([])
    requires var e := Endpoints(o, config.nodes); e[0].port == 0 && e[1].port != 0 && e[2].port != 0 && e[1] != e[2]
    ensures IsRun(o, [START, first, second, third], [UpdateTo(config), RemoveOne(0), RestartAll])
    ensures Distinct(Slots(o, Some(config))) && InSlots(o, first)
    ensures third.removed == {0} && third.dropped == {} && !NoneLost(third)
  {
    var e := Endpoints(o, config.nodes);
    assert e == [e[0], e[1], e[2]];
    KvOfThree(e[0], e[1], e[2]);
    first, second := WithBoth(config, e[1], e[2]), WithOne(config, e[1], e[2], 0);
    FirstUpdate(o, config, e[1], e[2]);
    RemoveOneOfBoth(o, config, e[1], e[2], 0);
    RestartCanLoseALiveSession(e[0], e[1], e[2], Session(0, e[1], false), Session(1, e[2], false), 2);
    var restarted := Restarts(o, second.s);
    third := Restarted(second, restarted.sessions, restarted.nextId);
    RestartedAnew(o, config, e[1], e[2], 0, restarted.sessions);
    RunOfThree(o, first, second, third, UpdateTo(config), RemoveOne(0), RestartAll);
  }

  lemma SwappedRestart(x: Endpoint, y: Endpoint, live: Session, id: nat)
    requires x != y && x.port != 0 && y.port != 0 && live.endpoint == x
    ensures KvEndpoints([x, y]) == [x, y]
    ensures Restart([y, x], 0, 0, map[0 := live], id) == map[0 := Session(id, y, false), 1 := Session(id + 1, x, false)]
  {
    KvOfOneMore([], x);
    KvOfOneMore([x], y);
    assert [] + [x] == [x] && [x] + [y] == [x, y];
    var nodes, first := [y, x], map[0 := Session(id, y, false)];
    var second := map[0 := Session(id, y, false), 1 := Session(id + 1, x, false)];
    assert RestartStep(map[0 := live], y, 0, 0, id) == first;
    assert RestartStep(first, x, 1, 1, id + 1) == second;
    assert Restart(nodes, 2, 2, second, id + 2) == second;
    assert Restart(nodes, 1, 1, first, id + 1) == second;
  }

  lemma UnseenUpdate(o: Options, a: Config, b: Config, x: Endpoint, y: Endpoint)
    requires Accepts(Some(a), b) && !Changes(o, Some(a), b)
    ensures Step(o, WithBoth(a, x, y), UpdateTo(b), WithBoth(b, x, y))
  {
    var none: Sessions, kept: map<nat, nat> := map[], map[];
    assert Ids(none) == {};
    IdsOfBoth(x, y);
    assert Updates(o, WithBoth(a, x, y).s, b, WithBoth(b, x, y).s, kept, none);
  }

  lemma RunOfFour(o: Options, x: World, y: World, z: World, last: World, a: Action, b: Action, c: Action, d: Action)
    requires Step(o, START, a, x) && Step(o, x, b, y) && Step(o, y, c, z) && Step(o, z, d, last)
    ensures IsRun(o, [START, x, y, z, last], [a, b, c, d])
  {
    RunOfThree(o, x, y, z, a, b, c);
    OneMoreStep(o, [START, x, y, z], [a, b, c], d, last);
    assert [a, b, c] + [d] == [a, b, c, d] && [START, x, y, z] + [last] == [START, x, y, z, last];
  }

  /** Two nodes trade their endpoints and are not seen to. The session of one stops, and the
      restart loses that of the other, although both have their key-value ports. */
  lemma RunAfterAnUnseenSwap(o: Options, a: Config, b: Config, x: Endpoint, y: Endpoint)
    returns (first: World, second: World, third: World, last: World)
    requires Endpoints(o, a.nodes) == [x, y] && Endpoints(o, b.nodes) == [y, x] && x != y && x.port != 0 && y.port != 0
    requires Accepts(None, a) && Accepts(Some(a), b) && !Changes(o, Some(a), b)
    ensures IsRun(o, [START, first, second, third, last], [UpdateTo(a), UpdateTo(b), RemoveOne(1), RestartAll])
    ensures InSlots(o, first) && last.removed == {1} && last.dropped == {} && !NoneLost(last)
  {
    SwappedRestart(x, y, Session(0, x, false), 2);
    first, second, third := WithBoth(a, x, y), WithBoth(b, x, y), WithOne(b, x, y, 1);
    FirstUpdate(o, a, x, y);
    UnseenUpdate(o, a, b, x, y);
    RemoveOneOfBoth(o, b, x, y, 1);
    var restarted := Restarts(o, third.s);
    last := Restarted(third, restarted.sessions, restarted.nextId);
    RestartedAnew(o, b, x, y, 1, restarted.sessions);
    RunOfFour(o, first, second, third, last, UpdateTo(a), UpdateTo(b), RemoveOne(1), RestartAll);
  }

  /** There are such configurations. */
  lemma UnseenSwapExists(network: string, x: Address, y: Address, p: Address, q: Address) returns (a: Config, b: Config)
    requires network != DEFAULT_NETWORK && x.plainKv.Some? && y.plainKv.Some? && x.plainKv.value != y.plainKv.value
    ensures var o := Options(network, false);
            && Endpoints(o, a.nodes) == [Endpoint(x.hostname, x.plainKv.value), Endpoint(y.hostname, y.plainKv.value)]
            && Endpoints(o, b.nodes) == [Endpoint(y.hostname, y.plainKv.value), Endpoint(x.hostname, x.plainKv.value)]
            && Accepts(None, a) && Accepts(Some(a), b) && !Changes(o, Some(a), b)
  {
    var o := Options(network, false);
    var before, after := [Node(p, map[network := x]), Node(q, map[network := y])],
                         [Node(p, map[network := y]), Node(q, map[network := x])];
    AlternateNetworkMissesASwap(network, x, y, p, q);
    a, b := Config(None, Some(1), before, Some([[0]]), false), Config(None, Some(2), after, Some([[0]]), false);
  }
}
