/**
 The results about range scans: what is true in every state that a scan can reach.
 */
module RangeScanResults {
  import opened Wrappers
  import opened RangeScanBalancer
  import opened RangeScanStream
  import opened RangeScanOrchestrator
  import opened RangeScanPlaces
  import opened RangeScanMail
  import opened RangeScanRuns
  import opened RangeScanAccounts
  import opened RangeScanSteps
  import opened RangeScanTheorems

  ghost predicate Reachable(c: Config, s: System) {
    ValidConfig(c) && exists picks, actions :: LegalBegin(c, picks) && s == After(Begin(c, picks), actions)
  }

  lemma ReachableHasInv(c: Config, s: System)
    requires Reachable(c, s)
    ensures ScanInv(s) && s.config == c
  {
    var picks, actions :| LegalBegin(c, picks) && s == After(Begin(c, picks), actions);
    EveryRunKeepsInv(c, picks, actions);
  }

  // Every scan that is accepted can begin, whatever the load balancer has to choose from.
  lemma EveryScanBegins(c: Config) returns (s: System)
    requires |c.activeNodes| <= 65535 && c.limit > 0 && c.concurrency > 0
    ensures Reachable(c, s) && !s.m.cancelled && s.m.limit == c.limit
  {
    var picks := LegalPicksExist(false, Fresh(c).m.desk, c.concurrency);
    s := After(Begin(c, picks), []);
  }

  // ---------- Places and counts ----------

  ghost predicate PendingAt(s: System, v: nat, id: int) {
    id in s.m.desk.nodes && v in s.m.desk.nodes[id].pending
  }

  ghost predicate OnePlaceEach(s: System) {
    && |s.t| == |s.config.activeNodes|
    && (forall v, id :: 0 <= v < |s.t| ==>
                          (PendingAt(s, v, id) <==> id == s.config.activeNodes[v] && s.t[v].phase.Queued?))
    && (forall id :: id in s.m.desk.nodes ==> NoDuplicates(s.m.desk.nodes[id].pending))
    && (forall v :: 0 <= v < |s.t| && s.t[v].phase.Queued? ==> v in s.m.box.registered)
    && s.m.desk.active == SumOfCounts(s.m.desk.nodes.Keys, s.m.desk.nodes) == HeldCount(s.t)
  }

  // A vbucket is pending at its own active node, or held by an attempt, or ended, and never
  // two of these; a pending one still has its stream; all counters show the same number.
  lemma OnePlacePerVbucket(c: Config, s: System)
    requires Reachable(c, s)
    ensures OnePlaceEach(s)
  {
    ReachableHasInv(c, s);
    InvGivesOnePlace(s);
  }

  lemma InvGivesOnePlace(s: System)
    requires ScanInv(s)
    ensures OnePlaceEach(s)
  {
    var a := s.config.activeNodes;
    CountsAgree(a, s.m.desk, s.t);
    forall v, id | 0 <= v < |s.t|
      ensures PendingAt(s, v, id) <==> id == a[v] && s.t[v].phase.Queued?
    {
      assert id in s.m.desk.nodes ==> NodeAgrees(a, s.m.desk.nodes[id], s.t, id);
    }
    forall v | 0 <= v < |s.t| && s.t[v].phase.Queued?
      ensures v in s.m.box.registered
    {
      QueuedIsRegistered(s.m.box, s.t, s.m.cancelled, v);
    }
    assert forall id :: id in s.m.desk.nodes ==> NodeAgrees(a, s.m.desk.nodes[id], s.t, id);
  }

  lemma QueuedIsRegistered(b: Mailbox, t: Tracks, cancelled: bool, v: nat)
    requires InOrder(b) && LogAgrees(b.log, t, cancelled) && RegistryAgrees(b, t, cancelled)
    requires v < |t| && t[v].phase.Queued?
    ensures v in b.registered
  {
    assert forall i :: 0 <= i < |b.consumed| ==> b.consumed[i] == b.log[i];
  }

  // Busy answers slow a scan down, but one attempt always stays possible.
  lemma ConcurrencyBacksOff(c: Config, s: System)
    requires Reachable(c, s)
    ensures s.m.desk.active <= Max(1, c.concurrency - s.busies)
  {
    ReachableHasInv(c, s);
  }

  lemma NoStall(c: Config, s: System, v: nat, id: int)
    requires Reachable(c, s) && !s.m.cancelled && PendingAt(s, v, id)
    ensures s.m.desk.active > 0
  {
    ReachableHasInv(c, s);
    assert NodeAgrees(c.activeNodes, s.m.desk.nodes[id], s.t, id);
    QueuedCountPositive(s.t, v);
  }

  // ---------- How a scan comes to its end ----------

  ghost function EndedBits(t: Tracks): (bits: seq<bool>)
    ensures |bits| == |t|
  {
    seq(|t|, v requires 0 <= v < |t| => t[v].phase.Ended?)
  }

  ghost function EndedCount(t: Tracks): nat { Tally(EndedBits(t)) }

  lemma ThreePlaces(t: Tracks)
    ensures QueuedCount(t) + HeldCount(t) + EndedCount(t) == |t|
  {
    var open := seq(|t|, v requires 0 <= v < |t| => !t[v].phase.Ended?);
    var all := seq(|t|, v requires 0 <= v < |t| => true);
    TallySplit(open, HeldBits(t), QueuedBits(t));
    TallySplit(all, open, EndedBits(t));
    TallyAll(all);
  }

  // With at most `budget` busy answers in all.
  ghost function Measure(s: System, budget: nat): int {
    2 * QueuedCount(s.t) + HeldCount(s.t) + 2 * (budget - s.busies)
  }

  lemma MeasureCounts(s: System, budget: nat)
    requires Accounts(s)
    ensures Measure(s, budget) == 2 * |s.t| + 2 * budget - s.busies - s.launches - EndedCount(s.t)
  {
    ThreePlaces(s.t);
  }

  // What one step may do to the tracks.
  ghost predicate Grows(s: System, s': System) {
    && s.launches <= s'.launches && s.busies <= s'.busies
    && |s.t| == |s'.t| == |s.streams| == |s'.streams|
    && (forall v :: 0 <= v < |s.t| && s.t[v].phase.Ended? ==>
                      s'.t[v] == s.t[v] && s'.streams[v].state == s.streams[v].state)
    && (s.m.cancelled ==> s'.m.cancelled)
  }

  lemma EffectGrows(s: System, s': System, c: Callback)
    requires c.v < |s.t| == |s.streams| && IsHeld(s.t[c.v].phase)
    requires Effect(s, s', c.v, c.outcome, c.otherwise)
    requires s.launches <= s'.launches && s.busies <= s'.busies
    ensures Grows(s, s')
  {
  }

  lemma CallbackCounts(s: System, c: Callback)
    requires c.v < |s.t| == |s.streams| && NodeKnown(s, c.v)
    ensures var s' := AfterCallback(s, c.v, c.outcome, c.otherwise, c.picks);
            s.launches <= s'.launches && s.busies <= s'.busies
  {
  }

  // A callback's step in one shape: either it is not legal, or it has its effect and grows.
  lemma CallbackStep(s: System, action: Action)
    requires ScanInv(s) && CallbackOf(s, action).Some?
    ensures var s', c := Apply(s, action), CallbackOf(s, action).value;
            && c.v < |s.t| == |s.streams| && IsHeld(s.t[c.v].phase)
            && (s' == s || (Effect(s, s', c.v, c.outcome, c.otherwise) && Grows(s, s')))
  {
    CallbackIsPossible(s, action);
    var s', c := Apply(s, action), CallbackOf(s, action).value;
    CallbackHasEffect(s, c.v, c.outcome, c.otherwise, c.picks);
    CallbackCounts(s, c);
    if s' != s {
      EffectGrows(s, s', c);
    }
  }

  lemma ConsumerGrows(s: System, action: Action)
    requires |s.t| == |s.streams| && CallbackOf(s, action).None?
    ensures Grows(s, Apply(s, action))
  {
  }

  lemma StepGrows(s: System, action: Action)
    requires ScanInv(s)
    ensures Grows(s, Apply(s, action))
  {
    if CallbackOf(s, action).Some? {
      CallbackStep(s, action);
    } else {
      ConsumerGrows(s, action);
    }
  }

  lemma MoreEnded(t: Tracks, t': Tracks)
    requires |t| == |t'|
    requires forall v :: 0 <= v < |t| && t[v].phase.Ended? ==> t'[v].phase.Ended?
    ensures EndedCount(t) <= EndedCount(t')
    ensures EndedCount(t) == EndedCount(t') <==> forall v :: 0 <= v < |t| ==> t'[v].phase.Ended? == t[v].phase.Ended?
  {
    var newly := seq(|t|, v requires 0 <= v < |t| => t'[v].phase.Ended? && !t[v].phase.Ended?);
    TallySplit(EndedBits(t'), EndedBits(t), newly);
    TallyZero(newly);
    assert forall v :: 0 <= v < |t| ==> newly[v] == (t'[v].phase.Ended? && !t[v].phase.Ended?);
  }

  // The measure never rises, and it falls exactly when an attempt starts, ends or is to be
  // retried.
  lemma MeasureFalls(c: Config, s: System, action: Action, budget: nat)
    requires Reachable(c, s) && Apply(s, action).busies <= budget
    ensures var s' := Apply(s, action);
            && 0 <= Measure(s', budget) <= Measure(s, budget)
            && |s.t| == |s'.t|
            && (Measure(s', budget) == Measure(s, budget) <==>
                  && s'.launches == s.launches && s'.busies == s.busies
                  && forall v :: 0 <= v < |s.t| ==> s'.t[v].phase.Ended? == s.t[v].phase.Ended?)
  {
    ReachableHasInv(c, s);
    StepKeepsAccounts(s, action);
    StepGrows(s, action);
    MeasureDiffers(s, Apply(s, action), budget);
  }

  lemma MeasureDiffers(s: System, s': System, budget: nat)
    requires Accounts(s) && Accounts(s') && Grows(s, s') && s'.busies <= budget
    ensures 0 <= Measure(s', budget) <= Measure(s, budget)
    ensures Measure(s', budget) == Measure(s, budget) <==>
              && s'.launches == s.launches && s'.busies == s.busies
              && forall v :: 0 <= v < |s.t| ==> s'.t[v].phase.Ended? == s.t[v].phase.Ended?
  {
    MeasureCounts(s, budget);
    MeasureCounts(s', budget);
    MoreEnded(s.t, s'.t);
  }

  // n vbuckets and b busy answers make at most n + b attempts.
  lemma AttemptsBounded(c: Config, s: System)
    requires Reachable(c, s)
    ensures s.launches <= |c.activeNodes| + s.busies
  {
    ReachableHasInv(c, s);
  }

  // An uncancelled scan without active attempts is finished.
  lemma QuietMeansAllEnded(c: Config, s: System, v: nat)
    requires Reachable(c, s) && !s.m.cancelled && s.m.desk.active == 0 && v < |c.activeNodes|
    ensures v < |s.t| && s.t[v].phase.Ended?
  {
    ReachableHasInv(c, s);
    TallyZero(QueuedBits(s.t));
    TallyZero(HeldBits(s.t));
    assert !QueuedBits(s.t)[v] && !HeldBits(s.t)[v];
  }

  // ---------- Streams ----------

  ghost predicate CleanStream(s: System, v: nat)
    requires v < |s.t| == |s.streams|
  {
    && s.t[v].launches == s.t[v].busies + s.t[v].ends + (if IsHeld(s.t[v].phase) then 1 else 0)
    && s.t[v].ends <= 1
    && (s.t[v].phase.Ended? <==> Terminal(s.streams[v].state))
    && s.streams[v].from == None
    && (BeforeItems(s.t[v].phase) ==>
          && s.streams[v].lastSeenKey == ""
          && forall i :: 0 <= i < |s.m.box.log| ==> s.m.box.log[i].vbucket != v)
  }

  lemma InvGivesCleanStream(s: System, v: nat)
    requires StreamsAgree(s) && LedgerBalances(s.t) && LogAgrees(s.m.box.log, s.t, s.m.cancelled) && v < |s.t|
    ensures CleanStream(s, v)
  {
    assert StreamAgrees(s.config, v, s.streams[v], s.t[v].phase);
  }

  // Per vbucket: every attempt but a running one had exactly one end, at most one end was
  // for good, the start of its range was never moved, and a vbucket that may still be
  // started has never sent anything: no retry delivers an item twice.
  lemma StreamsRetryCleanly(c: Config, s: System, v: nat)
    requires Reachable(c, s) && v < |c.activeNodes|
    ensures v < |s.t| == |s.streams| && CleanStream(s, v)
  {
    ReachableHasInv(c, s);
    InvGivesCleanStream(s, v);
  }

  // completed and failed are never left
  lemma EndedForGood(c: Config, s: System, action: Action, v: nat)
    requires Reachable(c, s) && v < |s.streams| && Terminal(s.streams[v].state)
    ensures v < |Apply(s, action).streams| && Apply(s, action).streams[v].state == s.streams[v].state
  {
    ReachableHasInv(c, s);
    StreamsRetryCleanly(c, s, v);
    StepGrows(s, action);
  }

  // ---------- How a scan begins ----------

  // No node has more than one stream more than a node that still has something to do.
  ghost predicate Spread(nodes: Nodes) {
    forall i, j :: i in nodes && j in nodes && nodes[j].pending != [] ==> nodes[i].active <= nodes[j].active + 1
  }

  lemma LaunchKeepsSpread(nodes: Nodes, id: int)
    requires LeastLoaded(nodes, id) && Spread(nodes)
    requires forall i :: i in nodes ==> nodes[i].active < UINT16_MAX
    ensures Spread(nodes[id := nodes[id].Fetched()])
  {
    assert forall j :: j in nodes && nodes[j].pending != [] ==> Eligible(nodes, j);
  }

  lemma CountsAreSmall(a: seq<int>, d: Desk, t: Tracks, id: int)
    requires PlacesAgree(a, d, t) && Eligible(d.nodes, id)
    ensures forall i :: i in d.nodes ==> d.nodes[i].active < UINT16_MAX
  {
    HeadIsQueued(a, d, t, id);
    forall i | i in d.nodes
      ensures d.nodes[i].active < UINT16_MAX
    {
      assert NodeAgrees(a, d.nodes[i], t, i);
      CountBounds(a, t, i);
    }
  }

  lemma {:induction false} PicksKeepSpread(a: seq<int>, d: Desk, t: Tracks, picks: seq<int>)
    requires PlacesAgree(a, d, t) && LeastLoadedPicks(d, picks) && Spread(d.nodes)
    ensures Spread(LaunchAll(d, picks).nodes)
  {
    if picks != [] {
      var earlier := picks[..|picks| - 1];
      PicksKeepSpread(a, d, t, earlier);
      LaunchAllKeepsPlaces(a, d, t, earlier);
      CountsAreSmall(a, LaunchAll(d, earlier), MarkLaunched(t, StartedBy(d, earlier)), picks[|picks| - 1]);
      LaunchKeepsSpread(LaunchAll(d, earlier).nodes, picks[|picks| - 1]);
    }
  }

  /** A scan begins with as many streams as its concurrency and its vbuckets allow, spread evenly
      over the nodes, whatever the shuffle. */
  lemma ScanBeginsEvenly(c: Config, picks: seq<int>)
    requires ValidConfig(c) && LegalBegin(c, picks)
    ensures var s := Begin(c, picks);
            && Spread(s.m.desk.nodes)
            && HeldCount(s.t) == if |c.activeNodes| <= c.concurrency then |c.activeNodes| else c.concurrency
  {
    var start := Fresh(c);
    FreshPlaces(c);
    StartMoves(c.activeNodes, start.m.desk, start.t, false, c.concurrency, picks);
    PicksKeepSpread(c.activeNodes, start.m.desk, start.t, picks);
  }

  // ---------- A scan of one vbucket ----------

  function OneVbucket(node: int, limit: nat): Config {
    Config([node], ScanKind.RangeScan, limit, 1)
  }

  // Its states, up to the first answer of the server.
  ghost function Single(node: int, limit: nat, phase: Phase): System {
    System(OneVbucket(node, limit),
           Manager(Desk(map[node := NodeState(1, [])], 1), Mailbox({0}, [], false, 0, 0, [], [], []), limit, false),
           [NewStream(node, ScanKind.RangeScan).(attempted := phase != StartPosted)], [Track(phase, 1, 0, 0)], 1, 0, 0)
  }

  lemma SingleBegins(node: int, limit: nat)
    requires limit > 0
    ensures var c := OneVbucket(node, limit);
            ValidConfig(c) && LegalBegin(c, [node]) && Begin(c, [node]) == Single(node, limit, StartPosted)
  {
    var begin := Fresh(OneVbucket(node, limit));
    SingleFresh(node, limit);
    SinglePick(begin.m.desk, node);
    SingleMark(begin.t);
  }

  lemma SingleFresh(node: int, limit: nat)
    requires limit > 0
    ensures var c := OneVbucket(node, limit);
            Fresh(c) == System(c, Manager(Desk(map[node := NodeState(0, [0])], 0),
                                          Mailbox({0}, [], false, 0, 0, [], [], []), limit, false),
                               [NewStream(node, ScanKind.RangeScan)], [Track(Queued, 0, 0, 0)], 0, 0, 0)
  {
    assert QueueOf([node], node, 0) == [] && QueueOf([node], node, 1) == [0];
    assert forall id :: id in [node] <==> id == node;
    assert Partition([node]) == map[node := NodeState(0, [0])];
    assert Below(0) == {} && Below(1) == {0};
  }

  lemma SingleMark(t: Tracks)
    requires t == [Track(Queued, 0, 0, 0)]
    ensures MarkLaunched(t, [0]) == [Track(StartPosted, 1, 0, 0)]
  {
    var none: seq<nat> := [];
    assert MarkLaunched(t, none) == t && [0][..0] == none;
  }

  lemma SinglePick(d: Desk, node: int)
    requires d == Desk(map[node := NodeState(0, [0])], 0)
    ensures LegalPicks(false, d, 1, [node]) && StartedBy(d, [node]) == [0]
    ensures LaunchAll(d, [node]) == Desk(map[node := NodeState(1, [])], 1)
  {
    var none: seq<int> := [];
    assert LaunchAll(d, none) == d && LeastLoadedPicks(d, none) && StartedBy(d, none) == [];
    OneMorePick(d, none, node);
    assert none + [node] == [node];
    assert d.nodes[node].Fetched() == NodeState(1, []);
    assert d.nodes[node := NodeState(1, [])] == map[node := NodeState(1, [])];
  }

  lemma SingleStarts(node: int, limit: nat)
    requires limit > 0
    ensures After(Begin(OneVbucket(node, limit), [node]), [RunStart(0, false, [])]) == Single(node, limit, Creating)
  {
    SingleBegins(node, limit);
    var s := Single(node, limit, StartPosted);
    var none: seq<Action> := [];
    assert After(s, none) == s;
  }
}
