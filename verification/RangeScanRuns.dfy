/**
 A range scan as a state machine: one orchestrator, its streams, the answers of the
 servers, the posted tasks and one consumer. Actions come in any order; an action that
 is not possible in a state leaves it as it is, so every sequence of actions is a run.
 */
module RangeScanRuns {
  import opened Wrappers
  import opened RangeScanBalancer
  import opened RangeScanStream
  import opened RangeScanOrchestrator
  import opened RangeScanPlaces
  import opened RangeScanMail

  datatype Config = Config(activeNodes: seq<int>, kind: ScanKind, limit: nat, concurrency: nat)

  // What scan() accepts without throwing, for vbucket ids of 16 bits.
  ghost predicate ValidConfig(c: Config) {
    |c.activeNodes| <= UINT16_MAX && c.limit > 0 && c.concurrency > 0
  }

  // launches, busies and calls count start attempts, busy answers and calls of next().
  datatype System = System(
    config: Config,
    m: Manager,
    streams: seq<Stream>,
    t: Tracks,
    launches: nat,
    busies: nat,
    calls: nat
  )

  // picks are the nodes that start_streams chooses, if the action leads to it.
  datatype Action =
    | RunStart(v: nat, timedOut: bool, picks: seq<int>)
    | AnswerCreate(v: nat, error: Option<ErrorCode>, picks: seq<int>)
    | RunContinue(v: nat)
    | DeliverItem(v: nat, item: ScanItem)
    | AnswerContinue(v: nat, end: BatchEnd, picks: seq<int>)
    | CallNext
    | RunReposted
    | CancelScan

  ghost function Fresh(c: Config): System
    requires ValidConfig(c)
  {
    var n := |c.activeNodes|;
    System(c,
           Manager(Desk(Partition(c.activeNodes), 0), Mailbox(Below(n), [], false, 0, 0, [], [], []), c.limit, false),
           seq(n, v requires 0 <= v < n => NewStream(c.activeNodes[v], c.kind)),
           seq(n, v requires 0 <= v < n => Track(Queued, 0, 0, 0)),
           0, 0, 0)
  }

  // scan(): register every stream, then start as many as the concurrency allows.
  ghost function Begin(c: Config, picks: seq<int>): System
    requires ValidConfig(c)
  {
    StartPicked(Fresh(c), picks)
  }

  ghost predicate LegalBegin(c: Config, picks: seq<int>)
    requires ValidConfig(c)
  {
    LegalPicks(false, Fresh(c).m.desk, c.concurrency, picks)
  }

  ghost function StartPicked(s: System, picks: seq<int>): System {
    s.(m := StartMore(s.m, picks),
       t := MarkLaunched(s.t, StartedBy(s.m.desk, picks)),
       launches := s.launches + |picks|)
  }

  // cancel() reaches the streams that are still registered.
  ghost function FlagStreams(streams: seq<Stream>, registered: set<nat>): (flagged: seq<Stream>)
    ensures |flagged| == |streams|
  {
    seq(|streams|, v requires 0 <= v < |streams| =>
      if v in registered then streams[v].(shouldCancel := true) else streams[v])
  }

  ghost function NodeKnown(s: System, v: nat): bool {
    v < |s.config.activeNodes| && s.config.activeNodes[v] in s.m.desk.nodes
  }

  ghost function Complete(s: System, v: nat, picks: seq<int>): Option<System>
    requires v < |s.t| && NodeKnown(s, v)
  {
    var m := RetireCompleted(s.m, s.config.activeNodes[v], v);
    if LegalPicks(m.cancelled, m.desk, 1, picks) then
      Some(StartPicked(s.(m := m, t := s.t[v := s.t[v].Retired()]), picks))
    else None
  }

  ghost function FailFatally(s: System, v: nat, ec: ErrorCode): System
    requires v < |s.t| && NodeKnown(s, v)
  {
    var m := RetireFatal(s.m, s.config.activeNodes[v], v, ec);
    s.(m := m, t := s.t[v := s.t[v].Retired()], streams := FlagStreams(s.streams, m.box.registered))
  }

  ghost function Requeue(s: System, v: nat, picks: seq<int>): Option<System>
    requires v < |s.t| && NodeKnown(s, v)
  {
    var desk := EndAttemptAndEnqueue(s.m.desk, s.config.activeNodes[v], v);
    if LegalPicks(s.m.cancelled, desk, RetryCount(desk), picks) then
      Some(StartPicked(s.(m := s.m.(desk := desk), t := s.t[v := s.t[v].Requeued()], busies := s.busies + 1), picks))
    else None
  }

  ghost function PhaseAfter(task: Task, otherwise: Phase): Phase {
    match task
    case SendCreate => Creating
    case PostContinue => ContinuePosted
    case PostCancel => Stopped
    case NoTask => otherwise
  }

  // A stream callback ran: its stream changes, and the manager hears its notice.
  ghost function AfterCallback(s: System, v: nat, o: Outcome, otherwise: Phase, picks: seq<int>): System
    requires v < |s.t| == |s.streams| && NodeKnown(s, v)
  {
    var s' := s.(streams := s.streams[v := o.stream]);
    match o.notice
    case Silent => s'.(t := s.t[v := s.t[v].To(PhaseAfter(o.task, otherwise))])
    case ItemReceived(item) => s'.(m := s.m.(box := Send(s.m.box, ItemMessage(v, item))))
    case StreamCompleted => Complete(s', v, picks).GetOr(s)
    case StreamFailed(ec, fatal) => if fatal then FailFatally(s', v, ec) else Complete(s', v, picks).GetOr(s)
    case StartFailedAwaitingRetry => Requeue(s', v, picks).GetOr(s)
  }

  ghost predicate InPhase(s: System, v: nat, p: Phase) {
    v < |s.t| == |s.streams| && NodeKnown(s, v) && s.t[v].phase == p
  }

  // The stream callback that an action runs, if the stream waits for it.
  datatype Callback = Callback(v: nat, outcome: Outcome, otherwise: Phase, picks: seq<int>)

  ghost function CallbackOf(s: System, action: Action): Option<Callback> {
    match action
    case RunStart(v, timedOut, picks) =>
      if InPhase(s, v, StartPosted) then Some(Callback(v, Start(s.streams[v], timedOut), Creating, picks)) else None
    case AnswerCreate(v, error, picks) =>
      if InPhase(s, v, Creating) then Some(Callback(v, CreateAnswered(s.streams[v], error), Creating, picks)) else None
    case RunContinue(v) =>
      if InPhase(s, v, ContinuePosted)
      then Some(Callback(v, Outcome(s.streams[v], Silent, NoTask), Continuing, [])) else None
    case DeliverItem(v, item) =>
      if InPhase(s, v, Continuing) then Some(Callback(v, ItemArrived(s.streams[v], item), Continuing, [])) else None
    case AnswerContinue(v, end, picks) =>
      if InPhase(s, v, Continuing) then Some(Callback(v, BatchEnded(s.streams[v], end), Stalled, picks)) else None
    case _ => None
  }

  ghost function Apply(s: System, action: Action): System {
    match action
    case CallNext =>
      var s' := s.(m := Next(s.m), calls := s.calls + 1);
      if s.m.limit == 0 then s'.(streams := FlagStreams(s.streams, s.m.box.registered)) else s'
    case RunReposted =>
      if s.m.box.reposted > 0 then s.(m := Reposted(s.m)) else s
    case CancelScan =>
      s.(m := s.m.(cancelled := true), streams := FlagStreams(s.streams, s.m.box.registered))
    case _ =>
      match CallbackOf(s, action)
      case None => s
      case Some(c) => AfterCallback(s, c.v, c.outcome, c.otherwise, c.picks)
  }

  // A posted next_item continuation runs.
  ghost function Reposted(m: Manager): Manager
    requires m.box.reposted > 0
  {
    m.(box := NextItem(m.box.(reposted := m.box.reposted - 1), m.cancelled))
  }

  ghost function After(s: System, actions: seq<Action>): System {
    if actions == [] then s else Apply(After(s, actions[..|actions| - 1]), actions[|actions| - 1])
  }

  // ---------- What every step keeps ----------

  ghost predicate StreamAgrees(c: Config, v: nat, stream: Stream, p: Phase)
    requires v < |c.activeNodes|
  {
    && stream.node == c.activeNodes[v] && stream.kind == c.kind
    && stream.from == None
    && (BeforeItems(p) ==> stream.state.NotRunning? && stream.lastSeenKey == "")
    && (IsHeld(p) && !BeforeItems(p) ==> stream.state.Running?)
    && (p.Ended? ==> Terminal(stream.state))
  }

  ghost predicate StreamsAgree(s: System) {
    && |s.streams| == |s.t| == |s.config.activeNodes|
    && (forall v :: 0 <= v < |s.t| ==> StreamAgrees(s.config, v, s.streams[v], s.t[v].phase))
    && (!s.m.cancelled ==> forall v :: 0 <= v < |s.t| ==> !s.streams[v].shouldCancel && !s.t[v].phase.Stopped?)
  }

  ghost function Max(x: int, y: int): int { if x >= y then x else y }

  // How many attempts there are, and were.
  ghost predicate Accounts(s: System) {
    && ValidConfig(s.config)
    && PlacesAgree(s.config.activeNodes, s.m.desk, s.t)
    && s.launches + QueuedCount(s.t) == |s.t| + s.busies
    && HeldCount(s.t) <= Max(1, s.config.concurrency - s.busies)
    && (!s.m.cancelled && QueuedCount(s.t) > 0 ==> HeldCount(s.t) > 0)
  }

  ghost predicate ScanInv(s: System) {
    && Accounts(s)
    && LedgerBalances(s.t)
    && StreamsAgree(s)
    && InOrder(s.m.box)
    && WithinBudget(s.m.box, s.m.limit, s.calls, s.config.limit)
    && LogAgrees(s.m.box.log, s.t, s.m.cancelled)
    && RegistryAgrees(s.m.box, s.t, s.m.cancelled)
  }
}
