/**
 What holds in every state of every range scan, whatever the servers answer, however the
 nodes are shuffled, and whenever the consumer asks or cancels.
 */
module RangeScanTheorems {
  import opened Wrappers
  import opened RangeScanBalancer
  import opened RangeScanOrchestrator
  import opened RangeScanPlaces
  import opened RangeScanMail
  import opened RangeScanRuns
  import opened RangeScanAccounts
  import opened RangeScanSteps

  // ---------- The invariant holds in every run ----------

  lemma CallbackIsPossible(s: System, action: Action)
    requires CallbackOf(s, action).Some?
    ensures var c := CallbackOf(s, action).value;
            && c.v < |s.t| == |s.streams| && IsHeld(s.t[c.v].phase) && IsHeld(c.otherwise)
            && Possible(s.t[c.v].phase, s.streams[c.v], c.outcome, c.otherwise)
  {
  }

  lemma CallbackKeepsInv(s: System, c: Callback)
    requires ScanInv(s) && c.v < |s.t| && IsHeld(s.t[c.v].phase) && IsHeld(c.otherwise)
    requires Possible(s.t[c.v].phase, s.streams[c.v], c.outcome, c.otherwise)
    requires Accounts(AfterCallback(s, c.v, c.outcome, c.otherwise, c.picks))
    ensures ScanInv(AfterCallback(s, c.v, c.outcome, c.otherwise, c.picks))
  {
    var s' := AfterCallback(s, c.v, c.outcome, c.otherwise, c.picks);
    CallbackHasEffect(s, c.v, c.outcome, c.otherwise, c.picks);
    if s' != s {
      EffectKeepsLedger(s, s', c.v, c.outcome, c.otherwise);
      EffectKeepsStreams(s, s', c.v, c.outcome, c.otherwise);
      EffectKeepsMail(s, s', c.v, c.outcome, c.otherwise);
      EffectKeepsRegistry(s, s', c.v, c.outcome, c.otherwise);
      EffectKeepsLog(s, s', c.v, c.outcome, c.otherwise);
    }
  }

  lemma NextKeepsMail(m: Manager, t: Tracks, calls: nat, most: nat)
    requires InOrder(m.box) && WithinBudget(m.box, m.limit, calls, most)
    requires LogAgrees(m.box.log, t, m.cancelled) && RegistryAgrees(m.box, t, m.cancelled)
    ensures var m' := Next(m);
            && InOrder(m'.box) && WithinBudget(m'.box, m'.limit, calls + 1, most)
            && m'.box.log == m.box.log && RegistryAgrees(m'.box, t, m'.cancelled)
  {
    if m.limit == 0 {
      OneMore(m.box.answers, GotCompleted);
    } else {
      NextItemKeepsOrder(m.box, m.cancelled, m.limit - 1, calls + 1, most);
      NextItemKeepsRegistry(m.box, t, m.cancelled);
    }
  }

  lemma NextKeepsStreams(s: System)
    requires StreamsAgree(s) && LogAgrees(s.m.box.log, s.t, s.m.cancelled)
    ensures StreamsAgree(Apply(s, CallNext)) && Apply(s, CallNext).t == s.t
    ensures LogAgrees(s.m.box.log, s.t, Apply(s, CallNext).m.cancelled)
  {
  }

  lemma RepostedKeepsMail(m: Manager, t: Tracks, calls: nat, most: nat)
    requires InOrder(m.box) && WithinBudget(m.box, m.limit, calls, most) && m.box.reposted > 0
    requires LogAgrees(m.box.log, t, m.cancelled) && RegistryAgrees(m.box, t, m.cancelled)
    ensures var m' := Reposted(m);
            && InOrder(m'.box) && WithinBudget(m'.box, m'.limit, calls, most)
            && m'.box.log == m.box.log && RegistryAgrees(m'.box, t, m'.cancelled)
  {
    var b := m.box.(reposted := m.box.reposted - 1);
    NextItemKeepsOrder(b, m.cancelled, m.limit, calls, most);
    NextItemKeepsRegistry(b, t, m.cancelled);
  }

  lemma CancelKeepsStreams(s: System)
    requires StreamsAgree(s) && LogAgrees(s.m.box.log, s.t, s.m.cancelled)
    requires RegistryAgrees(s.m.box, s.t, s.m.cancelled)
    ensures StreamsAgree(Apply(s, CancelScan)) && LogAgrees(s.m.box.log, s.t, true)
    ensures RegistryAgrees(s.m.box, s.t, true)
  {
  }

  lemma ConsumerKeepsInv(s: System, action: Action)
    requires ScanInv(s) && CallbackOf(s, action).None? && Accounts(Apply(s, action))
    ensures ScanInv(Apply(s, action))
  {
    match action
    case CallNext =>
      NextKeepsMail(s.m, s.t, s.calls, s.config.limit);
      NextKeepsStreams(s);
    case RunReposted =>
      if s.m.box.reposted > 0 {
        RepostedKeepsMail(s.m, s.t, s.calls, s.config.limit);
      }
    case CancelScan => CancelKeepsStreams(s);
    case _ =>
  }

  lemma StepKeepsInv(s: System, action: Action)
    requires ScanInv(s)
    ensures ScanInv(Apply(s, action)) && Apply(s, action).config == s.config
  {
    StepKeepsAccounts(s, action);
    if CallbackOf(s, action).Some? {
      CallbackIsPossible(s, action);
      CallbackKeepsInv(s, CallbackOf(s, action).value);
    } else {
      ConsumerKeepsInv(s, action);
    }
  }

  lemma {:induction false} TallyAll(bits: seq<bool>)
    requires forall v :: 0 <= v < |bits| ==> bits[v]
    ensures Tally(bits) == |bits|
  {
    if bits != [] {
      TallyAll(bits[..|bits| - 1]);
    }
  }

  lemma FreshNode(c: Config, id: int)
    requires ValidConfig(c) && id in Fresh(c).m.desk.nodes
    ensures NodeAgrees(c.activeNodes, Fresh(c).m.desk.nodes[id], Fresh(c).t, id)
  {
    QueueIsExact(c.activeNodes, id, |c.activeNodes|);
    TallyZero(HeldAtBits(c.activeNodes, Fresh(c).t, id));
  }

  lemma FreshPlaces(c: Config)
    requires ValidConfig(c)
    ensures PlacesAgree(c.activeNodes, Fresh(c).m.desk, Fresh(c).t)
    ensures HeldCount(Fresh(c).t) == 0 && QueuedCount(Fresh(c).t) == |c.activeNodes|
  {
    TallyZero(HeldBits(Fresh(c).t));
    TallyAll(QueuedBits(Fresh(c).t));
    forall id | id in Fresh(c).m.desk.nodes
      ensures NodeAgrees(c.activeNodes, Fresh(c).m.desk.nodes[id], Fresh(c).t, id)
    {
      FreshNode(c, id);
    }
  }

  lemma BeginAccounts(c: Config, picks: seq<int>)
    requires ValidConfig(c) && LegalBegin(c, picks)
    ensures Accounts(Begin(c, picks)) && OnlyStarted(Fresh(c).t, Begin(c, picks).t)
  {
    FreshPlaces(c);
    StartMoves(c.activeNodes, Fresh(c).m.desk, Fresh(c).t, false, c.concurrency, picks);
    LaunchAllOnlyStarts(c.activeNodes, Fresh(c).m.desk, Fresh(c).t, picks);
  }

  lemma BeginStreams(c: Config, t: Tracks)
    requires ValidConfig(c) && OnlyStarted(Fresh(c).t, t)
    ensures LedgerBalances(t) && StreamsAgree(Fresh(c).(t := t))
    ensures LogAgrees(Fresh(c).m.box.log, t, false)
  {
  }

  lemma BeginMail(c: Config, t: Tracks)
    requires ValidConfig(c) && |t| == |c.activeNodes|
    ensures var b := Fresh(c).m.box;
            && InOrder(b) && WithinBudget(b, c.limit, 0, c.limit) && RegistryAgrees(b, t, false)
  {
  }

  lemma BeginHasInv(c: Config, picks: seq<int>)
    requires ValidConfig(c) && LegalBegin(c, picks)
    ensures ScanInv(Begin(c, picks)) && Begin(c, picks).config == c
  {
    BeginAccounts(c, picks);
    BeginStreams(c, Begin(c, picks).t);
    BeginMail(c, Begin(c, picks).t);
  }

  lemma {:induction false} EveryRunKeepsInv(c: Config, picks: seq<int>, actions: seq<Action>)
    requires ValidConfig(c) && LegalBegin(c, picks)
    ensures ScanInv(After(Begin(c, picks), actions))
    ensures After(Begin(c, picks), actions).config == c
  {
    if actions == [] {
      BeginHasInv(c, picks);
    } else {
      var earlier := actions[..|actions| - 1];
      EveryRunKeepsInv(c, picks, earlier);
      StepKeepsInv(After(Begin(c, picks), earlier), actions[|actions| - 1]);
    }
  }
}
