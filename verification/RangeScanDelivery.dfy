/**
 What the consumer of a range scan is told: all items, in order, before it is told that
 the scan is complete, and never more than its limit. And what it is not told: a fatal
 error that arrives while none of its calls is waiting.
 */
module RangeScanDelivery {
  import opened Wrappers
  import opened RangeScanStream
  import opened RangeScanOrchestrator
  import opened RangeScanPlaces
  import opened RangeScanMail
  import opened RangeScanRuns
  import opened RangeScanSteps
  import opened RangeScanTheorems
  import opened RangeScanResults

  // ---------- What the streams received ----------

  // The items that the streams accept from the servers, in the order they come.
  ghost function Received(s: System, actions: seq<Action>): seq<(nat, ScanItem)> {
    if actions == [] then []
    else
      var earlier, last := actions[..|actions| - 1], actions[|actions| - 1];
      Received(s, earlier) + ItemTaken(After(s, earlier), last)
  }

  ghost function ItemTaken(s: System, action: Action): seq<(nat, ScanItem)> {
    if action.DeliverItem? && InPhase(s, action.v, Continuing) && !s.streams[action.v].shouldCancel
    then [(action.v, action.item)] else []
  }

  ghost predicate ReachableReceiving(c: Config, s: System, received: seq<(nat, ScanItem)>) {
    ValidConfig(c) &&
    exists picks, actions ::
      && LegalBegin(c, picks)
      && s == After(Begin(c, picks), actions)
      && received == Received(Begin(c, picks), actions)
  }

  ghost function ItemsIn(message: Option<Message>): seq<(nat, ScanItem)> {
    if message.Some? && message.value.ItemMessage? then [(message.value.vbucket, message.value.item)] else []
  }

  lemma SentLogsItem(b: Mailbox, message: Option<Message>)
    requires !b.closed
    ensures ItemsOf(Sent(b, message).log) == ItemsOf(b.log) + ItemsIn(message)
  {
    if message.Some? {
      SendLogs(b, message.value);
      OneMoreMessage(b.log, message.value);
    }
  }

  lemma NoticeIsTaken(s: System, action: Action)
    requires CallbackOf(s, action).Some?
    ensures var c := CallbackOf(s, action).value;
            ItemTaken(s, action) == ItemsIn(MessageOf(c.v, c.outcome.notice))
  {
  }

  lemma OpenWhileHeld(s: System, v: nat)
    requires ScanInv(s) && !s.m.cancelled && v < |s.t| && IsHeld(s.t[v].phase)
    ensures !s.m.box.closed
  {
    if s.m.box.closed {
      EndedWhenDeregistered(s.m.box, s.t, s.m.cancelled, v);
    }
  }

  lemma ConsumerLogsNothing(s: System, action: Action)
    requires CallbackOf(s, action).None?
    ensures Apply(s, action).m.box.log == s.m.box.log
    ensures ItemTaken(s, action) == []
  {
  }

  lemma StepLogsItem(s: System, action: Action)
    requires ScanInv(s) && !Apply(s, action).m.cancelled
    ensures ItemsOf(Apply(s, action).m.box.log) == ItemsOf(s.m.box.log) + ItemTaken(s, action)
  {
    StepGrows(s, action);
    if CallbackOf(s, action).Some? {
      CallbackStep(s, action);
      var s', c := Apply(s, action), CallbackOf(s, action).value;
      if action.DeliverItem? {
        ItemHasEffect(s, action);
      }
      if Effect(s, s', c.v, c.outcome, c.otherwise) {
        OpenWhileHeld(s, c.v);
        SentLogsItem(s.m.box, MessageOf(c.v, c.outcome.notice));
        NoticeIsTaken(s, action);
      }
    } else {
      ConsumerLogsNothing(s, action);
    }
  }

  // An item always has its effect: no start has to be legal for it.
  lemma ItemHasEffect(s: System, action: Action)
    requires action.DeliverItem? && CallbackOf(s, action).Some?
    ensures var c := CallbackOf(s, action).value;
            c.v < |s.t| == |s.streams| && Effect(s, Apply(s, action), c.v, c.outcome, c.otherwise)
  {
    assert s.t[action.v := s.t[action.v]] == s.t;
  }

  lemma {:induction false} LogIsReceived(c: Config, picks: seq<int>, actions: seq<Action>)
    requires ValidConfig(c) && LegalBegin(c, picks)
    ensures var s := After(Begin(c, picks), actions);
            && ScanInv(s)
            && (!s.m.cancelled ==> ItemsOf(s.m.box.log) == Received(Begin(c, picks), actions))
  {
    EveryRunKeepsInv(c, picks, actions);
    if actions != [] {
      var earlier, last := actions[..|actions| - 1], actions[|actions| - 1];
      LogIsReceived(c, picks, earlier);
      StepGrows(After(Begin(c, picks), earlier), last);
      if !Apply(After(Begin(c, picks), earlier), last).m.cancelled {
        StepLogsItem(After(Begin(c, picks), earlier), last);
      }
    }
  }

  // ---------- Told that the scan is complete ----------

  ghost predicate ToldCompleted(b: Mailbox) {
    GotCompleted in b.answers
  }

  ghost predicate TellsTruth(s: System) {
    !s.m.cancelled && ToldCompleted(s.m.box) ==> s.m.box.registered == {}
  }

  lemma SendTellsTruth(b: Mailbox, message: Message)
    requires ToldCompleted(b) ==> b.registered == {}
    ensures ToldCompleted(Send(b, message)) ==> Send(b, message).registered == {}
  {
  }

  lemma NextTellsTruth(m: Manager)
    requires ToldCompleted(m.box) ==> m.box.registered == {}
    ensures !Next(m).cancelled && ToldCompleted(Next(m).box) ==> Next(m).box.registered == {}
    ensures m.box.reposted > 0 && !m.cancelled && ToldCompleted(Reposted(m).box) ==> Reposted(m).box.registered == {}
  {
  }

  lemma StepTellsTruth(s: System, action: Action)
    requires ScanInv(s) && TellsTruth(s)
    ensures TellsTruth(Apply(s, action))
  {
    StepGrows(s, action);
    if s.m.cancelled {
    } else if CallbackOf(s, action).Some? {
      CallbackStep(s, action);
      var c := CallbackOf(s, action).value;
      if MessageOf(c.v, c.outcome.notice).Some? {
        SendTellsTruth(s.m.box, MessageOf(c.v, c.outcome.notice).value);
      }
    } else {
      NextTellsTruth(s.m);
    }
  }

  lemma {:induction false} RunTellsTruth(c: Config, picks: seq<int>, actions: seq<Action>)
    requires ValidConfig(c) && LegalBegin(c, picks)
    ensures TellsTruth(After(Begin(c, picks), actions))
  {
    if actions != [] {
      var earlier := actions[..|actions| - 1];
      EveryRunKeepsInv(c, picks, earlier);
      RunTellsTruth(c, picks, earlier);
      StepTellsTruth(After(Begin(c, picks), earlier), actions[|actions| - 1]);
    }
  }

  lemma {:induction false} ItemsOfPrefix(consumed: seq<Message>, log: seq<Message>)
    requires consumed <= log
    ensures ItemsOf(consumed) <= ItemsOf(log)
  {
    if |consumed| < |log| {
      ItemsOfPrefix(consumed, log[..|log| - 1]);
    } else {
      assert consumed == log;
    }
  }

  // Without a cancellation, the consumer has been given a prefix of what was received; once
  // it is told that the scan is complete, every stream has ended and it has been given all.
  lemma DeliveryIsComplete(c: Config, s: System, received: seq<(nat, ScanItem)>)
    requires ReachableReceiving(c, s, received) && !s.m.cancelled
    ensures ItemsGiven(s.m.box.answers) <= received
    ensures ToldCompleted(s.m.box) ==>
              && (forall v :: 0 <= v < |c.activeNodes| ==> EndSignal(v, None) in s.m.box.consumed)
              && ItemsGiven(s.m.box.answers) == received
  {
    var picks, actions :| LegalBegin(c, picks) && s == After(Begin(c, picks), actions)
                          && received == Received(Begin(c, picks), actions);
    EveryRunKeepsInv(c, picks, actions);
    LogIsReceived(c, picks, actions);
    RunTellsTruth(c, picks, actions);
    InvDelivers(s);
  }

  lemma InvDelivers(s: System)
    requires ScanInv(s) && TellsTruth(s) && !s.m.cancelled
    ensures ItemsGiven(s.m.box.answers) <= ItemsOf(s.m.box.log)
    ensures ToldCompleted(s.m.box) ==>
              && (forall v :: 0 <= v < |s.t| ==> EndSignal(v, None) in s.m.box.consumed)
              && ItemsGiven(s.m.box.answers) == ItemsOf(s.m.box.log)
  {
    ItemsOfPrefix(s.m.box.consumed, s.m.box.log);
    WaitingIsRegistered(s.m.box, s.t, s.m.cancelled);
    if ToldCompleted(s.m.box) {
      assert s.m.box.consumed == s.m.box.log;
    }
  }

  // An uncancelled call below the limit is answered with range_scan_completed exactly when
  // every stream's end signal has been consumed.
  lemma CompletedExactlyWhenAllEnded(c: Config, s: System)
    requires Reachable(c, s) && !s.m.cancelled && s.m.limit > 0
    ensures (exists k :: |s.m.box.answers| <= k < |Next(s.m).box.answers| && Next(s.m).box.answers[k] == GotCompleted)
            <==> forall v :: 0 <= v < |c.activeNodes| ==> EndSignal(v, None) in s.m.box.consumed
  {
    ReachableHasInv(c, s);
    AnswerIsCompleted(s.m, s.t);
  }

  lemma AnswerIsCompleted(m: Manager, t: Tracks)
    requires RegistryAgrees(m.box, t, m.cancelled) && !m.cancelled && m.limit > 0
    ensures (exists k :: |m.box.answers| <= k < |Next(m).box.answers| && Next(m).box.answers[k] == GotCompleted)
            <==> forall v :: 0 <= v < |t| ==> EndSignal(v, None) in m.box.consumed
  {
    var answers := Next(m).box.answers;
    if m.box.registered == {} {
      assert answers[|answers| - 1] == GotCompleted;
    } else {
      var v := Member(m.box.registered);
      assert EndSignal(v, None) !in m.box.consumed;
    }
  }

  // Every call of next() has one answer or still waits, and the limit is never exceeded.
  lemma LimitIsKept(c: Config, s: System)
    requires Reachable(c, s)
    ensures |ItemsGiven(s.m.box.answers)| <= c.limit
    ensures s.calls == |s.m.box.answers| + s.m.box.receivers + s.m.box.reposted
  {
    ReachableHasInv(c, s);
  }

  // ---------- A fatal error ----------

  ghost predicate ToldError(b: Mailbox) {
    exists i :: 0 <= i < |b.answers| && b.answers[i].GotError?
  }

  lemma SendTellsNoError(b: Mailbox, message: Message)
    requires !ToldError(b) && (b.receivers == 0 || !(message.EndSignal? && message.error.Some?))
    ensures !ToldError(Send(b, message))
    ensures b.receivers == 0 ==> Send(b, message).receivers == 0
  {
  }

  lemma NextItemTellsNoError(b: Mailbox, cancelled: bool)
    requires !ToldError(b)
    requires cancelled || b.registered == {} || b.channel == []
             || !(b.channel[0].EndSignal? && b.channel[0].error.Some?)
    ensures !ToldError(NextItem(b, cancelled))
    ensures cancelled ==> NextItem(b, cancelled).receivers == 0
  {
    if b.registered == {} || cancelled {
      var answers := NextItem(b, cancelled).answers;
      assert forall i :: 0 <= i < |b.answers| ==> answers[i] == b.answers[i];
    }
  }

  // Nothing fatal is in the channel of an uncancelled scan.
  lemma NothingFatalWaits(s: System)
    requires ScanInv(s) && !s.m.cancelled && s.m.box.registered != {} && s.m.box.channel != []
    ensures !(s.m.box.channel[0].EndSignal? && s.m.box.channel[0].error.Some?)
  {
    assert s.m.box.channel[0] == s.m.box.log[|s.m.box.consumed|];
  }

  // No error so far: the scan is uncancelled, or it is cancelled and nobody waits any more.
  ghost predicate NoErrorTold(s: System) {
    !ToldError(s.m.box) && (s.m.cancelled ==> s.m.box.receivers == 0)
  }

  lemma ConsumerTellsNoError(s: System, action: Action)
    requires ScanInv(s) && NoErrorTold(s) && CallbackOf(s, action).None?
    requires !Apply(s, action).m.cancelled || s.m.cancelled
    ensures NoErrorTold(Apply(s, action))
  {
    if !s.m.cancelled && s.m.box.registered != {} && s.m.box.channel != [] {
      NothingFatalWaits(s);
    }
    if action.CallNext? && s.m.limit > 0 {
      NextItemTellsNoError(s.m.box, s.m.cancelled);
    } else if action.RunReposted? && s.m.box.reposted > 0 {
      NextItemTellsNoError(s.m.box.(reposted := s.m.box.reposted - 1), s.m.cancelled);
    }
  }

  lemma StepTellsNoError(s: System, action: Action)
    requires ScanInv(s) && NoErrorTold(s)
    requires !Apply(s, action).m.cancelled || s.m.cancelled
    ensures NoErrorTold(Apply(s, action))
  {
    if CallbackOf(s, action).Some? {
      CallbackStep(s, action);
      var c := CallbackOf(s, action).value;
      var message := MessageOf(c.v, c.outcome.notice);
      if message.Some? {
        SendTellsNoError(s.m.box, message.value);
      }
    } else {
      ConsumerTellsNoError(s, action);
    }
  }

  lemma {:induction false} NoErrorUncancelled(c: Config, picks: seq<int>, actions: seq<Action>)
    requires ValidConfig(c) && LegalBegin(c, picks) && !After(Begin(c, picks), actions).m.cancelled
    ensures NoErrorTold(After(Begin(c, picks), actions))
  {
    if actions != [] {
      var earlier := actions[..|actions| - 1];
      EveryRunKeepsInv(c, picks, earlier);
      StepGrows(After(Begin(c, picks), earlier), actions[|actions| - 1]);
      NoErrorUncancelled(c, picks, earlier);
      StepTellsNoError(After(Begin(c, picks), earlier), actions[|actions| - 1]);
    }
  }

  lemma {:induction false} NeverToldLater(s: System, more: seq<Action>)
    requires ScanInv(s) && s.m.cancelled && NoErrorTold(s)
    ensures ScanInv(After(s, more)) && After(s, more).m.cancelled && NoErrorTold(After(s, more))
  {
    if more != [] {
      var earlier := more[..|more| - 1];
      NeverToldLater(s, earlier);
      StepKeepsInv(After(s, earlier), more[|more| - 1]);
      StepGrows(After(s, earlier), more[|more| - 1]);
      StepTellsNoError(After(s, earlier), more[|more| - 1]);
    }
  }

  lemma FatalStepTells(s: System, action: Action)
    requires ScanInv(s) && !s.m.cancelled && NoErrorTold(s)
    requires CallbackOf(s, action).Some? && Fatal(CallbackOf(s, action).value.outcome.notice)
    ensures Apply(s, action).m.cancelled
    ensures s.m.box.receivers > 0 ==>
              && ToldError(Apply(s, action).m.box)
              && Apply(s, action).m.box.answers
                 == s.m.box.answers + [GotError(CallbackOf(s, action).value.outcome.notice.ec)]
    ensures s.m.box.receivers == 0 ==> NoErrorTold(Apply(s, action))
  {
    CallbackStep(s, action);
    var s', c := Apply(s, action), CallbackOf(s, action).value;
    FatalStepSends(s, action);
    var signal := EndSignal(c.v, Some(c.outcome.notice.ec));
    if s.m.box.receivers > 0 {
      assert s'.m.box.answers[|s.m.box.answers|].GotError?;
    } else {
      SendTellsNoError(s.m.box, signal);
    }
  }

  lemma FatalStepSends(s: System, action: Action)
    requires ScanInv(s) && !s.m.cancelled
    requires CallbackOf(s, action).Some? && Fatal(CallbackOf(s, action).value.outcome.notice)
    ensures var c := CallbackOf(s, action).value;
            && Apply(s, action).m.cancelled
            && Apply(s, action).m.box == Send(s.m.box, EndSignal(c.v, Some(c.outcome.notice.ec)))
  {
    CallbackIsPossible(s, action);
  }

  // The consumer learns of a fatal stream error if and only if one of its calls is already
  // waiting when the error arrives, which is then answered with it; otherwise all its later
  // calls see a completed scan.
  lemma FatalErrorReachesOnlyWaitingConsumer(c: Config, picks: seq<int>, actions: seq<Action>, s: System,
                                             action: Action)
    requires ValidConfig(c) && LegalBegin(c, picks) && s == After(Begin(c, picks), actions) && !s.m.cancelled
    requires CallbackOf(s, action).Some? && Fatal(CallbackOf(s, action).value.outcome.notice)
    ensures (exists more :: ToldError(After(Apply(s, action), more).m.box)) <==> s.m.box.receivers > 0
    ensures s.m.box.receivers > 0 ==>
              Apply(s, action).m.box.answers
              == s.m.box.answers + [GotError(CallbackOf(s, action).value.outcome.notice.ec)]
  {
    EveryRunKeepsInv(c, picks, actions);
    NoErrorUncancelled(c, picks, actions);
    StepKeepsInv(s, action);
    FatalStepTells(s, action);
    ToldNowOrNever(Apply(s, action));
  }

  lemma ToldNowOrNever(s: System)
    requires ScanInv(s) && s.m.cancelled && (ToldError(s.m.box) || NoErrorTold(s))
    ensures (exists more :: ToldError(After(s, more).m.box)) <==> ToldError(s.m.box)
  {
    if ToldError(s.m.box) {
      var nothing: seq<Action> := [];
      assert After(s, nothing) == s;
    } else {
      forall more
        ensures !ToldError(After(s, more).m.box)
      {
        NeverToldLater(s, more);
      }
    }
  }

  /** That happens: the stream of a scan of one vbucket fails before next() is called, and the
      first call is told that the scan is complete. */
  lemma FatalErrorCanBeMissed(node: int, limit: nat)
    requires limit > 0
    ensures var c, start := OneVbucket(node, limit), [RunStart(0, false, [])];
            var fatal := AnswerCreate(0, Some(InternalServerFailure), []);
            var s := After(Begin(c, [node]), start);
            && ValidConfig(c) && LegalBegin(c, [node]) && !s.m.cancelled
            && CallbackOf(s, fatal).Some? && Fatal(CallbackOf(s, fatal).value.outcome.notice)
            && Apply(Apply(s, fatal), CallNext).m.box.answers == [GotCompleted]
            && forall more :: !ToldError(After(Apply(s, fatal), more).m.box)
  {
    var c, start := OneVbucket(node, limit), [RunStart(0, false, [])];
    SingleBegins(node, limit);
    SingleStarts(node, limit);
    var fatal := AnswerCreate(0, Some(InternalServerFailure), []);
    FatalErrorReachesOnlyWaitingConsumer(c, [node], start, Single(node, limit, Creating), fatal);
  }
}
