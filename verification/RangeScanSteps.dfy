/**
 Every step of a scan keeps what the streams, their ledger and the channel promise. The
 effect of a stream callback is first put into one shape; each part then follows from it.
 */
module RangeScanSteps {
  import opened Wrappers
  import opened RangeScanStream
  import opened RangeScanOrchestrator
  import opened RangeScanPlaces
  import opened RangeScanMail
  import opened RangeScanRuns

  // ---------- The effect of a callback ----------

  ghost function TrackAfter(t: Track, o: Outcome, otherwise: Phase): Track {
    match o.notice
    case Silent => t.To(PhaseAfter(o.task, otherwise))
    case ItemReceived(_) => t
    case StreamCompleted => t.Retired()
    case StreamFailed(_, _) => t.Retired()
    case StartFailedAwaitingRetry => t.Requeued()
  }

  ghost function Fatal(n: Notice): bool {
    n.StreamFailed? && n.fatal
  }

  ghost function MessageOf(v: nat, n: Notice): Option<Message> {
    match n
    case Silent => None
    case ItemReceived(item) => Some(ItemMessage(v, item))
    case StreamCompleted => Some(EndSignal(v, None))
    case StreamFailed(ec, fatal) => Some(EndSignal(v, if fatal then Some(ec) else None))
    case StartFailedAwaitingRetry => None
  }

  ghost function Sent(b: Mailbox, message: Option<Message>): Mailbox {
    if message.Some? then Send(b, message.value) else b
  }

  ghost predicate Effect(s: System, s': System, v: nat, o: Outcome, otherwise: Phase)
    requires v < |s.t| == |s.streams|
  {
    && OnlyStarted(s.t[v := TrackAfter(s.t[v], o, otherwise)], s'.t)
    && s'.m.box == Sent(s.m.box, MessageOf(v, o.notice))
    && s'.m.cancelled == (s.m.cancelled || Fatal(o.notice))
    && s'.streams == (var streams := s.streams[v := o.stream];
                      if Fatal(o.notice) then FlagStreams(streams, s'.m.box.registered) else streams)
    && s'.config == s.config && s'.m.limit == s.m.limit && s'.calls == s.calls
  }

  lemma CallbackHasEffect(s: System, v: nat, o: Outcome, otherwise: Phase, picks: seq<int>)
    requires Accounts(s) && v < |s.t| == |s.streams| && IsHeld(s.t[v].phase)
    ensures var s' := AfterCallback(s, v, o, otherwise, picks);
            s' == s || Effect(s, s', v, o, otherwise)
  {
    match o.notice
    case Silent =>
    case ItemReceived(item) => assert s.t[v := s.t[v]] == s.t;
    case StreamCompleted => CompletedHasEffect(s, v, o, otherwise, picks);
    case StreamFailed(ec, fatal) =>
      if fatal {
        FatalHasEffect(s, v, o, otherwise, picks);
      } else {
        CompletedHasEffect(s, v, o, otherwise, picks);
      }
    case StartFailedAwaitingRetry => RequeueOnlyStarts(s.(streams := s.streams[v := o.stream]), v, picks);
  }

  lemma FatalHasEffect(s: System, v: nat, o: Outcome, otherwise: Phase, picks: seq<int>)
    requires Accounts(s) && v < |s.t| == |s.streams| && Fatal(o.notice)
    ensures Effect(s, AfterCallback(s, v, o, otherwise, picks), v, o, otherwise)
  {
  }

  lemma CompletedHasEffect(s: System, v: nat, o: Outcome, otherwise: Phase, picks: seq<int>)
    requires Accounts(s) && v < |s.t| == |s.streams| && IsHeld(s.t[v].phase)
    requires o.notice.StreamCompleted? || (o.notice.StreamFailed? && !o.notice.fatal)
    ensures var s' := AfterCallback(s, v, o, otherwise, picks);
            s' == s || Effect(s, s', v, o, otherwise)
  {
    CompleteOnlyStarts(s.(streams := s.streams[v := o.stream]), v, picks);
  }

  lemma CompleteOnlyStarts(s: System, v: nat, picks: seq<int>)
    requires Accounts(s) && v < |s.t| && IsHeld(s.t[v].phase)
    ensures Complete(s, v, picks).Some? ==> OnlyStarted(s.t[v := s.t[v].Retired()], Complete(s, v, picks).value.t)
  {
    var a := s.config.activeNodes;
    if Complete(s, v, picks).Some? {
      EndKeepsPlaces(a, s.m.desk, s.t, v);
      LaunchAllOnlyStarts(a, EndAttempt(s.m.desk, a[v]), s.t[v := s.t[v].Retired()], picks);
    }
  }

  lemma RequeueOnlyStarts(s: System, v: nat, picks: seq<int>)
    requires Accounts(s) && v < |s.t| && IsHeld(s.t[v].phase)
    ensures Requeue(s, v, picks).Some? ==> OnlyStarted(s.t[v := s.t[v].Requeued()], Requeue(s, v, picks).value.t)
  {
    var a := s.config.activeNodes;
    if Requeue(s, v, picks).Some? {
      RequeueKeepsPlaces(a, s.m.desk, s.t, v);
      LaunchAllOnlyStarts(a, EndAttemptAndEnqueue(s.m.desk, a[v], v), s.t[v := s.t[v].Requeued()], picks);
    }
  }

  // ---------- What the stream functions promise about a running attempt ----------

  // The callbacks that can run in a phase; otherwise is the phase of a silent one.
  ghost predicate Possible(p: Phase, stream: Stream, o: Outcome, otherwise: Phase) {
    || (p.StartPosted? && otherwise.Creating? && exists timedOut :: o == Start(stream, timedOut))
    || (p.Creating? && otherwise.Creating? && exists error :: o == CreateAnswered(stream, error))
    || (p.ContinuePosted? && otherwise.Continuing? && o == Outcome(stream, Silent, NoTask))
    || (p.Continuing? && otherwise.Continuing? && exists item :: o == ItemArrived(stream, item))
    || (p.Continuing? && otherwise.Stalled? && exists end :: o == BatchEnded(stream, end))
  }

  lemma OutcomeFits(c: Config, v: nat, t: Track, stream: Stream, o: Outcome, otherwise: Phase)
    requires v < |c.activeNodes| && StreamAgrees(c, v, stream, t.phase) && Possible(t.phase, stream, o, otherwise)
    ensures StreamAgrees(c, v, o.stream, TrackAfter(t, o, otherwise).phase)
    ensures o.stream.shouldCancel == stream.shouldCancel
    ensures !stream.shouldCancel ==> !TrackAfter(t, o, otherwise).phase.Stopped?
    ensures BeforeItems(TrackAfter(t, o, otherwise).phase) ==> BeforeItems(t.phase)
    ensures o.notice.ItemReceived? ==> t.phase.Continuing?
  {
  }

  // ---------- Each part ----------

  lemma EffectKeepsLedger(s: System, s': System, v: nat, o: Outcome, otherwise: Phase)
    requires LedgerBalances(s.t) && v < |s.t| == |s.streams| && IsHeld(s.t[v].phase) && IsHeld(otherwise)
    requires Effect(s, s', v, o, otherwise)
    ensures LedgerBalances(s'.t)
  {
  }

  lemma EffectKeepsStreams(s: System, s': System, v: nat, o: Outcome, otherwise: Phase)
    requires StreamsAgree(s) && v < |s.t| && Possible(s.t[v].phase, s.streams[v], o, otherwise)
    requires Effect(s, s', v, o, otherwise)
    ensures StreamsAgree(s')
  {
    OutcomeFits(s.config, v, s.t[v], s.streams[v], o, otherwise);
  }

  lemma EffectKeepsMail(s: System, s': System, v: nat, o: Outcome, otherwise: Phase)
    requires InOrder(s.m.box) && WithinBudget(s.m.box, s.m.limit, s.calls, s.config.limit)
    requires v < |s.t| == |s.streams| && Effect(s, s', v, o, otherwise)
    ensures InOrder(s'.m.box) && WithinBudget(s'.m.box, s'.m.limit, s'.calls, s'.config.limit)
  {
    var message := MessageOf(v, o.notice);
    if message.Some? {
      SendKeepsOrder(s.m.box, message.value, s.m.limit, s.calls, s.config.limit);
    }
  }

  lemma EffectKeepsRegistry(s: System, s': System, v: nat, o: Outcome, otherwise: Phase)
    requires RegistryAgrees(s.m.box, s.t, s.m.cancelled)
    requires v < |s.t| == |s.streams| && Effect(s, s', v, o, otherwise)
    ensures RegistryAgrees(s'.m.box, s'.t, s'.m.cancelled)
  {
    var message := MessageOf(v, o.notice);
    if message.Some? {
      SendKeepsRegistry(s.m.box, message.value, s.t, s.m.cancelled);
    }
  }

  // A vbucket in the log is past its first item, so only its own callbacks change it.
  lemma LogSurvivesTracks(log: seq<Message>, t: Tracks, t': Tracks, cancelled: bool, v: nat, to: Track)
    requires LogAgrees(log, t, cancelled) && v < |t| && IsHeld(t[v].phase)
    requires OnlyStarted(t[v := to], t') && !to.phase.Ended?
    requires BeforeItems(to.phase) ==> BeforeItems(t[v].phase)
    ensures LogAgrees(log, t', cancelled)
  {
    assert forall i :: 0 <= i < |log| && log[i].vbucket != v ==> t'[log[i].vbucket] == t[log[i].vbucket];
    assert forall u :: 0 <= u < |t| && t'[u].phase.Ended? ==> t[u].phase.Ended?;
  }

  lemma LogTakesItem(log: seq<Message>, t: Tracks, t': Tracks, cancelled: bool, v: nat, item: ScanItem)
    requires LogAgrees(log, t, cancelled) && v < |t| && t[v].phase.Continuing? && OnlyStarted(t, t')
    ensures LogAgrees(log + [ItemMessage(v, item)], t', cancelled)
  {
    var log' := log + [ItemMessage(v, item)];
    assert t[v := t[v]] == t;
    LogSurvivesTracks(log, t, t', cancelled, v, t[v]);
    forall u | !cancelled && 0 <= u < |t'| && t'[u].phase.Ended?
      ensures EndSignal(u, None) in log'
    {
      assert EndSignal(u, None) in log;
    }
  }

  lemma LogTakesEnd(log: seq<Message>, t: Tracks, t': Tracks, cancelled: bool, v: nat, error: Option<ErrorCode>)
    requires LogAgrees(log, t, cancelled) && v < |t| && IsHeld(t[v].phase)
    requires OnlyStarted(t[v := t[v].Retired()], t')
    ensures LogAgrees(log + [EndSignal(v, error)], t', cancelled || error.Some?)
  {
    var log' := log + [EndSignal(v, error)];
    assert forall i :: 0 <= i < |log| && log[i].vbucket != v ==> t'[log[i].vbucket] == t[log[i].vbucket];
    forall u | !cancelled && error.None? && 0 <= u < |t'| && t'[u].phase.Ended?
      ensures EndSignal(u, None) in log'
    {
      if u == v {
        assert log'[|log|] == EndSignal(v, None);
      } else {
        assert t[u].phase.Ended? && EndSignal(u, None) in log;
      }
    }
  }

  // A closed channel takes nothing more, but then the scan is cancelled.
  lemma LogMissesEnd(log: seq<Message>, t: Tracks, t': Tracks, v: nat, to: Track)
    requires LogAgrees(log, t, true) && v < |t| && IsHeld(t[v].phase)
    requires OnlyStarted(t[v := to], t') && !BeforeItems(to.phase)
    ensures LogAgrees(log, t', true)
  {
    assert forall i :: 0 <= i < |log| && log[i].vbucket != v ==> t'[log[i].vbucket] == t[log[i].vbucket];
  }

  lemma EffectKeepsLog(s: System, s': System, v: nat, o: Outcome, otherwise: Phase)
    requires LogAgrees(s.m.box.log, s.t, s.m.cancelled) && InOrder(s.m.box)
    requires RegistryAgrees(s.m.box, s.t, s.m.cancelled)
    requires StreamsAgree(s) && v < |s.t| && IsHeld(s.t[v].phase) && Possible(s.t[v].phase, s.streams[v], o, otherwise)
    requires Effect(s, s', v, o, otherwise)
    ensures LogAgrees(s'.m.box.log, s'.t, s'.m.cancelled)
  {
    OutcomeFits(s.config, v, s.t[v], s.streams[v], o, otherwise);
    var log, to := s.m.box.log, TrackAfter(s.t[v], o, otherwise);
    match MessageOf(v, o.notice)
    case None => LogSurvivesTracks(log, s.t, s'.t, s.m.cancelled, v, to);
    case Some(message) =>
      SendLogs(s.m.box, message);
      if s.m.box.closed {
        if !s.m.cancelled {
          EndedWhenDeregistered(s.m.box, s.t, s.m.cancelled, v);
          assert false;
        }
        LogMissesEnd(log, s.t, s'.t, v, to);
      } else {
        match message
        case ItemMessage(_, item) =>
          assert s.t[v := s.t[v]] == s.t;
          LogTakesItem(log, s.t, s'.t, s.m.cancelled, v, item);
        case EndSignal(_, error) => LogTakesEnd(log, s.t, s'.t, s.m.cancelled, v, error);
      }
  }

  lemma SendLogs(b: Mailbox, message: Message)
    ensures Send(b, message).log == (if b.closed then b.log else b.log + [message])
  {
  }
}
