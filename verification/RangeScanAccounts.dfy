/**
 Every step of a scan keeps the accounts: the places of the vbuckets, the number of
 launches, the back-off bound, and that a pending vbucket has an active attempt beside it.
 */
module RangeScanAccounts {
  import opened Wrappers
  import opened RangeScanStream
  import opened RangeScanOrchestrator
  import opened RangeScanPlaces
  import opened RangeScanRuns

  lemma StartMoves(a: seq<int>, d: Desk, t: Tracks, cancelled: bool, count: nat, picks: seq<int>)
    requires PlacesAgree(a, d, t) && LegalPicks(cancelled, d, count, picks)
    ensures var t' := MarkLaunched(t, StartedBy(d, picks));
            && PlacesAgree(a, LaunchAll(d, picks), t')
            && HeldCount(t') == HeldCount(t) + |picks|
            && QueuedCount(t') == QueuedCount(t) - |picks|
            && |picks| <= count
            && (!cancelled && QueuedCount(t') > 0 ==> |picks| == count)
  {
    LaunchAllKeepsPlaces(a, d, t, picks);
    NothingPending(a, LaunchAll(d, picks), MarkLaunched(t, StartedBy(d, picks)));
  }

  lemma EndThenStart(a: seq<int>, d: Desk, t: Tracks, v: nat, cancelled: bool, picks: seq<int>)
    requires PlacesAgree(a, d, t) && v < |t| && IsHeld(t[v].phase)
    requires LegalPicks(cancelled, EndAttempt(d, a[v]), 1, picks)
    ensures var d', t' := EndAttempt(d, a[v]), t[v := t[v].Retired()];
            var t'' := MarkLaunched(t', StartedBy(d', picks));
            && PlacesAgree(a, LaunchAll(d', picks), t'')
            && HeldCount(t'') == HeldCount(t) - 1 + |picks|
            && QueuedCount(t'') == QueuedCount(t) - |picks|
            && |picks| <= 1
            && (!cancelled && QueuedCount(t'') > 0 ==> |picks| == 1)
  {
    EndKeepsPlaces(a, d, t, v);
    StartMoves(a, EndAttempt(d, a[v]), t[v := t[v].Retired()], cancelled, 1, picks);
  }

  lemma RequeueThenStart(a: seq<int>, d: Desk, t: Tracks, v: nat, cancelled: bool, picks: seq<int>)
    requires PlacesAgree(a, d, t) && v < |t| && IsHeld(t[v].phase)
    requires var d' := EndAttemptAndEnqueue(d, a[v], v);
             LegalPicks(cancelled, d', RetryCount(d'), picks)
    ensures var d', t' := EndAttemptAndEnqueue(d, a[v], v), t[v := t[v].Requeued()];
            var t'' := MarkLaunched(t', StartedBy(d', picks));
            && PlacesAgree(a, LaunchAll(d', picks), t'')
            && HeldCount(t'') == HeldCount(t) - 1 + |picks|
            && QueuedCount(t'') == QueuedCount(t) + 1 - |picks|
            && (|picks| > 0 ==> HeldCount(t) == 1 && |picks| == 1)
            && (!cancelled ==> HeldCount(t'') > 0)
  {
    var d' := EndAttemptAndEnqueue(d, a[v], v);
    RequeueKeepsPlaces(a, d, t, v);
    StartMoves(a, d', t[v := t[v].Requeued()], cancelled, RetryCount(d'), picks);
  }

  lemma CompleteKeepsAccounts(s: System, v: nat, picks: seq<int>)
    requires Accounts(s) && v < |s.t| && IsHeld(s.t[v].phase)
    ensures Complete(s, v, picks).Some? ==> Accounts(Complete(s, v, picks).value)
  {
    if Complete(s, v, picks).Some? {
      EndThenStart(s.config.activeNodes, s.m.desk, s.t, v, s.m.cancelled, picks);
    }
  }

  lemma FailKeepsAccounts(s: System, v: nat, ec: ErrorCode)
    requires Accounts(s) && v < |s.t| && IsHeld(s.t[v].phase)
    ensures Accounts(FailFatally(s, v, ec))
  {
    EndKeepsPlaces(s.config.activeNodes, s.m.desk, s.t, v);
  }

  lemma RequeueKeepsAccounts(s: System, v: nat, picks: seq<int>)
    requires Accounts(s) && v < |s.t| && IsHeld(s.t[v].phase)
    ensures Requeue(s, v, picks).Some? ==> Accounts(Requeue(s, v, picks).value)
  {
    if Requeue(s, v, picks).Some? {
      RequeueThenStart(s.config.activeNodes, s.m.desk, s.t, v, s.m.cancelled, picks);
    }
  }

  lemma CallbackKeepsAccounts(s: System, v: nat, o: Outcome, otherwise: Phase, picks: seq<int>)
    requires Accounts(s) && v < |s.t| == |s.streams| && IsHeld(s.t[v].phase) && IsHeld(otherwise)
    ensures Accounts(AfterCallback(s, v, o, otherwise, picks))
  {
    var s' := s.(streams := s.streams[v := o.stream]);
    match o.notice
    case Silent => MoveKeepsPlaces(s.config.activeNodes, s.m.desk, s.t, v, PhaseAfter(o.task, otherwise));
    case ItemReceived(item) =>
    case StreamCompleted => CompleteKeepsAccounts(s', v, picks);
    case StreamFailed(ec, fatal) =>
      FailKeepsAccounts(s', v, ec);
      CompleteKeepsAccounts(s', v, picks);
    case StartFailedAwaitingRetry => RequeueKeepsAccounts(s', v, picks);
  }

  lemma StepKeepsAccounts(s: System, action: Action)
    requires Accounts(s)
    ensures Accounts(Apply(s, action)) && Apply(s, action).config == s.config
  {
    match CallbackOf(s, action)
    case None =>
    case Some(c) => CallbackKeepsAccounts(s, c.v, c.outcome, c.otherwise, c.picks);
  }
}
