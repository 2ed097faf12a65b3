/**
 How the streams of a scan end, said by the servers' answers alone: which errors are fatal,
 what a completed scan has behind it, and what a stream knows when it is started again.
 */
module RangeScanOutcomes {
  import opened Wrappers
  import opened RangeScanStream
  import opened RangeScanOrchestrator
  import opened RangeScanPlaces
  import opened RangeScanMail
  import opened RangeScanRuns
  import opened RangeScanSteps
  import opened RangeScanTheorems
  import opened RangeScanResults
  import opened RangeScanDelivery

  // The notice that a callback gives to the manager.
  ghost function NoticeOf(s: System, action: Action): Notice
    requires CallbackOf(s, action).Some?
  {
    CallbackOf(s, action).value.outcome.notice
  }

  // ---------- First attempts and retries ----------

  // The clock of a stream runs from its first start on.
  ghost predicate ClocksRun(s: System) {
    |s.t| == |s.streams| &&
    forall v :: 0 <= v < |s.t| ==> ClockRuns(s.t[v], s.streams[v])
  }

  ghost predicate ClockRuns(t: Track, stream: Stream) {
    stream.attempted <==> !(t.phase in {Queued, StartPosted}) || t.busies > 0
  }

  lemma CallbackKeepsClock(t: Track, stream: Stream, o: Outcome, otherwise: Phase)
    requires Possible(t.phase, stream, o, otherwise) && ClockRuns(t, stream)
    ensures ClockRuns(TrackAfter(t, o, otherwise), o.stream)
  {
  }

  lemma StepKeepsClocks(s: System, action: Action)
    requires ScanInv(s) && ClocksRun(s)
    ensures ClocksRun(Apply(s, action))
  {
    if CallbackOf(s, action).Some? {
      var s', c := Apply(s, action), CallbackOf(s, action).value;
      CallbackIsPossible(s, action);
      CallbackStep(s, action);
      if s' != s {
        CallbackKeepsClock(s.t[c.v], s.streams[c.v], c.outcome, c.otherwise);
        EffectKeepsClocks(s, s', c);
      }
    }
  }

  lemma EffectKeepsClocks(s: System, s': System, c: Callback)
    requires ClocksRun(s) && c.v < |s.t| && Effect(s, s', c.v, c.outcome, c.otherwise)
    requires ClockRuns(TrackAfter(s.t[c.v], c.outcome, c.otherwise), c.outcome.stream)
    ensures ClocksRun(s')
  {
    var t, streams := s.t[c.v := TrackAfter(s.t[c.v], c.outcome, c.otherwise)], s.streams[c.v := c.outcome.stream];
    forall v | 0 <= v < |s'.t|
      ensures ClockRuns(s'.t[v], s'.streams[v])
    {
      assert ClockRuns(t[v], streams[v]);
      assert s'.streams[v].attempted == streams[v].attempted;
    }
  }

  lemma {:induction false} EveryRunKeepsClocks(c: Config, picks: seq<int>, actions: seq<Action>)
    requires ValidConfig(c) && LegalBegin(c, picks)
    ensures ClocksRun(After(Begin(c, picks), actions))
  {
    if actions == [] {
      BeginKeepsClocks(c, picks);
    } else {
      var earlier := actions[..|actions| - 1];
      EveryRunKeepsInv(c, picks, earlier);
      EveryRunKeepsClocks(c, picks, earlier);
      StepKeepsClocks(After(Begin(c, picks), earlier), actions[|actions| - 1]);
    }
  }

  lemma BeginKeepsClocks(c: Config, picks: seq<int>)
    requires ValidConfig(c) && LegalBegin(c, picks)
    ensures ClocksRun(Begin(c, picks))
  {
    BeginAccounts(c, picks);
  }

  // ---------- Which errors are fatal ----------

  lemma ReachableIsFine(c: Config, s: System)
    requires Reachable(c, s)
    ensures ScanInv(s) && ClocksRun(s) && s.config == c
  {
    var picks, actions :| LegalBegin(c, picks) && s == After(Begin(c, picks), actions);
    EveryRunKeepsInv(c, picks, actions);
    EveryRunKeepsClocks(c, picks, actions);
  }

  lemma ReachableStreams(c: Config, s: System)
    requires Reachable(c, s)
    ensures StreamsAgree(s) && ClocksRun(s) && s.config == c
  {
    ReachableIsFine(c, s);
  }

  lemma RunningAgrees(s: System, v: nat)
    requires StreamsAgree(s) && InPhase(s, v, Continuing)
    ensures s.streams[v].state.Running? && s.streams[v].kind == s.config.kind
  {
    assert StreamAgrees(s.config, v, s.streams[v], s.t[v].phase);
  }

  lemma StartNotice(s: System, v: nat, timedOut: bool, picks: seq<int>)
    requires StreamsAgree(s) && ClocksRun(s) && CallbackOf(s, RunStart(v, timedOut, picks)).Some?
    ensures NoticeOf(s, RunStart(v, timedOut, picks))
         == if timedOut && s.t[v].busies > 0
            then StreamFailed(UnambiguousTimeout, s.config.kind != ScanKind.SamplingScan) else Silent
  {
    assert ClockRuns(s.t[v], s.streams[v]) && StreamAgrees(s.config, v, s.streams[v], s.t[v].phase);
  }

  // The errors that a sampling scan gets over.
  const BENIGN_IN_SAMPLING := {DocumentNotFound, AuthenticationFailure, CollectionNotFound, RequestCanceled}

  lemma BatchNotice(s: System, v: nat, end: BatchEnd, picks: seq<int>)
    requires StreamsAgree(s) && CallbackOf(s, AnswerContinue(v, end, picks)).Some?
    ensures NoticeOf(s, AnswerContinue(v, end, picks))
         == match end
            case BatchError(ec) =>
              StreamFailed(ec, !(s.config.kind == ScanKind.SamplingScan && ec in BENIGN_IN_SAMPLING))
            case BatchComplete => StreamCompleted
            case _ => Silent
  {
    RunningAgrees(s, v);
    BatchOfRunning(s.streams[v], end);
  }

  lemma BatchOfRunning(stream: Stream, end: BatchEnd)
    requires stream.state.Running?
    ensures BatchEnded(stream, end).notice
         == match end
            case BatchError(ec) =>
              StreamFailed(ec, !(stream.kind == ScanKind.SamplingScan && ec in BENIGN_IN_SAMPLING))
            case BatchComplete => StreamCompleted
            case _ => Silent
    ensures BatchEnded(stream, end).task
         == if !end.BatchMore? then NoTask else if stream.shouldCancel then PostCancel else PostContinue
  {
  }

  /** A start fails exactly if it is a retry after a busy answer and too late, and that is fatal
      but in a sampling scan. */
  lemma StartFailsExactlyWhen(c: Config, s: System, v: nat, timedOut: bool, picks: seq<int>)
    requires Reachable(c, s) && CallbackOf(s, RunStart(v, timedOut, picks)).Some?
    ensures NoticeOf(s, RunStart(v, timedOut, picks))
         == if timedOut && s.t[v].busies > 0 then StreamFailed(UnambiguousTimeout, c.kind != ScanKind.SamplingScan)
            else Silent
  {
    ReachableStreams(c, s);
    StartNotice(s, v, timedOut, picks);
  }

  /** An error in answer to a create request is fatal in every scan, but for two: without
      documents the stream is done, and a busy server is asked again. */
  lemma CreateFailsExactlyWhen(s: System, v: nat, ec: ErrorCode, picks: seq<int>)
    requires CallbackOf(s, AnswerCreate(v, Some(ec), picks)).Some?
    ensures NoticeOf(s, AnswerCreate(v, Some(ec), picks))
         == if ec == TemporaryFailure then StartFailedAwaitingRetry else StreamFailed(ec, ec != DocumentNotFound)
  {
  }

  /** An error in answer to a continue request is fatal, but for four errors in a sampling scan. */
  lemma BatchFailsExactlyWhen(c: Config, s: System, v: nat, ec: ErrorCode, picks: seq<int>)
    requires Reachable(c, s) && CallbackOf(s, AnswerContinue(v, BatchError(ec), picks)).Some?
    ensures NoticeOf(s, AnswerContinue(v, BatchError(ec), picks))
         == StreamFailed(ec, !(c.kind == ScanKind.SamplingScan
                               && ec in {DocumentNotFound, AuthenticationFailure, CollectionNotFound, RequestCanceled}))
  {
    ReachableStreams(c, s);
    BatchNotice(s, v, BatchError(ec), picks);
  }

  /** Without an error the answers lead on: to the end of the stream; to the next request, or its
      cancellation if the stream is to cancel; or nowhere, and then the stream keeps its place. */
  lemma BatchLeadsTo(c: Config, s: System, v: nat, end: BatchEnd, picks: seq<int>)
    requires Reachable(c, s) && CallbackOf(s, AnswerContinue(v, end, picks)).Some? && !end.BatchError?
    ensures NoticeOf(s, AnswerContinue(v, end, picks)) == if end.BatchComplete? then StreamCompleted else Silent
    ensures !end.BatchComplete? ==>
              var d := Apply(s, AnswerContinue(v, end, picks));
              && d.m == s.m && v < |d.t| == |s.t|
              && d.t[v].phase == (if end.BatchNeither? then Stalled
                                  else if s.streams[v].shouldCancel then Stopped else ContinuePosted)
  {
    ReachableStreams(c, s);
    BatchNotice(s, v, end, picks);
    if !end.BatchComplete? {
      BatchGoesOn(s, v, end, picks);
    }
  }

  lemma BatchGoesOn(s: System, v: nat, end: BatchEnd, picks: seq<int>)
    requires StreamsAgree(s) && InPhase(s, v, Continuing) && (end.BatchMore? || end.BatchNeither?)
    ensures var d := Apply(s, AnswerContinue(v, end, picks));
            && d.m == s.m && v < |d.t| == |s.t|
            && d.t[v].phase == (if end.BatchNeither? then Stalled
                                else if s.streams[v].shouldCancel then Stopped else ContinuePosted)
  {
    RunningAgrees(s, v);
    BatchOfRunning(s.streams[v], end);
    SilentCallback(s, Callback(v, BatchEnded(s.streams[v], end), Stalled, picks));
  }

  lemma SilentCallback(s: System, c: Callback)
    requires c.v < |s.t| == |s.streams| && NodeKnown(s, c.v) && c.outcome.notice == Silent
    ensures var d := AfterCallback(s, c.v, c.outcome, c.otherwise, c.picks);
            && d.m == s.m && |d.t| == |s.t| && d.t[c.v].phase == PhaseAfter(c.outcome.task, c.otherwise)
            && |d.streams| == |s.streams| && d.streams[c.v] == c.outcome.stream
  {
  }

  /** A stream that is created goes on in the same way. */
  lemma CreateLeadsTo(s: System, v: nat, picks: seq<int>)
    requires CallbackOf(s, AnswerCreate(v, None, picks)).Some?
    ensures NoticeOf(s, AnswerCreate(v, None, picks)) == Silent
    ensures var d := Apply(s, AnswerCreate(v, None, picks));
            && d.m == s.m && v < |d.t| == |d.streams| && d.streams[v].state == Running
            && d.t[v].phase == if s.streams[v].shouldCancel then Stopped else ContinuePosted
  {
    SilentCallback(s, CallbackOf(s, AnswerCreate(v, None, picks)).value);
  }

  // ---------- What a completed scan has behind it ----------

  // This ends the stream without failing the scan.
  ghost predicate EndsWell(kind: ScanKind, action: Action, v: nat) {
    match action
    case AnswerContinue(u, end, _) =>
      u == v && (|| end == BatchComplete
                 || (kind == ScanKind.SamplingScan && end.BatchError?
                     && end.ec in {DocumentNotFound, AuthenticationFailure, CollectionNotFound, RequestCanceled}))
    case AnswerCreate(u, error, _) => u == v && error == Some(DocumentNotFound)
    case RunStart(u, timedOut, _) => u == v && timedOut && kind == ScanKind.SamplingScan
    case _ => false
  }

  ghost predicate EndsStream(n: Notice) {
    n.StreamCompleted? || (n.StreamFailed? && !n.fatal)
  }

  // Only a benign last notice ends a stream of a scan that goes on.
  lemma EndsByNotice(s: System, action: Action, v: nat)
    requires ScanInv(s) && v < |s.t| && !s.t[v].phase.Ended?
    requires v < |Apply(s, action).t| && Apply(s, action).t[v].phase.Ended? && !Apply(s, action).m.cancelled
    ensures CallbackOf(s, action).Some? && CallbackOf(s, action).value.v == v && EndsStream(NoticeOf(s, action))
  {
    if CallbackOf(s, action).Some? {
      CallbackIsPossible(s, action);
      CallbackStep(s, action);
      EffectEndsByNotice(s, Apply(s, action), CallbackOf(s, action).value, v);
    }
  }

  lemma EffectEndsByNotice(s: System, d: System, c: Callback, v: nat)
    requires c.v < |s.t| == |s.streams| && (d == s || Effect(s, d, c.v, c.outcome, c.otherwise)) && !d.m.cancelled
    requires IsHeld(c.otherwise) && v < |s.t| && !s.t[v].phase.Ended? && v < |d.t| && d.t[v].phase.Ended?
    ensures c.v == v && EndsStream(c.outcome.notice)
  {
  }

  lemma NoticeEndsWell(s: System, action: Action)
    requires StreamsAgree(s) && ClocksRun(s) && CallbackOf(s, action).Some? && EndsStream(NoticeOf(s, action))
    ensures EndsWell(s.config.kind, action, CallbackOf(s, action).value.v)
  {
    match action
    case RunStart(u, timedOut, picks) => StartNotice(s, u, timedOut, picks);
    case AnswerCreate(u, error, picks) =>
      if error.Some? {
        CreateFailsExactlyWhen(s, u, error.value, picks);
      } else {
        CreateLeadsTo(s, u, picks);
      }
    case AnswerContinue(u, end, picks) => BatchNotice(s, u, end, picks);
    case _ =>
  }

  ghost predicate Fine(s: System) {
    ScanInv(s) && ClocksRun(s)
  }

  lemma StepIsFine(s: System, action: Action)
    requires Fine(s)
    ensures Fine(Apply(s, action)) && Apply(s, action).config == s.config && |Apply(s, action).t| == |s.t|
    ensures s.m.cancelled ==> Apply(s, action).m.cancelled
  {
    StepKeepsInv(s, action);
    StepKeepsClocks(s, action);
    StepGrows(s, action);
  }

  lemma {:induction false} RunIsFine(s: System, actions: seq<Action>)
    requires Fine(s)
    ensures var d := After(s, actions);
            Fine(d) && d.config == s.config && |d.t| == |s.t| && (s.m.cancelled ==> d.m.cancelled)
  {
    if actions != [] {
      RunIsFine(s, actions[..|actions| - 1]);
      StepIsFine(After(s, actions[..|actions| - 1]), actions[|actions| - 1]);
    }
  }

  ghost predicate HasEndedWell(kind: ScanKind, actions: seq<Action>, v: nat) {
    exists i :: 0 <= i < |actions| && EndsWell(kind, actions[i], v)
  }

  lemma EndedWellBefore(kind: ScanKind, actions: seq<Action>, v: nat)
    requires actions != [] && HasEndedWell(kind, actions[..|actions| - 1], v)
    ensures HasEndedWell(kind, actions, v)
  {
    var i :| 0 <= i < |actions| - 1 && EndsWell(kind, actions[..|actions| - 1][i], v);
    assert EndsWell(kind, actions[i], v);
  }

  /** In a scan that goes on, whatever has ended has ended well. */
  lemma {:induction false} EndedWell(s: System, actions: seq<Action>, v: nat)
    requires Fine(s) && v < |s.t| && !s.t[v].phase.Ended? && !After(s, actions).m.cancelled
    requires v < |After(s, actions).t| && After(s, actions).t[v].phase.Ended?
    ensures HasEndedWell(s.config.kind, actions, v)
  {
    if actions != [] {
      var n := |actions| - 1;
      var before := After(s, actions[..n]);
      RunIsFine(s, actions[..n]);
      StepIsFine(before, actions[n]);
      if before.t[v].phase.Ended? {
        EndedWell(s, actions[..n], v);
        EndedWellBefore(s.config.kind, actions, v);
      } else {
        EndsByNotice(before, actions[n], v);
        NoticeEndsWell(before, actions[n]);
        assert EndsWell(s.config.kind, actions[n], v);
      }
    }
  }

  // The action does not fail the scan.
  ghost predicate GoesOn(s: System, action: Action) {
    CallbackOf(s, action).Some? ==> !Fatal(NoticeOf(s, action))
  }

  lemma FatalCancels(s: System, action: Action)
    requires ScanInv(s) && !Apply(s, action).m.cancelled
    ensures GoesOn(s, action)
  {
    StepGrows(s, action);
    if CallbackOf(s, action).Some? && Fatal(NoticeOf(s, action)) {
      FatalStepSends(s, action);
    }
  }

  lemma {:induction false} AfterBoth(s: System, first: seq<Action>, second: seq<Action>)
    ensures After(s, first + second) == After(After(s, first), second)
  {
    if second == [] {
      assert first + second == first;
    } else {
      var n := |second| - 1;
      AfterBoth(s, first, second[..n]);
      assert (first + second)[..|first + second| - 1] == first + second[..n];
    }
  }

  lemma NotCancelledAfterFirst(s: System, first: seq<Action>, second: seq<Action>)
    requires Fine(s) && !After(s, first + second).m.cancelled
    ensures Fine(After(s, first)) && !After(s, first).m.cancelled
  {
    var between := After(s, first);
    RunIsFine(s, first);
    RunIsFine(between, second);
    AfterBoth(s, first, second);
  }

  lemma NotCancelledBefore(s: System, actions: seq<Action>, i: nat)
    requires Fine(s) && i <= |actions| && !After(s, actions).m.cancelled
    ensures Fine(After(s, actions[..i])) && !After(s, actions[..i]).m.cancelled
  {
    var first, second := actions[..i], actions[i..];
    assert first + second == actions;
    NotCancelledAfterFirst(s, first, second);
  }

  // No step of a scan that goes on has failed it.
  lemma NothingFatalBefore(s: System, actions: seq<Action>, i: nat)
    requires Fine(s) && i < |actions| && !After(s, actions).m.cancelled
    ensures GoesOn(After(s, actions[..i]), actions[i])
  {
    var before, now := actions[..i], actions[..i + 1];
    NotCancelledBefore(s, actions, i);
    NotCancelledBefore(s, actions, i + 1);
    assert now[..i] == before && now[i] == actions[i];
    FatalCancels(After(s, before), actions[i]);
  }

  lemma NoBatchErrorBefore(s: System, actions: seq<Action>, i: nat)
    requires Fine(s) && i < |actions| && !After(s, actions).m.cancelled && s.config.kind != ScanKind.SamplingScan
    requires actions[i].AnswerContinue? && actions[i].end.BatchError?
    ensures CallbackOf(After(s, actions[..i]), actions[i]).None?
  {
    var before := After(s, actions[..i]);
    NothingFatalBefore(s, actions, i);
    RunIsFine(s, actions[..i]);
    if CallbackOf(before, actions[i]).Some? {
      BatchNotice(before, actions[i].v, actions[i].end, actions[i].picks);
      assert false;
    }
  }

  lemma BeginIsFine(c: Config, picks: seq<int>)
    requires ValidConfig(c) && LegalBegin(c, picks)
    ensures var s := Begin(c, picks);
            && Fine(s) && s.config == c && |s.t| == |c.activeNodes|
            && forall v :: 0 <= v < |s.t| ==> !s.t[v].phase.Ended?
  {
    BeginAccounts(c, picks);
    BeginHasInv(c, picks);
    BeginKeepsClocks(c, picks);
  }

  lemma AllEndedWhenTold(s: System, v: nat)
    requires ScanInv(s) && TellsTruth(s) && !s.m.cancelled && GotCompleted in s.m.box.answers && v < |s.t|
    ensures s.t[v].phase.Ended?
  {
    EndedWhenDeregistered(s.m.box, s.t, s.m.cancelled, v);
  }

  ghost predicate ReadToTheEnd(action: Action, v: nat) {
    || (action.AnswerContinue? && action.v == v && action.end == BatchComplete)
    || (action.AnswerCreate? && action.v == v && action.error == Some(DocumentNotFound))
  }

  ghost predicate WasRead(actions: seq<Action>, v: nat) {
    exists i :: 0 <= i < |actions| && ReadToTheEnd(actions[i], v)
  }

  // The server's answer to a continue request was an error, and the stream was told.
  ghost predicate BatchErrorAt(s: System, actions: seq<Action>, i: nat)
    requires i < |actions|
  {
    actions[i].AnswerContinue? && actions[i].end.BatchError? && CallbackOf(After(s, actions[..i]), actions[i]).Some?
  }

  /** If the consumer of a range or prefix scan is told that the scan is complete, and nobody has
      cancelled it, then every vbucket was read to its end or had no documents, and no continue
      request of any stream was ever answered with an error. */
  lemma CompletedMeansAllRead(c: Config, picks: seq<int>, actions: seq<Action>)
    requires ValidConfig(c) && LegalBegin(c, picks) && c.kind != ScanKind.SamplingScan
    requires var s := After(Begin(c, picks), actions); !s.m.cancelled && GotCompleted in s.m.box.answers
    ensures forall v :: 0 <= v < |c.activeNodes| ==> WasRead(actions, v)
    ensures forall i :: 0 <= i < |actions| ==> !BatchErrorAt(Begin(c, picks), actions, i)
  {
    forall v | 0 <= v < |c.activeNodes|
      ensures WasRead(actions, v)
    {
      VbucketIsRead(c, picks, actions, v);
    }
    BeginIsFine(c, picks);
    NoBatchErrors(Begin(c, picks), actions);
  }

  lemma NoBatchErrors(s: System, actions: seq<Action>)
    requires Fine(s) && !After(s, actions).m.cancelled && s.config.kind != ScanKind.SamplingScan
    ensures forall i :: 0 <= i < |actions| ==> !BatchErrorAt(s, actions, i)
  {
    forall i | 0 <= i < |actions|
      ensures !BatchErrorAt(s, actions, i)
    {
      if actions[i].AnswerContinue? && actions[i].end.BatchError? {
        NoBatchErrorBefore(s, actions, i);
      }
    }
  }

  lemma VbucketIsRead(c: Config, picks: seq<int>, actions: seq<Action>, v: nat)
    requires ValidConfig(c) && LegalBegin(c, picks) && c.kind != ScanKind.SamplingScan && v < |c.activeNodes|
    requires var s := After(Begin(c, picks), actions); !s.m.cancelled && GotCompleted in s.m.box.answers
    ensures WasRead(actions, v)
  {
    var begin := Begin(c, picks);
    BeginIsFine(c, picks);
    RunIsFine(begin, actions);
    RunTellsTruth(c, picks, actions);
    AllEndedWhenTold(After(begin, actions), v);
    EndedWell(begin, actions, v);
    var i :| 0 <= i < |actions| && EndsWell(c.kind, actions[i], v);
    assert ReadToTheEnd(actions[i], v);
  }

  // ---------- What a stream has seen ----------

  // The key of the last item of this vbucket, if there was one.
  ghost function LastKey(items: seq<(nat, ScanItem)>, v: nat): string {
    if items == [] then ""
    else
      var last := items[|items| - 1];
      if last.0 == v then last.1.key else LastKey(items[..|items| - 1], v)
  }

  lemma StepSeesItem(s: System, action: Action, v: nat)
    requires ScanInv(s) && v < |s.streams|
    ensures v < |Apply(s, action).streams|
    ensures Apply(s, action).streams[v].lastSeenKey
         == if ItemTaken(s, action) != [] && action.v == v then action.item.key else s.streams[v].lastSeenKey
  {
    if CallbackOf(s, action).Some? {
      CallbackStep(s, action);
      if action.DeliverItem? {
        ItemHasEffect(s, action);
      }
      CallbackSeesItem(s, action);
      EffectKeepsKeys(s, Apply(s, action), CallbackOf(s, action).value, v);
    } else {
      ConsumerKeepsKeys(s, action, v);
    }
  }

  lemma ConsumerKeepsKeys(s: System, action: Action, v: nat)
    requires CallbackOf(s, action).None? && v < |s.streams|
    ensures |Apply(s, action).streams| == |s.streams| && ItemTaken(s, action) == []
    ensures Apply(s, action).streams[v].lastSeenKey == s.streams[v].lastSeenKey
  {
  }

  lemma EffectKeepsKeys(s: System, d: System, c: Callback, v: nat)
    requires c.v < |s.t| == |s.streams| && v < |s.streams|
    requires Effect(s, d, c.v, c.outcome, c.otherwise)
             || (d == s && c.outcome.stream.lastSeenKey == s.streams[c.v].lastSeenKey)
    ensures |d.streams| == |s.streams|
    ensures d.streams[v].lastSeenKey == if v == c.v then c.outcome.stream.lastSeenKey else s.streams[v].lastSeenKey
  {
  }

  lemma CallbackSeesItem(s: System, action: Action)
    requires CallbackOf(s, action).Some?
    ensures var c := CallbackOf(s, action).value;
            && c.v < |s.streams|
            && c.outcome.stream.lastSeenKey
               == if ItemTaken(s, action) != [] then action.item.key else s.streams[c.v].lastSeenKey
    ensures ItemTaken(s, action) != [] ==> CallbackOf(s, action).value.v == action.v
  {
  }

  lemma OneMoreKey(items: seq<(nat, ScanItem)>, more: seq<(nat, ScanItem)>, v: nat)
    requires |more| <= 1
    ensures LastKey(items + more, v) == if more != [] && more[0].0 == v then more[0].1.key else LastKey(items, v)
  {
    if more == [] {
      assert items + more == items;
    } else {
      assert (items + more)[..|items|] == items;
    }
  }

  /** In any run, cancelled or not, a stream remembers the key of the last item that it took. */
  lemma {:induction false} LastSeenIsLastTaken(s: System, actions: seq<Action>, v: nat)
    requires Fine(s) && v < |s.streams| && s.streams[v].lastSeenKey == ""
    ensures v < |After(s, actions).streams|
    ensures After(s, actions).streams[v].lastSeenKey == LastKey(Received(s, actions), v)
  {
    if actions != [] {
      var earlier, last := actions[..|actions| - 1], actions[|actions| - 1];
      LastSeenIsLastTaken(s, earlier, v);
      RunIsFine(s, earlier);
      StepSeesItem(After(s, earlier), last, v);
      OneMoreKey(Received(s, earlier), ItemTaken(After(s, earlier), last), v);
    }
  }

  /** A range scan that is started again begins behind the last key it has seen, and no other
      scan does. */
  lemma StartsBehindLastKey(stream: Stream, timedOut: bool)
    requires Start(stream, timedOut).task == SendCreate
    ensures Start(stream, timedOut).stream.from
         == if stream.kind == ScanKind.RangeScan && stream.lastSeenKey != "" then Some(stream.lastSeenKey)
            else stream.from
  {
  }
}
