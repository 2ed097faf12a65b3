/**
 The calls of next() that already wait when a scan is cancelled. cancel() flags the streams
 and leaves the channel open, so such a call is answered only if a stream still ends, or if
 next() runs once more.
 */
module RangeScanCancel {
  import opened Wrappers
  import opened RangeScanStream
  import opened RangeScanOrchestrator
  import opened RangeScanPlaces
  import opened RangeScanMail
  import opened RangeScanRuns
  import opened RangeScanSteps
  import opened RangeScanTheorems
  import opened RangeScanResults

  // ---------- Every stream of a cancelled scan is flagged ----------

  ghost predicate Flagged(s: System) {
    |s.t| == |s.streams| &&
    (s.m.cancelled ==> forall v :: 0 <= v < |s.t| && IsHeld(s.t[v].phase) ==> s.streams[v].shouldCancel)
  }

  lemma HeldAreRegistered(s: System, v: nat)
    requires ScanInv(s) && v < |s.t| && IsHeld(s.t[v].phase)
    ensures v in s.m.box.registered
  {
    if v !in s.m.box.registered {
      EndedWhenDeregistered(s.m.box, s.t, s.m.cancelled, v);
    }
  }

  // The choices of start_streams that a callback needs are legal: none, in a cancelled scan.
  ghost predicate StartsNone(c: Callback) {
    match c.outcome.notice
    case StreamCompleted => c.picks == []
    case StreamFailed(ec, fatal) => fatal || c.picks == []
    case StartFailedAwaitingRetry => c.picks == []
    case _ => true
  }

  lemma CancelledCallback(s: System, action: Action)
    requires ScanInv(s) && s.m.cancelled && CallbackOf(s, action).Some?
    ensures var s', c := Apply(s, action), CallbackOf(s, action).value;
            && c.v < |s.t| == |s.streams|
            && if StartsNone(c) then
                 && s'.t == s.t[c.v := TrackAfter(s.t[c.v], c.outcome, c.otherwise)]
                 && s'.m.box == Sent(s.m.box, MessageOf(c.v, c.outcome.notice))
               else s' == s
  {
    CallbackIsPossible(s, action);
    CancelledEffect(s, CallbackOf(s, action).value);
  }

  lemma CancelledEffect(s: System, c: Callback)
    requires s.m.cancelled && c.v < |s.t| == |s.streams| && NodeKnown(s, c.v)
    ensures var s' := AfterCallback(s, c.v, c.outcome, c.otherwise, c.picks);
            if StartsNone(c) then
              && s'.t == s.t[c.v := TrackAfter(s.t[c.v], c.outcome, c.otherwise)]
              && s'.m.box == Sent(s.m.box, MessageOf(c.v, c.outcome.notice))
            else s' == s
  {
    var s' := s.(streams := s.streams[c.v := c.outcome.stream]);
    match c.outcome.notice
    case StreamCompleted => CancelledComplete(s', c.v, c.picks);
    case StreamFailed(ec, fatal) => if !fatal { CancelledComplete(s', c.v, c.picks); }
    case StartFailedAwaitingRetry => CancelledRequeue(s', c.v, c.picks);
    case _ => assert s.t[c.v := s.t[c.v]] == s.t;
  }

  lemma CancelledComplete(s: System, v: nat, picks: seq<int>)
    requires s.m.cancelled && v < |s.t| && NodeKnown(s, v)
    ensures var s' := Complete(s, v, picks);
            if picks == [] then
              && s'.Some? && s'.value.t == s.t[v := s.t[v].Retired()]
              && s'.value.m.box == Send(s.m.box, EndSignal(v, None))
            else s'.None?
  {
  }

  lemma CancelledRequeue(s: System, v: nat, picks: seq<int>)
    requires s.m.cancelled && v < |s.t| && NodeKnown(s, v)
    ensures var s' := Requeue(s, v, picks);
            if picks == [] then s'.Some? && s'.value.t == s.t[v := s.t[v].Requeued()] && s'.value.m.box == s.m.box
            else s'.None?
  {
  }

  lemma CallbackKeepsFlagged(s: System, action: Action)
    requires ScanInv(s) && Flagged(s) && CallbackOf(s, action).Some?
    ensures Flagged(Apply(s, action))
  {
    var s', c := Apply(s, action), CallbackOf(s, action).value;
    CallbackIsPossible(s, action);
    CallbackStep(s, action);
    if s' != s {
      OutcomeFits(s.config, c.v, s.t[c.v], s.streams[c.v], c.outcome, c.otherwise);
      if s.m.cancelled {
        CancelledCallback(s, action);
      } else if Fatal(c.outcome.notice) {
        StepKeepsInv(s, action);
        forall v | 0 <= v < |s'.t| && IsHeld(s'.t[v].phase)
          ensures s'.streams[v].shouldCancel
        {
          HeldAreRegistered(s', v);
        }
      }
    }
  }

  lemma StepKeepsFlagged(s: System, action: Action)
    requires ScanInv(s) && Flagged(s)
    ensures Flagged(Apply(s, action))
  {
    if CallbackOf(s, action).Some? {
      CallbackKeepsFlagged(s, action);
    } else {
      forall v | 0 <= v < |s.t| && IsHeld(s.t[v].phase)
        ensures v in s.m.box.registered
      {
        HeldAreRegistered(s, v);
      }
    }
  }

  lemma {:induction false} EveryRunIsFlagged(c: Config, picks: seq<int>, actions: seq<Action>)
    requires ValidConfig(c) && LegalBegin(c, picks)
    ensures Flagged(After(Begin(c, picks), actions))
  {
    EveryRunKeepsInv(c, picks, []);
    if actions != [] {
      var earlier := actions[..|actions| - 1];
      EveryRunKeepsInv(c, picks, earlier);
      EveryRunIsFlagged(c, picks, earlier);
      StepKeepsFlagged(After(Begin(c, picks), earlier), actions[|actions| - 1]);
    }
  }

  lemma ReachableIsFlagged(c: Config, s: System)
    requires Reachable(c, s)
    ensures Flagged(s)
  {
    var picks, actions :| LegalBegin(c, picks) && s == After(Begin(c, picks), actions);
    EveryRunIsFlagged(c, picks, actions);
  }

  // ---------- When a waiting call hears something ----------

  // The last notice of a stream that ends.
  ghost predicate Ends(n: Notice) {
    n.StreamCompleted? || n.StreamFailed?
  }

  // What reaches the calls that wait: the end of a stream, for the oldest of them; and a next()
  // below the limit, or the continuation of one, for all.
  ghost predicate Wakes(s: System, action: Action) {
    match action
    case CallNext => s.m.limit > 0
    case RunReposted => s.m.box.reposted > 0
    case CancelScan => false
    case _ =>
      CallbackOf(s, action).Some? &&
      Ends(CallbackOf(s, action).value.outcome.notice) && StartsNone(CallbackOf(s, action).value)
  }

  lemma CancelledCallbackWakes(s: System, action: Action)
    requires ScanInv(s) && Flagged(s) && s.m.cancelled && CallbackOf(s, action).Some?
    ensures Apply(s, action).m.box.receivers
         == if Wakes(s, action) && s.m.box.receivers > 0 then s.m.box.receivers - 1 else s.m.box.receivers
  {
    CallbackIsPossible(s, action);
    CancelledCallback(s, action);
  }

  lemma StepWakesExactlyWhen(s: System, action: Action)
    requires ScanInv(s) && Flagged(s) && s.m.cancelled
    ensures Apply(s, action).m.box.receivers <= s.m.box.receivers && Apply(s, action).m.cancelled
    ensures s.m.box.receivers > 0 ==>
              (Apply(s, action).m.box.receivers == s.m.box.receivers <==> !Wakes(s, action))
  {
    StepGrows(s, action);
    if CallbackOf(s, action).Some? {
      CancelledCallbackWakes(s, action);
    }
  }

  lemma {:induction false} CancelledRun(s: System, more: seq<Action>)
    requires ScanInv(s) && Flagged(s) && s.m.cancelled
    ensures var d := After(s, more);
            ScanInv(d) && Flagged(d) && d.m.cancelled && d.m.box.receivers <= s.m.box.receivers
  {
    if more != [] {
      var earlier := more[..|more| - 1];
      CancelledRun(s, earlier);
      StepKeepsInv(After(s, earlier), more[|more| - 1]);
      StepKeepsFlagged(After(s, earlier), more[|more| - 1]);
      StepWakesExactlyWhen(After(s, earlier), more[|more| - 1]);
    }
  }

  // Nothing in the run reaches the calls that wait.
  ghost predicate WakesNobody(s: System, more: seq<Action>) {
    more == [] || (WakesNobody(s, more[..|more| - 1]) && !Wakes(After(s, more[..|more| - 1]), more[|more| - 1]))
  }

  /** The calls that wait when a scan is cancelled go on waiting exactly as long as no stream
      ends and next() is neither called below the limit nor continued. */
  lemma {:induction false} WaitsExactlyWhile(c: Config, s: System, more: seq<Action>)
    requires Reachable(c, s) && s.m.cancelled && s.m.box.receivers > 0
    ensures After(s, more).m.box.receivers == s.m.box.receivers <==> WakesNobody(s, more)
  {
    ReachableHasInv(c, s);
    ReachableIsFlagged(c, s);
    if more != [] {
      var earlier := more[..|more| - 1];
      WaitsExactlyWhile(c, s, earlier);
      CancelledRun(s, earlier);
      StepWakesExactlyWhen(After(s, earlier), more[|more| - 1]);
    }
  }

  /** How they are answered: the oldest with the error of the stream that ends, or by the
      continuation that its end signal posts; all of them, by a next() or a continuation, with
      the abort of the channel. */
  lemma WokenCallsAreAnswered(c: Config, s: System, action: Action)
    requires Reachable(c, s) && s.m.cancelled && s.m.box.receivers > 0 && Wakes(s, action)
    ensures var b, d := s.m.box, Apply(s, action).m.box;
            if action.CallNext? || action.RunReposted? then
              d.receivers == 0 && d.answers == b.answers + seq(b.receivers, _ => GotChannelCancelled) + [GotCompleted]
            else
              && d.receivers == b.receivers - 1
              && ((exists ec :: d.answers == b.answers + [GotError(ec)]) || d.reposted == b.reposted + 1)
  {
    ReachableHasInv(c, s);
    ReachableIsFlagged(c, s);
    if CallbackOf(s, action).Some? {
      EndIsConsumed(s, action);
    }
  }

  lemma EndIsConsumed(s: System, action: Action)
    requires ScanInv(s) && s.m.cancelled && s.m.box.receivers > 0
    requires CallbackOf(s, action).Some? && Wakes(s, action)
    ensures var b, d := s.m.box, Apply(s, action).m.box;
            && d.receivers == b.receivers - 1
            && ((exists ec :: d.answers == b.answers + [GotError(ec)]) || d.reposted == b.reposted + 1)
  {
    CancelledCallback(s, action);
    var c := CallbackOf(s, action).value;
    if Fatal(c.outcome.notice) {
      assert Apply(s, action).m.box.answers == s.m.box.answers + [GotError(c.outcome.notice.ec)];
    }
  }

  // ---------- Calls that wait for good ----------

  // No stream has anything outstanding, and no continuation of next() is posted.
  ghost predicate Quiet(s: System) {
    && s.m.box.reposted == 0
    && forall v :: 0 <= v < |s.t| ==> s.t[v].phase in {Queued, Stalled, Stopped, Ended}
  }

  lemma QuietStep(s: System, action: Action)
    requires ScanInv(s) && s.m.cancelled && Quiet(s) && !(action.CallNext? && s.m.limit > 0)
    ensures Quiet(Apply(s, action)) && !Wakes(s, action) && Apply(s, action).m.limit == s.m.limit
  {
    assert CallbackOf(s, action).None?;
  }

  ghost predicate CallsNext(more: seq<Action>) {
    exists i :: 0 <= i < |more| && more[i].CallNext?
  }

  // As many wait as did, and it is as quiet; or somebody has called next().
  ghost predicate StillQuiet(s: System, d: System, called: bool) {
    if s.m.limit == 0 || !called
    then d.m.box.receivers == s.m.box.receivers && Quiet(d) && d.m.limit == s.m.limit
    else d.m.box.receivers < s.m.box.receivers
  }

  lemma QuietGoesOn(s: System, d: System, called: bool, action: Action)
    requires ScanInv(d) && Flagged(d) && d.m.cancelled && s.m.box.receivers > 0 && StillQuiet(s, d, called)
    ensures StillQuiet(s, Apply(d, action), called || action.CallNext?)
  {
    StepWakesExactlyWhen(d, action);
    if s.m.limit == 0 || !(called || action.CallNext?) {
      QuietStep(d, action);
    }
  }

  lemma OneMoreAction(more: seq<Action>)
    requires more != []
    ensures CallsNext(more) <==> CallsNext(more[..|more| - 1]) || more[|more| - 1].CallNext?
  {
    var earlier := more[..|more| - 1];
    if i :| 0 <= i < |earlier| && earlier[i].CallNext? {
      assert more[i].CallNext?;
    }
  }

  lemma {:induction false} QuietRun(s: System, more: seq<Action>)
    requires ScanInv(s) && Flagged(s) && s.m.cancelled && Quiet(s) && s.m.box.receivers > 0
    ensures StillQuiet(s, After(s, more), CallsNext(more))
  {
    if more != [] {
      var earlier := more[..|more| - 1];
      QuietRun(s, earlier);
      CancelledRun(s, earlier);
      OneMoreAction(more);
      QuietGoesOn(s, After(s, earlier), CallsNext(earlier), more[|more| - 1]);
    }
  }

  /** Once no stream has anything outstanding, the calls that wait in a cancelled scan wait for
      good, unless the consumer calls next() again and is below its limit. */
  lemma WaitsForGoodExactlyWhen(c: Config, s: System, more: seq<Action>)
    requires Reachable(c, s) && s.m.cancelled && s.m.box.receivers > 0 && Quiet(s)
    ensures After(s, more).m.box.receivers == s.m.box.receivers <==> s.m.limit == 0 || !CallsNext(more)
  {
    ReachableHasInv(c, s);
    ReachableIsFlagged(c, s);
    QuietRun(s, more);
  }

  /** It comes to that: a call waits, the scan is cancelled, and the one stream it has is created
      only then. */
  lemma CallCanWaitForGood(node: int, limit: nat) returns (s: System)
    requires limit > 0
    ensures s == After(Begin(OneVbucket(node, limit), [node]),
                       [RunStart(0, false, []), CallNext, CancelScan, AnswerCreate(0, None, [])])
    ensures Reachable(OneVbucket(node, limit), s)
    ensures s.m.cancelled && s.m.box.receivers == 1 && Quiet(s) && s.m.limit == limit - 1
  {
    SingleBegins(node, limit);
    SingleRun(node, limit);
    s := Apply(SingleCancelled(node, limit), AnswerCreate(0, None, []));
    CreatedTooLate(node, limit);
  }

  lemma SingleRun(node: int, limit: nat)
    requires limit > 0
    ensures After(Begin(OneVbucket(node, limit), [node]),
                  [RunStart(0, false, []), CallNext, CancelScan, AnswerCreate(0, None, [])])
         == Apply(SingleCancelled(node, limit), AnswerCreate(0, None, []))
  {
    SingleStarts(node, limit);
    SingleIsCancelled(node, limit);
    AfterThreeMore(Begin(OneVbucket(node, limit), [node]), RunStart(0, false, []), CallNext, CancelScan,
                   AnswerCreate(0, None, []));
  }

  // The one call waits, and the scan is cancelled while its stream is being created.
  ghost function SingleCancelled(node: int, limit: nat): System
    requires limit > 0
  {
    var s := Single(node, limit, Creating);
    s.(m := s.m.(box := s.m.box.(receivers := 1), limit := limit - 1, cancelled := true),
       streams := [s.streams[0].(shouldCancel := true)], calls := 1)
  }

  lemma SingleIsCancelled(node: int, limit: nat)
    requires limit > 0
    ensures Apply(Apply(Single(node, limit, Creating), CallNext), CancelScan) == SingleCancelled(node, limit)
  {
    var called := Apply(Single(node, limit, Creating), CallNext);
    assert FlagStreams(called.streams, {0}) == [called.streams[0].(shouldCancel := true)];
  }

  lemma CreatedTooLate(node: int, limit: nat)
    requires limit > 0
    ensures var s := Apply(SingleCancelled(node, limit), AnswerCreate(0, None, []));
            s.m == SingleCancelled(node, limit).m && s.t == [Track(Stopped, 1, 0, 0)]
  {
  }

  lemma AfterThreeMore(s: System, a: Action, b: Action, c: Action, d: Action)
    ensures After(s, [a, b, c, d]) == Apply(Apply(Apply(After(s, [a]), b), c), d)
  {
    AfterOneMore(s, [a], b);
    AfterOneMore(s, [a, b], c);
    assert [a] + [b] == [a, b] && [a, b] + [c] == [a, b, c] && [a, b, c] + [d] == [a, b, c, d];
    AfterOneMore(s, [a, b, c], d);
  }

  lemma AfterOneMore(s: System, actions: seq<Action>, action: Action)
    ensures After(s, actions + [action]) == Apply(After(s, actions), action)
  {
    assert (actions + [action])[..|actions|] == actions;
  }
}
