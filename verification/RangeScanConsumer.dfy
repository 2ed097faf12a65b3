/**
 What the consumer's calls do to a scan: how they count against its limit, and what is left
 in the channel once they have closed it.
 */
module RangeScanConsumer {
  import opened Wrappers
  import opened RangeScanOrchestrator
  import opened RangeScanMail
  import opened RangeScanRuns
  import opened RangeScanSteps
  import opened RangeScanTheorems
  import opened RangeScanResults

  // ---------- The limit ----------

  ghost predicate CallsAreCounted(s: System) {
    s.m.limit == if s.calls < s.config.limit then s.config.limit - s.calls else 0
  }

  lemma StepCountsCalls(s: System, action: Action)
    requires ScanInv(s) && CallsAreCounted(s)
    ensures CallsAreCounted(Apply(s, action))
  {
    StepKeepsInv(s, action);
    if CallbackOf(s, action).Some? {
      CallbackStep(s, action);
    }
  }

  // What is left in a closed channel is what was not read, up to the size of its buffer.
  ghost predicate HoldsUnread(b: Mailbox) {
    b.closed ==>
      && b.receivers == 0 && |b.consumed| <= |b.log|
      && b.channel == (if |b.log| - |b.consumed| <= 1024 then b.log[|b.consumed|..]
                       else b.log[|b.consumed|..|b.consumed| + 1024])
  }

  lemma SendHoldsUnread(b: Mailbox, message: Message)
    requires HoldsUnread(b)
    ensures HoldsUnread(Send(b, message))
    ensures b.closed ==> Send(b, message) == b
  {
  }

  lemma NextItemHoldsUnread(b: Mailbox, cancelled: bool)
    requires InOrder(b) && HoldsUnread(b) && (b.closed ==> cancelled || b.registered == {})
    ensures HoldsUnread(NextItem(b, cancelled))
    ensures b.closed ==>
              var d := NextItem(b, cancelled);
              d.closed && d.log == b.log && d.consumed == b.consumed && d.answers == b.answers + [GotCompleted]
  {
    if b.registered == {} || cancelled {
      assert !b.closed ==> b.channel == b.log[|b.consumed|..];
      assert seq(0, _ => GotChannelCancelled) == [];
    }
  }

  lemma StepHoldsUnread(s: System, action: Action)
    requires ScanInv(s) && HoldsUnread(s.m.box)
    ensures HoldsUnread(Apply(s, action).m.box)
    ensures s.m.box.closed ==>
              && Apply(s, action).m.box.closed && Apply(s, action).m.box.consumed == s.m.box.consumed
              && Apply(s, action).m.box.log == s.m.box.log
  {
    if CallbackOf(s, action).Some? {
      CallbackStep(s, action);
      var c := CallbackOf(s, action).value;
      SentHoldsUnread(s.m.box, MessageOf(c.v, c.outcome.notice));
    } else {
      ConsumerHoldsUnread(s, action);
    }
  }

  lemma ConsumerHoldsUnread(s: System, action: Action)
    requires CallbackOf(s, action).None? && InOrder(s.m.box) && HoldsUnread(s.m.box)
    requires s.m.box.closed ==> s.m.cancelled || s.m.box.registered == {}
    ensures HoldsUnread(Apply(s, action).m.box)
    ensures s.m.box.closed ==>
              && Apply(s, action).m.box.closed && Apply(s, action).m.box.consumed == s.m.box.consumed
              && Apply(s, action).m.box.log == s.m.box.log
  {
    CallHoldsUnread(s.m, s.m.box);
    if s.m.box.reposted > 0 {
      CallHoldsUnread(s.m, s.m.box.(reposted := s.m.box.reposted - 1));
    }
  }

  lemma SentHoldsUnread(b: Mailbox, message: Option<Message>)
    requires HoldsUnread(b)
    ensures HoldsUnread(Sent(b, message)) && (b.closed ==> Sent(b, message) == b)
  {
    if message.Some? {
      SendHoldsUnread(b, message.value);
    }
  }

  lemma CallHoldsUnread(m: Manager, b: Mailbox)
    requires InOrder(b) && HoldsUnread(b) && (b.closed ==> m.cancelled || b.registered == {})
    ensures HoldsUnread(NextItem(b, m.cancelled)) && HoldsUnread(b.(answers := b.answers + [GotCompleted]))
    ensures b.closed ==>
              && NextItem(b, m.cancelled).closed && NextItem(b, m.cancelled).consumed == b.consumed
              && NextItem(b, m.cancelled).log == b.log
  {
    NextItemHoldsUnread(b, m.cancelled);
  }

  lemma {:induction false} EveryRunCounts(c: Config, picks: seq<int>, actions: seq<Action>)
    requires ValidConfig(c) && LegalBegin(c, picks)
    ensures CallsAreCounted(After(Begin(c, picks), actions)) && HoldsUnread(After(Begin(c, picks), actions).m.box)
  {
    if actions != [] {
      var earlier := actions[..|actions| - 1];
      EveryRunCounts(c, picks, earlier);
      EveryRunKeepsInv(c, picks, earlier);
      StepCountsCalls(After(Begin(c, picks), earlier), actions[|actions| - 1]);
      StepHoldsUnread(After(Begin(c, picks), earlier), actions[|actions| - 1]);
    }
  }

  lemma ReachableCounts(c: Config, s: System)
    requires Reachable(c, s)
    ensures CallsAreCounted(s) && HoldsUnread(s.m.box) && s.config == c
  {
    var picks, actions :| LegalBegin(c, picks) && s == After(Begin(c, picks), actions);
    EveryRunCounts(c, picks, actions);
    EveryRunKeepsInv(c, picks, actions);
  }

  /** A call is answered as completed and cancels the scan, with every stream that is still
      registered, if as many calls as the limit came before it; and no other call cancels it. */
  lemma CallCancelsExactlyBeyondLimit(c: Config, s: System)
    requires Reachable(c, s)
    ensures var d := Apply(s, CallNext);
            && d.calls == s.calls + 1
            && (s.calls < c.limit ==> d.m.cancelled == s.m.cancelled && d.streams == s.streams)
            && (s.calls >= c.limit ==>
                  && d.m.cancelled && d.m.box == s.m.box.(answers := s.m.box.answers + [GotCompleted])
                  && |d.streams| == |s.streams|
                  && forall v :: 0 <= v < |s.streams| && v in s.m.box.registered ==> d.streams[v].shouldCancel)
  {
    ReachableCounts(c, s);
  }

  /** A channel that was closed is never read again, whatever happens, and takes nothing more.
      It holds the first 1024 messages that had not been read. */
  lemma ClosedForGood(c: Config, s: System, action: Action)
    requires Reachable(c, s) && s.m.box.closed
    ensures HoldsUnread(s.m.box)
    ensures var b, d := s.m.box, Apply(s, action).m.box;
            d.closed && d.consumed == b.consumed && d.log == b.log && d.channel == b.channel
  {
    ReachableHasInv(c, s);
    ReachableCounts(c, s);
    StepHoldsUnread(s, action);
  }
}
