/**
 What the channel between the streams and the consumer keeps: messages leave in the
 order they entered, an end signal is the last word of its vbucket, and every callback
 given to next() is answered once.
 */
module RangeScanMail {
  import opened Wrappers
  import opened RangeScanStream
  import opened RangeScanOrchestrator
  import opened RangeScanPlaces

  // ---------- Items, in order ----------

  ghost function ItemsOf(messages: seq<Message>): seq<(nat, ScanItem)> {
    if messages == [] then []
    else
      var last := messages[|messages| - 1];
      ItemsOf(messages[..|messages| - 1]) + (if last.ItemMessage? then [(last.vbucket, last.item)] else [])
  }

  ghost function ItemsGiven(answers: seq<Answer>): seq<(nat, ScanItem)> {
    if answers == [] then []
    else
      var last := answers[|answers| - 1];
      ItemsGiven(answers[..|answers| - 1]) + (if last.GotItem? then [(last.vbucket, last.item)] else [])
  }

  lemma OneMore(answers: seq<Answer>, answer: Answer)
    ensures ItemsGiven(answers + [answer]) ==
            ItemsGiven(answers) + (if answer.GotItem? then [(answer.vbucket, answer.item)] else [])
  {
    assert (answers + [answer])[..|answers|] == answers;
  }

  lemma {:induction false} NoItemsIn(answers: seq<Answer>, more: seq<Answer>)
    requires forall i :: 0 <= i < |more| ==> !more[i].GotItem?
    ensures ItemsGiven(answers + more) == ItemsGiven(answers)
  {
    if more == [] {
      assert answers + more == answers;
    } else {
      var last := |more| - 1;
      NoItemsIn(answers, more[..last]);
      OneMore(answers + more[..last], more[last]);
      assert answers + more == answers + more[..last] + [more[last]];
    }
  }

  lemma OneMoreMessage(messages: seq<Message>, message: Message)
    ensures ItemsOf(messages + [message]) ==
            ItemsOf(messages) + (if message.ItemMessage? then [(message.vbucket, message.item)] else [])
  {
    assert (messages + [message])[..|messages|] == messages;
  }

  // ---------- First in, first out ----------

  ghost predicate InOrder(b: Mailbox) {
    && b.consumed <= b.log
    && (!b.closed ==> b.log == b.consumed + b.channel)
    && (b.receivers > 0 ==> b.channel == [] && !b.closed)
    && ItemsGiven(b.answers) == ItemsOf(b.consumed)
  }

  // calls counts the calls of next(), most the limit the scan began with.
  ghost predicate WithinBudget(b: Mailbox, limit: nat, calls: nat, most: nat) {
    && calls == |b.answers| + b.receivers + b.reposted
    && |ItemsGiven(b.answers)| + b.receivers + b.reposted + limit <= most
  }

  lemma ConsumeKeepsBudget(b: Mailbox, message: Message, limit: nat, calls: nat, most: nat)
    requires WithinBudget(b.(receivers := b.receivers + 1), limit, calls, most)
    ensures WithinBudget(Consume(b, message), limit, calls, most)
  {
    match message
    case ItemMessage(v, item) => OneMore(b.answers, GotItem(v, item));
    case EndSignal(v, Some(ec)) => OneMore(b.answers, GotError(ec));
    case EndSignal(v, None) =>
  }

  lemma ConsumeKeepsOrder(b: Mailbox, message: Message)
    requires ItemsGiven(b.answers) == ItemsOf(b.consumed)
    ensures var b' := Consume(b, message);
            && ItemsGiven(b'.answers) == ItemsOf(b'.consumed)
            && b' == b.(registered := b'.registered, reposted := b'.reposted, answers := b'.answers,
                        consumed := b.consumed + [message])
  {
    OneMoreMessage(b.consumed, message);
    match message
    case ItemMessage(v, item) => OneMore(b.answers, GotItem(v, item));
    case EndSignal(v, Some(ec)) => OneMore(b.answers, GotError(ec));
    case EndSignal(v, None) =>
  }

  lemma SendKeepsOrder(b: Mailbox, message: Message, limit: nat, calls: nat, most: nat)
    requires InOrder(b) && WithinBudget(b, limit, calls, most)
    ensures InOrder(Send(b, message)) && WithinBudget(Send(b, message), limit, calls, most)
  {
    if !b.closed && b.receivers > 0 {
      var taken := b.(log := b.log + [message], receivers := b.receivers - 1);
      ConsumeKeepsOrder(taken, message);
      ConsumeKeepsBudget(taken, message, limit, calls, most);
    }
  }

  // A call of next_item turns the unit of budget it holds into one answer or one receiver.
  lemma NextItemKeepsOrder(b: Mailbox, cancelled: bool, limit: nat, calls: nat, most: nat)
    requires InOrder(b) && WithinBudget(b.(reposted := b.reposted + 1), limit, calls, most)
    requires b.closed ==> cancelled || b.registered == {}
    ensures InOrder(NextItem(b, cancelled)) && WithinBudget(NextItem(b, cancelled), limit, calls, most)
    ensures NextItem(b, cancelled).closed ==> cancelled || NextItem(b, cancelled).registered == {}
  {
    if b.registered == {} || cancelled {
      var aborted := seq(b.receivers, _ => GotChannelCancelled);
      NoItemsIn(b.answers, aborted);
      OneMore(b.answers + aborted, GotCompleted);
    } else if b.channel != [] {
      var taken := b.(channel := b.channel[1..]);
      ConsumeKeepsOrder(taken, b.channel[0]);
      ConsumeKeepsBudget(taken, b.channel[0], limit, calls, most);
    }
  }

  // ---------- End signals ----------

  predicate BeforeItems(p: Phase) {
    p.Queued? || p.StartPosted? || p.Creating?
  }

  // What the log says about the places of the vbuckets.
  ghost predicate LogAgrees(log: seq<Message>, t: Tracks, cancelled: bool) {
    && (forall i :: 0 <= i < |log| ==> log[i].vbucket < |t| && !BeforeItems(t[log[i].vbucket].phase))
    && (forall i :: 0 <= i < |log| && log[i].EndSignal? ==> t[log[i].vbucket].phase.Ended?)
    && (forall i, j :: 0 <= i < j < |log| && log[i].EndSignal? ==> log[j].vbucket != log[i].vbucket)
    && (!cancelled ==> forall v :: 0 <= v < |t| && t[v].phase.Ended? ==> EndSignal(v, None) in log)
    && (!cancelled ==> forall i :: 0 <= i < |log| && log[i].EndSignal? ==> log[i].error.None?)
  }

  ghost predicate RegistryAgrees(b: Mailbox, t: Tracks, cancelled: bool) {
    && (forall v :: v in b.registered <==> 0 <= v < |t| && EndSignal(v, None) !in b.consumed)
    && (b.closed ==> cancelled || b.registered == {})
  }

  lemma ConsumeKeepsRegistry(b: Mailbox, message: Message, t: Tracks, cancelled: bool)
    requires RegistryAgrees(b, t, cancelled) && message.vbucket < |t|
    ensures RegistryAgrees(Consume(b, message), t, cancelled)
  {
    var b' := Consume(b, message);
    forall v
      ensures EndSignal(v, None) in b'.consumed <==> EndSignal(v, None) in b.consumed || message == EndSignal(v, None)
    {
    }
  }

  lemma SendKeepsRegistry(b: Mailbox, message: Message, t: Tracks, cancelled: bool)
    requires RegistryAgrees(b, t, cancelled) && message.vbucket < |t|
    ensures RegistryAgrees(Send(b, message), t, cancelled)
  {
    if !b.closed && b.receivers > 0 {
      ConsumeKeepsRegistry(b.(log := b.log + [message], receivers := b.receivers - 1), message, t, cancelled);
    }
  }

  lemma NextItemKeepsRegistry(b: Mailbox, t: Tracks, cancelled: bool)
    requires RegistryAgrees(b, t, cancelled) && InOrder(b)
    requires LogAgrees(b.log, t, cancelled)
    ensures RegistryAgrees(NextItem(b, cancelled), t, cancelled)
  {
    if b.registered != {} && !cancelled && b.channel != [] {
      assert b.channel[0] == b.log[|b.consumed|];
      ConsumeKeepsRegistry(b.(channel := b.channel[1..]), b.channel[0], t, cancelled);
    }
  }

  // A message that still waits belongs to a stream that is still registered: none can
  // follow its vbucket's end signal.
  lemma WaitingIsRegistered(b: Mailbox, t: Tracks, cancelled: bool)
    requires InOrder(b) && LogAgrees(b.log, t, cancelled) && RegistryAgrees(b, t, cancelled)
    ensures |b.consumed| < |b.log| ==> b.log[|b.consumed|].vbucket in b.registered
  {
    assert forall i :: 0 <= i < |b.consumed| ==> b.consumed[i] == b.log[i];
  }

  lemma EndedWhenDeregistered(b: Mailbox, t: Tracks, cancelled: bool, v: nat)
    requires InOrder(b) && LogAgrees(b.log, t, cancelled) && RegistryAgrees(b, t, cancelled)
    requires v < |t| && v !in b.registered
    ensures t[v].phase.Ended?
  {
    var i :| 0 <= i < |b.consumed| && b.consumed[i] == EndSignal(v, None);
    assert b.log[i] == EndSignal(v, None);
  }
}
