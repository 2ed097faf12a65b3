/**
 The orchestrator of a range scan: it starts streams, hears how they end, and feeds
 the consumer through a FIFO channel.
 */
module RangeScanOrchestrator {
  import opened Wrappers
  import opened RangeScanBalancer
  import opened RangeScanStream

  const CHANNEL_CAPACITY := 1024

  // ---------- Starting streams ----------

  // The part of the orchestrator that decides which stream runs next.
  datatype Desk = Desk(nodes: Nodes, active: nat)

  function Launch(d: Desk, id: int): Desk {
    if Eligible(d.nodes, id) then Desk(d.nodes[id := d.nodes[id].Fetched()], Increment16(d.active)) else d
  }

  function LaunchAll(d: Desk, picks: seq<int>): Desk {
    if picks == [] then d
    else Launch(LaunchAll(d, picks[..|picks| - 1]), picks[|picks| - 1])
  }

  // The vbuckets whose start is posted, in order.
  function StartedBy(d: Desk, picks: seq<int>): seq<nat> {
    if picks == [] then []
    else
      var earlier := LaunchAll(d, picks[..|picks| - 1]);
      var id := picks[|picks| - 1];
      StartedBy(d, picks[..|picks| - 1]) + (if Eligible(earlier.nodes, id) then [earlier.nodes[id].pending[0]] else [])
  }

  lemma OneMorePick(d: Desk, picks: seq<int>, id: int)
    requires LeastLoadedPicks(d, picks) && LeastLoaded(LaunchAll(d, picks).nodes, id)
    ensures LeastLoadedPicks(d, picks + [id])
    ensures LaunchAll(d, picks + [id]) == Launch(LaunchAll(d, picks), id)
    ensures StartedBy(d, picks + [id]) == StartedBy(d, picks) + [LaunchAll(d, picks).nodes[id].pending[0]]
  {
    assert (picks + [id])[..|picks|] == picks;
  }

  ghost predicate LeastLoadedPicks(d: Desk, picks: seq<int>) {
    picks == [] ||
    (LeastLoadedPicks(d, picks[..|picks| - 1]) &&
     LeastLoaded(LaunchAll(d, picks[..|picks| - 1]).nodes, picks[|picks| - 1]))
  }

  // What start_streams(count) may do: it stops early only when no node has work left.
  ghost predicate LegalPicks(cancelled: bool, d: Desk, count: nat, picks: seq<int>) {
    if cancelled then picks == []
    else
      && |picks| <= count
      && LeastLoadedPicks(d, picks)
      && (|picks| < count ==> NothingEligible(LaunchAll(d, picks).nodes))
  }

  // Some choice is always possible: no state blocks for want of a legal one.
  lemma {:induction false} LegalPicksExist(cancelled: bool, d: Desk, count: nat) returns (picks: seq<int>)
    ensures LegalPicks(cancelled, d, count, picks)
  {
    picks := [];
    if !cancelled && count > 0 {
      var fewer := LegalPicksExist(false, d, count - 1);
      var nodes := LaunchAll(d, fewer).nodes;
      if |fewer| < count - 1 || NothingEligible(nodes) {
        picks := fewer;
      } else {
        var some :| Eligible(nodes, some);
        var id := LeastLoadedExists(nodes, some);
        OneMorePick(d, fewer, id);
        picks := fewer + [id];
      }
    }
  }

  lemma {:induction false} LeastLoadedExists(nodes: Nodes, some: int) returns (id: int)
    requires Eligible(nodes, some)
    ensures LeastLoaded(nodes, id)
    decreases nodes[some].active
  {
    id := some;
    if other :| Eligible(nodes, other) && nodes[other].active < nodes[some].active {
      id := LeastLoadedExists(nodes, other);
    }
  }

  function EndAttempt(d: Desk, node: int): Desk
    requires node in d.nodes
  {
    Desk(d.nodes[node := d.nodes[node].StreamEnded()], Decrement16(d.active))
  }

  function EndAttemptAndEnqueue(d: Desk, node: int, vbucket: nat): Desk
    requires node in d.nodes
  {
    var ended := EndAttempt(d, node);
    Desk(ended.nodes[node := ended.nodes[node].Enqueued(vbucket)], ended.active)
  }

  // ---------- Feeding the consumer ----------

  // An item message carries its vbucket so that properties can speak of it; the
  // orchestrator never looks at that tag.
  datatype Message =
    | ItemMessage(vbucket: nat, item: ScanItem)
    | EndSignal(vbucket: nat, error: Option<ErrorCode>)

  // How a callback given to next() is called.
  datatype Answer =
    | GotItem(vbucket: nat, item: ScanItem)
    | GotError(ec: ErrorCode)
    | GotCompleted
    | GotChannelCancelled

  // log and consumed record every message that entered and left the channel.
  datatype Mailbox = Mailbox(
    registered: set<nat>,     // the keys of streams_
    channel: seq<Message>,
    closed: bool,
    receivers: nat,           // async_receive calls that wait for a message
    reposted: nat,            // next_item continuations posted after an end signal
    answers: seq<Answer>,
    log: seq<Message>,
    consumed: seq<Message>
  )

  function Consume(b: Mailbox, message: Message): Mailbox {
    var b := b.(consumed := b.consumed + [message]);
    match message
    case ItemMessage(v, item) => b.(answers := b.answers + [GotItem(v, item)])
    case EndSignal(v, Some(ec)) => b.(answers := b.answers + [GotError(ec)])
    case EndSignal(v, None) => b.(registered := b.registered - {v}, reposted := b.reposted + 1)
  }

  function Send(b: Mailbox, message: Message): Mailbox {
    if b.closed then b
    else
      var b := b.(log := b.log + [message]);
      if b.receivers > 0 then Consume(b.(receivers := b.receivers - 1), message)
      else b.(channel := b.channel + [message])
  }

  // items_.cancel() aborts the waiting receivers and the sends beyond the buffer; items_.close() follows.
  function CloseChannel(b: Mailbox): Mailbox {
    b.(closed := true,
       receivers := 0,
       answers := b.answers + seq(b.receivers, _ => GotChannelCancelled),
       channel := if |b.channel| <= CHANNEL_CAPACITY then b.channel else b.channel[..CHANNEL_CAPACITY])
  }

  function NextItem(b: Mailbox, cancelled: bool): Mailbox {
    if b.registered == {} || cancelled then
      var b := CloseChannel(b);
      b.(answers := b.answers + [GotCompleted])
    else if b.channel != [] then Consume(b.(channel := b.channel[1..]), b.channel[0])
    else b.(receivers := b.receivers + 1)
  }

  // ---------- The whole manager ----------

  datatype Manager = Manager(desk: Desk, box: Mailbox, limit: nat, cancelled: bool)

  function Next(m: Manager): Manager {
    if m.limit == 0 then
      m.(box := m.box.(answers := m.box.answers + [GotCompleted]), cancelled := true)
    else
      m.(limit := m.limit - 1, box := NextItem(m.box, m.cancelled))
  }

  // stream_completed up to its call of start_streams(1)
  function RetireCompleted(m: Manager, node: int, vbucket: nat): Manager
    requires node in m.desk.nodes
  {
    m.(desk := EndAttempt(m.desk, node), box := Send(m.box, EndSignal(vbucket, None)))
  }

  function RetireFatal(m: Manager, node: int, vbucket: nat, ec: ErrorCode): Manager
    requires node in m.desk.nodes
  {
    m.(desk := EndAttempt(m.desk, node), box := Send(m.box, EndSignal(vbucket, Some(ec))), cancelled := true)
  }

  function StartMore(m: Manager, picks: seq<int>): Manager {
    m.(desk := LaunchAll(m.desk, picks))
  }

  // The start_streams call a busy answer leads to: only when nothing is active any more.
  function RetryCount(d: Desk): nat {
    if d.active == 0 then 1 else 0
  }

  ghost function Below(n: nat): (s: set<nat>)
    ensures |s| == n
    ensures forall v :: v in s <==> 0 <= v < n
  {
    if n == 0 then {} else Below(n - 1) + {n - 1}
  }

  class RangeScanOrchestrator {
    const activeNodes: seq<int>      // vbucket_map_[v][0]
    const kind: ScanKind
    const concurrency: nat
    const balancer: RangeScanLoadBalancer
    var streams: map<nat, RangeScanStream>
    var active: nat
    var channel: seq<Message>
    var closed: bool
    var receivers: nat
    var reposted: nat
    var answers: seq<Answer>
    ghost var log: seq<Message>
    ghost var consumed: seq<Message>
    var limit: nat
    var cancelled: bool

    ghost function View(): Manager
      reads this, balancer
    {
      Manager(Desk(balancer.nodes, active),
              Mailbox(streams.Keys, channel, closed, receivers, reposted, answers, log, consumed),
              limit, cancelled)
    }

    // Every vbucket the balancer can hand out still has its stream.
    ghost predicate PendingAreRegistered()
      reads this, balancer
    {
      forall id, v :: id in balancer.nodes && v in balancer.nodes[id].pending ==> v in streams
    }

    constructor (activeNodes: seq<int>, kind: ScanKind, limit: nat, concurrency: nat)
      requires |activeNodes| <= UINT16_SIZE
      ensures View() == Manager(Desk(Partition(activeNodes), 0),
                                Mailbox({}, [], false, 0, 0, [], [], []), limit, false)
      ensures this.activeNodes == activeNodes && this.kind == kind && this.concurrency == concurrency
      ensures fresh(balancer)
    {
      this.activeNodes, this.kind, this.limit, this.concurrency := activeNodes, kind, limit, concurrency;
      balancer := new RangeScanLoadBalancer(activeNodes);
      streams, active, channel, closed, receivers, reposted := map[], 0, [], false, 0, 0;
      answers, log, consumed, cancelled := [], [], [], false;
    }

    // lookupError is what the lookup of the collection id comes back with. The loop over the
    // vbuckets ends at their number as 16 bits: with all 65536 of them no stream is registered,
    // and streams_.at() throws.
    method Scan(lookupError: Option<ErrorCode>)
      returns (error: Option<ErrorCode>, thrown: bool, started: seq<nat>, ghost picks: seq<int>)
      requires balancer.nodes == Partition(activeNodes) && |activeNodes| <= UINT16_SIZE
      modifies this, balancer
      ensures thrown <==> error.None? && !old(cancelled) && |activeNodes| == UINT16_SIZE
      ensures error.None? && |activeNodes| == UINT16_SIZE ==>
                streams == map[] && active == old(active) && started == []
      ensures error == if limit == 0 || concurrency == 0 then Some(InvalidArgument) else lookupError
      ensures error.Some? ==> View() == old(View()) && started == []
      ensures error.None? && |activeNodes| < UINT16_SIZE ==>
                && streams.Keys == Below(|activeNodes|)
                && (forall v :: v in streams ==>
                      fresh(streams[v]) && streams[v].View() == NewStream(activeNodes[v], kind))
                && LegalPicks(old(cancelled), old(View()).desk, concurrency, picks)
                && View() == StartMore(old(View()), picks).(box := old(View()).box.(registered := streams.Keys))
                && started == StartedBy(old(View()).desk, picks)
    {
      if limit == 0 || concurrency == 0 {
        return Some(InvalidArgument), false, [], [];
      }
      if lookupError.Some? {
        return lookupError, false, [], [];
      }
      RegisterStreams();
      PartitionBelow(activeNodes);
      error, thrown, started, picks := None, false, [], [];
      if |activeNodes| == UINT16_SIZE {
        thrown := FirstStartThrows();
      } else {
        started, picks := StartStreams(concurrency);
      }
    }

    // start_streams when no stream is registered and every vbucket is pending
    method FirstStartThrows() returns (thrown: bool)
      requires streams == map[] && balancer.nodes == Partition(activeNodes) && activeNodes != []
      modifies balancer
      ensures thrown == !cancelled
      ensures cancelled ==> balancer.nodes == old(balancer.nodes)
    {
      if cancelled {
        return false;
      }
      PartitionHasWork(activeNodes);
      var vbucket, id := balancer.SelectVbucket();
      thrown := vbucket.value !in streams;
    }

    method RegisterStreams()
      modifies this`streams
      requires |activeNodes| <= UINT16_SIZE
      ensures |activeNodes| == UINT16_SIZE ==> streams == map[]
      ensures |activeNodes| < UINT16_SIZE ==> streams.Keys == Below(|activeNodes|)
      ensures forall v :: v in streams ==> fresh(streams[v]) && streams[v].View() == NewStream(activeNodes[v], kind)
    {
      streams := map[];
      for v := 0 to |activeNodes| % UINT16_SIZE
        invariant forall u :: u in streams <==> 0 <= u < v
        invariant forall u :: u in streams ==> fresh(streams[u]) && streams[u].View() == NewStream(activeNodes[u], kind)
      {
        var stream := new RangeScanStream(activeNodes[v], kind);
        streams := streams[v := stream];
      }
      assert |activeNodes| < UINT16_SIZE ==> streams.Keys == Below(|activeNodes|);
    }

    method StartStreams(count: nat) returns (started: seq<nat>, ghost picks: seq<int>)
      requires PendingAreRegistered()
      modifies this`active, balancer
      ensures LegalPicks(cancelled, old(View()).desk, count, picks)
      ensures View() == StartMore(old(View()), picks)
      ensures started == StartedBy(old(View()).desk, picks)
    {
      started, picks := [], [];
      if cancelled {
        return;
      }
      ghost var desk := View().desk;
      var counter := 0;
      while counter < count
        invariant 0 <= counter <= count
        invariant |picks| == counter
        invariant PendingAreRegistered()
        invariant LeastLoadedPicks(desk, picks)
        invariant View() == old(View()).(desk := LaunchAll(desk, picks))
        invariant started == StartedBy(desk, picks)
      {
        ghost var now := View().desk;
        var vbucket, id := balancer.SelectVbucket();
        if vbucket.None? {
          return;
        }
        OneMorePick(desk, picks, id);
        assert vbucket.value in now.nodes[id].pending;
        var stream := streams[vbucket.value];
        active := Increment16(active);
        counter := counter + 1;
        started := started + [vbucket.value];
        picks := picks + [id];
        assert View().desk == Launch(now, id);
      }
    }

    method StreamReceivedItem(vbucket: nat, item: ScanItem)
      modifies this`channel, this`receivers, this`reposted, this`answers, this`log, this`consumed, this`streams
      ensures View() == old(View()).(box := Send(old(View()).box, ItemMessage(vbucket, item)))
      ensures forall v :: v in streams ==> v in old(streams) && streams[v] == old(streams[v])
    {
      AsyncSend(ItemMessage(vbucket, item));
    }

    method StreamHasFailed(node: int, vbucket: nat, ec: ErrorCode, fatal: bool)
      returns (started: seq<nat>, ghost picks: seq<int>)
      requires node in balancer.nodes
      requires PendingAreRegistered() && NotPending(vbucket)
      modifies this, balancer, streams.Values
      ensures var before := old(View());
              if fatal then
                && View() == RetireFatal(before, node, vbucket, ec)
                && started == picks == []
                && forall v :: v in streams ==>
                                 && v in old(streams) && streams[v] == old(streams[v])
                                 && streams[v].View() == old(streams[v].View()).(shouldCancel := true)
              else
                var retired := RetireCompleted(before, node, vbucket);
                && LegalPicks(retired.cancelled, retired.desk, 1, picks)
                && View() == StartMore(retired, picks)
                && started == StartedBy(retired.desk, picks)
    {
      if !fatal {
        started, picks := StreamHasCompleted(node, vbucket);
        return;
      }
      started, picks := [], [];
      balancer.NotifyStreamEnded(node);
      OneNodeChanged(old(balancer.nodes), balancer.nodes, node, old(balancer.nodes)[node].StreamEnded());
      active := Decrement16(active);
      AsyncSend(EndSignal(vbucket, Some(ec)));
      Cancel();
    }

    method StreamHasCompleted(node: int, vbucket: nat) returns (started: seq<nat>, ghost picks: seq<int>)
      requires node in balancer.nodes
      requires PendingAreRegistered() && NotPending(vbucket)
      modifies this, balancer
      ensures var retired := RetireCompleted(old(View()), node, vbucket);
              && LegalPicks(retired.cancelled, retired.desk, 1, picks)
              && View() == StartMore(retired, picks)
              && started == StartedBy(retired.desk, picks)
    {
      balancer.NotifyStreamEnded(node);
      OneNodeChanged(old(balancer.nodes), balancer.nodes, node, old(balancer.nodes)[node].StreamEnded());
      active := Decrement16(active);
      AsyncSend(EndSignal(vbucket, None));
      started, picks := StartStreams(1);
    }

    method StreamStartFailedAwaitingRetry(node: int, vbucket: nat) returns (started: seq<nat>, ghost picks: seq<int>)
      requires node in balancer.nodes && vbucket in streams
      requires PendingAreRegistered()
      modifies this`active, balancer
      ensures var desk := EndAttemptAndEnqueue(old(View()).desk, node, vbucket);
              && LegalPicks(cancelled, desk, RetryCount(desk), picks)
              && View() == StartMore(old(View()).(desk := desk), picks)
              && started == StartedBy(desk, picks)
    {
      balancer.NotifyStreamEnded(node);
      OneNodeChanged(old(balancer.nodes), balancer.nodes, node, old(balancer.nodes)[node].StreamEnded());
      active := Decrement16(active);
      label Ended:
      balancer.EnqueueVbucket(node, vbucket);
      OneNodeChanged(old@Ended(balancer.nodes), balancer.nodes, node,
                     old@Ended(balancer.nodes)[node].Enqueued(vbucket));
      started, picks := [], [];
      if active == 0 {
        started, picks := StartStreams(1);
      }
    }

    method Cancel()
      modifies this`cancelled, streams.Values
      ensures View() == old(View()).(cancelled := true)
      ensures forall v :: v in streams ==> streams[v].View() == old(streams[v].View()).(shouldCancel := true)
    {
      cancelled := true;
      forall v | v in streams {
        streams[v].shouldCancel := true;
      }
    }

    method NextCallback()
      modifies this, streams.Values
      ensures View() == Next(old(View()))
      ensures forall v :: v in streams ==> v in old(streams) && streams[v] == old(streams[v])
      ensures old(limit) == 0 ==>
                forall v :: v in streams ==> streams[v].View() == old(streams[v].View()).(shouldCancel := true)
    {
      if limit == 0 {
        answers := answers + [GotCompleted];
        Cancel();
        return;
      }
      limit := limit - 1;
      NextItemCallback();
    }

    method NextItemCallback()
      modifies this`streams, this`answers, this`receivers, this`reposted, this`channel, this`closed, this`consumed
      ensures View() == old(View()).(box := NextItem(old(View()).box, cancelled))
      ensures forall v :: v in streams ==> v in old(streams) && streams[v] == old(streams[v])
    {
      if |streams| == 0 || cancelled {
        answers := answers + seq(receivers, _ => GotChannelCancelled) + [GotCompleted];
        receivers := 0;
        if |channel| > CHANNEL_CAPACITY {
          channel := channel[..CHANNEL_CAPACITY];
        }
        closed := true;
        return;
      }
      assert streams.Keys != {} by { assert |streams.Keys| == |streams|; }
      if |channel| > 0 {
        var message := channel[0];
        channel := channel[1..];
        OnReceive(message);
      } else {
        receivers := receivers + 1;
      }
    }

    // The handler of async_receive.
    method OnReceive(message: Message)
      modifies this`answers, this`reposted, this`consumed, this`streams
      ensures View() == old(View()).(box := Consume(old(View()).box, message))
      ensures forall v :: v in streams ==> v in old(streams) && streams[v] == old(streams[v])
    {
      consumed := consumed + [message];
      match message
      case ItemMessage(v, item) =>
        answers := answers + [GotItem(v, item)];
      case EndSignal(v, Some(ec)) =>
        answers := answers + [GotError(ec)];
      case EndSignal(v, None) =>
        streams := streams - {v};
        reposted := reposted + 1;
    }

    method AsyncSend(message: Message)
      modifies this`channel, this`receivers, this`reposted, this`answers, this`log, this`consumed, this`streams
      ensures View() == old(View()).(box := Send(old(View()).box, message))
      ensures forall v :: v in streams ==> v in old(streams) && streams[v] == old(streams[v])
      ensures forall v :: v in old(streams) && v !in streams ==> v == message.vbucket
    {
      if closed {
        return;
      }
      log := log + [message];
      if receivers > 0 {
        receivers := receivers - 1;
        OnReceive(message);
      } else {
        channel := channel + [message];
      }
    }

    ghost predicate NotPending(vbucket: nat)
      reads this, balancer
    {
      forall id :: id in balancer.nodes ==> vbucket !in balancer.nodes[id].pending
    }
  }

  lemma PartitionHasWork(activeNodes: seq<int>)
    requires activeNodes != []
    ensures Eligible(Partition(activeNodes), activeNodes[0])
  {
    QueueIsExact(activeNodes, activeNodes[0], |activeNodes|);
    assert 0 in QueueOf(activeNodes, activeNodes[0], |activeNodes|);
  }

  lemma PartitionBelow(activeNodes: seq<int>)
    ensures forall id, v :: id in Partition(activeNodes) && v in Partition(activeNodes)[id].pending ==>
              v < |activeNodes|
  {
    forall id, v | id in Partition(activeNodes) && v in Partition(activeNodes)[id].pending
      ensures v < |activeNodes|
    {
      QueueIsExact(activeNodes, id, |activeNodes|);
    }
  }
}
