/**
 Where a vbucket is during a scan: pending in its node's queue, held by one attempt,
 or ended. The balancer's counts agree with this at every step.
 */
module RangeScanPlaces {
  import opened RangeScanBalancer
  import opened RangeScanOrchestrator

  // ---------- Counting ----------

  ghost function Tally(bits: seq<bool>): (count: nat)
    ensures count <= |bits|
  {
    if bits == [] then 0
    else Tally(bits[..|bits| - 1]) + (if bits[|bits| - 1] then 1 else 0)
  }

  lemma {:induction false} TallyUpdate(bits: seq<bool>, v: nat, bit: bool)
    requires v < |bits|
    ensures Tally(bits[v := bit]) + (if bits[v] then 1 else 0) == Tally(bits) + (if bit then 1 else 0)
  {
    var last := |bits| - 1;
    if v == last {
      assert bits[v := bit][..last] == bits[..last];
    } else {
      TallyUpdate(bits[..last], v, bit);
      assert bits[v := bit][..last] == bits[..last][v := bit];
    }
  }

  lemma {:induction false} TallyZero(bits: seq<bool>)
    ensures Tally(bits) == 0 <==> forall v :: 0 <= v < |bits| ==> !bits[v]
  {
    if bits != [] {
      TallyZero(bits[..|bits| - 1]);
      assert forall v :: 0 <= v < |bits| - 1 ==> bits[v] == bits[..|bits| - 1][v];
    }
  }

  lemma {:induction false} TallySplit(all: seq<bool>, some: seq<bool>, others: seq<bool>)
    requires |all| == |some| == |others|
    requires forall v :: 0 <= v < |all| ==> all[v] == (some[v] || others[v]) && !(some[v] && others[v])
    ensures Tally(all) == Tally(some) + Tally(others)
  {
    if all != [] {
      var last := |all| - 1;
      TallySplit(all[..last], some[..last], others[..last]);
    }
  }

  // ---------- Places ----------

  // What is outstanding for a stream. Stopped and Stalled streams still count as active:
  // the first was cancelled while running, the second got a batch that neither ended nor
  // continued the scan.
  datatype Phase =
    | Queued
    | StartPosted
    | Creating
    | ContinuePosted
    | Continuing
    | Stalled
    | Stopped
    | Ended

  predicate IsHeld(p: Phase) {
    !p.Queued? && !p.Ended?
  }

  // launches, busies and ends count the attempts of one vbucket and how they ended.
  datatype Track = Track(phase: Phase, launches: nat, busies: nat, ends: nat) {
    function To(p: Phase): Track { this.(phase := p) }
    function Launched(): Track { Track(StartPosted, launches + 1, busies, ends) }
    function Retired(): Track { Track(Ended, launches, busies, ends + 1) }
    function Requeued(): Track { Track(Queued, launches, busies + 1, ends) }
  }

  // Indexed by vbucket.
  type Tracks = seq<Track>

  ghost function QueuedBits(t: Tracks): (bits: seq<bool>)
    ensures |bits| == |t|
  {
    seq(|t|, v requires 0 <= v < |t| => t[v].phase.Queued?)
  }

  ghost function HeldBits(t: Tracks): (bits: seq<bool>)
    ensures |bits| == |t|
  {
    seq(|t|, v requires 0 <= v < |t| => IsHeld(t[v].phase))
  }

  ghost function HeldAtBits(a: seq<int>, t: Tracks, id: int): (bits: seq<bool>)
    requires |a| == |t|
    ensures |bits| == |t|
  {
    seq(|t|, v requires 0 <= v < |t| => IsHeld(t[v].phase) && a[v] == id)
  }

  ghost function QueuedCount(t: Tracks): nat { Tally(QueuedBits(t)) }

  ghost function HeldCount(t: Tracks): nat { Tally(HeldBits(t)) }

  ghost function HeldCountAt(a: seq<int>, t: Tracks, id: int): nat
    requires |a| == |t|
  {
    Tally(HeldAtBits(a, t, id))
  }

  ghost predicate NoDuplicates(s: seq<nat>) {
    forall i, j :: 0 <= i < j < |s| ==> s[i] != s[j]
  }

  // The queue of a node holds exactly its queued vbuckets, once each; its count is the
  // number of attempts that hold one of its vbuckets.
  ghost predicate NodeAgrees(a: seq<int>, n: NodeState, t: Tracks, id: int)
    requires |a| == |t|
  {
    && (forall v :: v in n.pending <==> 0 <= v < |t| && t[v].phase.Queued? && a[v] == id)
    && NoDuplicates(n.pending)
    && n.active == HeldCountAt(a, t, id)
  }

  // Each vbucket is in exactly one place, and both levels of counting agree with it.
  ghost predicate PlacesAgree(a: seq<int>, d: Desk, t: Tracks) {
    && |a| == |t| <= UINT16_MAX
    && (forall v :: 0 <= v < |a| ==> a[v] in d.nodes)
    && (forall id :: id in d.nodes ==> NodeAgrees(a, d.nodes[id], t, id))
    && d.active == HeldCount(t)
  }

  // Every attempt but the one that is still running has ended once, busily or for good.
  ghost predicate LedgerBalances(t: Tracks) {
    forall v :: 0 <= v < |t| ==>
                  && t[v].launches == t[v].busies + t[v].ends + (if IsHeld(t[v].phase) then 1 else 0)
                  && t[v].ends == (if t[v].phase.Ended? then 1 else 0)
  }

  lemma CountsAfter(a: seq<int>, t: Tracks, v: nat, to: Track)
    requires v < |t| == |a|
    ensures var t' := t[v := to];
            && HeldCount(t') + (if IsHeld(t[v].phase) then 1 else 0)
            == HeldCount(t) + (if IsHeld(to.phase) then 1 else 0)
            && QueuedCount(t') + (if t[v].phase.Queued? then 1 else 0)
            == QueuedCount(t) + (if to.phase.Queued? then 1 else 0)
  {
    TallyUpdate(HeldBits(t), v, IsHeld(to.phase));
    assert HeldBits(t[v := to]) == HeldBits(t)[v := IsHeld(to.phase)];
    TallyUpdate(QueuedBits(t), v, to.phase.Queued?);
    assert QueuedBits(t[v := to]) == QueuedBits(t)[v := to.phase.Queued?];
  }

  lemma CountAtAfter(a: seq<int>, t: Tracks, v: nat, to: Track, id: int)
    requires v < |t| == |a|
    ensures var t' := t[v := to];
            HeldCountAt(a, t', id) + (if IsHeld(t[v].phase) && a[v] == id then 1 else 0) ==
            HeldCountAt(a, t, id) + (if IsHeld(to.phase) && a[v] == id then 1 else 0)
  {
    TallyUpdate(HeldAtBits(a, t, id), v, IsHeld(to.phase) && a[v] == id);
    assert HeldAtBits(a, t[v := to], id) == HeldAtBits(a, t, id)[v := IsHeld(to.phase) && a[v] == id];
  }

  lemma {:induction false} TallyMonotone(some: seq<bool>, all: seq<bool>)
    requires |some| == |all|
    requires forall v :: 0 <= v < |all| && some[v] ==> all[v]
    ensures Tally(some) <= Tally(all)
  {
    if all != [] {
      TallyMonotone(some[..|some| - 1], all[..|all| - 1]);
    }
  }

  lemma CountBounds(a: seq<int>, t: Tracks, id: int)
    requires |a| == |t|
    ensures HeldCountAt(a, t, id) <= HeldCount(t)
    ensures HeldCount(t) + QueuedCount(t) <= |t|
  {
    TallyMonotone(HeldAtBits(a, t, id), HeldBits(t));
    var open := seq(|t|, v requires 0 <= v < |t| => !t[v].phase.Ended?);
    TallySplit(open, HeldBits(t), QueuedBits(t));
  }

  lemma QueuedCountPositive(t: Tracks, v: nat)
    requires v < |t| && t[v].phase.Queued?
    ensures QueuedCount(t) > 0
  {
    TallyZero(QueuedBits(t));
    assert QueuedBits(t)[v];
  }

  lemma HeldCountPositive(a: seq<int>, t: Tracks, v: nat)
    requires v < |t| == |a| && IsHeld(t[v].phase)
    ensures HeldCount(t) > 0 && HeldCountAt(a, t, a[v]) > 0
  {
    TallyZero(HeldBits(t));
    assert HeldBits(t)[v];
    TallyZero(HeldAtBits(a, t, a[v]));
    assert HeldAtBits(a, t, a[v])[v];
  }

  // ---------- The three moves, and the one that keeps an attempt going ----------

  lemma TailWithoutHead(queue: seq<nat>)
    requires NoDuplicates(queue) && queue != []
    ensures forall u :: u in queue[1..] <==> u in queue && u != queue[0]
  {
    assert queue == [queue[0]] + queue[1..];
  }

  lemma HeadIsQueued(a: seq<int>, d: Desk, t: Tracks, id: int)
    requires PlacesAgree(a, d, t) && Eligible(d.nodes, id)
    ensures var v := d.nodes[id].pending[0];
            && v < |t| && t[v].phase.Queued? && a[v] == id
            && HeldCount(t) < |t|
            && QueuedCount(t) > 0
  {
    var v := d.nodes[id].pending[0];
    assert v in d.nodes[id].pending && NodeAgrees(a, d.nodes[id], t, id);
    QueuedCountPositive(t, v);
    CountBounds(a, t, id);
  }

  lemma NodeAfterLaunch(a: seq<int>, n: NodeState, t: Tracks, id: int)
    requires |a| == |t| <= UINT16_MAX && NodeAgrees(a, n, t, id) && n.pending != [] && n.active < UINT16_MAX
    requires n.pending[0] < |t|
    ensures NodeAgrees(a, n.Fetched(), t[n.pending[0] := t[n.pending[0]].Launched()], id)
  {
    var v := n.pending[0];
    assert v in n.pending;
    CountAtAfter(a, t, v, t[v].Launched(), id);
    TailWithoutHead(n.pending);
  }

  lemma OtherNodeAfterLaunch(a: seq<int>, n: NodeState, t: Tracks, id: int, v: nat)
    requires |a| == |t| && NodeAgrees(a, n, t, id) && v < |t| && a[v] != id
    ensures NodeAgrees(a, n, t[v := t[v].Launched()], id)
  {
    CountAtAfter(a, t, v, t[v].Launched(), id);
  }

  lemma LaunchKeepsPlaces(a: seq<int>, d: Desk, t: Tracks, id: int)
    requires PlacesAgree(a, d, t) && Eligible(d.nodes, id)
    ensures var v := d.nodes[id].pending[0];
            && v < |t| && t[v].phase.Queued? && a[v] == id
            && PlacesAgree(a, Launch(d, id), t[v := t[v].Launched()])
            && QueuedCount(t[v := t[v].Launched()]) == QueuedCount(t) - 1
            && HeldCount(t[v := t[v].Launched()]) == HeldCount(t) + 1
  {
    HeadIsQueued(a, d, t, id);
    var v := d.nodes[id].pending[0];
    CountsAfter(a, t, v, t[v].Launched());
    NodesAfterLaunch(a, d.nodes, t, id);
    LaunchCounts(d, id);
  }

  lemma LaunchCounts(d: Desk, id: int)
    requires Eligible(d.nodes, id) && d.active < UINT16_MAX
    ensures Launch(d, id) == Desk(d.nodes[id := d.nodes[id].Fetched()], d.active + 1)
  {
  }

  lemma NodesAfterLaunch(a: seq<int>, nodes: Nodes, t: Tracks, id: int)
    requires |a| == |t| <= UINT16_MAX && Eligible(nodes, id) && nodes[id].pending[0] < |t|
    requires a[nodes[id].pending[0]] == id
    requires forall k :: k in nodes ==> NodeAgrees(a, nodes[k], t, k)
    ensures var v, nodes' := nodes[id].pending[0], nodes[id := nodes[id].Fetched()];
            forall k :: k in nodes' ==> NodeAgrees(a, nodes'[k], t[v := t[v].Launched()], k)
  {
    var v := nodes[id].pending[0];
    forall k | k in nodes
      ensures NodeAgrees(a, if k == id then nodes[id].Fetched() else nodes[k], t[v := t[v].Launched()], k)
    {
      if k == id {
        NodeAfterLaunch(a, nodes[id], t, id);
      } else {
        OtherNodeAfterLaunch(a, nodes[k], t, k, v);
      }
    }
  }

  lemma NoUnderflow(a: seq<int>, d: Desk, t: Tracks, v: nat)
    requires PlacesAgree(a, d, t) && v < |t| && IsHeld(t[v].phase)
    ensures Decrement16(d.active) == d.active - 1
    ensures Decrement16(d.nodes[a[v]].active) == d.nodes[a[v]].active - 1
  {
    CountBounds(a, t, a[v]);
    HeldCountPositive(a, t, v);
    assert NodeAgrees(a, d.nodes[a[v]], t, a[v]);
  }

  lemma EndKeepsPlaces(a: seq<int>, d: Desk, t: Tracks, v: nat)
    requires PlacesAgree(a, d, t) && v < |t| && IsHeld(t[v].phase)
    ensures PlacesAgree(a, EndAttempt(d, a[v]), t[v := t[v].Retired()])
    ensures HeldCount(t[v := t[v].Retired()]) == HeldCount(t) - 1
    ensures QueuedCount(t[v := t[v].Retired()]) == QueuedCount(t)
  {
    var to := t[v].Retired();
    var t' := t[v := to];
    var n := d.nodes[a[v]];
    NoUnderflow(a, d, t, v);
    CountsAfter(a, t, v, to);
    forall k | k in d.nodes
      ensures NodeAgrees(a, if k == a[v] then n.StreamEnded() else d.nodes[k], t', k)
    {
      assert NodeAgrees(a, d.nodes[k], t, k);
      CountAtAfter(a, t, v, to, k);
    }
  }

  lemma RequeueKeepsPlaces(a: seq<int>, d: Desk, t: Tracks, v: nat)
    requires PlacesAgree(a, d, t) && v < |t| && IsHeld(t[v].phase)
    ensures PlacesAgree(a, EndAttemptAndEnqueue(d, a[v], v), t[v := t[v].Requeued()])
    ensures HeldCount(t[v := t[v].Requeued()]) == HeldCount(t) - 1
    ensures QueuedCount(t[v := t[v].Requeued()]) == QueuedCount(t) + 1
  {
    var to := t[v].Requeued();
    var t' := t[v := to];
    var n := d.nodes[a[v]];
    NoUnderflow(a, d, t, v);
    CountsAfter(a, t, v, to);
    assert NodeAgrees(a, n, t, a[v]) && v !in n.pending;
    forall k | k in d.nodes
      ensures NodeAgrees(a, if k == a[v] then n.StreamEnded().Enqueued(v) else d.nodes[k], t', k)
    {
      assert NodeAgrees(a, d.nodes[k], t, k);
      CountAtAfter(a, t, v, to, k);
    }
  }

  lemma MoveKeepsPlaces(a: seq<int>, d: Desk, t: Tracks, v: nat, p: Phase)
    requires PlacesAgree(a, d, t) && v < |t| && IsHeld(t[v].phase) && IsHeld(p)
    ensures PlacesAgree(a, d, t[v := t[v].To(p)])
    ensures HeldCount(t[v := t[v].To(p)]) == HeldCount(t)
    ensures QueuedCount(t[v := t[v].To(p)]) == QueuedCount(t)
  {
    var t' := t[v := t[v].To(p)];
    CountsAfter(a, t, v, t[v].To(p));
    forall k | k in d.nodes
      ensures NodeAgrees(a, d.nodes[k], t', k)
    {
      assert NodeAgrees(a, d.nodes[k], t, k);
      CountAtAfter(a, t, v, t[v].To(p), k);
    }
  }

  // The tracks after start_streams has posted these starts.
  ghost function MarkLaunched(t: Tracks, started: seq<nat>): (t': Tracks)
    ensures |t'| == |t|
  {
    if started == [] then t
    else
      var t' := MarkLaunched(t, started[..|started| - 1]);
      var v := started[|started| - 1];
      if v < |t'| then t'[v := t'[v].Launched()] else t'
  }

  lemma {:induction false} LaunchAllKeepsPlaces(a: seq<int>, d: Desk, t: Tracks, picks: seq<int>)
    requires PlacesAgree(a, d, t) && LeastLoadedPicks(d, picks)
    ensures var t' := MarkLaunched(t, StartedBy(d, picks));
            && PlacesAgree(a, LaunchAll(d, picks), t')
            && QueuedCount(t') == QueuedCount(t) - |picks|
            && HeldCount(t') == HeldCount(t) + |picks|
  {
    if picks != [] {
      var earlier := picks[..|picks| - 1];
      LaunchAllKeepsPlaces(a, d, t, earlier);
      LaunchKeepsPlaces(a, LaunchAll(d, earlier), MarkLaunched(t, StartedBy(d, earlier)), picks[|picks| - 1]);
      var started := StartedBy(d, picks);
      assert started[..|started| - 1] == StartedBy(d, earlier);
    }
  }

  // Only queued vbuckets were started, and each start is booked as one launch.
  ghost predicate OnlyStarted(t: Tracks, t': Tracks) {
    |t'| == |t| && forall v :: 0 <= v < |t| ==> t'[v] == t[v] || (t[v].phase.Queued? && t'[v] == t[v].Launched())
  }

  lemma {:induction false} LaunchAllOnlyStarts(a: seq<int>, d: Desk, t: Tracks, picks: seq<int>)
    requires PlacesAgree(a, d, t) && LeastLoadedPicks(d, picks)
    ensures OnlyStarted(t, MarkLaunched(t, StartedBy(d, picks)))
  {
    if picks != [] {
      var earlier := picks[..|picks| - 1];
      LaunchAllOnlyStarts(a, d, t, earlier);
      LaunchAllKeepsPlaces(a, d, t, earlier);
      LaunchKeepsPlaces(a, LaunchAll(d, earlier), MarkLaunched(t, StartedBy(d, earlier)), picks[|picks| - 1]);
      var started := StartedBy(d, picks);
      assert started[..|started| - 1] == StartedBy(d, earlier);
    }
  }

  lemma NothingPending(a: seq<int>, d: Desk, t: Tracks)
    requires PlacesAgree(a, d, t)
    ensures NothingEligible(d.nodes) <==> QueuedCount(t) == 0
  {
    TallyZero(QueuedBits(t));
    if v :| 0 <= v < |t| && t[v].phase.Queued? {
      var id := a[v];
      assert QueuedBits(t)[v];
      CountBounds(a, t, id);
      assert NodeAgrees(a, d.nodes[id], t, id) && v in d.nodes[id].pending;
      assert Eligible(d.nodes, id);
    } else {
      forall id
        ensures !Eligible(d.nodes, id)
      {
        if Eligible(d.nodes, id) {
          LaunchKeepsPlaces(a, d, t, id);
        }
      }
      assert forall v :: 0 <= v < |t| ==> !QueuedBits(t)[v];
    }
  }

  // ---------- The two levels of counting ----------

  ghost function SumOfCounts(ids: set<int>, nodes: Nodes): nat
    requires ids <= nodes.Keys
  {
    if ids == {} then 0
    else
      var id := Member(ids);
      nodes[id].active + SumOfCounts(ids - {id}, nodes)
  }

  ghost function Member<T>(s: set<T>): (x: T)
    requires s != {}
    ensures x in s
  {
    var x :| x in s; x
  }

  ghost function HeldAmongBits(a: seq<int>, t: Tracks, ids: set<int>): (bits: seq<bool>)
    requires |a| == |t|
    ensures |bits| == |t|
  {
    seq(|t|, v requires 0 <= v < |t| => IsHeld(t[v].phase) && a[v] in ids)
  }

  lemma {:induction false} SumIsHeldAmong(a: seq<int>, d: Desk, t: Tracks, ids: set<int>)
    requires PlacesAgree(a, d, t) && ids <= d.nodes.Keys
    ensures SumOfCounts(ids, d.nodes) == Tally(HeldAmongBits(a, t, ids))
    decreases |ids|
  {
    if ids == {} {
      TallyZero(HeldAmongBits(a, t, ids));
    } else {
      var id := Member(ids);
      SumIsHeldAmong(a, d, t, ids - {id});
      TallySplit(HeldAmongBits(a, t, ids), HeldAtBits(a, t, id), HeldAmongBits(a, t, ids - {id}));
      assert NodeAgrees(a, d.nodes[id], t, id);
    }
  }

  // active_stream_count_ of the orchestrator, the sum of the nodes' counts and the number
  // of attempts under way are the same number.
  lemma CountsAgree(a: seq<int>, d: Desk, t: Tracks)
    requires PlacesAgree(a, d, t)
    ensures d.active == SumOfCounts(d.nodes.Keys, d.nodes) == HeldCount(t)
  {
    SumIsHeldAmong(a, d, t, d.nodes.Keys);
    assert HeldAmongBits(a, t, d.nodes.Keys) == HeldBits(t);
  }
}
