/**
 The load balancer of a range scan: one queue of pending vbuckets and one count of
 active streams per node, and the choice of the next vbucket from a node that has
 the fewest active streams.
 */
module RangeScanBalancer {
  import opened Wrappers

  // Stream counts and vbucket ids are std::uint16_t.
  const UINT16_SIZE := 0x1_0000
  const UINT16_MAX := 0xFFFF

  function Increment16(x: nat): nat {
    (x + 1) % UINT16_SIZE
  }

  function Decrement16(x: nat): nat {
    (x + UINT16_MAX) % UINT16_SIZE
  }

  datatype NodeState = NodeState(active: nat, pending: seq<nat>) {
    // fetch_vbucket_id on a non-empty queue
    function Fetched(): NodeState
      requires pending != []
    {
      NodeState(Increment16(active), pending[1..])
    }

    function StreamEnded(): NodeState {
      NodeState(Decrement16(active), pending)
    }

    function Enqueued(vbucket: nat): NodeState {
      NodeState(active, pending + [vbucket])
    }
  }

  type Nodes = map<int, NodeState>

  // A node the selection loop can pick: it has something to do, and its count is
  // strictly below the initial minimum.
  predicate Eligible(nodes: Nodes, id: int) {
    id in nodes && nodes[id].pending != [] && nodes[id].active < UINT16_MAX
  }

  ghost predicate LeastLoaded(nodes: Nodes, id: int) {
    Eligible(nodes, id) &&
    forall other :: Eligible(nodes, other) ==> nodes[id].active <= nodes[other].active
  }

  ghost predicate NothingEligible(nodes: Nodes) {
    forall id :: !Eligible(nodes, id)
  }

  // The vbuckets below n whose active node is id, in ascending order.
  ghost function QueueOf(activeNodes: seq<int>, id: int, n: nat): (queue: seq<nat>)
    requires n <= |activeNodes|
  {
    if n == 0 then []
    else
      var shorter := QueueOf(activeNodes, id, n - 1);
      if activeNodes[n - 1] == id then shorter + [n - 1] else shorter
  }

  ghost function Partition(activeNodes: seq<int>): Nodes {
    map id | id in activeNodes :: NodeState(0, QueueOf(activeNodes, id, |activeNodes|))
  }

  lemma OneNodeChanged(before: Nodes, after: Nodes, id: int, node: NodeState)
    requires after.Keys == before.Keys && id in after && after[id] == node
    requires forall other :: other in after && other != id ==> after[other] == before[other]
    ensures after == before[id := node]
  {
  }

  // Every vbucket is queued exactly once, at its own active node, in ascending order.
  lemma {:induction false} QueueIsExact(activeNodes: seq<int>, id: int, n: nat)
    requires n <= |activeNodes|
    ensures forall v :: v in QueueOf(activeNodes, id, n) <==> 0 <= v < n && activeNodes[v] == id
    ensures forall i, j :: 0 <= i < j < |QueueOf(activeNodes, id, n)| ==>
                             QueueOf(activeNodes, id, n)[i] < QueueOf(activeNodes, id, n)[j]
  {
    if n > 0 {
      QueueIsExact(activeNodes, id, n - 1);
      var shorter := QueueOf(activeNodes, id, n - 1);
      forall i, j | 0 <= i < j < |QueueOf(activeNodes, id, n)|
        ensures QueueOf(activeNodes, id, n)[i] < QueueOf(activeNodes, id, n)[j]
      {
        assert i < |shorter| && shorter[i] in shorter;
      }
    }
  }

  lemma QueuesArePartition(activeNodes: seq<int>, queues: map<int, seq<nat>>)
    requires forall id :: id in queues <==> QueueOf(activeNodes, id, |activeNodes|) != []
    requires forall id :: id in queues ==> queues[id] == QueueOf(activeNodes, id, |activeNodes|)
    ensures (map id | id in queues :: NodeState(0, queues[id])) == Partition(activeNodes)
  {
    forall id
      ensures id in queues <==> id in activeNodes
    {
      var queue := QueueOf(activeNodes, id, |activeNodes|);
      QueueIsExact(activeNodes, id, |activeNodes|);
      if queue != [] {
        assert queue[0] in queue;
      }
      if id in activeNodes {
        var v :| 0 <= v < |activeNodes| && activeNodes[v] == id;
        assert v in queue;
      }
    }
  }

  // std::iota and std::shuffle: some order of the ids.
  method Shuffled<T(==)>(ids: set<T>) returns (order: seq<T>)
    ensures multiset(order) == multiset(ids)
  {
    order := [];
    var rest := ids;
    while rest != {}
      invariant multiset(order) + multiset(rest) == multiset(ids)
    {
      var id :| id in rest;
      assert multiset(rest) == multiset(rest - {id}) + multiset{id};
      order := order + [id];
      rest := rest - {id};
    }
  }

  class RangeScanLoadBalancer {
    var nodes: Nodes

    // activeNodes[v] is the first entry of row v of the vbucket map: the active node of v.
    constructor (activeNodes: seq<int>)
      requires |activeNodes| <= UINT16_SIZE
      ensures nodes == Partition(activeNodes)
    {
      var queues: map<int, seq<nat>> := map[];
      for v := 0 to |activeNodes|
        invariant forall id :: id in queues <==> QueueOf(activeNodes, id, v) != []
        invariant forall id :: id in queues ==> queues[id] == QueueOf(activeNodes, id, v)
      {
        var id := activeNodes[v];
        queues := queues[id := (if id in queues then queues[id] else []) + [v]];
      }
      QueuesArePartition(activeNodes, queues);
      nodes := map id | id in queues :: NodeState(0, queues[id]);
    }

    method SelectVbucket() returns (vbucket: Option<nat>, ghost picked: int)
      modifies this
      ensures vbucket.None? <==> NothingEligible(old(nodes))
      ensures vbucket.None? ==> nodes == old(nodes)
      ensures vbucket.Some? ==>
                && LeastLoaded(old(nodes), picked)
                && vbucket.value == old(nodes)[picked].pending[0]
                && nodes == old(nodes)[picked := old(nodes)[picked].Fetched()]
    {
      var minStreamCount := UINT16_MAX;
      var selected: Option<int> := None;
      var order := Shuffled(nodes.Keys);
      assert forall id :: id in order <==> id in multiset(order);
      for i := 0 to |order|
        invariant selected.None? ==> minStreamCount == UINT16_MAX
        invariant selected.None? ==> forall j :: 0 <= j < i ==> !Eligible(nodes, order[j])
        invariant selected.Some? ==>
                    && Eligible(nodes, selected.value)
                    && minStreamCount == nodes[selected.value].active
        invariant selected.Some? ==>
                    forall j :: 0 <= j < i && Eligible(nodes, order[j]) ==> minStreamCount <= nodes[order[j]].active
      {
        var id := order[i];
        assert id in order;
        if nodes[id].active < minStreamCount && |nodes[id].pending| > 0 {
          minStreamCount := nodes[id].active;
          selected := Some(id);
        }
      }
      picked := 0;
      forall id | Eligible(nodes, id)
        ensures exists j :: 0 <= j < |order| && order[j] == id
      {
        assert id in order;
      }
      if selected.None? {
        return None, 0;
      }
      picked := selected.value;
      vbucket := Some(nodes[selected.value].pending[0]);
      nodes := nodes[selected.value := nodes[selected.value].Fetched()];
    }

    method NotifyStreamEnded(id: int)
      requires id in nodes
      modifies this
      ensures nodes.Keys == old(nodes).Keys
      ensures forall other :: other in nodes && other != id ==> nodes[other] == old(nodes)[other]
      ensures nodes[id].pending == old(nodes)[id].pending && nodes[id].active == Decrement16(old(nodes)[id].active)
      ensures 0 < old(nodes)[id].active <= UINT16_MAX ==> nodes[id].active == old(nodes)[id].active - 1
      ensures old(nodes)[id].active == 0 ==> nodes[id].active == UINT16_MAX
    {
      nodes := nodes[id := nodes[id].StreamEnded()];
    }

    method EnqueueVbucket(id: int, vbucket: nat)
      requires id in nodes
      modifies this
      ensures nodes.Keys == old(nodes).Keys
      ensures forall other :: other in nodes && other != id ==> nodes[other] == old(nodes)[other]
      ensures nodes[id].active == old(nodes)[id].active && nodes[id].pending == old(nodes)[id].pending + [vbucket]
    {
      nodes := nodes[id := nodes[id].Enqueued(vbucket)];
    }
  }
}
