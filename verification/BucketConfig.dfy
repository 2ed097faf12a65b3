/**
 Cluster configurations as a bucket sees them: which one is newer, which nodes differ, and
 the key-value endpoints that its sessions have to follow.
 */
module BucketConfig {
  import opened Wrappers

  const DEFAULT_NETWORK := "default"

  datatype Address = Address(hostname: string, plainKv: Option<nat>, tlsKv: Option<nat>)

  datatype Endpoint = Endpoint(hostname: string, port: nat)

  // How the bucket reaches the cluster: origin_.options()
  datatype Options = Options(network: string, tls: bool)

  datatype Node = Node(address: Address, alt: map<string, Address>) {
    function AddressFor(network: string): Address {
      if network != DEFAULT_NETWORK && network in alt then alt[network] else address
    }

    // hostname_for() and port_or() of the key-value service, with port 0 for none
    function EndpointFor(o: Options): Endpoint {
      var a := AddressFor(o.network);
      Endpoint(a.hostname, (if o.tls then a.tlsKv else a.plainKv).GetOr(0))
    }

    // operator!= looks at the default address only
    predicate Differs(other: Node) {
      address != other.address
    }
  }

  datatype Config = Config(
    epoch: Option<int>,
    rev: Option<int>,
    nodes: seq<Node>,
    vbmap: Option<seq<seq<int>>>,
    force: bool
  )

  // std::optional's ordering: nothing is less than something
  predicate OptionLess(a: Option<int>, b: Option<int>) {
    b.Some? && (a.None? || a.value < b.value)
  }

  predicate Older(a: Config, b: Config) {
    OptionLess(a.epoch, b.epoch) || (a.epoch == b.epoch && OptionLess(a.rev, b.rev))
  }

  predicate Accepts(current: Option<Config>, config: Config) {
    && config.vbmap != Some([])
    && (current.None? || config.force || (config.vbmap.Some? && Older(current.value, config)))
  }

  // ---------- Endpoints ----------

  function Endpoints(o: Options, nodes: seq<Node>): (endpoints: seq<Endpoint>)
    ensures |endpoints| == |nodes|
  {
    seq(|nodes|, i requires 0 <= i < |nodes| => nodes[i].EndpointFor(o))
  }

  // The endpoints that have a key-value port, in order.
  function KvEndpoints(endpoints: seq<Endpoint>): seq<Endpoint> {
    if endpoints == [] then []
    else
      var shorter := KvEndpoints(endpoints[..|endpoints| - 1]);
      var last := endpoints[|endpoints| - 1];
      if last.port == 0 then shorter else shorter + [last]
  }

  // The node is reached there: its address on the network, or else its own; its key-value port
  // with TLS or without, if it has one.
  ghost predicate Reaches(o: Options, n: Node, e: Endpoint) {
    var a := if o.network != "default" && o.network in n.alt then n.alt[o.network] else n.address;
    e.hostname == a.hostname && e.port != 0 && (if o.tls then a.tlsKv else a.plainKv) == Some(e.port)
  }

  /** The slots are for exactly the endpoints where some node is reached. */
  lemma SlotsReachNodes(o: Options, nodes: seq<Node>, e: Endpoint)
    ensures e in KvEndpoints(Endpoints(o, nodes)) <==> exists n :: n in nodes && Reaches(o, n, e)
  {
    KvEndpointsHavePorts(Endpoints(o, nodes), e);
    if e in Endpoints(o, nodes) && e.port != 0 {
      var i :| 0 <= i < |nodes| && Endpoints(o, nodes)[i] == e;
      assert nodes[i] in nodes && Reaches(o, nodes[i], e);
    }
    if n :| n in nodes && Reaches(o, n, e) {
      var i :| 0 <= i < |nodes| && nodes[i] == n;
      assert Endpoints(o, nodes)[i] == e;
    }
  }

  lemma {:induction false} KvEndpointsHavePorts(endpoints: seq<Endpoint>, e: Endpoint)
    ensures e in KvEndpoints(endpoints) <==> e in endpoints && e.port != 0
  {
    if endpoints != [] {
      KvEndpointsHavePorts(endpoints[..|endpoints| - 1], e);
    }
  }

  // ---------- What has changed ----------

  method DiffNodes(o: Options, lhs: seq<Node>, rhs: seq<Node>) returns (output: seq<Node>)
    ensures forall n :: n in output <==> n in rhs && n.EndpointFor(o) !in Endpoints(o, lhs)
    ensures output == [] <==> forall i :: 0 <= i < |rhs| ==> rhs[i].EndpointFor(o) in Endpoints(o, lhs)
  {
    output := [];
    for i := 0 to |rhs|
      invariant forall n :: n in output <==> n in rhs[..i] && n.EndpointFor(o) !in Endpoints(o, lhs)
    {
      var known := false;
      var j := 0;
      while j < |lhs| && !known
        invariant j <= |lhs|
        invariant known ==> rhs[i].EndpointFor(o) in Endpoints(o, lhs)
        invariant !known ==> rhs[i].EndpointFor(o) !in Endpoints(o, lhs)[..j]
      {
        if rhs[i].EndpointFor(o) == lhs[j].EndpointFor(o) {
          assert Endpoints(o, lhs)[j] == lhs[j].EndpointFor(o);
          known := true;
        }
        j := j + 1;
      }
      assert Endpoints(o, lhs)[..|lhs|] == Endpoints(o, lhs);
      if !known {
        output := output + [rhs[i]];
      }
      assert rhs[..i + 1] == rhs[..i] + [rhs[i]];
    }
    assert rhs[..|rhs|] == rhs;
    NothingNew(o, lhs, rhs, output);
  }

  lemma NothingNew(o: Options, lhs: seq<Node>, rhs: seq<Node>, output: seq<Node>)
    requires forall n :: n in output <==> n in rhs && n.EndpointFor(o) !in Endpoints(o, lhs)
    ensures output == [] <==> forall i :: 0 <= i < |rhs| ==> rhs[i].EndpointFor(o) in Endpoints(o, lhs)
  {
    if output != [] {
      assert output[0] in output;
      var i :| 0 <= i < |rhs| && rhs[i] == output[0];
    }
    forall i | 0 <= i < |rhs| && rhs[i].EndpointFor(o) !in Endpoints(o, lhs)
      ensures output != []
    {
      assert rhs[i] in output;
    }
  }

  ghost predicate SameEndpointSets(o: Options, a: seq<Node>, b: seq<Node>) {
    forall e :: e in Endpoints(o, a) <==> e in Endpoints(o, b)
  }

  ghost predicate SameSequence(a: seq<Node>, b: seq<Node>) {
    |a| == |b| && forall i :: 0 <= i < |a| ==> !b[i].Differs(a[i])
  }

  // Whether update_config rebuilds the sessions. `added` and `removed` are by endpoint,
  // the comparison of the sequences is by default address.
  method NodesChanged(o: Options, before: Option<seq<Node>>, nodes: seq<Node>) returns (changed: bool)
    ensures changed <==> before.None? || !SameEndpointSets(o, before.value, nodes) || !SameSequence(before.value, nodes)
  {
    if before.None? {
      return true;
    }
    var unequal := EndpointsChanged(o, before.value, nodes);
    if unequal || |nodes| != |before.value| {
      return true;
    }
    for i := 0 to |nodes|
      invariant forall j :: 0 <= j < i ==> !nodes[j].Differs(before.value[j])
    {
      if nodes[i].Differs(before.value[i]) {
        return true;
      }
    }
    return false;
  }

  method EndpointsChanged(o: Options, before: seq<Node>, nodes: seq<Node>) returns (changed: bool)
    ensures changed <==> !SameEndpointSets(o, before, nodes)
  {
    var added := DiffNodes(o, before, nodes);
    var removed := DiffNodes(o, nodes, before);
    NoDifferenceMeansSameSet(o, before, nodes);
    return added != [] || removed != [];
  }

  lemma NoDifferenceMeansSameSet(o: Options, a: seq<Node>, b: seq<Node>)
    ensures SameEndpointSets(o, a, b) <==>
              && (forall i :: 0 <= i < |b| ==> b[i].EndpointFor(o) in Endpoints(o, a))
              && (forall i :: 0 <= i < |a| ==> a[i].EndpointFor(o) in Endpoints(o, b))
  {
    forall i | 0 <= i < |b|
      ensures b[i].EndpointFor(o) in Endpoints(o, b)
    {
      assert Endpoints(o, b)[i] == b[i].EndpointFor(o);
    }
    forall i | 0 <= i < |a|
      ensures a[i].EndpointFor(o) in Endpoints(o, a)
    {
      assert Endpoints(o, a)[i] == a[i].EndpointFor(o);
    }
  }

  // ---------- What the change test misses ----------

  /** On the default network nothing is missed: if it sees no change, every node keeps its
      endpoint. */
  lemma DefaultNetworkMissesNothing(o: Options, a: seq<Node>, b: seq<Node>)
    requires o.network == DEFAULT_NETWORK && SameSequence(a, b)
    ensures Endpoints(o, a) == Endpoints(o, b)
  {
    forall i | 0 <= i < |a|
      ensures a[i].EndpointFor(o) == b[i].EndpointFor(o)
    {
      assert !b[i].Differs(a[i]);
    }
  }

  /** On an alternate network two nodes can trade places unseen. */
  lemma AlternateNetworkMissesASwap(network: string, x: Address, y: Address, p: Address, q: Address)
    requires network != DEFAULT_NETWORK && x != y
    requires Node(p, map[network := x]).EndpointFor(Options(network, false))
          != Node(q, map[network := y]).EndpointFor(Options(network, false))
    ensures var o := Options(network, false);
            var a, b := [Node(p, map[network := x]), Node(q, map[network := y])],
                        [Node(p, map[network := y]), Node(q, map[network := x])];
            SameEndpointSets(o, a, b) && SameSequence(a, b) && Endpoints(o, a)[0] != Endpoints(o, b)[0]
  {
    var o := Options(network, false);
    var a, b := [Node(p, map[network := x]), Node(q, map[network := y])],
                [Node(p, map[network := y]), Node(q, map[network := x])];
    assert Endpoints(o, a)[0] == Endpoints(o, b)[1] && Endpoints(o, a)[1] == Endpoints(o, b)[0];
  }

  // ---------- Which configuration wins ----------

  function Settle(arrivals: seq<Config>): Option<Config> {
    if arrivals == [] then None
    else
      var before := Settle(arrivals[..|arrivals| - 1]);
      var config := arrivals[|arrivals| - 1];
      if Accepts(before, config) then Some(config) else before
  }

  /** What is held is replaced by the next arrival, unless that has an empty partition map, if it
      is forced, or if it has a partition map and a later epoch, or the same epoch and a later
      revision, where a missing number is before every other. */
  lemma ReplacedExactlyWhen(arrivals: seq<Config>, held: Config, config: Config)
    requires Settle(arrivals) == Some(held)
    ensures Settle(arrivals + [config]) == Some(
              if config.vbmap == Some([]) then held
              else if config.force then config
              else if config.vbmap.None? then held
              else match (held.epoch, config.epoch)
                case (Some(x), Some(y)) =>
                  if x == y then LaterRevision(held, config) else if x < y then config else held
                case (None, Some(_)) => config
                case (Some(_), None) => held
                case (None, None) => LaterRevision(held, config))
  {
    assert (arrivals + [config])[..|arrivals|] == arrivals;
  }

  function LaterRevision(held: Config, config: Config): Config {
    match (held.rev, config.rev)
    case (Some(x), Some(y)) => if x < y then config else held
    case (None, Some(_)) => config
    case (_, None) => held
  }

  // A configuration with an empty partition map is never taken.
  predicate Usable(c: Config) {
    c.vbmap != Some([])
  }

  // One without a partition map, unless it is forced, is taken only if there is none yet.
  predicate Contends(c: Config) {
    Usable(c) && c.vbmap.Some?
  }

  // Where the contest begins: with the last forced configuration, or else with the first
  // usable one.
  ghost predicate BeginsAt(arrivals: seq<Config>, b: nat) {
    && b < |arrivals| && Usable(arrivals[b])
    && (forall i :: b < i < |arrivals| && Usable(arrivals[i]) ==> !arrivals[i].force)
    && (arrivals[b].force || forall i :: 0 <= i < b ==> !Usable(arrivals[i]))
  }

  // The numbers of a configuration, the epoch first; one that is missing comes before any other.
  function Rank(c: Config): seq<int> {
    Digits(c.epoch) + Digits(c.rev)
  }

  function Digits(number: Option<int>): seq<int> {
    if number.None? then [0, 0] else [1, number.value]
  }

  ghost predicate LexicographicLess(a: seq<int>, b: seq<int>) {
    |a| == |b| && exists k :: FirstDifferenceIsLess(a, b, k)
  }

  ghost predicate FirstDifferenceIsLess(a: seq<int>, b: seq<int>, k: nat)
    requires |a| == |b|
  {
    k < |a| && a[k] < b[k] && forall j :: 0 <= j < k ==> a[j] == b[j]
  }

  lemma OlderIsLexicographic(a: Config, b: Config)
    ensures Older(a, b) <==> LexicographicLess(Rank(a), Rank(b))
  {
    var x, y := Rank(a), Rank(b);
    if Older(a, b) {
      var k := if a.epoch == b.epoch then if a.rev.None? then 2 else 3 else if a.epoch.None? then 0 else 1;
      assert FirstDifferenceIsLess(x, y, k);
    }
    if k: nat :| FirstDifferenceIsLess(x, y, k) {
      assert k == 0 || x[0] == y[0];
      assert k <= 1 || x[1] == y[1];
      assert k <= 2 || x[2] == y[2];
    }
  }

  // Configuration i is that one or contends later; it is the lexicographic maximum of these by
  // epoch and revision, and the first of them that is.
  ghost predicate Wins(arrivals: seq<Config>, b: nat, i: nat) {
    && b <= i < |arrivals| && (i == b || Contends(arrivals[i]))
    && (forall j :: b <= j < |arrivals| && (j == b || Contends(arrivals[j])) ==>
          !LexicographicLess(Rank(arrivals[i]), Rank(arrivals[j])))
    && (forall j :: b <= j < i && (j == b || Contends(arrivals[j])) ==>
          LexicographicLess(Rank(arrivals[j]), Rank(arrivals[i])))
  }

  lemma LessByWay(a: Config, b: Config, c: Config)
    requires !LexicographicLess(Rank(b), Rank(a)) && LexicographicLess(Rank(b), Rank(c))
    ensures LexicographicLess(Rank(a), Rank(c)) && !LexicographicLess(Rank(c), Rank(a))
  {
    OlderIsLexicographic(a, c);
    OlderIsLexicographic(b, a);
    OlderIsLexicographic(b, c);
    OlderIsLexicographic(c, a);
  }

  /** Whatever arrives, the bucket ends with the first of the newest configurations among the
      last forced one, or else the first usable one, and those with a partition map that came
      after it. It has none if and only if none was usable. */
  lemma {:induction false} NewestSinceForcedWins(arrivals: seq<Config>) returns (b: nat, i: nat)
    ensures Settle(arrivals).None? <==> forall k :: 0 <= k < |arrivals| ==> !Usable(arrivals[k])
    ensures Settle(arrivals).Some? ==>
              BeginsAt(arrivals, b) && Wins(arrivals, b, i) && Settle(arrivals) == Some(arrivals[i])
  {
    b, i := 0, 0;
    if arrivals != [] {
      var n := |arrivals| - 1;
      var earlier := arrivals[..n];
      b, i := NewestSinceForcedWins(earlier);
      var last := arrivals[n];
      OlderIsLexicographic(last, last);
      if Settle(earlier).None? {
        b, i := n, n;
      } else {
        if Usable(last) && last.force {
          b, i := n, n;
        } else {
          OneMoreArrival(earlier, last, b, i);
          if Contends(last) && Older(earlier[i], last) {
            i := n;
          }
        }
        assert earlier + [last] == arrivals;
      }
    }
  }

  lemma OneMoreArrival(arrivals: seq<Config>, last: Config, b: nat, i: nat)
    requires BeginsAt(arrivals, b) && Wins(arrivals, b, i) && !(Usable(last) && last.force)
    ensures BeginsAt(arrivals + [last], b)
    ensures Wins(arrivals + [last], b, if Contends(last) && Older(arrivals[i], last) then |arrivals| else i)
  {
    var more := arrivals + [last];
    OlderIsLexicographic(arrivals[i], last);
    OlderIsLexicographic(last, last);
    if Contends(last) && Older(arrivals[i], last) {
      forall j | b <= j < |arrivals| && (j == b || Contends(more[j]))
        ensures LexicographicLess(Rank(more[j]), Rank(last)) && !LexicographicLess(Rank(last), Rank(more[j]))
      {
        LessByWay(arrivals[j], arrivals[i], last);
      }
    }
  }
}
