/**
 What restart_sessions repairs. A new session is put at the index of its node among all
 nodes instead of its slot among those with a key-value port, so the repair works where the
 two are the same.
 */
module BucketRestart {
  import opened BucketConfig
  import opened BucketSessions

  // ---------- The nodes as slots ----------

  // For each slot its endpoint, and the index of its node.
  datatype Plan = Plan(kv: seq<Endpoint>, index: seq<nat>)

  ghost predicate ValidPlan(p: Plan) {
    && |p.kv| == |p.index|
    && (forall s :: 0 <= s < |p.index| ==> s <= p.index[s])
    && (forall s, t :: 0 <= s < t < |p.index| ==> p.index[s] < p.index[t])
  }

  function PlanOf(endpoints: seq<Endpoint>): (p: Plan)
    ensures |p.kv| == |p.index|
  {
    if endpoints == [] then Plan([], [])
    else
      var n := |endpoints| - 1;
      var shorter := PlanOf(endpoints[..n]);
      if endpoints[n].port == 0 then shorter else Plan(shorter.kv + [endpoints[n]], shorter.index + [n])
  }

  // Slot s is that of node s: all nodes up to it have a key-value port.
  ghost predicate AllPorts(endpoints: seq<Endpoint>, s: nat) {
    s < |endpoints| && forall j :: 0 <= j <= s ==> endpoints[j].port != 0
  }

  lemma {:induction false} PlanIsValid(endpoints: seq<Endpoint>)
    ensures ValidPlan(PlanOf(endpoints)) && PlanOf(endpoints).kv == KvEndpoints(endpoints)
    ensures |PlanOf(endpoints).kv| <= |endpoints|
    ensures forall s :: 0 <= s < |PlanOf(endpoints).index| ==> PlanOf(endpoints).index[s] < |endpoints|
  {
    if endpoints != [] {
      PlanIsValid(endpoints[..|endpoints| - 1]);
    }
  }

  lemma {:induction false} PlanOfAllPorts(endpoints: seq<Endpoint>)
    ensures |PlanOf(endpoints).kv| <= |endpoints|
    ensures |PlanOf(endpoints).kv| == |endpoints| <==> forall i :: 0 <= i < |endpoints| ==> endpoints[i].port != 0
  {
    if endpoints != [] {
      PlanOfAllPorts(endpoints[..|endpoints| - 1]);
    }
  }

  lemma {:induction false} IndexIsSlotExactlyWhen(endpoints: seq<Endpoint>, s: nat)
    requires s < |PlanOf(endpoints).index|
    ensures PlanOf(endpoints).index[s] == s <==> AllPorts(endpoints, s)
  {
    var n := |endpoints| - 1;
    var shorter := PlanOf(endpoints[..n]);
    PlanOfAllPorts(endpoints[..n]);
    if s < |shorter.index| {
      IndexIsSlotExactlyWhen(endpoints[..n], s);
    } else if AllPorts(endpoints, s) && s < n {
      PlanOfPrefix(endpoints[..n], s + 1);
      assert endpoints[..n][..s + 1] == endpoints[..s + 1];
      PlanOfAllPorts(endpoints[..s + 1]);
    }
  }

  ghost predicate PlanPrefix(p: Plan, longer: Plan) {
    p.kv <= longer.kv && p.index <= longer.index
  }

  lemma {:induction false} PlanOfPrefix(endpoints: seq<Endpoint>, i: nat)
    requires i <= |endpoints|
    ensures PlanPrefix(PlanOf(endpoints[..i]), PlanOf(endpoints))
    decreases |endpoints|
  {
    if i < |endpoints| {
      var shorter := endpoints[..|endpoints| - 1];
      PlanOfPrefix(shorter, i);
      assert shorter[..i] == endpoints[..i];
    } else {
      assert endpoints[..i] == endpoints;
    }
  }

  lemma PlanOfNext(endpoints: seq<Endpoint>, i: nat)
    requires i < |endpoints|
    ensures var before, p := PlanOf(endpoints[..i]), PlanOf(endpoints);
            if endpoints[i].port == 0 then PlanOf(endpoints[..i + 1]) == before
            else
              && |PlanOf(endpoints[..i + 1]).kv| == |before.kv| + 1 <= |p.kv|
              && p.kv[|before.kv|] == endpoints[i] && p.index[|before.kv|] == i
  {
    var next := PlanOf(endpoints[..i + 1]);
    assert endpoints[..i + 1][..i] == endpoints[..i];
    PlanOfPrefix(endpoints, i + 1);
    if endpoints[i].port != 0 {
      var s := |next.kv| - 1;
      assert next.kv[s] == PlanOf(endpoints).kv[s] && next.index[s] == PlanOf(endpoints).index[s];
    }
  }

  ghost function StepAt(p: Plan, s: nat, sessions: Sessions, id: nat): Sessions
    requires s < |p.kv| == |p.index|
  {
    RestartStep(sessions, p.kv[s], p.index[s], s, id)
  }

  ghost function NextId(p: Plan, s: nat, sessions: Sessions, id: nat): nat
    requires s < |p.kv|
  {
    if Has(sessions, p.kv[s]) then id else id + 1
  }

  ghost function RestartFrom(p: Plan, s: nat, sessions: Sessions, id: nat): Sessions
    requires s <= |p.kv| == |p.index|
    decreases |p.kv| - s
  {
    if s == |p.kv| then sessions else RestartFrom(p, s + 1, StepAt(p, s, sessions, id), NextId(p, s, sessions, id))
  }

  lemma {:induction false} RestartGoesBySlots(endpoints: seq<Endpoint>, i: nat, sessions: Sessions, id: nat)
    requires i <= |endpoints|
    ensures |PlanOf(endpoints[..i]).kv| <= |PlanOf(endpoints).kv|
    ensures Restart(endpoints, i, |PlanOf(endpoints[..i]).kv|, sessions, id)
         == RestartFrom(PlanOf(endpoints), |PlanOf(endpoints[..i]).kv|, sessions, id)
    decreases |endpoints| - i
  {
    PlanOfPrefix(endpoints, i);
    if i == |endpoints| {
      assert endpoints[..i] == endpoints;
    } else {
      PlanOfNext(endpoints, i);
      if endpoints[i].port == 0 {
        RestartGoesBySlots(endpoints, i + 1, sessions, id);
      } else {
        var slot := |PlanOf(endpoints[..i]).kv|;
        RestartGoesBySlots(endpoints, i + 1, RestartStep(sessions, endpoints[i], i, slot, id),
                           if Has(sessions, endpoints[i]) then id else id + 1);
      }
    }
  }

  lemma RestartIsBySlots(endpoints: seq<Endpoint>, sessions: Sessions, id: nat)
    ensures Restart(endpoints, 0, 0, sessions, id) == RestartFrom(PlanOf(endpoints), 0, sessions, id)
    ensures ValidPlan(PlanOf(endpoints)) && PlanOf(endpoints).kv == KvEndpoints(endpoints)
  {
    assert endpoints[..0] == [];
    RestartGoesBySlots(endpoints, 0, sessions, id);
    PlanIsValid(endpoints);
  }

  // ---------- Which nodes have every session map repaired ----------

  // Slot i has a session of the i-th key-value node.
  ghost predicate Filled(sessions: Sessions, kv: seq<Endpoint>) {
    FilledBelow(sessions, kv, |kv|)
  }

  // The slots below i are in order.
  ghost predicate FilledBelow(sessions: Sessions, kv: seq<Endpoint>, i: nat) {
    i <= |kv| && forall j :: 0 <= j < i ==> j in sessions && sessions[j].endpoint == kv[j]
  }

  ghost predicate NoGapBeforeKv(endpoints: seq<Endpoint>) {
    forall i, j :: 0 <= j < i < |endpoints| && endpoints[i].port != 0 ==> endpoints[j].port != 0
  }

  ghost predicate Distinct(kv: seq<Endpoint>) {
    DistinctBelow(kv, |kv|)
  }

  ghost predicate DistinctBelow(kv: seq<Endpoint>, s: nat) {
    s <= |kv| && forall i, j :: 0 <= i < j < s ==> kv[i] != kv[j]
  }

  ghost predicate Repairable(endpoints: seq<Endpoint>) {
    NoGapBeforeKv(endpoints) && Distinct(KvEndpoints(endpoints))
  }

  ghost predicate InPlace(p: Plan) {
    forall s :: 0 <= s < |p.index| ==> p.index[s] == s
  }

  lemma NoGapMeansInPlace(endpoints: seq<Endpoint>)
    ensures NoGapBeforeKv(endpoints) <==> InPlace(PlanOf(endpoints))
  {
    var p := PlanOf(endpoints);
    if NoGapBeforeKv(endpoints) {
      forall s | 0 <= s < |p.index|
        ensures p.index[s] == s
      {
        PlanHasPorts(endpoints, s);
        assert AllPorts(endpoints, s);
        IndexIsSlotExactlyWhen(endpoints, s);
      }
    }
    if InPlace(p) {
      forall i, j | 0 <= j < i < |endpoints| && endpoints[i].port != 0
        ensures endpoints[j].port != 0
      {
        PlanOfNext(endpoints, i);
        IndexIsSlotExactlyWhen(endpoints, i);
      }
    }
  }

  lemma PlanHasPorts(endpoints: seq<Endpoint>, s: nat)
    requires s < |PlanOf(endpoints).index|
    ensures s <= PlanOf(endpoints).index[s] < |endpoints| && endpoints[PlanOf(endpoints).index[s]].port != 0
  {
    PlanIsValid(endpoints);
    PlanKeepsPorts(endpoints, s);
  }

  lemma {:induction false} PlanKeepsPorts(endpoints: seq<Endpoint>, s: nat)
    requires s < |PlanOf(endpoints).index|
    ensures PlanOf(endpoints).index[s] < |endpoints| && endpoints[PlanOf(endpoints).index[s]].port != 0
  {
    var n := |endpoints| - 1;
    if s < |PlanOf(endpoints[..n]).index| {
      PlanKeepsPorts(endpoints[..n], s);
    }
  }

  lemma RepairableInSlots(endpoints: seq<Endpoint>)
    ensures Repairable(endpoints) <==> InPlace(PlanOf(endpoints)) && Distinct(PlanOf(endpoints).kv)
  {
    NoGapMeansInPlace(endpoints);
    PlanIsValid(endpoints);
  }

  /** The repair always works if and only if the nodes are repairable. */
  lemma RestartRepairsExactlyWhen(endpoints: seq<Endpoint>)
    ensures Repairable(endpoints) <==>
              forall sessions: Sessions, id: nat ::
                Filled(Restart(endpoints, 0, 0, sessions, id), KvEndpoints(endpoints))
  {
    if Repairable(endpoints) {
      forall sessions: Sessions, id: nat
        ensures Filled(Restart(endpoints, 0, 0, sessions, id), KvEndpoints(endpoints))
      {
        RestartFills(endpoints, sessions, id);
      }
    } else {
      RestartFromEmptyFails(endpoints, 0);
    }
  }

  /** Slot i of repairable nodes ends with a session of node i, wherever the sessions were. */
  lemma RestartFills(endpoints: seq<Endpoint>, sessions: Sessions, id: nat)
    requires Repairable(endpoints)
    ensures Filled(Restart(endpoints, 0, 0, sessions, id), KvEndpoints(endpoints))
  {
    RestartIsBySlots(endpoints, sessions, id);
    RepairableInSlots(endpoints);
    SlotsAreFilled(PlanOf(endpoints), 0, sessions, id);
  }

  lemma {:induction false} SlotsAreFilled(p: Plan, s: nat, sessions: Sessions, id: nat)
    requires ValidPlan(p) && InPlace(p) && Distinct(p.kv) && FilledBelow(sessions, p.kv, s)
    ensures Filled(RestartFrom(p, s, sessions, id), p.kv)
    decreases |p.kv| - s
  {
    if s < |p.kv| {
      StepFills(p, s, sessions, id);
      SlotsAreFilled(p, s + 1, StepAt(p, s, sessions, id), NextId(p, s, sessions, id));
    }
  }

  lemma StepFills(p: Plan, s: nat, sessions: Sessions, id: nat)
    requires ValidPlan(p) && Distinct(p.kv) && FilledBelow(sessions, p.kv, s) && s < |p.kv| && p.index[s] == s
    ensures FilledBelow(StepAt(p, s, sessions, id), p.kv, s + 1)
  {
    if Has(sessions, p.kv[s]) {
      assert First(sessions, p.kv[s]) >= s;
    }
  }

  /** Without any session to begin with, the restart of other nodes leaves a slot empty. */
  lemma RestartFromEmptyFails(endpoints: seq<Endpoint>, id: nat)
    requires !Repairable(endpoints)
    ensures !Filled(Restart(endpoints, 0, 0, map[], id), KvEndpoints(endpoints))
  {
    RestartIsBySlots(endpoints, map[], id);
    RepairableInSlots(endpoints);
    SlotsFailFrom(PlanOf(endpoints), 0, map[], id);
  }

  // All goes well up to the first slot that is not that of its node, or whose endpoint is not
  // new.
  lemma {:induction false} SlotsFailFrom(p: Plan, s: nat, sessions: Sessions, id: nat)
    requires ValidPlan(p) && DistinctBelow(p.kv, s) && !(InPlace(p) && Distinct(p.kv))
    requires forall j :: 0 <= j < s ==> p.index[j] == j
    requires FilledBelow(sessions, p.kv, s) && forall j :: j in sessions ==> j < s
    ensures !Filled(RestartFrom(p, s, sessions, id), p.kv)
    decreases |p.kv| - s
  {
    if s < |p.kv| {
      if Has(sessions, p.kv[s]) {
        HoleStays(p, s + 1, StepAt(p, s, sessions, id), id, First(sessions, p.kv[s]));
      } else if p.index[s] != s {
        HoleStays(p, s + 1, StepAt(p, s, sessions, id), id + 1, s);
      } else {
        NextSlotIsNew(p, s, sessions);
        SlotsFailFrom(p, s + 1, StepAt(p, s, sessions, id), id + 1);
      }
    }
  }

  lemma NextSlotIsNew(p: Plan, s: nat, sessions: Sessions)
    requires s < |p.kv| && DistinctBelow(p.kv, s) && FilledBelow(sessions, p.kv, s) && !Has(sessions, p.kv[s])
    ensures DistinctBelow(p.kv, s + 1)
  {
  }

  // A slot that was left empty stays empty.
  lemma {:induction false} HoleStays(p: Plan, s: nat, sessions: Sessions, id: nat, hole: nat)
    requires ValidPlan(p) && s <= |p.kv| && hole !in sessions && hole < s
    ensures hole !in RestartFrom(p, s, sessions, id)
    decreases |p.kv| - s
  {
    if s < |p.kv| {
      HoleStays(p, s + 1, StepAt(p, s, sessions, id), NextId(p, s, sessions, id), hole);
    }
  }

  // ---------- Restarting sessions that are where they belong ----------

  // Every session is in the slot where it belongs; slots may be empty.
  ghost predicate Aligned(sessions: Sessions, kv: seq<Endpoint>) {
    forall i :: i in sessions ==> i < |kv| && sessions[i].endpoint == kv[i]
  }

  // Slot k is empty, or becomes a victim: the session of a node whose slot is empty is created
  // at the index of the node, over the one in the slot of that number. The overwritten one is
  // then missing in its turn.
  ghost predicate Loses(p: Plan, sessions: Sessions, k: nat)
    requires |p.kv| == |p.index|
    decreases k
  {
    k !in sessions || TakenOver(p, sessions, k, k)
  }

  // A slot below the limit loses its session, and gets its new one at position q.
  ghost predicate TakenOver(p: Plan, sessions: Sessions, q: nat, limit: nat)
    requires |p.kv| == |p.index|
    decreases limit, 0
  {
    exists u :: 0 <= u < limit && u < |p.index| && p.index[u] == q && Loses(p, sessions, u)
  }

  // What the restart has come to before slot s: what was not taken over is as it was, and what
  // was has its new session.
  ghost predicate Halfway(p: Plan, sessions: Sessions, firstNewId: nat, s: nat, now: Sessions)
    requires |p.kv| == |p.index|
  {
    && (forall q: nat :: !TakenOver(p, sessions, q, s) ==> SameAt(sessions, now, q))
    && (forall u: nat :: u < s && u < |p.index| && Loses(p, sessions, u) ==>
          NewAt(now, p.index[u], p.kv[u], firstNewId))
  }

  ghost predicate SameAt(sessions: Sessions, now: Sessions, q: nat) {
    (q in now <==> q in sessions) && (q in now ==> now[q] == sessions[q])
  }

  ghost predicate NewAt(now: Sessions, q: nat, e: Endpoint, firstNewId: nat) {
    q in now && now[q].endpoint == e && now[q].id >= firstNewId
  }

  lemma TakenOverBy(p: Plan, sessions: Sessions, q: nat, limit: nat) returns (u: nat)
    requires |p.kv| == |p.index| && TakenOver(p, sessions, q, limit)
    ensures u < limit && u < |p.index| && p.index[u] == q && Loses(p, sessions, u)
  {
    u :| 0 <= u < limit && u < |p.index| && p.index[u] == q && Loses(p, sessions, u);
  }

  // In its turn a slot has its session exactly if it has not lost it.
  lemma TurnOfSlot(p: Plan, sessions: Sessions, firstNewId: nat, s: nat, now: Sessions)
    requires ValidPlan(p) && Distinct(p.kv) && Aligned(sessions, p.kv) && s < |p.kv|
    requires Halfway(p, sessions, firstNewId, s, now)
    ensures Has(now, p.kv[s]) <==> !Loses(p, sessions, s)
    ensures Has(now, p.kv[s]) ==> First(now, p.kv[s]) == s
  {
    forall q: nat | q in now && now[q].endpoint == p.kv[s]
      ensures q == s && !Loses(p, sessions, s)
    {
      if TakenOver(p, sessions, q, s) {
        var u := TakenOverBy(p, sessions, q, s);
        assert false;
      }
      assert SameAt(sessions, now, q);
    }
    if !Loses(p, sessions, s) {
      assert SameAt(sessions, now, s);
    }
  }

  lemma OneMoreTakenOver(p: Plan, sessions: Sessions, q: nat, s: nat)
    requires |p.kv| == |p.index| && s < |p.index|
    ensures TakenOver(p, sessions, q, s + 1)
       <==> TakenOver(p, sessions, q, s) || (p.index[s] == q && Loses(p, sessions, s))
  {
    if TakenOver(p, sessions, q, s + 1) {
      var u := TakenOverBy(p, sessions, q, s + 1);
    }
    if TakenOver(p, sessions, q, s) {
      var u := TakenOverBy(p, sessions, q, s);
    }
  }

  lemma SlotGoesOn(p: Plan, sessions: Sessions, firstNewId: nat, s: nat, now: Sessions, id: nat)
    requires ValidPlan(p) && Distinct(p.kv) && Aligned(sessions, p.kv) && s < |p.kv| && id >= firstNewId
    requires Halfway(p, sessions, firstNewId, s, now)
    ensures Halfway(p, sessions, firstNewId, s + 1, StepAt(p, s, now, id))
  {
    TurnOfSlot(p, sessions, firstNewId, s, now);
    var next := StepAt(p, s, now, id);
    forall q: nat | !TakenOver(p, sessions, q, s + 1)
      ensures SameAt(sessions, next, q)
    {
      OneMoreTakenOver(p, sessions, q, s);
      assert SameAt(sessions, now, q);
    }
    forall u: nat | u < s + 1 && u < |p.index| && Loses(p, sessions, u)
      ensures NewAt(next, p.index[u], p.kv[u], firstNewId)
    {
      assert u < s ==> NewAt(now, p.index[u], p.kv[u], firstNewId);
    }
  }

  lemma {:induction false} SlotsGoOn(p: Plan, sessions: Sessions, firstNewId: nat, s: nat, now: Sessions, id: nat)
    requires ValidPlan(p) && Distinct(p.kv) && Aligned(sessions, p.kv) && s <= |p.kv| && id >= firstNewId
    requires Halfway(p, sessions, firstNewId, s, now)
    ensures Halfway(p, sessions, firstNewId, |p.kv|, RestartFrom(p, s, now, id))
    decreases |p.kv| - s
  {
    if s < |p.kv| {
      SlotGoesOn(p, sessions, firstNewId, s, now, id);
      SlotsGoOn(p, sessions, firstNewId, s + 1, StepAt(p, s, now, id), NextId(p, s, now, id));
    }
  }

  lemma AlignedRestart(p: Plan, sessions: Sessions, id: nat)
    requires ValidPlan(p) && Distinct(p.kv) && Aligned(sessions, p.kv)
    ensures Halfway(p, sessions, id, |p.kv|, RestartFrom(p, 0, sessions, id))
  {
    SlotsGoOn(p, sessions, id, 0, sessions, id);
  }

  // A slot with a session is lost only to a slot before it.
  lemma LosesToEarlier(p: Plan, sessions: Sessions, k: nat)
    requires ValidPlan(p) && k < |p.kv| && k in sessions
    ensures TakenOver(p, sessions, k, |p.kv|) <==> Loses(p, sessions, k)
  {
    if TakenOver(p, sessions, k, |p.kv|) {
      var u := TakenOverBy(p, sessions, k, |p.kv|);
      if u == k {
        var v := TakenOverBy(p, sessions, k, k);
        assert false;
      }
    }
    if Loses(p, sessions, k) {
      var u := TakenOverBy(p, sessions, k, k);
    }
  }

  /** From sessions that are where they belong, and whatever the nodes, the restart loses the
      session of a slot if and only if the slot is reached from an empty one by going from a
      slot to the index of its node. Every other session stays in its slot. */
  lemma AlignedRestartLosesExactlyWhen(endpoints: seq<Endpoint>, sessions: Sessions, id: nat, k: nat)
    requires Distinct(KvEndpoints(endpoints)) && Aligned(sessions, KvEndpoints(endpoints)) && k in sessions
    requires forall j :: j in sessions ==> sessions[j].id < id
    ensures var after := Restart(endpoints, 0, 0, sessions, id);
            && (sessions[k] !in after.Values <==> Loses(PlanOf(endpoints), sessions, k))
            && (sessions[k] in after.Values ==> k in after && after[k] == sessions[k])
  {
    RestartIsBySlots(endpoints, sessions, id);
    AlignedStays(PlanOf(endpoints), sessions, id, k);
  }

  lemma AlignedStays(p: Plan, sessions: Sessions, id: nat, k: nat)
    requires ValidPlan(p) && Distinct(p.kv) && Aligned(sessions, p.kv) && k in sessions && sessions[k].id < id
    ensures var after := RestartFrom(p, 0, sessions, id);
            && (!Loses(p, sessions, k) ==> k in after && after[k] == sessions[k])
            && (Loses(p, sessions, k) ==> sessions[k] !in after.Values)
  {
    var after := RestartFrom(p, 0, sessions, id);
    AlignedRestart(p, sessions, id);
    LosesToEarlier(p, sessions, k);
    if q: nat :| q in after && after[q] == sessions[k] {
      if TakenOver(p, sessions, q, |p.kv|) {
        var u := TakenOverBy(p, sessions, q, |p.kv|);
        assert NewAt(after, p.index[u], p.kv[u], id);
      } else {
        assert SameAt(sessions, after, q);
        assert p.kv[q] == p.kv[k];
      }
    }
  }

  // Only an empty slot that is not that of its node begins to take over others.
  lemma {:induction false} BeginsWithEmpty(p: Plan, sessions: Sessions, k: nat) returns (u: nat)
    requires ValidPlan(p) && k < |p.kv| && Loses(p, sessions, k) && (k in sessions || p.index[k] != k)
    ensures u <= k && u !in sessions && p.index[u] != u
    decreases k
  {
    u := k;
    if k in sessions {
      var v := TakenOverBy(p, sessions, k, k);
      u := BeginsWithEmpty(p, sessions, v);
    }
  }

  ghost predicate EmptyAreInPlace(p: Plan, sessions: Sessions)
    requires |p.kv| == |p.index|
  {
    forall s :: 0 <= s < |p.kv| && s !in sessions ==> p.index[s] == s
  }

  lemma RefillsInPlace(p: Plan, sessions: Sessions, id: nat)
    requires ValidPlan(p) && Distinct(p.kv) && Aligned(sessions, p.kv) && EmptyAreInPlace(p, sessions)
    ensures var after := RestartFrom(p, 0, sessions, id);
            Matches(after, p.kv) && forall k :: k in sessions ==> k in after && after[k] == sessions[k]
  {
    var after := RestartFrom(p, 0, sessions, id);
    AlignedRestart(p, sessions, id);
    forall u: nat | u < |p.kv|
      ensures Loses(p, sessions, u) <==> u !in sessions
    {
      if Loses(p, sessions, u) && u in sessions {
        var empty := BeginsWithEmpty(p, sessions, u);
      }
    }
    forall q: nat
      ensures TakenOver(p, sessions, q, |p.kv|) <==> q < |p.kv| && q !in sessions
    {
      if TakenOver(p, sessions, q, |p.kv|) {
        var u := TakenOverBy(p, sessions, q, |p.kv|);
      }
      if q < |p.kv| && q !in sessions {
        assert p.index[q] == q && Loses(p, sessions, q);
      }
    }
    forall q: nat
      ensures q in after <==> q < |p.kv|
      ensures q in after ==> after[q].endpoint == p.kv[q]
      ensures q in sessions ==> SameAt(sessions, after, q)
    {
      if q < |p.kv| && q !in sessions {
        assert p.index[q] == q && NewAt(after, p.index[q], p.kv[q], id);
      } else {
        assert SameAt(sessions, after, q);
      }
    }
  }

  lemma EmptyIsMisplaced(p: Plan, sessions: Sessions, id: nat, s: nat)
    requires ValidPlan(p) && Distinct(p.kv) && Aligned(sessions, p.kv)
    requires s < |p.kv| && s !in sessions && p.index[s] != s
    ensures !Aligned(RestartFrom(p, 0, sessions, id), p.kv)
  {
    AlignedRestart(p, sessions, id);
    assert NewAt(RestartFrom(p, 0, sessions, id), p.index[s], p.kv[s], id);
  }

  /** A restart of sessions that are where they belong makes them match if and only if no node
      without a key-value port comes before that of an empty slot; then every session stays
      in its slot. Otherwise some session ends where it does not belong. */
  lemma RestartRefillsExactlyWhen(endpoints: seq<Endpoint>, sessions: Sessions, id: nat)
    requires Distinct(KvEndpoints(endpoints)) && Aligned(sessions, KvEndpoints(endpoints))
    ensures var kv, after := KvEndpoints(endpoints), Restart(endpoints, 0, 0, sessions, id);
            && (Matches(after, kv) <==> forall s :: 0 <= s < |kv| && s !in sessions ==> AllPorts(endpoints, s))
            && (Aligned(after, kv) <==> Matches(after, kv))
            && (Matches(after, kv) ==> forall k :: k in sessions ==> k in after && after[k] == sessions[k])
  {
    var p := PlanOf(endpoints);
    RestartIsBySlots(endpoints, sessions, id);
    forall s | 0 <= s < |p.kv|
      ensures p.index[s] == s <==> AllPorts(endpoints, s)
    {
      IndexIsSlotExactlyWhen(endpoints, s);
    }
    if EmptyAreInPlace(p, sessions) {
      RefillsInPlace(p, sessions, id);
    } else {
      var s :| 0 <= s < |p.kv| && s !in sessions && p.index[s] != s;
      EmptyIsMisplaced(p, sessions, id, s);
    }
  }

  /** Removing a session from a map that matches and restarting makes it match again, with
      every other session in its slot, if and only if no node without a key-value port comes
      before the one whose session was removed. */
  lemma RemovalIsRepairedExactlyWhen(endpoints: seq<Endpoint>, sessions: Sessions, removed: nat, id: nat)
    requires Distinct(KvEndpoints(endpoints)) && Matches(sessions, KvEndpoints(endpoints))
    ensures var left := Without(sessions, removed);
            var after := Restart(endpoints, 0, 0, left, id);
            && (Matches(after, KvEndpoints(endpoints)) <==>
                  forall k :: k in sessions && sessions[k].id == removed ==> AllPorts(endpoints, k))
            && (Matches(after, KvEndpoints(endpoints)) ==> forall k :: k in left ==> k in after && after[k] == left[k])
  {
    RestartRefillsExactlyWhen(endpoints, Without(sessions, removed), id);
  }

  lemma KvOfOneMore(endpoints: seq<Endpoint>, e: Endpoint)
    ensures KvEndpoints(endpoints + [e]) == KvEndpoints(endpoints) + if e.port == 0 then [] else [e]
  {
    assert (endpoints + [e])[..|endpoints|] == endpoints;
  }

  lemma KvOfThree(n: Endpoint, b: Endpoint, c: Endpoint)
    requires n.port == 0 && b.port != 0 && c.port != 0
    ensures KvEndpoints([n, b, c]) == [b, c]
  {
    KvOfOneMore([], n);
    KvOfOneMore([n], b);
    KvOfOneMore([n, b], c);
    assert [] + [n] == [n] && [n] + [b] == [n, b] && [n, b] + [c] == [n, b, c];
  }

  /** A session that a rebuild has put where it belongs can be lost: of the nodes n, b and c the
      first has no key-value port. If the session of b goes, that of c is overwritten, and slot
      0 stays empty. */
  lemma RestartCanLoseALiveSession(n: Endpoint, b: Endpoint, c: Endpoint, gone: Session, live: Session, id: nat)
    requires n.port == 0 && b.port != 0 && c.port != 0 && b != c && gone.id != live.id && live.id < id
    requires gone.endpoint == b && live.endpoint == c
    ensures var sessions := map[0 := gone, 1 := live];
            && Rebuilt(map[], KvEndpoints([n, b, c]), sessions, map[], map[], 0)
            && Restart([n, b, c], 0, 0, Without(sessions, gone.id), id)
            == map[1 := Session(id, b, false), 2 := Session(id + 1, c, false)]
  {
    var nodes := [n, b, c];
    KvOfThree(n, b, c);
    var left := Without(map[0 := gone, 1 := live], gone.id);
    assert left == map[1 := live];
    var first := map[1 := Session(id, b, false)];
    var second := map[1 := Session(id, b, false), 2 := Session(id + 1, c, false)];
    assert RestartStep(left, b, 1, 0, id) == first;
    assert RestartStep(first, c, 2, 1, id + 1) == second;
    assert Restart(nodes, 3, 2, second, id + 2) == second;
    assert Restart(nodes, 2, 1, first, id + 1) == second;
  }
}
