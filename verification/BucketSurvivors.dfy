/**
 Which sessions survive a restart, wherever they are. A session that is not in the slot of
 its node waits for the turn of that slot. Until then it can be overwritten by one that is
 created in its place, or trade places with the session whose turn it is, and be in danger
 where that one was.
 */
module BucketSurvivors {
  import opened BucketConfig
  import opened BucketSessions
  import opened BucketRestart

  ghost predicate DistinctEndpoints(sessions: Sessions) {
    forall a, b :: a in sessions && b in sessions && a != b ==> sessions[a].endpoint != sessions[b].endpoint
  }

  ghost predicate DistinctIds(sessions: Sessions) {
    forall a, b :: a in sessions && b in sessions && a != b ==> sessions[a].id != sessions[b].id
  }

  ghost predicate DistinctSessions(sessions: Sessions) {
    DistinctEndpoints(sessions) && DistinctIds(sessions)
  }

  // The slot where a session of this endpoint belongs; beyond the last one if nowhere.
  ghost function Target(kv: seq<Endpoint>, e: Endpoint): (target: nat)
    ensures target <= |kv| && (target < |kv| ==> kv[target] == e) && (target == |kv| ==> e !in kv)
  {
    if e in kv then
      var i :| 0 <= i < |kv| && kv[i] == e;
      i
    else |kv|
  }

  // ---------- What becomes of a position ----------

  // With slot t next, what is at position q is overwritten before the turn of the limit, within
  // n moves: a slot without a session has its new one created there; or else in the turn of q
  // it is moved to where the session of q is, which is overwritten from there.
  ghost predicate LostWithin(sessions: Sessions, p: Plan, t: nat, q: nat, limit: nat, n: nat)
    requires |p.kv| == |p.index|
    decreases limit, 0, n
  {
    n > 0 &&
    (|| CreatedAt(sessions, p, t, q, limit)
     || (t <= q < |p.kv| && q < limit && !Gone(sessions, p, t, q) &&
         LostWithin(sessions, p, t, First(sessions, p.kv[q]), limit, n - 1)))
  }

  // A slot between t and the limit will have no session in its turn, and get a new one at q.
  ghost predicate CreatedAt(sessions: Sessions, p: Plan, t: nat, q: nat, limit: nat)
    requires |p.kv| == |p.index|
    decreases limit, 0, 0
  {
    exists u :: t <= u < |p.kv| && u < limit && p.index[u] == q && Gone(sessions, p, t, u)
  }

  ghost predicate LostBefore(sessions: Sessions, p: Plan, t: nat, q: nat, limit: nat)
    requires |p.kv| == |p.index|
    decreases limit, 1, 0
  {
    exists n: nat :: LostWithin(sessions, p, t, q, limit, n)
  }

  // The node of slot u has no session when its turn comes.
  ghost predicate Gone(sessions: Sessions, p: Plan, t: nat, u: nat)
    requires |p.kv| == |p.index| && u < |p.kv|
    decreases u, 2, 0
  {
    Has(sessions, p.kv[u]) ==> LostBefore(sessions, p, t, First(sessions, p.kv[u]), u)
  }

  // The session at position k is lost before its own turn.
  ghost predicate Lost(sessions: Sessions, p: Plan, t: nat, k: nat)
    requires |p.kv| == |p.index| && k in sessions
  {
    LostBefore(sessions, p, t, k, Target(p.kv, sessions[k].endpoint))
  }

  lemma LostUnfolds(sessions: Sessions, p: Plan, t: nat, q: nat, limit: nat)
    requires |p.kv| == |p.index|
    ensures LostBefore(sessions, p, t, q, limit) <==>
              || CreatedAt(sessions, p, t, q, limit)
              || (t <= q < |p.kv| && q < limit && !Gone(sessions, p, t, q) &&
                  LostBefore(sessions, p, t, First(sessions, p.kv[q]), limit))
  {
    if n: nat :| LostWithin(sessions, p, t, q, limit, n) && !CreatedAt(sessions, p, t, q, limit) {
      assert LostWithin(sessions, p, t, First(sessions, p.kv[q]), limit, n - 1);
    }
    if CreatedAt(sessions, p, t, q, limit) {
      assert LostWithin(sessions, p, t, q, limit, 1);
    } else if t <= q < |p.kv| && q < limit && !Gone(sessions, p, t, q) {
      if n: nat :| LostWithin(sessions, p, t, First(sessions, p.kv[q]), limit, n) {
        assert LostWithin(sessions, p, t, q, limit, n + 1);
      }
    }
  }

  lemma NothingLostInThePast(sessions: Sessions, p: Plan, t: nat, q: nat, limit: nat)
    requires |p.kv| == |p.index| && limit <= t
    ensures !LostBefore(sessions, p, t, q, limit)
  {
    LostUnfolds(sessions, p, t, q, limit);
  }

  // ---------- One step ----------

  ghost predicate Ready(sessions: Sessions, p: Plan, t: nat) {
    ValidPlan(p) && t < |p.kv| && Distinct(p.kv) && DistinctEndpoints(sessions)
  }

  lemma GoneNow(sessions: Sessions, p: Plan, t: nat)
    requires Ready(sessions, p, t)
    ensures Gone(sessions, p, t, t) <==> !Has(sessions, p.kv[t])
  {
    if Has(sessions, p.kv[t]) {
      NothingLostInThePast(sessions, p, t, First(sessions, p.kv[t]), t);
    }
  }

  lemma FirstIsTheOne(sessions: Sessions, k: nat)
    requires DistinctEndpoints(sessions) && k in sessions
    ensures Has(sessions, sessions[k].endpoint) && First(sessions, sessions[k].endpoint) == k
  {
  }

  lemma StepKeepsEndpoints(sessions: Sessions, e: Endpoint, index: nat, slot: nat, id: nat)
    requires DistinctEndpoints(sessions)
    ensures DistinctEndpoints(RestartStep(sessions, e, index, slot, id))
  {
  }

  // Where the step overwrites a session.
  ghost predicate Overwrites(sessions: Sessions, p: Plan, t: nat, q: nat)
    requires |p.kv| == |p.index| && t < |p.kv|
  {
    !Has(sessions, p.kv[t]) && q == p.index[t]
  }

  // Where the session of another slot is after the step: where it was, unless it was overwritten
  // or has made room in slot t.
  lemma NextAfterStep(sessions: Sessions, p: Plan, t: nat, id: nat, u: nat)
    requires Ready(sessions, p, t) && u < |p.kv| && u != t
    ensures var after, e := StepAt(p, t, sessions, id), p.kv[u];
            if !Has(sessions, e) || Overwrites(sessions, p, t, First(sessions, e)) then !Has(after, e)
            else Has(after, e) && First(after, e) == if First(sessions, e) == t && Has(sessions, p.kv[t])
                                                     then First(sessions, p.kv[t]) else First(sessions, e)
  {
    var after := StepAt(p, t, sessions, id);
    StepKeepsEndpoints(sessions, p.kv[t], p.index[t], t, id);
    if Has(sessions, p.kv[u]) && !Overwrites(sessions, p, t, First(sessions, p.kv[u])) {
      var q := First(sessions, p.kv[u]);
      var now := if q == t && Has(sessions, p.kv[t]) then First(sessions, p.kv[t]) else q;
      assert now in after && after[now] == sessions[q];
      FirstIsTheOne(after, now);
    }
  }

  lemma OverwrittenIsLost(sessions: Sessions, p: Plan, t: nat, q: nat, limit: nat)
    requires Ready(sessions, p, t) && t < limit && Overwrites(sessions, p, t, q)
    ensures LostBefore(sessions, p, t, q, limit)
  {
    GoneNow(sessions, p, t);
    assert CreatedAt(sessions, p, t, q, limit);
    LostUnfolds(sessions, p, t, q, limit);
  }

  // What is in slot t moves to where the session of slot t was; if there was none it stays, and
  // is out of danger.
  lemma OutOfSlot(sessions: Sessions, p: Plan, t: nat, id: nat, limit: nat)
    requires Ready(sessions, p, t) && t < limit
    ensures Has(sessions, p.kv[t]) ==>
              (LostBefore(sessions, p, t, t, limit) <==> LostBefore(sessions, p, t, First(sessions, p.kv[t]), limit))
    ensures !Has(sessions, p.kv[t]) && p.index[t] != t ==>
              !LostBefore(sessions, p, t, t, limit) && !LostBefore(StepAt(p, t, sessions, id), p, t + 1, t, limit)
  {
    GoneNow(sessions, p, t);
    LostUnfolds(sessions, p, t, t, limit);
    LostUnfolds(StepAt(p, t, sessions, id), p, t + 1, t, limit);
  }

  lemma GoneStays(sessions: Sessions, p: Plan, t: nat, id: nat, u: nat)
    requires Ready(sessions, p, t) && t < u < |p.kv|
    ensures Gone(sessions, p, t, u) <==> Gone(StepAt(p, t, sessions, id), p, t + 1, u)
    decreases u, 2, 0
  {
    NextAfterStep(sessions, p, t, id, u);
    if Has(sessions, p.kv[u]) {
      var q := First(sessions, p.kv[u]);
      if Overwrites(sessions, p, t, q) {
        OverwrittenIsLost(sessions, p, t, q, u);
      } else if q != t {
        SameDanger(sessions, p, t, id, q, u);
      } else {
        OutOfSlot(sessions, p, t, id, u);
        if Has(sessions, p.kv[t]) {
          FirstIsTheOne(sessions, t);
          SameDanger(sessions, p, t, id, First(sessions, p.kv[t]), u);
        }
      }
    }
  }

  // The step changes nothing about the danger of the other positions.
  lemma SameDanger(sessions: Sessions, p: Plan, t: nat, id: nat, q: nat, limit: nat)
    requires Ready(sessions, p, t) && t < limit && q != t && !Overwrites(sessions, p, t, q)
    ensures LostBefore(sessions, p, t, q, limit) <==> LostBefore(StepAt(p, t, sessions, id), p, t + 1, q, limit)
    decreases limit, 1, 0
  {
    var after, next := StepAt(p, t, sessions, id), t + 1;
    if n: nat :| LostWithin(sessions, p, t, q, limit, n) {
      DangerStays(sessions, p, t, id, q, limit, n);
    }
    if n: nat :| LostWithin(after, p, next, q, limit, n) {
      DangerWasThere(sessions, p, t, id, q, limit, n);
    }
  }

  lemma {:induction false} DangerStays(sessions: Sessions, p: Plan, t: nat, id: nat, q: nat, limit: nat, n: nat)
    requires Ready(sessions, p, t) && t < limit && q != t && !Overwrites(sessions, p, t, q)
    requires LostWithin(sessions, p, t, q, limit, n)
    ensures LostBefore(StepAt(p, t, sessions, id), p, t + 1, q, limit)
    decreases limit, 0, n
  {
    var after := StepAt(p, t, sessions, id);
    GoneNow(sessions, p, t);
    LostUnfolds(after, p, t + 1, q, limit);
    if CreatedAt(sessions, p, t, q, limit) {
      CreationStays(sessions, p, t, id, q, limit);
    } else {
      GoneStays(sessions, p, t, id, q);
      NextAfterStep(sessions, p, t, id, q);
      var next := First(sessions, p.kv[q]);
      if Overwrites(sessions, p, t, next) {
        OverwrittenIsLost(sessions, p, t, next, q);
      } else if next != t {
        DangerStays(sessions, p, t, id, next, limit, n - 1);
      } else if Has(sessions, p.kv[t]) {
        FirstIsTheOne(sessions, t);
        NotCreatedHere(sessions, p, t, limit);
        DangerStays(sessions, p, t, id, First(sessions, p.kv[t]), limit, n - 2);
      } else {
        OutOfSlot(sessions, p, t, id, limit);
      }
    }
  }

  lemma {:induction false} DangerWasThere(sessions: Sessions, p: Plan, t: nat, id: nat, q: nat, limit: nat, n: nat)
    requires Ready(sessions, p, t) && t < limit && q != t && !Overwrites(sessions, p, t, q)
    requires LostWithin(StepAt(p, t, sessions, id), p, t + 1, q, limit, n)
    ensures LostBefore(sessions, p, t, q, limit)
    decreases limit, 0, n
  {
    var after := StepAt(p, t, sessions, id);
    LostUnfolds(sessions, p, t, q, limit);
    if CreatedAt(after, p, t + 1, q, limit) {
      CreationStays(sessions, p, t, id, q, limit);
    } else {
      GoneStays(sessions, p, t, id, q);
      NextAfterStep(sessions, p, t, id, q);
      var next := First(sessions, p.kv[q]);
      OutOfSlot(sessions, p, t, id, limit);
      if next != t {
        DangerWasThere(sessions, p, t, id, next, limit, n - 1);
      } else if Has(sessions, p.kv[t]) {
        FirstIsTheOne(sessions, t);
        DangerWasThere(sessions, p, t, id, First(sessions, p.kv[t]), limit, n - 1);
      }
    }
  }

  lemma CreationStays(sessions: Sessions, p: Plan, t: nat, id: nat, q: nat, limit: nat)
    requires Ready(sessions, p, t) && t < limit && q != t && !Overwrites(sessions, p, t, q)
    ensures CreatedAt(sessions, p, t, q, limit) <==> CreatedAt(StepAt(p, t, sessions, id), p, t + 1, q, limit)
    decreases limit, 0, 0
  {
    GoneNow(sessions, p, t);
    var after := StepAt(p, t, sessions, id);
    if u :| t <= u < |p.kv| && u < limit && p.index[u] == q && Gone(sessions, p, t, u) {
      GoneStays(sessions, p, t, id, u);
    }
    if u :| t + 1 <= u < |p.kv| && u < limit && p.index[u] == q && Gone(after, p, t + 1, u) {
      GoneStays(sessions, p, t, id, u);
    }
  }

  lemma NotCreatedHere(sessions: Sessions, p: Plan, t: nat, limit: nat)
    requires Ready(sessions, p, t) && Has(sessions, p.kv[t])
    ensures !CreatedAt(sessions, p, t, t, limit)
  {
    GoneNow(sessions, p, t);
  }

  // ---------- The whole restart ----------

  // The sessions from before the restart whose turn has come are in their slots.
  ghost predicate TurnsDone(sessions: Sessions, p: Plan, t: nat, firstNewId: nat) {
    && ValidPlan(p) && t <= |p.kv| && Distinct(p.kv) && DistinctEndpoints(sessions)
    && forall k :: k in sessions && sessions[k].id < firstNewId && Target(p.kv, sessions[k].endpoint) < t ==>
         k == Target(p.kv, sessions[k].endpoint)
  }

  lemma TargetOf(kv: seq<Endpoint>, s: nat)
    requires Distinct(kv) && s < |kv|
    ensures Target(kv, kv[s]) == s
  {
    assert kv[s] in kv;
  }

  // The position that a session is in after the step, if it is still there.
  ghost function Moved(sessions: Sessions, p: Plan, t: nat, k: nat): nat
    requires t < |p.kv|
  {
    if !Has(sessions, p.kv[t]) then k
    else
      var first := First(sessions, p.kv[t]);
      if k == first then t else if k == t then first else k
  }

  lemma StepMoves(sessions: Sessions, p: Plan, t: nat, id: nat, k: nat)
    requires Ready(sessions, p, t) && k in sessions && sessions[k].id < id
    ensures Overwrites(sessions, p, t, k) ==> sessions[k] !in StepAt(p, t, sessions, id).Values
    ensures !Overwrites(sessions, p, t, k) ==>
              var after, now := StepAt(p, t, sessions, id), Moved(sessions, p, t, k);
              now in after && after[now] == sessions[k]
  {
  }

  lemma StepKeepsFate(sessions: Sessions, p: Plan, t: nat, id: nat, firstNewId: nat, k: nat)
    requires TurnsDone(sessions, p, t, firstNewId) && t < |p.kv| && k in sessions
    requires sessions[k].id < firstNewId <= id
    ensures Overwrites(sessions, p, t, k) ==> Lost(sessions, p, t, k)
    ensures !Overwrites(sessions, p, t, k) ==>
              var after, now := StepAt(p, t, sessions, id), Moved(sessions, p, t, k);
              now in after && after[now] == sessions[k] && (Lost(sessions, p, t, k) <==> Lost(after, p, t + 1, now))
  {
    var target := Target(p.kv, sessions[k].endpoint);
    var after, now := StepAt(p, t, sessions, id), Moved(sessions, p, t, k);
    StepMoves(sessions, p, t, id, k);
    TargetOf(p.kv, t);
    if Overwrites(sessions, p, t, k) {
      OverwrittenIsLost(sessions, p, t, k, target);
    } else if target <= t {
      NothingLostInThePast(sessions, p, t, k, target);
      NothingLostInThePast(after, p, t + 1, now, target);
    } else {
      OutOfSlot(sessions, p, t, id, target);
      if now != t {
        SameDanger(sessions, p, t, id, now, target);
      }
    }
  }

  lemma StepKeepsTurns(sessions: Sessions, p: Plan, t: nat, id: nat, firstNewId: nat)
    requires TurnsDone(sessions, p, t, firstNewId) && t < |p.kv| && firstNewId <= id
    ensures TurnsDone(StepAt(p, t, sessions, id), p, t + 1, firstNewId)
  {
    StepKeepsEndpoints(sessions, p.kv[t], p.index[t], t, id);
    TargetOf(p.kv, t);
  }

  // A session that is there and will not be lost.
  ghost predicate Safe(sessions: Sessions, p: Plan, t: nat, x: Session)
    requires |p.kv| == |p.index|
  {
    exists k :: k in sessions && sessions[k] == x && !Lost(sessions, p, t, k)
  }

  lemma StepKeepsSafe(sessions: Sessions, p: Plan, t: nat, id: nat, firstNewId: nat, x: Session)
    requires TurnsDone(sessions, p, t, firstNewId) && t < |p.kv| && x.id < firstNewId <= id
    ensures Safe(sessions, p, t, x) <==> Safe(StepAt(p, t, sessions, id), p, t + 1, x)
  {
    var after := StepAt(p, t, sessions, id);
    StepKeepsTurns(sessions, p, t, id, firstNewId);
    if k :| k in sessions && sessions[k] == x {
      StepKeepsFate(sessions, p, t, id, firstNewId, k);
      FirstIsTheOne(sessions, k);
      if j :| j in after && after[j] == x {
        FirstIsTheOne(after, j);
      }
    } else {
      assert forall k :: k in after && after[k].id < id ==> after[k] in sessions.Values;
    }
  }

  lemma {:induction false} SafeSurvives(p: Plan, t: nat, sessions: Sessions, id: nat, firstNewId: nat, x: Session)
    requires TurnsDone(sessions, p, t, firstNewId) && x.id < firstNewId <= id
    ensures x in RestartFrom(p, t, sessions, id).Values <==> Safe(sessions, p, t, x)
    decreases |p.kv| - t
  {
    if t == |p.kv| {
      if k :| k in sessions && sessions[k] == x {
        NothingLostInThePast(sessions, p, t, k, Target(p.kv, x.endpoint));
      }
    } else {
      StepKeepsTurns(sessions, p, t, id, firstNewId);
      StepKeepsSafe(sessions, p, t, id, firstNewId, x);
      SafeSurvives(p, t + 1, StepAt(p, t, sessions, id), NextId(p, t, sessions, id), firstNewId, x);
    }
  }

  /** Whatever the nodes, and wherever the sessions are, a session survives the restart if and
      only if it is not lost in the sense above, which speaks of the first map only. */
  lemma SurvivesRestartExactlyWhen(endpoints: seq<Endpoint>, sessions: Sessions, id: nat, k: nat)
    requires Distinct(KvEndpoints(endpoints)) && DistinctEndpoints(sessions) && k in sessions
    requires forall j :: j in sessions ==> sessions[j].id < id
    ensures sessions[k] in Restart(endpoints, 0, 0, sessions, id).Values <==> !Lost(sessions, PlanOf(endpoints), 0, k)
  {
    RestartIsBySlots(endpoints, sessions, id);
    SafeSurvives(PlanOf(endpoints), 0, sessions, id, id, sessions[k]);
    FirstIsTheOne(sessions, k);
  }

  /** For sessions that are where they belong that is the way from an empty slot. */
  lemma {:induction false} LostMeansReached(p: Plan, sessions: Sessions, k: nat)
    requires ValidPlan(p) && Distinct(p.kv) && Aligned(sessions, p.kv) && k < |p.kv|
    ensures Gone(sessions, p, 0, k) <==> Loses(p, sessions, k)
    decreases k
  {
    forall u: nat | u < k
      ensures Gone(sessions, p, 0, u) <==> Loses(p, sessions, u)
    {
      LostMeansReached(p, sessions, u);
    }
    LostUnfolds(sessions, p, 0, k, k);
    if Has(sessions, p.kv[k]) {
      assert First(sessions, p.kv[k]) == k;
    }
    if TakenOver(p, sessions, k, k) {
      var u := TakenOverBy(p, sessions, k, k);
      assert CreatedAt(sessions, p, 0, k, k);
    }
  }
}
