/**
 The probe loop of fetch_config: one counter, shared by all polls and never reset, is taken
 modulo the number of sessions until it comes round.
 */
module BucketProbe {
  import opened Wrappers
  import opened Arithmetic
  import opened BucketSessions

  // std::size_t
  const WORD := 0x1_0000_0000_0000_0000

  function Value(start: nat, j: nat): nat {
    (start + j) % WORD
  }

  // How often the loop body runs.
  function Rounds(start: nat, n: nat): nat
    requires 0 < n && start < WORD
  {
    if start + n < WORD then n else WORD - start + start % n
  }

  // ---------- When the counter comes round ----------

  lemma ModOfSum(a: nat, q: nat, n: nat)
    requires 0 < n
    ensures (a + q * n) % n == a % n
  {
    if q > 0 {
      ModOfSum(a, q - 1, n);
      assert a + q * n == a + (q - 1) * n + n;
      ModPlusN(a + (q - 1) * n, n);
    }
  }

  lemma ModPlusN(a: nat, n: nat)
    requires 0 < n
    ensures (a + n) % n == a % n
  {
    var q := a / n;
    assert a == q * n + a % n;
    assert a + n == (q + 1) * n + a % n;
    UniqueRemainder(a + n, q + 1, a % n, n);
  }

  // Less than one turn ahead, the remainder is a different one.
  lemma NoEarlyReturn(start: nat, j: nat, n: nat)
    requires 0 < j < n
    ensures (start + j) % n != start % n
  {
    var q, r := start / n, start % n;
    assert start == q * n + r;
    if r + j < n {
      UniqueRemainder(start + j, q, r + j, n);
    } else {
      assert start + j == (q + 1) * n + (r + j - n);
      UniqueRemainder(start + j, q + 1, r + j - n, n);
    }
  }

  lemma RoundsIsFirstReturn(start: nat, n: nat, j: nat)
    requires 0 < n && start < WORD && 0 < j <= Rounds(start, n) && n <= WORD
    ensures Value(start, j) % n == start % n <==> j == Rounds(start, n)
  {
    if start + n < WORD {
      if j < n { NoEarlyReturn(start, j, n); } else { ModPlusN(start, n); }
    } else if start + j < WORD {
      NoEarlyReturn(start, j, n);
    } else {
      assert Value(start, j) == start + j - WORD;
      assert start + j - WORD <= start % n < n;
      UniqueRemainder(start + j - WORD, 0, start + j - WORD, n);
    }
  }

  // ---------- Which slots are probed ----------

  function Probes(start: nat, n: nat, rounds: nat): (probed: seq<nat>)
    requires 0 < n
    ensures |probed| == rounds
  {
    seq(rounds, j requires 0 <= j < rounds => Value(start, j) % n)
  }

  ghost predicate EachOnce(probed: seq<nat>, n: nat) {
    && |probed| == n
    && (forall k :: 0 <= k < n ==> k in probed)
    && (forall i, j :: 0 <= i < j < |probed| ==> probed[i] != probed[j])
  }

  /** Every slot is probed once, from any start, if and only if the counter does not overflow
      during the poll or the number of sessions divides 2^64. */
  lemma EachSlotOnceExactlyWhen(start: nat, n: nat)
    requires 0 < n <= WORD && start < WORD
    ensures EachOnce(Probes(start, n, Rounds(start, n)), n) <==>
              start + n < 0x1_0000_0000_0000_0000 || 0x1_0000_0000_0000_0000 % n == 0
  {
    if start + n < WORD {
      EachOnceWithoutOverflow(start, n);
    } else if WORD % n == 0 {
      OverflowRounds(start, n);
      EachOnceAcrossOverflow(start, n);
    } else {
      OverflowRounds(start, n);
    }
  }

  lemma OverflowRounds(start: nat, n: nat)
    requires 0 < n <= WORD && start < WORD && start + n >= WORD
    ensures Rounds(start, n) == n <==> WORD % n == 0
  {
    var q, r := start / n, start % n;
    assert start == q * n + r;
    if Rounds(start, n) == n {
      assert WORD == (q + 1) * n + 0;
      UniqueRemainder(WORD, q + 1, 0, n);
    }
    if WORD % n == 0 {
      var p := WORD / n;
      assert WORD == p * n;
      CancelFactor(q, p, n);
      assert (q + 2) * n == q * n + 2 * n;
      CancelFactor(p, q + 2, n);
      assert p == q + 1;
    }
  }

  lemma CancelFactor(a: nat, b: nat, n: nat)
    requires 0 < n && a * n < b * n
    ensures a < b
  {
  }

  lemma Covered(start: nat, n: nat, k: nat) returns (j: nat)
    requires 0 < n && k < n
    ensures j < n && (start + j) % n == k
  {
    var q, r := start / n, start % n;
    assert start == q * n + r;
    if k >= r {
      j := k - r;
      UniqueRemainder(start + j, q, k, n);
    } else {
      j := k + n - r;
      assert start + j == (q + 1) * n + k;
      UniqueRemainder(start + j, q + 1, k, n);
    }
  }

  lemma DifferentRemainders(start: nat, n: nat, i: nat, j: nat)
    requires i < j < n
    ensures (start + i) % n != (start + j) % n
  {
    NoEarlyReturn(start + i, j - i, n);
  }

  lemma EachOnceWithoutOverflow(start: nat, n: nat)
    requires 0 < n && start + n < WORD
    ensures EachOnce(Probes(start, n, n), n)
  {
    AllRemainders(start, n, Probes(start, n, n));
  }

  lemma AllRemainders(start: nat, n: nat, probed: seq<nat>)
    requires 0 < n && |probed| == n
    requires forall j :: 0 <= j < n ==> probed[j] == (start + j) % n
    ensures EachOnce(probed, n)
  {
    forall k | 0 <= k < n
      ensures k in probed
    {
      var j := Covered(start, n, k);
      assert probed[j] == k;
    }
    forall i, j | 0 <= i < j < n
      ensures probed[i] != probed[j]
    {
      DifferentRemainders(start, n, i, j);
    }
  }

  lemma EachOnceAcrossOverflow(start: nat, n: nat)
    requires 0 < n <= WORD && start < WORD && WORD % n == 0
    ensures EachOnce(Probes(start, n, n), n)
  {
    var probed := Probes(start, n, n);
    forall j | 0 <= j < n
      ensures probed[j] == (start + j) % n
    {
      if start + j >= WORD {
        var p := WORD / n;
        assert WORD == p * n;
        assert Value(start, j) == start + j - WORD;
        ModOfSum(start + j - WORD, p, n);
      }
    }
    AllRemainders(start, n, probed);
  }

  // ---------- The loop ----------

  class ConfigPoller {
    var sessions: Sessions
    var closed: bool
    var heartbeatNextIndex: nat

    constructor (sessions: Sessions)
      ensures this.sessions == sessions && !closed && heartbeatNextIndex == 0
    {
      this.sessions, closed, heartbeatNextIndex := sessions, false, 0;
    }

    method FetchAdd() returns (value: nat)
      requires heartbeatNextIndex < WORD
      modifies this`heartbeatNextIndex
      ensures value == old(heartbeatNextIndex) && heartbeatNextIndex == (old(heartbeatNextIndex) + 1) % WORD
    {
      value := heartbeatNextIndex;
      heartbeatNextIndex := (heartbeatNextIndex + 1) % WORD;
    }

    // The last usable session that is probed wins.
    method FetchConfig() returns (session: Option<Session>, ghost probed: seq<nat>)
      requires heartbeatNextIndex < WORD && |sessions| < WORD
      modifies this`heartbeatNextIndex
      ensures heartbeatNextIndex < WORD
      ensures closed || sessions == map[] ==>
                session == None && heartbeatNextIndex == old(heartbeatNextIndex) && probed == []
      ensures !closed && sessions != map[] ==>
                && probed == Probes(old(heartbeatNextIndex), |sessions|, Rounds(old(heartbeatNextIndex), |sessions|))
                && session == LastUsable(sessions, probed)
                && heartbeatNextIndex == Value(old(heartbeatNextIndex), |probed| + 1)
    {
      session, probed := None, [];
      if closed {
        return;
      }
      var n := |sessions|;
      if n == 0 {
        return;
      }
      var start := FetchAdd();
      ghost var rounds := Rounds(start, n);
      var i := start;
      var more := true;
      while more
        invariant |probed| <= rounds && i == Value(start, |probed|)
        invariant probed == Probes(start, n, |probed|)
        invariant session == LastUsable(sessions, probed)
        invariant heartbeatNextIndex == Value(start, |probed| + 1)
        invariant more <==> |probed| < rounds
        decreases rounds - |probed|
      {
        var slot := i % n;
        if slot in sessions && sessions[slot].usable {
          session := Some(sessions[slot]);
        }
        NextProbe(start, n, probed);
        NextValue(start, |probed| + 1);
        assert (probed + [slot])[..|probed|] == probed;
        probed := probed + [slot];
        i := FetchAdd();
        more := start % n != i % n;
      }
    }
  }

  lemma NextProbe(start: nat, n: nat, probed: seq<nat>)
    requires 0 < n <= WORD && start < WORD && |probed| < Rounds(start, n) && probed == Probes(start, n, |probed|)
    ensures probed + [Value(start, |probed|) % n] == Probes(start, n, |probed| + 1)
    ensures Value(start, |probed| + 1) % n == start % n <==> |probed| + 1 == Rounds(start, n)
  {
    RoundsIsFirstReturn(start, n, |probed| + 1);
  }

  lemma NextValue(start: nat, j: nat)
    ensures (Value(start, j) + 1) % WORD == Value(start, j + 1)
  {
  }

  function LastUsable(sessions: Sessions, probed: seq<nat>): Option<Session> {
    if probed == [] then None
    else
      var slot := probed[|probed| - 1];
      if slot in sessions && sessions[slot].usable then Some(sessions[slot])
      else LastUsable(sessions, probed[..|probed| - 1])
  }

  ghost predicate UsableAt(sessions: Sessions, probed: seq<nat>, j: int) {
    0 <= j < |probed| && probed[j] in sessions && sessions[probed[j]].usable
  }

  /** The poll asks the session that it has probed last among the usable ones. */
  lemma {:induction false} LastUsableIsUsable(sessions: Sessions, probed: seq<nat>)
    ensures LastUsable(sessions, probed).Some? <==> exists j :: UsableAt(sessions, probed, j)
    ensures LastUsable(sessions, probed).Some? ==>
              exists j :: UsableAt(sessions, probed, j) && LastUsable(sessions, probed).value == sessions[probed[j]]
                          && forall k :: j < k < |probed| ==> !UsableAt(sessions, probed, k)
  {
    if probed != [] {
      var n := |probed| - 1;
      var earlier := probed[..n];
      LastUsableIsUsable(sessions, earlier);
      assert forall j :: j < n ==> (UsableAt(sessions, earlier, j) <==> UsableAt(sessions, probed, j));
      if !UsableAt(sessions, probed, n) && LastUsable(sessions, probed).Some? {
        var j :| UsableAt(sessions, earlier, j) && LastUsable(sessions, earlier).value == sessions[earlier[j]]
                 && forall k :: j < k < |earlier| ==> !UsableAt(sessions, earlier, k);
        assert UsableAt(sessions, probed, j);
      }
      if UsableAt(sessions, probed, n) {
        assert LastUsable(sessions, probed).value == sessions[probed[n]];
      }
    }
  }

  /** Without an overflow the slots are probed in turn, beginning with the counter's. */
  lemma ProbesGoRound(start: nat, n: nat, j: nat)
    requires 0 < n && j < n && start + n < 0x1_0000_0000_0000_0000
    ensures Rounds(start, n) == n && Probes(start, n, n)[j] == (start + j) % n
  {
  }

  lemma UsableIsProbed(sessions: Sessions, n: nat, probed: seq<nat>)
    requires EachOnce(probed, n) && forall k :: k in sessions <==> 0 <= k < n
    ensures (exists j :: UsableAt(sessions, probed, j)) <==> exists k :: k in sessions && sessions[k].usable
  {
    if j :| UsableAt(sessions, probed, j) {
      assert probed[j] in sessions;
    }
    if k :| k in sessions && sessions[k].usable {
      assert k in probed;
      var j :| 0 <= j < |probed| && probed[j] == k;
      assert UsableAt(sessions, probed, j);
    }
  }

  /** With slots 0 to n-1, a poll finds a session if and only if one is usable, unless the
      counter overflows on the way and n does not divide 2^64. */
  lemma PollFindsUsableSession(sessions: Sessions, n: nat, start: nat)
    requires 0 < n <= WORD && start < WORD && (start + n < WORD || WORD % n == 0)
    requires forall k :: k in sessions <==> 0 <= k < n
    ensures LastUsable(sessions, Probes(start, n, Rounds(start, n))).Some? <==>
              exists k :: k in sessions && sessions[k].usable
  {
    var probed := Probes(start, n, Rounds(start, n));
    EachSlotOnceExactlyWhen(start, n);
    UsableIsProbed(sessions, n, probed);
    LastUsableIsUsable(sessions, probed);
  }
}
