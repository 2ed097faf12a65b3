/**
 The snapshot requirements of a range scan, one for each partition that a mutation state
 names.
 */
module RangeScanSnapshot {
  datatype Token = Token(partition: nat, uuid: nat, sequenceNumber: nat)

  datatype Requirement = Requirement(uuid: nat, sequenceNumber: nat)

  // Token i asks the most of its partition: none asks for more, and none before it for as much.
  ghost predicate AsksMost(tokens: seq<Token>, i: nat) {
    i < |tokens| &&
    forall j :: 0 <= j < |tokens| && tokens[j].partition == tokens[i].partition ==>
      && tokens[j].sequenceNumber <= tokens[i].sequenceNumber
      && (j < i ==> tokens[j].sequenceNumber < tokens[i].sequenceNumber)
  }

  // The requirement of each partition is that of the token that asks the most.
  ghost predicate Meets(requirements: map<nat, Requirement>, tokens: seq<Token>) {
    && (forall i :: 0 <= i < |tokens| ==> tokens[i].partition in requirements)
    && (forall p :: p in requirements ==>
          exists i: nat :: AsksMost(tokens, i) && tokens[i].partition == p
                      && requirements[p] == Requirement(tokens[i].uuid, tokens[i].sequenceNumber))
  }

  method SnapshotRequirements(tokens: seq<Token>) returns (requirements: map<nat, Requirement>)
    ensures Meets(requirements, tokens)
  {
    requirements := map[];
    for k := 0 to |tokens|
      invariant Meets(requirements, tokens[..k])
    {
      var token := tokens[k];
      TokenKeepsMeets(requirements, tokens[..k], token);
      assert tokens[..k] + [token] == tokens[..k + 1];
      if token.partition !in requirements || requirements[token.partition].sequenceNumber < token.sequenceNumber {
        requirements := requirements[token.partition := Requirement(token.uuid, token.sequenceNumber)];
      }
    }
    assert tokens[..|tokens|] == tokens;
  }

  lemma TokenKeepsMeets(requirements: map<nat, Requirement>, tokens: seq<Token>, token: Token)
    requires Meets(requirements, tokens)
    ensures var p := token.partition;
            var raised := p !in requirements || requirements[p].sequenceNumber < token.sequenceNumber;
            Meets(if raised then requirements[p := Requirement(token.uuid, token.sequenceNumber)] else requirements,
                  tokens + [token])
  {
    var p, more := token.partition, tokens + [token];
    var raised := p !in requirements || requirements[p].sequenceNumber < token.sequenceNumber;
    var after := if raised then requirements[p := Requirement(token.uuid, token.sequenceNumber)] else requirements;
    forall q | q in after
      ensures exists i: nat :: AsksMost(more, i) && more[i].partition == q
                          && after[q] == Requirement(more[i].uuid, more[i].sequenceNumber)
    {
      if q == p && raised {
        LatestAsksMost(requirements, tokens, token);
        assert more[|tokens|] == token;
      } else {
        var i: nat :| AsksMost(tokens, i) && tokens[i].partition == q
                 && requirements[q] == Requirement(tokens[i].uuid, tokens[i].sequenceNumber);
        assert AsksMost(more, i);
      }
    }
  }

  lemma LatestAsksMost(requirements: map<nat, Requirement>, tokens: seq<Token>, token: Token)
    requires Meets(requirements, tokens)
    requires token.partition !in requirements || requirements[token.partition].sequenceNumber < token.sequenceNumber
    ensures AsksMost(tokens + [token], |tokens|)
  {
    if token.partition in requirements {
      var i: nat :| AsksMost(tokens, i) && tokens[i].partition == token.partition
               && requirements[token.partition] == Requirement(tokens[i].uuid, tokens[i].sequenceNumber);
    }
  }
}
