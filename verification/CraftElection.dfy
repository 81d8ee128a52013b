/** The steps of an election keep the invariant, and at most one node wins a term. */
module CraftElection {
  import opened CraftNode
  import opened CraftCluster
  import opened CraftHistory
  import opened CraftQuiet
  import opened CraftPassive

  // ---------------------------------------------------------------------------------------
  // Packets

  /** A call enters its next stage and the nodes stay as they are. */
  lemma AdvanceCall(c: Cluster, c': Cluster, h: History, pk: Packet, pk': Packet)
    requires Inv(c, h)
    requires pk in c.net && SameCall(pk, pk') && VotePacketOk(c, h, pk')
    requires c' == Cluster(c.nodes, c.net - {pk} + {pk'})
    ensures Inv(c', h)
  {
    VotePacketsOf(c, h);
    AdvanceCallPackets(c, h, pk, pk');
    AddedIsVote(c, c', pk, pk');
    PacketsInv(c, c', h);
  }

  lemma VotePacketsOf(c: Cluster, h: History)
    requires Inv(c, h)
    ensures VotePackets(c, h)
  {
  }

  lemma AddedIsVote(c: Cluster, c': Cluster, pk: Packet, pk': Packet)
    requires SameCall(pk, pk') && c' == Cluster(c.nodes, c.net - {pk} + {pk'})
    ensures forall q :: q in c'.net && q !in c.net ==> IsVote(q)
  {
  }

  lemma AdvanceCallPackets(c: Cluster, h: History, pk: Packet, pk': Packet)
    requires VotePackets(c, h)
    requires pk in c.net && SameCall(pk, pk') && VotePacketOk(c, h, pk')
    ensures VotePackets(Cluster(c.nodes, c.net - {pk} + {pk'}), h)
  {
    var c' := Cluster(c.nodes, c.net - {pk} + {pk'});
    forall q | q in c'.net && IsVote(q)
      ensures VotePacketOk(c', h, q)
    {
      assert VotePacketOk(c, h, q);
    }
    assert forall q :: q in c.net && SameCall(q, pk') ==> SameCall(q, pk);
  }

  // ---------------------------------------------------------------------------------------
  // Starting an election

  ghost predicate TimeoutStep(c: Cluster, c': Cluster, h: History, h': History, i: int) {
    && i in c.nodes && c.nodes[i].id == i
    && (c.nodes[i].state == Follower || c.nodes[i].state == Candidate)
    && c'.nodes == c.nodes[i := StartElection(c.nodes[i])]
    && c'.net == c.net + VoteCalls(c'.nodes[i])
    && var t := c.nodes[i].currentTerm + 1;
       && Ballot(t, i, i) !in h.grants && Seat(t, i) !in h.counted && t !in c.nodes[i].votesReceived
       && h' == h.(grants := h.grants[Ballot(t, i, i) := c.nodes[i].log], counted := h.counted[Seat(t, i) := {i}])
  }

  lemma TimeoutFresh(c: Cluster, h: History, i: int)
    requires i in c.nodes && Config(c) && Ballots(c, h) && Counts(c, h) && Tallies(c, h)
    ensures Ballot(c.nodes[i].currentTerm + 1, i, i) !in h.grants
    ensures Seat(c.nodes[i].currentTerm + 1, i) !in h.counted
    ensures c.nodes[i].currentTerm + 1 !in c.nodes[i].votesReceived
  {
    var t := c.nodes[i].currentTerm + 1;
    assert Ballot(t, i, i) in h.grants ==> BallotOk(c, h, Ballot(t, i, i));
    assert Seat(t, i) in h.counted ==> SeatOk(c, h, Seat(t, i));
    assert t in c.nodes[i].votesReceived ==> TallyOk(c.nodes[i], h, t);
  }

  lemma TimeoutBallots(c: Cluster, c': Cluster, h: History, h': History, i: int)
    requires TimeoutStep(c, c', h, h', i) && Ballots(c, h) && Counts(c, h) && Exclusive(h) && Candidates(c, h)
    ensures Ballots(c', h') && Exclusive(h') && Candidates(c', h')
  {
    forall b | b in h'.grants
      ensures BallotOk(c', h', b)
    {
      assert b in h.grants ==> BallotOk(c, h, b);
    }
    TimeoutExclusive(c, c', h, h', i);
  }

  lemma TimeoutExclusive(c: Cluster, c': Cluster, h: History, h': History, i: int)
    requires TimeoutStep(c, c', h, h', i) && Exclusive(h)
    ensures Exclusive(h')
  {
    assert forall b :: b in h'.grants && b.voter != b.candidate ==> b in h.grants && (Leads(h', b) <==> Leads(h, b));
  }

  lemma TimeoutCounts(c: Cluster, c': Cluster, h: History, h': History, i: int)
    requires TimeoutStep(c, c', h, h', i) && Counts(c, h)
    ensures Counts(c', h')
  {
    forall s | s in h'.counted
      ensures SeatOk(c', h', s)
    {
      assert s in h.counted ==> SeatOk(c, h, s);
    }
  }

  lemma TimeoutTallies(c: Cluster, c': Cluster, h: History, h': History, i: int)
    requires TimeoutStep(c, c', h, h', i) && Tallies(c, h) && Config(c)
    ensures Tallies(c', h')
  {
    forall j, t | j in c'.nodes && t in c'.nodes[j].votesReceived
      ensures TallyOk(c'.nodes[j], h', t)
    {
      assert t in c.nodes[j].votesReceived ==> TallyOk(c.nodes[j], h, t);
    }
  }

  lemma TimeoutPacket(c: Cluster, c': Cluster, h: History, h': History, i: int, pk: Packet)
    requires TimeoutStep(c, c', h, h', i) && Config(c) && Tallies(c, h)
    requires IsVote(pk) && if pk in c.net then VotePacketOk(c, h, pk) else pk in c'.net
    ensures VotePacketOk(c', h', pk)
    ensures pk in c.net ==> TermOf(pk) != c'.nodes[i].currentTerm || CallerOf(pk) != i
  {
    if pk in c.net {
      assert TallyOk(c.nodes[CallerOf(pk)], h, TermOf(pk));
    } else {
      assert pk in VoteCalls(c'.nodes[i]);
      assert pk.VoteCall? && pk.caller == i && pk.peer in c.nodes[i].peerIds;
    }
  }

  lemma TimeoutPackets(c: Cluster, c': Cluster, h: History, h': History, i: int)
    requires TimeoutStep(c, c', h, h', i) && VotePackets(c, h) && Config(c) && Tallies(c, h)
    ensures VotePackets(c', h')
  {
    forall pk | pk in c'.net && IsVote(pk)
      ensures VotePacketOk(c', h', pk)
    {
      TimeoutPacket(c, c', h, h', i, pk);
    }
    forall a, b | a in c'.net && b in c'.net && SameCall(a, b)
      ensures a == b
    {
      TimeoutPacket(c, c', h, h', i, a);
      TimeoutPacket(c, c', h, h', i, b);
      assert a in VoteCalls(c'.nodes[i]) ==> TermOf(a) == c'.nodes[i].currentTerm && CallerOf(a) == i;
      assert b in VoteCalls(c'.nodes[i]) ==> TermOf(b) == c'.nodes[i].currentTerm && CallerOf(b) == i;
    }
  }

  lemma TimeoutQualified(c: Cluster, c': Cluster, h: History, h': History, i: int)
    requires TimeoutStep(c, c', h, h', i) && Qualified(c, h) && Ballots(c, h) && Counts(c, h)
    ensures Qualified(c', h')
  {
    var b0 := Ballot(c.nodes[i].currentTerm + 1, i, i);
    assert forall b :: b in h.grants && b.candidate == i ==> BallotOk(c, h, b) && b.term != b0.term;
  }

  lemma TimeoutInv(c: Cluster, c': Cluster, h: History, h': History, i: int)
    requires TimeoutStep(c, c', h, h', i) && Inv(c, h)
    ensures Inv(c', h')
  {
    TimeoutBallots(c, c', h, h', i);
    TimeoutCounts(c, c', h, h', i);
    TimeoutTallies(c, c', h, h', i);
    TimeoutPackets(c, c', h, h', i);
    TimeoutQualified(c, c', h, h', i);
    TimeoutRest(c, c', h, h', i);
  }

  lemma TimeoutRest(c: Cluster, c': Cluster, h: History, h': History, i: int)
    requires TimeoutStep(c, c', h, h', i) && Config(c) && LogInv(c, h) && AckInv(c, h)
    ensures Config(c') && LogInv(c', h') && AckInv(c', h')
  {
    TimeoutStill(c, c', h, h', i);
    StillRest(c, c', h, h', Ballot(c.nodes[i].currentTerm + 1, i, i));
  }

  lemma TimeoutStill(c: Cluster, c': Cluster, h: History, h': History, i: int)
    requires TimeoutStep(c, c', h, h', i)
    ensures Still(c, c', h, h')
  {
  }

  // ---------------------------------------------------------------------------------------
  // Granting a vote

  ghost predicate GrantStep(c: Cluster, c': Cluster, h: History, h': History, pk: Packet) {
    && pk in c.net && pk.VoteReq? && pk.peer in c.nodes
    && var n := c.nodes[pk.peer];
       && n.state != Dead && Grants(n, pk.vote)
       && c' == Cluster(c.nodes[pk.peer := n.(votedFor := pk.vote.candidateId)],
                        c.net - {pk} + {VoteRep(pk.peer, pk.vote, VoteReply(n.currentTerm, true))})
       && h' == AddGrant(h, Ballot(pk.vote.term, pk.peer, pk.vote.candidateId), n.log)
  }

  /** Only a follower gives its vote to another node. */
  lemma GranterFollows(c: Cluster, c': Cluster, h: History, h': History, pk: Packet)
    requires GrantStep(c, c', h, h', pk) && VotePackets(c, h) && Candidates(c, h) && Config(c) && Tallies(c, h)
    ensures c.nodes[pk.peer].state == Follower && pk.peer != pk.vote.candidateId
    ensures pk.vote.candidateId in c.nodes && c.nodes[pk.vote.candidateId].currentTerm >= pk.vote.term
  {
    assert VotePacketOk(c, h, pk);
    assert TallyOk(c.nodes[pk.vote.candidateId], h, pk.vote.term);
  }

  /** What granting changes: the vote of the voter, and nothing else of any node. */
  lemma GrantFrame(c: Cluster, c': Cluster, h: History, h': History, pk: Packet)
    requires GrantStep(c, c', h, h', pk)
    ensures c'.nodes.Keys == c.nodes.Keys && h'.reigns == h.reigns
    ensures forall j :: j in c.nodes ==> c'.nodes[j] == c.nodes[j].(votedFor := c'.nodes[j].votedFor)
    ensures forall j :: j in c.nodes && j != pk.peer ==> c'.nodes[j] == c.nodes[j]
    ensures c'.nodes[pk.peer].votedFor == pk.vote.candidateId
    ensures forall b :: b in h'.grants <==> b in h.grants || b == Ballot(pk.vote.term, pk.peer, pk.vote.candidateId)
    ensures c.nodes[pk.peer].currentTerm == pk.vote.term
    ensures c.nodes[pk.peer].votedFor == -1 || c.nodes[pk.peer].votedFor == pk.vote.candidateId
  {
  }

  lemma GrantBallots(c: Cluster, c': Cluster, h: History, h': History, pk: Packet)
    requires GrantStep(c, c', h, h', pk) && Ballots(c, h) && Candidates(c, h) && Config(c)
    requires c.nodes[pk.peer].state == Follower && pk.peer != pk.vote.candidateId
    requires pk.vote.candidateId in c.nodes && c.nodes[pk.vote.candidateId].currentTerm >= pk.vote.term
    ensures Ballots(c', h') && Candidates(c', h')
  {
    GrantFrame(c, c', h, h', pk);
    var b0 := Ballot(pk.vote.term, pk.peer, pk.vote.candidateId);
    forall b | b in h'.grants
      ensures BallotOk(c', h', b)
    {
      if b != b0 {
        assert BallotOk(c, h, b);
        OtherBallot(c, c', h, h', b, b0);
      }
    }
  }

  /** A vote for `b0` leaves every other vote as good as it was. */
  lemma OtherBallot(c: Cluster, c': Cluster, h: History, h': History, b: Ballot, b0: Ballot)
    requires BallotOk(c, h, b) && b != b0 && h'.reigns == h.reigns && c'.nodes.Keys == c.nodes.Keys
    requires b0.voter in c.nodes && b0.candidate != b0.voter && c.nodes[b0.voter].state == Follower
    requires b0.term == c.nodes[b0.voter].currentTerm && b.candidate >= 0
    requires c.nodes[b0.voter].votedFor == -1 || c.nodes[b0.voter].votedFor == b0.candidate
    requires forall j :: j in c.nodes ==> c'.nodes[j] == c.nodes[j].(votedFor := c'.nodes[j].votedFor)
    requires forall j :: j in c.nodes && j != b0.voter ==> c'.nodes[j] == c.nodes[j]
    ensures BallotOk(c', h', b)
  {
  }

  lemma GrantExclusive(c: Cluster, c': Cluster, h: History, h': History, pk: Packet)
    requires GrantStep(c, c', h, h', pk) && Ballots(c, h) && Exclusive(h) && Config(c) && Reigns(c, h)
    requires c.nodes[pk.peer].state == Follower && pk.peer != pk.vote.candidateId
    ensures Exclusive(h')
  {
    var b0 := Ballot(pk.vote.term, pk.peer, pk.vote.candidateId);
    if b0 !in h.grants {
      assert h'.grants == h.grants[b0 := c.nodes[pk.peer].log];
      forall b | b in h.grants && Rivals(b, b0)
        ensures b.candidate == b0.candidate
      {
        assert BallotOk(c, h, b);
      }
      assert b0.term in h.reigns ==> ReignOk(c, h, b0.term);
      assert !Leads(h, b0);
    }
  }

  lemma GrantPackets(c: Cluster, c': Cluster, h: History, h': History, pk: Packet)
    requires GrantStep(c, c', h, h', pk) && VotePackets(c, h)
    ensures VotePackets(c', h')
  {
    var pk' := VoteRep(pk.peer, pk.vote, VoteReply(c.nodes[pk.peer].currentTerm, true));
    forall q | q in c'.net && IsVote(q)
      ensures VotePacketOk(c', h', q)
    {
      assert VotePacketOk(c, h, pk);
      assert q != pk' ==> VotePacketOk(c, h, q);
    }
    assert forall q :: q in c.net && SameCall(q, pk') ==> SameCall(q, pk);
  }

  lemma GrantCounts(c: Cluster, c': Cluster, h: History, h': History, pk: Packet)
    requires GrantStep(c, c', h, h', pk) && Counts(c, h) && Tallies(c, h)
    ensures Counts(c', h') && Tallies(c', h')
  {
    forall s | s in h'.counted
      ensures SeatOk(c', h', s)
    {
      assert SeatOk(c, h, s);
    }
    forall j, t | j in c'.nodes && t in c'.nodes[j].votesReceived
      ensures TallyOk(c'.nodes[j], h', t)
    {
      assert TallyOk(c.nodes[j], h, t);
    }
  }

  lemma GrantQualified(c: Cluster, c': Cluster, h: History, h': History, pk: Packet)
    requires GrantStep(c, c', h, h', pk) && Qualified(c, h) && VotePackets(c, h)
    requires c.nodes[pk.peer].state == Follower
    ensures Qualified(c', h')
  {
    assert VotePacketOk(c, h, pk);
  }

  lemma GrantStill(c: Cluster, c': Cluster, h: History, h': History, pk: Packet)
    requires GrantStep(c, c', h, h', pk)
    ensures Still(c, c', h, h')
  {
  }

  lemma GrantRest(c: Cluster, c': Cluster, h: History, h': History, pk: Packet)
    requires GrantStep(c, c', h, h', pk) && Config(c) && LogInv(c, h) && AckInv(c, h)
    ensures Config(c') && LogInv(c', h') && AckInv(c', h')
  {
    GrantStill(c, c', h, h', pk);
    StillRest(c, c', h, h', Ballot(pk.vote.term, pk.peer, pk.vote.candidateId));
  }

  lemma GrantInv(c: Cluster, c': Cluster, h: History, h': History, pk: Packet)
    requires GrantStep(c, c', h, h', pk) && Inv(c, h)
    ensures Inv(c', h')
  {
    GranterFollows(c, c', h, h', pk);
    GrantBallots(c, c', h, h', pk);
    GrantExclusive(c, c', h, h', pk);
    GrantPackets(c, c', h, h', pk);
    GrantCounts(c, c', h, h', pk);
    GrantQualified(c, c', h, h', pk);
    GrantRest(c, c', h, h', pk);
  }

  // ---------------------------------------------------------------------------------------
  // Counting a vote

  ghost predicate CountStep(c: Cluster, c': Cluster, h: History, h': History, pk: Packet) {
    && pk in c.net && pk.VoteRep? && pk.voteReply.voteGranted && pk.vote.candidateId in c.nodes
    && var i := pk.vote.candidateId;
       var n := c.nodes[i];
       && n.state == Candidate
       && c' == Cluster(c.nodes[i := n.(votesReceived :=
                          n.votesReceived[pk.vote.term := Lookup(n.votesReceived, pk.vote.term) + 1])], c.net - {pk})
       && h' == CountVote(h, pk.vote.term, i, pk.peer)
  }

  lemma CountCounts(c: Cluster, c': Cluster, h: History, h': History, pk: Packet)
    requires CountStep(c, c', h, h', pk) && Counts(c, h) && VotePackets(c, h) && Tallies(c, h) && Config(c)
    ensures Counts(c', h')
  {
    assert VotePacketOk(c, h, pk);
    assert TallyOk(c.nodes[pk.vote.candidateId], h, pk.vote.term);
    forall s | s in h'.counted
      ensures SeatOk(c', h', s)
    {
      assert SeatOk(c, h, s);
    }
  }

  lemma CountTallies(c: Cluster, c': Cluster, h: History, h': History, pk: Packet)
    requires CountStep(c, c', h, h', pk) && VotePackets(c, h) && Tallies(c, h) && Config(c)
    ensures Tallies(c', h')
  {
    assert VotePacketOk(c, h, pk);
    forall j, t | j in c'.nodes && t in c'.nodes[j].votesReceived
      ensures TallyOk(c'.nodes[j], h', t)
    {
      assert TallyOk(c.nodes[j], h, t);
    }
  }

  lemma CountPackets(c: Cluster, c': Cluster, h: History, h': History, pk: Packet)
    requires CountStep(c, c', h, h', pk) && VotePackets(c, h)
    ensures VotePackets(c', h')
  {
    forall q | q in c'.net && IsVote(q)
      ensures VotePacketOk(c', h', q)
    {
      assert VotePacketOk(c, h, q);
      assert !SameCall(q, pk);
    }
  }

  lemma CountStill(c: Cluster, c': Cluster, h: History, h': History, pk: Packet)
    requires CountStep(c, c', h, h', pk)
    ensures Still(c, c', h, h')
  {
  }

  lemma CountRest(c: Cluster, c': Cluster, h: History, h': History, pk: Packet)
    requires CountStep(c, c', h, h', pk) && Config(c) && LogInv(c, h) && AckInv(c, h)
    ensures Config(c') && LogInv(c', h') && AckInv(c', h')
  {
    CountStill(c, c', h, h', pk);
    StillRest(c, c', h, h', Ballot(c.nodes[pk.vote.candidateId].currentTerm, pk.vote.candidateId, pk.vote.candidateId));
  }

  /** Only a counter has changed. */
  lemma CountFrame(c: Cluster, c': Cluster, h: History, h': History, pk: Packet)
    requires CountStep(c, c', h, h', pk)
    ensures c'.nodes.Keys == c.nodes.Keys && h'.reigns == h.reigns && h'.grants == h.grants
    ensures forall j :: j in c.nodes ==> c'.nodes[j] == c.nodes[j].(votesReceived := c'.nodes[j].votesReceived)
  {
  }

  lemma CountBallots(c: Cluster, c': Cluster, h: History, h': History, pk: Packet)
    requires CountStep(c, c', h, h', pk) && Ballots(c, h) && Candidates(c, h) && Exclusive(h) && Qualified(c, h)
    ensures Ballots(c', h') && Candidates(c', h') && Exclusive(h') && Qualified(c', h')
  {
    CountFrame(c, c', h, h', pk);
    SameVotes(c, c', h, h');
  }

  lemma SameVotes(c: Cluster, c': Cluster, h: History, h': History)
    requires Ballots(c, h) && Candidates(c, h) && Exclusive(h) && Qualified(c, h)
    requires c'.nodes.Keys == c.nodes.Keys && h'.reigns == h.reigns && h'.grants == h.grants
    requires forall j :: j in c.nodes ==> c'.nodes[j] == c.nodes[j].(votesReceived := c'.nodes[j].votesReceived)
    ensures Ballots(c', h') && Candidates(c', h') && Exclusive(h') && Qualified(c', h')
  {
    forall b | b in h'.grants
      ensures BallotOk(c', h', b)
    {
      assert BallotOk(c, h, b);
    }
    assert forall b :: Leads(h', b) <==> Leads(h, b);
  }

  lemma CountInv(c: Cluster, c': Cluster, h: History, h': History, pk: Packet)
    requires CountStep(c, c', h, h', pk) && Inv(c, h)
    ensures Inv(c', h')
  {
    CountCounts(c, c', h, h', pk);
    CountTallies(c, c', h, h', pk);
    CountPackets(c, c', h, h', pk);
    CountBallots(c, c', h, h', pk);
    CountRest(c, c', h, h', pk);
  }
}
