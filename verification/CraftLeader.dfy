/** The leader's side of log replication keeps the invariant. */
module CraftLeader {
  import opened CraftNode
  import opened CraftCluster
  import opened CraftHistory
  import opened CraftMonotone
  import opened CraftRecord
  import opened CraftQuiet
  import opened CraftPassive
  import opened CraftReplication

  // ---------------------------------------------------------------------------------------
  // Packets of append calls

  ghost predicate AppendOk(c: Cluster, h: History, pk: Packet) {
    && (pk.AppendReq? || pk.AppendRep?)
    && RequestOk(c, h, pk.peer, pk.append)
    && (pk.AppendRep? ==> ReplyOk(h, pk.peer, pk.append, pk.appendReply))
  }

  lemma AddedAppends(c: Cluster, c': Cluster, h: History, pk: Packet)
    requires AppendPackets(c, h) && AppendOk(c, h, pk)
    requires c' == c.(net := c.net + {pk})
    ensures AppendPackets(c', h)
  {
    QuietExtendsSelf(h);
    forall q | q in c'.net && (q.AppendReq? || q.AppendRep?)
      ensures RequestOk(c', h, q.peer, q.append)
    {
      RecordRequest(c, c', h, h, q.peer, q.append);
    }
  }

  lemma QuietExtendsSelf(h: History)
    ensures Extends(h, h)
  {
  }

  lemma AddedVotes(c: Cluster, c': Cluster, h: History, pk: Packet)
    requires VoteInv(c, h) && !IsVote(pk)
    requires c' == c.(net := c.net + {pk})
    ensures VoteInv(c', h)
  {
    SameNodesPassive(c, c');
    PassiveCandidates(c, c', h);
    PassiveBallots(c, c', h);
    PassiveCounts(c, c', h);
    PassiveQualified(c, c', h);
    PassiveVotePackets(c, c', h);
  }

  lemma AddedAcks(c: Cluster, c': Cluster, h: History)
    requires Reigns(c, h) && AckInv(c, h) && AppendPackets(c', h) && c'.nodes == c.nodes
    ensures AckInv(c', h)
  {
    AcksOfNodes(c, c', h);
    SameNodes(c, c');
  }

  lemma AcksOfNodes(c: Cluster, c': Cluster, h: History)
    requires c'.nodes == c.nodes && Acks(c, h) && Commits(c, h)
    ensures Acks(c', h) && Commits(c', h)
  {
    forall s | s in h.acks
      ensures AckOk(c', h, s)
    {
      assert AckOk(c, h, s);
    }
  }

  lemma AddedInv(c: Cluster, c': Cluster, h: History, pk: Packet)
    requires Inv(c, h) && AppendPackets(c', h) && !IsVote(pk)
    requires c' == c.(net := c.net + {pk})
    ensures Inv(c', h)
  {
    AddedParts(c, c', h, pk);
  }

  lemma AddedParts(c: Cluster, c': Cluster, h: History, pk: Packet)
    requires Config(c) && VoteInv(c, h) && LogInv(c, h) && AckInv(c, h) && AppendPackets(c', h) && !IsVote(pk)
    requires c' == c.(net := c.net + {pk})
    ensures Config(c') && VoteInv(c', h) && LogInv(c', h) && AckInv(c', h)
  {
    AddedVotes(c, c', h, pk);
    AddedLogs(c, c', h, pk);
    AddedAcks(c, c', h);
  }

  lemma AddedLogs(c: Cluster, c': Cluster, h: History, pk: Packet)
    requires Config(c) && LogInv(c, h) && c' == c.(net := c.net + {pk})
    ensures Config(c') && LogInv(c', h)
  {
    SameNodesPassive(c, c');
    PassiveLogs(c, c', h);
  }

  /** The request a leader builds vouches for a stretch of its own log and for what it has committed. */
  lemma SentRequestOk(c: Cluster, h: History, i: int, peer: int)
    requires Config(c) && Leaders(c, h) && Commits(c, h)
    requires i in c.nodes && c.nodes[i].state == Leader && peer in c.nodes[i].peerIds && NextInRange(c.nodes[i], peer)
    ensures RequestOk(c, h, peer, MakeAppendRequest(c.nodes[i], peer))
  {
    assert LeaderOk(c.nodes[i], h);
    assert CommitOk(h, c.nodes.Keys, c.nodes[i]);
  }

  lemma SentAppends(c: Cluster, c': Cluster, h: History, i: int, peer: int)
    requires Config(c) && Leaders(c, h) && Commits(c, h) && AppendPackets(c, h)
    requires i in c.nodes && c.nodes[i].state == Leader && peer in c.nodes[i].peerIds && NextInRange(c.nodes[i], peer)
    requires c' == c.(net := c.net + {AppendReq(peer, MakeAppendRequest(c.nodes[i], peer))})
    ensures AppendPackets(c', h)
  {
    SentRequestOk(c, h, i, peer);
    AddedAppends(c, c', h, AppendReq(peer, MakeAppendRequest(c.nodes[i], peer)));
  }

  lemma RefusedAppends(c: Cluster, c': Cluster, h: History, pk: Packet, rep: AppendReply)
    requires AppendPackets(c, h) && pk in c.net && pk.AppendReq?
    requires !rep.success && (rep.term == pk.append.term ==> 0 <= rep.conflictIndex <= pk.append.prevLogIndex)
    requires c' == c.(net := c.net + {AppendRep(pk.peer, pk.append, rep)})
    ensures AppendPackets(c', h)
  {
    assert RequestOk(c, h, pk.peer, pk.append);
    AddedAppends(c, c', h, AppendRep(pk.peer, pk.append, rep));
  }

  // ---------------------------------------------------------------------------------------
  // The leader's view of its peers, and its commit index

  ghost predicate LeaderMove(c: Cluster, c': Cluster, h: History, i: int) {
    && i in c.nodes && i in c'.nodes && c.nodes[i].state == Leader
    && var n, n' := c.nodes[i], c'.nodes[i];
       && n' == n.(nextIndex := n'.nextIndex, matchIndex := n'.matchIndex, commitIndex := n'.commitIndex)
       && c'.nodes == c.nodes[i := n'] && c'.net == c.net
       && n.commitIndex <= n'.commitIndex
       && LeaderOk(n', h) && CommitOk(h, c.nodes.Keys, n')
  }

  lemma LeaderMoveVotes(c: Cluster, c': Cluster, h: History, i: int)
    requires LeaderMove(c, c', h, i) && Candidates(c, h) && Ballots(c, h) && Qualified(c, h)
    ensures Candidates(c', h) && Ballots(c', h) && Qualified(c', h)
  {
    forall b | b in h.grants
      ensures BallotOk(c', h, b)
    {
      assert BallotOk(c, h, b);
    }
  }

  lemma LeaderMoveCounts(c: Cluster, c': Cluster, h: History, i: int)
    requires LeaderMove(c, c', h, i) && Counts(c, h) && Tallies(c, h)
    ensures Counts(c', h) && Tallies(c', h)
  {
    forall s | s in h.counted
      ensures SeatOk(c', h, s)
    {
      assert SeatOk(c, h, s);
    }
    forall j, t | j in c'.nodes && t in c'.nodes[j].votesReceived
      ensures TallyOk(c'.nodes[j], h, t)
    {
      assert TallyOk(c.nodes[j], h, t);
    }
  }

  lemma LeaderMovePackets(c: Cluster, c': Cluster, h: History, i: int)
    requires LeaderMove(c, c', h, i) && VotePackets(c, h)
    ensures VotePackets(c', h)
  {
    forall pk | pk in c'.net && IsVote(pk)
      ensures VotePacketOk(c', h, pk)
    {
      assert VotePacketOk(c, h, pk);
    }
  }

  lemma LeaderMoveLeaders(c: Cluster, c': Cluster, h: History, i: int)
    requires LeaderMove(c, c', h, i) && Leaders(c, h)
    ensures Leaders(c', h)
  {
  }

  lemma LeaderMoveQuiet(c: Cluster, c': Cluster, h: History, i: int)
    requires LeaderMove(c, c', h, i)
    ensures Quiet(c, c', h, h)
  {
  }

  lemma LeaderMoveCommits(c: Cluster, c': Cluster, h: History, i: int)
    requires LeaderMove(c, c', h, i) && Commits(c, h) && Deliveries(c)
    ensures Commits(c', h) && Deliveries(c')
  {
    assert c'.nodes.Keys == c.nodes.Keys;
    DeliveryGrows(c.nodes[i], c'.nodes[i]);
  }

  lemma LeaderMoveRest(c: Cluster, c': Cluster, h: History, i: int)
    requires LeaderMove(c, c', h, i) && Config(c) && LogInv(c, h) && AckInv(c, h)
    ensures Config(c') && LogInv(c', h) && AckInv(c', h)
  {
    LeaderMoveQuiet(c, c', h, i);
    QuietConfig(c, c', h, h);
    QuietReigns(c, c', h, h);
    QuietLogs(c, c', h, h);
    LeaderMoveLeaders(c, c', h, i);
    QuietAcks(c, c', h, h);
    QuietExtendsSelf(h);
    RecordPackets(c, c', h, h);
    LeaderMoveCommits(c, c', h, i);
  }

  lemma LeaderMoveInv(c: Cluster, c': Cluster, h: History, i: int)
    requires LeaderMove(c, c', h, i) && Inv(c, h)
    ensures Inv(c', h)
  {
    LeaderMoveVotes(c, c', h, i);
    LeaderMoveCounts(c, c', h, i);
    LeaderMovePackets(c, c', h, i);
    LeaderMoveRest(c, c', h, i);
  }

  /** The peers that match up to `i`, with the leader itself, hold the entry. */
  lemma MatchingHold(c: Cluster, h: History, n: Node, i: int)
    requires LeaderOk(n, h) && PeersOf(n.peerIds, n.id, c.nodes.Keys) && n.id in c.nodes
    requires Seat(n.currentTerm, n.id) in h.acks && h.acks[Seat(n.currentTerm, n.id)] == |n.log|
    requires 0 <= i < |n.log|
    ensures 1 + |Matching(n, i)| <= |Holders(h, c.nodes.Keys, n.currentTerm, i + 1)|
  {
    var m := Matching(n, i);
    forall p | p in m + {n.id}
      ensures p in Holders(h, c.nodes.Keys, n.currentTerm, i + 1)
    {
      assert p in m ==> PeerOk(n, h, p);
    }
    SubsetSize(m + {n.id}, Holders(h, c.nodes.Keys, n.currentTerm, i + 1));
    assert |m + {n.id}| == |m| + 1;
  }

  /** The entry that the scan picks is committed. */
  lemma ScanCommits(c: Cluster, h: History, n: Node)
    requires LeaderOk(n, h) && PeersOf(n.peerIds, n.id, c.nodes.Keys) && n.id in c.nodes
    requires Seat(n.currentTerm, n.id) in h.acks && h.acks[Seat(n.currentTerm, n.id)] == |n.log|
    requires CommitOk(h, c.nodes.Keys, n)
    ensures CommitOk(h, c.nodes.Keys, n.(commitIndex := CommitScan(n, |n.log|)))
  {
    var r := CommitScan(n, |n.log|);
    if r != n.commitIndex {
      MatchingHold(c, h, n, r);
      assert CommittedBy(h, c.nodes.Keys, n.log, r + 1, n.currentTerm, n.currentTerm, r);
    }
  }

  /** The peer has acknowledged the first `ni` entries of the leader of `t`. */
  ghost predicate Credible(h: History, t: int, peer: int, ni: int) {
    ni == 0 || (Seat(t, peer) in h.acks && ni <= h.acks[Seat(t, peer)])
  }

  lemma AckedLeaderOk(n: Node, n1: Node, h: History, peer: int, ni: int)
    requires LeaderOk(n, h) && 0 <= ni <= |n.log|
    requires n1 == n.(nextIndex := n.nextIndex[peer := ni], matchIndex := n.matchIndex[peer := ni - 1])
    requires Credible(h, n.currentTerm, peer, ni)
    ensures LeaderOk(n1, h)
  {
    forall p | p in n1.peerIds
      ensures PeerOk(n1, h, p)
    {
      assert PeerOk(n, h, p);
    }
  }

  /** The leader's state after a peer has acknowledged the first `ni` entries. */
  function Acked(n: Node, peer: int, ni: int): Node
    requires n.commitIndex >= -1
  {
    var n1 := n.(nextIndex := n.nextIndex[peer := ni], matchIndex := n.matchIndex[peer := ni - 1]);
    n1.(commitIndex := CommitScan(n1, |n1.log|))
  }

  lemma AckedOk(c: Cluster, h: History, n: Node, peer: int, ni: int)
    requires LeaderOk(n, h) && CommitOk(h, c.nodes.Keys, n)
    requires PeersOf(n.peerIds, n.id, c.nodes.Keys) && n.id in c.nodes
    requires Seat(n.currentTerm, n.id) in h.acks && h.acks[Seat(n.currentTerm, n.id)] == |n.log|
    requires 0 <= ni <= |n.log| && Credible(h, n.currentTerm, peer, ni)
    ensures LeaderOk(Acked(n, peer, ni), h) && CommitOk(h, c.nodes.Keys, Acked(n, peer, ni))
    ensures n.commitIndex <= Acked(n, peer, ni).commitIndex
  {
    var n1 := n.(nextIndex := n.nextIndex[peer := ni], matchIndex := n.matchIndex[peer := ni - 1]);
    AckedLeaderOk(n, n1, h, peer, ni);
    ScanCommits(c, h, n1);
    CommitFieldFree(n1, Acked(n, peer, ni), h);
  }

  lemma AckReplyMove(c: Cluster, c': Cluster, h: History, pk: Packet)
    requires Config(c) && Leaders(c, h) && Acks(c, h) && Commits(c, h) && AppendPackets(c, h)
    requires pk in c.net && pk.AppendRep? && pk.append.leaderId in c.nodes && pk.appendReply.success
    requires var n := c.nodes[pk.append.leaderId];
             && n.state == Leader && n.commitIndex >= -1 && Vouched(c, pk.peer, n.currentTerm, Reach(pk.append))
             && c' == c.(nodes := c.nodes[pk.append.leaderId := Acked(n, pk.peer, Reach(pk.append))])
    ensures LeaderMove(c, c', h, pk.append.leaderId)
  {
    var n := c.nodes[pk.append.leaderId];
    assert RequestOk(c, h, pk.peer, pk.append);
    assert LeaderOk(n, h) && CommitOk(h, c.nodes.Keys, n);
    VouchedIsCredible(c, h, n, pk.peer, Reach(pk.append));
    AckedOk(c, h, n, pk.peer, Reach(pk.append));
  }

  lemma VouchedIsCredible(c: Cluster, h: History, n: Node, peer: int, k: int)
    requires Acks(c, h) && AppendPackets(c, h) && LeaderOk(n, h) && k >= 0 && Vouched(c, peer, n.currentTerm, k)
    ensures Credible(h, n.currentTerm, peer, k) && k <= |n.log|
  {
    if k > 0 {
      var pk :| pk in c.net && Vouches(pk, peer, n.currentTerm, k);
      assert ReplyOk(h, pk.peer, pk.append, pk.appendReply);
      assert AckOk(c, h, Seat(n.currentTerm, peer));
    }
  }

  /** What is known of the peers does not depend on the commit index. */
  lemma CommitFieldFree(n: Node, n': Node, h: History)
    requires LeaderOk(n, h) && n' == n.(commitIndex := n'.commitIndex)
    ensures LeaderOk(n', h)
  {
    forall p | p in n'.peerIds
      ensures PeerOk(n', h, p)
    {
      assert PeerOk(n, h, p);
    }
  }

  lemma BackUpMove(c: Cluster, c': Cluster, h: History, pk: Packet)
    requires Config(c) && Leaders(c, h) && Commits(c, h) && AppendPackets(c, h)
    requires pk in c.net && pk.AppendRep? && pk.append.leaderId in c.nodes
    requires var n := c.nodes[pk.append.leaderId];
             n.state == Leader && BackUp(n.log, pk.appendReply) <= |n.log|
    requires !pk.appendReply.success && pk.appendReply.term == pk.append.term
    requires var n := c.nodes[pk.append.leaderId];
             c' == c.(nodes := c.nodes[pk.append.leaderId :=
               n.(nextIndex := n.nextIndex[pk.peer := BackUp(n.log, pk.appendReply)])])
    ensures LeaderMove(c, c', h, pk.append.leaderId)
  {
    var i := pk.append.leaderId;
    assert RequestOk(c, h, pk.peer, pk.append) && ReplyOk(h, pk.peer, pk.append, pk.appendReply);
    assert LeaderOk(c.nodes[i], h) && CommitOk(h, c.nodes.Keys, c.nodes[i]);
    BackUpLeaderOk(c.nodes[i], c'.nodes[i], h, pk.peer, BackUp(c.nodes[i].log, pk.appendReply));
  }

  lemma BackUpLeaderOk(n: Node, n': Node, h: History, peer: int, ni: int)
    requires LeaderOk(n, h) && 0 <= ni <= |n.log|
    requires n' == n.(nextIndex := n.nextIndex[peer := ni])
    ensures LeaderOk(n', h)
  {
    forall p | p in n'.peerIds
      ensures PeerOk(n', h, p)
    {
      assert PeerOk(n, h, p);
    }
  }

  // ---------------------------------------------------------------------------------------
  // A client's command

  ghost predicate SubmitStep(c: Cluster, c': Cluster, h: History, h': History, i: int) {
    && i in c.nodes && i in c'.nodes && c.nodes[i].state == Leader
    && c.nodes[i].currentTerm in h.reigns && h.reigns[c.nodes[i].currentTerm].log == c.nodes[i].log
    && h.reigns[c.nodes[i].currentTerm].leader == i
    && var n, n', t := c.nodes[i], c'.nodes[i], c.nodes[i].currentTerm;
       && n' == n.(log := n'.log) && |n'.log| == |n.log| + 1
       && Agree(n.log, n'.log, |n.log|) && n'.log[|n.log|].term == t
       && c' == c.(nodes := c.nodes[i := n'])
       && h' == h.(reigns := h.reigns[t := h.reigns[t].(log := n'.log)], acks := h.acks[Seat(t, i) := |n'.log|])
       && Seat(t, i) in h.acks && h.acks[Seat(t, i)] == |n.log|
  }

  lemma SubmitFrame(c: Cluster, c': Cluster, h: History, h': History, i: int)
    requires SubmitStep(c, c', h, h', i)
    ensures Extends(h, h') && c'.nodes.Keys == c.nodes.Keys
    ensures h'.grants == h.grants && h'.counted == h.counted
  {
  }

  lemma SubmitVotes(c: Cluster, c': Cluster, h: History, h': History, i: int)
    requires SubmitStep(c, c', h, h', i) && Candidates(c, h) && Ballots(c, h) && Qualified(c, h) && Exclusive(h)
    ensures Candidates(c', h') && Ballots(c', h') && Qualified(c', h') && Exclusive(h')
  {
    forall b | b in h.grants
      ensures BallotOk(c', h', b)
    {
      assert BallotOk(c, h, b);
    }
  }

  lemma SubmitCounts(c: Cluster, c': Cluster, h: History, h': History, i: int)
    requires SubmitStep(c, c', h, h', i) && Counts(c, h) && Tallies(c, h)
    ensures Counts(c', h') && Tallies(c', h')
  {
    forall s | s in h.counted
      ensures SeatOk(c', h', s)
    {
      assert SeatOk(c, h, s);
    }
    forall j, t | j in c'.nodes && t in c'.nodes[j].votesReceived
      ensures TallyOk(c'.nodes[j], h', t)
    {
      assert TallyOk(c.nodes[j], h, t);
    }
  }

  lemma SubmitVotePackets(c: Cluster, c': Cluster, h: History, h': History, i: int)
    requires SubmitStep(c, c', h, h', i) && VotePackets(c, h)
    ensures VotePackets(c', h')
  {
    forall pk | pk in c'.net && IsVote(pk)
      ensures VotePacketOk(c', h', pk)
    {
      assert VotePacketOk(c, h, pk);
    }
  }

  lemma SubmitOrigin(c: Cluster, c': Cluster, h: History, h': History, i: int)
    requires SubmitStep(c, c', h, h', i) && Origin(h, c.nodes[i].log)
    ensures Origin(h', c'.nodes[i].log)
  {
    SubmitFrame(c, c', h, h', i);
    OriginMono(h, h', c.nodes[i].log);
    var log, log' := c.nodes[i].log, c'.nodes[i].log;
    forall k | 0 <= k < |log'|
      ensures log'[k].term in h'.reigns && Agree(log', h'.reigns[log'[k].term].log, k + 1)
    {
      if k < |log| {
        assert log'[k] == log[k] && Agree(log, h'.reigns[log[k].term].log, k + 1);
      }
    }
  }

  lemma SubmitReigns(c: Cluster, c': Cluster, h: History, h': History, i: int)
    requires SubmitStep(c, c', h, h', i) && Reigns(c, h)
    ensures Reigns(c', h')
  {
    SubmitFrame(c, c', h, h', i);
    forall t | t in h'.reigns
      ensures ReignOk(c', h', t)
    {
      assert ReignOk(c, h, t);
      if t == c.nodes[i].currentTerm {
        SubmitOrigin(c, c', h, h', i);
        assert ReignLog(h'.reigns[t], t);
      } else {
        OriginMono(h, h', h.reigns[t].log);
      }
      assert Elected(h', c'.nodes.Keys, t);
    }
  }

  lemma SubmitLogs(c: Cluster, c': Cluster, h: History, h': History, i: int)
    requires SubmitStep(c, c', h, h', i) && Logs(c, h)
    ensures Logs(c', h')
  {
    SubmitFrame(c, c', h, h', i);
    SubmitOrigin(c, c', h, h', i);
    forall j | j in c'.nodes
      ensures Origin(h', c'.nodes[j].log)
    {
      if j != i {
        OriginMono(h, h', c.nodes[j].log);
      }
    }
    forall b | b in h'.grants
      ensures Origin(h', h'.grants[b])
    {
      OriginMono(h, h', h.grants[b]);
    }
  }

  lemma SubmitLeaders(c: Cluster, c': Cluster, h: History, h': History, i: int)
    requires SubmitStep(c, c', h, h', i) && Leaders(c, h) && Config(c)
    ensures Leaders(c', h')
  {
    forall j | j in c'.nodes && c'.nodes[j].state == Leader
      ensures LeaderOk(c'.nodes[j], h')
    {
      assert LeaderOk(c.nodes[j], h);
      forall p | p in c'.nodes[j].peerIds
        ensures PeerOk(c'.nodes[j], h', p)
      {
        assert PeerOk(c.nodes[j], h, p);
      }
    }
  }

  /** Appending to a log loses nothing of what it kept. */
  lemma KeepsLonger(h: History, log: Log, log': Log, t: int, n: int, bound: int)
    requires t in h.reigns && KeepsAll(h, log, t, n, bound)
    requires |log| <= |log'| && Agree(log, log', |log|)
    ensures KeepsAll(h, log', t, n, bound)
  {
    forall k | 0 <= k <= n
      ensures Keeps(h, log', t, k, bound)
    {
      assert Keeps(h, log, t, k, bound);
    }
  }

  lemma SubmitAck(c: Cluster, c': Cluster, h: History, h': History, i: int, s: Seat)
    requires SubmitStep(c, c', h, h', i) && Reigns(c, h) && s in h.acks && AckOk(c, h, s)
    requires s != Seat(c.nodes[i].currentTerm, i)
    ensures AckOk(c', h', s)
  {
    SubmitFrame(c, c', h, h', i);
    assert ReignOk(c, h, s.term);
    var bound := c.nodes[s.node].currentTerm + 1;
    KeepsAllMono(h, h', c.nodes[s.node].log, s.term, h.acks[s], bound, bound);
    KeepsLonger(h', c.nodes[s.node].log, c'.nodes[s.node].log, s.term, h.acks[s], bound);
  }

  lemma SubmitAcks(c: Cluster, c': Cluster, h: History, h': History, i: int)
    requires SubmitStep(c, c', h, h', i) && Reigns(c, h) && Acks(c, h)
    ensures Acks(c', h')
  {
    forall s | s in h'.acks
      ensures AckOk(c', h', s)
    {
      if s != Seat(c.nodes[i].currentTerm, i) {
        SubmitAck(c, c', h, h', i, s);
      }
    }
  }

  lemma SubmitVoterLogs(c: Cluster, c': Cluster, h: History, h': History, i: int)
    requires SubmitStep(c, c', h, h', i) && VoterLogs(h) && Ballots(c, h) && Acks(c, h) && Reigns(c, h)
    ensures VoterLogs(h')
  {
    SubmitFrame(c, c', h, h', i);
    forall b, s | b in h'.grants && Effective(h', b) && s in h'.acks && s.node == b.voter && s.term < b.term
      ensures s.term in h'.reigns && KeepsAll(h', h'.grants[b], s.term, h'.acks[s], b.term)
    {
      assert BallotOk(c, h, b);
      assert s != Seat(c.nodes[i].currentTerm, i);
      assert Effective(h, b);
      assert AckOk(c, h, s) && ReignOk(c, h, s.term);
      KeepsAllMono(h, h', h.grants[b], s.term, h.acks[s], b.term, b.term);
    }
  }

  lemma SubmitCommits(c: Cluster, c': Cluster, h: History, h': History, i: int)
    requires SubmitStep(c, c', h, h', i) && Commits(c, h)
    ensures Commits(c', h')
  {
    SubmitFrame(c, c', h, h', i);
    forall j | j in c'.nodes
      ensures CommitOk(h', c'.nodes.Keys, c'.nodes[j])
    {
      assert CommitOk(h, c.nodes.Keys, c.nodes[j]);
      RecordCommit(h, h', c.nodes.Keys, c.nodes[j], c'.nodes[j]);
    }
  }

  lemma SubmitDeliveries(c: Cluster, c': Cluster, h: History, h': History, i: int)
    requires SubmitStep(c, c', h, h', i) && Deliveries(c)
    ensures Deliveries(c')
  {
    DeliveryGrows(c.nodes[i], c'.nodes[i]);
  }

  lemma SubmitAckInv(c: Cluster, c': Cluster, h: History, h': History, i: int)
    requires SubmitStep(c, c', h, h', i) && Reigns(c, h) && Ballots(c, h) && AckInv(c, h)
    ensures AckInv(c', h')
  {
    SubmitFrame(c, c', h, h', i);
    SubmitAcks(c, c', h, h', i);
    SubmitVoterLogs(c, c', h, h', i);
    RecordPackets(c, c', h, h');
    SubmitCommits(c, c', h, h', i);
    SubmitDeliveries(c, c', h, h', i);
  }

  lemma SubmitLogInv(c: Cluster, c': Cluster, h: History, h': History, i: int)
    requires SubmitStep(c, c', h, h', i) && Config(c) && LogInv(c, h)
    ensures Config(c') && LogInv(c', h')
  {
    SubmitFrame(c, c', h, h', i);
    SubmitReigns(c, c', h, h', i);
    SubmitLogs(c, c', h, h', i);
    SubmitLeaders(c, c', h, h', i);
  }

  lemma SubmitInv(c: Cluster, c': Cluster, h: History, h': History, i: int)
    requires SubmitStep(c, c', h, h', i) && Inv(c, h)
    ensures Inv(c', h')
  {
    SubmitVotes(c, c', h, h', i);
    SubmitCounts(c, c', h, h', i);
    SubmitVotePackets(c, c', h, h', i);
    SubmitLogInv(c, c', h, h', i);
    SubmitAckInv(c, c', h, h', i);
  }
}
