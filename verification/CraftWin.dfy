/** Winning an election: the term has no other leader, and the invariant is kept. */
module CraftWin {
  import opened CraftNode
  import opened CraftCluster
  import opened CraftHistory
  import opened CraftMonotone
  import opened CraftRecord

  ghost predicate WinStep(c: Cluster, c': Cluster, h: History, h': History, i: int) {
    && i in c.nodes
    && var n := c.nodes[i];
       var t := n.currentTerm;
       && n.state == Candidate
       && t in n.votesReceived && n.votesReceived[t] * 2 > |n.peerIds| + 1
       && c' == c.(nodes := c.nodes[i := StartLeader(n)])
       && Seat(t, i) in h.counted && t !in h.reigns && Seat(t, i) !in h.acks
       && h' == h.(reigns := h.reigns[t := Reign(i, n.log, h.counted[Seat(t, i)], n.log)],
                   acks := h.acks[Seat(t, i) := |n.log|])
  }

  lemma QuorumOf(c: Cluster, h: History, i: int)
    requires Config(c) && Tallies(c, h) && Counts(c, h)
    requires i in c.nodes && c.nodes[i].currentTerm in c.nodes[i].votesReceived
    requires c.nodes[i].votesReceived[c.nodes[i].currentTerm] * 2 > |c.nodes[i].peerIds| + 1
    ensures Seat(c.nodes[i].currentTerm, i) in h.counted
    ensures Majority(h.counted[Seat(c.nodes[i].currentTerm, i)], c.nodes.Keys)
  {
    var t := c.nodes[i].currentTerm;
    assert TallyOk(c.nodes[i], h, t);
    assert SeatOk(c, h, Seat(t, i));
    assert forall p :: p in h.counted[Seat(t, i)] ==> p in c.nodes.Keys;
  }

  /** Even though a vote for oneself can be dropped within a term, a candidate with a majority of
      votes finds its term without a leader. */
  lemma NoSecondLeader(c: Cluster, h: History, i: int)
    requires Config(c) && Reigns(c, h) && Ballots(c, h) && Exclusive(h) && Tallies(c, h) && Counts(c, h)
    requires i in c.nodes && c.nodes[i].state == Candidate && c.nodes[i].currentTerm in c.nodes[i].votesReceived
    requires c.nodes[i].votesReceived[c.nodes[i].currentTerm] * 2 > |c.nodes[i].peerIds| + 1
    ensures c.nodes[i].currentTerm !in h.reigns
  {
    var t := c.nodes[i].currentTerm;
    QuorumOf(c, h, i);
    if t in h.reigns {
      var r := h.reigns[t];
      assert ReignOk(c, h, t);
      var p := QuorumsMeet(r.quorum, h.counted[Seat(t, i)], c.nodes.Keys);
      assert SeatOk(c, h, Seat(t, i));
      SharedVoter(c, h, t, p, r.leader, i);
      assert false;
    }
  }

  /** No node has voted, in one term, for its leader and for another node that is still a candidate. */
  lemma SharedVoter(c: Cluster, h: History, t: int, p: int, leader: int, i: int)
    requires Ballots(c, h) && Exclusive(h) && Ballot(t, p, leader) in h.grants && Ballot(t, p, i) in h.grants
    requires t in h.reigns && h.reigns[t].leader == leader
    requires i in c.nodes && c.nodes[i].currentTerm == t && c.nodes[i].state == Candidate
    ensures leader == i
  {
    var b1, b2 := Ballot(t, p, leader), Ballot(t, p, i);
    assert Rivals(b1, b2) ==> leader == i;
    assert BallotOk(c, h, b1) && BallotOk(c, h, b2);
    assert p != i ==> !Leads(h, b2);
  }

  lemma WinExtends(c: Cluster, c': Cluster, h: History, h': History, i: int)
    requires WinStep(c, c', h, h', i)
    ensures Extends(h, h')
  {
  }

  lemma WinVotes(c: Cluster, c': Cluster, h: History, h': History, i: int)
    requires WinStep(c, c', h, h', i) && Candidates(c, h) && Ballots(c, h) && Exclusive(h) && Qualified(c, h)
    ensures Candidates(c', h') && Exclusive(h') && Qualified(c', h')
  {
    forall b | b in h.grants && b.voter != b.candidate
      ensures !Leads(h', b)
    {
      assert BallotOk(c, h, b) && !Leads(h, b);
    }
  }

  lemma WinBallots(c: Cluster, c': Cluster, h: History, h': History, i: int)
    requires WinStep(c, c', h, h', i) && Ballots(c, h) && Candidates(c, h)
    ensures Ballots(c', h')
  {
    forall b | b in h'.grants
      ensures BallotOk(c', h', b)
    {
      assert BallotOk(c, h, b);
    }
  }

  lemma WinPackets(c: Cluster, c': Cluster, h: History, h': History, i: int)
    requires WinStep(c, c', h, h', i) && VotePackets(c, h)
    ensures VotePackets(c', h')
  {
    forall pk | pk in c'.net && IsVote(pk)
      ensures VotePacketOk(c', h', pk)
    {
      assert VotePacketOk(c, h, pk);
    }
  }

  lemma WinCounts(c: Cluster, c': Cluster, h: History, h': History, i: int)
    requires WinStep(c, c', h, h', i) && Counts(c, h) && Tallies(c, h)
    ensures Counts(c', h') && Tallies(c', h')
  {
    forall s | s in h'.counted
      ensures SeatOk(c', h', s)
    {
      assert SeatOk(c, h, s);
    }
    forall j, t | j in c'.nodes && t in c'.nodes[j].votesReceived
      ensures TallyOk(c'.nodes[j], h', t)
    {
      assert TallyOk(c.nodes[j], h, t);
    }
  }

  lemma WinNewReign(c: Cluster, c': Cluster, h: History, h': History, i: int)
    requires WinStep(c, c', h, h', i) && Config(c) && Tallies(c, h) && Counts(c, h) && Qualified(c, h) && Logs(c, h)
    ensures ReignOk(c', h', c.nodes[i].currentTerm)
  {
    WinElected(c, c', h, h', i);
    WinNewLog(c, c', h, h', i);
    WinCore(c, c', h, h', i);
  }

  lemma WinElected(c: Cluster, c': Cluster, h: History, h': History, i: int)
    requires WinStep(c, c', h, h', i) && Config(c) && Tallies(c, h) && Counts(c, h) && Qualified(c, h)
    ensures c.nodes[i].currentTerm in h'.reigns && Elected(h', c'.nodes.Keys, c.nodes[i].currentTerm)
  {
    var t := c.nodes[i].currentTerm;
    QuorumOf(c, h, i);
    WinCore(c, c', h, h', i);
    assert SeatOk(c, h, Seat(t, i));
  }

  lemma WinNewLog(c: Cluster, c': Cluster, h: History, h': History, i: int)
    requires WinStep(c, c', h, h', i) && Logs(c, h)
    ensures var t := c.nodes[i].currentTerm;
            t in h'.reigns && t >= 0 && ReignLog(h'.reigns[t], t) && Origin(h', h'.reigns[t].log)
  {
    WinExtends(c, c', h, h', i);
    OriginMono(h, h', c.nodes[i].log);
    OlderEntries(h, c.nodes[i].log, c.nodes[i].currentTerm);
  }

  /** The entries of a log are of terms that had a leader. */
  lemma OlderEntries(h: History, log: Log, t: int)
    requires Origin(h, log) && t !in h.reigns && forall k :: 0 <= k < |log| ==> log[k].term <= t
    ensures forall k :: 0 <= k < |log| ==> log[k].term < t
  {
  }

  lemma WinReigns(c: Cluster, c': Cluster, h: History, h': History, i: int)
    requires WinStep(c, c', h, h', i) && Config(c) && Tallies(c, h) && Counts(c, h) && Qualified(c, h) && Logs(c, h) && Reigns(c, h)
    ensures Reigns(c', h')
  {
    WinNewReign(c, c', h, h', i);
    forall t | t in h.reigns
      ensures ReignOk(c', h', t)
    {
      assert ReignOk(c, h, t);
      WinOldReign(c, c', h, h', i, t);
    }
  }

  lemma WinOldReign(c: Cluster, c': Cluster, h: History, h': History, i: int, t: int)
    requires WinStep(c, c', h, h', i) && t in h.reigns && ReignOk(c, h, t)
    ensures t in h'.reigns && ReignOk(c', h', t)
  {
    WinExtends(c, c', h, h', i);
    WinCore(c, c', h, h', i);
    OriginMono(h, h', h.reigns[t].log);
  }

  lemma WinLogs(c: Cluster, c': Cluster, h: History, h': History, i: int)
    requires WinStep(c, c', h, h', i) && Logs(c, h)
    ensures Logs(c', h')
  {
    WinExtends(c, c', h, h', i);
    forall j | j in c'.nodes
      ensures Origin(h', c'.nodes[j].log)
    {
      OriginMono(h, h', c.nodes[j].log);
    }
    forall b | b in h'.grants
      ensures Origin(h', h'.grants[b])
    {
      OriginMono(h, h', h.grants[b]);
    }
  }

  lemma WinLeaders(c: Cluster, c': Cluster, h: History, h': History, i: int)
    requires WinStep(c, c', h, h', i) && Leaders(c, h) && Config(c)
    ensures Leaders(c', h')
  {
    forall j | j in c'.nodes && c'.nodes[j].state == Leader
      ensures LeaderOk(c'.nodes[j], h')
    {
      if j != i {
        assert LeaderOk(c.nodes[j], h);
        assert forall p :: p in c.nodes[j].peerIds ==> PeerOk(c.nodes[j], h, p);
      }
    }
  }

  lemma WinAcks(c: Cluster, c': Cluster, h: History, h': History, i: int)
    requires WinStep(c, c', h, h', i) && Acks(c, h) && Reigns(c, h)
    ensures Acks(c', h')
  {
    WinnerAck(c, c', h, h', i);
    forall s | s in h.acks
      ensures AckOk(c', h', s)
    {
      assert AckOk(c, h, s);
      WinOldAck(c, c', h, h', i, s);
    }
    assert forall s :: s in h'.acks ==> s in h.acks || s == Seat(c.nodes[i].currentTerm, i);
  }

  lemma WinOldAck(c: Cluster, c': Cluster, h: History, h': History, i: int, s: Seat)
    requires WinStep(c, c', h, h', i) && Reigns(c, h) && s in h.acks && AckOk(c, h, s)
    ensures s in h'.acks && AckOk(c', h', s)
  {
    WinExtends(c, c', h, h', i);
    WinCore(c, c', h, h', i);
    assert SameCore(c.nodes[s.node], c'.nodes[s.node]);
    RecordAck(c, c', h, h', s);
  }

  /** The winner holds its own log. */
  lemma WinnerAck(c: Cluster, c': Cluster, h: History, h': History, i: int)
    requires WinStep(c, c', h, h', i)
    ensures AckOk(c', h', Seat(c.nodes[i].currentTerm, i))
  {
    var t, log := c.nodes[i].currentTerm, c.nodes[i].log;
    assert c'.nodes[i].log == log && h'.reigns[t].log == log;
    assert forall k :: 0 <= k <= |log| ==> Agree(log, log, k);
  }

  lemma WinVoterLogs(c: Cluster, c': Cluster, h: History, h': History, i: int)
    requires WinStep(c, c', h, h', i) && VoterLogs(h) && Reigns(c, h) && Acks(c, h) && Ballots(c, h)
    ensures VoterLogs(h')
  {
    WinExtends(c, c', h, h', i);
    forall b, s | b in h'.grants && Effective(h', b) && s in h'.acks && s.node == b.voter && s.term < b.term
      ensures s.term in h'.reigns && KeepsAll(h', h'.grants[b], s.term, h'.acks[s], b.term)
    {
      assert Effective(h, b);
      assert BallotOk(c, h, b);
      assert s != Seat(c.nodes[i].currentTerm, i);
      assert AckOk(c, h, s) && ReignOk(c, h, s.term);
      KeepsAllMono(h, h', h.grants[b], s.term, h.acks[s], b.term, b.term);
    }
  }

  lemma WinInv(c: Cluster, c': Cluster, h: History, h': History, i: int)
    requires WinStep(c, c', h, h', i) && Inv(c, h)
    ensures Inv(c', h')
  {
    WinVotes(c, c', h, h', i);
    WinBallots(c, c', h, h', i);
    WinPackets(c, c', h, h', i);
    WinCounts(c, c', h, h', i);
    WinReigns(c, c', h, h', i);
    WinLogs(c, c', h, h', i);
    WinLeaders(c, c', h, h', i);
    WinAcks(c, c', h, h', i);
    WinVoterLogs(c, c', h, h', i);
    WinCommits(c, c', h, h', i);
    WinRest(c, c', h, h', i);
  }

  predicate SameCore(n: Node, n': Node) {
    && n'.id == n.id && n'.peerIds == n.peerIds && n'.log == n.log && n'.currentTerm == n.currentTerm
    && n'.commitIndex == n.commitIndex && n'.lastApplied == n.lastApplied
    && n'.sender == n.sender && n'.delivered == n.delivered
  }

  lemma WinCore(c: Cluster, c': Cluster, h: History, h': History, i: int)
    requires WinStep(c, c', h, h', i)
    ensures c'.nodes.Keys == c.nodes.Keys
    ensures forall j :: j in c.nodes ==> SameCore(c.nodes[j], c'.nodes[j])
  {
  }

  lemma WinCommits(c: Cluster, c': Cluster, h: History, h': History, i: int)
    requires WinStep(c, c', h, h', i) && Commits(c, h)
    ensures Commits(c', h')
  {
    WinExtends(c, c', h, h', i);
    WinCore(c, c', h, h', i);
    forall j | j in c'.nodes
      ensures CommitOk(h', c'.nodes.Keys, c'.nodes[j])
    {
      assert SameCore(c.nodes[j], c'.nodes[j]);
      RecordCommit(h, h', c.nodes.Keys, c.nodes[j], c'.nodes[j]);
    }
  }

  lemma WinRest(c: Cluster, c': Cluster, h: History, h': History, i: int)
    requires WinStep(c, c', h, h', i) && Config(c) && AppendPackets(c, h) && Deliveries(c)
    ensures Config(c') && AppendPackets(c', h') && Deliveries(c')
  {
    WinExtends(c, c', h, h', i);
    WinCore(c, c', h, h', i);
    forall j | j in c'.nodes
      ensures DeliveryOk(c'.nodes[j])
    {
      assert SameCore(c.nodes[j], c'.nodes[j]);
    }
    RecordPackets(c, c', h, h');
  }
}
