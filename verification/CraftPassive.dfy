/** Steps after which a node has its old log and counters: leaving for a later term, stopping, reporting,
    and steps that only move packets. */
module CraftPassive {
  import opened CraftNode
  import opened CraftCluster
  import opened CraftHistory
  import opened CraftQuiet
  import opened CraftRecord

  /** The node keeps its term and vote, or follows in a later term. */
  predicate Passive(n: Node, n': Node) {
    && n'.id == n.id && n'.peerIds == n.peerIds
    && n'.log == n.log && n'.commitIndex == n.commitIndex
    && n'.nextIndex == n.nextIndex && n'.matchIndex == n.matchIndex && n'.votesReceived == n.votesReceived
    && if n'.currentTerm == n.currentTerm
       then n'.votedFor == n.votedFor && (n'.state == n.state || n'.state == Dead)
       else n'.currentTerm > n.currentTerm && n'.state == Follower && n'.votedFor == -1
  }

  ghost predicate PassiveStep(c: Cluster, c': Cluster) {
    && c'.nodes.Keys == c.nodes.Keys
    && (forall i :: i in c.nodes ==> Passive(c.nodes[i], c'.nodes[i]))
  }

  lemma PassiveCandidates(c: Cluster, c': Cluster, h: History)
    requires PassiveStep(c, c') && Candidates(c, h)
    ensures Candidates(c', h)
  {
  }

  lemma PassiveBallots(c: Cluster, c': Cluster, h: History)
    requires PassiveStep(c, c') && Ballots(c, h)
    ensures Ballots(c', h)
  {
  }

  lemma PassiveCounts(c: Cluster, c': Cluster, h: History)
    requires PassiveStep(c, c') && Counts(c, h) && Tallies(c, h)
    ensures Counts(c', h) && Tallies(c', h)
  {
  }

  lemma PassiveQualified(c: Cluster, c': Cluster, h: History)
    requires PassiveStep(c, c') && Qualified(c, h)
    ensures Qualified(c', h)
  {
  }

  lemma PassiveVotePacket(c: Cluster, c': Cluster, h: History, pk: Packet)
    requires PassiveStep(c, c') && IsVote(pk) && VotePacketOk(c, h, pk)
    ensures VotePacketOk(c', h, pk)
  {
  }

  lemma PassiveVotePackets(c: Cluster, c': Cluster, h: History)
    requires PassiveStep(c, c') && VotePackets(c, h)
    requires forall pk :: pk in c'.net && IsVote(pk) ==> pk in c.net
    ensures VotePackets(c', h)
  {
    forall pk | pk in c'.net && IsVote(pk)
      ensures VotePacketOk(c', h, pk)
    {
      PassiveVotePacket(c, c', h, pk);
    }
  }

  lemma PassiveLeaders(c: Cluster, c': Cluster, h: History)
    requires PassiveStep(c, c') && Leaders(c, h)
    ensures Leaders(c', h)
  {
  }

  lemma PassiveLogs(c: Cluster, c': Cluster, h: History)
    requires PassiveStep(c, c') && Config(c) && LogInv(c, h)
    ensures Config(c') && LogInv(c', h)
  {
    assert Quiet(c, c', h, h);
    QuietConfig(c, c', h, h);
    QuietReigns(c, c', h, h);
    QuietLogs(c, c', h, h);
    PassiveLeaders(c, c', h);
  }

  lemma PassiveAcks(c: Cluster, c': Cluster, h: History)
    requires PassiveStep(c, c') && Reigns(c, h) && AckInv(c, h)
    requires forall pk :: pk in c'.net && pk !in c.net ==> IsVote(pk)
    requires Deliveries(c')
    ensures AckInv(c', h)
  {
    assert Quiet(c, c', h, h);
    QuietAcks(c, c', h, h);
    QuietExtends(c, c', h, h);
    RecordPackets(c, c', h, h);
    QuietCommits(c, c', h, h);
  }

  /** `Inv`, given the packets of the vote calls. */
  lemma PassiveButPackets(c: Cluster, c': Cluster, h: History)
    requires PassiveStep(c, c') && Inv(c, h)
    requires forall pk :: pk in c'.net && pk !in c.net ==> IsVote(pk)
    requires Deliveries(c') && VotePackets(c', h)
    ensures Inv(c', h)
  {
    PassiveCandidates(c, c', h);
    PassiveBallots(c, c', h);
    PassiveCounts(c, c', h);
    PassiveQualified(c, c', h);
    PassiveLogs(c, c', h);
    PassiveAcks(c, c', h);
  }

  lemma PassiveInv(c: Cluster, c': Cluster, h: History)
    requires PassiveStep(c, c') && Inv(c, h)
    requires c'.net <= c.net
    requires Deliveries(c')
    ensures Inv(c', h)
  {
    PassiveVotePackets(c, c', h);
    PassiveButPackets(c, c', h);
  }

  /** Only packets of vote calls change. */
  lemma PacketsInv(c: Cluster, c': Cluster, h: History)
    requires Inv(c, h) && c'.nodes == c.nodes
    requires forall pk :: pk in c'.net && pk !in c.net ==> IsVote(pk)
    requires VotePackets(c', h)
    ensures Inv(c', h)
  {
    SameNodes(c, c');
    PassiveButPackets(c, c', h);
  }

  lemma SameNodesPassive(c: Cluster, c': Cluster)
    requires c'.nodes == c.nodes
    ensures PassiveStep(c, c')
  {
  }

  lemma SameNodes(c: Cluster, c': Cluster)
    requires c'.nodes == c.nodes && Deliveries(c)
    ensures PassiveStep(c, c') && Deliveries(c')
  {
  }
}
