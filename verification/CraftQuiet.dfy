/** Steps that change no log and no acknowledgement: what they keep for that reason alone. */
module CraftQuiet {
  import opened CraftNode
  import opened CraftCluster
  import opened CraftHistory
  import opened CraftMonotone
  import opened CraftRecord

  /** No log changes, no term goes back, nobody steps down from a term it leads, and the history gains
      at most some votes. */
  ghost predicate Quiet(c: Cluster, c': Cluster, h: History, h': History) {
    && c'.nodes.Keys == c.nodes.Keys
    && h'.reigns == h.reigns && h'.acks == h.acks
    && (forall b :: b in h.grants ==> b in h'.grants && h'.grants[b] == h.grants[b])
    && (forall i :: i in c.nodes ==> QuietNode(c.nodes[i], c'.nodes[i]))
  }

  predicate QuietNode(n: Node, n': Node) {
    && n'.id == n.id && n'.peerIds == n.peerIds && n'.log == n.log
    && n'.currentTerm >= n.currentTerm
    && (n'.currentTerm == n.currentTerm && (n.state == Leader || n.state == Dead) ==>
          n'.state == Leader || n'.state == Dead)
  }

  lemma QuietConfig(c: Cluster, c': Cluster, h: History, h': History)
    requires Quiet(c, c', h, h') && Config(c)
    ensures Config(c')
  {
  }

  lemma QuietReigns(c: Cluster, c': Cluster, h: History, h': History)
    requires Quiet(c, c', h, h') && Reigns(c, h)
    ensures Reigns(c', h')
  {
    forall t | t in h'.reigns
      ensures ReignOk(c', h', t)
    {
      assert ReignOk(c, h, t);
      assert QuietNode(c.nodes[h.reigns[t].leader], c'.nodes[h.reigns[t].leader]);
    }
  }

  lemma QuietLogs(c: Cluster, c': Cluster, h: History, h': History)
    requires Quiet(c, c', h, h') && Logs(c, h)
    requires forall b :: b in h'.grants && b !in h.grants ==> Origin(h, h'.grants[b])
    ensures Logs(c', h')
  {
    forall i | i in c'.nodes
      ensures c'.nodes[i].currentTerm >= 0 && Origin(h', c'.nodes[i].log)
      ensures forall k :: 0 <= k < |c'.nodes[i].log| ==> c'.nodes[i].log[k].term <= c'.nodes[i].currentTerm
    {
      assert QuietNode(c.nodes[i], c'.nodes[i]);
    }
  }

  lemma QuietExtends(c: Cluster, c': Cluster, h: History, h': History)
    requires Quiet(c, c', h, h')
    ensures Extends(h, h')
  {
  }

  lemma QuietAcks(c: Cluster, c': Cluster, h: History, h': History)
    requires Quiet(c, c', h, h') && Reigns(c, h) && Acks(c, h)
    ensures Acks(c', h')
  {
    QuietExtends(c, c', h, h');
    forall s | s in h'.acks
      ensures AckOk(c', h', s)
    {
      assert QuietNode(c.nodes[s.node], c'.nodes[s.node]);
      RecordAck(c, c', h, h', s);
    }
  }

  lemma QuietVoterLogs(c: Cluster, c': Cluster, h: History, h': History)
    requires Quiet(c, c', h, h') && VoterLogs(h) && Reigns(c, h) && Acks(c, h)
    requires forall b :: b in h'.grants && b !in h.grants ==> VoterLog(h, b, h'.grants[b])
    ensures VoterLogs(h')
  {
    forall b, s | b in h'.grants && Effective(h', b) && s in h'.acks && s.node == b.voter && s.term < b.term
      ensures s.term in h'.reigns && KeepsAll(h', h'.grants[b], s.term, h'.acks[s], b.term)
    {
      assert AckOk(c, h, s) && ReignOk(c, h, s.term);
      assert KeepsAll(h, h'.grants[b], s.term, h.acks[s], b.term);
      KeepsAllMono(h, h', h'.grants[b], s.term, h.acks[s], b.term, b.term);
    }
  }

  /** One new vote keeps what `VoterLogs` asks. */
  ghost predicate VoterLog(h: History, b: Ballot, log: Log) {
    forall s :: Effective(h, b) && s in h.acks && s.node == b.voter && s.term < b.term ==>
      s.term in h.reigns && KeepsAll(h, log, s.term, h.acks[s], b.term)
  }

  lemma QuietCommits(c: Cluster, c': Cluster, h: History, h': History)
    requires Quiet(c, c', h, h') && Commits(c, h)
    requires forall i :: i in c.nodes ==> c'.nodes[i].commitIndex == c.nodes[i].commitIndex
    ensures Commits(c', h')
  {
    QuietExtends(c, c', h, h');
    forall i | i in c'.nodes
      ensures CommitOk(h', c'.nodes.Keys, c'.nodes[i])
    {
      assert QuietNode(c.nodes[i], c'.nodes[i]);
      RecordCommit(h, h', c.nodes.Keys, c.nodes[i], c'.nodes[i]);
    }
  }

  /** A quiet change that also keeps what the node has committed and delivered and its view of its peers. */
  predicate StillNode(n: Node, n': Node) {
    && QuietNode(n, n')
    && n'.commitIndex == n.commitIndex && n'.lastApplied == n.lastApplied
    && n'.sender == n.sender && n'.delivered == n.delivered
    && n'.nextIndex == n.nextIndex && n'.matchIndex == n.matchIndex
    && (n'.state == Leader ==> n.state == Leader && n'.currentTerm == n.currentTerm)
  }

  ghost predicate Still(c: Cluster, c': Cluster, h: History, h': History) {
    && c'.nodes.Keys == c.nodes.Keys
    && h'.reigns == h.reigns && h'.acks == h.acks
    && (forall b :: b in h.grants ==> b in h'.grants && h'.grants[b] == h.grants[b])
    && (forall i :: i in c.nodes ==> StillNode(c.nodes[i], c'.nodes[i]))
    && (forall pk :: pk in c'.net && pk !in c.net ==> IsVote(pk))
  }

  lemma StillLeaders(c: Cluster, c': Cluster, h: History, h': History)
    requires Still(c, c', h, h') && Leaders(c, h)
    ensures Leaders(c', h')
  {
    forall i | i in c'.nodes && c'.nodes[i].state == Leader
      ensures LeaderOk(c'.nodes[i], h')
    {
      assert StillNode(c.nodes[i], c'.nodes[i]);
      assert LeaderOk(c.nodes[i], h);
      assert forall p :: p in c.nodes[i].peerIds ==> PeerOk(c.nodes[i], h, p);
    }
  }

  lemma StillDeliveries(c: Cluster, c': Cluster, h: History, h': History)
    requires Still(c, c', h, h') && Deliveries(c)
    ensures Deliveries(c')
  {
    forall i | i in c'.nodes
      ensures DeliveryOk(c'.nodes[i])
    {
      assert StillNode(c.nodes[i], c'.nodes[i]);
    }
  }

  lemma StillLogs(c: Cluster, c': Cluster, h: History, h': History)
    requires Still(c, c', h, h') && Config(c) && LogInv(c, h)
    requires forall b :: b in h'.grants && b !in h.grants ==> Origin(h, h'.grants[b])
    ensures Config(c') && LogInv(c', h')
  {
    assert Quiet(c, c', h, h');
    QuietConfig(c, c', h, h');
    QuietReigns(c, c', h, h');
    QuietLogs(c, c', h, h');
    StillLeaders(c, c', h, h');
  }

  lemma StillAcks(c: Cluster, c': Cluster, h: History, h': History)
    requires Still(c, c', h, h') && Reigns(c, h) && AckInv(c, h)
    requires forall b :: b in h'.grants && b !in h.grants ==> VoterLog(h, b, h'.grants[b])
    ensures AckInv(c', h')
  {
    assert Quiet(c, c', h, h');
    QuietAcks(c, c', h, h');
    QuietVoterLogs(c, c', h, h');
    QuietExtends(c, c', h, h');
    RecordPackets(c, c', h, h');
    QuietCommits(c, c', h, h');
    StillDeliveries(c, c', h, h');
  }

  /** A voter whose vote is new and effective has lost nothing it acknowledged to the leader of the term,
      for that term has no leader yet. */
  lemma NewVoterLog(c: Cluster, h: History, b: Ballot)
    requires Reigns(c, h) && Acks(c, h)
    requires b !in h.grants && b.voter in c.nodes && c.nodes[b.voter].currentTerm <= b.term
    ensures VoterLog(h, b, c.nodes[b.voter].log)
  {
    var log := c.nodes[b.voter].log;
    forall s | Effective(h, b) && s in h.acks && s.node == b.voter && s.term < b.term
      ensures s.term in h.reigns && KeepsAll(h, log, s.term, h.acks[s], b.term)
    {
      assert AckOk(c, h, s);
      assert b.term in h.reigns ==> ReignOk(c, h, b.term);
      assert b.term !in h.reigns;
      forall k | 0 <= k <= h.acks[s]
        ensures Keeps(h, log, s.term, k, b.term)
      {
        assert Keeps(h, log, s.term, k, c.nodes[b.voter].currentTerm + 1);
      }
    }
  }

  /** All but the bookkeeping of votes, for a step that records at most the vote `b0`. */
  lemma StillRest(c: Cluster, c': Cluster, h: History, h': History, b0: Ballot)
    requires Still(c, c', h, h') && Config(c) && LogInv(c, h) && AckInv(c, h)
    requires b0.voter in c.nodes && c.nodes[b0.voter].currentTerm <= b0.term
    requires forall b :: b in h'.grants && b !in h.grants ==> b == b0 && h'.grants[b] == c.nodes[b.voter].log
    ensures Config(c') && LogInv(c', h') && AckInv(c', h')
  {
    StillLogs(c, c', h, h');
    if b0 !in h.grants {
      NewVoterLog(c, h, b0);
    }
    StillAcks(c, c', h, h');
  }
}
