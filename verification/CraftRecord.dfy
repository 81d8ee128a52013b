/** What a node and a packet keep when more is recorded in the history. */
module CraftRecord {
  import opened CraftNode
  import opened CraftCluster
  import opened CraftHistory
  import opened CraftMonotone

  lemma RecordRequest(c: Cluster, c': Cluster, h: History, h': History, peer: int, req: AppendRequest)
    requires Extends(h, h') && c'.nodes.Keys == c.nodes.Keys && RequestOk(c, h, peer, req)
    ensures RequestOk(c', h', peer, req)
  {
    if req.leaderCommit >= 0 {
      var l, l' := h.reigns[req.term].log, h'.reigns[req.term].log;
      CommittedPrefixMono(h, h', c.nodes.Keys, l, req.leaderCommit + 1, req.term, req.term);
      CommittedPrefixAgree(h', c.nodes.Keys, l, l', req.leaderCommit + 1, req.term);
    }
  }

  lemma RecordPackets(c: Cluster, c': Cluster, h: History, h': History)
    requires Extends(h, h') && c'.nodes.Keys == c.nodes.Keys && AppendPackets(c, h)
    requires forall pk :: pk in c'.net && pk !in c.net ==> IsVote(pk)
    ensures AppendPackets(c', h')
  {
    forall pk | pk in c'.net && (pk.AppendReq? || pk.AppendRep?)
      ensures RequestOk(c', h', pk.peer, pk.append)
    {
      RecordRequest(c, c', h, h', pk.peer, pk.append);
    }
  }

  lemma RecordCommit(h: History, h': History, members: set<int>, n: Node, n': Node)
    requires Extends(h, h') && CommitOk(h, members, n)
    requires n'.commitIndex == n.commitIndex && n'.currentTerm >= n.currentTerm
    requires n.commitIndex < |n'.log| && Agree(n.log, n'.log, n.commitIndex + 1)
    ensures CommitOk(h', members, n')
  {
    if n.commitIndex >= 0 {
      CommittedPrefixMono(h, h', members, n.log, n.commitIndex + 1, n.currentTerm, n'.currentTerm);
      CommittedPrefixAgree(h', members, n.log, n'.log, n.commitIndex + 1, n'.currentTerm);
    }
  }

  lemma RecordAck(c: Cluster, c': Cluster, h: History, h': History, s: Seat)
    requires Extends(h, h') && Reigns(c, h) && s in h.acks && AckOk(c, h, s)
    requires s.node in c'.nodes && c'.nodes[s.node].log == c.nodes[s.node].log
    requires c'.nodes[s.node].currentTerm >= c.nodes[s.node].currentTerm
    requires h'.acks[s] == h.acks[s]
    ensures AckOk(c', h', s)
  {
    assert ReignOk(c, h, s.term);
    KeepsAllMono(h, h', c.nodes[s.node].log, s.term, h.acks[s],
                 c.nodes[s.node].currentTerm + 1, c'.nodes[s.node].currentTerm + 1);
  }
}
