/** Every step of the cluster keeps the invariant. */
module CraftSteps {
  import opened CraftNode
  import opened CraftCluster
  import opened CraftHistory
  import opened CraftPassive
  import opened CraftElection
  import opened CraftWin
  import opened CraftReplication
  import opened CraftLeader

  lemma InitInv(c: Cluster)
    requires Init(c)
    ensures Inv(c, EMPTY)
  {
  }

  /** One node takes a passive step and packets may be lost. */
  lemma OnePassive(c: Cluster, c': Cluster, h: History, i: int, n': Node)
    requires Inv(c, h) && i in c.nodes && Passive(c.nodes[i], n') && DeliveryOk(n')
    requires c'.nodes == c.nodes[i := n'] && c'.net <= c.net
    ensures Inv(c', h)
  {
    OnePassiveStep(c, c', i, n');
    PassiveInv(c, c', h);
  }

  lemma OnePassiveStep(c: Cluster, c': Cluster, i: int, n': Node)
    requires Deliveries(c) && i in c.nodes && Passive(c.nodes[i], n') && DeliveryOk(n')
    requires c'.nodes == c.nodes[i := n']
    ensures PassiveStep(c, c') && Deliveries(c')
  {
  }

  lemma LaterTerm(c: Cluster, c': Cluster, h: History, i: int, t: int)
    requires Inv(c, h) && i in c.nodes && t > c.nodes[i].currentTerm
    requires c'.nodes == c.nodes[i := BecomeFollower(c.nodes[i], t)] && c'.net <= c.net
    ensures Inv(c', h)
  {
    assert DeliveryOk(c.nodes[i]);
    OnePassive(c, c', h, i, BecomeFollower(c.nodes[i], t));
  }

  lemma Unmoved(c: Cluster, c': Cluster, h: History, i: int)
    requires Inv(c, h) && i in c.nodes
    requires c'.nodes == c.nodes[i := c.nodes[i]] && c'.net <= c.net
    ensures Inv(c', h)
  {
    assert DeliveryOk(c.nodes[i]);
    OnePassive(c, c', h, i, c.nodes[i]);
  }

  lemma CatchUpInv(c: Cluster, c': Cluster, h: History, i: int, t: int)
    requires Inv(c, h) && i in c.nodes && c' == c.(nodes := c.nodes[i := CatchUp(c.nodes[i], t)])
    ensures Inv(c', h)
  {
    if t > c.nodes[i].currentTerm {
      LaterTerm(c, c', h, i, t);
    } else {
      Unmoved(c, c', h, i);
    }
  }

  // ---------------------------------------------------------------------------------------
  // Elections

  lemma TimeoutForm(c: Cluster, c': Cluster, h: History, h': History, i: int)
    requires Enabled(c, Timeout(i)) && c.nodes[i].id == i
    requires c' == Apply(c, Timeout(i)) && h' == Next(h, c, Timeout(i))
    requires Ballot(c.nodes[i].currentTerm + 1, i, i) !in h.grants
    requires Seat(c.nodes[i].currentTerm + 1, i) !in h.counted
    requires c.nodes[i].currentTerm + 1 !in c.nodes[i].votesReceived
    ensures TimeoutStep(c, c', h, h', i)
  {
    assert {} + {i} == {i};
  }

  lemma TimeoutKeeps(c: Cluster, c': Cluster, h: History, h': History, i: int)
    requires Inv(c, h) && Enabled(c, Timeout(i))
    requires c' == Apply(c, Timeout(i)) && h' == Next(h, c, Timeout(i))
    ensures Inv(c', h')
  {
    TimeoutFresh(c, h, i);
    TimeoutForm(c, c', h, h', i);
    TimeoutInv(c, c', h, h', i);
  }

  lemma SendVoteForm(c: Cluster, c': Cluster, h: History, pk: Packet)
    requires Enabled(c, SendVote(pk)) && VotePacketOk(c, h, pk) && c.nodes[pk.caller].id == pk.caller
    requires c' == Apply(c, SendVote(pk))
    ensures var pk' := VoteReq(pk.peer, MakeVoteRequest(c.nodes[pk.caller], pk.term));
            && SameCall(pk, pk') && VotePacketOk(c, h, pk')
            && c' == Cluster(c.nodes, c.net - {pk} + {pk'})
  {
  }

  lemma SendVoteKeeps(c: Cluster, c': Cluster, h: History, pk: Packet)
    requires Inv(c, h) && Enabled(c, SendVote(pk)) && c' == Apply(c, SendVote(pk))
    ensures Inv(c', h)
  {
    SendVoteForm(c, c', h, pk);
    AdvanceCall(c, c', h, pk, VoteReq(pk.peer, MakeVoteRequest(c.nodes[pk.caller], pk.term)));
  }

  lemma DeliverVoteForm(c: Cluster, c1: Cluster, c': Cluster, h: History, h': History, pk: Packet)
    requires Enabled(c, DeliverVote(pk)) && c.nodes[pk.peer].state != Dead
    requires c' == Apply(c, DeliverVote(pk)) && h' == Next(h, c, DeliverVote(pk))
    requires c1 == c.(nodes := c.nodes[pk.peer := CatchUp(c.nodes[pk.peer], pk.vote.term)])
    ensures if Grants(c1.nodes[pk.peer], pk.vote) then GrantStep(c1, c', h, h', pk)
            else
              && c' == Cluster(c1.nodes, c1.net - {pk} +
                               {VoteRep(pk.peer, pk.vote, VoteReply(c1.nodes[pk.peer].currentTerm, false))})
              && h' == h
  {
    var n1 := c1.nodes[pk.peer];
    assert c1.nodes[pk.peer := n1.(votedFor := pk.vote.candidateId)] == c.nodes[pk.peer := n1.(votedFor := pk.vote.candidateId)];
  }

  lemma RefuseVote(c: Cluster, c': Cluster, h: History, pk: Packet, t: int)
    requires Inv(c, h) && pk in c.net && pk.VoteReq?
    requires c' == Cluster(c.nodes, c.net - {pk} + {VoteRep(pk.peer, pk.vote, VoteReply(t, false))})
    ensures Inv(c', h)
  {
    RefusalOk(c, h, pk, t);
    AdvanceCall(c, c', h, pk, VoteRep(pk.peer, pk.vote, VoteReply(t, false)));
  }

  lemma RefusalOk(c: Cluster, h: History, pk: Packet, t: int)
    requires VotePackets(c, h) && pk in c.net && pk.VoteReq?
    ensures VotePacketOk(c, h, VoteRep(pk.peer, pk.vote, VoteReply(t, false)))
  {
    assert VotePacketOk(c, h, pk);
  }

  lemma DeadVote(c: Cluster, c': Cluster, h: History, h': History, pk: Packet)
    requires Enabled(c, DeliverVote(pk)) && c.nodes[pk.peer].state == Dead
    requires c' == Apply(c, DeliverVote(pk)) && h' == Next(h, c, DeliverVote(pk))
    ensures h' == h && c'.nodes == c.nodes[pk.peer := c.nodes[pk.peer]] && c'.net <= c.net
  {
  }

  lemma DeliverVoteKeeps(c: Cluster, c': Cluster, h: History, h': History, pk: Packet)
    requires Inv(c, h) && Enabled(c, DeliverVote(pk))
    requires c' == Apply(c, DeliverVote(pk)) && h' == Next(h, c, DeliverVote(pk))
    ensures Inv(c', h')
  {
    if c.nodes[pk.peer].state == Dead {
      DeadVote(c, c', h, h', pk);
      Unmoved(c, c', h, pk.peer);
    } else {
      var c1 := c.(nodes := c.nodes[pk.peer := CatchUp(c.nodes[pk.peer], pk.vote.term)]);
      CatchUpInv(c, c1, h, pk.peer, pk.vote.term);
      DeliverVoteForm(c, c1, c', h, h', pk);
      if Grants(c1.nodes[pk.peer], pk.vote) {
        GrantInv(c1, c', h, h', pk);
      } else {
        RefuseVote(c1, c', h, pk, c1.nodes[pk.peer].currentTerm);
      }
    }
  }

  /** The cluster when the vote is counted and nothing has come of it yet. */
  function VoteCounted(c: Cluster, pk: Packet): Cluster
    requires pk.VoteRep? && pk.vote.candidateId in c.nodes
  {
    var i, t := pk.vote.candidateId, pk.vote.term;
    var n := c.nodes[i];
    Cluster(c.nodes[i := n.(votesReceived := n.votesReceived[t := Lookup(n.votesReceived, t) + 1])], c.net - {pk})
  }

  lemma VoteCountedInv(c: Cluster, h: History, pk: Packet)
    requires Inv(c, h) && pk in c.net && pk.VoteRep? && pk.voteReply.voteGranted
    requires pk.vote.candidateId in c.nodes && c.nodes[pk.vote.candidateId].state == Candidate
    ensures Inv(VoteCounted(c, pk), CountVote(h, pk.vote.term, pk.vote.candidateId, pk.peer))
  {
    CountInv(c, VoteCounted(c, pk), h, CountVote(h, pk.vote.term, pk.vote.candidateId, pk.peer), pk);
  }

  /** The vote is counted, and then the election is won or goes on. */
  lemma CountForm(c: Cluster, h: History, pk: Packet)
    requires Enabled(c, DeliverVoteReply(pk)) && c.nodes[pk.vote.candidateId].state == Candidate
    requires pk.voteReply.term == pk.vote.term && pk.voteReply.voteGranted
    ensures var c1, h1 := VoteCounted(c, pk), CountVote(h, pk.vote.term, pk.vote.candidateId, pk.peer);
            var i, n1 := pk.vote.candidateId, c1.nodes[pk.vote.candidateId];
            var c', h' := Apply(c, DeliverVoteReply(pk)), Next(h, c, DeliverVoteReply(pk));
            if Elects(c.nodes[i], pk.vote, pk.voteReply)
            then c' == c1.(nodes := c1.nodes[i := StartLeader(n1)]) && h' == BeginReign(h1, n1.currentTerm, i, n1.log)
            else c' == c1 && h' == h1
  {
    var i, n1 := pk.vote.candidateId, VoteCounted(c, pk).nodes[pk.vote.candidateId];
    assert VoteCounted(c, pk).nodes[i := StartLeader(n1)] == c.nodes[i := StartLeader(n1)];
  }

  lemma WinKeeps(c: Cluster, c': Cluster, h: History, h': History, i: int)
    requires Inv(c, h) && i in c.nodes && c.nodes[i].state == Candidate
    requires var n := c.nodes[i];
             && n.currentTerm in n.votesReceived && n.votesReceived[n.currentTerm] * 2 > |n.peerIds| + 1
             && c' == c.(nodes := c.nodes[i := StartLeader(n)])
             && h' == BeginReign(h, n.currentTerm, i, n.log)
    ensures Inv(c', h')
  {
    var t := c.nodes[i].currentTerm;
    NoSecondLeader(c, h, i);
    QuorumOf(c, h, i);
    NoAckYet(c, h, t, i);
    WinInv(c, c', h, h', i);
  }

  lemma NoAckYet(c: Cluster, h: History, t: int, i: int)
    requires Acks(c, h) && t !in h.reigns
    ensures Seat(t, i) !in h.acks
  {
  }

  lemma CountKeeps(c: Cluster, c': Cluster, h: History, h': History, pk: Packet)
    requires Inv(c, h) && Enabled(c, DeliverVoteReply(pk))
    requires c' == Apply(c, DeliverVoteReply(pk)) && h' == Next(h, c, DeliverVoteReply(pk))
    requires var n := c.nodes[pk.vote.candidateId];
             && n.state == Candidate && (n.currentTerm == pk.vote.term || !Elects(n, pk.vote, pk.voteReply))
             && pk.voteReply.term == pk.vote.term && pk.voteReply.voteGranted
    ensures Inv(c', h')
  {
    VoteCountedInv(c, h, pk);
    CountForm(c, h, pk);
    var i, h1 := pk.vote.candidateId, CountVote(h, pk.vote.term, pk.vote.candidateId, pk.peer);
    if Elects(c.nodes[i], pk.vote, pk.voteReply) {
      WinKeeps(VoteCounted(c, pk), c', h1, h', i);
    }
  }

  lemma VoteReplyForm(c: Cluster, c': Cluster, h: History, h': History, pk: Packet)
    requires Enabled(c, DeliverVoteReply(pk)) && Timely(c, DeliverVoteReply(pk))
    requires c' == Apply(c, DeliverVoteReply(pk)) && h' == Next(h, c, DeliverVoteReply(pk))
    ensures c'.net <= c.net
    ensures var i, n := pk.vote.candidateId, c.nodes[pk.vote.candidateId];
            if n.state == Candidate && pk.voteReply.term > pk.vote.term then
              c'.nodes == c.nodes[i := BecomeFollower(n, pk.voteReply.term)] && h' == h
            else if n.state == Candidate && pk.voteReply.term == pk.vote.term && pk.voteReply.voteGranted then
              n.currentTerm == pk.vote.term || !Elects(n, pk.vote, pk.voteReply)
            else c'.nodes == c.nodes[i := n] && h' == h
  {
  }

  /** A reply of a later term makes the candidate a follower, in its own term or in a later one. */
  lemma OutvotedKeeps(c: Cluster, c': Cluster, h: History, i: int, t: int)
    requires Inv(c, h) && i in c.nodes && c.nodes[i].state == Candidate && t >= c.nodes[i].currentTerm
    requires c'.nodes == c.nodes[i := BecomeFollower(c.nodes[i], t)] && c'.net <= c.net
    ensures Inv(c', h)
  {
    if t > c.nodes[i].currentTerm {
      LaterTerm(c, c', h, i, t);
    } else {
      var c1 := Cluster(c.nodes, c'.net);
      FewerPackets(c, c1, h, i);
      GivesUp(c1, c', h, i);
    }
  }

  lemma FewerPackets(c: Cluster, c': Cluster, h: History, i: int)
    requires Inv(c, h) && i in c.nodes && c'.nodes == c.nodes && c'.net <= c.net
    ensures Inv(c', h)
  {
    assert c.nodes == c.nodes[i := c.nodes[i]];
    Unmoved(c, c', h, i);
  }

  lemma GivesUp(c: Cluster, c': Cluster, h: History, i: int)
    requires Inv(c, h) && i in c.nodes && c.nodes[i].state == Candidate
    requires c' == c.(nodes := c.nodes[i := BecomeFollower(c.nodes[i], c.nodes[i].currentTerm)])
    ensures Inv(c', h)
  {
    CandidateLeadsNot(c, h, i);
    StepDownInv(c, c', h, i);
  }

  lemma CandidateLeadsNot(c: Cluster, h: History, i: int)
    requires Reigns(c, h) && i in c.nodes && c.nodes[i].state == Candidate
    ensures c.nodes[i].currentTerm in h.reigns ==> h.reigns[c.nodes[i].currentTerm].leader != i
  {
    if c.nodes[i].currentTerm in h.reigns {
      assert ReignOk(c, h, c.nodes[i].currentTerm);
    }
  }

  /** A reply comes at a term no earlier than that of its call. */
  lemma CalledBefore(c: Cluster, h: History, pk: Packet)
    requires VotePackets(c, h) && Tallies(c, h) && pk in c.net && IsVote(pk)
    ensures CallerOf(pk) in c.nodes && TermOf(pk) <= c.nodes[CallerOf(pk)].currentTerm
  {
    assert VotePacketOk(c, h, pk);
    assert TallyOk(c.nodes[CallerOf(pk)], h, TermOf(pk));
  }

  lemma DeliverVoteReplyKeeps(c: Cluster, c': Cluster, h: History, h': History, pk: Packet)
    requires Inv(c, h) && Enabled(c, DeliverVoteReply(pk)) && Timely(c, DeliverVoteReply(pk))
    requires c' == Apply(c, DeliverVoteReply(pk)) && h' == Next(h, c, DeliverVoteReply(pk))
    ensures Inv(c', h')
  {
    VoteReplyForm(c, c', h, h', pk);
    CalledBefore(c, h, pk);
    var i, n := pk.vote.candidateId, c.nodes[pk.vote.candidateId];
    if n.state == Candidate && pk.voteReply.term > pk.vote.term {
      OutvotedKeeps(c, c', h, i, pk.voteReply.term);
    } else if n.state == Candidate && pk.voteReply.term == pk.vote.term && pk.voteReply.voteGranted {
      CountKeeps(c, c', h, h', pk);
    } else {
      Unmoved(c, c', h, i);
    }
  }

  // ---------------------------------------------------------------------------------------
  // Replication

  /** One packet of an append call is new, and it is as it should be. */
  ghost predicate OneAppend(c: Cluster, c': Cluster, h: History) {
    AppendPackets(c', h) && exists pk :: !IsVote(pk) && Adds(c, c', pk)
  }

  ghost predicate Adds(c: Cluster, c': Cluster, pk: Packet) {
    c' == c.(net := c.net + {pk})
  }

  lemma OneAppendInv(c: Cluster, c': Cluster, h: History)
    requires Inv(c, h) && OneAppend(c, c', h)
    ensures Inv(c', h)
  {
    var pk :| !IsVote(pk) && Adds(c, c', pk);
    AddedInv(c, c', h, pk);
  }

  lemma SendAppendKeeps(c: Cluster, c': Cluster, h: History, i: int, peer: int)
    requires Inv(c, h) && Enabled(c, SendAppend(i, peer)) && c' == Apply(c, SendAppend(i, peer))
    ensures Inv(c', h)
  {
    SendForm(c, c', h, i, peer);
    OneAppendInv(c, c', h);
  }

  lemma SendForm(c: Cluster, c': Cluster, h: History, i: int, peer: int)
    requires Config(c) && Leaders(c, h) && Commits(c, h) && AppendPackets(c, h)
    requires Enabled(c, SendAppend(i, peer)) && c' == Apply(c, SendAppend(i, peer))
    ensures OneAppend(c, c', h)
  {
    SentAppends(c, c', h, i, peer);
    assert Adds(c, c', AppendReq(peer, MakeAppendRequest(c.nodes[i], peer)));
  }

  lemma RefuseKeeps(c: Cluster, c': Cluster, h: History, pk: Packet, rep: AppendReply)
    requires Inv(c, h) && pk in c.net && pk.AppendReq?
    requires !rep.success && (rep.term == pk.append.term ==> 0 <= rep.conflictIndex <= pk.append.prevLogIndex)
    requires c' == c.(net := c.net + {AppendRep(pk.peer, pk.append, rep)})
    ensures Inv(c', h)
  {
    RefusedForm(c, c', h, pk, rep);
    OneAppendInv(c, c', h);
  }

  lemma RefusedForm(c: Cluster, c': Cluster, h: History, pk: Packet, rep: AppendReply)
    requires AppendPackets(c, h) && pk in c.net && pk.AppendReq?
    requires !rep.success && (rep.term == pk.append.term ==> 0 <= rep.conflictIndex <= pk.append.prevLogIndex)
    requires c' == c.(net := c.net + {AppendRep(pk.peer, pk.append, rep)})
    ensures OneAppend(c, c', h)
  {
    RefusedAppends(c, c', h, pk, rep);
    assert Adds(c, c', AppendRep(pk.peer, pk.append, rep));
  }

  /** The effect of a request on a follower of its term. */
  ghost predicate Handled(c: Cluster, c': Cluster, h: History, h': History, pk: Packet) {
    && pk in c.net && pk.AppendReq? && pk.peer in c.nodes && pk.append.prevLogIndex >= -1
    && c.nodes[pk.peer].state == Follower && c.nodes[pk.peer].currentTerm == pk.append.term
    && var (n, rep) := FollowerAppend(c.nodes[pk.peer], pk.append);
       && c' == Cluster(c.nodes[pk.peer := n], c.net + {AppendRep(pk.peer, pk.append, rep)})
       && h' == if rep.success
                then RaiseAck(h, Seat(pk.append.term, pk.peer), pk.append.prevLogIndex + 1 + |pk.append.entries|) else h
  }

  /** The state of a follower that has taken `log` over from an accepted request. */
  function Accepted(n: Node, req: AppendRequest, log: Log): Node {
    n.(log := log, commitIndex :=
         if req.leaderCommit > n.commitIndex then Min(req.leaderCommit, |log| - 1) else n.commitIndex)
  }

  lemma AcceptForm(c: Cluster, c': Cluster, h: History, h': History, pk: Packet, log: Log)
    requires pk in c.net && pk.AppendReq? && pk.peer in c.nodes && RequestOk(c, h, pk.peer, pk.append)
    requires c.nodes[pk.peer].state == Follower && c.nodes[pk.peer].currentTerm == pk.append.term
    requires c' == Cluster(c.nodes[pk.peer := Accepted(c.nodes[pk.peer], pk.append, log)],
                           c.net + {AppendRep(pk.peer, pk.append, AppendReply(pk.append.term, true, 0, 0))})
    requires h' == RaiseAck(h, Seat(pk.append.term, pk.peer), pk.append.prevLogIndex + 1 + |pk.append.entries|)
    requires Merged(c.nodes[pk.peer].log, log, h.reigns[pk.append.term].log, pk.append.prevLogIndex + 1 + |pk.append.entries|)
    ensures AcceptStep(c, c', h, h', pk)
  {
  }

  lemma FollowerAccepts(c: Cluster, c': Cluster, h: History, h': History, pk: Packet, log: Log)
    requires Handled(c, c', h, h', pk) && PrevMatches(c.nodes[pk.peer].log, pk.append)
    requires log == MergeLog(c.nodes[pk.peer].log, pk.append.prevLogIndex, pk.append.entries)
    ensures c' == Cluster(c.nodes[pk.peer := Accepted(c.nodes[pk.peer], pk.append, log)],
                          c.net + {AppendRep(pk.peer, pk.append, AppendReply(pk.append.term, true, 0, 0))})
    ensures h' == RaiseAck(h, Seat(pk.append.term, pk.peer), pk.append.prevLogIndex + 1 + |pk.append.entries|)
  {
  }

  lemma RefuseForm(c: Cluster, c': Cluster, h: History, h': History, pk: Packet) returns (rep: AppendReply)
    requires Handled(c, c', h, h', pk) && !PrevMatches(c.nodes[pk.peer].log, pk.append)
    ensures h' == h && !rep.success && 0 <= rep.conflictIndex <= pk.append.prevLogIndex
    ensures c' == c.(net := c.net + {AppendRep(pk.peer, pk.append, rep)})
  {
    rep := FollowerAppend(c.nodes[pk.peer], pk.append).1;
    assert c.nodes[pk.peer := c.nodes[pk.peer]] == c.nodes;
  }

  lemma FollowerMerges(c: Cluster, h: History, p: int, req: AppendRequest)
    requires Reigns(c, h) && Logs(c, h) && RequestOk(c, h, p, req) && PrevMatches(c.nodes[p].log, req)
    ensures Merged(c.nodes[p].log, MergeLog(c.nodes[p].log, req.prevLogIndex, req.entries),
                   h.reigns[req.term].log, req.prevLogIndex + 1 + |req.entries|)
  {
    assert ReignOk(c, h, req.term);
    MergeFacts(c, h, p, c.nodes[p].log, req);
  }

  lemma FollowerAcceptStep(c: Cluster, c': Cluster, h: History, h': History, pk: Packet)
    requires Handled(c, c', h, h', pk) && Reigns(c, h) && Logs(c, h) && RequestOk(c, h, pk.peer, pk.append)
    requires PrevMatches(c.nodes[pk.peer].log, pk.append)
    ensures AcceptStep(c, c', h, h', pk)
  {
    FollowerMerges(c, h, pk.peer, pk.append);
    var log := MergeLog(c.nodes[pk.peer].log, pk.append.prevLogIndex, pk.append.entries);
    FollowerAccepts(c, c', h, h', pk, log);
    AcceptForm(c, c', h, h', pk, log);
  }

  lemma FollowerKeeps(c: Cluster, c': Cluster, h: History, h': History, pk: Packet)
    requires Inv(c, h) && Handled(c, c', h, h', pk)
    ensures Inv(c', h')
  {
    assert RequestOk(c, h, pk.peer, pk.append);
    if PrevMatches(c.nodes[pk.peer].log, pk.append) {
      FollowerAcceptStep(c, c', h, h', pk);
      AcceptInv(c, c', h, h', pk);
    } else {
      var rep := RefuseForm(c, c', h, h', pk);
      RefuseKeeps(c, c', h, pk, rep);
    }
  }

  /** What the request does to a node is what it does to the follower the node turns into first. */
  lemma HandledForm(c: Cluster, c1: Cluster, c': Cluster, h: History, h': History, pk: Packet)
    requires Enabled(c, DeliverAppend(pk)) && c.nodes[pk.peer].state != Dead && pk.append.term >= c.nodes[pk.peer].currentTerm
    requires c' == Apply(c, DeliverAppend(pk)) && h' == Next(h, c, DeliverAppend(pk))
    requires if pk.append.term == c.nodes[pk.peer].currentTerm && c.nodes[pk.peer].state == Follower then c1 == c
             else c1 == c.(nodes := c.nodes[pk.peer := BecomeFollower(c.nodes[pk.peer], pk.append.term)])
    ensures Handled(c1, c', h, h', pk)
  {
    var n' := FollowerAppend(c1.nodes[pk.peer], pk.append).0;
    assert c1.nodes[pk.peer := n'] == c.nodes[pk.peer := n'];
  }

  lemma DeadAppend(c: Cluster, c': Cluster, h: History, h': History, pk: Packet)
    requires Enabled(c, DeliverAppend(pk)) && c.nodes[pk.peer].state == Dead
    requires c' == Apply(c, DeliverAppend(pk)) && h' == Next(h, c, DeliverAppend(pk))
    ensures c' == c && h' == h
  {
  }

  lemma StaleAppend(c: Cluster, c': Cluster, h: History, h': History, pk: Packet)
    requires Enabled(c, DeliverAppend(pk)) && c.nodes[pk.peer].state != Dead && pk.append.term < c.nodes[pk.peer].currentTerm
    requires c' == Apply(c, DeliverAppend(pk)) && h' == Next(h, c, DeliverAppend(pk))
    ensures h' == h
    ensures c' == c.(net := c.net + {AppendRep(pk.peer, pk.append, AppendReply(c.nodes[pk.peer].currentTerm, false, 0, 0))})
  {
    assert c.nodes[pk.peer := c.nodes[pk.peer]] == c.nodes;
  }

  lemma DeliverAppendKeeps(c: Cluster, c': Cluster, h: History, h': History, pk: Packet)
    requires Inv(c, h) && Enabled(c, DeliverAppend(pk))
    requires c' == Apply(c, DeliverAppend(pk)) && h' == Next(h, c, DeliverAppend(pk))
    ensures Inv(c', h')
  {
    var n, t := c.nodes[pk.peer], pk.append.term;
    if n.state == Dead {
      DeadAppend(c, c', h, h', pk);
    } else if t < n.currentTerm {
      StaleAppend(c, c', h, h', pk);
      RefuseKeeps(c, c', h, pk, AppendReply(n.currentTerm, false, 0, 0));
    } else if t == n.currentTerm && n.state == Follower {
      HandledForm(c, c, c', h, h', pk);
      FollowerKeeps(c, c', h, h', pk);
    } else {
      var c1 := c.(nodes := c.nodes[pk.peer := BecomeFollower(n, t)]);
      TurnFollower(c, c1, h, pk);
      HandledForm(c, c1, c', h, h', pk);
      FollowerKeeps(c1, c', h, h', pk);
    }
  }

  lemma TurnFollower(c: Cluster, c1: Cluster, h: History, pk: Packet)
    requires Inv(c, h) && pk in c.net && pk.AppendReq? && pk.peer in c.nodes && c.nodes[pk.peer].state != Dead
    requires pk.append.term > c.nodes[pk.peer].currentTerm
             || (pk.append.term == c.nodes[pk.peer].currentTerm && c.nodes[pk.peer].state != Follower)
    requires c1 == c.(nodes := c.nodes[pk.peer := BecomeFollower(c.nodes[pk.peer], pk.append.term)])
    ensures Inv(c1, h)
  {
    if pk.append.term > c.nodes[pk.peer].currentTerm {
      LaterTerm(c, c1, h, pk.peer, pk.append.term);
    } else {
      assert RequestOk(c, h, pk.peer, pk.append);
      assert c.nodes[pk.peer].state == Leader ==> LeaderOk(c.nodes[pk.peer], h);
      StepDownInv(c, c1, h, pk.peer);
    }
  }

  lemma AppendReplyForm(c: Cluster, c': Cluster, pk: Packet)
    requires Enabled(c, DeliverAppendReply(pk)) && c' == Apply(c, DeliverAppendReply(pk))
    ensures var i, n, rep := pk.append.leaderId, c.nodes[pk.append.leaderId], pk.appendReply;
            && c'.net == c.net
            && if rep.term > n.currentTerm then c'.nodes == c.nodes[i := BecomeFollower(n, rep.term)]
               else if n.state == Leader && pk.append.term == rep.term then
                 c'.nodes == c.nodes[i := if rep.success then Acked(n, pk.peer, Reach(pk.append))
                                          else n.(nextIndex := n.nextIndex[pk.peer := BackUp(n.log, rep)])]
               else c'.nodes == c.nodes[i := n]
  {
  }

  /** A reply of the current term is as good as what a timely reply must be. */
  lemma OwnTermReply(c: Cluster, h: History, pk: Packet)
    requires AppendPackets(c, h) && Leaders(c, h) && pk in c.net && pk.AppendRep? && pk.append.leaderId in c.nodes
    requires var n := c.nodes[pk.append.leaderId];
             n.state == Leader && pk.appendReply.term == pk.append.term == n.currentTerm
    ensures var n := c.nodes[pk.append.leaderId];
            && (pk.appendReply.success ==> Vouched(c, pk.peer, n.currentTerm, Reach(pk.append)))
            && (!pk.appendReply.success ==> BackUp(n.log, pk.appendReply) <= |n.log|)
  {
    var n := c.nodes[pk.append.leaderId];
    assert RequestOk(c, h, pk.peer, pk.append) && ReplyOk(h, pk.peer, pk.append, pk.appendReply);
    assert LeaderOk(n, h);
    assert pk.appendReply.success ==> Vouches(pk, pk.peer, n.currentTerm, Reach(pk.append));
  }

  lemma LeaderReplyKeeps(c: Cluster, c': Cluster, h: History, pk: Packet)
    requires Inv(c, h) && Enabled(c, DeliverAppendReply(pk)) && Timely(c, DeliverAppendReply(pk))
    requires c' == Apply(c, DeliverAppendReply(pk))
    requires var n := c.nodes[pk.append.leaderId];
             n.state == Leader && pk.appendReply.term == pk.append.term <= n.currentTerm
    ensures Inv(c', h)
  {
    LeaderReplyMoves(c, c', h, pk);
    LeaderMoveInv(c, c', h, pk.append.leaderId);
  }

  lemma LeaderReplyMoves(c: Cluster, c': Cluster, h: History, pk: Packet)
    requires Config(c) && Leaders(c, h) && Acks(c, h) && Commits(c, h) && AppendPackets(c, h)
    requires Enabled(c, DeliverAppendReply(pk)) && Timely(c, DeliverAppendReply(pk))
    requires c' == Apply(c, DeliverAppendReply(pk))
    requires var n := c.nodes[pk.append.leaderId];
             n.state == Leader && pk.appendReply.term == pk.append.term <= n.currentTerm
    ensures LeaderMove(c, c', h, pk.append.leaderId)
  {
    AppendReplyForm(c, c', pk);
    if pk.append.term == c.nodes[pk.append.leaderId].currentTerm {
      OwnTermReply(c, h, pk);
    }
    if pk.appendReply.success {
      AckReplyMove(c, c', h, pk);
    } else {
      BackUpMove(c, c', h, pk);
    }
  }

  lemma DeliverAppendReplyKeeps(c: Cluster, c': Cluster, h: History, pk: Packet)
    requires Inv(c, h) && Enabled(c, DeliverAppendReply(pk)) && Timely(c, DeliverAppendReply(pk))
    requires c' == Apply(c, DeliverAppendReply(pk))
    ensures Inv(c', h)
  {
    AppendReplyForm(c, c', pk);
    var i, n, rep := pk.append.leaderId, c.nodes[pk.append.leaderId], pk.appendReply;
    if rep.term > n.currentTerm {
      LaterTerm(c, c', h, i, rep.term);
    } else if n.state == Leader && pk.append.term == rep.term {
      LeaderReplyKeeps(c, c', h, pk);
    } else {
      Unmoved(c, c', h, i);
    }
  }

  lemma SubmitForm(c: Cluster, c': Cluster, h: History, h': History, i: int, command: int)
    requires Enabled(c, ClientSubmit(i, command)) && c.nodes[i].state == Leader
    requires c' == Apply(c, ClientSubmit(i, command)) && h' == Next(h, c, ClientSubmit(i, command))
    requires var n, t := c.nodes[i], c.nodes[i].currentTerm;
             && t in h.reigns && h.reigns[t].log == n.log && h.reigns[t].leader == i
             && Seat(t, i) in h.acks && h.acks[Seat(t, i)] == |n.log|
    ensures SubmitStep(c, c', h, h', i)
  {
  }

  lemma IdleSubmit(c: Cluster, c': Cluster, h: History, h': History, i: int, command: int)
    requires Enabled(c, ClientSubmit(i, command)) && c.nodes[i].state != Leader
    requires c' == Apply(c, ClientSubmit(i, command)) && h' == Next(h, c, ClientSubmit(i, command))
    ensures h' == h && c'.nodes == c.nodes[i := c.nodes[i]] && c'.net == c.net
  {
  }

  lemma SubmitKeeps(c: Cluster, c': Cluster, h: History, h': History, i: int, command: int)
    requires Inv(c, h) && Enabled(c, ClientSubmit(i, command))
    requires c' == Apply(c, ClientSubmit(i, command)) && h' == Next(h, c, ClientSubmit(i, command))
    ensures Inv(c', h')
  {
    if c.nodes[i].state == Leader {
      assert LeaderOk(c.nodes[i], h);
      SubmitForm(c, c', h, h', i, command);
      SubmitInv(c, c', h, h', i);
    } else {
      IdleSubmit(c, c', h, h', i, command);
      Unmoved(c, c', h, i);
    }
  }

  // ---------------------------------------------------------------------------------------
  // Delivery and stopping

  lemma TakePassive(n: Node)
    requires DeliveryOk(n) && n.sender.next >= n.sender.count
    ensures Passive(n, TakeCommitted(n)) && DeliveryOk(TakeCommitted(n))
  {
  }

  lemma ReportPassive(n: Node)
    requires DeliveryOk(n) && CanReport(n)
    ensures Passive(n, Report(n)) && DeliveryOk(Report(n))
  {
  }

  lemma LocalKeeps(c: Cluster, c': Cluster, h: History, s: Step)
    requires Inv(c, h) && Enabled(c, s) && (s.Take? || s.Emit? || s.Halt?) && c' == Apply(c, s)
    ensures Inv(c', h)
  {
    var n := c.nodes[s.i];
    assert DeliveryOk(n);
    if s.Take? {
      TakePassive(n);
      OnePassive(c, c', h, s.i, TakeCommitted(n));
    } else if s.Emit? {
      ReportPassive(n);
      OnePassive(c, c', h, s.i, Report(n));
    } else {
      OnePassive(c, c', h, s.i, Stop(n));
    }
  }

  lemma ElectionKeeps(c: Cluster, c': Cluster, h: History, h': History, s: Step)
    requires Inv(c, h) && Enabled(c, s) && Timely(c, s) && c' == Apply(c, s) && h' == Next(h, c, s)
    requires s.Timeout? || s.SendVote? || s.DeliverVote? || s.DeliverVoteReply?
    ensures Inv(c', h')
  {
    match s
    case Timeout(i) => TimeoutKeeps(c, c', h, h', i);
    case SendVote(pk) => SendVoteKeeps(c, c', h, pk);
    case DeliverVote(pk) => DeliverVoteKeeps(c, c', h, h', pk);
    case DeliverVoteReply(pk) => DeliverVoteReplyKeeps(c, c', h, h', pk);
  }

  lemma ReplicationKeeps(c: Cluster, c': Cluster, h: History, h': History, s: Step)
    requires Inv(c, h) && Enabled(c, s) && Timely(c, s) && c' == Apply(c, s) && h' == Next(h, c, s)
    requires s.DeliverAppend? || s.ClientSubmit?
    ensures Inv(c', h')
  {
    if s.DeliverAppend? {
      DeliverAppendKeeps(c, c', h, h', s.pk);
    } else {
      SubmitKeeps(c, c', h, h', s.i, s.command);
    }
  }

  lemma CallKeeps(c: Cluster, c': Cluster, h: History, s: Step)
    requires Inv(c, h) && Enabled(c, s) && Timely(c, s) && c' == Apply(c, s)
    requires s.SendAppend? || s.DeliverAppendReply?
    ensures Inv(c', h)
  {
    if s.SendAppend? {
      SendAppendKeeps(c, c', h, s.i, s.peer);
    } else {
      DeliverAppendReplyKeeps(c, c', h, s.pk);
    }
  }

  lemma StepKeeps(c: Cluster, c': Cluster, h: History, h': History, s: Step)
    requires Inv(c, h) && Enabled(c, s) && Timely(c, s) && c' == Apply(c, s) && h' == Next(h, c, s)
    ensures Inv(c', h')
  {
    if s.Timeout? || s.SendVote? || s.DeliverVote? || s.DeliverVoteReply? {
      ElectionKeeps(c, c', h, h', s);
    } else if s.Take? || s.Emit? || s.Halt? {
      NotRecorded(h, c, s);
      LocalKeeps(c, c', h, s);
    } else {
      AppendKeeps(c, c', h, h', s);
    }
  }

  lemma NotRecorded(h: History, c: Cluster, s: Step)
    requires Enabled(c, s) && (s.Take? || s.Emit? || s.Halt?)
    ensures Next(h, c, s) == h
  {
  }

  lemma AppendKeeps(c: Cluster, c': Cluster, h: History, h': History, s: Step)
    requires Inv(c, h) && Enabled(c, s) && Timely(c, s) && c' == Apply(c, s) && h' == Next(h, c, s)
    requires s.SendAppend? || s.DeliverAppendReply? || s.DeliverAppend? || s.ClientSubmit?
    ensures Inv(c', h')
  {
    if s.SendAppend? || s.DeliverAppendReply? {
      CallKeeps(c, c', h, s);
    } else {
      ReplicationKeeps(c, c', h, h', s);
    }
  }
}
