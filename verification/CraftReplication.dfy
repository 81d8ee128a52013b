/** The follower's side of log replication keeps the invariant. */
module CraftReplication {
  import opened CraftNode
  import opened CraftCluster
  import opened CraftHistory
  import opened CraftMonotone
  import opened CraftRecord
  import opened CraftQuiet
  import opened CraftCompleteness

  // ---------------------------------------------------------------------------------------
  // A candidate hears from the leader of its term, or of the term in a late reply, and drops its own vote

  ghost predicate StepDown(c: Cluster, c': Cluster, h: History, i: int) {
    && i in c.nodes
    && c.nodes[i].state == Candidate
    && (c.nodes[i].currentTerm in h.reigns ==> h.reigns[c.nodes[i].currentTerm].leader != i)
    && c' == c.(nodes := c.nodes[i := BecomeFollower(c.nodes[i], c.nodes[i].currentTerm)])
  }

  lemma StepDownVotes(c: Cluster, c': Cluster, h: History, i: int)
    requires StepDown(c, c', h, i) && Candidates(c, h) && Qualified(c, h) && Ballots(c, h)
    ensures Candidates(c', h) && Qualified(c', h) && Ballots(c', h)
  {
    forall b | b in h.grants
      ensures BallotOk(c', h, b)
    {
      assert BallotOk(c, h, b);
    }
  }

  lemma StepDownCounts(c: Cluster, c': Cluster, h: History, i: int)
    requires StepDown(c, c', h, i) && Counts(c, h) && Tallies(c, h) && VotePackets(c, h)
    ensures Counts(c', h) && Tallies(c', h) && VotePackets(c', h)
  {
    forall s | s in h.counted
      ensures SeatOk(c', h, s)
    {
      assert SeatOk(c, h, s);
    }
    forall j, t | j in c'.nodes && t in c'.nodes[j].votesReceived
      ensures TallyOk(c'.nodes[j], h, t)
    {
      assert TallyOk(c.nodes[j], h, t);
    }
    StepDownPackets(c, c', h, i);
  }

  lemma StepDownPackets(c: Cluster, c': Cluster, h: History, i: int)
    requires StepDown(c, c', h, i) && VotePackets(c, h)
    ensures VotePackets(c', h)
  {
    forall pk | pk in c'.net && IsVote(pk)
      ensures VotePacketOk(c', h, pk)
    {
      assert VotePacketOk(c, h, pk);
    }
  }

  lemma StepDownStill(c: Cluster, c': Cluster, h: History, i: int)
    requires StepDown(c, c', h, i)
    ensures Still(c, c', h, h)
  {
  }

  lemma StepDownInv(c: Cluster, c': Cluster, h: History, i: int)
    requires StepDown(c, c', h, i) && Inv(c, h)
    ensures Inv(c', h)
  {
    StepDownVotes(c, c', h, i);
    StepDownCounts(c, c', h, i);
    StepDownStill(c, c', h, i);
    StillRest(c, c', h, h, Ballot(c.nodes[i].currentTerm, i, i));
  }

  // ---------------------------------------------------------------------------------------
  // What merging does to a log

  /** An accepted request leaves the log alone if it already has all of it, and otherwise turns it into the stretch
      of the leader's log `l` that the request vouches for. */
  lemma MergeMatching(log: Log, l: Log, prev: int, entries: Log)
    requires -1 <= prev < |log| && prev + 1 + |entries| <= |l|
    requires forall j :: 0 <= j < |entries| ==> entries[j] == l[prev + 1 + j]
    requires Agree(log, l, prev + 1 + MatchLen(log, prev + 1, entries))
    ensures Merged(log, MergeLog(log, prev, entries), l, prev + 1 + |entries|)
  {
    var j := MatchLen(log, prev + 1, entries);
    if j < |entries| {
      var log' := MergeLog(log, prev, entries);
      assert forall x :: 0 <= x < prev + 1 + j ==> log'[x] == log[x];
      assert forall x :: j <= x < |entries| ==> log'[prev + 1 + x] == entries[x];
      assert forall x :: prev + 1 + j <= x < |log'| ==> log'[x] == entries[x - prev - 1];
      assert Agree(log', l, prev + 1 + |entries|);
      assert prev + 1 + j < |log| ==> log[prev + 1 + j] != l[prev + 1 + j];
    }
  }

  ghost predicate Merged(log: Log, log': Log, l: Log, k: int) {
    && Agree(log', l, k)
    && (log' == log || (|log'| == k && !Agree(log, l, k)))
  }

  lemma LastMatch(log: Log, l: Log, prev: int, entries: Log)
    requires -1 <= prev < |log| && prev + 1 + |entries| <= |l|
    requires forall j :: 0 <= j < |entries| ==> entries[j] == l[prev + 1 + j]
    requires prev >= 0 ==> log[prev].term == l[prev].term
    ensures var e := prev + MatchLen(log, prev + 1, entries);
            e >= 0 ==> e < |log| && e < |l| && log[e].term == l[e].term
  {
    var j := MatchLen(log, prev + 1, entries);
    assert j > 0 ==> log[prev + 1 + (j - 1)].term == entries[j - 1].term;
  }

  lemma MergeOrigin(h: History, log: Log, l: Log, prev: int, entries: Log)
    requires Origin(h, log) && Origin(h, l)
    requires -1 <= prev < |log| && prev + 1 + |entries| <= |l|
    requires forall j :: 0 <= j < |entries| ==> entries[j] == l[prev + 1 + j]
    requires prev >= 0 ==> log[prev].term == l[prev].term
    ensures Merged(log, MergeLog(log, prev, entries), l, prev + 1 + |entries|)
  {
    LastMatch(log, l, prev, entries);
    var e := prev + MatchLen(log, prev + 1, entries);
    assert Agree(log, l, e + 1) by {
      if e >= 0 {
        OriginMatch(h, log, l, e);
      }
    }
    MergeMatching(log, l, prev, entries);
  }

  lemma MergeFacts(c: Cluster, h: History, peer: int, log: Log, req: AppendRequest)
    requires RequestOk(c, h, peer, req) && Origin(h, log) && Origin(h, h.reigns[req.term].log)
    requires PrevMatches(log, req)
    ensures -1 <= req.prevLogIndex < |log|
    ensures Merged(log, MergeLog(log, req.prevLogIndex, req.entries),
                   h.reigns[req.term].log, req.prevLogIndex + 1 + |req.entries|)
  {
    MergeOrigin(h, log, h.reigns[req.term].log, req.prevLogIndex, req.entries);
  }

  /** What the node kept of the logs of earlier leaders, or of this one, it keeps. */
  lemma MergeKeeps(h: History, log: Log, log': Log, t: int, k: int, u: int, n: int)
    requires t in h.reigns && u in h.reigns && u <= t
    requires Merged(log, log', h.reigns[t].log, k)
    requires KeepsAll(h, log, u, n, t + 1)
    ensures KeepsAll(h, log', u, n, t + 1)
  {
    var bound := t + 1;
    forall m | 0 <= m <= n
      ensures Keeps(h, log', u, m, bound)
    {
      assert Keeps(h, log, u, m, bound);
    }
  }

  /** No request reaches into what the node has committed. */
  lemma MergeBeyondCommit(c: Cluster, h: History, n: Node, log': Log, t: int, k: int)
    requires Reigns(c, h) && Logs(c, h) && VoterLogs(h) && CommitOk(h, c.nodes.Keys, n)
    requires t in h.reigns && n.currentTerm <= t
    requires Merged(n.log, log', h.reigns[t].log, k)
    ensures n.commitIndex < |log'| && Agree(n.log, log', n.commitIndex + 1)
  {
    if n.commitIndex >= 0 {
      CommittedInLaterLeader(c, h, n, t);
    }
  }

  // ---------------------------------------------------------------------------------------
  // Accepting a request

  ghost predicate AcceptStep(c: Cluster, c': Cluster, h: History, h': History, pk: Packet) {
    && pk in c.net && pk.AppendReq? && pk.peer in c.nodes && pk.peer in c'.nodes
    && RequestOk(c, h, pk.peer, pk.append)
    && var n, req, log := c.nodes[pk.peer], pk.append, c'.nodes[pk.peer].log;
       && n.state == Follower && n.currentTerm == req.term
       && c'.nodes == c.nodes[pk.peer := n.(log := log, commitIndex :=
            if req.leaderCommit > n.commitIndex then Min(req.leaderCommit, |log| - 1) else n.commitIndex)]
       && c'.net == c.net + {AppendRep(pk.peer, req, AppendReply(n.currentTerm, true, 0, 0))}
       && Merged(n.log, log, h.reigns[req.term].log, req.prevLogIndex + 1 + |req.entries|)
       && Seat(req.term, pk.peer) in h'.acks
       && var s, k, m := Seat(req.term, pk.peer), req.prevLogIndex + 1 + |req.entries|, h'.acks[Seat(req.term, pk.peer)];
          && h' == h.(acks := h.acks[s := m])
          && if s in h.acks && k < h.acks[s] then m == h.acks[s] else m == k
  }

  lemma AcceptFrame(c: Cluster, c': Cluster, h: History, h': History, pk: Packet)
    requires AcceptStep(c, c', h, h', pk)
    ensures Extends(h, h') && c'.nodes.Keys == c.nodes.Keys
    ensures h'.reigns == h.reigns && h'.grants == h.grants && h'.counted == h.counted
    ensures forall j :: j in c.nodes ==>
      && c'.nodes[j] == c.nodes[j].(log := c'.nodes[j].log, commitIndex := c'.nodes[j].commitIndex)
      && (j != pk.peer ==> c'.nodes[j] == c.nodes[j])
    ensures c.nodes[pk.peer].state == Follower && c.nodes[pk.peer].currentTerm == pk.append.term
    ensures forall s :: s in h'.acks && s != Seat(pk.append.term, pk.peer) ==> s in h.acks && h'.acks[s] == h.acks[s]
    ensures forall q :: q in c'.net && IsVote(q) <==> q in c.net && IsVote(q)
  {
  }

  /** What `AcceptFrame` gives, for the clauses that need nothing else. */
  ghost predicate FollowerLogStep(c: Cluster, c': Cluster, h: History, h': History, i: int) {
    && c'.nodes.Keys == c.nodes.Keys && i in c.nodes
    && h'.reigns == h.reigns && h'.grants == h.grants && h'.counted == h.counted
    && (forall j :: j in c.nodes ==>
      && c'.nodes[j] == c.nodes[j].(log := c'.nodes[j].log, commitIndex := c'.nodes[j].commitIndex)
      && (j != i ==> c'.nodes[j] == c.nodes[j]))
    && c.nodes[i].state == Follower
    && (forall q :: q in c'.net && IsVote(q) <==> q in c.net && IsVote(q))
  }

  lemma AcceptVotes(c: Cluster, c': Cluster, h: History, h': History, i: int)
    requires FollowerLogStep(c, c', h, h', i) && Candidates(c, h) && Qualified(c, h) && Ballots(c, h) && Exclusive(h)
    ensures Candidates(c', h') && Qualified(c', h') && Ballots(c', h') && Exclusive(h')
  {
    forall b | b in h.grants
      ensures BallotOk(c', h', b)
    {
      assert BallotOk(c, h, b);
    }
  }

  lemma AcceptCounts(c: Cluster, c': Cluster, h: History, h': History, i: int)
    requires FollowerLogStep(c, c', h, h', i) && Counts(c, h) && Tallies(c, h)
    ensures Counts(c', h') && Tallies(c', h')
  {
    forall s | s in h.counted
      ensures SeatOk(c', h', s)
    {
      assert SeatOk(c, h, s);
    }
    forall j, t | j in c'.nodes && t in c'.nodes[j].votesReceived
      ensures TallyOk(c'.nodes[j], h', t)
    {
      assert TallyOk(c.nodes[j], h, t);
    }
  }

  lemma AcceptVotePackets(c: Cluster, c': Cluster, h: History, h': History, i: int)
    requires FollowerLogStep(c, c', h, h', i) && VotePackets(c, h)
    ensures VotePackets(c', h')
  {
    forall pk | pk in c'.net && IsVote(pk)
      ensures VotePacketOk(c', h', pk)
    {
      assert VotePacketOk(c, h, pk);
    }
  }

  lemma AcceptReigns(c: Cluster, c': Cluster, h: History, h': History, i: int)
    requires FollowerLogStep(c, c', h, h', i) && Reigns(c, h)
    ensures Reigns(c', h')
  {
    forall t | t in h.reigns
      ensures ReignOk(c', h', t)
    {
      assert ReignOk(c, h, t);
    }
  }

  lemma AcceptLeaders(c: Cluster, c': Cluster, h: History, h': History, pk: Packet)
    requires AcceptStep(c, c', h, h', pk) && Leaders(c, h)
    ensures Leaders(c', h')
  {
    AcceptFrame(c, c', h, h', pk);
    forall j | j in c'.nodes && c'.nodes[j].state == Leader
      ensures LeaderOk(c'.nodes[j], h')
    {
      assert LeaderOk(c.nodes[j], h);
      assert forall p :: p in c.nodes[j].peerIds ==> PeerOk(c.nodes[j], h, p);
    }
  }

  lemma AcceptedLog(c: Cluster, c': Cluster, h: History, h': History, pk: Packet)
    requires AcceptStep(c, c', h, h', pk) && Logs(c, h) && Reigns(c, h)
    ensures Origin(h', c'.nodes[pk.peer].log)
    ensures forall k :: 0 <= k < |c'.nodes[pk.peer].log| ==> c'.nodes[pk.peer].log[k].term <= c.nodes[pk.peer].currentTerm
  {
    var t := pk.append.term;
    assert ReignOk(c, h, t);
    assert Origin(h, h.reigns[t].log) && ReignLog(h.reigns[t], t);
    var log, log' := c.nodes[pk.peer].log, c'.nodes[pk.peer].log;
    if log' != log {
      assert forall k :: 0 <= k < |log'| ==> log'[k] == h.reigns[t].log[k];
    }
  }

  lemma AcceptLogs(c: Cluster, c': Cluster, h: History, h': History, pk: Packet)
    requires AcceptStep(c, c', h, h', pk) && Logs(c, h) && Reigns(c, h)
    ensures Logs(c', h')
  {
    AcceptFrame(c, c', h, h', pk);
    AcceptedLog(c, c', h, h', pk);
    OtherLogs(c, c', h, h', pk.peer);
  }

  lemma OtherLogs(c: Cluster, c': Cluster, h: History, h': History, i: int)
    requires FollowerLogStep(c, c', h, h', i) && Logs(c, h) && Origin(h', c'.nodes[i].log)
    requires forall k :: 0 <= k < |c'.nodes[i].log| ==> c'.nodes[i].log[k].term <= c.nodes[i].currentTerm
    ensures Logs(c', h')
  {
    assert forall log :: Origin(h, log) ==> Origin(h', log);
  }

  lemma AcceptAck(c: Cluster, c': Cluster, h: History, h': History, pk: Packet, s: Seat)
    requires AcceptStep(c, c', h, h', pk) && Acks(c, h)
    requires s in h.acks && s.node == pk.peer
    ensures s.term in h.reigns && KeepsAll(h, c'.nodes[pk.peer].log, s.term, h.acks[s], pk.append.term + 1)
  {
    assert AckOk(c, h, s);
    MergeKeeps(h, c.nodes[pk.peer].log, c'.nodes[pk.peer].log, pk.append.term,
               pk.append.prevLogIndex + 1 + |pk.append.entries|, s.term, h.acks[s]);
  }

  /** The acknowledgement that the request itself adds. */
  lemma AcceptNewAck(h: History, log: Log, t: int, k: int, n: int)
    requires t in h.reigns && Agree(log, h.reigns[t].log, k) && k >= 0
    requires n == k || (n > k && KeepsAll(h, log, t, n, t + 1))
    ensures KeepsAll(h, log, t, n, t + 1)
  {
    assert forall m :: 0 <= m <= k ==> Agree(log, h.reigns[t].log, m);
  }

  lemma AcceptKeeps(c: Cluster, c': Cluster, h: History, h': History, pk: Packet, s: Seat)
    requires AcceptStep(c, c', h, h', pk) && Acks(c, h)
    requires s in h'.acks && s.node == pk.peer
    ensures s.term in h.reigns && 0 <= h'.acks[s] <= |h.reigns[s.term].log| && s.term <= pk.append.term
    ensures KeepsAll(h, c'.nodes[pk.peer].log, s.term, h'.acks[s], pk.append.term + 1)
  {
    var t := pk.append.term;
    if s in h.acks {
      assert AckOk(c, h, s);
      AcceptAck(c, c', h, h', pk, s);
    }
    if s == Seat(t, pk.peer) {
      AcceptNewAck(h, c'.nodes[pk.peer].log, t, pk.append.prevLogIndex + 1 + |pk.append.entries|, h'.acks[s]);
    }
  }

  lemma AcceptAckOk(c: Cluster, c': Cluster, h: History, h': History, pk: Packet, s: Seat)
    requires AcceptStep(c, c', h, h', pk) && Acks(c, h)
    requires s in h'.acks && s.node == pk.peer
    ensures AckOk(c', h', s)
  {
    AcceptKeeps(c, c', h, h', pk, s);
    KeepsSame(h, h', c'.nodes[pk.peer].log, s.term, h'.acks[s], pk.append.term + 1);
  }

  lemma KeepsSame(h: History, h': History, log: Log, t: int, n: int, bound: int)
    requires h'.reigns == h.reigns && t in h.reigns && KeepsAll(h, log, t, n, bound)
    ensures KeepsAll(h', log, t, n, bound)
  {
    assert forall k :: 0 <= k <= n && Keeps(h, log, t, k, bound) ==> Keeps(h', log, t, k, bound);
  }

  lemma AcceptAcks(c: Cluster, c': Cluster, h: History, h': History, pk: Packet)
    requires AcceptStep(c, c', h, h', pk) && Acks(c, h) && Reigns(c, h)
    ensures Acks(c', h')
  {
    AcceptFrame(c, c', h, h', pk);
    forall s | s in h'.acks
      ensures AckOk(c', h', s)
    {
      if s.node == pk.peer {
        AcceptAckOk(c, c', h, h', pk, s);
      } else {
        assert AckOk(c, h, s);
        RecordAck(c, c', h, h', s);
      }
    }
  }

  lemma AcceptVoterLogs(c: Cluster, c': Cluster, h: History, h': History, pk: Packet)
    requires AcceptStep(c, c', h, h', pk) && VoterLogs(h) && Ballots(c, h) && Acks(c, h) && Reigns(c, h)
    ensures VoterLogs(h')
  {
    AcceptFrame(c, c', h, h', pk);
    forall b, s | b in h'.grants && Effective(h', b) && s in h'.acks && s.node == b.voter && s.term < b.term
      ensures s.term in h'.reigns && KeepsAll(h', h'.grants[b], s.term, h'.acks[s], b.term)
    {
      assert BallotOk(c, h, b);
      assert s != Seat(pk.append.term, pk.peer);
      assert Effective(h, b);
      assert AckOk(c, h, s) && ReignOk(c, h, s.term);
      KeepsAllMono(h, h', h.grants[b], s.term, h.acks[s], b.term, b.term);
    }
  }

  lemma AcceptPackets(c: Cluster, c': Cluster, h: History, h': History, pk: Packet)
    requires AcceptStep(c, c', h, h', pk) && AppendPackets(c, h)
    ensures AppendPackets(c', h')
  {
    AcceptFrame(c, c', h, h', pk);
    forall q | q in c'.net && (q.AppendReq? || q.AppendRep?)
      ensures RequestOk(c', h', q.peer, q.append)
    {
      RecordRequest(c, c', h, h', q.peer, q.append);
    }
  }

  lemma AcceptStable(c: Cluster, c': Cluster, h: History, h': History, pk: Packet)
    requires AcceptStep(c, c', h, h', pk) && Reigns(c, h) && Logs(c, h) && VoterLogs(h) && Commits(c, h)
    ensures c.nodes[pk.peer].commitIndex < |c'.nodes[pk.peer].log|
    ensures c.nodes[pk.peer].commitIndex <= c'.nodes[pk.peer].commitIndex < |c'.nodes[pk.peer].log|
    ensures Agree(c.nodes[pk.peer].log, c'.nodes[pk.peer].log, c.nodes[pk.peer].commitIndex + 1)
    ensures pk.append.leaderCommit > c.nodes[pk.peer].commitIndex ==> c'.nodes[pk.peer].commitIndex == pk.append.leaderCommit
    ensures pk.append.leaderCommit <= c.nodes[pk.peer].commitIndex ==>
      c'.nodes[pk.peer].commitIndex == c.nodes[pk.peer].commitIndex
  {
    MergeBeyondCommit(c, h, c.nodes[pk.peer], c'.nodes[pk.peer].log, pk.append.term,
                      pk.append.prevLogIndex + 1 + |pk.append.entries|);
  }

  lemma CommitFrom(h: History, h': History, members: set<int>, l: Log, t: int, n': Node)
    requires Extends(h, h') && 0 <= n'.commitIndex < |n'.log| && n'.currentTerm == t
    requires CommittedPrefix(h, members, l, n'.commitIndex + 1, t) && Agree(n'.log, l, n'.commitIndex + 1)
    ensures CommitOk(h', members, n')
  {
    CommittedPrefixMono(h, h', members, l, n'.commitIndex + 1, t, t);
    CommittedPrefixAgree(h', members, l, n'.log, n'.commitIndex + 1, t);
  }

  /** What the request vouches for is committed and is in the follower's new log. */
  lemma RequestCommits(c: Cluster, c': Cluster, h: History, h': History, pk: Packet, m: int)
    requires AcceptStep(c, c', h, h', pk) && m == pk.append.leaderCommit >= 0
    ensures CommittedPrefix(h, c.nodes.Keys, h.reigns[pk.append.term].log, m + 1, pk.append.term)
    ensures Agree(c'.nodes[pk.peer].log, h.reigns[pk.append.term].log, m + 1)
    ensures Extends(h, h') && c'.nodes[pk.peer].currentTerm == pk.append.term
  {
  }

  lemma AcceptCommit(c: Cluster, c': Cluster, h: History, h': History, pk: Packet)
    requires AcceptStep(c, c', h, h', pk) && Reigns(c, h) && Logs(c, h) && VoterLogs(h) && Commits(c, h)
    ensures CommitOk(h', c.nodes.Keys, c'.nodes[pk.peer])
  {
    AcceptStable(c, c', h, h', pk);
    assert CommitOk(h, c.nodes.Keys, c.nodes[pk.peer]);
    if pk.append.leaderCommit > c.nodes[pk.peer].commitIndex {
      CommitRaised(c, c', h, h', pk);
    } else {
      CommitHeld(c, c', h, h', pk);
    }
  }

  lemma CommitRaised(c: Cluster, c': Cluster, h: History, h': History, pk: Packet)
    requires AcceptStep(c, c', h, h', pk)
    requires 0 <= pk.append.leaderCommit == c'.nodes[pk.peer].commitIndex < |c'.nodes[pk.peer].log|
    ensures CommitOk(h', c.nodes.Keys, c'.nodes[pk.peer])
  {
    RequestCommits(c, c', h, h', pk, pk.append.leaderCommit);
    CommitFrom(h, h', c.nodes.Keys, h.reigns[pk.append.term].log, pk.append.term, c'.nodes[pk.peer]);
  }

  lemma CommitHeld(c: Cluster, c': Cluster, h: History, h': History, pk: Packet)
    requires AcceptStep(c, c', h, h', pk) && CommitOk(h, c.nodes.Keys, c.nodes[pk.peer])
    requires c.nodes[pk.peer].commitIndex == c'.nodes[pk.peer].commitIndex < |c'.nodes[pk.peer].log|
    requires Agree(c.nodes[pk.peer].log, c'.nodes[pk.peer].log, c.nodes[pk.peer].commitIndex + 1)
    ensures CommitOk(h', c.nodes.Keys, c'.nodes[pk.peer])
  {
    AcceptFrame(c, c', h, h', pk);
    RecordCommit(h, h', c.nodes.Keys, c.nodes[pk.peer], c'.nodes[pk.peer]);
  }

  lemma AcceptCommits(c: Cluster, c': Cluster, h: History, h': History, pk: Packet)
    requires AcceptStep(c, c', h, h', pk) && Reigns(c, h) && Logs(c, h) && VoterLogs(h) && Commits(c, h)
    ensures Commits(c', h')
  {
    AcceptFrame(c, c', h, h', pk);
    AcceptCommit(c, c', h, h', pk);
    forall j | j in c'.nodes
      ensures CommitOk(h', c'.nodes.Keys, c'.nodes[j])
    {
      if j != pk.peer {
        RecordCommit(h, h', c.nodes.Keys, c.nodes[j], c'.nodes[j]);
      }
    }
  }

  lemma AcceptDeliveries(c: Cluster, c': Cluster, h: History, h': History, pk: Packet)
    requires AcceptStep(c, c', h, h', pk) && Reigns(c, h) && Logs(c, h) && VoterLogs(h) && Commits(c, h) && Deliveries(c)
    ensures Deliveries(c')
  {
    AcceptFrame(c, c', h, h', pk);
    AcceptStable(c, c', h, h', pk);
    assert DeliveryOk(c.nodes[pk.peer]);
    DeliveryGrows(c.nodes[pk.peer], c'.nodes[pk.peer]);
  }

  lemma DeliveryGrows(n: Node, n': Node)
    requires DeliveryOk(n) && n.commitIndex <= n'.commitIndex < |n'.log| && Agree(n.log, n'.log, n.commitIndex + 1)
    requires n'.sender == n.sender && n'.delivered == n.delivered && n'.lastApplied == n.lastApplied
    ensures DeliveryOk(n')
  {
  }

  lemma AcceptVoteInv(c: Cluster, c': Cluster, h: History, h': History, i: int)
    requires FollowerLogStep(c, c', h, h', i) && VoteInv(c, h)
    ensures VoteInv(c', h')
  {
    AcceptVotes(c, c', h, h', i);
    AcceptCounts(c, c', h, h', i);
    AcceptVotePackets(c, c', h, h', i);
  }

  lemma AcceptLogInv(c: Cluster, c': Cluster, h: History, h': History, pk: Packet)
    requires AcceptStep(c, c', h, h', pk) && Config(c) && LogInv(c, h)
    ensures Config(c') && LogInv(c', h')
  {
    AcceptFrame(c, c', h, h', pk);
    AcceptReigns(c, c', h, h', pk.peer);
    AcceptLeaders(c, c', h, h', pk);
    AcceptLogs(c, c', h, h', pk);
  }

  lemma AcceptAckInv(c: Cluster, c': Cluster, h: History, h': History, pk: Packet)
    requires AcceptStep(c, c', h, h', pk) && Reigns(c, h) && Logs(c, h) && AckInv(c, h) && Ballots(c, h)
    ensures AckInv(c', h')
  {
    AcceptAcks(c, c', h, h', pk);
    AcceptVoterLogs(c, c', h, h', pk);
    AcceptPackets(c, c', h, h', pk);
    AcceptCommits(c, c', h, h', pk);
    AcceptDeliveries(c, c', h, h', pk);
  }

  lemma AcceptInv(c: Cluster, c': Cluster, h: History, h': History, pk: Packet)
    requires AcceptStep(c, c', h, h', pk) && Inv(c, h)
    ensures Inv(c', h')
  {
    AcceptFrame(c, c', h, h', pk);
    AcceptVoteInv(c, c', h, h', pk.peer);
    AcceptLogInv(c, c', h, h', pk);
    AcceptAckInv(c, c', h, h', pk);
  }
}
