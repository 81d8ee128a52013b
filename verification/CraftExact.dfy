/** The environment assumption is exact: in a state of a timely run, the steps that keep the invariant are the timely ones. */
module CraftExact {
  import opened CraftNode
  import opened CraftCluster
  import opened CraftHistory
  import opened CraftSteps
  import opened CraftSafety

  /** Whoever acknowledged entries to a leader is that leader or has said so in a reply that is still about. */
  ghost predicate Acknowledged(c: Cluster, h: History) {
    forall s :: s in h.acks ==> AckedBy(c, h, s)
  }

  ghost predicate AckedBy(c: Cluster, h: History, s: Seat)
    requires s in h.acks
  {
    (s.term in h.reigns && h.reigns[s.term].leader == s.node) || Vouched(c, s.node, s.term, h.acks[s])
  }

  /** A candidate has not got a majority yet, unless it has no peers to hear from. */
  predicate Undecided(n: Node) {
    n.state == Candidate && n.peerIds != [] ==> Lookup(n.votesReceived, n.currentTerm) * 2 <= |n.peerIds| + 1
  }

  ghost predicate Recorded(c: Cluster, h: History) {
    Acknowledged(c, h) && forall i :: i in c.nodes ==> Undecided(c.nodes[i])
  }

  // ---------------------------------------------------------------------------------------
  // Every run keeps these records

  lemma VoteReplyUndecided(n: Node, req: VoteRequest, rep: VoteReply)
    requires Undecided(n)
    ensures Undecided(HandleVoteReply(n, req, rep))
  {
  }

  lemma StepUndecided(c: Cluster, s: Step)
    requires Enabled(c, s) && forall i :: i in c.nodes ==> Undecided(c.nodes[i])
    ensures forall i :: i in Apply(c, s).nodes ==> Undecided(Apply(c, s).nodes[i])
  {
    if s.DeliverVoteReply? {
      VoteReplyUndecided(c.nodes[s.pk.vote.candidateId], s.pk.vote, s.pk.voteReply);
    }
  }

  lemma VouchedStays(c: Cluster, s: Step, peer: int, t: int, k: int)
    requires Enabled(c, s) && Vouched(c, peer, t, k)
    ensures Vouched(Apply(c, s), peer, t, k)
  {
    if k > 0 {
      var pk :| pk in c.net && Vouches(pk, peer, t, k);
      AppendsStay(c, s, pk);
    }
  }

  /** A step records an acknowledgement only for an accepted request, or for a leader. */
  lemma NewAck(c: Cluster, h: History, s: Step, seat: Seat)
    requires Enabled(c, s) && seat in Next(h, c, s).acks
    ensures var h' := Next(h, c, s);
            || (seat in h.acks && h'.acks[seat] == h.acks[seat])
            || (seat.term in h'.reigns && h'.reigns[seat.term].leader == seat.node)
            || Vouched(Apply(c, s), seat.node, seat.term, h'.acks[seat])
  {
    if s.DeliverAppend? {
      AppendAck(c, h, s.pk, seat);
    }
  }

  lemma AppendAck(c: Cluster, h: History, pk: Packet, seat: Seat)
    requires Enabled(c, DeliverAppend(pk)) && seat in Next(h, c, DeliverAppend(pk)).acks
    ensures var h' := Next(h, c, DeliverAppend(pk));
            || (seat in h.acks && h'.acks[seat] == h.acks[seat])
            || Vouched(Apply(c, DeliverAppend(pk)), seat.node, seat.term, h'.acks[seat])
  {
    var n := c.nodes[pk.peer];
    if n.state != Dead && HandleAppendEntries(n, pk.append).1.success {
      var reply := AppendRep(pk.peer, pk.append, HandleAppendEntries(n, pk.append).1);
      assert reply in Apply(c, DeliverAppend(pk)).net;
      assert Vouches(reply, pk.peer, pk.append.term, Reach(pk.append));
    }
  }

  lemma StepAcknowledged(c: Cluster, h: History, s: Step)
    requires Inv(c, h) && Enabled(c, s) && Timely(c, s) && Acknowledged(c, h)
    ensures Acknowledged(Apply(c, s), Next(h, c, s))
  {
    var c', h' := Apply(c, s), Next(h, c, s);
    NextExtends(c, h, s);
    forall seat | seat in h'.acks
      ensures AckedBy(c', h', seat)
    {
      NewAck(c, h, s, seat);
      if seat in h.acks && h'.acks[seat] == h.acks[seat] {
        assert AckedBy(c, h, seat);
        if Vouched(c, seat.node, seat.term, h.acks[seat]) {
          VouchedStays(c, s, seat.node, seat.term, h.acks[seat]);
        }
      }
    }
  }

  lemma {:induction false} RunRecorded(cs: seq<Cluster>, steps: seq<Step>, k: nat)
    requires IsTimelyRun(cs, steps) && k <= |steps|
    ensures Recorded(cs[k], HistoryAt(cs, steps, k))
  {
    if k == 0 {
      InitRecorded(cs[0]);
    } else {
      RunRecorded(cs, steps, k - 1);
      NextRecorded(cs, steps, k - 1);
    }
  }

  lemma InitRecorded(c: Cluster)
    requires Init(c)
    ensures Recorded(c, EMPTY)
  {
  }

  lemma NextRecorded(cs: seq<Cluster>, steps: seq<Step>, k: nat)
    requires IsTimelyRun(cs, steps) && k < |steps| && Recorded(cs[k], HistoryAt(cs, steps, k))
    ensures Recorded(cs[k + 1], HistoryAt(cs, steps, k + 1))
  {
    RunInv(cs, steps, k);
    StepAt(cs, steps, k);
    StepRecorded(cs[k], HistoryAt(cs, steps, k), steps[k]);
  }

  lemma StepRecorded(c: Cluster, h: History, s: Step)
    requires Inv(c, h) && Enabled(c, s) && Timely(c, s) && Recorded(c, h)
    ensures Recorded(Apply(c, s), Next(h, c, s))
  {
    StepAcknowledged(c, h, s);
    StepUndecided(c, s);
  }

  // ---------------------------------------------------------------------------------------
  // A step that is not timely breaks the invariant

  lemma BackInTime(c: Cluster, h: History, c': Cluster, h': History, pk: Packet)
    requires Counts(c, h) && Enabled(c, DeliverVoteReply(pk)) && c' == Apply(c, DeliverVoteReply(pk))
    requires var n := c.nodes[pk.vote.candidateId];
             n.state == Candidate && pk.vote.term < pk.voteReply.term < n.currentTerm
    ensures !Tallies(c', h')
  {
    var i := pk.vote.candidateId;
    var t := c.nodes[i].currentTerm;
    assert t in c'.nodes[i].votesReceived && !TallyOk(c'.nodes[i], h', t);
  }

  /** The late vote makes a leader whose own election has no majority. */
  lemma WrongElection(c: Cluster, h: History, c': Cluster, h': History, pk: Packet)
    requires Config(c) && Counts(c, h) && Tallies(c, h) && Enabled(c, DeliverVoteReply(pk))
    requires c' == Apply(c, DeliverVoteReply(pk)) && h' == Next(h, c, DeliverVoteReply(pk))
    requires var n := c.nodes[pk.vote.candidateId];
             && n.state == Candidate && n.currentTerm != pk.vote.term && Elects(n, pk.vote, pk.voteReply)
             && n.peerIds != [] && Undecided(n)
    ensures !Reigns(c', h')
  {
    var i := pk.vote.candidateId;
    var n := c.nodes[i];
    var t := n.currentTerm;
    assert TallyOk(n, h, t);
    assert h'.reigns[t].quorum == h.counted[Seat(t, i)];
    assert |c'.nodes.Keys| == |n.peerIds| + 1 by {
      assert c'.nodes.Keys == c.nodes.Keys;
    }
    assert !Elected(h', c'.nodes.Keys, t);
    assert !ReignOk(c', h', t);
  }

  lemma HasPeers(c: Cluster, h: History, pk: Packet)
    requires Config(c) && VotePackets(c, h) && pk in c.net && pk.VoteRep?
    ensures pk.vote.candidateId in c.nodes && pk.peer in c.nodes[pk.vote.candidateId].peerIds
  {
    assert VotePacketOk(c, h, pk);
  }

  lemma LateVoteBreaks(c: Cluster, h: History, pk: Packet)
    requires Inv(c, h) && Recorded(c, h) && Enabled(c, DeliverVoteReply(pk)) && !Timely(c, DeliverVoteReply(pk))
    ensures !Inv(Apply(c, DeliverVoteReply(pk)), Next(h, c, DeliverVoteReply(pk)))
  {
    var c', h' := Apply(c, DeliverVoteReply(pk)), Next(h, c, DeliverVoteReply(pk));
    var n := c.nodes[pk.vote.candidateId];
    if pk.vote.term < pk.voteReply.term < n.currentTerm {
      BackInTime(c, h, c', h', pk);
    } else {
      HasPeers(c, h, pk);
      WrongElection(c, h, c', h', pk);
    }
  }

  /** The leader takes the peer to hold entries that it has not acknowledged, or looks for it outside its log. */
  lemma WrongPeer(c: Cluster, h: History, c': Cluster, pk: Packet)
    requires Config(c) && Leaders(c, h) && AppendPackets(c, h) && Acknowledged(c, h)
    requires Enabled(c, DeliverAppendReply(pk)) && !Timely(c, DeliverAppendReply(pk)) && c' == Apply(c, DeliverAppendReply(pk))
    ensures !Leaders(c', h)
  {
    var i, rep, k := pk.append.leaderId, pk.appendReply, Reach(pk.append);
    var n, n' := c.nodes[i], c'.nodes[i];
    assert RequestOk(c, h, pk.peer, pk.append) && LeaderOk(n, h);
    assert pk.peer in n.peerIds;
    if rep.success {
      var seat := Seat(n.currentTerm, pk.peer);
      assert seat in h.acks ==> AckedBy(c, h, seat);
      if seat in h.acks && k <= h.acks[seat] {
        LessVouched(c, pk.peer, n.currentTerm, k, h.acks[seat]);
      }
      assert n'.matchIndex[pk.peer] == k - 1 >= 0;
    }
    assert !PeerOk(n', h, pk.peer);
    assert !LeaderOk(n', h);
  }

  lemma LessVouched(c: Cluster, peer: int, t: int, k: int, m: int)
    requires k <= m
    ensures Vouched(c, peer, t, m) ==> Vouched(c, peer, t, k)
  {
    if Vouched(c, peer, t, m) && k > 0 {
      var pk :| pk in c.net && Vouches(pk, peer, t, m);
      assert Vouches(pk, peer, t, k);
    }
  }

  // ---------------------------------------------------------------------------------------
  // The exact condition

  /** A step keeps the invariant if and only if it is timely. */
  lemma KeepsIff(c: Cluster, h: History, s: Step)
    requires Inv(c, h) && Recorded(c, h) && Enabled(c, s)
    ensures Inv(Apply(c, s), Next(h, c, s)) <==> Timely(c, s)
  {
    if Timely(c, s) {
      StepKeeps(c, Apply(c, s), h, Next(h, c, s), s);
    } else if s.DeliverVoteReply? {
      LateVoteBreaks(c, h, s.pk);
    } else {
      LateAppendBreaks(c, h, s.pk);
    }
  }

  lemma LateAppendBreaks(c: Cluster, h: History, pk: Packet)
    requires Inv(c, h) && Recorded(c, h) && Enabled(c, DeliverAppendReply(pk)) && !Timely(c, DeliverAppendReply(pk))
    ensures !Inv(Apply(c, DeliverAppendReply(pk)), Next(h, c, DeliverAppendReply(pk)))
  {
    WrongPeer(c, h, Apply(c, DeliverAppendReply(pk)), pk);
  }

  /** After a timely run, exactly the timely steps keep the invariant; of all steps only the delivery of a late
      reply can fail to be timely. */
  lemma NextStepKeepsIff(cs: seq<Cluster>, steps: seq<Step>, s: Step)
    requires IsTimelyRun(cs, steps) && Enabled(cs[|steps|], s)
    ensures var c, h := cs[|steps|], HistoryAt(cs, steps, |steps|);
            Inv(Apply(c, s), Next(h, c, s)) <==> Timely(c, s)
  {
    RunInv(cs, steps, |steps|);
    RunRecorded(cs, steps, |steps|);
    KeepsIff(cs[|steps|], HistoryAt(cs, steps, |steps|), s);
  }

  lemma PrefixRun(cs: seq<Cluster>, steps: seq<Step>, n: nat)
    requires IsRun(cs, steps) && n <= |steps|
    ensures IsRun(cs[..n + 1], steps[..n])
  {
    var cs1, steps1 := cs[..n + 1], steps[..n];
    forall k | 0 <= k < |steps1|
      ensures StepOk(cs1, steps1, k)
    {
      assert StepOk(cs, steps, k);
    }
  }

  lemma {:induction false} SameHistory(cs: seq<Cluster>, steps: seq<Step>, k: nat, m: nat)
    requires IsRun(cs, steps) && m <= k <= |steps|
    ensures IsRun(cs[..k + 1], steps[..k]) && HistoryAt(cs[..k + 1], steps[..k], m) == HistoryAt(cs, steps, m)
    decreases m
  {
    PrefixRun(cs, steps, k);
    if m > 0 {
      SameHistory(cs, steps, k, m - 1);
    }
  }

  /** The first step of a run that is not timely. */
  lemma {:induction false} FirstLate(cs: seq<Cluster>, steps: seq<Step>) returns (n: nat)
    requires IsRun(cs, steps) && !IsTimelyRun(cs, steps)
    ensures n < |steps| && IsTimelyRun(cs[..n + 1], steps[..n]) && StepOk(cs, steps, n) && !Timely(cs[n], steps[n])
    decreases |steps|
  {
    n := |steps| - 1;
    assert StepOk(cs, steps, n);
    PrefixRun(cs, steps, n);
    var cs1, steps1 := cs[..n + 1], steps[..n];
    if IsTimelyRun(cs1, steps1) {
      LastIsLate(cs, steps, n);
    } else {
      n := FirstLate(cs1, steps1);
      assert cs1[..n + 1] == cs[..n + 1] && steps1[..n] == steps[..n];
      assert StepOk(cs1, steps1, n) && StepOk(cs, steps, n);
    }
  }

  lemma LastIsLate(cs: seq<Cluster>, steps: seq<Step>, n: nat)
    requires IsRun(cs, steps) && !IsTimelyRun(cs, steps) && n == |steps| - 1 && IsTimelyRun(cs[..n + 1], steps[..n])
    ensures StepOk(cs, steps, n) && !Timely(cs[n], steps[n])
  {
    assert StepOk(cs, steps, n);
    if TimelyAt(cs, steps, n) {
      TimelyToTheEnd(cs, steps, n);
    }
  }

  lemma TimelyToTheEnd(cs: seq<Cluster>, steps: seq<Step>, n: nat)
    requires IsRun(cs, steps) && n == |steps| - 1 && IsTimelyRun(cs[..n + 1], steps[..n]) && TimelyAt(cs, steps, n)
    ensures IsTimelyRun(cs, steps)
  {
    var cs1, steps1 := cs[..n + 1], steps[..n];
    forall k | 0 <= k < |steps|
      ensures TimelyAt(cs, steps, k)
    {
      if k < n {
        assert TimelyAt(cs1, steps1, k);
      }
    }
  }

  lemma LateBreaks(cs: seq<Cluster>, steps: seq<Step>) returns (k: nat)
    requires IsRun(cs, steps) && !IsTimelyRun(cs, steps)
    ensures k <= |steps| && !Inv(cs[k], HistoryAt(cs, steps, k))
  {
    var n := FirstLate(cs, steps);
    k := n + 1;
    SameHistory(cs, steps, n, n);
    NextStepKeepsIff(cs[..n + 1], steps[..n], steps[n]);
  }

  /** The runs in which the invariant holds throughout are exactly the timely ones. */
  lemma TimelyIffInvariant(cs: seq<Cluster>, steps: seq<Step>)
    requires IsRun(cs, steps)
    ensures IsTimelyRun(cs, steps) <==> forall k :: 0 <= k <= |steps| ==> Inv(cs[k], HistoryAt(cs, steps, k))
  {
    if IsTimelyRun(cs, steps) {
      forall k | 0 <= k <= |steps|
        ensures Inv(cs[k], HistoryAt(cs, steps, k))
      {
        RunInv(cs, steps, k);
      }
    } else {
      var k := LateBreaks(cs, steps);
    }
  }
}
