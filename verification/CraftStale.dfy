/** Why replies must be timely. */
module CraftStale {
  import opened CraftNode
  import opened CraftCluster
  import opened CraftProgress
  import CraftSafety

  /** A reply takes a candidate back to an earlier term if and only if it answers a request of an earlier term still. */
  lemma TermGoesBackIff(n: Node, req: VoteRequest, rep: VoteReply)
    requires req.term <= n.currentTerm
    ensures HandleVoteReply(n, req, rep).currentTerm < n.currentTerm
            <==> n.state == Candidate && req.term < rep.term < n.currentTerm
  {
  }

  // ---------------------------------------------------------------------------------------
  // A run with two leaders in one term

  ghost predicate Three(c: Cluster, n0: Node, n1: Node, n2: Node) {
    c.nodes == map[0 := n0, 1 := n1, 2 := n2]
  }

  const FRESH0 := NewNode(0, [1, 2])
  const FRESH1 := NewNode(1, [0, 2])
  const FRESH2 := NewNode(2, [0, 1])

  /** Node 0 stands in term 1 and gets the vote of node 1, but the reply is still under way. */
  lemma FirstElection() returns (cs: seq<Cluster>, steps: seq<Step>)
    ensures IsTimelyRun(cs, steps)
    ensures var c := Last(cs);
            && Three(c, StartElection(FRESH0), FRESH1.(currentTerm := 1, votedFor := 0), FRESH2)
            && VoteRep(1, VoteRequest(1, 0, -1, -1), VoteReply(1, true)) in c.net
  {
    cs, steps := FirstStand();
    cs, steps := FirstVote(cs, steps, VoteCall(0, 1, 1));
  }

  lemma FirstStand() returns (cs: seq<Cluster>, steps: seq<Step>)
    ensures IsTimelyRun(cs, steps) && VoteCall(0, 1, 1) in Last(cs).net && VoteCall(0, 2, 1) in Last(cs).net
    ensures Three(Last(cs), StartElection(FRESH0), FRESH1, FRESH2)
  {
    var cs0, steps0 := Start();
    cs, steps := OneStep(cs0, steps0, Timeout(0));
    FirstCalls();
  }

  lemma Start() returns (cs: seq<Cluster>, steps: seq<Step>)
    ensures IsTimelyRun(cs, steps) && steps == [] && Three(cs[0], FRESH0, FRESH1, FRESH2) && cs[0].net == {}
  {
    var c0 := Cluster(map[0 := FRESH0, 1 := FRESH1, 2 := FRESH2], {});
    assert c0.nodes.Keys == {0, 1, 2};
    cs, steps := [c0], [];
  }

  lemma FirstCalls()
    ensures VoteCall(0, 1, 1) in VoteCalls(StartElection(FRESH0)) && VoteCall(0, 2, 1) in VoteCalls(StartElection(FRESH0))
  {
    assert StartElection(FRESH0).peerIds[0] == 1 && StartElection(FRESH0).peerIds[1] == 2;
  }

  lemma FirstVote(cs0: seq<Cluster>, steps0: seq<Step>, call: Packet) returns (cs: seq<Cluster>, steps: seq<Step>)
    requires IsTimelyRun(cs0, steps0) && call == VoteCall(0, 1, 1) && call in Last(cs0).net
    requires Three(Last(cs0), StartElection(FRESH0), FRESH1, FRESH2)
    ensures IsTimelyRun(cs, steps)
    ensures var c := Last(cs);
            && Three(c, StartElection(FRESH0), FRESH1.(currentTerm := 1, votedFor := 0), FRESH2)
            && VoteRep(1, VoteRequest(1, 0, -1, -1), VoteReply(1, true)) in c.net
  {
    cs, steps := OneStep(cs0, steps0, SendVote(call));
    cs, steps := OneStep(cs, steps, DeliverVote(VoteReq(1, VoteRequest(1, 0, -1, -1))));
  }

  /** Nodes 0 and 2 stand in term 2; node 2 gets the vote of node 1 and leads. */
  lemma SecondElection() returns (cs: seq<Cluster>, steps: seq<Step>)
    ensures IsTimelyRun(cs, steps)
    ensures var c := Last(cs);
            && c.nodes.Keys == {0, 1, 2}
            && c.nodes[0] == StartElection(StartElection(FRESH0))
            && c.nodes[2].state == Leader && c.nodes[2].currentTerm == 2
            && VoteRep(1, VoteRequest(1, 0, -1, -1), VoteReply(1, true)) in c.net
  {
    cs, steps := FirstElection();
    cs, steps := OneStep(cs, steps, Timeout(0));
    cs, steps := OneStep(cs, steps, Timeout(2));
    cs, steps := OneStep(cs, steps, Timeout(2));
    var n2 := StartElection(StartElection(FRESH2));
    assert Last(cs).nodes[2] == n2;
    var call := VoteCall(2, 1, 2);
    assert call in VoteCalls(n2) by {
      assert 1 in n2.peerIds;
    }
    cs, steps := ThirdVote(cs, steps, call);
  }

  lemma ThirdVote(cs0: seq<Cluster>, steps0: seq<Step>, call: Packet) returns (cs: seq<Cluster>, steps: seq<Step>)
    requires IsTimelyRun(cs0, steps0) && call == VoteCall(2, 1, 2)
    requires var c, late := Last(cs0), VoteRep(1, VoteRequest(1, 0, -1, -1), VoteReply(1, true));
             && c.nodes.Keys == {0, 1, 2}
             && c.nodes[0] == StartElection(StartElection(FRESH0))
             && c.nodes[1] == FRESH1.(currentTerm := 1, votedFor := 0)
             && c.nodes[2] == StartElection(StartElection(FRESH2))
             && late in c.net && call in c.net
    ensures IsTimelyRun(cs, steps)
    ensures var c := Last(cs);
            && c.nodes.Keys == {0, 1, 2}
            && c.nodes[0] == StartElection(StartElection(FRESH0))
            && c.nodes[2].state == Leader && c.nodes[2].currentTerm == 2
            && VoteRep(1, VoteRequest(1, 0, -1, -1), VoteReply(1, true)) in c.net
  {
    var req := VoteRequest(2, 2, -1, -1);
    cs, steps := OneStep(cs0, steps0, SendVote(call));
    cs, steps := OneStep(cs, steps, DeliverVote(VoteReq(1, req)));
    cs, steps := ThirdReply(cs, steps, VoteRep(1, req, VoteReply(2, true)));
  }

  lemma ThirdReply(cs0: seq<Cluster>, steps0: seq<Step>, rep: Packet) returns (cs: seq<Cluster>, steps: seq<Step>)
    requires IsTimelyRun(cs0, steps0) && rep == VoteRep(1, VoteRequest(2, 2, -1, -1), VoteReply(2, true))
    requires var c, late := Last(cs0), VoteRep(1, VoteRequest(1, 0, -1, -1), VoteReply(1, true));
             && c.nodes.Keys == {0, 1, 2}
             && c.nodes[0] == StartElection(StartElection(FRESH0))
             && c.nodes[2] == StartElection(StartElection(FRESH2))
             && late in c.net && rep in c.net
    ensures IsTimelyRun(cs, steps)
    ensures var c := Last(cs);
            && c.nodes.Keys == {0, 1, 2}
            && c.nodes[0] == StartElection(StartElection(FRESH0))
            && c.nodes[2].state == Leader && c.nodes[2].currentTerm == 2
            && VoteRep(1, VoteRequest(1, 0, -1, -1), VoteReply(1, true)) in c.net
  {
    cs, steps := OneStep(cs0, steps0, DeliverVoteReply(rep));
  }

  /** Election safety fails in a run in which one reply is late: node 0, a candidate of term 2 without votes,
      counts the vote it was given in term 1 and becomes the second leader of term 2. */
  lemma TwoLeaders() returns (cs: seq<Cluster>, steps: seq<Step>)
    ensures IsRun(cs, steps) && steps != [] && IsTimelyRun(cs[..|steps|], steps[..|steps| - 1])
    ensures var c := Last(cs);
            && 0 in c.nodes && 2 in c.nodes
            && c.nodes[0].state == Leader && c.nodes[2].state == Leader
            && c.nodes[0].currentTerm == c.nodes[2].currentTerm
    ensures !IsTimelyRun(cs, steps)
  {
    var cs0, steps0 := SecondElection();
    cs, steps := LastStep(cs0, steps0, DeliverVoteReply(VoteRep(1, VoteRequest(1, 0, -1, -1), VoteReply(1, true))));
    if IsTimelyRun(cs, steps) {
      CraftSafety.ElectionSafety(cs, steps, |steps|, |steps|, 0, 2);
    }
  }

  /** One more step, timely or not. */
  lemma LastStep(cs0: seq<Cluster>, steps0: seq<Step>, s: Step) returns (cs: seq<Cluster>, steps: seq<Step>)
    requires IsTimelyRun(cs0, steps0) && Enabled(Last(cs0), s)
    ensures IsRun(cs, steps) && steps != [] && Last(cs) == Apply(Last(cs0), s)
    ensures IsTimelyRun(cs[..|steps|], steps[..|steps| - 1])
  {
    cs, steps := cs0 + [Apply(Last(cs0), s)], steps0 + [s];
    assert cs[..|steps|] == cs0 && steps[..|steps| - 1] == steps0;
    forall k | 0 <= k < |steps|
      ensures StepOk(cs, steps, k)
    {
      assert cs[k] == cs0[k];
      if k < |steps0| {
        assert StepOk(cs0, steps0, k);
      }
    }
  }
}
