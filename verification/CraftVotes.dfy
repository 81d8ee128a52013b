/** When a node changes its vote within a term, and what binds it all the same. */
module CraftVotes {
  import opened CraftNode
  import opened CraftCluster
  import opened CraftHistory
  import opened CraftSafety
  import CraftRuns
  import opened CraftProgress
  import opened CraftStale

  // ---------------------------------------------------------------------------------------
  // Exactly when a vote is dropped

  /** The step makes node `a` give up as a candidate of its own term: a request of a leader of that term reaches it, or
      a late reply to a call of an earlier term, which carries its own term. */
  predicate Drops(c: Cluster, s: Step, a: int) {
    && a in c.nodes && c.nodes[a].state == Candidate
    && match s
       case DeliverAppend(pk) => pk.AppendReq? && pk.peer == a && pk.append.term == c.nodes[a].currentTerm
       case DeliverVoteReply(pk) =>
         pk.VoteRep? && pk.vote.candidateId == a && pk.vote.term < pk.voteReply.term == c.nodes[a].currentTerm
       case _ => false
  }

  /** A leader is sent no request of its own term. */
  ghost predicate NoRival(c: Cluster, s: Step, a: int) {
    s.DeliverAppend? && s.pk.AppendReq? && s.pk.peer == a && a in c.nodes && c.nodes[a].state == Leader ==>
      s.pk.append.term != c.nodes[a].currentTerm
  }

  lemma RunNoRival(cs: seq<Cluster>, steps: seq<Step>, k: nat, a: int)
    requires IsTimelyRun(cs, steps) && k < |steps|
    ensures NoRival(cs[k], steps[k], a)
  {
    assert StepOk(cs, steps, k);
    if steps[k].DeliverAppend? && a in cs[k].nodes && cs[k].nodes[a].state == Leader {
      LeaderOfTerm(cs, steps, k, a);
      CraftRuns.RunRequest(cs, steps, k, steps[k].pk);
    }
  }

  lemma AppendVote(c: Cluster, pk: Packet, a: int)
    requires Enabled(c, DeliverAppend(pk)) && NoRival(c, DeliverAppend(pk), a) && a in c.nodes
    requires c.nodes[a].votedFor >= 0 && Apply(c, DeliverAppend(pk)).nodes[a].currentTerm == c.nodes[a].currentTerm
    ensures Apply(c, DeliverAppend(pk)).nodes[a].votedFor != c.nodes[a].votedFor <==> Drops(c, DeliverAppend(pk), a)
  {
  }

  lemma ReplyVote(c: Cluster, pk: Packet, a: int)
    requires Enabled(c, DeliverVoteReply(pk)) && a in c.nodes
    requires c.nodes[a].votedFor >= 0 && Apply(c, DeliverVoteReply(pk)).nodes[a].currentTerm == c.nodes[a].currentTerm
    ensures Apply(c, DeliverVoteReply(pk)).nodes[a].votedFor != c.nodes[a].votedFor <==> Drops(c, DeliverVoteReply(pk), a)
  {
  }

  lemma OtherVote(c: Cluster, s: Step, a: int)
    requires Enabled(c, s) && !s.DeliverAppend? && !s.DeliverVoteReply? && a in c.nodes
    requires c.nodes[a].votedFor >= 0 && Apply(c, s).nodes[a].currentTerm == c.nodes[a].currentTerm
    ensures Apply(c, s).nodes[a].votedFor == c.nodes[a].votedFor
  {
  }

  /** A step of a timely run that leaves the term of a node as it is changes the vote of the node if and only if
      the node is a candidate and the step is one of the two. */
  lemma VoteChangesIff(cs: seq<Cluster>, steps: seq<Step>, k: nat, a: int)
    requires IsTimelyRun(cs, steps) && k < |steps| && a in cs[k].nodes && cs[k].nodes[a].votedFor >= 0
    requires a in cs[k + 1].nodes && cs[k + 1].nodes[a].currentTerm == cs[k].nodes[a].currentTerm
    ensures cs[k + 1].nodes[a].votedFor != cs[k].nodes[a].votedFor <==> Drops(cs[k], steps[k], a)
  {
    assert StepOk(cs, steps, k);
    RunNoRival(cs, steps, k, a);
    if steps[k].DeliverAppend? {
      AppendVote(cs[k], steps[k].pk, a);
    } else if steps[k].DeliverVoteReply? {
      ReplyVote(cs[k], steps[k].pk, a);
    } else {
      OtherVote(cs[k], steps[k], a);
    }
  }

  // ---------------------------------------------------------------------------------------
  // Over a stretch of a run

  /** The node does not stand in this term any more, and its vote is not its own. */
  predicate Retired(n: Node, a: int, t: int) {
    n.currentTerm == t ==> (n.state == Follower || n.state == Dead) && n.votedFor != a
  }

  lemma VoterIsNotCaller(cs: seq<Cluster>, steps: seq<Step>, k: nat, pk: Packet)
    requires IsTimelyRun(cs, steps) && k <= |steps| && pk in cs[k].net && pk.VoteReq?
    ensures pk.peer != pk.vote.candidateId
  {
    RunInv(cs, steps, k);
    assert VotePacketOk(cs[k], HistoryAt(cs, steps, k), pk);
  }

  lemma RetiredStep(c: Cluster, s: Step, a: int, t: int)
    requires Enabled(c, s) && a in c.nodes && Retired(c.nodes[a], a, t)
    requires c.nodes[a].currentTerm == t
    requires s.DeliverVote? ==> s.pk.peer != s.pk.vote.candidateId
    requires Apply(c, s).nodes[a].currentTerm >= t
    ensures Retired(Apply(c, s).nodes[a], a, t)
  {
  }

  lemma {:induction false} RetiredStays(cs: seq<Cluster>, steps: seq<Step>, j: nat, k: nat, a: int, t: int)
    requires IsTimelyRun(cs, steps) && j <= k <= |steps| && a in cs[j].nodes && a in cs[k].nodes
    requires cs[j].nodes[a].currentTerm == t && Retired(cs[j].nodes[a], a, t)
    ensures Retired(cs[k].nodes[a], a, t)
    decreases k
  {
    if j < k {
      CraftRuns.CommittedStays(cs, steps, j, k - 1, a);
      CraftRuns.StepSteady(cs, steps, k - 1, a);
      RetiredStays(cs, steps, j, k - 1, a, t);
      assert StepOk(cs, steps, k - 1);
      if cs[k - 1].nodes[a].currentTerm == t {
        if steps[k - 1].DeliverVote? {
          VoterIsNotCaller(cs, steps, k - 1, steps[k - 1].pk);
        }
        RetiredStep(cs[k - 1], steps[k - 1], a, t);
      }
    }
  }

  ghost predicate DropsBetween(cs: seq<Cluster>, steps: seq<Step>, j: nat, k: nat, a: int)
    requires j <= k <= |steps| && |cs| == |steps| + 1
  {
    exists m :: j <= m < k && Drops(cs[m], steps[m], a)
  }

  lemma {:induction false} NoDropNoChange(cs: seq<Cluster>, steps: seq<Step>, j: nat, k: nat, a: int)
    requires IsTimelyRun(cs, steps) && j <= k <= |steps| && a in cs[j].nodes && a in cs[k].nodes
    requires cs[j].nodes[a].votedFor >= 0 && cs[k].nodes[a].currentTerm == cs[j].nodes[a].currentTerm
    requires !DropsBetween(cs, steps, j, k, a)
    ensures cs[k].nodes[a].votedFor == cs[j].nodes[a].votedFor
    decreases k
  {
    if j < k {
      CraftRuns.CommittedStays(cs, steps, j, k - 1, a);
      CraftRuns.StepSteady(cs, steps, k - 1, a);
      NoDropNoChange(cs, steps, j, k - 1, a);
      VoteChangesIff(cs, steps, k - 1, a);
    }
  }

  lemma RunCandidate(cs: seq<Cluster>, steps: seq<Step>, k: nat, a: int)
    requires IsTimelyRun(cs, steps) && k <= |steps| && a in cs[k].nodes
    requires cs[k].nodes[a].state == Candidate || cs[k].nodes[a].state == Leader
    ensures cs[k].nodes[a].votedFor == a >= 0
  {
    RunInv(cs, steps, k);
  }

  lemma DropRetires(c: Cluster, s: Step, a: int)
    requires Enabled(c, s) && Drops(c, s, a) && c.nodes[a].votedFor == a >= 0
    ensures Apply(c, s).nodes[a].currentTerm == c.nodes[a].currentTerm
    ensures Retired(Apply(c, s).nodes[a], a, c.nodes[a].currentTerm)
  {
  }

  lemma DropChanges(cs: seq<Cluster>, steps: seq<Step>, j: nat, m: nat, k: nat, a: int)
    requires IsTimelyRun(cs, steps) && j <= m < k <= |steps| && a in cs[j].nodes && a in cs[k].nodes
    requires cs[j].nodes[a].votedFor >= 0 && cs[k].nodes[a].currentTerm == cs[j].nodes[a].currentTerm
    requires Drops(cs[m], steps[m], a)
    ensures cs[k].nodes[a].votedFor != cs[j].nodes[a].votedFor
  {
    var t := cs[j].nodes[a].currentTerm;
    CraftRuns.CommittedStays(cs, steps, j, m, a);
    CraftRuns.StepSteady(cs, steps, m, a);
    CraftRuns.CommittedStays(cs, steps, m + 1, k, a);
    RunCandidate(cs, steps, m, a);
    assert StepOk(cs, steps, m);
    DropRetires(cs[m], steps[m], a);
    RetiredStays(cs, steps, m + 1, k, a, t);
    if cs[j].nodes[a].votedFor != a {
      OtherIsRetired(cs, steps, j, a);
      RetiredStays(cs, steps, j, m, a, t);
    }
  }

  lemma OtherIsRetired(cs: seq<Cluster>, steps: seq<Step>, j: nat, a: int)
    requires IsTimelyRun(cs, steps) && j <= |steps| && a in cs[j].nodes && cs[j].nodes[a].votedFor != a
    ensures Retired(cs[j].nodes[a], a, cs[j].nodes[a].currentTerm)
  {
    if cs[j].nodes[a].state == Candidate || cs[j].nodes[a].state == Leader {
      RunCandidate(cs, steps, j, a);
    }
  }

  /** While a node stays in one term, its vote is another one than before if and only if it was dropped in between. */
  lemma OtherVoteIff(cs: seq<Cluster>, steps: seq<Step>, j: nat, k: nat, a: int)
    requires IsTimelyRun(cs, steps) && j <= k <= |steps| && a in cs[j].nodes && a in cs[k].nodes
    requires cs[j].nodes[a].votedFor >= 0 && cs[k].nodes[a].currentTerm == cs[j].nodes[a].currentTerm
    ensures cs[k].nodes[a].votedFor != cs[j].nodes[a].votedFor <==> DropsBetween(cs, steps, j, k, a)
  {
    if DropsBetween(cs, steps, j, k, a) {
      var m :| j <= m < k && Drops(cs[m], steps[m], a);
      DropChanges(cs, steps, j, m, k, a);
    } else {
      NoDropNoChange(cs, steps, j, k, a);
    }
  }

  // ---------------------------------------------------------------------------------------
  // What a node owes to those it has voted for

  /** The step grants the vote of a node to the candidate that asks for it. */
  ghost predicate GrantsVote(c: Cluster, s: Step) {
    && Enabled(c, s) && s.DeliverVote? && c.nodes[s.pk.peer].state != Dead
    && HandleRequestVote(c.nodes[s.pk.peer], s.pk.vote).1.voteGranted
  }

  function BallotOf(s: Step): Ballot
    requires s.DeliverVote? && s.pk.VoteReq?
  {
    Ballot(s.pk.vote.term, s.pk.peer, s.pk.vote.candidateId)
  }

  lemma GrantIsNoted(c: Cluster, h: History, s: Step)
    requires GrantsVote(c, s)
    ensures BallotOf(s) in Next(h, c, s).grants
  {
  }

  /** A vote that was granted is in every later history, and it is a vote for another node. */
  lemma GrantIsKept(cs: seq<Cluster>, steps: seq<Step>, j: nat, m: nat)
    requires IsTimelyRun(cs, steps) && j < m <= |steps| && GrantsVote(cs[j], steps[j])
    ensures BallotOf(steps[j]) in HistoryAt(cs, steps, m).grants
    ensures steps[j].pk.peer != steps[j].pk.vote.candidateId
  {
    StepAt(cs, steps, j);
    GrantIsNoted(cs[j], HistoryAt(cs, steps, j), steps[j]);
    HistoryGrows(cs, steps, j + 1, m);
    VoterIsNotCaller(cs, steps, j, steps[j].pk);
  }

  lemma RunBallots(cs: seq<Cluster>, steps: seq<Step>, k: nat)
    requires IsTimelyRun(cs, steps) && k <= |steps|
    ensures Exclusive(HistoryAt(cs, steps, k)) && Ballots(cs[k], HistoryAt(cs, steps, k))
  {
    RunInv(cs, steps, k);
  }

  /** All the votes that a node grants in one term go to the same candidate. */
  lemma OneCandidatePerTerm(cs: seq<Cluster>, steps: seq<Step>, j: nat, k: nat)
    requires IsTimelyRun(cs, steps) && j < |steps| && k < |steps|
    requires GrantsVote(cs[j], steps[j]) && GrantsVote(cs[k], steps[k])
    requires steps[j].pk.peer == steps[k].pk.peer && steps[j].pk.vote.term == steps[k].pk.vote.term
    ensures steps[j].pk.vote.candidateId == steps[k].pk.vote.candidateId
  {
    var m := if j < k then k + 1 else j + 1;
    GrantIsKept(cs, steps, j, m);
    GrantIsKept(cs, steps, k, m);
    RunBallots(cs, steps, m);
    assert Rivals(BallotOf(steps[j]), BallotOf(steps[k]));
  }

  /** A node that grants a vote keeps to it for the rest of the term: it neither stands nor drops the vote. */
  lemma GrantBinds(cs: seq<Cluster>, steps: seq<Step>, j: nat, k: nat)
    requires IsTimelyRun(cs, steps) && j < k <= |steps| && GrantsVote(cs[j], steps[j])
    ensures steps[j].pk.peer in cs[k].nodes
    ensures var n, vote := cs[k].nodes[steps[j].pk.peer], steps[j].pk.vote;
            && n.currentTerm >= vote.term
            && (n.currentTerm == vote.term ==> n.votedFor == vote.candidateId && (n.state == Follower || n.state == Dead))
  {
    GrantIsKept(cs, steps, j, k);
    RunBallots(cs, steps, k);
    assert BallotOk(cs[k], HistoryAt(cs, steps, k), BallotOf(steps[j]));
  }

  /** And it does not lead the term at any time, before or after. */
  lemma GranterNeverLeads(cs: seq<Cluster>, steps: seq<Step>, j: nat, k: nat)
    requires IsTimelyRun(cs, steps) && j < |steps| && k <= |steps| && GrantsVote(cs[j], steps[j])
    requires steps[j].pk.peer in cs[k].nodes && cs[k].nodes[steps[j].pk.peer].state == Leader
    ensures cs[k].nodes[steps[j].pk.peer].currentTerm != steps[j].pk.vote.term
  {
    var m := if j < k then k else j + 1;
    LeaderOfTerm(cs, steps, k, steps[j].pk.peer);
    HistoryGrows(cs, steps, k, m);
    GrantIsKept(cs, steps, j, m);
    RunBallots(cs, steps, m);
    assert Leads(HistoryAt(cs, steps, m), BallotOf(steps[j])) ==> false;
  }

  // ---------------------------------------------------------------------------------------
  // Two runs in which a node votes for itself and then for another in one term

  /** Nodes 0 and 2 both stand in term 1. */
  lemma BothStand() returns (cs: seq<Cluster>, steps: seq<Step>)
    ensures IsTimelyRun(cs, steps) && VoteCall(0, 1, 1) in Last(cs).net && VoteCall(0, 2, 1) in Last(cs).net
    ensures Three(Last(cs), StartElection(FRESH0), FRESH1, StartElection(FRESH2))
  {
    cs, steps := FirstStand();
    cs, steps := OneStep(cs, steps, Timeout(2));
  }

  /** Node 0 gets the vote of node 1. */
  lemma RivalVoted() returns (cs: seq<Cluster>, steps: seq<Step>)
    ensures IsTimelyRun(cs, steps) && VoteCall(0, 2, 1) in Last(cs).net
    ensures VoteRep(1, VoteRequest(1, 0, -1, -1), VoteReply(1, true)) in Last(cs).net
    ensures Three(Last(cs), StartElection(FRESH0), FRESH1.(currentTerm := 1, votedFor := 0), StartElection(FRESH2))
  {
    cs, steps := BothStand();
    cs, steps := OneStep(cs, steps, SendVote(VoteCall(0, 1, 1)));
    cs, steps := OneStep(cs, steps, DeliverVote(VoteReq(1, VoteRequest(1, 0, -1, -1))));
  }

  /** A node that leads term 1 with an empty log. */
  predicate LeadsFirst(n: Node) {
    n.id == 0 && n.state == Leader && n.currentTerm == 1 && n.log == [] && 2 in n.peerIds && Lookup(n.nextIndex, 2) == 0
  }

  /** It leads, and asks node 2 to follow. */
  lemma RivalLeads() returns (cs: seq<Cluster>, steps: seq<Step>, req: AppendRequest)
    ensures IsTimelyRun(cs, steps) && VoteCall(0, 2, 1) in Last(cs).net && AppendReq(2, req) in Last(cs).net
    ensures req.term == 1 && req.leaderId == 0 && req.prevLogIndex == -1 && req.entries == []
    ensures 0 in Last(cs).nodes && 2 in Last(cs).nodes
    ensures LeadsFirst(Last(cs).nodes[0]) && Last(cs).nodes[2] == StartElection(FRESH2)
  {
    cs, steps := RivalVoted();
    cs, steps := OneStep(cs, steps, DeliverVoteReply(VoteRep(1, VoteRequest(1, 0, -1, -1), VoteReply(1, true))));
    req := MakeAppendRequest(Last(cs).nodes[0], 2);
    cs, steps := OneStep(cs, steps, SendAppend(0, 2));
  }

  /** Node `a` has voted for itself when step `k` makes it drop the vote, and at the end, still in the same term,
      it has voted for another node. */
  ghost predicate VotesAgain(cs: seq<Cluster>, steps: seq<Step>, k: nat, a: int) {
    && IsTimelyRun(cs, steps) && k < |steps| && a in cs[k].nodes && a in Last(cs).nodes
    && Drops(cs[k], steps[k], a) && cs[k].nodes[a].votedFor == a
    && Last(cs).nodes[a].currentTerm == cs[k].nodes[a].currentTerm
    && Last(cs).nodes[a].votedFor in Last(cs).nodes.Keys - {a}
  }

  /** Node 2 stands in term 1, hears of the leader of term 1, and then gives its vote in term 1 to that leader, whose
      call was still under way. */
  lemma VotesTwice() returns (cs: seq<Cluster>, steps: seq<Step>, k: nat)
    ensures VotesAgain(cs, steps, k, 2) && steps[k].DeliverAppend?
  {
    var req: AppendRequest;
    cs, steps, req := RivalLeads();
    k := |steps|;
    ghost var c := Last(cs);
    cs, steps := OneStep(cs, steps, DeliverAppend(AppendReq(2, req)));
    assert cs[k] == c;
    cs, steps := LastVote(cs, steps, VoteCall(0, 2, 1), 2);
  }

  /** A vote call is sent and granted. */
  lemma LastVote(cs: seq<Cluster>, steps: seq<Step>, call: Packet, p: int) returns (cs': seq<Cluster>, steps': seq<Step>)
    requires IsTimelyRun(cs, steps) && call in Last(cs).net && call.VoteCall? && call.peer == p != call.caller
    requires p in Last(cs).nodes && call.caller in Last(cs).nodes && Last(cs).nodes[call.caller].id == call.caller
    requires Last(cs).nodes[call.caller].log == Last(cs).nodes[p].log == []
    requires Last(cs).nodes[p].state == Follower && Last(cs).nodes[p].currentTerm == call.term
    requires Last(cs).nodes[p].votedFor == -1
    ensures Continues(cs, steps, cs', steps') && |steps| < |steps'|
    ensures p in Last(cs').nodes && call.caller in Last(cs').nodes
    ensures Last(cs').nodes[p].currentTerm == call.term && Last(cs').nodes[p].votedFor == call.caller
  {
    var cs1, steps1 := OneStep(cs, steps, SendVote(call));
    cs', steps' := OneStep(cs1, steps1, DeliverVote(VoteReq(p, VoteRequest(call.term, call.caller, -1, -1))));
  }

  /** Node 0 stands in term 1; node 1, which stands in term 2, denies it the vote and says so. Node 0 stands in
      term 2 when the denial comes in. */
  lemma Denied() returns (cs: seq<Cluster>, steps: seq<Step>)
    ensures IsTimelyRun(cs, steps) && VoteCall(1, 0, 2) in Last(cs).net
    ensures VoteRep(1, VoteRequest(1, 0, -1, -1), VoteReply(2, false)) in Last(cs).net
    ensures Three(Last(cs), StartElection(StartElection(FRESH0)), StartElection(StartElection(FRESH1)), FRESH2)
  {
    cs, steps := FirstStand();
    cs, steps := OneStep(cs, steps, SendVote(VoteCall(0, 1, 1)));
    cs, steps := OneStep(cs, steps, Timeout(1));
    cs, steps := StandAgain(cs, steps);
    cs, steps := OneStep(cs, steps, DeliverVote(VoteReq(1, VoteRequest(1, 0, -1, -1))));
    cs, steps := OneStep(cs, steps, Timeout(0));
  }

  lemma StandAgain(cs: seq<Cluster>, steps: seq<Step>) returns (cs': seq<Cluster>, steps': seq<Step>)
    requires IsTimelyRun(cs, steps) && VoteReq(1, VoteRequest(1, 0, -1, -1)) in Last(cs).net
    requires Three(Last(cs), StartElection(FRESH0), StartElection(FRESH1), FRESH2)
    ensures IsTimelyRun(cs', steps') && VoteReq(1, VoteRequest(1, 0, -1, -1)) in Last(cs').net
    ensures Three(Last(cs'), StartElection(FRESH0), StartElection(StartElection(FRESH1)), FRESH2)
    ensures VoteCall(1, 0, 2) in Last(cs').net
  {
    cs', steps' := OneStep(cs, steps, Timeout(1));
    var n := StartElection(StartElection(FRESH1));
    assert n.peerIds[0] == 0;
    assert VoteCall(1, 0, 2) in VoteCalls(n);
  }

  /** It happens without a request of a leader, too: the denial of an earlier call makes node 0 drop its vote of term 2,
      and it gives the vote to node 1. */
  lemma VotesTwiceUnled() returns (cs: seq<Cluster>, steps: seq<Step>, k: nat)
    ensures VotesAgain(cs, steps, k, 0) && steps[k].DeliverVoteReply?
  {
    cs, steps := Denied();
    k := |steps|;
    ghost var c := Last(cs);
    cs, steps := OneStep(cs, steps, DeliverVoteReply(VoteRep(1, VoteRequest(1, 0, -1, -1), VoteReply(2, false))));
    assert cs[k] == c;
    cs, steps := LastVote(cs, steps, VoteCall(1, 0, 2), 0);
  }
}
