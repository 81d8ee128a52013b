/** Which term a delivered entry carries: the term of the node at the time when it took the entry for delivery. */
module CraftDelivered {
  import opened CraftNode
  import opened CraftCluster
  import opened CraftHistory
  import opened CraftSafety
  import CraftRuns
  import opened CraftProgress
  import opened CraftStale

  /** The step hands index `i` of the log of node `a` to the sender. */
  predicate TakesEntry(c: Cluster, s: Step, a: int, i: int) {
    s == Take(a) && a in c.nodes && c.nodes[a].lastApplied < i <= c.nodes[a].commitIndex
  }

  lemma RunDelivery(cs: seq<Cluster>, steps: seq<Step>, k: nat, a: int)
    requires IsTimelyRun(cs, steps) && k <= |steps| && a in cs[k].nodes
    ensures DeliveryOk(cs[k].nodes[a])
  {
    RunCommits(cs, steps, k);
  }

  // ---------------------------------------------------------------------------------------
  // Every delivered entry was taken

  lemma TakenNow(c: Cluster, s: Step, a: int, i: int)
    requires Enabled(c, s) && a in c.nodes && c.nodes[a].lastApplied < i <= Apply(c, s).nodes[a].lastApplied
    ensures TakesEntry(c, s, a, i)
  {
  }

  lemma {:induction false} TakenAt(cs: seq<Cluster>, steps: seq<Step>, k: nat, a: int, i: nat) returns (m: nat)
    requires IsRun(cs, steps) && k <= |steps| && a in cs[k].nodes && i <= cs[k].nodes[a].lastApplied
    ensures m < k && TakesEntry(cs[m], steps[m], a, i)
    decreases k
  {
    if k == 0 {
      assert false;
    } else {
      m := k - 1;
      assert StepOk(cs, steps, m);
      ApplyMembers(cs[m], steps[m]);
      if i <= cs[m].nodes[a].lastApplied {
        m := TakenAt(cs, steps, m, a, i);
      } else {
        TakenNow(cs[m], steps[m], a, i);
      }
    }
  }

  // ---------------------------------------------------------------------------------------
  // And it carries the term of that time

  /** The entry is delivered with term `t`, or is with the sender, which will say so. */
  predicate Carries(n: Node, i: nat, t: int) {
    i <= n.lastApplied && if i < |n.delivered| then n.delivered[i].term == t else n.sender.savedTerm == t
  }

  lemma TakeCarries(n: Node, i: nat)
    requires DeliveryOk(n) && n.sender.next >= n.sender.count && n.lastApplied < i <= n.commitIndex
    ensures Carries(TakeCommitted(n), i, n.currentTerm)
  {
  }

  /** Sender, deliveries and what was taken are the same. */
  predicate SameSender(n: Node, n': Node) {
    n'.sender == n.sender && n'.delivered == n.delivered && n'.lastApplied == n.lastApplied
  }

  lemma AppendSender(n: Node, req: AppendRequest)
    requires req.prevLogIndex >= -1
    ensures SameSender(n, HandleAppendEntries(n, req).0)
  {
  }

  lemma ReplySender(n: Node, peer: int, req: AppendRequest, rep: AppendReply)
    requires n.commitIndex >= -1
    ensures SameSender(n, HandleAppendReply(n, peer, req, rep))
  {
  }

  lemma VoteSender(n: Node, req: VoteRequest, rep: VoteReply)
    ensures SameSender(n, HandleRequestVote(n, req).0) && SameSender(n, HandleVoteReply(n, req, rep))
  {
  }

  lemma SenderStays(c: Cluster, s: Step, a: int)
    requires Enabled(c, s) && a in c.nodes && s != Take(a) && s != Emit(a)
    ensures SameSender(c.nodes[a], Apply(c, s).nodes[a])
  {
    var n := c.nodes[a];
    match s {
      case DeliverAppend(pk) => AppendSender(n, pk.append);
      case DeliverAppendReply(pk) =>
        if pk.append.leaderId == a {
          ReplySender(n, pk.peer, pk.append, pk.appendReply);
        }
      case DeliverVote(pk) => VoteSender(n, pk.vote, VoteReply(0, false));
      case DeliverVoteReply(pk) => VoteSender(n, pk.vote, pk.voteReply);
      case _ =>
    }
  }

  lemma SenderCarries(n: Node, i: nat, t: int)
    requires DeliveryOk(n) && Carries(n, i, t)
    ensures n.sender.next >= n.sender.count ==> Carries(TakeCommitted(n), i, t)
    ensures CanReport(n) ==> Carries(Report(n), i, t)
  {
  }

  lemma CarriesStep(c: Cluster, s: Step, a: int, i: nat, t: int)
    requires Enabled(c, s) && a in c.nodes && DeliveryOk(c.nodes[a]) && Carries(c.nodes[a], i, t)
    ensures Carries(Apply(c, s).nodes[a], i, t)
  {
    if s == Take(a) || s == Emit(a) {
      SenderCarries(c.nodes[a], i, t);
    } else {
      SenderStays(c, s, a);
    }
  }

  lemma {:induction false} CarriesOn(cs: seq<Cluster>, steps: seq<Step>, m: nat, k: nat, a: int, i: nat)
    requires IsTimelyRun(cs, steps) && m < k <= |steps| && a in cs[k].nodes && TakesEntry(cs[m], steps[m], a, i)
    ensures Carries(cs[k].nodes[a], i, cs[m].nodes[a].currentTerm)
    decreases k
  {
    assert StepOk(cs, steps, k - 1);
    ApplyMembers(cs[k - 1], steps[k - 1]);
    RunDelivery(cs, steps, k - 1, a);
    if m == k - 1 {
      TakeCarries(cs[m].nodes[a], i);
    } else {
      CarriesOn(cs, steps, m, k - 1, a, i);
      CarriesStep(cs[k - 1], steps[k - 1], a, i, cs[m].nodes[a].currentTerm);
    }
  }

  lemma TakenEntry(cs: seq<Cluster>, steps: seq<Step>, m: nat, k: nat, a: int, i: nat)
    requires IsTimelyRun(cs, steps) && m < k <= |steps| && a in cs[k].nodes && TakesEntry(cs[m], steps[m], a, i)
    ensures i < |cs[m].nodes[a].log| && i < |cs[k].nodes[a].log| && cs[k].nodes[a].log[i] == cs[m].nodes[a].log[i]
    ensures cs[m].nodes[a].log[i].term <= cs[m].nodes[a].currentTerm <= cs[k].nodes[a].currentTerm
  {
    CraftRuns.CommittedStays(cs, steps, m, k, a);
    RunDelivery(cs, steps, m, a);
    RunLogs(cs, steps, m);
  }

  /** Every delivered entry was taken for delivery at some step, and it carries the term of the node at that step. That is
      no earlier than the term of the entry in the log and no later than the term of the node now. */
  lemma DeliveredTerm(cs: seq<Cluster>, steps: seq<Step>, k: nat, a: int, i: nat) returns (m: nat)
    requires IsTimelyRun(cs, steps) && k <= |steps| && a in cs[k].nodes && i < |cs[k].nodes[a].delivered|
    ensures m < k && TakesEntry(cs[m], steps[m], a, i)
    ensures cs[k].nodes[a].delivered[i].term == cs[m].nodes[a].currentTerm
    ensures i < |cs[k].nodes[a].log|
    ensures cs[k].nodes[a].log[i].term <= cs[k].nodes[a].delivered[i].term <= cs[k].nodes[a].currentTerm
  {
    RunDelivery(cs, steps, k, a);
    m := TakenAt(cs, steps, k, a, i);
    CarriesOn(cs, steps, m, k, a, i);
    TakenEntry(cs, steps, m, k, a, i);
  }

  /** It is the term of the entry if and only if the node was still in that term when it took the entry. */
  lemma DeliveredTermIff(cs: seq<Cluster>, steps: seq<Step>, m: nat, k: nat, a: int, i: nat)
    requires IsTimelyRun(cs, steps) && m < k <= |steps| && a in cs[k].nodes && i < |cs[k].nodes[a].delivered|
    requires TakesEntry(cs[m], steps[m], a, i)
    ensures i < |cs[k].nodes[a].log| && i < |cs[m].nodes[a].log|
    ensures cs[k].nodes[a].delivered[i].term == cs[k].nodes[a].log[i].term <==>
              cs[m].nodes[a].currentTerm == cs[m].nodes[a].log[i].term
  {
    CarriesOn(cs, steps, m, k, a, i);
    TakenEntry(cs, steps, m, k, a, i);
  }

  // ---------------------------------------------------------------------------------------
  // A run in which the two terms differ

  /** Nothing was taken or delivered yet. */
  predicate Untaken(n: Node) {
    n.lastApplied == -1 && n.sender == Sender(0, -1, 0, 0) && n.delivered == []
  }

  /** Node 0 leads term 1 with one entry. */
  predicate LeadsOne(n: Node) {
    && n.id == 0 && n.peerIds == [1, 2] && n.state == Leader && n.currentTerm == 1 && n.log == [Entry(7, 1)]
    && n.commitIndex == -1 && Lookup(n.nextIndex, 1) == 0 && Untaken(n)
  }

  const AFTER_VOTE := FRESH1.(currentTerm := 1, votedFor := 0)

  lemma LeadsWithEntry() returns (cs: seq<Cluster>, steps: seq<Step>)
    ensures IsTimelyRun(cs, steps) && 0 in Last(cs).nodes && 1 in Last(cs).nodes && 2 in Last(cs).nodes
    ensures LeadsOne(Last(cs).nodes[0]) && Last(cs).nodes[1] == AFTER_VOTE && Last(cs).nodes[2] == FRESH2
  {
    cs, steps := FirstElection();
    cs, steps := OneStep(cs, steps, DeliverVoteReply(VoteRep(1, VoteRequest(1, 0, -1, -1), VoteReply(1, true))));
    cs, steps := OneStep(cs, steps, ClientSubmit(0, 7));
  }

  const REQUEST := AppendRequest(1, 0, -1, -1, [Entry(7, 1)], -1)

  lemma PeerAccepts() returns (cs: seq<Cluster>, steps: seq<Step>)
    ensures IsTimelyRun(cs, steps) && 0 in Last(cs).nodes && 2 in Last(cs).nodes
    ensures LeadsOne(Last(cs).nodes[0]) && Last(cs).nodes[2] == FRESH2
    ensures AppendRep(1, REQUEST, AppendReply(1, true, 0, 0)) in Last(cs).net
  {
    cs, steps := LeadsWithEntry();
    var l := Last(cs).nodes[0];
    assert MakeAppendRequest(l, 1) == REQUEST;
    cs, steps := OneStep(cs, steps, SendAppend(0, 1));
    assert HandleAppendEntries(AFTER_VOTE, REQUEST).1 == AppendReply(1, true, 0, 0);
    cs, steps := OneStep(cs, steps, DeliverAppend(AppendReq(1, REQUEST)));
  }

  /** The entry is committed, and node 0 is still in its term. */
  lemma OneCommitted() returns (cs: seq<Cluster>, steps: seq<Step>)
    ensures IsTimelyRun(cs, steps) && 0 in Last(cs).nodes && 2 in Last(cs).nodes && Last(cs).nodes[2] == FRESH2
    ensures var n := Last(cs).nodes[0];
            n.currentTerm == 1 && n.state == Leader && n.log == [Entry(7, 1)] && n.commitIndex == 0 && Untaken(n)
  {
    cs, steps := PeerAccepts();
    var rep := AppendReply(1, true, 0, 0);
    PeerMatches(Last(cs).nodes[0], rep);
    cs, steps := OneStep(cs, steps, DeliverAppendReply(AppendRep(1, REQUEST, rep)));
  }

  lemma PeerMatches(n: Node, rep: AppendReply)
    requires LeadsOne(n) && rep == AppendReply(1, true, 0, 0)
    ensures var n' := HandleAppendReply(n, 1, REQUEST, rep);
            n'.currentTerm == 1 && n'.state == Leader && n'.log == n.log && n'.commitIndex == 0 && Untaken(n')
  {
    var n1 := n.(nextIndex := n.nextIndex[1 := 1], matchIndex := n.matchIndex[1 := 0]);
    assert 1 in n1.peerIds && 1 in Matching(n1, 0);
    assert {1} <= Matching(n1, 0);
    AtLeastOne(Matching(n1, 0));
    assert Committable(n1, 0);
  }

  lemma AtLeastOne(s: set<int>)
    requires 1 in s
    ensures |s| >= 1
  {
  }

  /** Node 0 hears of term 2 before it takes the entry. */
  lemma TermMovesOn() returns (cs: seq<Cluster>, steps: seq<Step>)
    ensures IsTimelyRun(cs, steps) && 0 in Last(cs).nodes
    ensures var n := Last(cs).nodes[0]; n.currentTerm == 2 && n.log == [Entry(7, 1)] && n.commitIndex == 0 && Untaken(n)
  {
    cs, steps := OneCommitted();
    cs, steps := OneStep(cs, steps, Timeout(2));
    cs, steps := OneStep(cs, steps, Timeout(2));
    var n := StartElection(StartElection(FRESH2));
    assert n.peerIds[0] == 0;
    assert VoteCall(2, 0, 2) in VoteCalls(n);
    cs, steps := OneStep(cs, steps, SendVote(VoteCall(2, 0, 2)));
    cs, steps := OneStep(cs, steps, DeliverVote(VoteReq(0, VoteRequest(2, 2, -1, -1))));
  }

  /** An entry of term 1, committed in term 1 by the node itself, is delivered with term 2. */
  lemma LaterTermDelivered() returns (cs: seq<Cluster>, steps: seq<Step>)
    ensures IsTimelyRun(cs, steps) && 0 in Last(cs).nodes
    ensures Last(cs).nodes[0].log == [Entry(7, 1)] && Last(cs).nodes[0].delivered == [CommitEntry(7, 0, 2)]
  {
    cs, steps := TermMovesOn();
    cs, steps := OneStep(cs, steps, Take(0));
    cs, steps := OneStep(cs, steps, Emit(0));
  }
}
