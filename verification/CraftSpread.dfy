/** How what a leader has committed reaches the others: every request says so, a peer can always learn it, and every live
    node of a majority can come to deliver any command. */
module CraftSpread {
  import opened CraftNode
  import opened CraftCluster
  import opened CraftHistory
  import opened CraftSafety
  import opened CraftRuns
  import opened CraftProgress
  import CraftAvailable
  import CraftLate

  // ---------------------------------------------------------------------------------------
  // What a request says

  /** The request has the leader's term, its whole log from some index on, the term of the entry before that, and how far
      the leader has committed. */
  predicate Tells(n: Node, p: int, req: AppendRequest) {
    && req.term == n.currentTerm && req.leaderId == n.id && req.leaderCommit == n.commitIndex
    && -1 <= req.prevLogIndex < |n.log| && req.prevLogIndex + 1 == Lookup(n.nextIndex, p)
    && req.entries == n.log[req.prevLogIndex + 1..]
    && (req.prevLogIndex >= 0 ==> req.prevLogTerm == n.log[req.prevLogIndex].term)
  }

  /** A send of a timely run changes no node and adds one request to the network, which tells what the leader has. */
  lemma SendTells(cs: seq<Cluster>, steps: seq<Step>, k: nat, a: int, p: int) returns (req: AppendRequest)
    requires IsTimelyRun(cs, steps) && k < |steps| && steps[k] == SendAppend(a, p)
    ensures cs[k + 1] == cs[k].(net := cs[k].net + {AppendReq(p, req)})
    ensures a in cs[k].nodes && req.leaderId == a && Tells(cs[k].nodes[a], p, req)
  {
    assert StepOk(cs, steps, k);
    RunLeaders(cs, steps, k);
    req := MakeAppendRequest(cs[k].nodes[a], p);
  }

  lemma NotWonOtherwise(c: Cluster, s: Step, a: int)
    requires Enabled(c, s) && a in c.nodes && !s.DeliverVoteReply? && c.nodes[a].state != Leader
    ensures Apply(c, s).nodes[a].state != Leader
  {
  }

  lemma WonReply(n: Node, req: VoteRequest, rep: VoteReply)
    requires n.state != Leader && HandleVoteReply(n, req, rep).state == Leader
    ensures n.state == Candidate
    ensures var n' := HandleVoteReply(n, req, rep);
            && n'.log == n.log && n'.currentTerm == n.currentTerm && n'.peerIds == n.peerIds
            && forall p :: p in n.peerIds ==> Lookup(n'.nextIndex, p) == |n.log| && Lookup(n'.matchIndex, p) == -1
  {
  }

  /** A node that has just come to lead sends to everyone from the end of its log and takes nobody to hold anything. */
  lemma NewLeader(cs: seq<Cluster>, steps: seq<Step>, k: nat, a: int, p: int)
    requires IsTimelyRun(cs, steps) && k < |steps| && a in cs[k].nodes && a in cs[k + 1].nodes
    requires cs[k].nodes[a].state != Leader && cs[k + 1].nodes[a].state == Leader && p in cs[k].nodes && p != a
    ensures var n, n' := cs[k].nodes[a], cs[k + 1].nodes[a];
            && n.state == Candidate && n'.log == n.log && n'.currentTerm == n.currentTerm
            && Lookup(n'.nextIndex, p) == |n.log| && Lookup(n'.matchIndex, p) == -1
  {
    assert StepOk(cs, steps, k);
    RunLeaders(cs, steps, k);
    if steps[k].DeliverVoteReply? {
      WonReply(cs[k].nodes[a], steps[k].pk.vote, steps[k].pk.voteReply);
    } else {
      NotWonOtherwise(cs[k], steps[k], a);
    }
  }

  // ---------------------------------------------------------------------------------------
  // One peer

  /** The commit index does not move any more if nothing has changed that it depends on. */
  lemma ScanAgain(l: Node, l': Node)
    requires l.commitIndex >= -1 && Scanned(l) && l'.log == l.log && l'.currentTerm == l.currentTerm
    requires l'.peerIds == l.peerIds && l'.matchIndex == l.matchIndex
    requires l'.commitIndex == CommitScan(l'.(commitIndex := l.commitIndex), |l.log|)
    ensures l'.commitIndex == l.commitIndex
  {
    var before := l'.(commitIndex := l.commitIndex);
    forall i | l.commitIndex < i < |l.log|
      ensures !Committable(before, i)
    {
      assert Matching(l, i) == Matching(before, i);
      assert !Committable(l, i);
    }
  }

  /** From every state of a timely run, the run can go on so that a live peer that is not ahead of the leader in term has
      committed all that the leader has, and no more than it had itself before. */
  lemma LearnsCommit(cs: seq<Cluster>, steps: seq<Step>, a: int, p: int) returns (cs': seq<Cluster>, steps': seq<Step>)
    requires IsTimelyRun(cs, steps) && Ready(Last(cs), a, p)
    ensures Continues(cs, steps, cs', steps') && OnlyPeer(Last(cs), Last(cs'), a, p) && Ready(Last(cs'), a, p)
    ensures Last(cs').nodes[p].commitIndex == Max(Last(cs).nodes[p].commitIndex, Last(cs').nodes[a].commitIndex)
    ensures Last(cs').nodes[a].commitIndex >= Last(cs).nodes[a].commitIndex
  {
    var c := Last(cs);
    var cs1, steps1 := CatchesUp(cs, steps, a, p);
    var l1 := Last(cs1).nodes[a];
    ScanEnds(c.nodes[a].commitIndex, l1);
    CommitIsIndex(cs1, steps1, a);
    cs', steps' := CatchesUp(cs1, steps1, a, p);
    ScanAgain(l1, Last(cs').nodes[a]);
    ContinuesFurther(cs, steps, cs1, steps1, cs', steps');
  }

  // ---------------------------------------------------------------------------------------
  // All the peers

  /** The first `k` of the peers have committed at least up to `i`. */
  ghost predicate Informed(c: Cluster, ps: seq<int>, k: nat, i: int)
    requires k <= |ps|
  {
    forall j :: 0 <= j < k ==> ps[j] in c.nodes && c.nodes[ps[j]].commitIndex >= i
  }

  lemma InformedNext(c: Cluster, c': Cluster, a: int, ps: seq<int>, k: nat, i: int)
    requires k < |ps| && Distinct(ps) && AllReady(c, a, ps) && CaughtUp(c, c', a, ps[k])
    requires Informed(c, ps, k, i) && c.nodes[a].commitIndex >= i
    ensures Informed(c', ps, k + 1, i)
  {
    forall j | 0 <= j < k + 1
      ensures ps[j] in c'.nodes && c'.nodes[ps[j]].commitIndex >= i
    {
      assert Ready(c, a, ps[j]);
    }
  }

  lemma {:induction false} AllLearn(cs: seq<Cluster>, steps: seq<Step>, a: int, ps: seq<int>, k: nat)
    returns (cs': seq<Cluster>, steps': seq<Step>)
    requires IsTimelyRun(cs, steps) && a in Last(cs).nodes && k <= |ps| && Distinct(ps) && AllReady(Last(cs), a, ps)
    requires Last(cs).nodes[a].commitIndex == |Last(cs).nodes[a].log| - 1
    ensures Continues(cs, steps, cs', steps') && SameLeader(Last(cs), Last(cs'), a) && AllReady(Last(cs'), a, ps)
    ensures Last(cs').nodes[a].commitIndex == Last(cs).nodes[a].commitIndex
    ensures Informed(Last(cs'), ps, k, Last(cs).nodes[a].commitIndex)
  {
    if k == 0 {
      cs', steps' := cs, steps;
    } else {
      var cs1, steps1 := AllLearn(cs, steps, a, ps, k - 1);
      assert Ready(Last(cs1), a, ps[k - 1]);
      cs', steps' := CatchesUp(cs1, steps1, a, ps[k - 1]);
      StillReady(Last(cs1), Last(cs'), a, ps, k - 1);
      InformedNext(Last(cs1), Last(cs'), a, ps, k - 1, Last(cs).nodes[a].commitIndex);
      CommitIsIndex(cs', steps', a);
      ContinuesFurther(cs, steps, cs1, steps1, cs', steps');
    }
  }

  /** A peer that has committed as much as a leader that has committed its whole log has the same log, if that ends in
      the leader's term. */
  lemma SameLogAndCommit(cs: seq<Cluster>, steps: seq<Step>, a: int, p: int)
    requires IsTimelyRun(cs, steps) && Ready(Last(cs), a, p)
    requires var l := Last(cs).nodes[a];
             && l.log != [] && l.log[|l.log| - 1].term == l.currentTerm && l.commitIndex == |l.log| - 1
             && Last(cs).nodes[p].commitIndex >= l.commitIndex
    ensures Last(cs).nodes[p].log == Last(cs).nodes[a].log
    ensures Last(cs).nodes[p].commitIndex == Last(cs).nodes[a].commitIndex
  {
    var l, f := Last(cs).nodes[a], Last(cs).nodes[p];
    CommitIsIndex(cs, steps, p);
    forall i | 0 <= i < |l.log|
      ensures l.log[i] == f.log[i]
    {
      StateMachineSafety(cs, steps, |steps|, |steps|, a, p, i);
    }
    assert f.log[..|l.log|] == l.log;
    CraftLate.SameAsLeader(cs, steps, a, p);
  }

  // ---------------------------------------------------------------------------------------
  // Delivering

  /** Only the sender of the node has moved on. */
  ghost predicate OnlySender(c: Cluster, c': Cluster, p: int) {
    && p in c.nodes && p in c'.nodes
    && var n, n' := c.nodes[p], c'.nodes[p];
       c'.nodes == c.nodes[p := n.(sender := n'.sender, delivered := n'.delivered, lastApplied := n'.lastApplied)]
  }

  lemma OnlySenderTrans(c: Cluster, c1: Cluster, c2: Cluster, p: int)
    requires OnlySender(c, c1, p) && OnlySender(c1, c2, p)
    ensures OnlySender(c, c2, p)
  {
  }

  lemma RunDelivery(cs: seq<Cluster>, steps: seq<Step>, p: int)
    requires IsTimelyRun(cs, steps) && p in Last(cs).nodes
    ensures DeliveryOk(Last(cs).nodes[p])
  {
    RunCommits(cs, steps, |steps|);
  }

  lemma {:induction false} EmitsAll(cs: seq<Cluster>, steps: seq<Step>, p: int) returns (cs': seq<Cluster>, steps': seq<Step>)
    requires IsTimelyRun(cs, steps) && p in Last(cs).nodes
    ensures Continues(cs, steps, cs', steps') && OnlySender(Last(cs), Last(cs'), p)
    ensures Last(cs').nodes[p].sender.next >= Last(cs').nodes[p].sender.count
    ensures Last(cs').nodes[p].lastApplied == Last(cs).nodes[p].lastApplied
    decreases Last(cs).nodes[p].sender.count - Last(cs).nodes[p].sender.next
  {
    var n := Last(cs).nodes[p];
    if n.sender.next >= n.sender.count {
      cs', steps' := cs, steps;
    } else {
      RunDelivery(cs, steps, p);
      var cs1, steps1 := OneStep(cs, steps, Emit(p));
      cs', steps' := EmitsAll(cs1, steps1, p);
      OnlySenderTrans(Last(cs), Last(cs1), Last(cs'), p);
      ContinuesFurther(cs, steps, cs1, steps1, cs', steps');
    }
  }

  /** From every state of a timely run, a node can deliver all that it has committed. */
  lemma DeliversAll(cs: seq<Cluster>, steps: seq<Step>, p: int) returns (cs': seq<Cluster>, steps': seq<Step>)
    requires IsTimelyRun(cs, steps) && p in Last(cs).nodes
    ensures Continues(cs, steps, cs', steps') && OnlySender(Last(cs), Last(cs'), p)
    ensures |Last(cs').nodes[p].delivered| == Last(cs).nodes[p].commitIndex + 1
  {
    var cs1, steps1 := EmitsAll(cs, steps, p);
    var cs2, steps2 := OneStep(cs1, steps1, Take(p));
    RunDelivery(cs1, steps1, p);
    cs', steps' := EmitsAll(cs2, steps2, p);
    RunDelivery(cs', steps', p);
    OnlySenderTrans(Last(cs), Last(cs1), Last(cs2), p);
    OnlySenderTrans(Last(cs), Last(cs2), Last(cs'), p);
    ContinuesFurther(cs, steps, cs1, steps1, cs2, steps2);
    ContinuesFurther(cs, steps, cs2, steps2, cs', steps');
  }

  /** The nodes have committed up to `i`, no further, with this command there. */
  ghost predicate AllCommitted(c: Cluster, qs: seq<int>, i: nat, command: int) {
    forall j :: 0 <= j < |qs| ==> CommittedAt(c, qs[j], i, command)
  }

  predicate CommittedAt(c: Cluster, q: int, i: nat, command: int) {
    q in c.nodes && c.nodes[q].commitIndex == i < |c.nodes[q].log| && c.nodes[q].log[i].command == command
  }

  /** The node has delivered the command at index `i`, and nothing after it. */
  predicate DeliveredAt(c: Cluster, q: int, i: nat, command: int) {
    && q in c.nodes && |c.nodes[q].delivered| == i + 1
    && c.nodes[q].delivered[i].index == i && c.nodes[q].delivered[i].command == command
  }

  ghost predicate AllDelivered(c: Cluster, qs: seq<int>, k: nat, i: nat, command: int)
    requires k <= |qs|
  {
    forall j :: 0 <= j < k ==> DeliveredAt(c, qs[j], i, command)
  }

  lemma DeliveredNext(c: Cluster, c': Cluster, qs: seq<int>, k: nat, i: nat, command: int)
    requires k < |qs| && OnlySender(c, c', qs[k]) && AllCommitted(c, qs, i, command) && AllDelivered(c, qs, k, i, command)
    requires DeliveredAt(c', qs[k], i, command)
    ensures AllCommitted(c', qs, i, command) && AllDelivered(c', qs, k + 1, i, command)
  {
    forall j | 0 <= j < |qs|
      ensures CommittedAt(c', qs[j], i, command)
      ensures j <= k ==> DeliveredAt(c', qs[j], i, command)
    {
      assert CommittedAt(c, qs[j], i, command);
      assert j < k ==> DeliveredAt(c, qs[j], i, command);
    }
  }

  lemma {:induction false} AllDeliver(cs: seq<Cluster>, steps: seq<Step>, qs: seq<int>, k: nat, i: nat, command: int)
    returns (cs': seq<Cluster>, steps': seq<Step>)
    requires IsTimelyRun(cs, steps) && k <= |qs| && AllCommitted(Last(cs), qs, i, command)
    ensures Continues(cs, steps, cs', steps')
    ensures AllCommitted(Last(cs'), qs, i, command) && AllDelivered(Last(cs'), qs, k, i, command)
  {
    if k == 0 {
      cs', steps' := cs, steps;
    } else {
      var cs1, steps1 := AllDeliver(cs, steps, qs, k - 1, i, command);
      var q := qs[k - 1];
      assert CommittedAt(Last(cs1), q, i, command);
      cs', steps' := DeliversAll(cs1, steps1, q);
      DeliveredIsLog(cs', steps', |steps'|, q);
      DeliveredNext(Last(cs1), Last(cs'), qs, k - 1, i, command);
      ContinuesFurther(cs, steps, cs1, steps1, cs', steps');
    }
  }

  /** A command that is given to a leader that can reach a majority can be delivered by the leader and by every one of
      those peers, at the index at which it was put. */
  lemma CommandCanReach(cs: seq<Cluster>, steps: seq<Step>, a: int, ps: seq<int>, command: int)
    returns (cs': seq<Cluster>, steps': seq<Step>)
    requires IsTimelyRun(cs, steps) && a in Last(cs).nodes && Distinct(ps) && AllReady(Last(cs), a, ps)
    requires ps != [] && (1 + |ps|) * 2 > |Last(cs).nodes[a].peerIds| + 1
    ensures Continues(cs, steps, cs', steps')
    ensures AllCommitted(Last(cs'), ps + [a], |Last(cs).nodes[a].log|, command)
    ensures AllDelivered(Last(cs'), ps + [a], |ps| + 1, |Last(cs).nodes[a].log|, command)
  {
    var i, qs := |Last(cs).nodes[a].log|, ps + [a];
    var cs1, steps1 := CommandCanCommit(cs, steps, a, ps, command);
    var cs2, steps2 := AllLearn(cs1, steps1, a, ps, |ps|);
    forall j | 0 <= j < |qs|
      ensures CommittedAt(Last(cs2), qs[j], i, command)
    {
      if j < |ps| {
        assert Ready(Last(cs2), a, ps[j]);
        SameLogAndCommit(cs2, steps2, a, ps[j]);
      }
    }
    cs', steps' := AllDeliver(cs2, steps2, qs, |qs|, i, command);
    ContinuesFurther(cs, steps, cs1, steps1, cs2, steps2);
    ContinuesFurther(cs, steps, cs2, steps2, cs', steps');
  }

  /** From every state of a timely run in which a majority of at least two nodes is alive, the run can go on so that each
      of them delivers any given command, all at the same index. */
  lemma CanAlwaysDeliver(cs: seq<Cluster>, steps: seq<Step>, live: set<int>, command: int)
    returns (cs': seq<Cluster>, steps': seq<Step>, i: nat)
    requires IsTimelyRun(cs, steps) && live <= Last(cs).nodes.Keys && |live| >= 2 && 2 * |live| > |Last(cs).nodes|
    requires forall p :: p in live ==> Last(cs).nodes[p].state != Dead
    ensures Continues(cs, steps, cs', steps')
    ensures forall q :: q in live ==> DeliveredAt(Last(cs'), q, i, command)
  {
    var cs1, steps1, a, ps := CraftAvailable.CanAlwaysLead(cs, steps, live);
    i := |Last(cs1).nodes[a].log|;
    cs', steps' := CommandCanReach(cs1, steps1, a, ps, command);
    ContinuesFurther(cs, steps, cs1, steps1, cs', steps');
    var qs := ps + [a];
    forall q | q in live
      ensures DeliveredAt(Last(cs'), q, i, command)
    {
      assert q in qs;
      var j :| 0 <= j < |qs| && qs[j] == q;
      assert DeliveredAt(Last(cs'), qs[j], i, command);
    }
  }
}
