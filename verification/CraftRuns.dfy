/** What one node keeps from step to step, and what an append request can and cannot do to it. */
module CraftRuns {
  import opened CraftNode
  import opened CraftCluster
  import opened CraftHistory
  import opened CraftReplication
  import opened CraftSafety

  /** Terms and commit indices do not go back, committed entries stay, and deliveries are only added to. */
  predicate Steady(n: Node, n': Node) {
    && n.currentTerm <= n'.currentTerm
    && n.commitIndex <= n'.commitIndex
    && Agree(n.log, n'.log, n.commitIndex + 1)
    && n.delivered <= n'.delivered
  }

  lemma SteadyTrans(a: Node, b: Node, c: Node)
    requires Steady(a, b) && Steady(b, c)
    ensures Steady(a, c)
  {
  }

  /** The effect of an accepted request, in terms of the leader's log that it was taken from. */
  lemma AcceptedEffect(c: Cluster, h: History, n: Node, peer: int, req: AppendRequest)
    requires Reigns(c, h) && Logs(c, h) && VoterLogs(h) && CommitOk(h, c.nodes.Keys, n)
    requires RequestOk(c, h, peer, req) && Origin(h, n.log)
    requires n.currentTerm <= req.term && PrevMatches(n.log, req)
    ensures var n' := FollowerAppend(n, req).0;
            && Merged(n.log, n'.log, h.reigns[req.term].log, req.prevLogIndex + 1 + |req.entries|)
            && n'.commitIndex == Max(n.commitIndex, req.leaderCommit)
            && req.leaderCommit < req.prevLogIndex + 1 + |req.entries| <= |n'.log|
            && Steady(n, n') && n'.delivered == n.delivered
  {
    AcceptedMerge(c, h, n, peer, req);
    AcceptedForm(n, req);
  }

  lemma AcceptedMerge(c: Cluster, h: History, n: Node, peer: int, req: AppendRequest)
    requires Reigns(c, h) && Logs(c, h) && VoterLogs(h) && CommitOk(h, c.nodes.Keys, n)
    requires RequestOk(c, h, peer, req) && Origin(h, n.log)
    requires n.currentTerm <= req.term && PrevMatches(n.log, req)
    ensures -1 <= req.prevLogIndex < |n.log|
    ensures var log := MergeLog(n.log, req.prevLogIndex, req.entries);
            && Merged(n.log, log, h.reigns[req.term].log, req.prevLogIndex + 1 + |req.entries|)
            && n.commitIndex < |log| && Agree(n.log, log, n.commitIndex + 1)
  {
    assert ReignOk(c, h, req.term);
    MergeFacts(c, h, peer, n.log, req);
    MergeBeyondCommit(c, h, n, MergeLog(n.log, req.prevLogIndex, req.entries), req.term,
                      req.prevLogIndex + 1 + |req.entries|);
  }

  lemma AcceptedForm(n: Node, req: AppendRequest)
    requires -1 <= req.prevLogIndex < |n.log| && PrevMatches(n.log, req)
    ensures var n', log := FollowerAppend(n, req).0, MergeLog(n.log, req.prevLogIndex, req.entries);
            && n' == n.(log := log, commitIndex := n'.commitIndex)
            && req.prevLogIndex + 1 + |req.entries| <= |log|
            && (req.leaderCommit < |log| ==> n'.commitIndex == Max(n.commitIndex, req.leaderCommit))
  {
  }

  lemma FollowerSteady(c: Cluster, h: History, n: Node, peer: int, req: AppendRequest)
    requires Reigns(c, h) && Logs(c, h) && VoterLogs(h) && CommitOk(h, c.nodes.Keys, n)
    requires RequestOk(c, h, peer, req) && Origin(h, n.log) && n.currentTerm <= req.term
    ensures Steady(n, FollowerAppend(n, req).0)
  {
    if PrevMatches(n.log, req) {
      AcceptedEffect(c, h, n, peer, req);
    }
  }

  /** The node that handles the request, once it follows the term of the request. */
  function Following(n: Node, t: int): Node {
    if t > n.currentTerm || n.state != Follower then BecomeFollower(n, t) else n
  }

  lemma HandleAsFollower(n: Node, req: AppendRequest)
    requires req.prevLogIndex >= -1 && n.currentTerm <= req.term
    ensures HandleAppendEntries(n, req) == FollowerAppend(Following(n, req.term), req)
  {
  }

  /** Following a term changes nothing that an accepted request depends on. */
  lemma FollowingAppend(n: Node, req: AppendRequest)
    requires req.prevLogIndex >= -1 && n.currentTerm <= req.term
    ensures var (n1, r1) := HandleAppendEntries(n, req);
            var (n2, r2) := FollowerAppend(n, req);
            n1.log == n2.log && n1.commitIndex == n2.commitIndex && n1.delivered == n2.delivered
            && n1.currentTerm == req.term && r1.success == r2.success
  {
    HandleAsFollower(n, req);
  }

  lemma AppendSteady(c: Cluster, h: History, n: Node, peer: int, req: AppendRequest)
    requires Reigns(c, h) && Logs(c, h) && VoterLogs(h) && CommitOk(h, c.nodes.Keys, n)
    requires RequestOk(c, h, peer, req) && Origin(h, n.log)
    ensures Steady(n, HandleAppendEntries(n, req).0)
  {
    if n.currentTerm <= req.term {
      FollowerSteady(c, h, n, peer, req);
      FollowingAppend(n, req);
    }
  }

  lemma OtherSteady(c: Cluster, s: Step, a: int)
    requires Enabled(c, s) && Timely(c, s) && !s.DeliverAppend? && a in c.nodes
    requires -1 <= c.nodes[a].commitIndex < |c.nodes[a].log|
    ensures Steady(c.nodes[a], Apply(c, s).nodes[a])
  {
    if s.DeliverVoteReply? {
      VoteReplySteady(c, s.pk, a);
    } else if s.DeliverAppendReply? {
      AppendReplySteady(c, s.pk, a);
    } else {
      QuietSteady(c, s, a);
    }
  }

  lemma VoteReplySteady(c: Cluster, pk: Packet, a: int)
    requires Enabled(c, DeliverVoteReply(pk)) && Timely(c, DeliverVoteReply(pk)) && a in c.nodes
    requires -1 <= c.nodes[a].commitIndex < |c.nodes[a].log|
    ensures Steady(c.nodes[a], Apply(c, DeliverVoteReply(pk)).nodes[a])
  {
  }

  lemma AppendReplySteady(c: Cluster, pk: Packet, a: int)
    requires Enabled(c, DeliverAppendReply(pk)) && a in c.nodes
    requires -1 <= c.nodes[a].commitIndex < |c.nodes[a].log|
    ensures Steady(c.nodes[a], Apply(c, DeliverAppendReply(pk)).nodes[a])
  {
  }

  lemma QuietSteady(c: Cluster, s: Step, a: int)
    requires Enabled(c, s) && !s.DeliverAppend? && !s.DeliverVoteReply? && !s.DeliverAppendReply? && a in c.nodes
    requires -1 <= c.nodes[a].commitIndex < |c.nodes[a].log|
    ensures Steady(c.nodes[a], Apply(c, s).nodes[a])
  {
  }

  lemma RunRequest(cs: seq<Cluster>, steps: seq<Step>, k: nat, pk: Packet)
    requires IsTimelyRun(cs, steps) && k <= |steps| && pk in cs[k].net && pk.AppendReq?
    ensures RequestOk(cs[k], HistoryAt(cs, steps, k), pk.peer, pk.append)
  {
    RunInv(cs, steps, k);
  }

  lemma StepSteady(cs: seq<Cluster>, steps: seq<Step>, k: nat, a: int)
    requires IsTimelyRun(cs, steps) && k < |steps| && a in cs[k].nodes
    ensures a in cs[k + 1].nodes && Steady(cs[k].nodes[a], cs[k + 1].nodes[a])
  {
    RunCommits(cs, steps, k);
    assert StepOk(cs, steps, k) && TimelyAt(cs, steps, k);
    ApplyMembers(cs[k], steps[k]);
    if steps[k].DeliverAppend? {
      DeliverSteady(cs, steps, k, a);
    } else {
      OtherSteady(cs[k], steps[k], a);
    }
  }

  lemma DeliverSteady(cs: seq<Cluster>, steps: seq<Step>, k: nat, a: int)
    requires IsTimelyRun(cs, steps) && k < |steps| && a in cs[k].nodes && steps[k].DeliverAppend?
    ensures a in cs[k + 1].nodes && Steady(cs[k].nodes[a], cs[k + 1].nodes[a])
  {
    var pk := steps[k].pk;
    var h := HistoryAt(cs, steps, k);
    assert StepOk(cs, steps, k);
    RunCommits(cs, steps, k);
    assert CommitOk(h, cs[k].nodes.Keys, cs[k].nodes[a]);
    if a == pk.peer {
      RunLogs(cs, steps, k);
      RunRequest(cs, steps, k, pk);
      AppendSteady(cs[k], h, cs[k].nodes[a], pk.peer, pk.append);
    }
  }

  /** Over any stretch of a run a node's term and commit index do not go back, no truncation touches what
      it has committed, and what it has delivered stays delivered. */
  lemma {:induction false} CommittedStays(cs: seq<Cluster>, steps: seq<Step>, j: nat, k: nat, a: int)
    requires IsTimelyRun(cs, steps) && j <= k <= |steps| && a in cs[j].nodes
    ensures a in cs[k].nodes && Steady(cs[j].nodes[a], cs[k].nodes[a])
    decreases k
  {
    if j == k {
      RunCommits(cs, steps, k);
      assert CommitOk(HistoryAt(cs, steps, k), cs[k].nodes.Keys, cs[k].nodes[a]);
    } else {
      CommittedStays(cs, steps, j, k - 1, a);
      StepSteady(cs, steps, k - 1, a);
      SteadyTrans(cs[j].nodes[a], cs[k - 1].nodes[a], cs[k].nodes[a]);
    }
  }

  /** The step delivers a request that the node accepts. */
  ghost predicate Accepts(c: Cluster, s: Step) {
    && Enabled(c, s) && s.DeliverAppend? && c.nodes[s.pk.peer].state != Dead
    && HandleAppendEntries(c.nodes[s.pk.peer], s.pk.append).1.success
  }

  lemma AcceptsForm(c: Cluster, s: Step)
    requires Accepts(c, s)
    ensures var n := c.nodes[s.pk.peer];
            && n.currentTerm <= s.pk.append.term && PrevMatches(n.log, s.pk.append)
            && Apply(c, s).nodes[s.pk.peer] == HandleAppendEntries(n, s.pk.append).0
  {
  }

  lemma RunAccepts(cs: seq<Cluster>, steps: seq<Step>, k: nat)
    requires IsTimelyRun(cs, steps) && k < |steps| && Accepts(cs[k], steps[k])
    ensures steps[k].pk.peer in cs[k + 1].nodes
    ensures var pk, h := steps[k].pk, HistoryAt(cs, steps, k);
            var n, n', req := cs[k].nodes[pk.peer], cs[k + 1].nodes[pk.peer], pk.append;
            && req.term in h.reigns
            && Merged(n.log, n'.log, h.reigns[req.term].log, req.prevLogIndex + 1 + |req.entries|)
            && n'.commitIndex == Max(n.commitIndex, req.leaderCommit)
            && req.leaderCommit < req.prevLogIndex + 1 + |req.entries| <= |n'.log|
  {
    var pk, h := steps[k].pk, HistoryAt(cs, steps, k);
    assert StepOk(cs, steps, k);
    AcceptsForm(cs[k], steps[k]);
    RunCommits(cs, steps, k);
    assert CommitOk(h, cs[k].nodes.Keys, cs[k].nodes[pk.peer]);
    RunLogs(cs, steps, k);
    RunRequest(cs, steps, k, pk);
    AcceptedEffect(cs[k], h, cs[k].nodes[pk.peer], pk.peer, pk.append);
    FollowingAppend(cs[k].nodes[pk.peer], pk.append);
  }

  /** Although the handler takes the minimum with the length of the whole log, a follower's commit index
      never passes the last index that the request vouches for. */
  lemma FollowerCommitBound(cs: seq<Cluster>, steps: seq<Step>, k: nat)
    requires IsTimelyRun(cs, steps) && k < |steps| && Accepts(cs[k], steps[k])
    ensures steps[k].pk.peer in cs[k + 1].nodes
    ensures var pk := steps[k].pk;
            var n, n', req := cs[k].nodes[pk.peer], cs[k + 1].nodes[pk.peer], pk.append;
            && n'.commitIndex == Max(n.commitIndex, req.leaderCommit)
            && req.leaderCommit <= req.prevLogIndex + |req.entries| < |n'.log|
  {
    RunAccepts(cs, steps, k);
  }

  /** However late or often a leader's request arrives, and whatever has become of the leader since: what the node shares
      with the log that the leader had at some earlier time, it goes on sharing. Nothing of it is cut off or rewritten. */
  lemma DelayedAppendIsHarmless(cs: seq<Cluster>, steps: seq<Step>, j: nat, k: nat, a: int, m: nat)
    requires IsTimelyRun(cs, steps) && j <= k < |steps| && Accepts(cs[k], steps[k])
    requires a in cs[j].nodes && cs[j].nodes[a].state == Leader
    requires cs[j].nodes[a].currentTerm == steps[k].pk.append.term
    requires m <= |cs[j].nodes[a].log| && m <= |cs[k].nodes[steps[k].pk.peer].log|
    requires cs[k].nodes[steps[k].pk.peer].log[..m] == cs[j].nodes[a].log[..m]
    ensures steps[k].pk.peer in cs[k + 1].nodes
    ensures var log := cs[k + 1].nodes[steps[k].pk.peer].log;
            m <= |log| && log[..m] == cs[j].nodes[a].log[..m]
  {
    RunAccepts(cs, steps, k);
    LeaderOfTerm(cs, steps, j, a);
    HistoryGrows(cs, steps, j, k);
    var req := steps[k].pk.append;
    var l, reign := cs[j].nodes[a].log, HistoryAt(cs, steps, k).reigns[req.term].log;
    var log, log' := cs[k].nodes[steps[k].pk.peer].log, cs[k + 1].nodes[steps[k].pk.peer].log;
    SliceAgree(log, l, m);
    assert Agree(l, reign, m) && Agree(log, reign, m);
    SharedStays(log, log', reign, req.prevLogIndex + 1 + |req.entries|, m);
  }

  lemma SliceAgree(a: Log, b: Log, m: nat)
    requires m <= |a| && m <= |b| && a[..m] == b[..m]
    ensures Agree(a, b, m)
  {
    forall i | 0 <= i < m
      ensures a[i] == b[i]
    {
      assert a[..m][i] == b[..m][i];
    }
  }

  lemma SharedStays(log: Log, log': Log, l: Log, k: int, m: nat)
    requires Merged(log, log', l, k) && Agree(log, l, m)
    ensures Agree(log', l, m)
  {
  }
}
